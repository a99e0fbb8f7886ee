/** The values that travel between the message table, the hub and the clients. */
module Models {
  import opened Base64

  type UserId = int
  type ChatId = int

  datatype Message = Message(
    id: int, chat: ChatId, user: UserId, content: Bytes, kind: string, isE2E: bool, createdAt: int)

  datatype Frame =
    | MessageFrame(message: Message)
    | TypingFrame(chat: ChatId, user: UserId)
    | OnlineFrame(user: UserId, online: bool)
}
