# A verified model of the messenger's core

This project models the stateful core of the messenger and proves what it promises: the token-bucket
limiter, the refresh-token session protocol, the WebSocket hub, the message log, direct chats, the
encrypted frame and the reconnecting client. `dafny verify dfyconfig.toml` checks all of it.

Time is a number that never goes backwards, floats are reals, and each SQL statement or transaction is
one atomic step. Randomness, the clock and the database's answers are parameters.

| files | what they model |
|---|---|
| `RateLimit.dfy` | the limiter as a function of its history, its exact specification, eviction, the `RateLimiter` object |
| `RateLimitLocks.dfy` | the same limiter at the grain of its two locks: lock discipline, progress, refinement |
| `RateLimitSpends.dfy`, `RateLimitRuns.dfy` | what interleaved calls are granted, and for which limiters |
| `RefreshTokens.dfy`, `SessionProtocol.dfy`, `AuthHandler.dfy` | the refresh_tokens table, interleaved requests over it, the handlers |
| `Hub.dfy`, `HubSteps.dfy` | the hub and its client queues with atomic methods, the objects that follow that machine, and the send split into its four steps |
| `History.dfy`, `LiveDelivery.dfy` | reading the message log back, and posting to it |
| `DirectChats.dfy` | find-or-create of direct chats |
| `Base64.dfy`, `Crypto.dfy` | the text encoding and the encrypted frame, on the Go and the Dart side |
| `WsClient.dfy` | the client's reconnect logic |
| `Models.dfy`, `Options.dfy` | shared values |

Several promises turn out to be conditional in the code. Each is proved as an if-and-only-if whose
condition can be read off before the call:

- Forgetting idle limiter entries is invisible exactly when burst <= 0 or burst <= 600 * rps
  (`EvictionInvisibleIff`). Under the same condition exactly, refused calls never matter
  (`RefusalsInvisibleIff`) and interleaved calls are granted as sequential ones are (`SpendsFollowIff`). The
  window bound for interleaved calls holds exactly when 0 <= burst <= 600 * rps (`WindowsBoundedIff`). The
  failing histories are built inside the proofs; the three limiters the server builds meet every condition.
- A refresh that answers 200 has stored its new token exactly when the presented row is still there at the
  rotation (`AnsweredTokenStoredIff`, `RacingRefreshStoresNothing`): `RotateRefreshToken` returns no error
  when it deletes nothing.
- A logout ends all access after fifteen minutes exactly when none of the user's refreshes is between its
  SELECT and its issue step (`LogoutEndsAccessIff`, `LogoutMissesARefresh`).
- Closing the channel of a client whose queue is full can lead to no panic exactly when no other send in
  flight holds that client (`CloseIsSafeIff`, `OverlappingSendsPanic`).
- Paging rebuilds a chat, for every page size and every way the database may break ties, exactly when creation
  times strictly increase with the ids (`PagingRebuildsIff`): the cursor is an id, the order is by time.
- A request keeps direct chats unique exactly when it inserts no direct chat or one whose members share none
  already (`StaysUniqueIff`, `WideRequestsDuplicate`): only requests that name one member are looked up.

Where code and comments disagree, the model follows the code. A comment in the WebSocket client promises a
reconnect delay of 3, 6, 12 seconds; the code always waits 3. The Dart `_sha256` only takes the first 32
bytes. The Go side hashes the shared secret before use and the Dart side does not, so the two read each
other's frames only when both end up with the same AES key, which is how `CrossRead` is stated.

## Model

| member | source | states |
|---|---|---|
| RateLimit.AcceptsIffWindowOpen | backend/internal/security/ratelimit.go:39-63 | After any history of calls, for any rate and burst, a call is accepted if and only if every window from an earlier call of its IP (or itself) up to it has room for one more under burst + rps * T: the lazy bucket equals a declarative specification, and refuses nothing needlessly |
| RateLimit.RateBound | backend/internal/security/ratelimit.go:39-63 | From any call of an IP up to any later accepted one, at most burst + rps * T calls of that IP are accepted |
| RateLimit.AnyWindowIff | backend/internal/security/ratelimit.go:39-63 | In every history and any time window of length T, whether or not it starts or ends at a call, at most burst + rps * T calls of an IP are accepted, if and only if neither rate nor burst is negative |
| RateLimit.RefillLaw | backend/internal/security/ratelimit.go:39-63 | After any history without calls of an IP, the IP is granted burst calls at one instant and is then refused; left alone for k / rps seconds, k up to burst, it is granted exactly k more at one instant and refused the next |
| RateLimit.BucketIsLowestLevel | backend/internal/security/ratelimit.go:51-61 | The one stored number is the minimum, over all earlier calls of the IP, of a bucket full at that call and drained by what was accepted since; one of them attains it |
| RateLimit.EvictionInvisibleIff | backend/internal/security/ratelimit.go:80-94 | Sweeps inserted anywhere in any time-ordered history of any IPs never change an answer, if and only if burst <= 0 or burst <= 600 * rps |
| RateLimit.EvictionDoesNotShow | backend/internal/security/ratelimit.go:84-92 | Under that condition a limiter that sweeps answers each call as one that never forgets |
| RateLimit.EvictionShows | backend/internal/security/ratelimit.go:84-92 | Without it, draining a bucket, resting just over ten minutes, sweeping and draining again gets one call too many accepted |
| RateLimit.ServerLimitersAreExact | backend/cmd/server/main.go:55-59 | The auth, API and WebSocket limiters follow the exact window specification with sweeps at arbitrary moments |
| RateLimit.OtherIpsDoNotMatter | backend/internal/security/ratelimit.go:39-63 | Deleting all calls of other IPs from a history, sweeps kept, leaves every answer to this IP unchanged |
| RateLimit.RefusedCallsDoNotMatter | backend/internal/security/ratelimit.go:51-62 | Deleting a refused call leaves every later answer, to every IP, unchanged, although the call moved the refill mark |
| RateLimit.RefusedCallsDoNotMatterWithSweeps | backend/internal/security/ratelimit.go:51-94 | The same with sweeps anywhere, when sweeps do not show |
| RateLimit.RefusalsInvisibleIff | backend/internal/security/ratelimit.go:51-94 | Deleting any refused call from any ordered history with sweeps never changes a later answer, if and only if burst <= 0 or burst <= 600 * rps: for other limiters a refused call can keep an entry from being forgotten |
| RateLimit.ShortRest | backend/internal/security/ratelimit.go:87-89 | When burst > 600 * rps there is a rest that makes an entry stale and still leaves it not full |
| RateLimit.RateLimiter.constructor | backend/internal/security/ratelimit.go:28-37 | A new limiter knows no IP |
| RateLimit.RateLimiter.Lookup | backend/internal/security/ratelimit.go:40-46 | The step under the map lock: an unknown IP gets a fresh entry with burst tokens seen now, no other entry changes, and no two IPs ever share an entry object |
| RateLimit.RateLimiter.Spend | backend/internal/security/ratelimit.go:51-62 | The entry holds min(burst, tokens + elapsed * rps), the call is granted exactly when that is at least one, one token is then taken, and the mark moves either way, as the specification's bucket does |
| RateLimit.RateLimiter.Allow | backend/internal/security/ratelimit.go:39-63 | The mutable limiter's answer and whole new state are those of the specification the theorems speak about; other entries are untouched |
| RateLimit.RateLimiter.Cleanup | backend/internal/security/ratelimit.go:84-92 | One round deletes exactly the entries idle for more than ten minutes, in whatever order the map is walked |
| RateLimitLocks.NoDeadlock | backend/internal/security/ratelimit.go:40-49 | In every reachable state with an unfinished call or a sweep under way, one of those under way can take its next step; new calls, new sweeps and the clock do not count |
| RateLimitLocks.MovesRunOut | backend/internal/security/ratelimit.go:40-92 | However such steps are taken from a reachable state, each leaves exactly one less to do, so they run out |
| RateLimitLocks.EverythingFinishes | backend/internal/security/ratelimit.go:40-92 | From every reachable state every call under way returns and the sweep ends, with no further arrival, sweep or passing of time |
| RateLimitLocks.LocksAlwaysMatch | backend/internal/security/ratelimit.go:84-92 | In every reachable state the locks are held by exactly those inside their critical sections, no two IPs share an entry, and an entry in the map serves the IP whose calls looked it up |
| RateLimitLocks.UninterruptedCallIsAllow | backend/internal/security/ratelimit.go:39-63 | A call whose four lock steps are not interrupted is enabled, and does to the buckets exactly what the sequential limiter does, same answer included |
| RateLimitSpends.AlwaysFollows | backend/internal/security/ratelimit.go:48-92 | For 0 <= burst <= 600 * rps, in every reachable state the entry in the map, or the full one a lookup would create, grants from now on what the sequential limiter would after the same spends, and has granted the same |
| RateLimitSpends.SpendGrantedIff | backend/internal/security/ratelimit.go:48-62 | For burst <= 0 or burst <= 600 * rps, in every interleaving a spend from the entry in the map is granted if and only if every window over the IP's earlier such spends has room: nothing is refused needlessly under concurrency |
| RateLimitSpends.AcceptedInWindow | backend/internal/security/ratelimit.go:40-62 | For 0 <= burst <= 600 * rps, in every interleaving the calls of an IP accepted in any window number at most burst + rps * T, plus those that spent from an entry swept out after they had looked it up |
| RateLimitRuns.EveryHistoryRuns | backend/internal/security/ratelimit.go:39-94 | Every ordered history of calls and sweeps is a run of the lock machine that leaves the same buckets, grants the same calls and orphans no entry |
| RateLimitRuns.WindowsBoundedIff | backend/internal/security/ratelimit.go:39-94 | That window bound holds in every window of every interleaving if and only if 0 <= burst <= 600 * rps |
| RateLimitRuns.SpendsFollowIff | backend/internal/security/ratelimit.go:39-94 | In every interleaving the spends from entries in the map are granted as the sequential limiter grants them, if and only if burst <= 0 or burst <= 600 * rps |
| RefreshTokens.RotationConservesSessions | backend/internal/security/refresh.go:24-55 | A rotation changes nothing, or removes exactly one row and adds one; no user's number of sessions changes either way |
| RefreshTokens.TokenStore.SaveRefreshToken | backend/internal/security/refresh.go:58-68 | The row is stored for thirty days unless the hash is there already; no other row changes |
| RefreshTokens.TokenStore.RotateRefreshToken | backend/internal/security/refresh.go:24-55 | The transaction's whole effect; an error is reported exactly on a conflicting insert, and not when nothing was deleted: a new token ends up stored if and only if the old row was live |
| RefreshTokens.TokenStore.InvalidateAllTokens | backend/internal/security/refresh.go:70-75 | The user has no row left and every other row stays |
| SessionProtocol.LineageIsAPath | backend/internal/auth/handler.go:142-180 | Over every interleaving of login, refresh, logout and clock steps: each login family has at most one row, each token is consumed and produced by at most one committed rotation, rotations stay in their family and link into paths from its login, and each row has its root login's user and a lifetime counted from the family's last insert |
| SessionProtocol.LogoutIsPermanent | backend/internal/security/refresh.go:70-75 | After a logout no token descended from a login saved earlier is ever in the table again, even if a refresh had passed its SELECT before |
| SessionProtocol.SessionsAreConserved | backend/internal/security/refresh.go:24-75 | In every reachable state a user has exactly as many rows as logins saved since the user's last logout |
| SessionProtocol.ExpiredFamilyIsOver | backend/internal/security/refresh.go:36-48 | Thirty days after a family's last insert nothing is ever inserted for it again |
| SessionProtocol.DeadFamilyStaysDead | backend/internal/security/refresh.go:34-42 | A family that has lost its row never gets one back |
| SessionProtocol.MintedExpireSoon | backend/internal/auth/handler.go:247-261 | At every moment, every access token minted so far expires within fifteen minutes |
| SessionProtocol.MintedIsAccepted | backend/internal/auth/handler.go:247-261 | Each login and refresh mints an access token for its user, accepted for at least fourteen minutes and 59 seconds and never from fifteen minutes on |
| SessionProtocol.MintedForOwner | backend/internal/auth/handler.go:151-164 | In every reachable state every access token of a saved family carries the user of the family's login |
| SessionProtocol.SilentFamilyMintsNothing | backend/internal/auth/handler.go:151-174 | A family with no row and no refresh between SELECT and issue never mints an access token again |
| SessionProtocol.AccessEndsAfterLogout | backend/internal/middleware/auth.go:27-37 | With no refresh of the user between SELECT and issue at logout time L, no access token of an earlier session is accepted at or after L plus fifteen minutes |
| SessionProtocol.LogoutEndsAccessIff | backend/internal/auth/handler.go:151-187 | For every reachable state: all continuations of a logout are free of such tokens if and only if none of the user's refreshes is between its SELECT and its issue step |
| SessionProtocol.LogoutMissesARefresh | backend/internal/auth/handler.go:151-164 | A three-step run after which a logout does not end access in time |
| SessionProtocol.AnsweredTokenStoredIff | backend/internal/security/refresh.go:34-55 | In every run the rotation of a refresh never reports a conflict, and the token it answers with is stored if and only if the presented row is still present and unexpired |
| SessionProtocol.RacingRefreshStoresNothing | backend/internal/security/refresh.go:40-42 | A run in which the second of two racing refreshes answers with a token that is not in the table |
| AuthHandler.Handler.IssueTokens | backend/internal/auth/handler.go:247-261 | The expiry claim is fifteen minutes ahead, less than a second short |
| AuthHandler.Handler.Login | backend/internal/auth/handler.go:98-139 | An unknown email and a wrong password get the same refusal and change nothing; otherwise the session is stored and live unless its insert fails, which the answer does not show |
| AuthHandler.Handler.Refresh | backend/internal/auth/handler.go:142-180 | Refused exactly when no unexpired row matches; otherwise the table is rotated, a conflict is answered with an error, and an unused new token is live afterwards if and only if the row was still unexpired at the rotation |
| AuthHandler.Handler.Logout | backend/internal/auth/handler.go:183-187 | Afterwards none of the user's tokens can be refreshed |
| Hub.AlwaysSound | backend/internal/chat/hub.go:31-69 | In every run each mapped client belongs to its user and has an open channel, no queue exceeds 256, and a writer loses at most the frame whose write failed |
| Hub.GapFreeDelivery | backend/internal/chat/hub.go:31-77 | What was ever enqueued to a client is exactly the contiguous run of frames sent to its user from its registration until it leaves the map; it leaves at the first event at which the user connects again, one of the user's connections ends, or a frame for the user finds 256 queued, that frame being the only one dropped and the channel closed in that case only; while the writer has not failed, written ++ queued is that run |
| Hub.UnregisterUnmaps | backend/internal/chat/hub.go:40-43 | In every run, after an unregistration the user has no client, whichever of the user's connections ended, and every other user keeps theirs |
| Hub.UnregisteredGetsNothing | backend/internal/chat/hub.go:40-54 | From then until the user registers again nothing is enqueued to any of the user's connections |
| Hub.RegisterMaps | backend/internal/chat/hub.go:31-34 | In every run, after a registration the client is its user's current one, and every other user and connection is as before |
| Hub.Client.constructor | backend/internal/chat/client.go:31-40 | A new client has an empty, open queue and a running writer |
| Hub.Client.WritePump | backend/internal/chat/client.go:68-93 | What the writer does is a sequence of writer steps of the machine, in queue order and up to the first failing attempt; it stops with a close frame exactly when the queue is drained and the channel closed |
| Hub.Hub.Register | backend/internal/chat/hub.go:31-38 | The object takes the machine's registration step: the client becomes its user's current one; then the presence key is set and every contact is offered the online frame |
| Hub.Hub.Unregister | backend/internal/chat/hub.go:40-47 | The object takes the machine's unregistration step: the user's entry goes, whichever client it holds; then the presence key is deleted and every contact is offered the offline frame |
| Hub.Hub.SendToUser | backend/internal/chat/hub.go:49-69 | With fewer than 256 queued the frame is appended, else the client is unmapped and its channel closed; the whole state afterwards is that of the machine's delivery to that one user |
| Hub.Hub.BroadcastToChat | backend/internal/chat/hub.go:71-77 | Sending to the members one by one has the effect of the machine's one delivery to all but the excluded one |
| Hub.Hub.BroadcastOnlineStatus | backend/internal/chat/hub.go:84-106 | The same for the contacts of a user who comes or goes |
| HubSteps.PanicsIff | backend/internal/chat/hub.go:49-69 | A run panics if and only if some channel was closed while another send held it and that send went on to use it; registrations and unregistrations play no part |
| HubSteps.CloseIsSafeIff | backend/internal/chat/hub.go:62-67 | For every reachable state about to close an open channel: no continuation panics on that channel if and only if no other send in flight holds it |
| HubSteps.NoPanic | backend/internal/chat/hub.go:49-69 | With at most one send in flight per user and each client registered once, no run sends on or closes a closed channel |
| HubSteps.UninterruptedSendDelivers | backend/internal/chat/hub.go:49-69 | A send whose steps are not interrupted is enabled throughout and is the hub's delivery to that one user: two steps when fewer than 256 are queued, four otherwise |
| HubSteps.OtherStepsAreTheHubs | backend/internal/chat/hub.go:31-47 | The registrations, unregistrations and drains that interleave with sends are those of the hub |
| HubSteps.MapAlwaysSafe | backend/internal/chat/hub.go:60-68 | In every interleaving the map leads to no closed channel, so a new lookup never finds one |
| HubSteps.OverlappingSendsPanic | backend/internal/chat/hub.go:62-67 | Two overlapping sends to a user with a full queue do reach a second close |
| History.AnswerIsNewestFirst | backend/internal/chat/handler.go:97-103 | When creation times strictly increase, ORDER BY created_at DESC LIMIT has one answer only: the newest matching rows, backwards |
| History.MatchingIff | backend/internal/chat/handler.go:86-103 | The messages a fetch selects from are exactly the visible ones of the chat, with ids below the cursor when there is one |
| History.CursorCuts | backend/internal/chat/handler.go:97-99 | Asking for what precedes a message's id selects exactly the visible messages of the chat before it |
| History.PageBefore | backend/internal/chat/handler.go:97-99 | The same at a later fetch, whatever was appended to the log meanwhile |
| History.ShowRows | backend/internal/chat/handler.go:112-136 | Every row is shown in order with all its fields; its content is decrypted when the server encrypted it and it decrypts, and as stored otherwise |
| History.ReverseInPlace | backend/internal/chat/handler.go:138-141 | The two-index loop leaves the array in exactly the opposite order |
| History.GetMessages | backend/internal/chat/handler.go:62-147 | Only members get a page; a page is the query's answer, shown, oldest first, with min(limit, 100, matching) messages; when the matching messages are in strict time order it is the last of them |
| History.PageThrough | backend/internal/chat/handler.go:80-141 | The paging loop terminates and gathers what its fetches give, however the log grows; when creation times strictly increase with the ids that is every visible message present at the first fetch exactly once, oldest first |
| History.RebuiltInOrder | backend/internal/chat/handler.go:80-141 | At any point of the loop, what is left to gather is exactly what precedes the cursor, when creation times strictly increase |
| History.PagingRebuildsIff | backend/internal/chat/handler.go:97-103 | Paging rebuilds a chat for every page size, every growth of the log and every legal database answer if and only if creation times strictly increase with the ids |
| LiveDelivery.StoredShowsWhatWasSent | backend/internal/chat/client.go:137-168 | Content sent, content broadcast and content loaded back are equal, for every key, nonce and text, encrypted by users or by the server |
| LiveDelivery.PostIsRecorded | backend/internal/chat/client.go:108-179 | In every run, a member's saved post appends one visible row with the post's id, chat, user, time, flag and kind (text when empty), its content as the users encrypted it or decrypting to the text sent, and offers every member one frame with that row and the text; any other post changes nothing |
| LiveDelivery.SentIsLogged | backend/internal/chat/client.go:147-178 | What any stretch of a run sends to a chat member as messages is exactly what it appends to the chat's log, as history shows it |
| LiveDelivery.LiveFramesAreHistory | backend/internal/chat/client.go:108-179 | In every run and for every client, the message frames of a chat ever enqueued to it are a contiguous slice of the chat's log, from the client's registration to its removal, with the content history returns; none if its user is not a member |
| LiveDelivery.LogIsInIdOrder | backend/internal/chat/client.go:147-154 | In every run ids grow along the log, so those slices are in id order |
| LiveDelivery.Chat.HandleMessage | backend/internal/chat/client.go:108-179 | The handler takes the posting step of the server the theorems speak about; the appended row and the broadcast frame carry the post's own fields, and a refused or unsaved post changes neither log nor hub |
| DirectChats.DirectChatsAreUnique | backend/internal/chat/handler.go:253-302 | Over every run in which each non-group request names at most one member, the caller included, each direct chat has the two members of its request or its creator alone, and any two users share at most one |
| DirectChats.EitherSideFindsTheChat | backend/internal/chat/handler.go:253-268 | Once one of two users was answered with a direct chat, every later direct request from either side is answered with that chat, changes nothing, and the chat's members are those two |
| DirectChats.EveryRequest | backend/internal/chat/handler.go:253-302 | Every request is answered with an existing chat exactly when it names one user and a direct chat has both, changing nothing; fails exactly when otherwise a user is missing or a member other than the caller is named twice, adding nothing; and otherwise creates a chat of the kind asked for whose members are exactly the caller and those named, touching no other |
| DirectChats.DirectRequestSucceeds | backend/internal/chat/handler.go:253-302 | In every run of proper requests, a direct request between existing users is never refused and is answered with a direct chat that has both, and no one else when they differ |
| DirectChats.StaysUniqueIff | backend/internal/chat/handler.go:253-302 | Whatever the request (group or not, found or not, failing or not) and its answer, direct chats stay unique if and only if it inserts no direct chat or one whose members share none already |
| DirectChats.WideRequestsDuplicate | backend/internal/chat/handler.go:254 | A non-group request naming two users, repeated, gives the same pair two direct chats |
| DirectChats.ChatTables.NewRows | backend/internal/chat/handler.go:287-295 | The membership inserts fail exactly when a user is missing or a member other than the caller is named twice; otherwise the rows are the caller and the named members |
| DirectChats.ChatTables.CreateChat | backend/internal/chat/handler.go:240-302 | The handler does one of the three things a request may do: answer an existing chat and change nothing, create chat and members, or fail and leave both tables as they were |
| Base64.DecodeUndoesEncode | backend/internal/security/crypto.go:42-50 | Every decoder variant recovers exactly the encoded bytes, of any length (section 4 of RFC 4648) |
| Base64.Alphabet | backend/internal/security/crypto.go:42 | The symbols are A-Z, a-z, 0-9, + and /, in that order, and the padding is = (section 4 of RFC 4648) |
| Base64.QuantumBits | backend/internal/security/crypto.go:42 | Four symbols carry the bits of three bytes, highest first; one or two bytes are filled up with zero bits and padded |
| Base64.EncodesByThrees | backend/internal/security/crypto.go:42 | The data is encoded three bytes at a time, four symbols for each three |
| Base64.DartDecodesIff | frontend/lib/core/security/crypto_service.dart:117 | Dart decodes a text to given bytes if and only if the text, with '-' and '_' read as '+' and '/', is what the encoder makes of them |
| Base64.GoDecodesIff | backend/internal/security/crypto.go:47 | Go decodes a text to given bytes if and only if the text, without line breaks and with the bits its padding leaves over cleared, is what the encoder makes of them |
| Base64.BothDecode | backend/internal/security/crypto.go:42-50 | Go's and Dart's decoders both read what either encoder wrote |
| Crypto.OpensIffSealed | backend/internal/security/crypto.go:60-64 | A byte string opens to a plaintext if and only if it is a nonce followed by that plaintext sealed under it |
| Crypto.EncryptedLayout | backend/internal/security/crypto.go:26-43 | A stored text is base64 of a 12-byte nonce, a ciphertext as long as the plaintext under the 32-byte hashed key, and a 16-byte tag over it |
| Crypto.DartLayout | frontend/lib/core/security/crypto_service.dart:96-114 | The Dart text has the same layout under the first 32 bytes of the key unhashed; shorter keys are refused |
| Crypto.DecryptUndoesEncrypt | backend/internal/security/crypto.go:26-65 | Decrypt returns the plaintext of Encrypt, for keys of any length, through base64 and the frame |
| Crypto.DecryptsIff | backend/internal/security/crypto.go:46-65 | Decrypt accepts, for a plaintext, exactly the texts Encrypt makes of it under some nonce, up to line breaks and left-over bits |
| Crypto.DartDecryptsIff | frontend/lib/core/security/crypto_service.dart:116-136 | The Dart side accepts exactly the texts it makes itself under some nonce, in either base64 alphabet |
| Crypto.SharedSecretsAgree | backend/internal/security/crypto.go:96-122 | Both users derive the same secret, or both fail, from their own private and the other's public key |
| Crypto.SharedSecretIs | backend/internal/security/crypto.go:96-122 | The shared secret is exactly what X25519 makes of the two decoded 32-byte keys, and there is none otherwise |
| Crypto.E2EUsesTheSecret | backend/internal/security/crypto.go:127-144 | End-to-end content is encrypted and decrypted under that secret, or not at all |
| Crypto.E2ERoundTrip | backend/internal/security/crypto.go:127-144 | Unless X25519 refuses the keys, encrypting for another user succeeds and the other decrypts it with the mirrored pair of keys |
| Crypto.FramesAgree | frontend/lib/core/security/crypto_service.dart:96-136 | Under one AES key the two sides build the same frame and open every byte string, good, damaged or short, to the same result |
| Crypto.CrossRead | frontend/lib/core/security/crypto_service.dart:96-136 | When both sides hold the same AES key, each produces the same text and reads the other's |
| WsClient.AlwaysSafe | frontend/lib/core/network/ws_client.dart:34-129 | In every run of connects, data, disconnects of any channel, timers, sends and dispose: the first frame on each channel is the auth frame, at most one reconnect timer is pending, and nothing is added to the closed stream |
| WsClient.ChannelStory | frontend/lib/core/network/ws_client.dart:34-122 | In every run the channels are those opened, in order, and the frames on each are the auth frame, with the token of the connect or the latest one before the timer that opened it, followed by exactly the payloads sent until the next connect, timer, disconnect or dispose |
| WsClient.StreamIsWhatWasHeard | frontend/lib/core/network/ws_client.dart:52-58 | In every run the stream is exactly the data that arrived before the dispose, in order |
| WsClient.DisposeIsFinal | frontend/lib/core/network/ws_client.dart:68-129 | After a dispose no timer is pending, none is ever created, the stream is closed and receives nothing more, and the current sink is closed |
| WsClient.ClientIsNeverStranded | frontend/lib/core/network/ws_client.dart:68-79 | A live client that has connected once and has no channel always has a reconnect timer pending |
| WsClient.Client.Connect | frontend/lib/core/network/ws_client.dart:34-37 | The object follows the machine the theorems speak about and keeps its safety |
| WsClient.Client.DoConnect | frontend/lib/core/network/ws_client.dart:39-66 | A channel that opens becomes current with the auth frame sent on it; one that does not is handled as a disconnect |
| WsClient.Client.HandleDisconnect | frontend/lib/core/network/ws_client.dart:68-79 | The channel is dropped and, on a live client that has a token, the old timer gives way to one new one |
| WsClient.Client.OnDone | frontend/lib/core/network/ws_client.dart:60-61 | The end of any channel, current or not, follows the machine |
| WsClient.Client.OnTimer | frontend/lib/core/network/ws_client.dart:73-77 | A timer that fires reconnects with the last token unless the client is disposed |
| WsClient.Client.OnData | frontend/lib/core/network/ws_client.dart:53-58 | Data reaches the stream on a live client only |
| WsClient.Client.SendRaw | frontend/lib/core/network/ws_client.dart:118-122 | A frame goes out on the current channel if its sink is open, and is otherwise dropped |
| WsClient.Client.SendMessage | frontend/lib/core/network/ws_client.dart:83-116 | A payload goes out as the machine sends it, and never before the auth frame |
| WsClient.Client.DisposeClient | frontend/lib/core/network/ws_client.dart:124-129 | Timer cancelled, sink and stream closed |

## Left out

- Sub-instants of the sequential limiter: an entry's creation and its first spend share one clock reading, and one round of the sweep uses one. The lock model reads the clock at each step.
- Rounding: tokens and seconds are reals, not 64-bit floats.
- RateLimitSpends.AcceptedInWindow: states the bound for 0 <= burst <= 600 * rps; `WindowsBoundedIff` shows that it holds for no other limiter.
- RateLimitSpends.SpendGrantedIff: speaks of spends from the entry in the map; a call whose entry was swept out in between spends from an orphan, on its own.
- Database failures beyond the ones modelled: a failed statement ends its request (`Abandon` in the session protocol, `saved` and `answer` in the chat). Rows that fail to scan, an answer that breaks off while it is read, and failed membership reads during a broadcast are not modelled.
- The application clock and the database clock are one clock; transaction isolation below whole statements and transactions.
- AES-GCM, SHA-256, X25519, bcrypt and JWT signatures: parameters with stated laws; only issued access tokens are considered.
- Crypto.E2ERoundTrip: assumes that X25519 does not refuse the pair of keys, which it may for special public keys.
- Dart's `%3D` spelling of padding in base64 text.
- JSON encoding of the frames, which does not fail on them.
- Hub.Client.WritePump: one stretch of the writer, up to the point where it would wait for another frame; pings and deadlines add no state.
- HubSteps.NoPanic: assumes one send in flight per user; `PanicsIff` and `CloseIsSafeIff` say exactly what happens without that.
- What the presence keys promise: the model sets and deletes them as the hub does, but the database query for a user's contacts is a parameter.
- ReadPump and typing frames beyond their effect on the hub (an unregistration, a delivery).
- A deletion between two fetches of a page: no code sets `deleted_at`.
- Concurrent CreateChat requests: the lookup runs outside the transaction, so two of them can race; runs are sequential here. Chat names too long for their column.
- The account rows that Register inserts: after its commit it takes the steps of Login.
- GetChats, SearchUsers, Me, key storage, avatar colours, routing, configuration and the user interface.
