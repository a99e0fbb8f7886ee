/** Posting a message: store it, broadcast it, and read it back. The live frames a client gets
    are compared with the history the same chat shows later. */
module LiveDelivery {
  import opened Options
  import opened Base64
  import opened Crypto
  import opened Models
  import opened History
  import opened H = Hub

  /** BroadcastToChat is told to exclude user -1, that is nobody. */
  const NOBODY: UserId := -1

  /** The server's key and primitives, and who is in each chat. A chat's members are written
      once, by the transaction that creates it. */
  datatype World = World(c: Primitives, key: Bytes, members: ChatId -> set<UserId>)

  datatype Server = Server(hub: H.State, log: Log)

  /** Every frame but a message passes straight to the hub. `saved` says whether the INSERT of a
      posted message succeeds. */
  datatype ServerEvent =
    | HubEvent(e: Event)
    | Post(
        id: int, chat: ChatId, user: UserId, text: Bytes, kind: string, isE2E: bool, nonce: Bytes, at: int,
        saved: bool)

  const START := Server(H.EMPTY, [])

  /** The stored form: users' own ciphertext as it is, anything else encrypted by the server. */
  function Stored(
      c: Primitives, key: Bytes, id: int, chat: ChatId, user: UserId, text: Bytes, kind: string, isE2E: bool,
      nonce: Bytes, at: int): Message
  {
    Message(id, chat, user, if isE2E then text else Encrypt(c, text, key, nonce),
            if kind == "" then "text" else kind, isE2E, at)
  }

  predicate Accepts(w: World, e: ServerEvent)
    requires e.Post?
  {
    e.chat != 0 && e.user in w.members(e.chat) && e.saved
  }

  function StoredBy(w: World, e: ServerEvent): Message
    requires e.Post?
  {
    Stored(w.c, w.key, e.id, e.chat, e.user, e.text, e.kind, e.isE2E, e.nonce, e.at)
  }

  /** What the hub sees of an event: a message saved for a member reaches every member. */
  function ToHub(w: World, e: ServerEvent): Event {
    match e
    case HubEvent(h) => h
    case Post(_, chat, _, _, _, _, _, _, _) =>
      Deliver(if Accepts(w, e) then w.members(chat) - {NOBODY} else {}, MessageFrame(Shown(w.c, w.key, StoredBy(w, e))))
  }

  ghost predicate Can(w: World, s: Server, e: ServerEvent) {
    && H.Enabled(s.hub, ToHub(w, e))
    && match e
       case HubEvent(h) => h.Deliver? ==> !h.frame.MessageFrame?
       case Post(id, _, _, _, _, _, nonce, _, _) =>
         |nonce| == NONCE_SIZE && (forall i :: 0 <= i < |s.log| ==> s.log[i].message.id < id)
  }

  function After(w: World, s: Server, e: ServerEvent): Server
    requires H.Enabled(s.hub, ToHub(w, e))
  {
    Server(H.Next(s.hub, ToHub(w, e)),
           if e.Post? && Accepts(w, e) then s.log + [Row(StoredBy(w, e), true)] else s.log)
  }

  ghost predicate IsServerRun(w: World, ss: seq<Server>, es: seq<ServerEvent>) {
    && |ss| == |es| + 1 && ss[0] == START
    && forall i :: 0 <= i < |es| ==> ServerStepAt(w, ss, es, i)
  }

  ghost predicate ServerStepAt(w: World, ss: seq<Server>, es: seq<ServerEvent>, i: nat)
    requires i < |es| < |ss|
  {
    Can(w, ss[i], es[i]) && ss[i + 1] == After(w, ss[i], es[i])
  }

  // ----- Round trip -----

  /** The content a user sends is the content broadcast and the content history shows. */
  lemma StoredShowsWhatWasSent(
      c: Primitives, key: Bytes, id: int, chat: ChatId, user: UserId, text: Bytes, kind: string, isE2E: bool,
      nonce: Bytes, at: int)
    requires CipherLaws(c) && |nonce| == NONCE_SIZE
    ensures Shown(c, key, Stored(c, key, id, chat, user, text, kind, isE2E, nonce, at)).content == text
  {
    hide Encrypt, Decrypt;
    DecryptUndoesEncrypt(c, text, key, nonce);
  }

  /** What the hub sees of a run of the server is a run of the hub. */
  lemma HubRun(w: World, ss: seq<Server>, es: seq<ServerEvent>) returns (hs: seq<H.State>, hes: seq<Event>)
    requires IsServerRun(w, ss, es)
    ensures H.IsRun(hs, hes) && |hes| == |es|
    ensures forall i :: 0 <= i < |hs| ==> hs[i] == ss[i].hub
    ensures forall i :: 0 <= i < |hes| ==> hes[i] == ToHub(w, es[i])
  {
    hide H.Next, H.Enabled, Shown;
    hs := seq(|ss|, i requires 0 <= i < |ss| => ss[i].hub);
    hes := seq(|es|, i requires 0 <= i < |es| => ToHub(w, es[i]));
    forall i | 0 <= i < |hes|
      ensures H.StepAt(hs, hes, i)
    {
      assert ServerStepAt(w, ss, es, i);
    }
  }

  /** The row `m` records the post `e`: its own fields, and its text as the users encrypted it or
      as the server did. */
  ghost predicate Records(w: World, m: Message, e: ServerEvent)
    requires e.Post?
  {
    && m.id == e.id && m.chat == e.chat && m.user == e.user && m.createdAt == e.at && m.isE2E == e.isE2E
    && m.kind == (if e.kind == "" then "text" else e.kind)
    && if e.isE2E then m.content == e.text
       else m.content == Encrypt(w.c, e.text, w.key, e.nonce) && Decrypt(w.c, m.content, w.key) == Some(e.text)
  }

  /** In every run: a post to a chat by one of its members, if its insert succeeds, appends one
      visible row that records it, and offers every member one frame: that row with the text as
      it was sent. Any other post changes nothing. */
  lemma PostIsRecorded(w: World, ss: seq<Server>, es: seq<ServerEvent>, i: nat)
    requires IsServerRun(w, ss, es) && CipherLaws(w.c) && i < |es| && es[i].Post?
    ensures
      var s, s', e := ss[i], ss[i + 1], es[i];
      if e.chat != 0 && e.user in w.members(e.chat) && e.saved then
        && |s'.log| == |s.log| + 1 && s'.log[..|s.log|] == s.log
        && s'.log[|s.log|].visible && Records(w, s'.log[|s.log|].message, e)
        && s'.hub == Delivered(s.hub, w.members(e.chat) - {-1},
                               MessageFrame(s'.log[|s.log|].message.(content := e.text)))
      else s' == s
  {
    hide Encrypt, Decrypt, Delivered;
    assert ServerStepAt(w, ss, es, i);
    var s, e := ss[i], es[i];
    DecryptUndoesEncrypt(w.c, e.text, w.key, e.nonce);
    HubAlwaysSound(w, ss, es, i);
    DeliveredToNobody(s.hub, ToHub(w, e).frame);
    if e.chat != 0 && e.user in w.members(e.chat) && e.saved {
      assert s.log + [Row(StoredBy(w, e), true)] == ss[i + 1].log;
    }
  }

  lemma HubAlwaysSound(w: World, ss: seq<Server>, es: seq<ServerEvent>, i: nat)
    requires IsServerRun(w, ss, es) && i < |ss|
    ensures Sound(ss[i].hub)
  {
    var hs, hes := HubRun(w, ss, es);
    H.AlwaysSound(hs, hes, i);
    hide Sound;
  }

  // ----- Live frames against the log -----

  function MessagesIn(frames: seq<Frame>, chat: ChatId): seq<Message> {
    if frames == [] then []
    else
      var f := frames[|frames| - 1];
      MessagesIn(frames[..|frames| - 1], chat)
      + if f.MessageFrame? && f.message.chat == chat then [f.message] else []
  }

  function LogOf(s: Server, chat: ChatId): seq<Message> {
    Matching(s.log, chat, 0)
  }

  /** What an event adds to a chat's log. */
  function Added(w: World, e: ServerEvent, chat: ChatId): seq<Message> {
    if e.Post? && e.chat == chat && Accepts(w, e) then [StoredBy(w, e)] else []
  }

  lemma LogStep(w: World, s: Server, e: ServerEvent, chat: ChatId)
    requires Can(w, s, e)
    ensures LogOf(After(w, s, e), chat) == LogOf(s, chat) + Added(w, e, chat)
  {
    hide H.Next, H.Enabled, Shown;
    if e.Post? && Accepts(w, e) {
      assert (s.log + [Row(StoredBy(w, e), true)])[..|s.log|] == s.log;
    }
  }

  lemma {:induction false} LogGrows(w: World, ss: seq<Server>, es: seq<ServerEvent>, chat: ChatId, i: nat, j: nat)
    requires IsServerRun(w, ss, es) && i <= j < |ss|
    ensures LogOf(ss[i], chat) <= LogOf(ss[j], chat)
  {
    hide After, Can, LogOf, Added;
    if i < j {
      LogGrows(w, ss, es, chat, i, j - 1);
      assert ServerStepAt(w, ss, es, j - 1);
      LogStep(w, ss[j - 1], es[j - 1], chat);
    }
  }

  lemma ShownKeepsChat(c: Primitives, key: Bytes, m: Message)
    ensures Shown(c, key, m).chat == m.chat
  {
  }

  lemma MessagesOneMore(frames: seq<Frame>, f: Frame, chat: ChatId)
    ensures MessagesIn(frames + [f], chat)
         == MessagesIn(frames, chat) + if f.MessageFrame? && f.message.chat == chat then [f.message] else []
  {
    assert (frames + [f])[..|frames|] == frames;
  }

  lemma OneEventSends(w: World, s: Server, e: ServerEvent, frames: seq<Frame>, user: UserId, chat: ChatId)
    requires Can(w, s, e)
    requires user in w.members(chat) && user != NOBODY
    ensures
      var h := ToHub(w, e);
      MessagesIn(frames + if h.Deliver? && user in h.to then [h.frame] else [], chat)
      == MessagesIn(frames, chat) + ShownAll(w.c, w.key, Added(w, e, chat))
  {
    var h := ToHub(w, e);
    if e.Post? {
      ShownKeepsChat(w.c, w.key, StoredBy(w, e));
    }
    hide Shown, MessagesIn;
    if h.Deliver? && user in h.to {
      MessagesOneMore(frames, h.frame, chat);
    } else {
      assert frames + [] == frames;
    }
  }

  lemma ShownTailGrows(c: Primitives, key: Bytes, m: seq<Message>, more: seq<Message>, n: nat)
    requires n <= |m|
    ensures ShownAll(c, key, (m + more)[n..]) == ShownAll(c, key, m[n..]) + ShownAll(c, key, more)
  {
    ShownAllConcat(c, key, m[n..], more);
    assert (m + more)[n..] == m[n..] + more;
  }

  /** What the events from `i` to `j` send to a member of a chat is what they add to its log. */
  lemma {:induction false} SentIsLogged(
      w: World, ss: seq<Server>, es: seq<ServerEvent>, hes: seq<Event>, user: UserId, chat: ChatId, i: nat, j: nat)
    requires IsServerRun(w, ss, es) && i <= j <= |es|
    requires |hes| == |es| && forall k :: 0 <= k < |es| ==> hes[k] == ToHub(w, es[k])
    requires user in w.members(chat) && user != NOBODY
    ensures LogOf(ss[i], chat) <= LogOf(ss[j], chat)
    ensures MessagesIn(SentTo(hes[i..j], user), chat)
         == ShownAll(w.c, w.key, LogOf(ss[j], chat)[|LogOf(ss[i], chat)|..])
  {
    hide Can, After, LogOf, Added, ToHub, ShownAll, MessagesIn;
    LogGrows(w, ss, es, chat, i, j);
    if i == j {
      assert hes[i..j] == [];
      NothingShown(w.c, w.key, chat);
    } else {
      var k := j - 1;
      SentIsLogged(w, ss, es, hes, user, chat, i, k);
      assert ServerStepAt(w, ss, es, k);
      LogStep(w, ss[k], es[k], chat);
      OneEventSends(w, ss[k], es[k], SentTo(hes[i..k], user), user, chat);
      assert hes[i..j][..k - i] == hes[i..k];
      ShownTailGrows(w.c, w.key, LogOf(ss[k], chat), Added(w, es[k], chat), |LogOf(ss[i], chat)|);
    }
  }

  lemma NothingShown(c: Primitives, key: Bytes, chat: ChatId)
    ensures MessagesIn([], chat) == ShownAll(c, key, [])
  {
  }

  lemma OneEventIsNotForOutsiders(w: World, e: ServerEvent, frames: seq<Frame>, user: UserId, chat: ChatId)
    requires e.HubEvent? && e.e.Deliver? ==> !e.e.frame.MessageFrame?
    requires user !in w.members(chat) || user == NOBODY
    ensures
      var h := ToHub(w, e);
      MessagesIn(frames + if h.Deliver? && user in h.to then [h.frame] else [], chat) == MessagesIn(frames, chat)
  {
    var h := ToHub(w, e);
    if e.Post? {
      ShownKeepsChat(w.c, w.key, StoredBy(w, e));
    }
    hide Shown, MessagesIn;
    if h.Deliver? && user in h.to {
      MessagesOneMore(frames, h.frame, chat);
    } else {
      assert frames + [] == frames;
    }
  }

  /** Nothing of a chat is sent to users outside it. */
  lemma {:induction false} OutsidersGetNothing(
      w: World, es: seq<ServerEvent>, hes: seq<Event>, user: UserId, chat: ChatId)
    requires |hes| == |es| && forall k :: 0 <= k < |es| ==> hes[k] == ToHub(w, es[k])
    requires forall k :: 0 <= k < |es| && es[k].HubEvent? && es[k].e.Deliver? ==> !es[k].e.frame.MessageFrame?
    requires user !in w.members(chat) || user == NOBODY
    ensures MessagesIn(SentTo(hes, user), chat) == []
  {
    hide ToHub;
    if es != [] {
      var n := |es| - 1;
      OutsidersGetNothing(w, es[..n], hes[..n], user, chat);
      hide MessagesIn;
      OneEventIsNotForOutsiders(w, es[n], SentTo(hes[..n], user), user, chat);
    }
  }

  /** In every run and for every client: the message frames of a chat ever enqueued to it are a
      contiguous slice of the chat's log, from the client's registration to its removal, in id
      order, with the content that history shows for the same messages; or none, when its user
      is not in the chat. */
  lemma LiveFramesAreHistory(w: World, ss: seq<Server>, es: seq<ServerEvent>, r: nat, n: nat, chat: ChatId)
      returns (d: nat)
    requires IsServerRun(w, ss, es) && r < n <= |es|
    requires es[r].HubEvent? && es[r].e.Register?
    ensures r < d <= n && es[r].e.c in ss[n].hub.conns
    ensures forall i :: r < i <= n ==> (i <= d <==> Current(ss[i].hub, es[r].e.c))
    ensures
      var from, to := |LogOf(ss[r + 1], chat)|, |LogOf(ss[d], chat)|;
      var live := MessagesIn(Enqueued(ss[n].hub.conns[es[r].e.c]), chat);
      from <= to <= |LogOf(ss[n], chat)|
      && live == if es[r].e.user in w.members(chat) && es[r].e.user != NOBODY then
                   ShownAll(w.c, w.key, LogOf(ss[n], chat)[from..to])
                 else []
  {
    hide LogOf, After, Can, Enqueued, MessagesIn, SentTo, ShownAll;
    var hs, hes := HubRun(w, ss, es);
    assert hes[r] == es[r].e by { assert hes[r] == ToHub(w, es[r]); }
    d := GapFreeDelivery(hs, hes, r, n);
    LogGrows(w, ss, es, chat, r + 1, d);
    LogGrows(w, ss, es, chat, d, n);
    var user := es[r].e.user;
    if user in w.members(chat) && user != NOBODY {
      SentIsLogged(w, ss, es, hes, user, chat, r + 1, d);
      assert LogOf(ss[d], chat)[|LogOf(ss[r + 1], chat)|..]
          == LogOf(ss[n], chat)[|LogOf(ss[r + 1], chat)|..|LogOf(ss[d], chat)|];
    } else {
      OnlyPostsCarryMessages(w, ss, es);
      OutsidersGetNothing(w, es[r + 1..d], hes[r + 1..d], user, chat);
    }
  }

  lemma OnlyPostsCarryMessages(w: World, ss: seq<Server>, es: seq<ServerEvent>)
    requires IsServerRun(w, ss, es)
    ensures forall k :: 0 <= k < |es| && es[k].HubEvent? && es[k].e.Deliver? ==> !es[k].e.frame.MessageFrame?
  {
    hide After;
    forall k | 0 <= k < |es| && es[k].HubEvent? && es[k].e.Deliver?
      ensures !es[k].e.frame.MessageFrame?
    {
      assert ServerStepAt(w, ss, es, k);
    }
  }

  /** Message ids grow along the log, so every slice of it is in id order. */
  lemma {:induction false} LogIsInIdOrder(w: World, ss: seq<Server>, es: seq<ServerEvent>, i: nat)
    requires IsServerRun(w, ss, es) && i < |ss|
    ensures forall a, b :: 0 <= a < b < |ss[i].log| ==> ss[i].log[a].message.id < ss[i].log[b].message.id
  {
    if i > 0 {
      LogIsInIdOrder(w, ss, es, i - 1);
      assert ServerStepAt(w, ss, es, i - 1);
      hide H.Next, H.Enabled, Shown;
    }
  }

  // ----- The handler -----

  class Chat {
    var log: Log
    const hub: Hub
    const c: Primitives
    const key: Bytes

    constructor (c: Primitives, key: Bytes, hub: Hub)
      ensures this.c == c && this.key == key && this.hub == hub && log == []
    {
      this.c, this.key, this.hub, log := c, key, hub, [];
    }

    /** `members` is the answer to the membership query; `id` and `at` are the row's generated
        columns; `saved` says whether the INSERT succeeds. What the handler does is the Post step
        of the server that the theorems above speak about. */
    method HandleMessage(
        user: UserId, chat: ChatId, text: Bytes, kind: string, isE2E: bool, members: seq<UserId>, nonce: Bytes,
        id: int, at: int, saved: bool, ghost w: World)
      requires hub.Valid() && CipherLaws(c) && |nonce| == NONCE_SIZE
      requires w.c == c && w.key == key && w.members(chat) == Set(members)
      requires forall i, j :: 0 <= i < j < |members| ==> members[i] != members[j]
      modifies this`log, hub`clients, hub.conns.Values
      ensures hub.Valid()
      ensures
        var post := Post(id, chat, user, text, kind, isE2E, nonce, at, saved);
        Server(hub.View(), log) == After(w, Server(old(hub.View()), old(log)), post)
      ensures chat != 0 && user in members && saved ==>
        && |log| == |old(log)| + 1 && log[..|old(log)|] == old(log) && log[|old(log)|].visible
        && Records(w, log[|old(log)|].message, Post(id, chat, user, text, kind, isE2E, nonce, at, saved))
        && hub.View() == Delivered(old(hub.View()), Set(members) - {-1},
                                   MessageFrame(log[|old(log)|].message.(content := text)))
      ensures chat == 0 || user !in members || !saved ==> log == old(log) && hub.View() == old(hub.View())
    {
      hide Sound, Delivered, Encrypt, Decrypt;
      ghost var post := Post(id, chat, user, text, kind, isE2E, nonce, at, saved);
      ghost var frame := MessageFrame(Shown(c, key, StoredBy(w, post)));
      DeliveredToNobody(hub.View(), frame);
      if chat == 0 || user !in members {
        return;
      }
      DecryptUndoesEncrypt(c, text, key, nonce);
      var kept := if kind == "" then "text" else kind;
      var content := text;
      if !isE2E {
        content := Encrypt(c, text, key, nonce);
      }
      if !saved {
        return;
      }
      var msg := Message(id, chat, user, content, kept, isE2E, at);
      log := log + [Row(msg, true)];
      if !isE2E {
        match Decrypt(c, msg.content, key)
        case Some(plain) => msg := msg.(content := plain);
        case None =>
      }
      assert MessageFrame(msg) == frame;
      hub.BroadcastToChat(members, MessageFrame(msg), NOBODY);
    }
  }
}
