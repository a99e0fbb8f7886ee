/** The Flutter client's reconnecting WebSocket. Its callbacks run one at a time: a connect, a
    message or a disconnect on any channel it ever opened, a timer that fires, a send, a
    dispose. */
module WsClient {
  import opened Options

  type ChannelId = nat
  type TimerId = nat
  type Token = string

  datatype ClientFrame = Auth(token: Token) | Payload(text: string)

  /** The world the client acts on: the frames sent on each channel, the channels whose sink is
      open, the timers pending, and its broadcast stream. */
  datatype World = World(
    sent: map<ChannelId, seq<ClientFrame>>,
    open: set<ChannelId>,
    timersMade: nat,
    pending: set<TimerId>,
    streamClosed: bool,
    stream: seq<string>,
    addedAfterClose: bool)

  datatype State = State(
    channel: Option<ChannelId>, reconnectTimer: Option<TimerId>, lastToken: Option<Token>, disposed: bool, world: World)

  /** `works` says whether opening the channel succeeds or throws. Data that is not a JSON
      object is dropped by the client's own catch, so only objects are `Data`. */
  datatype Event =
    | Connect(token: Token, works: bool)
    | Data(c: ChannelId, text: string)
    | Disconnect(c: ChannelId)
    | Fire(t: TimerId, works: bool)
    | Send(text: string)
    | Dispose

  const FRESH := State(None, None, None, false, World(map[], {}, 0, {}, false, [], false))

  predicate Enabled(s: State, e: Event) {
    match e
    case Data(c, _) => c in s.world.sent
    case Disconnect(c) => c in s.world.sent
    case Fire(t, _) => t in s.world.pending
    case _ => true
  }

  function WithFrame(s: State, f: ClientFrame): State {
    if s.channel.Some? && s.channel.value in s.world.open && s.channel.value in s.world.sent then
      var c := s.channel.value;
      s.(world := s.world.(sent := s.world.sent[c := s.world.sent[c] + [f]]))
    else s
  }

  function Cancelled(s: State): State {
    if s.reconnectTimer.Some? then s.(world := s.world.(pending := s.world.pending - {s.reconnectTimer.value})) else s
  }

  /** Any channel's end clears the current channel, whichever it is. */
  function Dropped(s: State): State {
    var s1 := s.(channel := None);
    if s.disposed || s.lastToken.None? then s1
    else
      var s2 := Cancelled(s1);
      var t := s2.world.timersMade;
      s2.(reconnectTimer := Some(t), world := s2.world.(timersMade := t + 1, pending := s2.world.pending + {t}))
  }

  function Connecting(s: State, token: Token, works: bool): State {
    if !works then Dropped(s)
    else
      var c := |s.world.sent|;
      var s1 := s.(channel := Some(c), world := s.world.(sent := s.world.sent[c := []], open := s.world.open + {c}));
      WithFrame(s1, Auth(token))
  }

  function Next(s: State, e: Event): State {
    match e
    case Connect(token, works) => Connecting(s.(lastToken := Some(token)), token, works)
    case Data(_, text) =>
      if s.disposed then s
      else
        s.(world := s.world.(stream := s.world.stream + [text],
                             addedAfterClose := s.world.addedAfterClose || s.world.streamClosed))
    case Disconnect(c) => Dropped(s.(world := s.world.(open := s.world.open - {c})))
    case Fire(t, works) =>
      var s1 := s.(world := s.world.(pending := s.world.pending - {t}));
      if s.disposed || s.lastToken.None? then s1 else Connecting(s1, s.lastToken.value, works)
    case Send(text) => WithFrame(s, Payload(text))
    case Dispose =>
      var s1 := Cancelled(s.(disposed := true));
      s1.(world := s1.world.(
        open := if s.channel.Some? then s1.world.open - {s.channel.value} else s1.world.open, streamClosed := true))
  }

  ghost predicate IsRun(ss: seq<State>, es: seq<Event>) {
    |ss| == |es| + 1 && ss[0] == FRESH && forall i :: 0 <= i < |es| ==> StepAt(ss, es, i)
  }

  predicate StepAt(ss: seq<State>, es: seq<Event>, i: nat)
    requires i < |es| < |ss|
  {
    Enabled(ss[i], es[i]) && ss[i + 1] == Next(ss[i], es[i])
  }

  // ----- Safety -----

  /** Channels are numbered from zero, and on each the first frame is the auth frame. */
  ghost predicate AuthComesFirst(s: State) {
    && (forall c :: c in s.world.sent <==> 0 <= c < |s.world.sent|)
    && forall c :: c in s.world.sent ==> s.world.sent[c] != [] && s.world.sent[c][0].Auth?
  }

  /** The only timer that can be pending is the one in the field, and none is after dispose. */
  ghost predicate OneTimer(s: State) {
    && (forall t :: t in s.world.pending ==> s.reconnectTimer == Some(t) && t < s.world.timersMade)
    && (s.disposed ==> s.world.pending == {})
  }

  ghost predicate StreamRespected(s: State) {
    !s.world.addedAfterClose && (s.world.streamClosed ==> s.disposed)
  }

  ghost predicate Safe(s: State) {
    AuthComesFirst(s) && OneTimer(s) && StreamRespected(s)
  }

  lemma DroppedIsSafe(s: State)
    requires Safe(s)
    ensures Safe(Dropped(s))
    ensures s.disposed ==> Dropped(s) == s.(channel := None)
  {
  }

  lemma WrittenTwice(sent: map<ChannelId, seq<ClientFrame>>, n: ChannelId, f: ClientFrame)
    ensures sent[n := []][n := [] + [f]] == sent[n := [f]]
  {
    var none: seq<ClientFrame> := [];
    assert none + [f] == [f];
  }

  lemma OneMoreKey(sent: map<ChannelId, seq<ClientFrame>>, n: ChannelId, frames: seq<ClientFrame>)
    requires n !in sent
    ensures |sent[n := frames]| == |sent| + 1
  {
    assert sent[n := frames].Keys == sent.Keys + {n};
    assert |sent[n := frames]| == |sent[n := frames].Keys| && |sent| == |sent.Keys|;
  }

  lemma ConnectingIsSafe(s: State, token: Token, works: bool)
    requires Safe(s)
    ensures Safe(Connecting(s, token, works))
    ensures |Connecting(s, token, works).world.sent| == |s.world.sent| + if works then 1 else 0
    ensures s.disposed ==>
      var w := Connecting(s, token, works).world;
      Connecting(s, token, works).disposed && w.pending == s.world.pending && w.timersMade == s.world.timersMade
      && w.stream == s.world.stream && w.streamClosed == s.world.streamClosed
  {
    if works {
      var w, c := Connecting(s, token, works).world, |s.world.sent|;
      assert w.sent == s.world.sent[c := []][c := [] + [Auth(token)]];
      WrittenTwice(s.world.sent, c, Auth(token));
      assert c !in s.world.sent;
      OneMoreKey(s.world.sent, c, [Auth(token)]);
    } else {
      DroppedIsSafe(s);
    }
  }

  lemma SafeStep(s: State, e: Event)
    requires Safe(s) && Enabled(s, e)
    ensures Safe(Next(s, e))
    ensures s.disposed ==>
      var s' := Next(s, e);
      s'.disposed && s'.world.timersMade == s.world.timersMade && s'.world.stream == s.world.stream
      && (s.world.streamClosed ==> s'.world.streamClosed)
  {
    match e
    case Connect(token, works) =>
      ConnectingIsSafe(s.(lastToken := Some(token)), token, works);
    case Disconnect(c) =>
      DroppedIsSafe(s.(world := s.world.(open := s.world.open - {c})));
    case Fire(t, works) =>
      if !s.disposed && s.lastToken.Some? {
        ConnectingIsSafe(s.(world := s.world.(pending := s.world.pending - {t})), s.lastToken.value, works);
      }
    case Send(text) =>
      if s.channel.Some? && s.channel.value in s.world.open && s.channel.value in s.world.sent {
        var s' := Next(s, e);
        assert s'.world.sent.Keys == s.world.sent.Keys;
        assert |s'.world.sent.Keys| == |s.world.sent.Keys|;
      }
    case Data(_, _) =>
    case Dispose =>
  }

  /** In every run: the first frame on each channel is the auth frame, at most one reconnect
      timer is pending, and nothing is added to the closed stream. */
  lemma {:induction false} AlwaysSafe(ss: seq<State>, es: seq<Event>, i: nat)
    requires IsRun(ss, es) && i < |ss|
    ensures Safe(ss[i]) && |ss[i].world.pending| <= 1
  {
    if i == 0 {
      assert ss[0] == FRESH;
    } else {
      hide Next, Enabled, AuthComesFirst, StreamRespected;
      AlwaysSafe(ss, es, i - 1);
      assert StepAt(ss, es, i - 1);
      SafeStep(ss[i - 1], es[i - 1]);
      AtMostOne(ss[i]);
    }
  }

  lemma AtMostOne(s: State)
    requires OneTimer(s)
    ensures |s.world.pending| <= 1
  {
    if s.reconnectTimer.Some? {
      assert s.world.pending <= {s.reconnectTimer.value};
      SubsetOfOne(s.world.pending, s.reconnectTimer.value);
    } else {
      assert s.world.pending == {};
    }
  }

  lemma SubsetOfOne(s: set<TimerId>, t: TimerId)
    requires s <= {t}
    ensures |s| <= 1
  {
    if t in s {
      assert s == {t};
    } else {
      assert s == {};
    }
  }

  lemma {:induction false} StaysDisposed(ss: seq<State>, es: seq<Event>, i: nat, j: nat)
    requires IsRun(ss, es) && i <= j < |ss| && ss[i].disposed
    ensures ss[j].disposed && ss[j].world.pending == {} && (ss[i].world.streamClosed ==> ss[j].world.streamClosed)
    ensures ss[j].world.timersMade == ss[i].world.timersMade && ss[j].world.stream == ss[i].world.stream
  {
    hide Next, Enabled, AuthComesFirst, StreamRespected;
    AlwaysSafe(ss, es, j);
    if i < j {
      StaysDisposed(ss, es, i, j - 1);
      AlwaysSafe(ss, es, j - 1);
      assert StepAt(ss, es, j - 1);
      SafeStep(ss[j - 1], es[j - 1]);
    }
  }

  /** After a dispose no timer is pending, none is ever created, the stream is closed and gets
      nothing more, and the sink that was current is closed. */
  lemma DisposeIsFinal(ss: seq<State>, es: seq<Event>, i: nat, j: nat)
    requires IsRun(ss, es) && i < j < |ss| && es[i] == Dispose
    ensures ss[j].disposed && ss[j].world.pending == {} && ss[j].world.streamClosed
    ensures ss[j].world.timersMade == ss[i].world.timersMade && ss[j].world.stream == ss[i].world.stream
    ensures ss[i].channel.Some? ==> ss[i].channel.value !in ss[i + 1].world.open
  {
    assert StepAt(ss, es, i);
    StaysDisposed(ss, es, i + 1, j);
  }

  /** A live client that has connected once is never stranded: while it has no channel, a
      reconnect timer is pending. */
  ghost predicate NeverStranded(s: State) {
    !s.disposed && s.lastToken.Some? && s.channel.None? ==> s.world.pending != {}
  }

  lemma StrandedStep(s: State, e: Event)
    requires Safe(s) && NeverStranded(s) && Enabled(s, e)
    ensures NeverStranded(Next(s, e))
  {
    hide AuthComesFirst, StreamRespected;
    if e.Fire? && s.channel.Some? {
      assert Next(s, e).channel.Some? || Next(s, e).world.pending != {} || s.disposed || s.lastToken.None?;
    }
  }

  lemma {:induction false} ClientIsNeverStranded(ss: seq<State>, es: seq<Event>, i: nat)
    requires IsRun(ss, es) && i < |ss|
    ensures NeverStranded(ss[i])
  {
    if i == 0 {
      assert ss[0] == FRESH;
    } else {
      hide Next, Enabled, Safe, NeverStranded;
      ClientIsNeverStranded(ss, es, i - 1);
      AlwaysSafe(ss, es, i - 1);
      assert StepAt(ss, es, i - 1);
      StrandedStep(ss[i - 1], es[i - 1]);
    }
  }

  // ----- What a run sends and hears -----

  /** The token of the latest connect. */
  function LastToken(es: seq<Event>): Option<Token> {
    if es == [] then None
    else if es[|es| - 1].Connect? then Some(es[|es| - 1].token)
    else LastToken(es[..|es| - 1])
  }

  predicate Opens(e: Event) {
    (e.Connect? || e.Fire?) && e.works
  }

  /** Channels are numbered in the order in which they are opened. */
  function Opened(es: seq<Event>): nat {
    if es == [] then 0 else Opened(es[..|es| - 1]) + if Opens(es[|es| - 1]) then 1 else 0
  }

  predicate Undisturbed(es: seq<Event>) {
    forall e :: e in es ==> e.Send? || e.Data?
  }

  /** The payloads sent before anything but data and sends happens. */
  function Payloads(es: seq<Event>): seq<ClientFrame> {
    if es == [] then []
    else
      var before, e := es[..|es| - 1], es[|es| - 1];
      Payloads(before) + if e.Send? && Undisturbed(before) then [Payload(e.text)] else []
  }

  /** The texts that arrive before the client is disposed. */
  function Heard(es: seq<Event>): seq<string> {
    if es == [] then []
    else
      var before, e := es[..|es| - 1], es[|es| - 1];
      Heard(before) + if e.Data? && Dispose !in before then [e.text] else []
  }

  lemma PayloadsOneMore(es: seq<Event>, e: Event)
    ensures Payloads(es + [e]) == Payloads(es) + if e.Send? && Undisturbed(es) then [Payload(e.text)] else []
  {
    assert (es + [e])[..|es|] == es;
  }

  lemma HeardOneMore(es: seq<Event>, e: Event)
    ensures Heard(es + [e]) == Heard(es) + if e.Data? && Dispose !in es then [e.text] else []
  {
    assert (es + [e])[..|es|] == es;
  }

  /** What the events so far say of the client's fields. */
  ghost predicate Remembers(s: State, es: seq<Event>) {
    && s.lastToken == LastToken(es)
    && (s.disposed <==> Dispose in es)
    && |s.world.sent| == Opened(es)
    && s.world.stream == Heard(es)
    && (s.world.pending != {} ==> !s.disposed && s.lastToken.Some?)
  }

  lemma WithFrameOpensNone(s: State, f: ClientFrame)
    ensures |WithFrame(s, f).world.sent| == |s.world.sent|
  {
    var w := WithFrame(s, f).world;
    assert w.sent.Keys == s.world.sent.Keys;
    assert |w.sent| == |w.sent.Keys| && |s.world.sent| == |s.world.sent.Keys|;
  }

  /** What one event changes of what a client remembers. */
  lemma FieldsStep(s: State, e: Event)
    requires Safe(s) && Enabled(s, e) && (s.world.pending != {} ==> !s.disposed && s.lastToken.Some?)
    ensures
      var s' := Next(s, e);
      && s'.lastToken == (if e.Connect? then Some(e.token) else s.lastToken)
      && (s'.disposed <==> s.disposed || e.Dispose?)
      && s'.world.stream == s.world.stream + (if e.Data? && !s.disposed then [e.text] else [])
      && |s'.world.sent| == |s.world.sent| + (if Opens(e) then 1 else 0)
      && (s'.world.pending != {} ==> !s'.disposed && s'.lastToken.Some?)
  {
    match e
    case Connect(token, works) => ConnectingIsSafe(s.(lastToken := Some(token)), token, works);
    case Fire(t, works) =>
      ConnectingIsSafe(s.(world := s.world.(pending := s.world.pending - {t})), s.lastToken.value, works);
    case Send(text) => WithFrameOpensNone(s, Payload(text));
    case _ =>
  }

  lemma RemembersStep(s: State, es: seq<Event>, e: Event)
    requires Safe(s) && Remembers(s, es) && Enabled(s, e)
    ensures Remembers(Next(s, e), es + [e])
  {
    FieldsStep(s, e);
    hide Next, Enabled, Safe;
    HeardOneMore(es, e);
    assert (es + [e])[..|es|] == es;
  }

  lemma {:induction false} AlwaysRemembers(ss: seq<State>, es: seq<Event>, i: nat)
    requires IsRun(ss, es) && i < |ss|
    ensures Remembers(ss[i], es[..i])
  {
    if i == 0 {
      assert ss[0] == FRESH;
    } else {
      hide Next, Enabled, Safe, Remembers;
      AlwaysRemembers(ss, es, i - 1);
      AlwaysSafe(ss, es, i - 1);
      assert StepAt(ss, es, i - 1);
      RemembersStep(ss[i - 1], es[..i - 1], es[i - 1]);
      assert es[..i] == es[..i - 1] + [es[i - 1]];
    }
  }

  /** In every run the stream is exactly the data that arrived before the dispose, in order. */
  lemma StreamIsWhatWasHeard(ss: seq<State>, es: seq<Event>, i: nat)
    requires IsRun(ss, es) && i < |ss|
    ensures ss[i].world.stream == Heard(es[..i])
  {
    AlwaysRemembers(ss, es, i);
    hide Heard;
  }

  predicate Sendable(s: State, c: ChannelId) {
    s.channel == Some(c) && c in s.world.open
  }

  /** One event and one channel: what it adds, and whether the channel can still be sent on. */
  lemma ChannelStep(s: State, e: Event, c: ChannelId)
    requires Safe(s) && Enabled(s, e) && c in s.world.sent
    requires s.world.pending != {} ==> !s.disposed && s.lastToken.Some?
    ensures
      var s' := Next(s, e);
      && c in s'.world.sent
      && s'.world.sent[c] == s.world.sent[c] + (if Sendable(s, c) && e.Send? then [Payload(e.text)] else [])
      && (Sendable(s', c) <==> Sendable(s, c) && (e.Send? || e.Data?))
  {
  }

  /** The opening event: the auth frame with the token given, or with the latest token. */
  lemma OpeningStep(s: State, e: Event)
    requires Safe(s) && Enabled(s, e) && Opens(e)
    requires s.world.pending != {} ==> !s.disposed && s.lastToken.Some?
    ensures
      var s', c := Next(s, e), |s.world.sent|;
      && c in s'.world.sent && Sendable(s', c) && (e.Fire? ==> s.lastToken.Some?)
      && s'.world.sent[c] == [Auth(if e.Connect? then e.token else s.lastToken.value)]
  {
    var none: seq<ClientFrame> := [];
    assert forall f: ClientFrame :: none + [f] == [f];
  }

  lemma {:induction false} ChannelSoFar(
      ss: seq<State>, es: seq<Event>, r: nat, n: nat, c: ChannelId, auth: seq<ClientFrame>)
    requires IsRun(ss, es) && r < n <= |es|
    requires c in ss[r + 1].world.sent && ss[r + 1].world.sent[c] == auth && Sendable(ss[r + 1], c)
    ensures c in ss[n].world.sent && ss[n].world.sent[c] == auth + Payloads(es[r + 1..n])
    ensures Sendable(ss[n], c) <==> Undisturbed(es[r + 1..n])
  {
    hide Next, Enabled, Safe, Sendable, Payloads, Heard, Opened, LastToken;
    if n == r + 1 {
      NothingPaid(es[r + 1..n]);
    } else {
      var part, e := es[r + 1..n - 1], es[n - 1];
      ChannelSoFar(ss, es, r, n - 1, c, auth);
      AlwaysSafe(ss, es, n - 1);
      AlwaysRemembers(ss, es, n - 1);
      assert StepAt(ss, es, n - 1);
      ChannelStep(ss[n - 1], e, c);
      PayloadsOneMore(part, e);
      UndisturbedOneMore(part, e);
      hide Undisturbed, Remembers;
      assert es[r + 1..n] == part + [e];
      assert forall more :: auth + Payloads(part) + more == auth + (Payloads(part) + more);
    }
  }

  lemma InOrder(s: State)
    requires Safe(s)
    ensures forall c :: c in s.world.sent <==> 0 <= c < |s.world.sent|
  {
  }

  lemma NothingPaid(es: seq<Event>)
    requires es == []
    ensures Payloads(es) == [] && Undisturbed(es)
  {
  }

  lemma UndisturbedOneMore(es: seq<Event>, e: Event)
    ensures Undisturbed(es + [e]) <==> Undisturbed(es) && (e.Send? || e.Data?)
  {
    assert forall x :: x in es + [e] <==> x in es || x == e;
  }

  /** In every run: the channels are those opened, in order; and on each, the frames are the auth
      frame, with the token of the connect that opened it or of the latest connect before the
      timer that did, followed by exactly the payloads sent until the next connect, timer,
      disconnect or dispose. */
  lemma ChannelStory(ss: seq<State>, es: seq<Event>, r: nat, n: nat)
    requires IsRun(ss, es) && r < n <= |es| && Opens(es[r])
    ensures forall c :: c in ss[n].world.sent <==> 0 <= c < Opened(es[..n])
    ensures Opened(es[..r]) in ss[n].world.sent && LastToken(es[..r + 1]).Some?
    ensures ss[n].world.sent[Opened(es[..r])] == [Auth(LastToken(es[..r + 1]).value)] + Payloads(es[r + 1..n])
  {
    AlwaysRemembers(ss, es, r);
    AlwaysSafe(ss, es, r);
    assert StepAt(ss, es, r);
    OpeningStep(ss[r], es[r]);
    hide Next, Enabled, Safe, Sendable;
    var c := |ss[r].world.sent|;
    ChannelSoFar(ss, es, r, n, c, ss[r + 1].world.sent[c]);
    AlwaysRemembers(ss, es, n);
    AlwaysSafe(ss, es, n);
    assert es[..r + 1][..r] == es[..r];
    InOrder(ss[n]);
    hide Heard, Payloads, Opened;
  }

  // ----- The client object -----

  class Client {
    var channel: Option<ChannelId>
    var reconnectTimer: Option<TimerId>
    var lastToken: Option<Token>
    var disposed: bool
    var world: World

    constructor ()
      ensures View() == FRESH
    {
      channel, reconnectTimer, lastToken, disposed := None, None, None, false;
      world := FRESH.world;
    }

    ghost function View(): State
      reads this
    {
      State(channel, reconnectTimer, lastToken, disposed, world)
    }

    method Connect(accessToken: Token, works: bool)
      requires Safe(View())
      modifies this
      ensures View() == Next(old(View()), Event.Connect(accessToken, works)) && Safe(View())
    {
      SafeStep(View(), Event.Connect(accessToken, works));
      lastToken := Some(accessToken);
      DoConnect(accessToken, works);
    }

    method DoConnect(token: Token, works: bool)
      modifies this
      ensures View() == Connecting(old(View()), token, works)
    {
      if !works {
        HandleDisconnect();
        return;
      }
      var c := |world.sent|;
      channel := Some(c);
      world := world.(sent := world.sent[c := []], open := world.open + {c});
      SendRaw(Auth(token));
    }

    method HandleDisconnect()
      modifies this
      ensures View() == Dropped(old(View()))
    {
      channel := None;
      if !disposed && lastToken.Some? {
        CancelTimer();
        var t := world.timersMade;
        world := world.(timersMade := t + 1, pending := world.pending + {t});
        reconnectTimer := Some(t);
      }
    }

    method CancelTimer()
      modifies this`world
      ensures View() == Cancelled(old(View()))
    {
      if reconnectTimer.Some? {
        world := world.(pending := world.pending - {reconnectTimer.value});
      }
    }

    method SendRaw(data: ClientFrame)
      modifies this`world
      ensures View() == WithFrame(old(View()), data)
    {
      if channel.Some? && channel.value in world.open && channel.value in world.sent {
        world := world.(sent := world.sent[channel.value := world.sent[channel.value] + [data]]);
      }
    }

    method OnData(c: ChannelId, text: string)
      requires Safe(View()) && Enabled(View(), Data(c, text))
      modifies this`world
      ensures View() == Next(old(View()), Data(c, text)) && Safe(View())
    {
      SafeStep(View(), Data(c, text));
      if disposed {
        return;
      }
      world := world.(stream := world.stream + [text], addedAfterClose := world.addedAfterClose || world.streamClosed);
    }

    method OnDone(c: ChannelId)
      requires Safe(View()) && Enabled(View(), Disconnect(c))
      modifies this
      ensures View() == Next(old(View()), Disconnect(c)) && Safe(View())
    {
      SafeStep(View(), Disconnect(c));
      world := world.(open := world.open - {c});
      HandleDisconnect();
    }

    method OnTimer(t: TimerId, works: bool)
      requires Safe(View()) && Enabled(View(), Fire(t, works))
      modifies this
      ensures View() == Next(old(View()), Fire(t, works)) && Safe(View())
    {
      SafeStep(View(), Fire(t, works));
      world := world.(pending := world.pending - {t});
      if !disposed && lastToken.Some? {
        DoConnect(lastToken.value, works);
      }
    }

    method SendMessage(text: string)
      requires Safe(View())
      modifies this`world
      ensures View() == Next(old(View()), Send(text)) && Safe(View())
    {
      SafeStep(View(), Send(text));
      SendRaw(Payload(text));
    }

    method DisposeClient()
      requires Safe(View())
      modifies this
      ensures View() == Next(old(View()), Dispose) && Safe(View())
    {
      SafeStep(View(), Dispose);
      disposed := true;
      CancelTimer();
      if channel.Some? {
        world := world.(open := world.open - {channel.value});
      }
      world := world.(streamClosed := true);
    }
  }
}
