/** Creating chats: a direct chat is found if it exists and created otherwise, in one
    transaction over the chats and chat_members tables. */
module DirectChats {
  import opened Models

  /** `members` has the primary key (chat, user); `nextId` is the chats sequence. */
  datatype Tables = Tables(users: set<UserId>, isGroup: map<ChatId, bool>, members: set<(ChatId, UserId)>, nextId: int)

  datatype Request = Request(caller: UserId, isGroup: bool, memberIds: seq<UserId>)

  datatype Reply = Existing(id: ChatId) | Created(id: ChatId) | Failed

  const EMPTY := Tables({}, map[], {}, 1)

  predicate IsDirect(t: Tables, id: ChatId) {
    id in t.isGroup && !t.isGroup[id]
  }

  predicate SharedDirect(t: Tables, a: UserId, b: UserId, id: ChatId) {
    IsDirect(t, id) && (id, a) in t.members && (id, b) in t.members
  }

  /** The only requests that look for an existing chat. */
  predicate Looks(r: Request) {
    !r.isGroup && |r.memberIds| == 1
  }

  /** Every inserted member exists and none is inserted twice; otherwise the transaction fails. */
  predicate Insertable(t: Tables, r: Request) {
    && r.caller in t.users
    && (forall i :: 0 <= i < |r.memberIds| && r.memberIds[i] != r.caller ==> r.memberIds[i] in t.users)
    && forall i, j :: 0 <= i < j < |r.memberIds| && r.memberIds[i] == r.memberIds[j] ==> r.memberIds[i] == r.caller
  }

  function Inserted(t: Tables, r: Request): Tables {
    t.(isGroup := t.isGroup[t.nextId := r.isGroup],
       members := t.members + {(t.nextId, r.caller)} + (set u | u in r.memberIds :: (t.nextId, u)),
       nextId := t.nextId + 1)
  }

  ghost predicate Finds(t: Tables, r: Request) {
    Looks(r) && exists id :: SharedDirect(t, r.caller, r.memberIds[0], id)
  }

  /** What a request may do. The lookup has a LIMIT 1 and no order, so any match may be
      answered; a failed transaction still consumes an id. */
  ghost predicate Answers(t: Tables, r: Request, t': Tables, reply: Reply) {
    if Finds(t, r) then
      t' == t && reply.Existing? && SharedDirect(t, r.caller, r.memberIds[0], reply.id)
    else if Insertable(t, r) then t' == Inserted(t, r) && reply == Created(t.nextId)
    else t' == t.(nextId := t.nextId + 1) && reply == Failed
  }

  datatype Event = SignUp(user: UserId) | Ask(request: Request, reply: Reply)

  ghost predicate StepOf(t: Tables, e: Event, t': Tables) {
    match e
    case SignUp(user) => t' == t.(users := t.users + {user})
    case Ask(r, reply) => Answers(t, r, t', reply)
  }

  ghost predicate StepAt(ts: seq<Tables>, es: seq<Event>, i: nat)
    requires i < |es| < |ts|
  {
    StepOf(ts[i], es[i], ts[i + 1])
  }

  ghost predicate IsRun(ts: seq<Tables>, es: seq<Event>) {
    |ts| == |es| + 1 && ts[0] == EMPTY && forall i :: 0 <= i < |es| ==> StepAt(ts, es, i)
  }

  /** Every non-group request names at most one member. It may be the caller. */
  predicate Proper(e: Event) {
    e.Ask? && !e.request.isGroup ==> |e.request.memberIds| <= 1
  }

  function MembersOf(t: Tables, id: ChatId): set<UserId> {
    set p | p in t.members && p.0 == id :: p.1
  }

  // ----- Success and failure -----

  ghost predicate Tidy(t: Tables) {
    && 0 < t.nextId
    && (forall id :: id in t.isGroup ==> 0 < id < t.nextId)
    && (forall p :: p in t.members ==> p.0 in t.isGroup)
  }

  /** The request is for a direct chat with one named user, and some direct chat has both the
      caller and that user. */
  ghost predicate HasDirect(t: Tables, r: Request) {
    && !r.isGroup && |r.memberIds| == 1
    && exists id ::
      id in t.isGroup && !t.isGroup[id] && (id, r.caller) in t.members && (id, r.memberIds[0]) in t.members
  }

  /** Some user to be inserted does not exist, or a member other than the caller is named twice. */
  ghost predicate CannotInsert(t: Tables, r: Request) {
    || r.caller !in t.users
    || (exists u :: u in r.memberIds && u !in t.users)
    || (exists i, j :: 0 <= i < j < |r.memberIds| && r.memberIds[i] == r.memberIds[j] && r.memberIds[i] != r.caller)
  }

  lemma FindsIff(t: Tables, r: Request)
    ensures Finds(t, r) <==> HasDirect(t, r)
  {
    if Finds(t, r) {
      var id :| SharedDirect(t, r.caller, r.memberIds[0], id);
    }
    if HasDirect(t, r) {
      var id :| id in t.isGroup && !t.isGroup[id] && (id, r.caller) in t.members && (id, r.memberIds[0]) in t.members;
      assert SharedDirect(t, r.caller, r.memberIds[0], id);
    }
  }

  lemma InsertableIff(t: Tables, r: Request)
    ensures Insertable(t, r) <==> !CannotInsert(t, r)
  {
    if Insertable(t, r) {
      forall u | u in r.memberIds
        ensures u in t.users
      {
        var i :| 0 <= i < |r.memberIds| && r.memberIds[i] == u;
        assert u != r.caller ==> r.memberIds[i] in t.users;
      }
    }
    if !CannotInsert(t, r) {
      forall i | 0 <= i < |r.memberIds|
        ensures r.memberIds[i] in t.users
      {
        assert r.memberIds[i] in r.memberIds;
      }
    }
  }

  /** What every request is answered with and does: it finds a direct chat of the two users and
      changes nothing; or it fails and adds no chat and no member; or it creates a chat of the
      kind asked for, whose members are exactly the caller and those named, and touches no other. */
  lemma EveryRequest(t: Tables, r: Request, t': Tables, reply: Reply)
    requires Tidy(t) && Answers(t, r, t', reply)
    ensures reply.Existing? <==> HasDirect(t, r)
    ensures reply == Failed <==> !HasDirect(t, r) && CannotInsert(t, r)
    ensures reply.Existing? ==>
      && t' == t && reply.id in t.isGroup && !t.isGroup[reply.id]
      && (reply.id, r.caller) in t.members && (reply.id, r.memberIds[0]) in t.members
    ensures reply == Failed ==> t'.isGroup == t.isGroup && t'.members == t.members
    ensures reply.Created? ==>
      && reply.id !in t.isGroup && t'.isGroup == t.isGroup[reply.id := r.isGroup]
      && (forall u :: (reply.id, u) in t'.members <==> u == r.caller || u in r.memberIds)
      && (forall id, u :: id != reply.id ==> ((id, u) in t'.members <==> (id, u) in t.members))
    ensures t'.users == t.users
  {
    FindsIff(t, r);
    InsertableIff(t, r);
    hide HasDirect, CannotInsert, Insertable, Finds;
    assert forall u :: (t.nextId, u) !in t.members;
  }

  // ----- Uniqueness -----

  /** A direct chat has two members, or one when its creator named nobody else. */
  ghost predicate Pairs(t: Tables) {
    forall id :: IsDirect(t, id) ==> exists a, b :: MembersOf(t, id) == {a, b}
  }

  ghost predicate OnePerPair(t: Tables) {
    forall a, b, i, j :: a != b && SharedDirect(t, a, b, i) && SharedDirect(t, a, b, j) ==> i == j
  }

  lemma TidyStep(t: Tables, e: Event, t': Tables)
    requires Tidy(t) && StepOf(t, e, t')
    ensures Tidy(t')
    ensures forall id :: id in t.isGroup ==>
      id in t'.isGroup && t'.isGroup[id] == t.isGroup[id] && MembersOf(t', id) == MembersOf(t, id)
    ensures forall id, u :: id in t.isGroup ==> ((id, u) in t'.members <==> (id, u) in t.members)
  {
    if e.Ask? && t' == Inserted(t, e.request) {
      forall id | id in t.isGroup
        ensures MembersOf(t', id) == MembersOf(t, id)
      {
        assert id != t.nextId;
        assert forall u :: (id, u) in t'.members <==> (id, u) in t.members;
      }
    }
  }

  /** The users a request puts in one chat. */
  function Joined(r: Request): set<UserId> {
    {r.caller} + set u | u in r.memberIds
  }

  lemma NewChatMembers(t: Tables, r: Request)
    requires Tidy(t)
    ensures MembersOf(Inserted(t, r), t.nextId) == Joined(r)
  {
    var t' := Inserted(t, r);
    assert forall u :: (t.nextId, u) !in t.members;
    forall u
      ensures u in MembersOf(t', t.nextId) <==> u in Joined(r)
    {
      if u in Joined(r) {
        assert (t.nextId, u) in t'.members;
      }
    }
  }

  lemma JoinedOfProper(e: Event)
    requires e.Ask? && Proper(e) && !e.request.isGroup
    ensures
      var r := e.request;
      Joined(r) == {r.caller, if r.memberIds == [] then r.caller else r.memberIds[0]}
  {
    var r := e.request;
    assert r.memberIds == [] || r.memberIds == [r.memberIds[0]];
  }

  lemma PairsStep(t: Tables, e: Event, t': Tables)
    requires Tidy(t) && Pairs(t) && StepOf(t, e, t') && Proper(e)
    ensures Pairs(t')
  {
    TidyStep(t, e, t');
    if e.Ask? && t' == Inserted(t, e.request) && !e.request.isGroup {
      NewChatMembers(t, e.request);
      JoinedOfProper(e);
    }
    hide MembersOf, Inserted, Joined;
  }

  ghost predicate Strangers(t: Tables, users: set<UserId>) {
    forall a, b, id :: a in users && b in users && a != b ==> !SharedDirect(t, a, b, id)
  }

  lemma SharedAfterInsert(t: Tables, r: Request, a: UserId, b: UserId, id: ChatId)
    requires Tidy(t)
    ensures SharedDirect(Inserted(t, r), a, b, id) <==>
            if id == t.nextId then !r.isGroup && a in Joined(r) && b in Joined(r) else SharedDirect(t, a, b, id)
  {
    assert forall u :: (t.nextId, u) !in t.members;
    assert forall u :: (t.nextId, u) in Inserted(t, r).members <==> u in Joined(r);
    assert forall u :: id != t.nextId ==> ((id, u) in Inserted(t, r).members <==> (id, u) in t.members);
  }

  lemma InsertedIsUniqueIff(t: Tables, r: Request)
    requires Tidy(t) && OnePerPair(t) && !r.isGroup
    ensures OnePerPair(Inserted(t, r)) <==> Strangers(t, Joined(r))
  {
    hide Inserted, SharedDirect, Joined;
    var t', newId := Inserted(t, r), t.nextId;
    forall a, b, id
      ensures SharedDirect(t', a, b, id) <==>
              if id == newId then a in Joined(r) && b in Joined(r) else SharedDirect(t, a, b, id)
      ensures SharedDirect(t, a, b, id) ==> id != newId
    {
      SharedAfterInsert(t, r, a, b, id);
      if SharedDirect(t, a, b, id) {
        NextIsUnused(t, a, b, id);
      }
    }
    if a, b, id :| a in Joined(r) && b in Joined(r) && a != b && SharedDirect(t, a, b, id) {
      assert SharedDirect(t', a, b, id) && SharedDirect(t', a, b, newId);
    }
  }

  /** A request that will insert a direct chat: not a group, nothing found, every row insertable. */
  ghost predicate Inserts(t: Tables, r: Request) {
    !r.isGroup && !Finds(t, r) && Insertable(t, r)
  }

  lemma UnchangedSharing(t: Tables, r: Request, t': Tables, reply: Reply, a: UserId, b: UserId, id: ChatId)
    requires Tidy(t) && Answers(t, r, t', reply) && !Inserts(t, r)
    ensures SharedDirect(t', a, b, id) <==> SharedDirect(t, a, b, id)
  {
    if t' == Inserted(t, r) {
      SharedAfterInsert(t, r, a, b, id);
    }
  }

  /** Whatever the request and however it is answered: direct chats stay unique if and only if
      it inserts no direct chat, or one whose members share none already. */
  lemma StaysUniqueIff(t: Tables, r: Request, t': Tables, reply: Reply)
    requires Tidy(t) && OnePerPair(t) && Answers(t, r, t', reply)
    ensures OnePerPair(t') <==> (Inserts(t, r) ==> Strangers(t, Joined(r)))
  {
    if Inserts(t, r) {
      InsertedIsUniqueIff(t, r);
      assert t' == Inserted(t, r);
    } else {
      forall a, b, id
        ensures SharedDirect(t', a, b, id) <==> SharedDirect(t, a, b, id)
      {
        UnchangedSharing(t, r, t', reply, a, b, id);
      }
    }
  }

  lemma NextIsUnused(t: Tables, a: UserId, b: UserId, id: ChatId)
    requires Tidy(t) && SharedDirect(t, a, b, id)
    ensures id != t.nextId
  {
  }

  lemma ProperInsertsStrangers(t: Tables, e: Event)
    requires e.Ask? && Proper(e) && Inserts(t, e.request)
    ensures Strangers(t, Joined(e.request))
  {
    var r := e.request;
    JoinedOfProper(e);
    hide Joined;
    if r.memberIds != [] {
      forall id
        ensures !SharedDirect(t, r.caller, r.memberIds[0], id) && !SharedDirect(t, r.memberIds[0], r.caller, id)
      {
        assert SharedDirect(t, r.memberIds[0], r.caller, id) ==> SharedDirect(t, r.caller, r.memberIds[0], id);
      }
    }
  }

  lemma OnePerPairStep(t: Tables, e: Event, t': Tables)
    requires Tidy(t) && OnePerPair(t) && StepOf(t, e, t') && Proper(e)
    ensures OnePerPair(t')
  {
    match e
    case Ask(r, reply) =>
      StaysUniqueIff(t, r, t', reply);
      if Inserts(t, r) {
        ProperInsertsStrangers(t, e);
      }
      hide Answers, Inserts, Joined;
    case SignUp(_) =>
      assert forall a, b, id :: SharedDirect(t', a, b, id) ==> SharedDirect(t, a, b, id);
  }

  /** In every run of proper requests, each direct chat has the two members of its request, or
      its creator alone, and any two users share at most one direct chat. */
  lemma {:induction false} DirectChatsAreUnique(ts: seq<Tables>, es: seq<Event>, i: nat)
    requires IsRun(ts, es) && i < |ts| && forall k :: 0 <= k < i ==> Proper(es[k])
    ensures Tidy(ts[i]) && Pairs(ts[i]) && OnePerPair(ts[i])
  {
    if i == 0 {
      assert ts[0] == EMPTY;
    } else {
      hide Tidy, Pairs, OnePerPair, StepOf, Proper;
      DirectChatsAreUnique(ts, es, i - 1);
      assert StepAt(ts, es, i - 1);
      TidyStep(ts[i - 1], es[i - 1], ts[i]);
      PairsStep(ts[i - 1], es[i - 1], ts[i]);
      OnePerPairStep(ts[i - 1], es[i - 1], ts[i]);
    }
  }

  lemma {:induction false} DirectChatsStay(
      ts: seq<Tables>, es: seq<Event>, i: nat, j: nat, a: UserId, b: UserId, id: ChatId)
    requires IsRun(ts, es) && i <= j < |ts| && forall k :: 0 <= k < j ==> Proper(es[k])
    requires SharedDirect(ts[i], a, b, id)
    ensures SharedDirect(ts[j], a, b, id)
  {
    hide StepOf, Tidy, Pairs, OnePerPair;
    if i < j {
      DirectChatsStay(ts, es, i, j - 1, a, b, id);
      DirectChatsAreUnique(ts, es, j - 1);
      assert StepAt(ts, es, j - 1);
      TidyStep(ts[j - 1], es[j - 1], ts[j]);
    }
  }

  /** Once one of two users has been answered with a chat, every later direct request from
      either side is answered with that same chat, which has exactly those two members. */
  lemma EitherSideFindsTheChat(ts: seq<Tables>, es: seq<Event>, i: nat, j: nat)
    requires IsRun(ts, es) && i < j < |es| && forall k :: 0 <= k <= j ==> Proper(es[k])
    requires es[i].Ask? && Looks(es[i].request) && es[i].reply != Failed
    requires es[i].request.caller != es[i].request.memberIds[0]
    requires es[j].Ask? && Looks(es[j].request)
    requires {es[j].request.caller, es[j].request.memberIds[0]} == {es[i].request.caller, es[i].request.memberIds[0]}
    ensures es[j].reply == Existing(es[i].reply.id) && ts[j + 1] == ts[j]
    ensures MembersOf(ts[j], es[i].reply.id) == {es[i].request.caller, es[i].request.memberIds[0]}
  {
    var a, b, id := es[i].request.caller, es[i].request.memberIds[0], es[i].reply.id;
    DirectChatsAreUnique(ts, es, i);
    DirectChatsAreUnique(ts, es, j);
    assert StepAt(ts, es, i) && StepAt(ts, es, j) && Proper(es[i]) && Proper(es[j]);
    Answered(ts[i], es[i].request, ts[i + 1], es[i].reply);
    DirectChatsStay(ts, es, i + 1, j, a, b, id);
    PairMembers(ts[j], a, b, id);
    var c, d := es[j].request.caller, es[j].request.memberIds[0];
    assert (c == a && d == b) || (c == b && d == a);
    assert SharedDirect(ts[j], c, d, id);
    hide Tidy, Pairs, MembersOf;
  }

  /** In every run of proper requests: a request for a direct chat between two existing users is
      never refused, and is answered with a direct chat that has exactly those two. */
  lemma DirectRequestSucceeds(ts: seq<Tables>, es: seq<Event>, i: nat, caller: UserId, target: UserId)
    requires IsRun(ts, es) && i < |es| && forall k :: 0 <= k <= i ==> Proper(es[k])
    requires es[i].Ask? && es[i].request == Request(caller, false, [target])
    requires caller in ts[i].users && target in ts[i].users
    ensures es[i].reply != Failed
    ensures es[i].reply.id in ts[i + 1].isGroup && !ts[i + 1].isGroup[es[i].reply.id]
    ensures (es[i].reply.id, caller) in ts[i + 1].members && (es[i].reply.id, target) in ts[i + 1].members
    ensures caller != target ==> forall u :: (es[i].reply.id, u) in ts[i + 1].members <==> u == caller || u == target
  {
    DirectChatsAreUnique(ts, es, i + 1);
    DirectChatsAreUnique(ts, es, i);
    assert StepAt(ts, es, i);
    var t, t', r, reply := ts[i], ts[i + 1], es[i].request, es[i].reply;
    EveryRequest(t, r, t', reply);
    assert !CannotInsert(t, r);
    assert SharedDirect(t', caller, target, reply.id);
    if caller != target {
      PairMembers(t', caller, target, reply.id);
      forall u
        ensures (reply.id, u) in t'.members <==> u in MembersOf(t', reply.id)
      {
        assert (reply.id, u).0 == reply.id;
      }
    }
  }

  lemma Answered(t: Tables, r: Request, t': Tables, reply: Reply)
    requires Tidy(t) && Looks(r) && Answers(t, r, t', reply) && reply != Failed
    ensures SharedDirect(t', r.caller, r.memberIds[0], reply.id)
  {
    SharedAfterInsert(t, r, r.caller, r.memberIds[0], t.nextId);
  }

  lemma PairMembers(t: Tables, a: UserId, b: UserId, id: ChatId)
    requires Pairs(t) && a != b && SharedDirect(t, a, b, id)
    ensures MembersOf(t, id) == {a, b}
  {
    var x, y :| MembersOf(t, id) == {x, y};
    assert a in MembersOf(t, id) by { assert (id, a) in t.members && (id, a).0 == id; }
    assert b in MembersOf(t, id) by { assert (id, b) in t.members && (id, b).0 == id; }
  }

  /** The condition is needed: a non-group request that names two members is not looked up, so
      repeating it gives the same users two direct chats. */
  lemma WideRequestsDuplicate() returns (ts: seq<Tables>, es: seq<Event>)
    ensures IsRun(ts, es) && |es| == 5
    ensures SharedDirect(ts[5], 1, 2, 1) && SharedDirect(ts[5], 1, 2, 2)
  {
    var wide := Request(1, false, [2, 3]);
    es := [SignUp(1), SignUp(2), SignUp(3), Ask(wide, Created(1)), Ask(wide, Created(2))];
    var t3 := Tables({1, 2, 3}, map[], {}, 1);
    var t4 := Inserted(t3, wide);
    var t5 := Inserted(t4, wide);
    ts := [EMPTY, EMPTY.(users := {1}), EMPTY.(users := {1, 2}), t3, t4, t5];
    assert t3 == EMPTY.(users := {1, 2} + {3});
    forall i | 0 <= i < 5
      ensures StepAt(ts, es, i)
    {
      assert i == 0 || i == 1 || i == 2 || i == 3 || i == 4;
    }
    assert 2 in wide.memberIds;
  }

  // ----- The handler -----

  class ChatTables {
    var users: set<UserId>
    var isGroup: map<ChatId, bool>
    var members: set<(ChatId, UserId)>
    var nextId: int

    constructor ()
      ensures View() == EMPTY
    {
      users, isGroup, members, nextId := {}, map[], {}, 1;
    }

    ghost function View(): Tables
      reads this
    {
      Tables(users, isGroup, members, nextId)
    }

    /** The inserts into chat_members, and whether one of them fails. */
    method NewRows(r: Request, chatId: ChatId) returns (aborted: bool, rows: set<(ChatId, UserId)>)
      ensures aborted <==> CannotInsert(View(), r)
      ensures !aborted ==> rows == {(chatId, r.caller)} + set u | u in r.memberIds :: (chatId, u)
    {
      rows := {(chatId, r.caller)};
      aborted := r.caller !in users;
      for i := 0 to |r.memberIds|
        invariant aborted <==> !Insertable(View(), r.(memberIds := r.memberIds[..i]))
        invariant !aborted ==> rows == {(chatId, r.caller)} + set u | u in r.memberIds[..i] :: (chatId, u)
      {
        var mid := r.memberIds[i];
        assert r.memberIds[..i + 1] == r.memberIds[..i] + [mid];
        if mid != r.caller {
          if mid !in users || (chatId, mid) in rows {
            aborted := true;
          } else {
            rows := rows + {(chatId, mid)};
          }
        }
      }
      assert r.memberIds[..|r.memberIds|] == r.memberIds;
      InsertableIff(View(), r);
    }

    /** The lookup and the transaction. A row that cannot be inserted aborts the transaction,
        so that its commit fails and nothing but the id is used up. */
    method CreateChat(r: Request) returns (reply: Reply)
      requires Tidy(View())
      modifies this
      ensures Answers(old(View()), r, View(), reply) && Tidy(View())
    {
      if !r.isGroup && |r.memberIds| == 1 {
        var target := r.memberIds[0];
        var existingId := 0;
        if id :| id in isGroup && !isGroup[id] && (id, r.caller) in members && (id, target) in members {
          assert SharedDirect(View(), r.caller, target, id);
          existingId := id;
        }
        if existingId > 0 {
          return Existing(existingId);
        }
      }
      ghost var t := View();
      var chatId := nextId;
      nextId := nextId + 1;
      var aborted, rows := NewRows(r, chatId);
      InsertableIff(View(), r);
      InsertableIff(t, r);
      if aborted {
        TidyStep(t, Ask(r, Failed), View());
        return Failed;
      }
      isGroup := isGroup[chatId := r.isGroup];
      members := members + rows;
      assert View().members == Inserted(t, r).members;
      TidyStep(t, Ask(r, Created(chatId)), View());
      return Created(chatId);
    }
  }
}
