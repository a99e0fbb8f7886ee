/** Reading the message table back: one page of a chat's history, and the paging loop that
    rebuilds the whole of it. The table is an append-only sequence of rows in id order. */
module History {
  import opened Options
  import opened Base64
  import opened Crypto
  import opened Models

  const MAX_PAGE := 100

  /** `visible` is false for a deleted message and for one whose author is gone. */
  datatype Row = Row(message: Message, visible: bool)

  type Log = seq<Row>

  /** Ids come from a sequence: positive, and growing along the table. */
  ghost predicate IdsGrow(log: Log) {
    && (forall i :: 0 <= i < |log| ==> 0 < log[i].message.id)
    && forall i, j :: 0 <= i < j < |log| ==> log[i].message.id < log[j].message.id
  }

  predicate Selects(r: Row, chat: ChatId, before: int) {
    r.visible && r.message.chat == chat && (before > 0 ==> r.message.id < before)
  }

  /** The messages the WHERE clause admits, in table order. */
  function Matching(log: Log, chat: ChatId, before: int): seq<Message> {
    if log == [] then []
    else
      var m, r := Matching(log[..|log| - 1], chat, before), log[|log| - 1];
      if Selects(r, chat, before) then m + [r.message] else m
  }

  /** No message is as old as an earlier one, or older. */
  predicate InTimeOrder(m: seq<Message>) {
    forall i, j :: 0 <= i < j < |m| ==> m[i].createdAt < m[j].createdAt
  }

  predicate NewestFirst(rows: seq<Message>) {
    forall i, j :: 0 <= i < j < |rows| ==> rows[i] != rows[j] && rows[i].createdAt >= rows[j].createdAt
  }

  ghost predicate LeavesOutNewer(rows: seq<Message>, matching: seq<Message>) {
    exists i, x :: 0 <= i < |rows| && x in matching && x !in rows && x.createdAt > rows[i].createdAt
  }

  /** What ORDER BY created_at DESC LIMIT may answer: distinct matching rows, newest first, and
      none left out that is newer than one kept. Ties may come in any order. */
  ghost predicate IsQueryAnswer(rows: seq<Message>, matching: seq<Message>, limit: nat) {
    && |rows| == (if |matching| < limit then |matching| else limit)
    && (forall i :: 0 <= i < |rows| ==> rows[i] in matching)
    && NewestFirst(rows) && !LeavesOutNewer(rows, matching)
  }

  lemma {:induction false} MatchingIsSelected(log: Log, chat: ChatId, before: int)
    ensures forall x :: x in Matching(log, chat, before) ==>
      exists i :: 0 <= i < |log| && log[i].message == x && Selects(log[i], chat, before)
  {
    if log != [] {
      var init := log[..|log| - 1];
      MatchingIsSelected(init, chat, before);
      forall x | x in Matching(init, chat, before)
        ensures exists i :: 0 <= i < |log| && log[i].message == x && Selects(log[i], chat, before)
      {
        var i :| 0 <= i < |init| && init[i].message == x && Selects(init[i], chat, before);
        assert log[i] == init[i];
      }
    }
  }

  lemma {:induction false} SelectedIsMatching(log: Log, chat: ChatId, before: int, i: nat)
    requires i < |log| && Selects(log[i], chat, before)
    ensures log[i].message in Matching(log, chat, before)
  {
    var init := log[..|log| - 1];
    if i < |init| {
      SelectedIsMatching(init, chat, before, i);
      assert init[i] == log[i];
    }
  }

  /** The messages a fetch is about: exactly the visible ones of the chat, older than the cursor
      when there is one. */
  lemma MatchingIff(log: Log, chat: ChatId, before: int, x: Message)
    ensures x in Matching(log, chat, before) <==>
            exists i :: 0 <= i < |log| && log[i] == Row(x, true) && x.chat == chat && (before <= 0 || x.id < before)
  {
    if x in Matching(log, chat, before) {
      MatchingIsSelected(log, chat, before);
      var i :| 0 <= i < |log| && log[i].message == x && Selects(log[i], chat, before);
      assert log[i] == Row(x, true);
    }
    if i :| 0 <= i < |log| && log[i] == Row(x, true) && x.chat == chat && (before <= 0 || x.id < before) {
      SelectedIsMatching(log, chat, before, i);
    }
  }

  predicate InIdOrder(m: seq<Message>) {
    forall i, j :: 0 <= i < j < |m| ==> m[i].id < m[j].id
  }

  lemma {:induction false} MatchingIdsGrow(log: Log, chat: ChatId, before: int)
    requires IdsGrow(log)
    ensures InIdOrder(Matching(log, chat, before))
  {
    if log != [] {
      var init := log[..|log| - 1];
      MatchingIdsGrow(init, chat, before);
      MatchingIsSelected(init, chat, before);
      var m := Matching(init, chat, before);
      forall k | 0 <= k < |m|
        ensures m[k].id < log[|log| - 1].message.id
      {
        assert m[k] in m;
        var i :| 0 <= i < |init| && init[i].message == m[k];
        assert log[i] == init[i];
      }
    }
  }

  /** The first `k` rows are the newest `k` of `m`, backwards. */
  predicate Backwards(rows: seq<Message>, m: seq<Message>, k: nat)
    requires k <= |rows| <= |m|
  {
    forall i :: 0 <= i < k ==> rows[i] == m[|m| - 1 - i]
  }

  lemma AnsweredOnce(rows: seq<Message>, m: seq<Message>, k: nat, q: nat)
    requires k < |rows| <= |m| && NewestFirst(rows) && Backwards(rows, m, k)
    requires |m| - k <= q < |m|
    ensures m[q] != rows[k]
  {
    assert m[q] == rows[|m| - 1 - q];
  }

  lemma NewestComesNext(rows: seq<Message>, m: seq<Message>, k: nat)
    requires k < |rows| <= |m| && InTimeOrder(m) && NewestFirst(rows) && !LeavesOutNewer(rows, m)
    requires Backwards(rows, m, k)
    ensures m[|m| - 1 - k].createdAt <= rows[k].createdAt
  {
    var x := m[|m| - 1 - k];
    if x in rows {
      var p :| 0 <= p < |rows| && rows[p] == x;
      forall i | 0 <= i < k
        ensures rows[i].createdAt > x.createdAt
      {
        assert rows[i] == m[|m| - 1 - i];
      }
    } else {
      assert x in m;
    }
  }

  /** The newest row not yet answered comes next. */
  lemma NextNewest(rows: seq<Message>, m: seq<Message>, limit: nat, k: nat)
    requires InTimeOrder(m) && IsQueryAnswer(rows, m, limit) && k < |rows| && Backwards(rows, m, k)
    ensures rows[k] == m[|m| - 1 - k]
  {
    hide NewestFirst, LeavesOutNewer, Backwards;
    NewestComesNext(rows, m, k);
    var q: nat :| q < |m| && m[q] == rows[k];
    if |m| - k <= q {
      AnsweredOnce(rows, m, k, q);
    }
  }

  /** With increasing creation times there is only one answer: the newest rows, backwards. */
  lemma {:induction false} AnswerIsNewestFirst(rows: seq<Message>, m: seq<Message>, limit: nat, k: nat)
    requires InTimeOrder(m) && IsQueryAnswer(rows, m, limit) && k <= |rows|
    ensures Backwards(rows, m, k)
  {
    hide NewestFirst, LeavesOutNewer, InTimeOrder;
    if k > 0 {
      AnswerIsNewestFirst(rows, m, limit, k - 1);
      NextNewest(rows, m, limit, k - 1);
    }
  }

  function Last(m: seq<Message>, n: nat): seq<Message> {
    if n <= |m| then m[|m| - n..] else m
  }

  /** Stored content as shown to a member: decrypted by the server unless the users did it. */
  function Shown(c: Primitives, key: Bytes, m: Message): Message {
    if m.isE2E then m
    else
      match Decrypt(c, m.content, key)
      case Some(plain) => m.(content := plain)
      case None => m
  }

  function ShownAll(c: Primitives, key: Bytes, m: seq<Message>): (s: seq<Message>)
    ensures |s| == |m| && forall i :: 0 <= i < |m| ==> s[i] == Shown(c, key, m[i])
  {
    seq(|m|, i requires 0 <= i < |m| => Shown(c, key, m[i]))
  }

  datatype Response = Forbidden | DbError | Page(messages: seq<Message>)

  function Clamp(limit: int): int {
    if limit > MAX_PAGE then MAX_PAGE else limit
  }

  method ReverseInPlace(a: array<Message>)
    modifies a
    ensures forall k :: 0 <= k < a.Length ==> a[k] == old(a[a.Length - 1 - k])
  {
    var i, j := 0, a.Length - 1;
    while i < j
      invariant 0 <= i <= a.Length && j == a.Length - 1 - i
      invariant i <= j + 1
      invariant forall k :: 0 <= k < i ==> a[k] == old(a[a.Length - 1 - k]) && a[a.Length - 1 - k] == old(a[k])
      invariant forall k :: i <= k <= j ==> a[k] == old(a[k])
    {
      a[i], a[j] := a[j], a[i];
      i, j := i + 1, j - 1;
    }
  }

  /** Oldest first, as shown: what the rows of an answer, newest first, become. */
  ghost predicate PageOf(c: Primitives, key: Bytes, page: seq<Message>, rows: seq<Message>) {
    |page| == |rows| && forall k :: 0 <= k < |page| ==> page[k] == Shown(c, key, rows[|page| - 1 - k])
  }

  /** The rows of an answer, shown and turned round. */
  method OldestFirst(c: Primitives, key: Bytes, rows: seq<Message>) returns (page: seq<Message>)
    ensures PageOf(c, key, page, rows)
  {
    hide Shown, ShownAll, ShowsRow;
    var messages := ShowRows(c, key, rows);
    var n := |messages|;
    var a := new Message[n](i requires 0 <= i < n => messages[i]);
    assert a[..] == messages;
    ReverseInPlace(a);
    page := a[..];
    forall k | 0 <= k < n
      ensures page[k] == Shown(c, key, rows[n - 1 - k])
    {
      assert page[k] == messages[n - 1 - k];
    }
  }

  /** One page of history. `answer` is the database's answer, or None when the query fails. A
      negative limit makes the database fail, at the query or when the rows are read; the code
      checks only the first. */
  method GetMessages(
      c: Primitives, key: Bytes, isMember: bool, chat: ChatId, limit: int, before: int,
      ghost log: Log, answer: Option<seq<Message>>) returns (r: Response)
    requires answer.Some? ==>
      if limit < 0 then answer.value == [] else IsQueryAnswer(answer.value, Matching(log, chat, before), Clamp(limit))
    ensures r == Forbidden <==> !isMember
    ensures r == DbError <==> isMember && answer.None?
    ensures r.Page? ==> PageOf(c, key, r.messages, answer.value)
    ensures r.Page? ==>
      var n := |Matching(log, chat, before)|;
      |r.messages| == if limit < 0 then 0
                      else if n <= limit && n <= 100 then n
                      else if limit <= 100 then limit
                      else 100
    ensures r.Page? && 0 <= limit && InTimeOrder(Matching(log, chat, before)) ==>
      r.messages == ShownAll(c, key, Last(Matching(log, chat, before), Clamp(limit)))
  {
    hide IsQueryAnswer, Matching, Shown, InTimeOrder;
    if !isMember {
      return Forbidden;
    }
    if answer.None? {
      return DbError;
    }
    var page := OldestFirst(c, key, answer.value);
    if 0 <= limit {
      AnswerSize(answer.value, Matching(log, chat, before), Clamp(limit));
    }
    if 0 <= limit && InTimeOrder(Matching(log, chat, before)) {
      ReversedAnswer(c, key, page, answer.value, Matching(log, chat, before), Clamp(limit));
    }
    assert |page| == |answer.value|;
    hide PageOf, Last;
    return Page(page);
  }

  lemma AnswerSize(rows: seq<Message>, m: seq<Message>, limit: nat)
    requires IsQueryAnswer(rows, m, limit)
    ensures |rows| == if |m| < limit then |m| else limit
  {
  }

  /** A row as shown: its content decrypted if the server encrypted it and it decrypts. */
  ghost predicate ShowsRow(c: Primitives, key: Bytes, shown: Message, row: Message) {
    && shown == row.(content := shown.content)
    && shown.content ==
       if !row.isE2E && Decrypt(c, row.content, key).Some? then Decrypt(c, row.content, key).value else row.content
  }

  /** The loop over the rows: scan, decrypt, append. */
  method ShowRows(c: Primitives, key: Bytes, rows: seq<Message>) returns (messages: seq<Message>)
    ensures messages == ShownAll(c, key, rows)
    ensures |messages| == |rows| && forall k :: 0 <= k < |rows| ==> ShowsRow(c, key, messages[k], rows[k])
  {
    hide Decrypt;
    messages := [];
    for i := 0 to |rows|
      invariant |messages| == i && forall k :: 0 <= k < i ==> messages[k] == Shown(c, key, rows[k])
    {
      var msg := rows[i];
      if !msg.isE2E {
        match Decrypt(c, msg.content, key)
        case Some(plain) => msg := msg.(content := plain);
        case None =>
      }
      messages := messages + [msg];
    }
  }

  lemma ReversedAnswer(
      c: Primitives, key: Bytes, page: seq<Message>, rows: seq<Message>, m: seq<Message>, limit: nat)
    requires InTimeOrder(m) && IsQueryAnswer(rows, m, limit) && PageOf(c, key, page, rows)
    ensures page == ShownAll(c, key, Last(m, limit))
  {
    hide Shown, InTimeOrder, NewestFirst, LeavesOutNewer;
    AnswerIsNewestFirst(rows, m, limit, |rows|);
    LastBackwards(rows, m, limit);
    hide Last, Backwards, IsQueryAnswer;
  }

  lemma LastBackwards(rows: seq<Message>, m: seq<Message>, limit: nat)
    requires |rows| == (if |m| < limit then |m| else limit) && Backwards(rows, m, |rows|)
    ensures |Last(m, limit)| == |rows|
    ensures forall k :: 0 <= k < |rows| ==> Last(m, limit)[k] == rows[|rows| - 1 - k]
  {
  }

  // ----- Paging -----

  lemma {:induction false} MatchingOfPrefix(log: Log, more: Log, chat: ChatId, before: int)
    requires IdsGrow(log + more)
    requires before > 0 && log != [] && before <= log[|log| - 1].message.id
    ensures Matching(log + more, chat, before) == Matching(log, chat, before)
  {
    if more == [] {
      assert log + more == log;
    } else {
      var rest := more[..|more| - 1];
      var all := log + more;
      assert all[..|all| - 1] == log + rest;
      assert IdsGrow(log + rest) by {
        assert forall i :: 0 <= i < |log + rest| ==> (log + rest)[i] == all[i];
      }
      MatchingOfPrefix(log, rest, chat, before);
      assert all[|log| - 1] == log[|log| - 1];
    }
  }

  /** The cursor selects exactly the matching messages older than it. */
  lemma {:induction false} CursorCuts(log: Log, chat: ChatId, p: nat)
    requires IdsGrow(log) && p < |Matching(log, chat, 0)|
    ensures Matching(log, chat, Matching(log, chat, 0)[p].id) == Matching(log, chat, 0)[..p]
  {
    var m := Matching(log, chat, 0);
    var init := log[..|log| - 1];
    var before := m[p].id;
    MatchingIdsGrow(log, chat, 0);
    MatchingIsSelected(init, chat, 0);
    var mi := Matching(init, chat, 0);
    if p < |mi| {
      CursorCuts(init, chat, p);
      assert m[p] == mi[p];
      assert mi[p] in mi;
      assert m[..p] == mi[..p];
    } else {
      assert m == mi + [log[|log| - 1].message];
      NothingCutBelow(init, chat, before);
      assert m[..p] == mi;
    }
  }

  lemma {:induction false} NothingCutBelow(log: Log, chat: ChatId, before: int)
    requires 0 < before && forall i :: 0 <= i < |log| ==> log[i].message.id < before
    ensures Matching(log, chat, before) == Matching(log, chat, 0)
  {
    if log != [] {
      NothingCutBelow(log[..|log| - 1], chat, before);
    }
  }

  /** `logs(k)` is the table at the k-th fetch: it only ever grows at its end. */
  ghost predicate Grows(logs: nat -> Log) {
    forall k :: logs(0) <= logs(k) && IdsGrow(logs(k))
  }

  /** The cursor that asks for what precedes position `p` of the messages `m`: none at first,
      then the id of the oldest message seen. */
  function CursorAt(m: seq<Message>, p: nat): int {
    if p < |m| then m[p].id else 0
  }

  /** A fetch with that cursor selects what precedes it, whatever was appended meanwhile. */
  lemma PageBefore(logs: nat -> Log, k: nat, chat: ChatId, p: nat)
    requires Grows(logs) && p <= |Matching(logs(0), chat, 0)|
    requires p == |Matching(logs(0), chat, 0)| ==> k == 0
    ensures
      var m := Matching(logs(0), chat, 0);
      Matching(logs(k), chat, CursorAt(m, p)) == m[..p]
  {
    var log := logs(0);
    var m := Matching(log, chat, 0);
    if p < |m| {
      CursorCuts(log, chat, p);
      MatchingIsSelected(log, chat, 0);
      assert m[p] in m;
      var i :| 0 <= i < |log| && log[i].message == m[p];
      assert logs(k) == log + logs(k)[|log|..];
      MatchingOfPrefix(log, logs(k)[|log|..], chat, m[p].id);
    }
  }

  /** Whatever order the database breaks ties in, it answers the query for each fetch. */
  ghost predicate Answers(rows: (nat, int) -> seq<Message>, logs: nat -> Log, chat: ChatId, limit: nat) {
    forall k, before :: IsQueryAnswer(rows(k, before), Matching(logs(k), chat, before), limit)
  }

  function Reversed(s: seq<Message>): (r: seq<Message>)
    ensures |r| == |s| && forall i :: 0 <= i < |s| ==> r[i] == s[|s| - 1 - i]
  {
    seq(|s|, i requires 0 <= i < |s| => s[|s| - 1 - i])
  }

  ghost function IndexIn(m: seq<Message>, x: Message): (q: nat)
    requires x in m
    ensures q < |m| && m[q] == x
  {
    var q: nat :| q < |m| && m[q] == x;
    q
  }

  /** Where the oldest message of a page stands in the chat. */
  ghost function OldestAt(rows: seq<Message>, m: seq<Message>, limit: nat): (q: nat)
    requires IsQueryAnswer(rows, m, limit) && rows != []
    ensures q < |m| && m[q] == rows[|rows| - 1]
  {
    IndexIn(m, rows[|rows| - 1])
  }

  /** What fetching page after page gathers from position `p` down: each fetch asks for what
      precedes the oldest message of the page before. */
  ghost function Rebuilt(
      rows: (nat, int) -> seq<Message>, logs: nat -> Log, chat: ChatId, limit: nat, k: nat, p: nat): seq<Message>
    requires Grows(logs) && Answers(rows, logs, chat, limit) && p <= |Matching(logs(0), chat, 0)|
    requires p == |Matching(logs(0), chat, 0)| ==> k == 0
    decreases p
  {
    var m := Matching(logs(0), chat, 0);
    var page := rows(k, CursorAt(m, p));
    PageBefore(logs, k, chat, p);
    if page == [] then []
    else Rebuilt(rows, logs, chat, limit, k + 1, OldestAt(page, m[..p], limit)) + Reversed(page)
  }

  lemma LastReversed(m: seq<Message>, page: seq<Message>, limit: nat)
    requires 1 <= limit && IsQueryAnswer(page, m, limit) && InTimeOrder(m)
    ensures page == [] <==> m == []
    ensures page != [] ==>
      var q := OldestAt(page, m, limit);
      q == |m| - |page| && Reversed(page) == m[q..]
  {
    AnswerIsNewestFirst(page, m, limit, |page|);
    if page != [] {
      assert page[|page| - 1] == m[|m| - |page|];
      assert m[OldestAt(page, m, limit)].createdAt == m[|m| - |page|].createdAt;
    }
    hide NewestFirst, LeavesOutNewer;
  }

  lemma {:induction false} RebuiltInOrder(
      rows: (nat, int) -> seq<Message>, logs: nat -> Log, chat: ChatId, limit: nat, k: nat, p: nat)
    requires Grows(logs) && Answers(rows, logs, chat, limit) && p <= |Matching(logs(0), chat, 0)|
    requires p == |Matching(logs(0), chat, 0)| ==> k == 0
    requires 1 <= limit && InTimeOrder(Matching(logs(0), chat, 0))
    ensures Rebuilt(rows, logs, chat, limit, k, p) == Matching(logs(0), chat, 0)[..p]
    decreases p
  {
    hide Matching, IsQueryAnswer, Grows;
    var m := Matching(logs(0), chat, 0);
    var page := rows(k, CursorAt(m, p));
    PageBefore(logs, k, chat, p);
    LastReversed(m[..p], page, limit);
    if page != [] {
      var q := OldestAt(page, m[..p], limit);
      RebuiltInOrder(rows, logs, chat, limit, k + 1, q);
      assert m[..p][q..] == m[q..p] && m[..q] + m[q..p] == m[..p];
    }
  }

  /** What one fetch takes off what is left to gather. */
  lemma NextPage(rows: (nat, int) -> seq<Message>, logs: nat -> Log, chat: ChatId, limit: nat, k: nat, p: nat)
    requires Grows(logs) && Answers(rows, logs, chat, limit) && p <= |Matching(logs(0), chat, 0)|
    requires p == |Matching(logs(0), chat, 0)| ==> k == 0
    ensures
      var m := Matching(logs(0), chat, 0);
      var answer, rest := rows(k, CursorAt(m, p)), Rebuilt(rows, logs, chat, limit, k, p);
      && IsQueryAnswer(answer, Matching(logs(k), chat, CursorAt(m, p)), limit)
      && IsQueryAnswer(answer, m[..p], limit)
      && if answer == [] then rest == []
         else
           var q := OldestAt(answer, m[..p], limit);
           q < p && CursorAt(m, q) == answer[|answer| - 1].id
           && rest == Rebuilt(rows, logs, chat, limit, k + 1, q) + Reversed(answer)
  {
    hide Matching, IsQueryAnswer, Grows;
    PageBefore(logs, k, chat, p);
  }

  /** A legal answer to a query for one row: the first of the newest. */
  function FirstNewest(m: seq<Message>): (q: nat)
    requires m != []
    ensures q < |m|
    ensures forall i :: 0 <= i < |m| ==> m[i].createdAt <= m[q].createdAt
    ensures forall i :: 0 <= i < q ==> m[i].createdAt < m[q].createdAt
  {
    var n := |m| - 1;
    if n == 0 then 0
    else
      var q := FirstNewest(m[..n]);
      if m[q].createdAt < m[n].createdAt then n else q
  }

  function OneRow(m: seq<Message>): (rows: seq<Message>)
    ensures IsQueryAnswer(rows, m, 1)
  {
    if m == [] then [] else [m[FirstNewest(m)]]
  }

  ghost predicate FromOneRow(rows: (nat, int) -> seq<Message>, logs: nat -> Log, chat: ChatId) {
    forall k, before :: rows(k, before) == OneRow(Matching(logs(k), chat, before))
  }

  lemma OldestOfOne(m: seq<Message>, p: nat, q: nat)
    requires InIdOrder(m) && q < p <= |m| && IsQueryAnswer([m[q]], m[..p], 1)
    ensures OldestAt([m[q]], m[..p], 1) == q
  {
    var oldest := OldestAt([m[q]], m[..p], 1);
    assert m[..p][oldest] == m[oldest];
    hide IsQueryAnswer;
  }

  /** With pages of one row, a fetch takes the first of the newest and asks below it. */
  lemma OneRowPage(
      rows: (nat, int) -> seq<Message>, logs: nat -> Log, chat: ChatId, k: nat, p: nat)
    requires Grows(logs) && Answers(rows, logs, chat, 1) && 0 < p <= |Matching(logs(0), chat, 0)|
    requires p == |Matching(logs(0), chat, 0)| ==> k == 0
    requires FromOneRow(rows, logs, chat)
    ensures
      var m := Matching(logs(0), chat, 0);
      var q := FirstNewest(m[..p]);
      q < p && Rebuilt(rows, logs, chat, 1, k, p) == Rebuilt(rows, logs, chat, 1, k + 1, q) + [m[q]]
  {
    hide Matching, IsQueryAnswer, Answers, FirstNewest, Rebuilt, InIdOrder, IdsGrow, CursorAt, OldestAt;
    var m := Matching(logs(0), chat, 0);
    MatchingIdsGrow(logs(0), chat, 0);
    PageBefore(logs, k, chat, p);
    NextPage(rows, logs, chat, 1, k, p);
    var q := FirstNewest(m[..p]);
    var answer := rows(k, CursorAt(m, p));
    assert answer == [m[q]];
    OldestOfOne(m, p, q);
    assert Reversed(answer) == answer;
  }

  lemma {:induction false} OneRowLoses(
      rows: (nat, int) -> seq<Message>, logs: nat -> Log, chat: ChatId, k: nat, p: nat)
    requires Grows(logs) && Answers(rows, logs, chat, 1) && p <= |Matching(logs(0), chat, 0)|
    requires p == |Matching(logs(0), chat, 0)| ==> k == 0
    requires FromOneRow(rows, logs, chat)
    requires !InTimeOrder(Matching(logs(0), chat, 0)[..p])
    ensures Rebuilt(rows, logs, chat, 1, k, p) != Matching(logs(0), chat, 0)[..p]
    decreases p
  {
    hide Matching, Answers, InTimeOrder, FirstNewest, Rebuilt, OneRow, FromOneRow, IdsGrow, InIdOrder;
    var m := Matching(logs(0), chat, 0);
    var older := m[..p];
    MatchingIdsGrow(logs(0), chat, 0);
    NotEmpty(older);
    OneRowPage(rows, logs, chat, k, p);
    var q := FirstNewest(older);
    if q == p - 1 {
      OrderBelowNewest(older);
      assert older[..q] == m[..q];
      OneRowLoses(rows, logs, chat, k + 1, q);
    }
    PickLoses(m, p, q, Rebuilt(rows, logs, chat, 1, k + 1, q));
  }

  lemma PickLoses(m: seq<Message>, p: nat, q: nat, rest: seq<Message>)
    requires InIdOrder(m) && q < p <= |m| && (q == p - 1 ==> rest != m[..q])
    ensures rest + [m[q]] != m[..p]
  {
    var all := rest + [m[q]];
    assert all[|all| - 1] == m[q] && all[..|all| - 1] == rest;
    assert m[..p][p - 1] == m[p - 1] && m[..p][..p - 1] == m[..p - 1];
  }

  lemma NotEmpty(m: seq<Message>)
    requires !InTimeOrder(m)
    ensures m != []
  {
  }

  lemma OrderBelowNewest(m: seq<Message>)
    requires m != [] && FirstNewest(m) == |m| - 1 && !InTimeOrder(m)
    ensures !InTimeOrder(m[..|m| - 1])
  {
    hide FirstNewest;
    var older, n := m[..|m| - 1], |m| - 1;
    var i, j :| 0 <= i < j < |m| && m[i].createdAt >= m[j].createdAt;
    assert m[i].createdAt < m[n].createdAt;
    assert older[i] == m[i] && older[j] == m[j];
  }

  /** The table starts as `log`, grows, and answers every fetch of `limit` rows. */
  ghost predicate Serves(
      rows: (nat, int) -> seq<Message>, logs: nat -> Log, log: Log, chat: ChatId, limit: nat) {
    logs(0) == log && Grows(logs) && 1 <= limit <= MAX_PAGE && Answers(rows, logs, chat, limit)
  }

  /** Paging gives back every visible message of the chat once, in order, for every page size,
      every growth of the table and every way of breaking ties. */
  ghost predicate PagingRebuilds(log: Log, chat: ChatId) {
    var m := Matching(log, chat, 0);
    forall rows, logs, limit | Serves(rows, logs, log, chat, limit) :: Rebuilt(rows, logs, chat, limit, 0, |m|) == m
  }

  /** It does so if and only if creation times strictly increase with the ids. */
  lemma PagingRebuildsIff(log: Log, chat: ChatId)
    requires IdsGrow(log)
    ensures PagingRebuilds(log, chat) <==> InTimeOrder(Matching(log, chat, 0))
  {
    hide Matching, IsQueryAnswer;
    var m := Matching(log, chat, 0);
    assert m[..|m|] == m;
    if InTimeOrder(m) {
      forall rows, logs, limit | Serves(rows, logs, log, chat, limit)
        ensures Rebuilt(rows, logs, chat, limit, 0, |m|) == m
      {
        RebuiltInOrder(rows, logs, chat, limit, 0, |m|);
      }
    } else {
      var logs := (k: nat) => log;
      var rows := (k: nat, before: int) => OneRow(Matching(log, chat, before));
      assert Serves(rows, logs, log, chat, 1);
      OneRowLoses(rows, logs, chat, 0, |m|);
    }
  }

  lemma ShownAllConcat(c: Primitives, key: Bytes, a: seq<Message>, b: seq<Message>)
    ensures ShownAll(c, key, a) + ShownAll(c, key, b) == ShownAll(c, key, a + b)
  {
    hide Shown;
  }

  lemma ShownKeepsId(c: Primitives, key: Bytes, m: Message)
    ensures Shown(c, key, m).id == m.id
  {
  }

  lemma NothingShown(c: Primitives, key: Bytes)
    ensures ShownAll(c, key, []) == []
  {
  }

  lemma StartsAtZero(m: seq<Message>)
    ensures CursorAt(m, |m|) == 0
  {
  }

  lemma ShownReversed(c: Primitives, key: Bytes, page: seq<Message>, rows: seq<Message>)
    requires PageOf(c, key, page, rows)
    ensures page == ShownAll(c, key, Reversed(rows))
  {
    hide Shown;
  }

  /** The paging loop: it ends, and gives what Rebuilt says, which is every visible message that
      was there at the first fetch exactly once, oldest first, when creation times increase. */
  method PageThrough(
      c: Primitives, key: Bytes, chat: ChatId, limit: int, rows: (nat, int) -> seq<Message>, ghost logs: nat -> Log)
      returns (all: seq<Message>)
    requires Grows(logs) && 1 <= limit && Answers(rows, logs, chat, Clamp(limit))
    ensures
      var m := Matching(logs(0), chat, 0);
      && all == ShownAll(c, key, Rebuilt(rows, logs, chat, Clamp(limit), 0, |m|))
      && (InTimeOrder(m) ==> all == ShownAll(c, key, m))
  {
    hide Matching, IsQueryAnswer, Shown, InTimeOrder, Grows, ShownAll, Answers, Rebuilt, CursorAt;
    all := [];
    var before: int, k: nat := 0, 0;
    ghost var m := Matching(logs(0), chat, 0);
    ghost var p: nat, got: seq<Message> := |m|, [];
    ghost var goal := Rebuilt(rows, logs, chat, Clamp(limit), 0, |m|);
    NothingShown(c, key);
    StartsAtZero(m);
    while true
      invariant p <= |m| && (p == |m| ==> k == 0) && before == CursorAt(m, p)
      invariant all == ShownAll(c, key, got)
      invariant goal == Rebuilt(rows, logs, chat, Clamp(limit), k, p) + got
      decreases p
    {
      NextPage(rows, logs, chat, Clamp(limit), k, p);
      var answer := rows(k, before);
      var r := GetMessages(c, key, true, chat, limit, before, logs(k), Some(answer));
      var page := r.messages;
      ShownReversed(c, key, page, answer);
      if page == [] {
        break;
      }
      ShownAllConcat(c, key, Reversed(answer), got);
      all := page + all;
      got := Reversed(answer) + got;
      assert page[0] == Shown(c, key, answer[|answer| - 1]);
      ShownKeepsId(c, key, answer[|answer| - 1]);
      p := OldestAt(answer, m[..p], Clamp(limit));
      before := page[0].id;
      k := k + 1;
    }
    if InTimeOrder(m) {
      RebuiltInOrder(rows, logs, chat, Clamp(limit), 0, |m|);
      assert m[..|m|] == m;
    }
  }
}
