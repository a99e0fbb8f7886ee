/** The session protocol over the refresh_tokens table. Login, Register and Refresh are each
    several steps, and steps of different requests interleave freely with each other, with
    logouts and with the clock.

    A token enters the protocol through its hash. The one assumption about randomness and
    hashing is in `Enabled`: a newly issued token's hash differs from every earlier one. */
module SessionProtocol {
  import opened RefreshTokens

  const ACCESS_TTL := 15 * 60 * SECOND

  type OpId = nat

  /** A request between two of its steps. */
  datatype Op =
    | LoginIssued(user: int, token: Hash)
    | Selected(user: int, presented: Hash)
    | Issued(user: int, presented: Hash, token: Hash)

  /** A signed access token; `exp` is in whole seconds (section 4.1.4 of RFC 7519). */
  datatype Access = Access(user: int, family: Hash, exp: int)

  /** `root` maps every hash ever stored to the hash its login stored first: its family.
      `owner` and `savedAt` give each family's user and the time of its last insert. */
  datatype State = State(
    now: int,
    table: Table,
    ops: map<OpId, Op>,
    issued: set<Hash>,
    root: map<Hash, Hash>,
    owner: map<Hash, int>,
    savedAt: map<Hash, int>,
    rotations: seq<(Hash, Hash)>,
    minted: set<Access>)

  /** A request that ends early, whether by an error or a rollback, is `Abandon`. */
  datatype Action =
    | Tick(d: int)
    | LoginIssue(op: OpId, user: int, token: Hash)
    | LoginSave(op: OpId)
    | RefreshSelect(op: OpId, h: Hash)
    | RefreshIssue(op: OpId, token: Hash)
    | RefreshRotate(op: OpId)
    | Abandon(op: OpId)
    | Logout(user: int)

  const INIT := State(0, map[], map[], {}, map[], map[], map[], [], {})

  predicate Enabled(s: State, a: Action) {
    match a
    case Tick(d) => 0 <= d
    case LoginIssue(op, _, token) => op !in s.ops && token !in s.issued
    case LoginSave(op) => op in s.ops && s.ops[op].LoginIssued?
    case RefreshSelect(op, h) => op !in s.ops && h in s.table && s.table[h].expires > s.now
    case RefreshIssue(op, token) => op in s.ops && s.ops[op].Selected? && token !in s.issued
    case RefreshRotate(op) => op in s.ops && s.ops[op].Issued?
    case Abandon(op) => op in s.ops
    case Logout(_) => true
  }

  function Family(s: State, h: Hash): Hash {
    if h in s.root then s.root[h] else h
  }

  /** The expiry claim of a token minted at `now` is cut to whole seconds. */
  function Expiry(now: int): int {
    (now + ACCESS_TTL) / SECOND
  }

  function Mint(s: State, user: int, family: Hash): Access {
    Access(user, family, Expiry(s.now))
  }

  predicate Accepted(a: Access, at: int) {
    at < a.exp * SECOND
  }

  function Next(s: State, a: Action): State
    requires Enabled(s, a)
  {
    match a
    case Tick(d) => s.(now := s.now + d)
    case LoginIssue(op, user, token) =>
      s.(ops := s.ops[op := LoginIssued(user, token)], issued := s.issued + {token},
         minted := s.minted + {Mint(s, user, token)})
    case LoginSave(op) =>
      var LoginIssued(user, token) := s.ops[op];
      s.(ops := s.ops - {op}, table := Saved(s.table, token, user, s.now),
         root := s.root[token := token], owner := s.owner[token := user],
         savedAt := s.savedAt[token := s.now])
    case RefreshSelect(op, h) => s.(ops := s.ops[op := Selected(s.table[h].user, h)])
    case RefreshIssue(op, token) =>
      var Selected(user, h) := s.ops[op];
      s.(ops := s.ops[op := Issued(user, h, token)], issued := s.issued + {token},
         minted := s.minted + {Mint(s, user, Family(s, h))})
    case RefreshRotate(op) =>
      var Issued(user, h, token) := s.ops[op];
      var (t, outcome) := Rotate(s.table, h, token, user, s.now);
      var s' := s.(ops := s.ops - {op}, table := t);
      if outcome != Rotated then s'
      else
        s'.(root := s.root[token := Family(s, h)], savedAt := s.savedAt[Family(s, h) := s.now],
            rotations := s.rotations + [(h, token)])
    case Abandon(op) => s.(ops := s.ops - {op})
    case Logout(user) => s.(table := Invalidated(s.table, user))
  }

  ghost predicate IsRun(ss: seq<State>, acts: seq<Action>) {
    && |ss| == |acts| + 1 && ss[0] == INIT
    && forall i :: 0 <= i < |acts| ==> StepAt(ss, acts, i)
  }

  predicate StepAt(ss: seq<State>, acts: seq<Action>, i: nat)
    requires i < |acts| < |ss|
  {
    Enabled(ss[i], acts[i]) && ss[i + 1] == Next(ss[i], acts[i])
  }

  // ----- Lineage -----

  /** Hashes that are stored, or ever were, are known; every family was saved by a login. */
  ghost predicate Known(s: State) {
    && s.table.Keys <= s.root.Keys <= s.issued
    && s.owner.Keys == s.savedAt.Keys
    && (forall h :: h in s.root ==> s.root[h] in s.owner)
    && (forall f :: f in s.owner ==> f in s.root && s.root[f] == f)
  }

  predicate Pending(s: State, op: OpId, h: Hash) {
    op in s.ops && !s.ops[op].Selected? && s.ops[op].token == h
  }

  /** A token that was issued but not yet stored belongs to one request only. */
  ghost predicate PendingIsNew(s: State) {
    && (forall op, h :: Pending(s, op, h) ==> h in s.issued && h !in s.root)
    && (forall p, q, h :: Pending(s, p, h) && Pending(s, q, h) ==> p == q)
  }

  ghost predicate OneRowPerFamily(s: State) {
    forall g, h :: g in s.table && h in s.table && Family(s, g) == Family(s, h) ==> g == h
  }

  ghost predicate RowsBelongToOwner(s: State) {
    forall h :: h in s.table ==>
      Family(s, h) in s.owner && s.table[h].user == s.owner[Family(s, h)]
      && Family(s, h) in s.savedAt && s.table[h].expires == s.savedAt[Family(s, h)] + 2_592_000_000_000_000
  }

  /** A rotation stays in one family and starts at its root or where an earlier one ended. */
  ghost predicate RotationsLink(s: State) {
    forall k :: 0 <= k < |s.rotations| ==>
      var (g, h) := s.rotations[k];
      && g in s.root && h in s.root && s.root[g] == s.root[h] && g !in s.table
      && (g in s.owner || EndsBefore(s, g, k))
  }

  ghost predicate EndsBefore(s: State, h: Hash, k: nat) {
    exists j :: 0 <= j < k && j < |s.rotations| && s.rotations[j].1 == h
  }

  /** No two committed rotations share a start or an end. */
  ghost predicate RotationsDiffer(s: State) {
    forall j, k :: 0 <= j < k < |s.rotations| ==>
      s.rotations[j].0 != s.rotations[k].0 && s.rotations[j].1 != s.rotations[k].1
  }

  ghost predicate AllFromRotations(s: State) {
    forall h :: h in s.root ==> h in s.owner || EndsBefore(s, h, |s.rotations|)
  }

  /** Committed rotations form paths that start at logins. */
  ghost predicate RotationsArePaths(s: State) {
    RotationsLink(s) && RotationsDiffer(s) && AllFromRotations(s)
  }

  ghost predicate Lineage(s: State) {
    Known(s) && PendingIsNew(s) && OneRowPerFamily(s) && RowsBelongToOwner(s) && RotationsArePaths(s)
  }

  lemma EndsStay(s: State, a: Action, h: Hash, k: nat)
    requires Enabled(s, a) && k <= |s.rotations|
    ensures EndsBefore(s, h, k) ==> EndsBefore(Next(s, a), h, k)
  {
    var s' := Next(s, a);
    assert forall j :: 0 <= j < |s.rotations| ==> j < |s'.rotations| && s'.rotations[j] == s.rotations[j];
  }

  lemma KnownStep(s: State, a: Action)
    requires Lineage(s) && Enabled(s, a)
    ensures Known(Next(s, a))
  {
    hide RotationsArePaths, OneRowPerFamily;
    if a.LoginSave? || a.RefreshRotate? {
      assert Pending(s, a.op, s.ops[a.op].token);
    }
  }

  lemma PendingStep(s: State, a: Action)
    requires Lineage(s) && Enabled(s, a)
    ensures PendingIsNew(Next(s, a))
  {
    hide RotationsArePaths, OneRowPerFamily, RowsBelongToOwner;
    if a.LoginSave? || a.RefreshRotate? {
      assert Pending(s, a.op, s.ops[a.op].token);
    }
    var s' := Next(s, a);
    forall op, h | Pending(s', op, h)
      ensures h in s'.issued && h !in s'.root
      ensures Pending(s, op, h) || ((a.LoginIssue? || a.RefreshIssue?) && op == a.op && h == a.token)
    {
      assert Pending(s, op, h) || h !in s.issued;
    }
    assert forall op, h :: Pending(s, op, h) ==> h in s.issued;
  }

  lemma OneRowStep(s: State, a: Action)
    requires Lineage(s) && Enabled(s, a)
    ensures OneRowPerFamily(Next(s, a))
  {
    hide RotationsArePaths, RowsBelongToOwner;
    if a.LoginSave? || a.RefreshRotate? {
      assert Pending(s, a.op, s.ops[a.op].token);
    }
    var s' := Next(s, a);
    assert forall h :: h in s'.table && h in s.table ==> Family(s', h) == Family(s, h);
  }

  lemma RowsStep(s: State, a: Action)
    requires Lineage(s) && Enabled(s, a)
    ensures RowsBelongToOwner(Next(s, a))
  {
    hide RotationsArePaths;
    if a.LoginSave? || a.RefreshRotate? {
      assert Pending(s, a.op, s.ops[a.op].token);
    }
  }

  lemma LinksStep(s: State, a: Action)
    requires Lineage(s) && Enabled(s, a)
    ensures RotationsLink(Next(s, a))
  {
    hide OneRowPerFamily, RowsBelongToOwner, RotationsDiffer;
    var s' := Next(s, a);
    if a.LoginSave? || a.RefreshRotate? {
      assert Pending(s, a.op, s.ops[a.op].token);
    }
    forall k | 0 <= k < |s'.rotations|
      ensures
        var (g, h) := s'.rotations[k];
        && g in s'.root && h in s'.root && s'.root[g] == s'.root[h] && g !in s'.table
        && (g in s'.owner || EndsBefore(s', g, k))
    {
      EndsStay(s, a, s'.rotations[k].0, if k < |s.rotations| then k else |s.rotations|);
      assert k < |s.rotations| ==> s'.rotations[k] == s.rotations[k];
      hide EndsBefore;
    }
  }

  lemma DifferStep(s: State, a: Action)
    requires Lineage(s) && Enabled(s, a)
    ensures RotationsDiffer(Next(s, a))
  {
    hide OneRowPerFamily, RowsBelongToOwner, AllFromRotations;
    if a.RefreshRotate? {
      assert Pending(s, a.op, s.ops[a.op].token);
    }
    hide EndsBefore;
  }

  lemma FromRotationsStep(s: State, a: Action)
    requires Lineage(s) && Enabled(s, a)
    ensures AllFromRotations(Next(s, a))
  {
    var s' := Next(s, a);
    forall h | h in s'.root
      ensures h in s'.owner || EndsBefore(s', h, |s'.rotations|)
    {
      if h in s.root && h !in s.owner {
        EndsStay(s, a, h, |s.rotations|);
      } else if a.RefreshRotate? && h !in s.root {
        assert s'.rotations[|s.rotations|].1 == h;
      }
    }
  }

  lemma LineageStep(s: State, a: Action)
    requires Lineage(s) && Enabled(s, a)
    ensures Lineage(Next(s, a))
  {
    KnownStep(s, a);
    PendingStep(s, a);
    OneRowStep(s, a);
    RowsStep(s, a);
    LinksStep(s, a);
    DifferStep(s, a);
    FromRotationsStep(s, a);
    hide Next, Enabled, Known, PendingIsNew, OneRowPerFamily, RowsBelongToOwner, RotationsLink, RotationsDiffer,
      AllFromRotations;
  }

  /** Over every interleaving: at most one row per login family, no token spent by two
      committed rotations, and every row owned by the user of its family's root login. */
  lemma {:induction false} LineageIsAPath(ss: seq<State>, acts: seq<Action>, i: nat)
    requires IsRun(ss, acts) && i < |ss|
    ensures Lineage(ss[i])
  {
    if i == 0 {
      assert ss[0] == INIT;
    } else {
      hide Next, Enabled, Lineage, Known, PendingIsNew, OneRowPerFamily, RowsBelongToOwner, RotationsArePaths;
      LineageIsAPath(ss, acts, i - 1);
      assert StepAt(ss, acts, i - 1);
      LineageStep(ss[i - 1], acts[i - 1]);
    }
  }

  // ----- Logout -----

  ghost predicate NoRowOf(s: State, f: Hash) {
    forall h :: h in s.table ==> Family(s, h) != f
  }

  lemma OwnersStep(s: State, a: Action, f: Hash)
    requires Lineage(s) && Enabled(s, a) && f in s.owner
    ensures f in Next(s, a).owner && Next(s, a).owner[f] == s.owner[f]
  {
    hide RotationsArePaths, OneRowPerFamily, RowsBelongToOwner;
    if a.LoginSave? {
      assert Pending(s, a.op, s.ops[a.op].token);
    }
  }

  lemma {:induction false} OwnersStay(ss: seq<State>, acts: seq<Action>, i: nat, j: nat, f: Hash)
    requires IsRun(ss, acts) && i <= j < |ss| && f in ss[i].owner
    ensures f in ss[j].owner && ss[j].owner[f] == ss[i].owner[f]
  {
    hide Next, Enabled, Lineage;
    if i < j {
      OwnersStay(ss, acts, i, j - 1, f);
      LineageIsAPath(ss, acts, j - 1);
      assert StepAt(ss, acts, j - 1);
      OwnersStep(ss[j - 1], acts[j - 1], f);
    }
  }

  lemma DeadStep(s: State, a: Action, f: Hash)
    requires Lineage(s) && Enabled(s, a) && f in s.owner && NoRowOf(s, f)
    ensures NoRowOf(Next(s, a), f)
  {
    hide RotationsArePaths, OneRowPerFamily, RowsBelongToOwner;
    if a.LoginSave? || a.RefreshRotate? {
      assert Pending(s, a.op, s.ops[a.op].token);
    }
  }

  lemma {:induction false} DeadFamilyStaysDead(ss: seq<State>, acts: seq<Action>, i: nat, j: nat, f: Hash)
    requires IsRun(ss, acts) && i <= j < |ss| && f in ss[i].owner && NoRowOf(ss[i], f)
    ensures NoRowOf(ss[j], f)
  {
    hide Next, Enabled, Lineage, NoRowOf;
    if i < j {
      DeadFamilyStaysDead(ss, acts, i, j - 1, f);
      LineageIsAPath(ss, acts, j - 1);
      OwnersStay(ss, acts, i, j - 1, f);
      assert StepAt(ss, acts, j - 1);
      DeadStep(ss[j - 1], acts[j - 1], f);
    }
  }

  /** Once a user has logged out, no token descended from an earlier saved login is ever in
      the table again, whatever refreshes were under way. */
  lemma LogoutIsPermanent(ss: seq<State>, acts: seq<Action>, i: nat, j: nat, h: Hash)
    requires IsRun(ss, acts) && i < j < |ss| && acts[i].Logout?
    requires h in ss[j].table && Family(ss[j], h) in ss[i].owner
    ensures ss[i].owner[Family(ss[j], h)] != acts[i].user
  {
    var f := Family(ss[j], h);
    LineageIsAPath(ss, acts, i);
    assert StepAt(ss, acts, i);
    if ss[i].owner[f] == acts[i].user {
      assert NoRowOf(ss[i + 1], f);
      DeadFamilyStaysDead(ss, acts, i + 1, j, f);
      assert false;
    }
  }

  // ----- Conservation -----

  /** Successful saves for `u` after the last of the user's logouts among the first `n` steps. */
  ghost function SavesSinceLogout(ss: seq<State>, acts: seq<Action>, n: nat, u: int): nat
    requires IsRun(ss, acts) && n <= |acts|
  {
    if n == 0 then 0
    else
      var a, s := acts[n - 1], ss[n - 1];
      assert StepAt(ss, acts, n - 1);
      if a == Logout(u) then 0
      else
        SavesSinceLogout(ss, acts, n - 1, u)
        + if a.LoginSave? && s.ops[a.op].user == u then 1 else 0
  }

  lemma RowsAfterSave(t: Table, h: Hash, user: int, now: int, u: int)
    requires h !in t
    ensures RowsOf(Saved(t, h, user, now), u) == RowsOf(t, u) + if user == u then {h} else {}
  {
  }

  lemma RowsAfterLogout(t: Table, user: int, u: int)
    ensures RowsOf(Invalidated(t, user), u) == if user == u then {} else RowsOf(t, u)
  {
  }

  lemma RowsAfterStep(s: State, a: Action, u: int)
    requires Lineage(s) && Enabled(s, a)
    ensures |RowsOf(Next(s, a).table, u)| ==
            if a == Logout(u) then 0
            else |RowsOf(s.table, u)| + if a.LoginSave? && s.ops[a.op].user == u then 1 else 0
  {
    match a
    case LoginSave(op) =>
      var h := s.ops[op].token;
      assert Pending(s, op, h);
      RowsAfterSave(s.table, h, s.ops[op].user, s.now, u);
      assert h !in RowsOf(s.table, u);
    case RefreshRotate(op) =>
      RotationConservesSessions(s.table, s.ops[op].presented, s.ops[op].token, s.ops[op].user, s.now, u);
    case Logout(v) =>
      RowsAfterLogout(s.table, v, u);
    case _ =>
      assert Next(s, a).table == s.table;
    hide Rotate, Saved, Invalidated, RowsOf, RotationsArePaths, OneRowPerFamily, RowsBelongToOwner;
  }

  /** A user has exactly as many rows as logins saved since the last logout: rotations and the
      passing of time neither create nor destroy sessions. */
  lemma {:induction false} SessionsAreConserved(ss: seq<State>, acts: seq<Action>, n: nat, u: int)
    requires IsRun(ss, acts) && n <= |acts|
    ensures |RowsOf(ss[n].table, u)| == SavesSinceLogout(ss, acts, n, u)
  {
    if n == 0 {
      assert ss[0] == INIT;
      assert RowsOf(INIT.table, u) == {};
    } else {
      hide Next, Enabled, Lineage, RowsOf;
      SessionsAreConserved(ss, acts, n - 1, u);
      LineageIsAPath(ss, acts, n - 1);
      assert StepAt(ss, acts, n - 1);
      RowsAfterStep(ss[n - 1], acts[n - 1], u);
    }
  }

  // ----- Expiry -----

  predicate Expired(s: State, f: Hash) {
    f in s.savedAt && s.savedAt[f] + 2_592_000_000_000_000 <= s.now
  }

  lemma ExpiredStep(s: State, a: Action, f: Hash)
    requires Lineage(s) && Enabled(s, a) && f in s.owner && Expired(s, f)
    ensures Expired(Next(s, a), f) && Next(s, a).savedAt[f] == s.savedAt[f]
  {
    hide RotationsArePaths, OneRowPerFamily;
    if a.LoginSave? {
      assert Pending(s, a.op, s.ops[a.op].token);
    }
  }

  /** Thirty days after a family's last insert it is over: it is never inserted again. */
  lemma {:induction false} ExpiredFamilyIsOver(ss: seq<State>, acts: seq<Action>, i: nat, j: nat, f: Hash)
    requires IsRun(ss, acts) && i <= j < |ss| && f in ss[i].owner && Expired(ss[i], f)
    ensures Expired(ss[j], f) && ss[j].savedAt[f] == ss[i].savedAt[f]
  {
    hide Next, Enabled, Lineage;
    if i < j {
      ExpiredFamilyIsOver(ss, acts, i, j - 1, f);
      LineageIsAPath(ss, acts, j - 1);
      OwnersStay(ss, acts, i, j - 1, f);
      assert StepAt(ss, acts, j - 1);
      ExpiredStep(ss[j - 1], acts[j - 1], f);
    }
  }

  /** No refresh of `u` has passed its SELECT and not yet issued its tokens. */
  predicate NoRefreshInFlight(s: State, u: int) {
    forall op :: op in s.ops ==> !(s.ops[op].Selected? && s.ops[op].user == u)
  }

  /** `f` can mint no more access tokens: it has no row and no request between SELECT and issue. */
  ghost predicate Silent(s: State, f: Hash) {
    && NoRowOf(s, f)
    && forall op :: op in s.ops && s.ops[op].Selected? ==> Family(s, s.ops[op].presented) != f
  }

  /** A request's token and user stay those of a known family. */
  ghost predicate OpsBelongToOwner(s: State) {
    forall op :: op in s.ops && !s.ops[op].LoginIssued? ==>
      s.ops[op].presented in s.root && Family(s, s.ops[op].presented) in s.owner
      && s.owner[Family(s, s.ops[op].presented)] == s.ops[op].user
  }

  lemma OpsStep(s: State, a: Action)
    requires Lineage(s) && OpsBelongToOwner(s) && Enabled(s, a)
    ensures OpsBelongToOwner(Next(s, a))
  {
    hide RotationsArePaths, OneRowPerFamily;
    if a.LoginSave? || a.RefreshRotate? {
      assert Pending(s, a.op, s.ops[a.op].token);
    }
  }

  lemma {:induction false} OpsAlwaysBelongToOwner(ss: seq<State>, acts: seq<Action>, i: nat)
    requires IsRun(ss, acts) && i < |ss|
    ensures OpsBelongToOwner(ss[i])
  {
    if i == 0 {
      assert ss[0] == INIT;
    } else {
      hide Next, Enabled, Lineage, OpsBelongToOwner;
      OpsAlwaysBelongToOwner(ss, acts, i - 1);
      LineageIsAPath(ss, acts, i - 1);
      assert StepAt(ss, acts, i - 1);
      OpsStep(ss[i - 1], acts[i - 1]);
    }
  }

  // ----- Access tokens -----

  /** A login's tokens carry its user until it is saved, and its family's owner afterwards. */
  ghost predicate MintedMatch(s: State) {
    && (forall m :: m in s.minted ==> m.family in s.issued)
    && (forall m :: m in s.minted && m.family in s.owner ==> s.owner[m.family] == m.user)
    && (forall m, op :: m in s.minted && op in s.ops && s.ops[op].LoginIssued? && s.ops[op].token == m.family ==>
          s.ops[op].user == m.user)
  }

  lemma MintedMatchStep(s: State, a: Action)
    requires Lineage(s) && OpsBelongToOwner(s) && MintedMatch(s) && Enabled(s, a)
    ensures MintedMatch(Next(s, a))
  {
    hide RotationsArePaths, RowsBelongToOwner, OneRowPerFamily;
    assert forall op :: op in s.ops && s.ops[op].LoginIssued? ==> Pending(s, op, s.ops[op].token);
    if a.LoginSave? || a.RefreshRotate? {
      assert Pending(s, a.op, s.ops[a.op].token);
    }
  }

  /** In every reachable state, an access token of a saved family carries that family's user. */
  lemma {:induction false} MintedForOwner(ss: seq<State>, acts: seq<Action>, i: nat)
    requires IsRun(ss, acts) && i < |ss|
    ensures MintedMatch(ss[i])
  {
    if i == 0 {
      assert ss[0] == INIT;
    } else {
      hide Next, Enabled, Lineage, OpsBelongToOwner, MintedMatch;
      MintedForOwner(ss, acts, i - 1);
      LineageIsAPath(ss, acts, i - 1);
      OpsAlwaysBelongToOwner(ss, acts, i - 1);
      assert StepAt(ss, acts, i - 1);
      MintedMatchStep(ss[i - 1], acts[i - 1]);
    }
  }

  /** Each login and each refresh mints an access token for its user. It is accepted for at least
      fourteen minutes and 59 seconds, and at no moment from fifteen minutes on. */
  lemma MintedIsAccepted(s: State, a: Action) returns (m: Access)
    requires Enabled(s, a) && (a.LoginIssue? || a.RefreshIssue?)
    ensures Next(s, a).minted == s.minted + {m}
    ensures m.user == if a.LoginIssue? then a.user else s.ops[a.op].user
    ensures m.family == if a.LoginIssue? then a.token else Family(s, s.ops[a.op].presented)
    ensures forall at :: at <= s.now + 899_000_000_000 ==> Accepted(m, at)
    ensures forall at :: s.now + 900_000_000_000 <= at ==> !Accepted(m, at)
    ensures forall at :: Accepted(m, at) <==> at < m.exp * 1_000_000_000
  {
    if a.LoginIssue? {
      m := Mint(s, a.user, a.token);
    } else {
      m := Mint(s, s.ops[a.op].user, Family(s, s.ops[a.op].presented));
    }
  }

  /** Every access token so far expires within fifteen minutes of now. */
  lemma {:induction false} MintedExpireSoon(ss: seq<State>, acts: seq<Action>, i: nat)
    requires IsRun(ss, acts) && i < |ss|
    ensures forall m :: m in ss[i].minted ==> m.exp * 1_000_000_000 <= ss[i].now + 900_000_000_000
  {
    if i == 0 {
      assert ss[0] == INIT;
    } else {
      MintedExpireSoon(ss, acts, i - 1);
      assert StepAt(ss, acts, i - 1);
    }
  }

  lemma SilentStep(s: State, a: Action, f: Hash)
    requires Lineage(s) && OpsBelongToOwner(s) && Enabled(s, a) && f in s.owner && Silent(s, f)
    ensures Silent(Next(s, a), f)
    ensures forall m :: m in Next(s, a).minted && m.family == f ==> m in s.minted
  {
    hide RotationsArePaths, RowsBelongToOwner, OneRowPerFamily;
    if a.LoginSave? || a.RefreshRotate? {
      assert Pending(s, a.op, s.ops[a.op].token);
    }
  }

  lemma {:induction false} SilentFamilyMintsNothing(ss: seq<State>, acts: seq<Action>, i: nat, j: nat, f: Hash)
    requires IsRun(ss, acts) && i <= j < |ss| && f in ss[i].owner && Silent(ss[i], f)
    ensures Silent(ss[j], f)
    ensures forall m :: m in ss[j].minted && m.family == f ==> m in ss[i].minted
  {
    hide Next, Enabled, Lineage, OpsBelongToOwner, Silent;
    if i < j {
      SilentFamilyMintsNothing(ss, acts, i, j - 1, f);
      LineageIsAPath(ss, acts, j - 1);
      OpsAlwaysBelongToOwner(ss, acts, j - 1);
      OwnersStay(ss, acts, i, j - 1, f);
      assert StepAt(ss, acts, j - 1);
      SilentStep(ss[j - 1], acts[j - 1], f);
    }
  }

  /** If no refresh of the user is between its SELECT and its issue step at the logout, then
      fifteen minutes later every access token of an earlier session is dead. */
  lemma AccessEndsAfterLogout(ss: seq<State>, acts: seq<Action>, i: nat, j: nat, m: Access, at: int)
    requires IsRun(ss, acts) && i < j < |ss| && acts[i].Logout?
    requires NoRefreshInFlight(ss[i], acts[i].user)
    requires m in ss[j].minted && m.family in ss[i].owner && ss[i].owner[m.family] == acts[i].user
    requires ss[i].now + 900_000_000_000 <= at
    ensures !Accepted(m, at)
  {
    LineageIsAPath(ss, acts, i);
    OpsAlwaysBelongToOwner(ss, acts, i);
    MintedExpireSoon(ss, acts, i);
    assert StepAt(ss, acts, i);
    SilentFamilyMintsNothing(ss, acts, i + 1, j, m.family);
  }

  // ----- The exact condition -----

  ghost predicate LogsOutNext(ss: seq<State>, acts: seq<Action>, u: int, ss': seq<State>, acts': seq<Action>) {
    IsRun(ss, acts) && IsRun(ss', acts') && ss <= ss' && acts + [Logout(u)] <= acts'
  }

  /** However the run goes on after a logout of `u` now, every access token of a session of
      `u` saved before is dead fifteen minutes after the logout. */
  ghost predicate LogoutEndsAccess(ss: seq<State>, acts: seq<Action>, u: int)
    requires IsRun(ss, acts)
  {
    var s := ss[|acts|];
    forall ss': seq<State>, acts': seq<Action>, m | LogsOutNext(ss, acts, u, ss', acts') && m in ss'[|acts'|].minted ::
      m.family in s.owner && s.owner[m.family] == u ==> !Accepted(m, s.now + 900_000_000_000)
  }

  /** A string longer than every known one. */
  ghost function NewHash(known: set<Hash>): (h: Hash)
    ensures h !in known
    ensures forall k :: k in known ==> |k| < |h|
  {
    if known == {} then "."
    else
      var k :| k in known;
      var h := NewHash(known - {k});
      assert forall x :: x in known ==> x == k || x in known - {k};
      if |k| < |h| then h else k + "."
  }

  /** A refresh caught between SELECT and issue by a logout, a second before it issues. */
  lemma CaughtRefreshMints(s: State, op: OpId, token: Hash) returns (s1: State, s2: State, s3: State, m: Access)
    requires op in s.ops && s.ops[op].Selected? && token !in s.issued
    ensures s1 == Next(s, Logout(s.ops[op].user))
    ensures s2 == Next(s1, Tick(SECOND))
    ensures Enabled(s2, RefreshIssue(op, token)) && s3 == Next(s2, RefreshIssue(op, token))
    ensures m in s3.minted && m.family == Family(s, s.ops[op].presented) && Accepted(m, s.now + 900_000_000_000)
  {
    s1 := Next(s, Logout(s.ops[op].user));
    s2 := Next(s1, Tick(SECOND));
    s3 := Next(s2, RefreshIssue(op, token));
    m := Mint(s2, s.ops[op].user, Family(s2, s.ops[op].presented));
  }

  lemma RunOn(ss: seq<State>, acts: seq<Action>, a: Action) returns (ss': seq<State>, acts': seq<Action>)
    requires IsRun(ss, acts) && Enabled(ss[|acts|], a)
    ensures IsRun(ss', acts') && ss' == ss + [Next(ss[|acts|], a)] && acts' == acts + [a]
  {
    hide Next, Enabled;
    ss', acts' := ss + [Next(ss[|acts|], a)], acts + [a];
    forall i | 0 <= i < |acts'|
      ensures StepAt(ss', acts', i)
    {
      assert i < |acts| ==> StepAt(ss, acts, i);
    }
  }

  lemma CaughtRefreshShows(ss: seq<State>, acts: seq<Action>, u: int)
    requires IsRun(ss, acts) && !NoRefreshInFlight(ss[|acts|], u)
    ensures !LogoutEndsAccess(ss, acts, u)
  {
    var s := ss[|acts|];
    var op :| op in s.ops && s.ops[op].Selected? && s.ops[op].user == u;
    OpsAlwaysBelongToOwner(ss, acts, |acts|);
    var token := NewHash(s.issued);
    var s1, s2, s3, m := CaughtRefreshMints(s, op, token);
    var ss1, acts1 := RunOn(ss, acts, Logout(u));
    var ss2, acts2 := RunOn(ss1, acts1, Tick(SECOND));
    var ss3, acts3 := RunOn(ss2, acts2, RefreshIssue(op, token));
    hide Next, Enabled, IsRun;
    assert LogsOutNext(ss, acts, u, ss3, acts3) && m in ss3[|acts3|].minted;
  }

  /** A logout ends access after fifteen minutes, whatever happens next, if and only if none of
      the user's refreshes is between its SELECT and its issue step. */
  lemma LogoutEndsAccessIff(ss: seq<State>, acts: seq<Action>, u: int)
    requires IsRun(ss, acts)
    ensures LogoutEndsAccess(ss, acts, u) <==> NoRefreshInFlight(ss[|acts|], u)
  {
    hide Next, Enabled, Accepted;
    if NoRefreshInFlight(ss[|acts|], u) {
      var s := ss[|acts|];
      forall ss': seq<State>, acts': seq<Action>, m | LogsOutNext(ss, acts, u, ss', acts') && m in ss'[|acts'|].minted
        ensures m.family in s.owner && s.owner[m.family] == u ==> !Accepted(m, s.now + 900_000_000_000)
      {
        assert acts'[|acts|] == (acts + [Logout(u)])[|acts|] && ss'[|acts|] == s;
        if m.family in s.owner && s.owner[m.family] == u {
          AccessEndsAfterLogout(ss', acts', |acts|, |acts'|, m, s.now + 900_000_000_000);
        }
      }
    } else {
      CaughtRefreshShows(ss, acts, u);
    }
  }

  // ----- What a refresh answers -----

  /** A rotation never reports an error, so its refresh answers 200; the token it answers with
      is stored if and only if the presented row is still there, unexpired. */
  lemma AnsweredTokenStoredIff(ss: seq<State>, acts: seq<Action>, i: nat)
    requires IsRun(ss, acts) && i < |acts| && acts[i].RefreshRotate? && acts[i].op in ss[i].ops
    requires ss[i].ops[acts[i].op].Issued?
    ensures
      var s, Issued(user, h, token) := ss[i], ss[i].ops[acts[i].op];
      && Rotate(s.table, h, token, user, s.now).1 != Conflict
      && (token in ss[i + 1].table <==> h in s.table && s.now < s.table[h].expires)
  {
    LineageIsAPath(ss, acts, i);
    OpsAlwaysBelongToOwner(ss, acts, i);
    assert StepAt(ss, acts, i);
    assert Pending(ss[i], acts[i].op, ss[i].ops[acts[i].op].token);
    hide RotationsArePaths, OneRowPerFamily;
  }

  // ----- Runs that meet neither condition -----

  /** User 7 logs in with token "a", and a refresh selects it. */
  lemma Selecting() returns (ss: seq<State>, acts: seq<Action>)
    ensures IsRun(ss, acts) && acts == [LoginIssue(0, 7, "a"), LoginSave(0), RefreshSelect(1, "a")]
    ensures ss[3].ops == map[1 := Selected(7, "a")] && ss[3].issued == {"a"}
    ensures ss[3].table == map["a" := Row(7, REFRESH_TTL)] && ss[3].now == 0
  {
    var s1 := Next(INIT, LoginIssue(0, 7, "a"));
    var s2 := Next(s1, LoginSave(0));
    assert s2.ops == map[] && s2.table == map["a" := Row(7, REFRESH_TTL)];
    ss := [INIT, s1, s2, Next(s2, RefreshSelect(1, "a"))];
    acts := [LoginIssue(0, 7, "a"), LoginSave(0), RefreshSelect(1, "a")];
  }

  lemma LogoutMissesARefresh() returns (ss: seq<State>, acts: seq<Action>)
    ensures IsRun(ss, acts) && |acts| == 3 && !LogoutEndsAccess(ss, acts, 7)
  {
    ss, acts := Selecting();
    assert 1 in ss[3].ops && ss[3].ops[1].Selected? && ss[3].ops[1].user == 7;
    CaughtRefreshShows(ss, acts, 7);
  }

  lemma BothIssue() returns (ss: seq<State>, acts: seq<Action>)
    ensures IsRun(ss, acts) && |acts| == 6
    ensures ss[6].ops == map[1 := Issued(7, "a", "b"), 2 := Issued(7, "a", "c")]
    ensures ss[6].table == map["a" := Row(7, REFRESH_TTL)] && ss[6].now == 0
  {
    ss, acts := Selecting();
    var s := ss[3];
    ss, acts := RunOn(ss, acts, RefreshSelect(2, "a"));
    assert ss[4] == s.(ops := map[1 := Selected(7, "a"), 2 := Selected(7, "a")]);
    ss, acts := RunOn(ss, acts, RefreshIssue(1, "b"));
    assert ss[5].ops == map[1 := Issued(7, "a", "b"), 2 := Selected(7, "a")];
    assert ss[5].issued == {"a", "b"};
    ss, acts := RunOn(ss, acts, RefreshIssue(2, "c"));
    assert ss[6].ops == map[1 := Issued(7, "a", "b"), 2 := Issued(7, "a", "c")];
  }

  /** Of two refreshes racing with one token, the second answers with a token not stored. */
  lemma RacingRefreshStoresNothing() returns (ss: seq<State>, acts: seq<Action>)
    ensures IsRun(ss, acts) && |acts| == 8 && acts[7] == RefreshRotate(2)
    ensures 2 in ss[7].ops && ss[7].ops[2] == Issued(7, "a", "c") && "c" !in ss[8].table
  {
    ss, acts := BothIssue();
    ss, acts := RunOn(ss, acts, RefreshRotate(1));
    assert ss[7].table == map["b" := Row(7, REFRESH_TTL)];
    assert ss[7].ops == map[2 := Issued(7, "a", "c")];
    ss, acts := RunOn(ss, acts, RefreshRotate(2));
  }
}
