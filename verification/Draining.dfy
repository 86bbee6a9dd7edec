/** A buffer drains. Every claim, outcome and reap takes one unit from a budget that only
    pushes and 429 answers add to, and while an item is unfinished some move lies ahead. */
module Draining {
  import opened Tasks
  import L = Lease
  import S = LeaseSafety
  import opened TokenBucket
  import opened JobRepository
  import opened Buffers

  function Budget(r: Row): int {
    r.maxRetries + 1
  }

  function Limited(r: Row): int {
    r.limited
  }

  function Rank(r: Row): int {
    S.Rank(r)
  }

  function TotalOf(f: Row -> int, s: State): int {
    Total(f, s.lease.db.rows, s.order)
  }

  predicate AllTerminal(rows: map<Id, Row>) {
    forall id :: id in rows ==> Terminal(rows[id].status)
  }

  // ---- every move is paid for ----

  /** Steps that change the status of an item. */
  predicate IsMove(a: Action) {
    a.ClaimNext? || (a.Serve? && (a.a.Commit? || a.a.ReapRetry? || a.a.ReapFail?))
  }

  predicate IsPush(a: Action) {
    a.Push? || a.Replay?
  }

  function Moves(run: seq<Action>): nat
    decreases |run|
  {
    if run == [] then 0 else (if IsMove(run[0]) then 1 else 0) + Moves(run[1..])
  }

  /** The step commits the answer 429. */
  predicate Is429(s: State, a: Action) {
    && a.Serve? && a.a.Commit? && L.Live(s.lease, a.a.c)
    && s.lease.owners[a.a.c].phase.Writing?
    && S.TooManyRequests(s.lease.owners[a.a.c].kind, s.lease.owners[a.a.c].phase.result)
  }

  /** What a change of one row does to its rank, its budget and its count of 429s. */
  predicate Pays(r: Row, r': Row, limited: bool) {
    && Rank(r') == Rank(r) + (if limited then 1 else -1)
    && Budget(r') == Budget(r)
    && Limited(r') == Limited(r) + (if limited then 1 else 0)
  }

  lemma OutcomePays(db: Db, o: L.Owner, res: L.Result, at: int)
    requires o.task in db.rows && o.kind.Item? && db.rows[o.task].status.Running?
    ensures var rows' := L.WriteOutcome(db, o, res, at).rows;
            && o.task in rows' && rows' == db.rows[o.task := rows'[o.task]]
            && Pays(db.rows[o.task], rows'[o.task], S.TooManyRequests(o.kind, res))
  {
  }

  /** The owner that the step belongs to serves a running item. */
  ghost predicate ServesItem(s: State, a: Action) {
    a.Serve? && (a.a.Commit? || a.a.Open?) && L.Live(s.lease, a.a.c) ==>
      var o := s.lease.owners[a.a.c];
      o.kind.Item? && o.task in s.lease.db.rows && s.lease.db.rows[o.task].status.Running?
  }

  lemma OwnersServeItems(cfg: L.Config, s: State, a: Action)
    requires L.Sensible(cfg) && Inv(cfg, s)
    ensures ServesItem(s, a)
  {
    if a.Serve? && (a.a.Commit? || a.a.Open?) && L.Live(s.lease, a.a.c) {
      assert S.OwnerOk(cfg, s.lease, a.a.c);
    }
  }

  /** A move changes exactly one row, and that row pays for it. */
  lemma MovePays(cfg: L.Config, s: State, a: Action) returns (id: Id)
    requires Enabled(cfg, s, a) && IsMove(a) && ServesItem(s, a)
    ensures var rows, rows' := s.lease.db.rows, Apply(cfg, s, a).lease.db.rows;
            && id in rows && id in rows' && rows' == rows[id := rows'[id]]
            && Pays(rows[id], rows'[id], Is429(s, a))
  {
    if a.ClaimNext? {
      id := a.id;
    } else if a.a.Commit? {
      var o := s.lease.owners[a.a.c];
      id := o.task;
      OutcomePays(s.lease.db, o, o.phase.result, a.a.retryAt);
    } else {
      id := a.a.id;
    }
  }

  /** Every other step of a drainer or of time leaves the items alone. */
  lemma OthersAreFree(cfg: L.Config, s: State, a: Action)
    requires Enabled(cfg, s, a) && !IsMove(a) && !IsPush(a) && ServesItem(s, a)
    ensures Apply(cfg, s, a).lease.db.rows == s.lease.db.rows && Apply(cfg, s, a).order == s.order
  {
  }

  /** What the buffer has been given (two units per permitted claim) less what is left. */
  function Spent(s: State): int {
    2 * TotalOf(Budget, s) + 2 * TotalOf(Limited, s) - TotalOf(Rank, s)
  }

  /** The sum of the ranks falls by one with every claim, outcome and reap, rises by one
      with a 429, grows by twice the new budget with a push, and is otherwise unchanged. */
  ghost predicate Paid(s: State, a: Action, s': State) {
    && TotalOf(Rank, s') == TotalOf(Rank, s) +
         (if IsPush(a) then 2 * (TotalOf(Budget, s') - TotalOf(Budget, s))
          else if Is429(s, a) then 1 else if IsMove(a) then -1 else 0)
    && TotalOf(Limited, s') == TotalOf(Limited, s) + (if Is429(s, a) then 1 else 0)
    && (!IsPush(a) ==> TotalOf(Budget, s') == TotalOf(Budget, s))
  }

  lemma PushIsPaid(rows: map<Id, Row>, order: seq<Id>, id: Id, row: Row)
    requires Elements(order) == rows.Keys && id !in rows && row.status.Pending? && row.retry == 0 && row.limited == 0
    ensures var rows', order' := rows[id := row], order + [id];
            && Total(Rank, rows', order') - Total(Rank, rows, order)
               == 2 * (Total(Budget, rows', order') - Total(Budget, rows, order))
            && Total(Limited, rows', order') == Total(Limited, rows, order)
  {
    TotalPushed(Rank, rows, order, id, row);
    TotalPushed(Budget, rows, order, id, row);
    TotalPushed(Limited, rows, order, id, row);
  }

  lemma MoveIsPaid(rows: map<Id, Row>, order: seq<Id>, id: Id, row: Row, limited: bool)
    requires Elements(order) == rows.Keys && Distinct(order) && id in rows && Pays(rows[id], row, limited)
    ensures var rows' := rows[id := row];
            && Total(Rank, rows', order) == Total(Rank, rows, order) + (if limited then 1 else -1)
            && Total(Budget, rows', order) == Total(Budget, rows, order)
            && Total(Limited, rows', order) == Total(Limited, rows, order) + (if limited then 1 else 0)
  {
    TotalChanged(Rank, rows, order, id, row);
    TotalChanged(Budget, rows, order, id, row);
    TotalChanged(Limited, rows, order, id, row);
  }

  lemma StepPays(cfg: L.Config, s: State, a: Action)
    requires Enabled(cfg, s, a) && ServesItem(s, a) && Elements(s.order) == s.lease.db.rows.Keys && Distinct(s.order)
    ensures Paid(s, a, Apply(cfg, s, a))
  {
    var rows, rows' := s.lease.db.rows, Apply(cfg, s, a).lease.db.rows;
    if IsPush(a) {
      PushIsPaid(rows, s.order, a.id, rows'[a.id]);
    } else if IsMove(a) {
      var id := MovePays(cfg, s, a);
      MoveIsPaid(rows, s.order, id, rows'[id], Is429(s, a));
    } else {
      OthersAreFree(cfg, s, a);
    }
  }

  /** Over the whole buffer, in every state of the protocol. */
  lemma StepKeepsAccounts(cfg: L.Config, s: State, a: Action)
    requires L.Sensible(cfg) && L.InTime(cfg) && Inv(cfg, s) && Enabled(cfg, s, a)
    ensures Inv(cfg, Apply(cfg, s, a)) && Paid(s, a, Apply(cfg, s, a))
  {
    StepKeepsInv(cfg, s, a);
    OwnersServeItems(cfg, s, a);
    StepPays(cfg, s, a);
  }

  /** In every run, with pushes, crashes and 429s in any order, the moves made are exactly
      what was given and is no longer left. */
  lemma {:induction false} MovesArePaidFor(cfg: L.Config, s: State, run: seq<Action>)
    requires L.Sensible(cfg) && L.InTime(cfg) && Inv(cfg, s) && Valid(cfg, s, run)
    ensures Spent(After(cfg, s, run)) == Spent(s) + Moves(run)
    decreases |run|
  {
    if run == [] {
    } else {
      StepKeepsAccounts(cfg, s, run[0]);
      MovesArePaidFor(cfg, Apply(cfg, s, run[0]), run[1..]);
    }
  }

  lemma {:induction false} SumIsNonNegative(f: Row -> int, rows: map<Id, Row>, order: seq<Id>, n: nat)
    requires n <= |order| && forall i :: 0 <= i < n ==> order[i] in rows && 0 <= f(rows[order[i]])
    ensures 0 <= SumTo(f, rows, order, n)
  {
    if n == 0 {
    } else {
      SumIsNonNegative(f, rows, order, n - 1);
    }
  }

  lemma RankIsNonNegative(cfg: L.Config, s: State)
    requires L.Sensible(cfg) && Inv(cfg, s)
    ensures 0 <= TotalOf(Rank, s)
  {
    forall i | 0 <= i < |s.order| ensures s.order[i] in s.lease.db.rows && 0 <= Rank(s.lease.db.rows[s.order[i]]) {
      assert s.order[i] in Elements(s.order) && S.RowOk(s.lease.db.rows[s.order[i]]);
    }
    SumIsNonNegative(Rank, s.lease.db.rows, s.order, |s.order|);
  }

  lemma {:induction false} ClaimsWithinBudget(rows: map<Id, Row>, order: seq<Id>, n: nat)
    requires n <= |order| && forall i :: 0 <= i < n ==> order[i] in rows && S.RowOk(rows[order[i]])
    ensures SumTo(Claims, rows, order, n) <= SumTo(Budget, rows, order, n) + SumTo(Limited, rows, order, n)
  {
    if n == 0 {
    } else {
      ClaimsWithinBudget(rows, order, n - 1);
    }
  }

  lemma LogWithinBudget(cfg: L.Config, s: State)
    requires L.Sensible(cfg) && Inv(cfg, s)
    ensures |s.log| <= TotalOf(Budget, s) + TotalOf(Limited, s)
  {
    forall i | 0 <= i < |s.order| ensures s.order[i] in s.lease.db.rows && S.RowOk(s.lease.db.rows[s.order[i]]) {
      assert s.order[i] in Elements(s.order);
    }
    ClaimsWithinBudget(s.lease.db.rows, s.order, |s.order|);
  }

  // ---- never stuck ----

  lemma SecondRefills(b: Bucket, rate: real, t: real)
    requires 1.0 <= rate && Full(b, rate) && b.last + 1.0 <= t
    ensures Admits(b, rate, t)
  {
    Growth(b, rate, b.last, t);
    Distribute(b.last, b.last + 1.0, t, rate);
    NonNegative(t - (b.last + 1.0), rate);
    assert (b.last + 1.0 - b.last) * rate == rate;
  }

  lemma HeadExists(db: Db, created: map<Id, int>, id: Id) returns (head: Id)
    requires created.Keys == db.rows.Keys && NothingRunning(db) && id in PendingItems(db)
    ensures Head(db, created, head)
  {
    head := LeastExists((a, b) => a in created && b in created ==> created[a] <= created[b], PendingItems(db));
  }

  function Later(x: int, y: int): int {
    if x <= y then y else x
  }

  ghost predicate CanFollow(cfg: L.Config, s: State, t: int, a: Action) {
    Enabled(cfg, s, Serve(L.Advance(t))) && Enabled(cfg, Apply(cfg, s, Serve(L.Advance(t))), a)
  }

  lemma HeadIsClaimable(cfg: L.Config, s: State, head: Id) returns (t: int)
    requires Queue(s) && s.lease.owners == map[] && Head(s.lease.db, s.created, head)
    ensures CanFollow(cfg, s, t, ClaimNext(head))
  {
    t := Later(s.lease.now + 1000, s.lease.db.rows[head].scheduledAt);
    TokensStayInRange(Bucket(0.0, Seconds(s.start)), s.rate as real, Times(s.log));
    SecondRefills(s.bucket, s.rate as real, Seconds(t));
  }

  lemma OrphanIsReapable(cfg: L.Config, s: State, id: Id) returns (t: int, a: L.Action)
    requires S.SidecarOk(s.lease.db) && s.lease.owners == map[]
    requires id in s.lease.db.rows && s.lease.db.rows[id].status.Running?
    ensures (a.ReapRetry? || a.ReapFail?) && a.id == id && CanFollow(cfg, s, t, Serve(a))
  {
    var r, cutoff := s.lease.db.rows[id], s.lease.db.beats[id] + 1;
    t := Later(s.lease.now, cutoff + cfg.cutoff);
    a := if r.retry < r.maxRetries then L.ReapRetry(id, cutoff) else L.ReapFail(id, cutoff);
  }

  /** A buffer with an unfinished item that nobody serves is never stuck: some time from now
      its head can be claimed, or the reaper can take the item left running. */
  lemma NeverStuck(cfg: L.Config, s: State, id: Id) returns (t: int, a: Action)
    requires L.Sensible(cfg) && Inv(cfg, s) && s.lease.owners == map[]
    requires id in s.lease.db.rows && !Terminal(s.lease.db.rows[id].status)
    ensures CanFollow(cfg, s, t, a)
    ensures a.ClaimNext? || (a.Serve? && (a.a.ReapRetry? || a.a.ReapFail?))
  {
    if NothingRunning(s.lease.db) {
      var head := HeadExists(s.lease.db, s.created, id);
      a := ClaimNext(head);
      t := HeadIsClaimable(cfg, s, head);
    } else {
      var i :| i in s.lease.db.rows && s.lease.db.rows[i].status.Running?;
      var reap;
      t, reap := OrphanIsReapable(cfg, s, i);
      a := Serve(reap);
    }
  }

  // ---- the drain ----

  /** `more` finishes every item without a push and without a 429, and moves unless all
      were finished before. */
  ghost predicate Drains(cfg: L.Config, s: State, more: seq<Action>) {
    && Valid(cfg, s, more)
    && AllTerminal(After(cfg, s, more).lease.db.rows)
    && (forall a :: a in more ==> !IsPush(a))
    && TotalOf(Limited, After(cfg, s, more)) == TotalOf(Limited, s)
    && (AllTerminal(s.lease.db.rows) || 0 < Moves(more))
  }

  /** A step to s' on the way to the drain. */
  ghost predicate Goes(cfg: L.Config, s: State, a: Action, s': State) {
    && Enabled(cfg, s, a) && s' == Apply(cfg, s, a)
    && !IsPush(a) && !Is429(s, a) && Paid(s, a, s')
    && (IsMove(a) || s'.lease.db.rows == s.lease.db.rows)
  }

  lemma DrainsAfter(cfg: L.Config, s: State, a: Action, s': State, rest: seq<Action>)
    requires Goes(cfg, s, a, s') && Drains(cfg, s', rest)
    ensures Drains(cfg, s, [a] + rest)
  {
    assert ([a] + rest)[1..] == rest;
  }

  /** What is left to do: first ranks, then owners. */
  function Left(s: State): nat {
    if TotalOf(Rank, s) < 0 then 0 else TotalOf(Rank, s)
  }

  lemma CrashFrees(s: L.State, c: nat)
    requires c in s.owners
    ensures |L.Drop(s, c).owners| < |s.owners|
  {
    assert L.Drop(s, c).owners.Keys == s.owners.Keys - {c};
    assert |s.owners.Keys - {c}| == |s.owners.Keys| - 1;
    assert |L.Drop(s, c).owners| == |L.Drop(s, c).owners.Keys| && |s.owners| == |s.owners.Keys|;
  }

  lemma CrashGoes(cfg: L.Config, s: State, crash: Action)
    requires Enabled(cfg, s, crash) && crash.Serve? && crash.a.Crash?
    ensures Goes(cfg, s, crash, Apply(cfg, s, crash)) && TotalOf(Rank, Apply(cfg, s, crash)) == TotalOf(Rank, s)
    ensures |Apply(cfg, s, crash).lease.owners| < |s.lease.owners|
  {
    assert Apply(cfg, s, crash) == s.(lease := L.Drop(s.lease, crash.a.c));
    CrashFrees(s.lease, crash.a.c);
  }

  lemma CrashOne(cfg: L.Config, s: State) returns (crash: Action, s': State)
    requires L.Sensible(cfg) && L.InTime(cfg) && Inv(cfg, s) && s.lease.owners != map[]
    ensures Goes(cfg, s, crash, s') && Inv(cfg, s')
    ensures TotalOf(Rank, s') == TotalOf(Rank, s) && |s'.lease.owners| < |s.lease.owners|
  {
    assert (forall c :: c !in s.lease.owners) ==> s.lease.owners == map[];
    var c: nat :| c in s.lease.owners;
    crash := Serve(L.Crash(c));
    s' := Apply(cfg, s, crash);
    CrashGoes(cfg, s, crash);
    StepKeepsInv(cfg, s, crash);
  }

  lemma WaitGoes(cfg: L.Config, s: State, wait: Action)
    requires Enabled(cfg, s, wait) && wait.Serve? && wait.a.Advance?
    ensures Goes(cfg, s, wait, Apply(cfg, s, wait)) && TotalOf(Rank, Apply(cfg, s, wait)) == TotalOf(Rank, s)
  {
    assert Apply(cfg, s, wait) == s.(lease := s.lease.(now := wait.a.t));
  }

  lemma MoveOne(cfg: L.Config, s: State, a: Action) returns (s': State)
    requires L.Sensible(cfg) && L.InTime(cfg) && Inv(cfg, s) && Enabled(cfg, s, a)
    requires a.ClaimNext? || (a.Serve? && (a.a.ReapRetry? || a.a.ReapFail?))
    ensures Goes(cfg, s, a, s') && Inv(cfg, s') && 0 <= TotalOf(Rank, s') == TotalOf(Rank, s) - 1
  {
    s' := Apply(cfg, s, a);
    StepKeepsAccounts(cfg, s, a);
    RankIsNonNegative(cfg, s');
  }

  /** From every state the protocol can be in, whoever is at work, some continuation
      drains the buffer. */
  lemma {:induction false} Drain(cfg: L.Config, s: State) returns (more: seq<Action>)
    requires L.Sensible(cfg) && L.InTime(cfg) && Inv(cfg, s)
    ensures Drains(cfg, s, more)
    decreases Left(s), |s.lease.owners|, 1
  {
    if AllTerminal(s.lease.db.rows) {
      more := [];
    } else if s.lease.owners != map[] {
      more := DrainAfterCrash(cfg, s);
    } else {
      more := DrainAfterMove(cfg, s);
    }
  }

  lemma {:induction false} DrainAfterCrash(cfg: L.Config, s: State) returns (more: seq<Action>)
    requires L.Sensible(cfg) && L.InTime(cfg) && Inv(cfg, s) && s.lease.owners != map[]
    ensures Drains(cfg, s, more)
    decreases Left(s), |s.lease.owners|, 0
  {
    var crash, s' := CrashOne(cfg, s);
    more := Drain(cfg, s');
    DrainsAfter(cfg, s, crash, s', more);
    more := [crash] + more;
  }

  lemma {:induction false} DrainAfterMove(cfg: L.Config, s: State) returns (more: seq<Action>)
    requires L.Sensible(cfg) && L.InTime(cfg) && Inv(cfg, s) && s.lease.owners == map[] && !AllTerminal(s.lease.db.rows)
    ensures Drains(cfg, s, more)
    decreases Left(s), 0, 0
  {
    var id :| id in s.lease.db.rows && !Terminal(s.lease.db.rows[id].status);
    var t, a := NeverStuck(cfg, s, id);
    var wait := Serve(L.Advance(t));
    WaitGoes(cfg, s, wait);
    StepKeepsInv(cfg, s, wait);
    var s1 := Apply(cfg, s, wait);
    var s2 := MoveOne(cfg, s1, a);
    more := Drain(cfg, s2);
    DrainsAfter(cfg, s1, a, s2, more);
    DrainsAfter(cfg, s, wait, s1, [a] + more);
    more := [wait] + ([a] + more);
  }

  /** After every run: the claims made are within sum(max_retries + 1) plus one per 429,
      and the moves made are exactly what the sum of the ranks has fallen short of twice
      that. */
  lemma RunsAreAccounted(cfg: L.Config, rate: int, start: int, run: seq<Action>)
    requires L.Sensible(cfg) && L.InTime(cfg) && 1 <= rate && Valid(cfg, NewBuffer(rate, start), run)
    ensures var s := After(cfg, NewBuffer(rate, start), run);
            && |s.log| <= TotalOf(Budget, s) + TotalOf(Limited, s)
            && 0 <= TotalOf(Rank, s)
            && Moves(run) + TotalOf(Rank, s) == 2 * (TotalOf(Budget, s) + TotalOf(Limited, s))
  {
    Reachable(cfg, rate, start, run);
    LogWithinBudget(cfg, After(cfg, NewBuffer(rate, start), run));
    RankIsNonNegative(cfg, After(cfg, NewBuffer(rate, start), run));
    MovesArePaidFor(cfg, NewBuffer(rate, start), run);
  }

  /** After every run, whoever is at work, some continuation without pushes and without 429s
      finishes every item, with the claims of both still within the bound. */
  lemma BufferDrains(cfg: L.Config, rate: int, start: int, run: seq<Action>) returns (more: seq<Action>)
    requires L.Sensible(cfg) && L.InTime(cfg) && 1 <= rate && Valid(cfg, NewBuffer(rate, start), run)
    ensures var s := After(cfg, NewBuffer(rate, start), run);
            Drains(cfg, s, more) && |After(cfg, s, more).log| <= TotalOf(Budget, s) + TotalOf(Limited, s)
  {
    Reachable(cfg, rate, start, run);
    more := Drain(cfg, After(cfg, NewBuffer(rate, start), run));
    DrainStaysWithin(cfg, After(cfg, NewBuffer(rate, start), run), more);
  }

  lemma DrainStaysWithin(cfg: L.Config, s: State, more: seq<Action>)
    requires L.Sensible(cfg) && L.InTime(cfg) && Inv(cfg, s) && Drains(cfg, s, more)
    ensures |After(cfg, s, more).log| <= TotalOf(Budget, s) + TotalOf(Limited, s)
  {
    RunKeepsInv(cfg, s, more);
    LogWithinBudget(cfg, After(cfg, s, more));
    BudgetIsKept(cfg, s, more);
  }

  lemma {:induction false} BudgetIsKept(cfg: L.Config, s: State, run: seq<Action>)
    requires L.Sensible(cfg) && L.InTime(cfg) && Inv(cfg, s) && Valid(cfg, s, run)
    requires forall a :: a in run ==> !IsPush(a)
    ensures TotalOf(Budget, After(cfg, s, run)) == TotalOf(Budget, s)
    decreases |run|
  {
    if run == [] {
    } else {
      assert run[0] in run;
      StepKeepsAccounts(cfg, s, run[0]);
      BudgetIsKept(cfg, Apply(cfg, s, run[0]), run[1..]);
    }
  }

  /** Nothing but pushes lies ahead. */
  ghost predicate Still(cfg: L.Config, s: State) {
    forall more :: Valid(cfg, s, more) && (forall a :: a in more ==> !IsPush(a)) ==> Moves(more) == 0
  }

  lemma NothingMoves(cfg: L.Config, s: State, a: Action)
    requires AllTerminal(s.lease.db.rows) && Enabled(cfg, s, a) && ServesItem(s, a)
    ensures !IsMove(a)
  {
  }

  lemma {:induction false} DrainedStaysStill(cfg: L.Config, s: State, run: seq<Action>)
    requires L.Sensible(cfg) && L.InTime(cfg) && Inv(cfg, s) && Valid(cfg, s, run)
    requires AllTerminal(s.lease.db.rows) && forall a :: a in run ==> !IsPush(a)
    ensures Moves(run) == 0
    decreases |run|
  {
    if run == [] {
    } else {
      assert run[0] in run;
      OwnersServeItems(cfg, s, run[0]);
      NothingMoves(cfg, s, run[0]);
      OthersAreFree(cfg, s, run[0]);
      StepKeepsInv(cfg, s, run[0]);
      DrainedStaysStill(cfg, Apply(cfg, s, run[0]), run[1..]);
    }
  }

  lemma MovingIsNotStill(cfg: L.Config, s: State, more: seq<Action>)
    requires Drains(cfg, s, more) && !AllTerminal(s.lease.db.rows)
    ensures !Still(cfg, s)
  {
  }

  /** A run that cannot be moved any further has drained the buffer, and only such a run:
      every item is terminal if and only if no continuation without pushes makes a move. */
  lemma DrainedExactlyWhenStill(cfg: L.Config, rate: int, start: int, run: seq<Action>)
    requires L.Sensible(cfg) && L.InTime(cfg) && 1 <= rate && Valid(cfg, NewBuffer(rate, start), run)
    ensures var s := After(cfg, NewBuffer(rate, start), run);
            AllTerminal(s.lease.db.rows) <==> Still(cfg, s)
  {
    Reachable(cfg, rate, start, run);
    var s := After(cfg, NewBuffer(rate, start), run);
    if AllTerminal(s.lease.db.rows) {
      forall more | Valid(cfg, s, more) && (forall a :: a in more ==> !IsPush(a)) ensures Moves(more) == 0 {
        DrainedStaysStill(cfg, s, more);
      }
    } else {
      var more := Drain(cfg, s);
      MovingIsNotStill(cfg, s, more);
    }
  }
}
