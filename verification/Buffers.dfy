/** One buffer: its items under the lease protocol, claimed only through ClaimNextItem,
    which gates on strict order and on the token bucket in one statement.
    Times are in milliseconds. */
module Buffers {
  import opened Tasks
  import L = Lease
  import S = LeaseSafety
  import opened TokenBucket
  import opened JobRepository

  function Seconds(t: int): real {
    t as real / 1000.0
  }

  // ---- the statement ----

  predicate NothingRunning(db: Db) {
    forall id :: id in db.rows ==> !db.rows[id].status.Running?
  }

  function PendingItems(db: Db): set<Id> {
    set id | id in db.rows && db.rows[id].status.Pending?
  }

  /** candidate: the oldest pending item, while nothing is running */
  predicate Head(db: Db, created: map<Id, int>, id: Id)
    requires created.Keys == db.rows.Keys
  {
    && NothingRunning(db)
    && id in PendingItems(db)
    && forall other :: other in PendingItems(db) ==> created[id] <= created[other]
  }

  // ---- the system ----

  datatype Entry = Entry(id: Id, at: int)

  datatype State = State(
    lease: L.State,
    created: map<Id, int>,   // created_at
    order: seq<Id>,          // items in the order they were pushed
    rate: int,               // rate_limit
    start: int,              // when the buffer was created
    bucket: Bucket,
    log: seq<Entry>)         // executions, in the order they were claimed

  datatype Action =
    | Push(id: Id, maxRetries: nat)
    | Replay(id: Id, source: Id)
    | ClaimNext(id: Id)
    | Serve(a: L.Action)

  function NewBuffer(rate: int, start: int): State {
    State(L.Init().(now := start), map[], [], rate, start, Bucket(0.0, Seconds(start)), [])
  }

  ghost predicate Enabled(cfg: L.Config, s: State, a: Action) {
    match a
    case Push(id, _) => id !in s.lease.db.rows
    case Replay(id, source) =>
      id !in s.lease.db.rows && source in s.lease.db.rows && s.lease.db.rows[source].status.Failed?
    case ClaimNext(id) =>
      && s.created.Keys == s.lease.db.rows.Keys
      && Head(s.lease.db, s.created, id)
      && s.lease.db.rows[id].scheduledAt <= s.lease.now
      && Admits(s.bucket, s.rate as real, Seconds(s.lease.now))
    case Serve(a) => !a.Create? && !a.Cancel? && !a.Claim? && L.Enabled(cfg, s.lease, a)
  }

  /** Every step of the buffer is a step of the lease protocol. */
  function LeaseAction(s: State, a: Action): L.Action
    requires a.Replay? ==> a.source in s.lease.db.rows
  {
    match a
    case Push(id, max) => L.Create(id, Item, max, s.lease.now, false)
    case Replay(id, source) => L.Create(id, Item, s.lease.db.rows[source].maxRetries, s.lease.now, false)
    case ClaimNext(id) => L.Claim(id)
    case Serve(a) => a
  }

  ghost function Apply(cfg: L.Config, s: State, a: Action): State
    requires Enabled(cfg, s, a)
  {
    var lease := L.Apply(cfg, s.lease, LeaseAction(s, a));
    match a
    case Push(id, _) => s.(lease := lease, created := s.created[id := s.lease.now], order := s.order + [id])
    case Replay(id, _) => s.(lease := lease, created := s.created[id := s.lease.now], order := s.order + [id])
    case ClaimNext(id) =>
      s.(lease := lease, bucket := Spend(s.bucket, s.rate as real, Seconds(s.lease.now)),
         log := s.log + [Entry(id, s.lease.now)])
    case Serve(_) => s.(lease := lease)
  }

  ghost predicate Valid(cfg: L.Config, s: State, run: seq<Action>)
    decreases |run|
  {
    run == [] || (Enabled(cfg, s, run[0]) && Valid(cfg, Apply(cfg, s, run[0]), run[1..]))
  }

  ghost function After(cfg: L.Config, s: State, run: seq<Action>): State
    requires Valid(cfg, s, run)
    decreases |run|
  {
    if run == [] then s else After(cfg, Apply(cfg, s, run[0]), run[1..])
  }

  // ---- the invariant ----

  function Times(log: seq<Entry>): seq<real> {
    seq(|log|, i requires 0 <= i < |log| => Seconds(log[i].at))
  }

  /** Executions follow created_at, and nothing unfinished is older than any of them. */
  ghost predicate InOrder(rows: map<Id, Row>, created: map<Id, int>, log: seq<Entry>)
    requires created.Keys == rows.Keys
  {
    && (forall e :: e in log ==> e.id in created)
    && (forall i, j :: 0 <= i < j < |log| ==> created[log[i].id] <= created[log[j].id])
    && (forall e, id :: e in log && id in rows && !Terminal(rows[id].status) ==> created[e.id] <= created[id])
  }

  /** At most one item runs, and everything created strictly before it is terminal. */
  ghost predicate OneAtATime(rows: map<Id, Row>, created: map<Id, int>)
    requires created.Keys == rows.Keys
  {
    forall i, j :: i in rows && j in rows && rows[i].status.Running? ==>
      && (rows[j].status.Running? ==> i == j)
      && (created[j] < created[i] ==> Terminal(rows[j].status))
  }

  ghost predicate Listed(rows: map<Id, Row>, created: map<Id, int>, order: seq<Id>, now: int) {
    && created.Keys == rows.Keys == Elements(order) && Distinct(order)
    && (forall id :: id in created ==> created[id] <= now)
    && (forall id :: id in rows ==> rows[id].kind.Item?)
  }

  ghost predicate Metered(now: int, rate: int, start: int, bucket: Bucket, log: seq<Entry>) {
    && 1 <= rate && bucket.last <= Seconds(now) && start <= now
    && Admissible(Bucket(0.0, Seconds(start)), rate as real, Times(log))
    && bucket == AfterClaims(Bucket(0.0, Seconds(start)), rate as real, Times(log))
  }

  ghost predicate Inv(cfg: L.Config, s: State)
    requires L.Sensible(cfg)
  {
    S.Inv(cfg, s.lease) && Queue(s)
  }

  ghost predicate Queue(s: State) {
    && Listed(s.lease.db.rows, s.created, s.order, s.lease.now)
    && Metered(s.lease.now, s.rate, s.start, s.bucket, s.log)
    && InOrder(s.lease.db.rows, s.created, s.log) && OneAtATime(s.lease.db.rows, s.created)
    && Total(Claims, s.lease.db.rows, s.order) == |s.log|
  }

  /** The sum of f over the first n rows of the buffer, and over all. */
  function SumTo(f: Row -> int, rows: map<Id, Row>, order: seq<Id>, n: nat): int
    requires n <= |order|
  {
    if n == 0 then 0
    else SumTo(f, rows, order, n - 1) + (if order[n - 1] in rows then f(rows[order[n - 1]]) else 0)
  }

  function Total(f: Row -> int, rows: map<Id, Row>, order: seq<Id>): int {
    SumTo(f, rows, order, |order|)
  }

  function Claims(r: Row): int {
    r.claims
  }

  // ---- steps ----

  predicate Serves(r: Row, r': Row) {
    && r'.claims == r.claims && r'.kind == r.kind
    && (r'.status.Running? ==> r.status.Running?)
    && (Terminal(r.status) ==> Terminal(r'.status))
  }

  lemma OutcomeServes(db: Db, o: L.Owner, res: L.Result, at: int, id: Id)
    requires o.task in db.rows && db.rows[o.task].status.Running? && id in db.rows
    ensures var rows' := L.WriteOutcome(db, o, res, at).rows;
            rows'.Keys == db.rows.Keys && Serves(db.rows[id], rows'[id])
  {
  }

  /** Serving an item starts none, revives none and counts no claim. */
  lemma ServeEffect(cfg: L.Config, s: L.State, a: L.Action, id: Id)
    requires L.Sensible(cfg) && L.InTime(cfg) && S.Inv(cfg, s) && L.Enabled(cfg, s, a)
    requires !a.Create? && !a.Cancel? && !a.Claim? && id in s.db.rows
    ensures id in L.Apply(cfg, s, a).db.rows && Serves(s.db.rows[id], L.Apply(cfg, s, a).db.rows[id])
  {
    if a.Commit? {
      assert S.OwnerOk(cfg, s, a.c);
      OutcomeServes(s.db, s.owners[a.c], s.owners[a.c].phase.result, a.retryAt, id);
    }
  }

  lemma ServeAll(cfg: L.Config, s: L.State, a: L.Action)
    requires L.Sensible(cfg) && L.InTime(cfg) && S.Inv(cfg, s) && L.Enabled(cfg, s, a)
    requires !a.Create? && !a.Cancel? && !a.Claim?
    ensures var s' := L.Apply(cfg, s, a);
            && s'.db.rows.Keys == s.db.rows.Keys && s.now <= s'.now
            && forall id :: id in s.db.rows ==> Serves(s.db.rows[id], s'.db.rows[id])
  {
    forall id | id in s.db.rows
      ensures id in L.Apply(cfg, s, a).db.rows && Serves(s.db.rows[id], L.Apply(cfg, s, a).db.rows[id])
    {
      ServeEffect(cfg, s, a, id);
    }
  }

  lemma {:induction false} SumSame(
    f: Row -> int, rows: map<Id, Row>, rows': map<Id, Row>, order: seq<Id>, order': seq<Id>, n: nat)
    requires n <= |order| && n <= |order'|
    requires forall i :: 0 <= i < n ==>
               order[i] == order'[i] && order[i] in rows && order[i] in rows' && f(rows[order[i]]) == f(rows'[order[i]])
    ensures SumTo(f, rows', order', n) == SumTo(f, rows, order, n)
  {
    if n == 0 {
    } else {
      SumSame(f, rows, rows', order, order', n - 1);
    }
  }

  lemma {:induction false} SumChanged(f: Row -> int, rows: map<Id, Row>, order: seq<Id>, n: nat, k: nat, row: Row)
    requires Distinct(order) && k < n <= |order| && forall i :: 0 <= i < |order| ==> order[i] in rows
    ensures SumTo(f, rows[order[k] := row], order, n) == SumTo(f, rows, order, n) + f(row) - f(rows[order[k]])
  {
    if k == n - 1 {
      SumSame(f, rows, rows[order[k] := row], order, order, n - 1);
    } else {
      SumChanged(f, rows, order, n - 1, k, row);
    }
  }

  /** Changing one row changes the sum by that row's difference. */
  lemma TotalChanged(f: Row -> int, rows: map<Id, Row>, order: seq<Id>, id: Id, row: Row)
    requires Distinct(order) && Elements(order) == rows.Keys && id in rows
    ensures Total(f, rows[id := row], order) == Total(f, rows, order) + f(row) - f(rows[id])
  {
    assert id in Elements(order);
    var k :| 0 <= k < |order| && order[k] == id;
    forall i | 0 <= i < |order| ensures order[i] in rows {
      assert order[i] in Elements(order);
    }
    SumChanged(f, rows, order, |order|, k, row);
  }

  lemma TotalPushed(f: Row -> int, rows: map<Id, Row>, order: seq<Id>, id: Id, row: Row)
    requires Elements(order) == rows.Keys && id !in rows
    ensures Total(f, rows[id := row], order + [id]) == Total(f, rows, order) + f(row)
  {
    forall i | 0 <= i < |order| ensures order[i] in rows {
      assert order[i] in Elements(order);
    }
    SumSame(f, rows, rows[id := row], order, order + [id], |order|);
  }

  lemma PushKeepsOrder(rows: map<Id, Row>, created: map<Id, int>, log: seq<Entry>, id: Id, row: Row, now: int)
    requires created.Keys == rows.Keys && id !in rows && row.status.Pending?
    requires InOrder(rows, created, log) && OneAtATime(rows, created)
    requires forall i :: i in created ==> created[i] <= now
    ensures InOrder(rows[id := row], created[id := now], log) && OneAtATime(rows[id := row], created[id := now])
  {
  }

  lemma ServeKeepsOrder(rows: map<Id, Row>, rows': map<Id, Row>, created: map<Id, int>, log: seq<Entry>)
    requires created.Keys == rows.Keys == rows'.Keys
    requires InOrder(rows, created, log) && OneAtATime(rows, created)
    requires forall id :: id in rows ==> Serves(rows[id], rows'[id])
    ensures InOrder(rows', created, log) && OneAtATime(rows', created)
  {
  }

  lemma ClaimKeepsOrder(db: Db, created: map<Id, int>, log: seq<Entry>, id: Id, row: Row, now: int)
    requires created.Keys == db.rows.Keys && Head(db, created, id) && row.status.Running?
    requires InOrder(db.rows, created, log)
    ensures InOrder(db.rows[id := row], created, log + [Entry(id, now)])
    ensures OneAtATime(db.rows[id := row], created)
  {
    assert forall j :: j in db.rows && !Terminal(db.rows[j].status) ==> j in PendingItems(db);
    var log' := log + [Entry(id, now)];
    forall i, j | 0 <= i < j < |log'| ensures created[log'[i].id] <= created[log'[j].id] {
      if j == |log| { assert log[i] in log; }
    }
  }

  lemma PushIsListed(rows: map<Id, Row>, created: map<Id, int>, order: seq<Id>, id: Id, row: Row, now: int)
    requires Listed(rows, created, order, now) && id !in rows && row.kind.Item?
    ensures Listed(rows[id := row], created[id := now], order + [id], now)
  {
    Append(order, id);
    forall i | 0 <= i < |order| ensures order[i] != id {
      assert order[i] in Elements(order);
    }
  }

  /** A new row enters: the rest of the queue's state, field by field. */
  lemma PushKeepsQueue(s: State, s': State, id: Id, row: Row)
    requires Queue(s) && id !in s.lease.db.rows && row.status.Pending? && row.claims == 0 && row.kind.Item?
    requires s'.lease.db.rows == s.lease.db.rows[id := row] && s'.lease.now == s.lease.now
    requires s'.created == s.created[id := s.lease.now] && s'.order == s.order + [id]
    requires s'.rate == s.rate && s'.start == s.start && s'.bucket == s.bucket && s'.log == s.log
    ensures Queue(s')
  {
    PushKeepsOrder(s.lease.db.rows, s.created, s.log, id, row, s.lease.now);
    PushIsListed(s.lease.db.rows, s.created, s.order, id, row, s.lease.now);
    TotalPushed(Claims, s.lease.db.rows, s.order, id, row);
  }

  lemma PushStep(cfg: L.Config, s: State, a: Action)
    requires Queue(s) && Enabled(cfg, s, a) && (a.Push? || a.Replay?)
    ensures Queue(Apply(cfg, s, a))
  {
    var s' := Apply(cfg, s, a);
    PushKeepsQueue(s, s', a.id, s'.lease.db.rows[a.id]);
  }

  lemma InsertKeepsHead(db: Db, created: map<Id, int>, id: Id, row: Row, now: int, head: Id)
    requires created.Keys == db.rows.Keys && id !in db.rows && row.status.Pending?
    requires Head(db, created, head) && created[head] <= now
    ensures Head(Insert(db, id, row), created[id := now], head)
  {
  }

  /** A pushed or replayed item enters behind everything there is: nothing was created
      after it, and the head of the queue stays the head. */
  lemma PushGoesLast(cfg: L.Config, s: State, a: Action, id: Id)
    requires Listed(s.lease.db.rows, s.created, s.order, s.lease.now) && Enabled(cfg, s, a) && (a.Push? || a.Replay?)
    requires id in s.created
    ensures var s' := Apply(cfg, s, a);
            && s'.created.Keys == s'.lease.db.rows.Keys && id in s'.created && a.id in s'.created
            && s'.created[id] <= s'.created[a.id]
            && (Head(s.lease.db, s.created, id) ==> Head(s'.lease.db, s'.created, id))
            && (var row := s'.lease.db.rows[a.id];
                && row.status == Pending && row.retry == 0 && row.scheduledAt == s.lease.now
                && row.maxRetries == if a.Push? then a.maxRetries else s.lease.db.rows[a.source].maxRetries)
  {
    var s' := Apply(cfg, s, a);
    assert s'.lease.db == Insert(s.lease.db, a.id, s'.lease.db.rows[a.id]);
    if Head(s.lease.db, s.created, id) {
      InsertKeepsHead(s.lease.db, s.created, a.id, s'.lease.db.rows[a.id], s.lease.now, id);
    }
  }

  lemma ServeKeepsClaims(rows: map<Id, Row>, rows': map<Id, Row>, order: seq<Id>)
    requires Elements(order) == rows.Keys == rows'.Keys && forall id :: id in rows ==> Serves(rows[id], rows'[id])
    ensures Total(Claims, rows', order) == Total(Claims, rows, order)
  {
    forall i | 0 <= i < |order|
      ensures order[i] in rows && order[i] in rows' && Claims(rows[order[i]]) == Claims(rows'[order[i]])
    {
      var id := order[i];
      assert id in Elements(order);
      assert id in rows.Keys && id in rows && Serves(rows[id], rows'[id]);
    }
    SumSame(Claims, rows, rows', order, order, |order|);
  }

  lemma ServeKeepsQueue(s: State, s': State)
    requires Queue(s) && s'.lease.db.rows.Keys == s.lease.db.rows.Keys && s.lease.now <= s'.lease.now
    requires forall id :: id in s.lease.db.rows ==> Serves(s.lease.db.rows[id], s'.lease.db.rows[id])
    requires s' == s.(lease := s'.lease)
    ensures Queue(s')
  {
    ServeKeepsOrder(s.lease.db.rows, s'.lease.db.rows, s.created, s.log);
    ServeKeepsClaims(s.lease.db.rows, s'.lease.db.rows, s.order);
  }

  lemma ServeStep(cfg: L.Config, s: State, a: L.Action)
    requires L.Sensible(cfg) && L.InTime(cfg) && S.Inv(cfg, s.lease) && Queue(s) && Enabled(cfg, s, Serve(a))
    ensures Queue(Apply(cfg, s, Serve(a)))
  {
    ServeAll(cfg, s.lease, a);
    var s' := Apply(cfg, s, Serve(a));
    assert s'.lease == L.Apply(cfg, s.lease, a);
    ServeKeepsQueue(s, s');
  }

  lemma ClaimIsMetered(now: int, rate: int, start: int, bucket: Bucket, log: seq<Entry>, id: Id)
    requires Metered(now, rate, start, bucket, log) && Admits(bucket, rate as real, Seconds(now))
    ensures Metered(now, rate, start, Spend(bucket, rate as real, Seconds(now)), log + [Entry(id, now)])
  {
    assert Times(log + [Entry(id, now)]) == Times(log) + [Seconds(now)];
    AdmissibleOneMore(Bucket(0.0, Seconds(start)), rate as real, Times(log), Seconds(now));
    AfterOneMore(Bucket(0.0, Seconds(start)), rate as real, Times(log), Seconds(now));
  }

  lemma ClaimStep(cfg: L.Config, s: State, id: Id)
    requires Queue(s) && Enabled(cfg, s, ClaimNext(id))
    ensures Queue(Apply(cfg, s, ClaimNext(id)))
  {
    var row := Apply(cfg, s, ClaimNext(id)).lease.db.rows[id];
    ClaimKeepsOrder(s.lease.db, s.created, s.log, id, row, s.lease.now);
    TotalChanged(Claims, s.lease.db.rows, s.order, id, row);
    ClaimIsMetered(s.lease.now, s.rate, s.start, s.bucket, s.log, id);
  }

  lemma StepKeepsInv(cfg: L.Config, s: State, a: Action)
    requires L.Sensible(cfg) && L.InTime(cfg) && Inv(cfg, s) && Enabled(cfg, s, a)
    ensures Inv(cfg, Apply(cfg, s, a))
  {
    S.StepKeepsInv(cfg, s.lease, LeaseAction(s, a));
    match a
    case Push(_, _) => PushStep(cfg, s, a);
    case Replay(_, _) => PushStep(cfg, s, a);
    case ClaimNext(id) => ClaimStep(cfg, s, id);
    case Serve(a) => ServeStep(cfg, s, a);
  }

  lemma {:induction false} RunKeepsInv(cfg: L.Config, s: State, run: seq<Action>)
    requires L.Sensible(cfg) && L.InTime(cfg) && Inv(cfg, s) && Valid(cfg, s, run)
    ensures Inv(cfg, After(cfg, s, run)) && After(cfg, s, run).rate == s.rate && After(cfg, s, run).start == s.start
    decreases |run|
  {
    if run == [] {
    } else {
      StepKeepsInv(cfg, s, run[0]);
      RunKeepsInv(cfg, Apply(cfg, s, run[0]), run[1..]);
    }
  }

  lemma Reachable(cfg: L.Config, rate: int, start: int, run: seq<Action>)
    requires L.Sensible(cfg) && L.InTime(cfg) && 1 <= rate && Valid(cfg, NewBuffer(rate, start), run)
    ensures Inv(cfg, After(cfg, NewBuffer(rate, start), run))
    ensures var s := After(cfg, NewBuffer(rate, start), run);
            s.rate == rate && s.start == start
  {
    RunKeepsInv(cfg, NewBuffer(rate, start), run);
  }

  // ---- whole runs ----

  /** The executions of a buffer follow created_at; at most one item runs, everything
      created strictly before it is terminal, and at most one drainer serves the buffer. */
  lemma DeliveryIsOrdered(cfg: L.Config, rate: int, start: int, run: seq<Action>)
    requires L.Sensible(cfg) && L.InTime(cfg) && 1 <= rate && Valid(cfg, NewBuffer(rate, start), run)
    ensures var s := After(cfg, NewBuffer(rate, start), run);
            && s.created.Keys == s.lease.db.rows.Keys
            && InOrder(s.lease.db.rows, s.created, s.log) && OneAtATime(s.lease.db.rows, s.created)
            && forall c: nat, d: nat :: L.Live(s.lease, c) && L.Live(s.lease, d) ==> c == d
  {
    Reachable(cfg, rate, start, run);
    var s := After(cfg, NewBuffer(rate, start), run).lease;
    forall c: nat, d: nat | L.Live(s, c) && L.Live(s, d) ensures c == d {
      assert S.OwnerOk(cfg, s, c) && S.OwnerOk(cfg, s, d);
    }
  }

  /** From s to s' the row of the item is left alone, and it is not executed. */
  ghost predicate LeftAlone(s: State, s': State, id: Id) {
    && id in s.lease.db.rows && id in s'.lease.db.rows && s'.lease.db.rows[id] == s.lease.db.rows[id]
    && s.log <= s'.log && forall k :: |s.log| <= k < |s'.log| ==> s'.log[k].id != id
  }

  lemma LeftAloneTwice(s: State, mid: State, s': State, id: Id)
    requires LeftAlone(s, mid, id) && LeftAlone(mid, s', id)
    ensures LeftAlone(s, s', id)
  {
    forall k | |s.log| <= k < |s'.log| ensures s'.log[k].id != id {
      if k < |mid.log| { assert s'.log[k] == mid.log[k]; }
    }
  }

  lemma FinishedStep(cfg: L.Config, s: State, a: Action, id: Id)
    requires L.Sensible(cfg) && L.InTime(cfg) && S.Inv(cfg, s.lease) && Enabled(cfg, s, a)
    requires id in s.lease.db.rows && Terminal(s.lease.db.rows[id].status)
    ensures LeftAlone(s, Apply(cfg, s, a), id)
  {
    S.TerminalStep(cfg, s.lease, LeaseAction(s, a), id);
  }

  /** No run changes a finished item, or executes it again. */
  lemma {:induction false} FinishedIsLeftAlone(cfg: L.Config, s: State, run: seq<Action>, id: Id)
    requires L.Sensible(cfg) && L.InTime(cfg) && Inv(cfg, s) && Valid(cfg, s, run)
    requires id in s.lease.db.rows && Terminal(s.lease.db.rows[id].status)
    ensures LeftAlone(s, After(cfg, s, run), id)
    decreases |run|
  {
    if run == [] {
    } else {
      var mid := Apply(cfg, s, run[0]);
      FinishedStep(cfg, s, run[0], id);
      StepKeepsInv(cfg, s, run[0]);
      FinishedIsLeftAlone(cfg, mid, run[1..], id);
      LeftAloneTwice(s, mid, After(cfg, s, run), id);
    }
  }

  lemma BeforeHeadIsFinished(db: Db, created: map<Id, int>, head: Id, earlier: Id)
    requires created.Keys == db.rows.Keys && Head(db, created, head)
    requires earlier in created && created[earlier] < created[head]
    ensures Terminal(db.rows[earlier].status)
  {
    assert earlier in PendingItems(db) <==> db.rows[earlier].status.Pending?;
  }

  /** When an item is claimed in any run, every item created strictly before it is
      finished for good: whatever comes later, its row stays as it is and it is never
      executed again. */
  lemma NobodyIsOvertaken(
    cfg: L.Config, rate: int, start: int, run: seq<Action>, id: Id, later: seq<Action>, earlier: Id)
    requires L.Sensible(cfg) && L.InTime(cfg) && 1 <= rate && Valid(cfg, NewBuffer(rate, start), run)
    requires var s := After(cfg, NewBuffer(rate, start), run);
             && Enabled(cfg, s, ClaimNext(id)) && Valid(cfg, s, [ClaimNext(id)] + later)
             && earlier in s.created && s.created[earlier] < s.created[id]
    ensures var s := After(cfg, NewBuffer(rate, start), run);
            var s' := After(cfg, s, [ClaimNext(id)] + later);
            LeftAlone(s, s', earlier) && Terminal(s'.lease.db.rows[earlier].status)
  {
    Reachable(cfg, rate, start, run);
    var s := After(cfg, NewBuffer(rate, start), run);
    BeforeHeadIsFinished(s.lease.db, s.created, id, earlier);
    FinishedIsLeftAlone(cfg, s, [ClaimNext(id)] + later, earlier);
  }

  /** Every window holds at most rate * (1 + length) executions, and the buffer's whole
      life at most rate * age; the tokens stay between 0 and the rate. */
  lemma RateIsKept(cfg: L.Config, rate: int, start: int, run: seq<Action>, from: real, to: real)
    requires L.Sensible(cfg) && L.InTime(cfg) && 1 <= rate && Valid(cfg, NewBuffer(rate, start), run)
    requires from <= to
    ensures var s := After(cfg, NewBuffer(rate, start), run);
            Full(s.bucket, rate as real) && KeepsRate(Times(s.log), rate as real, Seconds(start), from, to)
  {
    Reachable(cfg, rate, start, run);
    var s := After(cfg, NewBuffer(rate, start), run);
    TokensStayInRange(Bucket(0.0, Seconds(start)), rate as real, Times(s.log));
    HistoryKeepsRate(Times(s.log), rate as real, Seconds(start), from, to);
  }

  lemma AdmittedExactlyIfFits(now: int, rate: int, start: int, bucket: Bucket, log: seq<Entry>)
    requires Metered(now, rate, start, bucket, log)
    ensures Admits(bucket, rate as real, Seconds(now))
            <==> Fits(Seconds(start), rate as real, Times(log) + [Seconds(now)])
  {
    AdmissibleOneMore(Bucket(0.0, Seconds(start)), rate as real, Times(log), Seconds(now));
    AdmissibleExactlyIfFits(Seconds(start), rate as real, Times(log) + [Seconds(now)]);
  }

  lemma HeadInFields(db: Db, created: map<Id, int>, id: Id)
    requires created.Keys == db.rows.Keys
    ensures Head(db, created, id)
            <==> && id in db.rows && db.rows[id].status == Pending
                 && (forall i :: i in db.rows ==> db.rows[i].status != Running)
                 && (forall i :: i in db.rows && db.rows[i].status == Pending ==> created[id] <= created[i])
  {
    assert forall i :: i in PendingItems(db) <==> i in db.rows && db.rows[i].status == Pending;
  }

  lemma TokenInFields(b: Bucket, rate: int, t: real)
    ensures Admits(b, rate as real, t) <==> b.tokens + (t - b.last) * rate as real >= 1.0 && rate >= 1
    ensures var grown := b.tokens + (t - b.last) * rate as real;
            Spend(b, rate as real, t) == Bucket((if grown > rate as real then rate as real else grown) - 1.0, t)
  {
  }

  /** After every run an item can be claimed exactly if no item is running, it is the oldest
      pending one and due, and one more execution now, on top of those of the whole run, keeps
      within the rate. */
  lemma ClaimableExactly(cfg: L.Config, rate: int, start: int, run: seq<Action>, id: Id)
    requires L.Sensible(cfg) && L.InTime(cfg) && 1 <= rate && Valid(cfg, NewBuffer(rate, start), run)
    ensures var s := After(cfg, NewBuffer(rate, start), run);
            var rows := s.lease.db.rows;
            Enabled(cfg, s, ClaimNext(id))
            <==> && s.created.Keys == rows.Keys && id in rows && rows[id].status == Pending
                 && (forall i :: i in rows ==> rows[i].status != Running)
                 && (forall i :: i in rows && rows[i].status == Pending ==> s.created[id] <= s.created[i])
                 && rows[id].scheduledAt <= s.lease.now
                 && Fits(Seconds(start), rate as real, Times(s.log) + [Seconds(s.lease.now)])
  {
    Reachable(cfg, rate, start, run);
    var s := After(cfg, NewBuffer(rate, start), run);
    AdmittedExactlyIfFits(s.lease.now, s.rate, s.start, s.bucket, s.log);
    HeadInFields(s.lease.db, s.created, id);
  }
}
