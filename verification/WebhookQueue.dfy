/** internal/scheduler/webhook_dispatcher.go over webhook_delivery.go: the durable webhook
    queue as a state machine. A flight is a goroutine that delivers one claimed row.
    `claims`, `abandoned` and `holder` are bookkeeping the table does not have. */
module WebhookQueue {
  import Tasks
  import opened JobRepository

  // 'pending', 'delivering', 'delivered', 'failed'
  datatype DeliveryStatus = Waiting | Delivering | Delivered | Undeliverable

  datatype Delivery = Delivery(status: DeliveryStatus, attempts: nat, maxAttempts: nat,
                               nextRetryAt: int, updatedAt: int, claims: nat, abandoned: nat, holder: nat)

  type Id = Tasks.Id

  type Table = map<Id, Delivery>

  // ---- statements ----

  // insertWebhookDelivery
  function NewDelivery(maxAttempts: int, now: int): Delivery {
    Delivery(Waiting, 0, if maxAttempts <= 0 then 10 else maxAttempts, now, now, 0, 0, 0)
  }

  predicate Ready(d: Delivery, now: int, timeout: int) {
    (d.status.Waiting? && d.nextRetryAt <= now) || (d.status.Delivering? && d.updatedAt < now - timeout)
  }

  function Claimed(d: Delivery, claim: nat, now: int): Delivery {
    d.(status := Delivering, updatedAt := now, claims := d.claims + 1, holder := claim)
  }

  datatype Verdict = Deliver | GiveUp | RetryAt(at: int)

  // MarkDelivered, MarkFailed and Reschedule match on the id alone
  function Marked(d: Delivery, v: Verdict, now: int): Delivery {
    match v
    case Deliver => d.(status := Delivered, attempts := d.attempts + 1, updatedAt := now)
    case GiveUp => d.(status := Undeliverable, attempts := d.attempts + 1, updatedAt := now)
    case RetryAt(at) => d.(status := Waiting, attempts := d.attempts + 1, nextRetryAt := at, updatedAt := now)
  }

  // deliverOne
  function Judge(err: bool, code: int, attempts: nat, maxAttempts: nat, at: int): Verdict {
    if !err && 200 <= code < 300 then Deliver
    else if attempts + 1 >= maxAttempts then GiveUp
    else RetryAt(at)
  }

  // ---- the machine ----

  /** `timeout` is webhookInflightTimeout; `longest` bounds a live attempt, from the claim
      to its outcome write. */
  datatype Config = Config(timeout: nat, longest: nat)

  datatype Flight = Flight(id: Id, attempts: nat, maxAttempts: nat, startedAt: int)

  datatype State = State(now: int, rows: Table, flights: map<nat, Flight>, next: nat)

  datatype Action =
    | Enqueue(id: Id, maxAttempts: int)
    | Claim(id: Id)
    | Finish(c: nat, err: bool, code: int, at: int)
    | Lose(c: nat)                                  // crash, panic, or a failed outcome write
    | Advance(t: int)

  function Init(): State {
    State(0, map[], map[], 0)
  }

  predicate Enabled(cfg: Config, s: State, a: Action) {
    match a
    case Enqueue(id, _) => id !in s.rows
    case Claim(id) => id in s.rows && Ready(s.rows[id], s.now, cfg.timeout)
    case Finish(c, _, _, _) => c in s.flights && s.flights[c].id in s.rows
    case Lose(c) => c in s.flights && s.flights[c].id in s.rows
    case Advance(t) => s.now <= t && forall c :: c in s.flights ==> t <= s.flights[c].startedAt + cfg.longest
  }

  function Apply(cfg: Config, s: State, a: Action): State
    requires Enabled(cfg, s, a)
  {
    match a
    case Enqueue(id, max) => s.(rows := s.rows[id := NewDelivery(max, s.now)])
    case Claim(id) =>
      var d := s.rows[id];
      State(s.now, s.rows[id := Claimed(d, s.next, s.now)],
            s.flights[s.next := Flight(id, d.attempts, d.maxAttempts, s.now)], s.next + 1)
    case Finish(c, err, code, at) =>
      var f := s.flights[c];
      s.(rows := s.rows[f.id := Marked(s.rows[f.id], Judge(err, code, f.attempts, f.maxAttempts, at), s.now)],
         flights := s.flights - {c})
    case Lose(c) =>
      var d := s.rows[s.flights[c].id];
      s.(rows := s.rows[s.flights[c].id := d.(abandoned := d.abandoned + 1)], flights := s.flights - {c})
    case Advance(t) => s.(now := t)
  }

  predicate Valid(cfg: Config, s: State, run: seq<Action>)
    decreases |run|
  {
    run == [] || (Enabled(cfg, s, run[0]) && Valid(cfg, Apply(cfg, s, run[0]), run[1..]))
  }

  function After(cfg: Config, s: State, run: seq<Action>): State
    requires Valid(cfg, s, run)
    decreases |run|
  {
    if run == [] then s else After(cfg, Apply(cfg, s, run[0]), run[1..])
  }

  // ---- the invariant ----

  function InFlight(s: State, id: Id, d: Delivery): nat {
    if d.holder in s.flights && s.flights[d.holder].id == id then 1 else 0
  }

  ghost predicate RowOk(s: State, id: Id, d: Delivery) {
    && 1 <= d.maxAttempts && d.attempts <= d.maxAttempts && (d.claims > 0 ==> d.holder < s.next)
    && (d.status.Waiting? || d.status.Delivering? ==> d.attempts < d.maxAttempts)
    && (d.status.Undeliverable? ==> d.attempts == d.maxAttempts)
    && (d.status.Delivered? ==> 1 <= d.attempts)
    && d.claims == d.attempts + d.abandoned + InFlight(s, id, d)
  }

  ghost predicate FlightOk(s: State, c: nat, f: Flight) {
    && c < s.next && f.id in s.rows
    && (var d := s.rows[f.id];
        && d.status.Delivering? && d.holder == c && d.updatedAt == f.startedAt
        && d.attempts == f.attempts && d.maxAttempts == f.maxAttempts)
  }

  ghost predicate Inv(cfg: Config, s: State) {
    && (forall id :: id in s.rows ==> RowOk(s, id, s.rows[id]))
    && (forall c: nat :: c in s.flights ==>
          FlightOk(s, c, s.flights[c]) && s.now <= s.flights[c].startedAt + cfg.longest)
  }

  lemma StepKeepsFlight(cfg: Config, s: State, a: Action, c: nat)
    requires cfg.longest <= cfg.timeout && Inv(cfg, s) && Enabled(cfg, s, a) && c in Apply(cfg, s, a).flights
    ensures var s' := Apply(cfg, s, a);
            FlightOk(s', c, s'.flights[c]) && s'.now <= s'.flights[c].startedAt + cfg.longest
  {
    if a.Finish? || a.Lose? { assert FlightOk(s, a.c, s.flights[a.c]); }
    if c in s.flights { assert FlightOk(s, c, s.flights[c]); }
  }

  lemma StepKeepsRow(cfg: Config, s: State, a: Action, id: Id)
    requires cfg.longest <= cfg.timeout && Inv(cfg, s) && Enabled(cfg, s, a) && id in Apply(cfg, s, a).rows
    ensures RowOk(Apply(cfg, s, a), id, Apply(cfg, s, a).rows[id])
  {
    if a.Finish? || a.Lose? { assert FlightOk(s, a.c, s.flights[a.c]); }
    if id in s.rows { assert RowOk(s, id, s.rows[id]); }
  }

  lemma StepKeepsInv(cfg: Config, s: State, a: Action)
    requires cfg.longest <= cfg.timeout && Inv(cfg, s) && Enabled(cfg, s, a)
    ensures Inv(cfg, Apply(cfg, s, a))
  {
    var s' := Apply(cfg, s, a);
    forall c: nat | c in s'.flights
      ensures FlightOk(s', c, s'.flights[c]) && s'.now <= s'.flights[c].startedAt + cfg.longest
    {
      StepKeepsFlight(cfg, s, a, c);
    }
    forall id | id in s'.rows ensures RowOk(s', id, s'.rows[id]) {
      StepKeepsRow(cfg, s, a, id);
    }
  }

  lemma {:induction false} RunKeepsInv(cfg: Config, s: State, run: seq<Action>)
    requires cfg.longest <= cfg.timeout && Inv(cfg, s) && Valid(cfg, s, run)
    ensures Inv(cfg, After(cfg, s, run))
    decreases |run|
  {
    if run == [] {
    } else {
      StepKeepsInv(cfg, s, run[0]);
      RunKeepsInv(cfg, Apply(cfg, s, run[0]), run[1..]);
    }
  }

  // ---- whole runs ----

  ghost predicate OneFlightEach(s: State) {
    forall c: nat, d: nat :: c in s.flights && d in s.flights && s.flights[c].id == s.flights[d].id ==> c == d
  }

  /** An attempt that outlives the timeout is fired a second time. */
  lemma Reclaimed(cfg: Config) returns (run: seq<Action>)
    requires cfg.longest > cfg.timeout
    ensures Valid(cfg, Init(), run) && !OneFlightEach(After(cfg, Init(), run))
  {
    var s1 := Apply(cfg, Init(), Enqueue(0, 1));
    var s2 := Apply(cfg, s1, Claim(0));
    var s3 := Apply(cfg, s2, Advance(cfg.timeout + 1));
    var s4 := Apply(cfg, s3, Claim(0));
    assert 0 in s4.flights && 1 in s4.flights && s4.flights[0].id == s4.flights[1].id;
    run := Prepend(cfg, s3, Claim(0), []);
    run := Prepend(cfg, s2, Advance(cfg.timeout + 1), run);
    run := Prepend(cfg, s1, Claim(0), run);
    run := Prepend(cfg, Init(), Enqueue(0, 1), run);
  }

  lemma Prepend(cfg: Config, s: State, a: Action, rest: seq<Action>) returns (run: seq<Action>)
    requires Enabled(cfg, s, a) && Valid(cfg, Apply(cfg, s, a), rest)
    ensures Valid(cfg, s, run) && After(cfg, s, run) == After(cfg, Apply(cfg, s, a), rest)
  {
    run := [a] + rest;
    assert run[1..] == rest;
  }

  /** At most one attempt per delivery is in flight in every run, if and only if a live
      attempt always ends within the in-flight timeout. */
  lemma OneAttemptAtATime(cfg: Config)
    ensures cfg.longest <= cfg.timeout
            <==> forall run :: Valid(cfg, Init(), run) ==> OneFlightEach(After(cfg, Init(), run))
  {
    if cfg.longest <= cfg.timeout {
      forall run | Valid(cfg, Init(), run) ensures OneFlightEach(After(cfg, Init(), run)) {
        RunKeepsInv(cfg, Init(), run);
        var s := After(cfg, Init(), run);
        forall c: nat, d: nat | c in s.flights && d in s.flights && s.flights[c].id == s.flights[d].id ensures c == d {
          assert FlightOk(s, c, s.flights[c]) && FlightOk(s, d, s.flights[d]);
        }
      }
    } else {
      var run := Reclaimed(cfg);
    }
  }

  /** The attempt budget and the conservation of claims, in every reachable state. */
  lemma AttemptsAreAccounted(cfg: Config, run: seq<Action>, id: Id)
    requires cfg.longest <= cfg.timeout && Valid(cfg, Init(), run) && id in After(cfg, Init(), run).rows
    ensures var s := After(cfg, Init(), run);
            var d := s.rows[id];
            && d.attempts <= d.maxAttempts
            && (d.status.Waiting? ==> d.attempts < d.maxAttempts)
            && (d.status.Undeliverable? ==> d.attempts == d.maxAttempts)
            && d.claims == d.attempts + d.abandoned + InFlight(s, id, d)
  {
    RunKeepsInv(cfg, Init(), run);
  }

  /** delivered and failed are absorbing. */
  lemma {:induction false} OutcomeIsFinal(cfg: Config, s: State, run: seq<Action>, id: Id)
    requires cfg.longest <= cfg.timeout && Inv(cfg, s) && Valid(cfg, s, run)
    requires id in s.rows && (s.rows[id].status.Delivered? || s.rows[id].status.Undeliverable?)
    ensures id in After(cfg, s, run).rows && After(cfg, s, run).rows[id] == s.rows[id]
    decreases |run|
  {
    if run == [] {
    } else {
      var a := run[0];
      if a.Finish? || a.Lose? { assert FlightOk(s, a.c, s.flights[a.c]); }
      StepKeepsInv(cfg, s, a);
      OutcomeIsFinal(cfg, Apply(cfg, s, a), run[1..], id);
    }
  }

  /** What `run` has delivered or given up on, `more` leaves alone. */
  ghost predicate OutcomesLast(cfg: Config, run: seq<Action>, more: seq<Action>) {
    Valid(cfg, Init(), run) && Valid(cfg, After(cfg, Init(), run), more) ==>
      var s, s' := After(cfg, Init(), run), After(cfg, After(cfg, Init(), run), more);
      forall id :: id in s.rows && (s.rows[id].status.Delivered? || s.rows[id].status.Undeliverable?) ==>
        id in s'.rows && s'.rows[id] == s.rows[id]
  }

  /** A first attempt delivers after a second has begun, and the second fails: the delivered
      row is pending again. */
  lemma Redelivered(cfg: Config) returns (run: seq<Action>, more: seq<Action>)
    requires cfg.longest > cfg.timeout
    ensures !OutcomesLast(cfg, run, more)
  {
    var s1 := Apply(cfg, Init(), Enqueue(0, 2));
    var s2 := Apply(cfg, s1, Claim(0));
    var s3 := Apply(cfg, s2, Advance(cfg.timeout + 1));
    var s4 := Apply(cfg, s3, Claim(0));
    var s5 := Apply(cfg, s4, Finish(0, false, 200, 0));
    run := Prepend(cfg, s4, Finish(0, false, 200, 0), []);
    run := Prepend(cfg, s3, Claim(0), run);
    run := Prepend(cfg, s2, Advance(cfg.timeout + 1), run);
    run := Prepend(cfg, s1, Claim(0), run);
    run := Prepend(cfg, Init(), Enqueue(0, 2), run);
    more := Prepend(cfg, s5, Finish(1, true, 0, 0), []);
    assert 0 in s5.rows && s5.rows[0].status.Delivered?;
    assert After(cfg, s5, more).rows[0].status.Waiting?;
  }

  /** delivered and failed are absorbing in every run if and only if a live attempt always
      ends within the in-flight timeout. */
  lemma OutcomesLastExactlyInTime(cfg: Config)
    ensures cfg.longest <= cfg.timeout <==> forall run, more :: OutcomesLast(cfg, run, more)
  {
    if cfg.longest <= cfg.timeout {
      forall run, more ensures OutcomesLast(cfg, run, more) {
        if Valid(cfg, Init(), run) && Valid(cfg, After(cfg, Init(), run), more) {
          RunKeepsInv(cfg, Init(), run);
          var s := After(cfg, Init(), run);
          forall id | id in s.rows && (s.rows[id].status.Delivered? || s.rows[id].status.Undeliverable?)
            ensures id in After(cfg, s, more).rows && After(cfg, s, more).rows[id] == s.rows[id]
          {
            OutcomeIsFinal(cfg, s, more, id);
          }
        }
      }
    } else {
      var run, more := Redelivered(cfg);
    }
  }

  // ---- webhook_delivery.go and the dispatcher ----

  predicate EarlierRetry(rows: Table, a: Id, b: Id) {
    a in rows && b in rows ==> rows[a].nextRetryAt <= rows[b].nextRetryAt
  }

  function ByRetry(rows: Table): (Id, Id) -> bool {
    (a, b) => EarlierRetry(rows, a, b)
  }

  function ReadySet(rows: Table, now: int, timeout: int): set<Id> {
    set id | id in rows && Ready(rows[id], now, timeout)
  }

  function ClaimEach(rows: Table, picked: seq<Id>, next: nat, now: int): Table {
    if picked == [] then rows
    else
      var n := |picked| - 1;
      var before := ClaimEach(rows, picked[..n], next, now);
      if picked[n] in before then before[picked[n] := Claimed(before[picked[n]], next + n, now)] else before
  }

  // ---- a claimed batch is a run ----

  function ClaimsOf(picked: seq<Id>): seq<Action> {
    seq(|picked|, i requires 0 <= i < |picked| => Claim(picked[i]))
  }

  predicate BatchClaimed(s: State, picked: seq<Id>, s': State) {
    s'.rows == ClaimEach(s.rows, picked, s.next, s.now) && s'.now == s.now && s'.next == s.next + |picked|
  }

  lemma {:induction false} RunThen(cfg: Config, s: State, run: seq<Action>, a: Action)
    requires Valid(cfg, s, run) && Enabled(cfg, After(cfg, s, run), a)
    ensures Valid(cfg, s, run + [a]) && After(cfg, s, run + [a]) == Apply(cfg, After(cfg, s, run), a)
    decreases |run|
  {
    if run == [] {
      assert ([] + [a])[1..] == [];
    } else {
      assert (run + [a])[1..] == run[1..] + [a];
      RunThen(cfg, Apply(cfg, s, run[0]), run[1..], a);
    }
  }

  lemma ClaimExtends(cfg: Config, s: State, init: seq<Id>, last: Id)
    requires Valid(cfg, s, ClaimsOf(init)) && BatchClaimed(s, init, After(cfg, s, ClaimsOf(init)))
    requires last in After(cfg, s, ClaimsOf(init)).rows
    requires Ready(After(cfg, s, ClaimsOf(init)).rows[last], s.now, cfg.timeout)
    ensures Valid(cfg, s, ClaimsOf(init + [last]))
    ensures BatchClaimed(s, init + [last], After(cfg, s, ClaimsOf(init + [last])))
  {
    assert ClaimsOf(init + [last]) == ClaimsOf(init) + [Claim(last)];
    assert (init + [last])[..|init|] == init;
    RunThen(cfg, s, ClaimsOf(init), Claim(last));
  }

  lemma {:induction false} ClaimLeavesOthers(rows: Table, picked: seq<Id>, next: nat, now: int, id: Id)
    requires id in rows && id !in picked
    ensures var rows' := ClaimEach(rows, picked, next, now);
            id in rows' && rows'[id] == rows[id]
  {
    if picked == [] {
    } else {
      var n := |picked| - 1;
      assert id !in picked[..n] && id != picked[n];
      ClaimLeavesOthers(rows, picked[..n], next, now, id);
    }
  }

  lemma ReadyInFields(rows: Table, picked: seq<Id>, limit: nat, now: int, timeout: int)
    requires FirstOf(ByRetry(rows), ReadySet(rows, now, timeout), picked, limit)
    ensures |picked| <= limit
    ensures forall id :: id in picked ==>
              && id in rows
              && (|| (rows[id].status == Waiting && rows[id].nextRetryAt <= now)
                  || (rows[id].status == Delivering && rows[id].updatedAt < now - timeout))
    ensures forall id ::
              && id in rows && id !in picked
              && (|| (rows[id].status == Waiting && rows[id].nextRetryAt <= now)
                  || (rows[id].status == Delivering && rows[id].updatedAt < now - timeout)) ==>
                |picked| == limit && forall p :: p in picked ==> rows[p].nextRetryAt <= rows[id].nextRetryAt
  {
    var ready := ReadySet(rows, now, timeout);
    forall id | id in picked ensures id in ready {
      assert id in Elements(picked);
    }
    forall id | id in ready && id !in picked
      ensures |picked| == limit && forall p :: p in picked ==> ByRetry(rows)(p, id)
    {
      FirstOfFills(ByRetry(rows), ready, picked, limit, id);
    }
  }

  predicate ClaimedInFields(d: Delivery, d': Delivery, taken: bool, now: int) {
    if taken then d'.status == Delivering && d'.updatedAt == now && d'.attempts == d.attempts else d' == d
  }

  lemma {:induction false} ClaimLeavesOrTakes(rows: Table, picked: seq<Id>, next: nat, now: int, id: Id)
    requires id in rows
    ensures var rows' := ClaimEach(rows, picked, next, now);
            id in rows' && ClaimedInFields(rows[id], rows'[id], id in picked, now)
  {
    if picked == [] {
    } else {
      var n := |picked| - 1;
      assert picked == picked[..n] + [picked[n]];
      ClaimLeavesOrTakes(rows, picked[..n], next, now, id);
    }
  }

  /** A delivery is a candidate of ClaimDue exactly if the queue lets it be claimed. */
  lemma ReadyExactlyIfClaimable(cfg: Config, s: State, id: Id)
    ensures id in ReadySet(s.rows, s.now, cfg.timeout) <==> Enabled(cfg, s, Claim(id))
  {
  }

  predicate AllReady(rows: Table, picked: seq<Id>, now: int, timeout: int) {
    forall i :: 0 <= i < |picked| ==> picked[i] in rows && Ready(rows[picked[i]], now, timeout)
  }

  lemma {:induction false} ReadyBatchIsRun(cfg: Config, s: State, picked: seq<Id>)
    requires Distinct(picked) && AllReady(s.rows, picked, s.now, cfg.timeout)
    ensures Valid(cfg, s, ClaimsOf(picked)) && BatchClaimed(s, picked, After(cfg, s, ClaimsOf(picked)))
  {
    if picked == [] {
    } else {
      var n := |picked| - 1;
      var init, last := picked[..n], picked[n];
      ReadyBatchIsRun(cfg, s, init);
      ClaimLeavesOthers(s.rows, init, s.next, s.now, last);
      ClaimExtends(cfg, s, init, last);
      assert init + [last] == picked;
    }
  }

  /** What ClaimDue does to a batch, single claims of the machine do one after the other. */
  lemma ClaimBatchIsRun(cfg: Config, s: State, picked: seq<Id>, limit: nat)
    requires FirstOf(ByRetry(s.rows), ReadySet(s.rows, s.now, cfg.timeout), picked, limit)
    ensures Valid(cfg, s, ClaimsOf(picked)) && BatchClaimed(s, picked, After(cfg, s, ClaimsOf(picked)))
  {
    forall i | 0 <= i < |picked| ensures picked[i] in s.rows && Ready(s.rows[picked[i]], s.now, cfg.timeout) {
      assert picked[i] in Elements(picked);
    }
    ReadyBatchIsRun(cfg, s, picked);
  }

  class DeliveryRepository {
    var rows: Table

    constructor ()
      ensures rows == map[]
    {
      rows := map[];
    }

    method Enqueue(id: Id, maxAttempts: int, now: int)
      requires id !in rows
      modifies this
      ensures rows == old(rows)[id := NewDelivery(maxAttempts, now)]
      ensures rows[id].status == Waiting && rows[id].attempts == 0 && rows[id].nextRetryAt == now
      ensures rows[id].maxAttempts == if maxAttempts <= 0 then 10 else maxAttempts
    {
      var max := maxAttempts;
      if max <= 0 { max := 10; }
      rows := rows[id := Delivery(Waiting, 0, max, now, now, 0, 0, 0)];
    }

    method ClaimDue(next: nat, limit: nat, timeout: int, now: int) returns (picked: seq<Id>)
      modifies this
      ensures FirstOf(ByRetry(old(rows)), ReadySet(old(rows), now, timeout), picked, limit)
      ensures rows == ClaimEach(old(rows), picked, next, now)
      // in fields: pending rows whose time has come and rows stuck in flight, left out only
      // for others that were due no later
      ensures |picked| <= limit
      ensures forall id :: id in picked ==>
                && id in old(rows)
                && (|| (old(rows)[id].status == Waiting && old(rows)[id].nextRetryAt <= now)
                    || (old(rows)[id].status == Delivering && old(rows)[id].updatedAt < now - timeout))
      ensures forall id ::
                && id in old(rows) && id !in picked
                && (|| (old(rows)[id].status == Waiting && old(rows)[id].nextRetryAt <= now)
                    || (old(rows)[id].status == Delivering && old(rows)[id].updatedAt < now - timeout)) ==>
                  && |picked| == limit
                  && forall p :: p in picked ==> old(rows)[p].nextRetryAt <= old(rows)[id].nextRetryAt
      ensures forall id :: id in old(rows) ==>
                && id in rows
                && (id in picked ==> rows[id].status == Delivering && rows[id].updatedAt == now
                                     && rows[id].attempts == old(rows)[id].attempts)
                && (id !in picked ==> rows[id] == old(rows)[id])
    {
      picked := SelectFirst(ByRetry(rows), ReadySet(rows, now, timeout), limit);
      ReadyInFields(rows, picked, limit, now, timeout);
      for k := 0 to |picked|
        invariant rows == ClaimEach(old(rows), picked[..k], next, now)
      {
        assert picked[..k + 1][..k] == picked[..k];
        var id := picked[k];
        if id in rows {
          var d := rows[id];
          rows := rows[id := d.(status := Delivering, updatedAt := now, claims := d.claims + 1, holder := next + k)];
        }
      }
      assert picked[..|picked|] == picked;
      forall id | id in old(rows) ensures id in rows && ClaimedInFields(old(rows)[id], rows[id], id in picked, now) {
        ClaimLeavesOrTakes(old(rows), picked, next, now, id);
      }
    }

    /** deliverOne after the POST: `attempts` and `maxAttempts` are what the claim read. */
    method RecordOutcome(id: Id, attempts: nat, maxAttempts: nat, err: bool, code: int, retryAt: int, now: int)
      modifies this
      ensures rows == if id in old(rows)
                      then old(rows)[id := Marked(old(rows)[id], Judge(err, code, attempts, maxAttempts, retryAt), now)]
                      else old(rows)
      // in fields
      ensures id in old(rows) ==>
                && id in rows && rows == old(rows)[id := rows[id]]
                && rows[id].attempts == old(rows)[id].attempts + 1 && rows[id].updatedAt == now
                && (rows[id].status == Delivered <==> !err && 200 <= code <= 299)
                && (rows[id].status == Undeliverable <==> (err || !(200 <= code <= 299)) && attempts + 1 >= maxAttempts)
                && (rows[id].status == Waiting <==> (err || !(200 <= code <= 299)) && attempts + 1 < maxAttempts)
                && rows[id].nextRetryAt == (if rows[id].status == Waiting then retryAt else old(rows)[id].nextRetryAt)
                && rows[id].maxAttempts == old(rows)[id].maxAttempts
    {
      if id !in rows {
        return;
      }
      var d := rows[id].(attempts := rows[id].attempts + 1, updatedAt := now);
      if !err && code >= 200 && code < 300 {
        rows := rows[id := d.(status := Delivered)];
        return;
      }
      var attemptsMade := attempts + 1;
      if attemptsMade >= maxAttempts {
        rows := rows[id := d.(status := Undeliverable)];
        return;
      }
      rows := rows[id := d.(status := Waiting, nextRetryAt := retryAt)];
    }
  }
}
