/** internal/scheduler/dispatcher.go over schedule_repo.go: cron schedules are fired and
    advanced. Times are whole seconds, the grain of a cron instant and of the key. */
module Cron {
  import opened Tasks
  import opened JobRepository

  /** What the cron library promises of Next: the least match strictly after its argument. */
  ghost predicate LeastMatch(next: int -> int, matches: int -> bool) {
    forall t :: t < next(t) && matches(next(t)) && forall m :: t < m < next(t) ==> !matches(m)
  }

  /** The least match that is after `from` and not before `now`. */
  ghost predicate IsNextRun(matches: int -> bool, from: int, now: int, r: int) {
    && matches(r) && from < r && now <= r
    && forall m :: matches(m) && from < m && now <= m ==> r <= m
  }

  function NextRun(next: int -> int, from: int, now: int): int
    requires forall t :: t < next(t)
    decreases if from < now then now - from else 0
  {
    var n := next(from);
    if n < now then NextRun(next, n, now) else n
  }

  lemma {:induction false} NextRunIsLeast(next: int -> int, matches: int -> bool, from: int, now: int)
    requires LeastMatch(next, matches)
    ensures IsNextRun(matches, from, now, NextRun(next, from, now))
    decreases if from < now then now - from else 0
  {
    if next(from) < now { NextRunIsLeast(next, matches, next(from), now); }
  }

  /** computeNext: missed runs are skipped. */
  method ComputeNext(next: int -> int, ghost matches: int -> bool, nextRunAt: int, now: int) returns (r: int)
    requires LeastMatch(next, matches)
    ensures IsNextRun(matches, nextRunAt, now, r) && r == NextRun(next, nextRunAt, now)
  {
    r := next(nextRunAt);
    while r < now
      invariant nextRunAt < r
      invariant NextRun(next, nextRunAt, now) == if r < now then NextRun(next, r, now) else r
      decreases now - r
    {
      r := next(r);
    }
    NextRunIsLeast(next, matches, nextRunAt, now);
  }

  // ---- schedules ----

  /** `fired` lists the instants of the jobs this schedule has inserted. */
  datatype Schedule = Schedule(next: int -> int, nextRunAt: int, paused: bool, fired: seq<int>)

  /** idempotency_key "sched:<id>:<unix>" of the schedule's owner. Nothing reserves it: the
      owner may submit a job of their own under the same key. */
  datatype Key = Key(schedule: Id, instant: int)

  /** `jobs` holds the taken keys; `chosen` remembers which of them the owner submitted. */
  datatype Store = Store(schedules: map<Id, Schedule>, jobs: set<Key>, chosen: set<Key>)

  predicate IsDue(s: Store, id: Id, now: int) {
    id in s.schedules && !s.schedules[id].paused && s.schedules[id].nextRunAt <= now
  }

  ghost predicate Ticks(s: Schedule) {
    forall t :: t < s.next(t)
  }

  ghost predicate AllTick(s: Store) {
    forall id :: id in s.schedules ==> Ticks(s.schedules[id])
  }

  /** One schedule of the batch: a job unless credits are refused, and next_run_at advances.
      A taken key is a unique violation, which aborts the transaction. */
  ghost function FireOne(s: Store, id: Id, now: int, credits: bool): Option<Store>
    requires id in s.schedules && Ticks(s.schedules[id])
  {
    var d := s.schedules[id];
    var key := Key(id, d.nextRunAt);
    if credits && key in s.jobs then None
    else Some(s.(schedules := s.schedules[id := d.(nextRunAt := NextRun(d.next, d.nextRunAt, now),
                                                   fired := if credits then d.fired + [d.nextRunAt] else d.fired)],
                 jobs := if credits then s.jobs + {key} else s.jobs))
  }

  /** The batch is one transaction: a schedule that cannot fire undoes the others. */
  ghost function FireEach(s: Store, picked: seq<Id>, now: int, credits: Id -> bool): (r: Option<Store>)
    requires AllTick(s)
    ensures r.Some? ==> AllTick(r.value) && r.value.schedules.Keys == s.schedules.Keys && r.value.chosen == s.chosen
  {
    if picked == [] then Some(s)
    else
      var n := |picked| - 1;
      match FireEach(s, picked[..n], now, credits)
      case None => None
      case Some(before) =>
        if picked[n] in before.schedules then FireOne(before, picked[n], now, credits(picked[n])) else Some(before)
  }

  datatype Action =
    | Create(id: Id, next: int -> int, now: int)
    | SetPaused(id: Id, paused: bool)
    | Submit(key: Key)                                            // CreateJob with that idempotency key
    | Batch(picked: seq<Id>, now: int, credits: Id -> bool)       // ClaimAndFire

  ghost predicate Enabled(s: Store, a: Action) {
    match a
    case Create(id, next, _) => id !in s.schedules && forall t :: t < next(t)
    case SetPaused(id, _) => id in s.schedules
    case Submit(key) => key !in s.jobs
    case Batch(picked, now, _) => AllTick(s) && Distinct(picked) && forall id :: id in picked ==> IsDue(s, id, now)
  }

  ghost function Apply(s: Store, a: Action): Store
    requires Enabled(s, a)
  {
    match a
    case Create(id, next, now) => s.(schedules := s.schedules[id := Schedule(next, next(now), false, [])])
    case SetPaused(id, p) => s.(schedules := s.schedules[id := s.schedules[id].(paused := p)])
    case Submit(key) => s.(jobs := s.jobs + {key}, chosen := s.chosen + {key})
    case Batch(picked, now, credits) =>
      var fired := FireEach(s, picked, now, credits);
      if fired.Some? then fired.value else s
  }

  ghost predicate Valid(s: Store, run: seq<Action>)
    decreases |run|
  {
    run == [] || (Enabled(s, run[0]) && Valid(Apply(s, run[0]), run[1..]))
  }

  ghost function After(s: Store, run: seq<Action>): Store
    requires Valid(s, run)
    decreases |run|
  {
    if run == [] then s else After(Apply(s, run[0]), run[1..])
  }

  function Empty(): Store {
    Store(map[], {}, {})
  }

  ghost predicate ScheduleOk(d: Schedule) {
    && Ticks(d)
    && (forall i, j :: 0 <= i < j < |d.fired| ==> d.fired[i] < d.fired[j])
    && (forall t :: t in d.fired ==> t < d.nextRunAt)
    && (exists t :: d.nextRunAt == d.next(t))
    && (forall t :: t in d.fired ==> exists u :: t == d.next(u))
  }

  predicate HasFired(s: Store, k: Key) {
    k.schedule in s.schedules && k.instant in s.schedules[k.schedule].fired
  }

  /** The taken keys are those the schedules fired under and those the owners chose, and
      none is both. */
  ghost predicate Inv(s: Store) {
    && (forall id :: id in s.schedules ==> ScheduleOk(s.schedules[id]))
    && (forall k :: k in s.jobs <==> HasFired(s, k) || k in s.chosen)
    && (forall k :: k in s.chosen ==> !HasFired(s, k))
  }

  lemma {:induction false} NextRunAdvances(next: int -> int, from: int, now: int)
    requires forall t :: t < next(t)
    ensures from < NextRun(next, from, now) && exists t :: NextRun(next, from, now) == next(t)
    decreases if from < now then now - from else 0
  {
    if next(from) < now { NextRunAdvances(next, next(from), now); }
  }

  /** The owner has a job under the key of the schedule's next instant. */
  predicate Blocked(s: Store, id: Id) {
    id in s.schedules && Key(id, s.schedules[id].nextRunAt) in s.chosen
  }

  /** A schedule fails to fire exactly when credits allow it and its owner took its key. */
  lemma AbortsExactlyIfBlocked(s: Store, id: Id, now: int, credits: bool)
    requires Inv(s) && id in s.schedules
    ensures Ticks(s.schedules[id])
    ensures FireOne(s, id, now, credits).None? <==> credits && Blocked(s, id)
  {
    assert ScheduleOk(s.schedules[id]);
    assert !HasFired(s, Key(id, s.schedules[id].nextRunAt));
  }

  lemma FiredIsOk(d: Schedule, now: int, credits: bool)
    requires ScheduleOk(d)
    ensures ScheduleOk(d.(nextRunAt := NextRun(d.next, d.nextRunAt, now),
                          fired := if credits then d.fired + [d.nextRunAt] else d.fired))
  {
    assert forall i :: 0 <= i < |d.fired| ==> d.fired[i] in d.fired;
    NextRunAdvances(d.next, d.nextRunAt, now);
  }

  /** Firing moves a schedule to the next match not in the past, also when credits are
      refused, and leaves no match in between for a later round. Only a blocked schedule
      does not fire, and only if credits allow it. */
  lemma FiringAdvances(s: Store, id: Id, now: int, credits: bool, matches: int -> bool)
    requires Inv(s) && id in s.schedules && LeastMatch(s.schedules[id].next, matches)
    ensures var fired := FireOne(s, id, now, credits);
            && (fired.None? <==> credits && Blocked(s, id))
            && (fired.Some? ==>
                  && id in fired.value.schedules
                  && (var d, d' := s.schedules[id], fired.value.schedules[id];
                      && IsNextRun(matches, d.nextRunAt, now, d'.nextRunAt)
                      && (|d'.fired| > |d.fired| <==> credits) && (credits ==> d'.fired == d.fired + [d.nextRunAt])))
  {
    AbortsExactlyIfBlocked(s, id, now, credits);
    NextRunIsLeast(s.schedules[id].next, matches, s.schedules[id].nextRunAt, now);
  }

  lemma OneFireKeepsInv(s: Store, id: Id, now: int, credits: bool)
    requires Inv(s) && id in s.schedules && Ticks(s.schedules[id]) && FireOne(s, id, now, credits).Some?
    ensures Inv(FireOne(s, id, now, credits).value)
  {
    var s' := FireOne(s, id, now, credits).value;
    FiredIsOk(s.schedules[id], now, credits);
    forall k ensures HasFired(s', k) <==> HasFired(s, k) || (credits && k == Key(id, s.schedules[id].nextRunAt)) {
    }
  }

  lemma {:induction false} BatchKeepsInv(s: Store, picked: seq<Id>, now: int, credits: Id -> bool)
    requires Inv(s) && AllTick(s)
    ensures var fired := FireEach(s, picked, now, credits);
            fired.Some? ==> Inv(fired.value)
  {
    if picked == [] {
    } else {
      var n := |picked| - 1;
      BatchKeepsInv(s, picked[..n], now, credits);
      var before := FireEach(s, picked[..n], now, credits);
      if before.Some? && picked[n] in before.value.schedules && FireEach(s, picked, now, credits).Some? {
        OneFireKeepsInv(before.value, picked[n], now, credits(picked[n]));
      }
    }
  }

  lemma {:induction false} BatchLeavesOthers(s: Store, picked: seq<Id>, now: int, credits: Id -> bool, id: Id)
    requires AllTick(s) && id in s.schedules && id !in picked
    ensures var fired := FireEach(s, picked, now, credits);
            fired.Some? ==> fired.value.schedules[id] == s.schedules[id]
  {
    if picked == [] {
    } else {
      var n := |picked| - 1;
      assert id !in picked[..n] && id != picked[n];
      BatchLeavesOthers(s, picked[..n], now, credits, id);
    }
  }

  lemma StepKeepsInv(s: Store, a: Action)
    requires Inv(s) && Enabled(s, a)
    ensures Inv(Apply(s, a))
  {
    match a
    case Create(id, next, now) =>
      assert forall k :: HasFired(Apply(s, a), k) <==> HasFired(s, k);
    case SetPaused(id, _) =>
      assert forall k :: HasFired(Apply(s, a), k) <==> HasFired(s, k);
    case Submit(key) =>
      assert forall k :: HasFired(Apply(s, a), k) <==> HasFired(s, k);
    case Batch(picked, now, credits) =>
      BatchKeepsInv(s, picked, now, credits);
  }

  lemma {:induction false} RunKeepsInv(s: Store, run: seq<Action>)
    requires Inv(s) && Valid(s, run)
    ensures Inv(After(s, run))
    decreases |run|
  {
    if run == [] {
    } else {
      StepKeepsInv(s, run[0]);
      RunKeepsInv(Apply(s, run[0]), run[1..]);
    }
  }

  /** Over any run, with pauses, downtime, refused credits and jobs submitted under any key,
      the instants a schedule fires at are cron instants and strictly increase; a key of the
      schedule is taken by the one job fired at that instant or by one its owner submitted,
      never by both; and the key of the next instant is taken exactly if it was chosen. */
  lemma EachInstantFiresOnce(run: seq<Action>, id: Id)
    requires Valid(Empty(), run) && id in After(Empty(), run).schedules
    ensures var s := After(Empty(), run);
            var d := s.schedules[id];
            && (forall i, j :: 0 <= i < j < |d.fired| ==> d.fired[i] < d.fired[j])
            && (forall t :: t in d.fired ==> exists u :: t == d.next(u))
            && (forall t :: Key(id, t) in s.jobs <==> (t in d.fired || Key(id, t) in s.chosen))
            && (forall t :: t in d.fired ==> Key(id, t) !in s.chosen)
            && (Key(id, d.nextRunAt) in s.jobs <==> Blocked(s, id))
  {
    RunKeepsInv(Empty(), run);
    var s := After(Empty(), run);
    var d := s.schedules[id];
    assert ScheduleOk(d);
    assert forall t :: HasFired(s, Key(id, t)) <==> t in d.fired;
  }

  // ---- batches ----

  /** Some schedule of the batch would insert a job under a key its owner took. */
  predicate Collides(s: Store, picked: seq<Id>, credits: Id -> bool) {
    exists id :: id in picked && credits(id) && Blocked(s, id)
  }

  /** A batch is undone if and only if one of its schedules is blocked and has credits. */
  lemma {:induction false} BatchAbortsExactly(s: Store, picked: seq<Id>, now: int, credits: Id -> bool)
    requires Inv(s) && AllTick(s) && Distinct(picked) && forall id :: id in picked ==> id in s.schedules
    ensures FireEach(s, picked, now, credits).None? <==> Collides(s, picked, credits)
  {
    if picked == [] {
    } else {
      var n := |picked| - 1;
      var init, id := picked[..n], picked[n];
      assert picked == init + [id] && id in picked && id !in init;
      BatchAbortsExactly(s, init, now, credits);
      BatchKeepsInv(s, init, now, credits);
      BatchLeavesOthers(s, init, now, credits, id);
      assert Collides(s, picked, credits) <==> Collides(s, init, credits) || (credits(id) && Blocked(s, id));
      var before := FireEach(s, init, now, credits);
      if before.Some? {
        assert before.value.schedules[id] == s.schedules[id];
        AbortsExactlyIfBlocked(before.value, id, now, credits(id));
      }
    }
  }

  /** What decides whether the schedule keeps its place. */
  ghost predicate SamePlace(d: Schedule, d': Schedule) {
    d'.next == d.next && d'.nextRunAt == d.nextRunAt && d'.fired == d.fired
  }

  /** The batch takes the schedule past the instant its owner took: its credits are refused,
      and no other schedule undoes the batch. */
  predicate Releases(s: Store, a: Action, id: Id) {
    a.Batch? && id in a.picked && !a.credits(id) && !Collides(s, a.picked, a.credits)
  }

  lemma OneFireAdvances(s: Store, last: Id, now: int, credits: bool, id: Id)
    requires last in s.schedules && Ticks(s.schedules[last]) && FireOne(s, last, now, credits).Some?
    requires id in s.schedules
    ensures var s' := FireOne(s, last, now, credits).value;
            && id in s'.schedules && s.schedules[id].nextRunAt <= s'.schedules[id].nextRunAt
            && (id == last ==> s.schedules[id].nextRunAt < s'.schedules[id].nextRunAt)
  {
    NextRunAdvances(s.schedules[last].next, s.schedules[last].nextRunAt, now);
  }

  lemma {:induction false} BatchAdvances(s: Store, picked: seq<Id>, now: int, credits: Id -> bool, id: Id)
    requires AllTick(s) && id in s.schedules && FireEach(s, picked, now, credits).Some?
    ensures var s' := FireEach(s, picked, now, credits).value;
            && s.schedules[id].nextRunAt <= s'.schedules[id].nextRunAt
            && (id in picked ==> s.schedules[id].nextRunAt < s'.schedules[id].nextRunAt)
  {
    if picked == [] {
    } else {
      var n := |picked| - 1;
      var init, last := picked[..n], picked[n];
      assert picked == init + [last];
      BatchAdvances(s, init, now, credits, id);
      var before := FireEach(s, init, now, credits).value;
      if last in before.schedules { OneFireAdvances(before, last, now, credits(last), id); }
    }
  }

  /** A blocked schedule moves on with exactly those batches; every other step leaves it at
      the instant its owner took. */
  lemma BlockedMovesExactlyIfReleased(s: Store, a: Action, id: Id)
    requires Inv(s) && Enabled(s, a) && Blocked(s, id)
    ensures id in Apply(s, a).schedules
    ensures SamePlace(s.schedules[id], Apply(s, a).schedules[id]) <==> !Releases(s, a, id)
  {
    if a.Batch? {
      BatchAbortsExactly(s, a.picked, a.now, a.credits);
      if id !in a.picked {
        BatchLeavesOthers(s, a.picked, a.now, a.credits, id);
      } else if a.credits(id) {
        assert Collides(s, a.picked, a.credits);
      } else if FireEach(s, a.picked, a.now, a.credits).Some? {
        BatchAdvances(s, a.picked, a.now, a.credits, id);
      }
    }
  }

  /** No batch of the run finds the schedule's credits refused. */
  ghost predicate NeverRefused(run: seq<Action>, id: Id) {
    forall a :: a in run && a.Batch? && id in a.picked ==> a.credits(id)
  }

  lemma BlockedStays(s: Store, a: Action, id: Id)
    requires Inv(s) && Enabled(s, a) && Blocked(s, id) && (a.Batch? && id in a.picked ==> a.credits(id))
    ensures Blocked(Apply(s, a), id) && SamePlace(s.schedules[id], Apply(s, a).schedules[id])
  {
    BlockedMovesExactlyIfReleased(s, a, id);
  }

  /** As long as its credits are not refused, a blocked schedule stays where it is, and every
      batch that holds it is undone, with all the schedules in it. */
  lemma {:induction false} BlockedUndoesItsBatches(s: Store, run: seq<Action>, id: Id, a: Action)
    requires Inv(s) && Valid(s, run) && Blocked(s, id) && NeverRefused(run, id)
    ensures id in After(s, run).schedules && SamePlace(s.schedules[id], After(s, run).schedules[id])
    ensures Enabled(After(s, run), a) && a.Batch? && id in a.picked && a.credits(id) ==>
              Apply(After(s, run), a) == After(s, run)
    decreases |run|
  {
    if run == [] {
      if Enabled(s, a) && a.Batch? && id in a.picked && a.credits(id) {
        BatchAbortsExactly(s, a.picked, a.now, a.credits);
        assert Collides(s, a.picked, a.credits);
      }
    } else {
      assert run[0] in run;
      BlockedStays(s, run[0], id);
      StepKeepsInv(s, run[0]);
      BlockedUndoesItsBatches(Apply(s, run[0]), run[1..], id, a);
    }
  }

  // ---- pauses ----

  /** A batch may hold a schedule exactly if it is not paused and its next run has come. */
  lemma FiresExactlyIfDue(s: Store, id: Id, now: int, credits: Id -> bool)
    requires AllTick(s)
    ensures Enabled(s, Batch([id], now, credits))
            <==> id in s.schedules && !s.schedules[id].paused && s.schedules[id].nextRunAt <= now
  {
    assert id in [id];
  }

  lemma {:induction false} BatchTakesOwnKeys(s: Store, picked: seq<Id>, now: int, credits: Id -> bool, k: Key)
    requires AllTick(s) && k.schedule !in picked
    ensures var fired := FireEach(s, picked, now, credits);
            fired.Some? ==> (k in fired.value.jobs <==> k in s.jobs)
  {
    if picked == [] {
    } else {
      var n := |picked| - 1;
      assert k.schedule !in picked[..n] && k.schedule != picked[n];
      BatchTakesOwnKeys(s, picked[..n], now, credits, k);
    }
  }

  /** Neither the place of the schedule nor its keys change, but for those submitted. */
  ghost predicate Rests(s: Store, s': Store, id: Id) {
    && id in s.schedules && id in s'.schedules && SamePlace(s.schedules[id], s'.schedules[id])
    && s'.schedules[id].paused
    && forall t :: Key(id, t) in s'.jobs && Key(id, t) !in s'.chosen ==> Key(id, t) in s.jobs
  }

  lemma PausedStep(s: Store, a: Action, id: Id)
    requires Enabled(s, a) && id in s.schedules && s.schedules[id].paused && a != SetPaused(id, false)
    requires s.chosen <= s.jobs
    ensures Rests(s, Apply(s, a), id) && Apply(s, a).chosen <= Apply(s, a).jobs && s.chosen <= Apply(s, a).chosen
  {
    if a.Batch? {
      assert id !in a.picked;
      BatchLeavesOthers(s, a.picked, a.now, a.credits, id);
      forall t ensures Key(id, t) in Apply(s, a).jobs <==> Key(id, t) in s.jobs {
        BatchTakesOwnKeys(s, a.picked, a.now, a.credits, Key(id, t));
      }
      ChosenStayTaken(s, a);
    }
  }

  lemma ChosenStayTaken(s: Store, a: Action)
    requires Enabled(s, a) && a.Batch? && s.chosen <= s.jobs
    ensures Apply(s, a).chosen <= Apply(s, a).jobs
  {
    BatchOnlyAdds(s, a.picked, a.now, a.credits);
  }

  lemma {:induction false} BatchOnlyAdds(s: Store, picked: seq<Id>, now: int, credits: Id -> bool)
    requires AllTick(s)
    ensures var fired := FireEach(s, picked, now, credits);
            fired.Some? ==> s.jobs <= fired.value.jobs
  {
    if picked == [] {
    } else {
      BatchOnlyAdds(s, picked[..|picked| - 1], now, credits);
    }
  }

  /** Over every run in which nobody resumes it, a paused schedule stays at its next run,
      fires at no instant, and no key of it is taken but by a job its owner submits. */
  lemma {:induction false} PausedNeverFires(s: Store, run: seq<Action>, id: Id)
    requires Inv(s) && Valid(s, run) && id in s.schedules && s.schedules[id].paused
    requires forall a :: a in run ==> a != SetPaused(id, false)
    ensures Rests(s, After(s, run), id)
    decreases |run|
  {
    if run == [] {
    } else {
      assert run[0] in run;
      var s1 := Apply(s, run[0]);
      PausedStep(s, run[0], id);
      StepKeepsInv(s, run[0]);
      assert forall a :: a in run[1..] ==> a in run;
      PausedNeverFires(s1, run[1..], id);
      ChosenIsKept(s1, run[1..]);
    }
  }

  lemma {:induction false} ChosenIsKept(s: Store, run: seq<Action>)
    requires Valid(s, run)
    ensures s.chosen <= After(s, run).chosen
    decreases |run|
  {
    if run == [] {
    } else {
      ChosenIsKept(Apply(s, run[0]), run[1..]);
    }
  }

  lemma Prepend(s: Store, a: Action, rest: seq<Action>) returns (run: seq<Action>)
    requires Enabled(s, a) && Valid(Apply(s, a), rest)
    ensures Valid(s, run) && After(s, run) == After(Apply(s, a), rest)
  {
    run := [a] + rest;
    assert run[1..] == rest;
  }

  /** Two schedules, and a job submitted under the next key of the first. */
  function Scene(next: int -> int): Store {
    var d, key := Schedule(next, next(0), false, []), Key(0, next(0));
    Store(map[0 := d, 1 := d], {key}, {key})
  }

  lemma ReachScene(next: int -> int) returns (run: seq<Action>)
    requires forall t :: t < next(t)
    ensures Valid(Empty(), run) && After(Empty(), run) == Scene(next)
  {
    var key := Key(0, next(0));
    var s1 := Apply(Empty(), Create(0, next, 0));
    var s2 := Apply(s1, Create(1, next, 0));
    assert Apply(s2, Submit(key)) == Scene(next);
    run := Prepend(s2, Submit(key), []);
    run := Prepend(s1, Create(1, next, 0), run);
    run := Prepend(Empty(), Create(0, next, 0), run);
  }

  /** The batch of both is undone, although the second alone would fire. */
  lemma SubmittedKeyUndoesABatch(next: int -> int) returns (run: seq<Action>)
    requires forall t :: t < next(t)
    ensures Valid(Empty(), run)
    ensures var s := After(Empty(), run);
            var all := Batch([1, 0], next(0), (id: Id) => true);
            && Enabled(s, all) && FireEach(s, all.picked, all.now, all.credits).None? && Apply(s, all) == s
            && FireEach(s, [1], all.now, all.credits).Some?
  {
    run := ReachScene(next);
    RunKeepsInv(Empty(), run);
    var s, credits := Scene(next), (id: Id) => true;
    assert Blocked(s, 0) && !Blocked(s, 1);
    assert 0 in [1, 0] && Collides(s, [1, 0], credits);
    BatchAbortsExactly(s, [1, 0], next(0), credits);
    BatchAbortsExactly(s, [1], next(0), credits);
  }

  // ---- schedule_repo.go: ClaimAndFire ----

  predicate EarlierRun(schedules: map<Id, Schedule>, a: Id, b: Id) {
    a in schedules && b in schedules ==> schedules[a].nextRunAt <= schedules[b].nextRunAt
  }

  function ByRun(schedules: map<Id, Schedule>): (Id, Id) -> bool {
    (a, b) => EarlierRun(schedules, a, b)
  }

  function DueSchedules(s: Store, now: int): set<Id> {
    set id | id in s.schedules && IsDue(s, id, now)
  }

  lemma FireNext(s: Store, picked: seq<Id>, k: nat, now: int, credits: Id -> bool)
    requires AllTick(s) && k < |picked|
    ensures var before := FireEach(s, picked[..k], now, credits);
            FireEach(s, picked[..k + 1], now, credits) ==
            if before.Some? && picked[k] in before.value.schedules
            then FireOne(before.value, picked[k], now, credits(picked[k])) else before
  {
    assert picked[..k + 1][..k] == picked[..k];
  }

  lemma {:induction false} AbortSticks(s: Store, picked: seq<Id>, k: nat, now: int, credits: Id -> bool)
    requires AllTick(s) && k <= |picked| && FireEach(s, picked[..k], now, credits).None?
    ensures FireEach(s, picked, now, credits).None?
    decreases |picked| - k
  {
    if k == |picked| {
      assert picked[..k] == picked;
    } else {
      FireNext(s, picked, k, now, credits);
      AbortSticks(s, picked, k + 1, now, credits);
    }
  }

  ghost predicate AllMatch(s: Store, matches: Id -> int -> bool) {
    forall id :: id in s.schedules ==> LeastMatch(s.schedules[id].next, matches(id))
  }

  /** The transaction's own copy after schedule `id`, or None if the insert fails. */
  method FireSchedule(s: Store, id: Id, now: int, credits: bool, ghost matches: int -> bool) returns (r: Option<Store>)
    requires id in s.schedules && LeastMatch(s.schedules[id].next, matches)
    ensures r == FireOne(s, id, now, credits)
    ensures r.Some? ==>
              && id in r.value.schedules
              && IsNextRun(matches, s.schedules[id].nextRunAt, now, r.value.schedules[id].nextRunAt)
  {
    var d, jobs := s.schedules[id], s.jobs;
    var next := ComputeNext(d.next, matches, d.nextRunAt, now);
    if credits {
      var key := Key(id, d.nextRunAt);
      if key in jobs {
        return None;
      }
      jobs := jobs + {key};
      d := d.(fired := d.fired + [d.nextRunAt]);
    }
    return Some(s.(schedules := s.schedules[id := d.(nextRunAt := next)], jobs := jobs));
  }

  lemma FireKeepsMatch(s: Store, id: Id, now: int, credits: bool, matches: Id -> int -> bool)
    requires id in s.schedules && Ticks(s.schedules[id]) && AllMatch(s, matches) && FireOne(s, id, now, credits).Some?
    ensures AllMatch(FireOne(s, id, now, credits).value, matches)
  {
  }

  /** The loop over the claimed schedules. */
  method FireBatch(s: Store, picked: seq<Id>, now: int, credits: Id -> bool, ghost matches: Id -> int -> bool)
    returns (r: Option<Store>)
    requires AllTick(s) && AllMatch(s, matches)
    ensures r == FireEach(s, picked, now, credits)
  {
    r := Some(s);
    for k := 0 to |picked|
      invariant r.Some? && AllMatch(r.value, matches)
      invariant r == FireEach(s, picked[..k], now, credits)
    {
      FireNext(s, picked, k, now, credits);
      var id, before := picked[k], r.value;
      if id in before.schedules {
        r := FireSchedule(before, id, now, credits(id), matches(id));
        if r.None? {
          AbortSticks(s, picked, k + 1, now, credits);
          return;
        }
        FireKeepsMatch(before, id, now, credits(id), matches);
      }
    }
    assert picked[..|picked|] == picked;
  }

  lemma DueSchedulesInFields(s: Store, picked: seq<Id>, limit: nat, now: int)
    requires FirstOf(ByRun(s.schedules), DueSchedules(s, now), picked, limit)
    ensures |picked| <= limit
    ensures forall id :: id in picked ==>
              id in s.schedules && !s.schedules[id].paused && s.schedules[id].nextRunAt <= now
    ensures forall id ::
              && id in s.schedules && id !in picked && !s.schedules[id].paused && s.schedules[id].nextRunAt <= now ==>
                && |picked| == limit
                && forall p :: p in picked ==> s.schedules[p].nextRunAt <= s.schedules[id].nextRunAt
  {
    forall id | id in picked ensures id in DueSchedules(s, now) {
      assert id in Elements(picked);
    }
    forall id | id in DueSchedules(s, now) && id !in picked
      ensures |picked| == limit && forall p :: p in picked ==> ByRun(s.schedules)(p, id)
    {
      FirstOfFills(ByRun(s.schedules), DueSchedules(s, now), picked, limit, id);
    }
  }

  lemma BatchInFields(s: Store, picked: seq<Id>, now: int, credits: Id -> bool)
    requires AllTick(s) && forall id :: id in picked ==> id in s.schedules
    ensures var fired := FireEach(s, picked, now, credits);
            fired.Some? ==>
              && (forall id :: id in s.schedules && id !in picked ==>
                    id in fired.value.schedules && fired.value.schedules[id] == s.schedules[id])
              && (forall id :: id in picked ==>
                    id in fired.value.schedules && s.schedules[id].nextRunAt < fired.value.schedules[id].nextRunAt)
  {
    if FireEach(s, picked, now, credits).Some? {
      var s' := FireEach(s, picked, now, credits).value;
      forall id | id in s.schedules && id !in picked ensures id in s'.schedules && s'.schedules[id] == s.schedules[id] {
        BatchLeavesOthers(s, picked, now, credits, id);
      }
      forall id | id in picked
        ensures id in s'.schedules && s.schedules[id].nextRunAt < s'.schedules[id].nextRunAt
      {
        BatchAdvances(s, picked, now, credits, id);
      }
    }
  }

  class ScheduleRepository {
    var schedules: map<Id, Schedule>
    var jobs: set<Key>
    var chosen: set<Key>   // history only

    constructor ()
      ensures Contents() == Empty()
    {
      schedules, jobs, chosen := map[], {}, {};
    }

    ghost function Contents(): Store
      reads this
    {
      Store(schedules, jobs, chosen)
    }

    /** CreateJob under a key of this shape: refused if the key is taken. */
    method SubmitJob(key: Key) returns (ok: bool)
      modifies this
      ensures ok <==> key !in old(jobs)
      ensures Contents() == if ok then Apply(old(Contents()), Submit(key)) else old(Contents())
    {
      ok := key !in jobs;
      if ok { jobs, chosen := jobs + {key}, chosen + {key}; }
    }

    /** Commits the whole batch, or changes nothing when an insert hits a taken key. */
    method ClaimAndFire(limit: nat, now: int, credits: Id -> bool, ghost matches: Id -> int -> bool)
      returns (picked: seq<Id>, ok: bool)
      requires AllTick(Contents()) && AllMatch(Contents(), matches)
      modifies this
      ensures FirstOf(ByRun(old(schedules)), DueSchedules(old(Contents()), now), picked, limit)
      ensures var fired := FireEach(old(Contents()), picked, now, credits);
              ok == fired.Some? && Contents() == if ok then fired.value else old(Contents())
      // in fields: what is picked is due and not paused, and a due schedule is left out only
      // for others that are due no later
      ensures |picked| <= limit
      ensures forall id :: id in picked ==>
                id in old(schedules) && !old(schedules)[id].paused && old(schedules)[id].nextRunAt <= now
      ensures forall id ::
                && id in old(schedules) && id !in picked
                && !old(schedules)[id].paused && old(schedules)[id].nextRunAt <= now ==>
                  && |picked| == limit
                  && forall p :: p in picked ==> old(schedules)[p].nextRunAt <= old(schedules)[id].nextRunAt
      ensures forall id :: id in old(schedules) && id !in picked ==>
                id in schedules && SamePlace(old(schedules)[id], schedules[id])
      ensures ok ==> forall id :: id in picked ==>
                id in schedules && schedules[id].nextRunAt > old(schedules)[id].nextRunAt
    {
      var due := set id | id in schedules && !schedules[id].paused && schedules[id].nextRunAt <= now;
      assert due == DueSchedules(Contents(), now);
      picked := SelectFirst(ByRun(schedules), due, limit);
      DueSchedulesInFields(Contents(), picked, limit, now);
      BatchInFields(Contents(), picked, now, credits);
      var result := FireBatch(Store(schedules, jobs, chosen), picked, now, credits, matches);
      ok := result.Some?;
      if ok {
        schedules, jobs := result.value.schedules, result.value.jobs;
      }
    }
  }
}
