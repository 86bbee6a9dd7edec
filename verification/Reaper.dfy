/** internal/scheduler/reaper.go: a cycle runs the two stale statements with a limit of
    100 each. The batch statements are runs of single-row protocol steps, and rows that
    are stale when a cycle starts cannot be starved by rows that go stale later. */
module Reaper {
  import opened Tasks
  import opened Lease
  import opened JobRepository

  const BATCH: nat := 100

  method Reap(repo: Repository, now: int, timeout: int) returns (retried: seq<Id>, failed: seq<Id>)
    modifies repo`rows, repo`beats
    ensures FirstOf(ByBeat(old(repo.Contents())), Retryable(old(repo.Contents()), now - timeout), retried, 100)
    ensures var mid := RetryAll(old(repo.Contents()), retried);
            && FirstOf(ByBeat(mid), Exhausted(mid, now - timeout), failed, 100)
            && repo.Contents() == FailAll(mid, failed)
  {
    var cutoff := now - timeout;
    retried := repo.RescheduleStale(cutoff, BATCH);
    failed := repo.FailStale(cutoff, BATCH);
  }

  // ---- what the statements select is what the protocol allows ----

  /** A row is a candidate of Claim exactly if the protocol lets it be claimed: it is pending
      and due. */
  lemma DueExactlyIfClaimable(cfg: Config, s: State, id: Id)
    ensures id in DueSet(s.db, s.now) <==> Enabled(cfg, s, Claim(id))
    ensures id in DueSet(s.db, s.now)
            <==> id in s.db.rows && s.db.rows[id].status == Pending && s.db.rows[id].scheduledAt <= s.now
  {
  }

  /** A row is a candidate of the two stale statements exactly if the protocol lets the
      reaper take it. */
  lemma StaleExactlyIfReapable(cfg: Config, s: State, id: Id, cutoff: int)
    requires cutoff <= s.now - cfg.cutoff
    ensures id in Retryable(s.db, cutoff) <==> Enabled(cfg, s, ReapRetry(id, cutoff))
    ensures id in Exhausted(s.db, cutoff) <==> Enabled(cfg, s, ReapFail(id, cutoff))
    ensures id in Retryable(s.db, cutoff) + Exhausted(s.db, cutoff)
            <==> && id in s.db.rows && s.db.rows[id].status == Running
                 && (id in s.db.beats ==> s.db.beats[id] < cutoff)
  {
  }

  // ---- batches are runs ----

  function Claims(picked: seq<Id>): seq<Action> {
    seq(|picked|, i requires 0 <= i < |picked| => Claim(picked[i]))
  }

  function Retries(picked: seq<Id>, cutoff: int): seq<Action> {
    seq(|picked|, i requires 0 <= i < |picked| => ReapRetry(picked[i], cutoff))
  }

  function Failures(picked: seq<Id>, cutoff: int): seq<Action> {
    seq(|picked|, i requires 0 <= i < |picked| => ReapFail(picked[i], cutoff))
  }

  lemma RetryLeavesOthers(db: Db, picked: seq<Id>, id: Id, cutoff: int)
    requires id !in picked && id in Retryable(db, cutoff)
    ensures id in Retryable(RetryAll(db, picked), cutoff)
  {
    RetryAllEffect(db, picked);
  }

  lemma RetryExtends(cfg: Config, s: State, init: seq<Id>, last: Id, cutoff: int)
    requires cutoff <= s.now - cfg.cutoff
    requires Valid(cfg, s, Retries(init, cutoff))
    requires After(cfg, s, Retries(init, cutoff)) == s.(db := RetryAll(s.db, init))
    requires last in Retryable(RetryAll(s.db, init), cutoff)
    ensures Valid(cfg, s, Retries(init + [last], cutoff))
    ensures After(cfg, s, Retries(init + [last], cutoff)) == s.(db := RetryAll(s.db, init + [last]))
  {
    var a := ReapRetry(last, cutoff);
    assert Retries(init + [last], cutoff) == Retries(init, cutoff) + [a];
    assert (init + [last])[..|init|] == init;
    RunThen(cfg, s, Retries(init, cutoff), a);
  }

  lemma {:induction false} RetryBatchIsRun(cfg: Config, s: State, picked: seq<Id>, cutoff: int)
    requires cutoff <= s.now - cfg.cutoff
    requires Distinct(picked) && Elements(picked) <= Retryable(s.db, cutoff)
    ensures Valid(cfg, s, Retries(picked, cutoff))
    ensures After(cfg, s, Retries(picked, cutoff)) == s.(db := RetryAll(s.db, picked))
  {
    if picked == [] {
    } else {
      var n := |picked| - 1;
      var init, last := picked[..n], picked[n];
      assert picked == init + [last] && last in picked;
      Append(init, last);
      RetryBatchIsRun(cfg, s, init, cutoff);
      RetryLeavesOthers(s.db, init, last, cutoff);
      RetryExtends(cfg, s, init, last, cutoff);
    }
  }

  lemma FailLeavesOthers(db: Db, picked: seq<Id>, id: Id, cutoff: int)
    requires id !in picked && id in Exhausted(db, cutoff)
    ensures id in Exhausted(FailAll(db, picked), cutoff)
  {
    FailAllEffect(db, picked);
  }

  lemma FailExtends(cfg: Config, s: State, init: seq<Id>, last: Id, cutoff: int)
    requires cutoff <= s.now - cfg.cutoff
    requires Valid(cfg, s, Failures(init, cutoff))
    requires After(cfg, s, Failures(init, cutoff)) == s.(db := FailAll(s.db, init))
    requires last in Exhausted(FailAll(s.db, init), cutoff)
    ensures Valid(cfg, s, Failures(init + [last], cutoff))
    ensures After(cfg, s, Failures(init + [last], cutoff)) == s.(db := FailAll(s.db, init + [last]))
  {
    var a := ReapFail(last, cutoff);
    assert Failures(init + [last], cutoff) == Failures(init, cutoff) + [a];
    assert (init + [last])[..|init|] == init;
    RunThen(cfg, s, Failures(init, cutoff), a);
  }

  lemma {:induction false} FailBatchIsRun(cfg: Config, s: State, picked: seq<Id>, cutoff: int)
    requires cutoff <= s.now - cfg.cutoff
    requires Distinct(picked) && Elements(picked) <= Exhausted(s.db, cutoff)
    ensures Valid(cfg, s, Failures(picked, cutoff))
    ensures After(cfg, s, Failures(picked, cutoff)) == s.(db := FailAll(s.db, picked))
  {
    if picked == [] {
    } else {
      var n := |picked| - 1;
      var init, last := picked[..n], picked[n];
      assert picked == init + [last] && last in picked;
      Append(init, last);
      FailBatchIsRun(cfg, s, init, cutoff);
      FailLeavesOthers(s.db, init, last, cutoff);
      FailExtends(cfg, s, init, last, cutoff);
    }
  }

  lemma {:induction false} ClaimLeavesOthers(db: Db, picked: seq<Id>, next: nat, now: int, id: Id)
    requires id in db.rows && id !in picked
    ensures var db' := ClaimAll(db, picked, next, now);
            id in db'.rows && db'.rows[id] == db.rows[id]
  {
    if picked == [] {
    } else {
      var n := |picked| - 1;
      assert picked == picked[..n] + [picked[n]];
      ClaimLeavesOthers(db, picked[..n], next, now, id);
    }
  }

  predicate Claimed(s: State, picked: seq<Id>, s': State) {
    s'.db == ClaimAll(s.db, picked, s.claims, s.now) && s'.now == s.now && s'.claims == s.claims + |picked|
  }

  lemma ClaimExtends(cfg: Config, s: State, init: seq<Id>, last: Id)
    requires Valid(cfg, s, Claims(init)) && Claimed(s, init, After(cfg, s, Claims(init)))
    requires last in DueSet(After(cfg, s, Claims(init)).db, s.now)
    ensures Valid(cfg, s, Claims(init + [last])) && Claimed(s, init + [last], After(cfg, s, Claims(init + [last])))
  {
    var a := Claim(last);
    assert Claims(init + [last]) == Claims(init) + [a];
    assert (init + [last])[..|init|] == init;
    RunThen(cfg, s, Claims(init), a);
  }

  lemma {:induction false} ClaimBatchIsRun(cfg: Config, s: State, picked: seq<Id>)
    requires Distinct(picked) && Elements(picked) <= DueSet(s.db, s.now)
    ensures Valid(cfg, s, Claims(picked)) && Claimed(s, picked, After(cfg, s, Claims(picked)))
  {
    if picked == [] {
    } else {
      var n := |picked| - 1;
      var init, last := picked[..n], picked[n];
      assert picked == init + [last] && last in picked;
      Append(init, last);
      ClaimBatchIsRun(cfg, s, init);
      ClaimLeavesOthers(s.db, init, s.claims, s.now, last);
      ClaimExtends(cfg, s, init, last);
    }
  }

  // ---- cycles ----

  /** What happens up to and including one cycle: protocol steps, the first statement,
      further steps, and the second statement. */
  datatype Cycle = Cycle(steps: seq<Action>, cutoff: int, retried: seq<Id>, between: seq<Action>, failed: seq<Id>)

  ghost predicate ValidRetry(cfg: Config, s: State, since: int, c: Cycle) {
    && since <= c.cutoff <= s.now - cfg.cutoff
    && FirstOf(ByBeat(s.db), Retryable(s.db, c.cutoff), c.retried, BATCH)
  }

  ghost predicate ValidCycle(cfg: Config, s: State, since: int, c: Cycle) {
    && Valid(cfg, s, c.steps) && ValidRetry(cfg, After(cfg, s, c.steps), since, c)
    && Valid(cfg, Retried(After(cfg, s, c.steps), c), c.between)
    && (var db := After(cfg, Retried(After(cfg, s, c.steps), c), c.between).db;
        FirstOf(ByBeat(db), Exhausted(db, c.cutoff), c.failed, BATCH))
  }

  function Retried(s: State, c: Cycle): State {
    s.(db := RetryAll(s.db, c.retried))
  }

  ghost function AfterCycle(cfg: Config, s: State, since: int, c: Cycle): State
    requires ValidCycle(cfg, s, since, c)
  {
    var s2 := After(cfg, Retried(After(cfg, s, c.steps), c), c.between);
    s2.(db := FailAll(s2.db, c.failed))
  }

  ghost predicate ValidCycles(cfg: Config, s: State, since: int, cs: seq<Cycle>)
    decreases |cs|
  {
    cs == [] || (ValidCycle(cfg, s, since, cs[0]) && ValidCycles(cfg, AfterCycle(cfg, s, since, cs[0]), since, cs[1..]))
  }

  ghost function AfterCycles(cfg: Config, s: State, since: int, cs: seq<Cycle>): State
    requires ValidCycles(cfg, s, since, cs)
    decreases |cs|
  {
    if cs == [] then s else AfterCycles(cfg, AfterCycle(cfg, s, since, cs[0]), since, cs[1..])
  }

  /** The two statements split the stale rows between them. */
  lemma StaleIsSplit(db: Db, cutoff: int)
    ensures Retryable(db, cutoff) !! Exhausted(db, cutoff)
    ensures forall id :: Stale(db, id, cutoff) <==> id in Retryable(db, cutoff) + Exhausted(db, cutoff)
  {
  }

  /** Taking the oldest first clears a whole batch of what was old already. */
  lemma BatchTakesOld(db: Db, aged: set<Id>, all: set<Id>, picked: seq<Id>, limit: nat, since: int)
    requires FirstOf(ByBeat(db), all, picked, limit) && aged <= all
    requires forall id :: id in all ==> (id in aged <==> (id in db.beats ==> db.beats[id] < since))
    ensures |aged - Elements(picked)| <= (if |aged| <= limit then 0 else |aged| - limit)
  {
    ElementsSize(picked);
    var rest := aged - Elements(picked);
    if rest != {} {
      assert (forall q :: q !in rest) ==> rest == {};
      var q :| q in rest;
      SubsetSize(Elements(picked) + {q}, all);
      forall p | p in picked ensures p in aged {
        assert p in Elements(picked) && ByBeat(db)(p, q);
      }
      assert aged == Elements(picked) + rest;
    }
  }

  predicate SameBudget(db: Db, db': Db, id: Id) {
    && id in db.rows && id in db'.rows
    && db.rows[id].retry == db'.rows[id].retry && db.rows[id].maxRetries == db'.rows[id].maxRetries
  }

  lemma StepAgesNothing(cfg: Config, s: State, a: Action, since: int, id: Id)
    requires Enabled(cfg, s, a) && since <= s.now && Stale(Apply(cfg, s, a).db, id, since)
    ensures Stale(s.db, id, since) && SameBudget(s.db, Apply(cfg, s, a).db, id)
  {
  }

  lemma StepAddsNoOld(cfg: Config, s: State, a: Action, since: int)
    requires Enabled(cfg, s, a) && since <= s.now
    ensures Retryable(Apply(cfg, s, a).db, since) <= Retryable(s.db, since)
    ensures Exhausted(Apply(cfg, s, a).db, since) <= Exhausted(s.db, since)
    ensures s.now <= Apply(cfg, s, a).now
  {
    forall id | Stale(Apply(cfg, s, a).db, id, since)
      ensures Stale(s.db, id, since) && SameBudget(s.db, Apply(cfg, s, a).db, id)
    {
      StepAgesNothing(cfg, s, a, since, id);
    }
  }

  lemma {:induction false} RunAddsNoOld(cfg: Config, s: State, run: seq<Action>, since: int)
    requires Valid(cfg, s, run) && since <= s.now
    ensures Retryable(After(cfg, s, run).db, since) <= Retryable(s.db, since)
    ensures Exhausted(After(cfg, s, run).db, since) <= Exhausted(s.db, since)
    ensures s.now <= After(cfg, s, run).now
    decreases |run|
  {
    if run == [] {
    } else {
      StepAddsNoOld(cfg, s, run[0], since);
      RunAddsNoOld(cfg, Apply(cfg, s, run[0]), run[1..], since);
    }
  }

  function Minus(n: nat, k: nat): nat {
    if n <= k then 0 else n - k
  }

  lemma RetryShrinks(db: Db, picked: seq<Id>, since: int)
    ensures Retryable(RetryAll(db, picked), since) <= Retryable(db, since) - Elements(picked)
    ensures Exhausted(RetryAll(db, picked), since) <= Exhausted(db, since)
  {
    RetryAllEffect(db, picked);
  }

  lemma RetryClears(db: Db, picked: seq<Id>, cutoff: int, since: int)
    requires since <= cutoff && FirstOf(ByBeat(db), Retryable(db, cutoff), picked, BATCH)
    ensures |Retryable(RetryAll(db, picked), since)| <= Minus(|Retryable(db, since)|, BATCH)
    ensures Exhausted(RetryAll(db, picked), since) <= Exhausted(db, since)
  {
    RetryShrinks(db, picked, since);
    BatchTakesOld(db, Retryable(db, since), Retryable(db, cutoff), picked, BATCH, since);
    SubsetSize(Retryable(RetryAll(db, picked), since), Retryable(db, since) - Elements(picked));
  }

  lemma FailShrinks(db: Db, picked: seq<Id>, since: int)
    ensures Exhausted(FailAll(db, picked), since) <= Exhausted(db, since) - Elements(picked)
    ensures Retryable(FailAll(db, picked), since) <= Retryable(db, since)
  {
    FailAllEffect(db, picked);
  }

  lemma FailClears(db: Db, picked: seq<Id>, cutoff: int, since: int)
    requires since <= cutoff && FirstOf(ByBeat(db), Exhausted(db, cutoff), picked, BATCH)
    ensures |Exhausted(FailAll(db, picked), since)| <= Minus(|Exhausted(db, since)|, BATCH)
    ensures Retryable(FailAll(db, picked), since) <= Retryable(db, since)
  {
    FailShrinks(db, picked, since);
    BatchTakesOld(db, Exhausted(db, since), Exhausted(db, cutoff), picked, BATCH, since);
    SubsetSize(Exhausted(FailAll(db, picked), since), Exhausted(db, since) - Elements(picked));
  }

  lemma CycleClearsABatch(cfg: Config, s: State, since: int, c: Cycle)
    requires since <= s.now && ValidCycle(cfg, s, since, c)
    ensures since <= AfterCycle(cfg, s, since, c).now
    ensures |Retryable(AfterCycle(cfg, s, since, c).db, since)| <= Minus(|Retryable(s.db, since)|, BATCH)
    ensures |Exhausted(AfterCycle(cfg, s, since, c).db, since)| <= Minus(|Exhausted(s.db, since)|, BATCH)
  {
    var s1 := After(cfg, s, c.steps);
    var s2 := After(cfg, Retried(s1, c), c.between);
    RunAddsNoOld(cfg, s, c.steps, since);
    RetryClears(s1.db, c.retried, c.cutoff, since);
    RunAddsNoOld(cfg, Retried(s1, c), c.between, since);
    FailClears(s2.db, c.failed, c.cutoff, since);
    Sizes(s.db, s1.db, Retried(s1, c).db, s2.db, FailAll(s2.db, c.failed), since);
  }

  /** The sizes along a cycle. */
  lemma Sizes(db: Db, db1: Db, mid: Db, db2: Db, end: Db, since: int)
    requires Retryable(db1, since) <= Retryable(db, since) && Exhausted(db1, since) <= Exhausted(db, since)
    requires Exhausted(mid, since) <= Exhausted(db1, since)
    requires Retryable(db2, since) <= Retryable(mid, since) && Exhausted(db2, since) <= Exhausted(mid, since)
    requires Retryable(end, since) <= Retryable(db2, since)
    ensures |Retryable(db1, since)| <= |Retryable(db, since)| && |Retryable(end, since)| <= |Retryable(mid, since)|
    ensures |Exhausted(db2, since)| <= |Exhausted(db, since)|
  {
    SubsetSize(Retryable(db1, since), Retryable(db, since));
    SubsetSize(Retryable(end, since), Retryable(mid, since));
    SubsetSize(Exhausted(db2, since), Exhausted(db, since));
  }

  /** k rows that are stale now are gone after ceil(k / 100) cycles, whatever runs in
      between and however many other rows go stale meanwhile. */
  lemma {:induction false} CyclesClearTheStale(cfg: Config, s: State, since: int, cs: seq<Cycle>)
    requires since <= s.now && ValidCycles(cfg, s, since, cs)
    ensures |Retryable(AfterCycles(cfg, s, since, cs).db, since)| <= Minus(|Retryable(s.db, since)|, 100 * |cs|)
    ensures |Exhausted(AfterCycles(cfg, s, since, cs).db, since)| <= Minus(|Exhausted(s.db, since)|, 100 * |cs|)
    ensures |Retryable(s.db, since)| + |Exhausted(s.db, since)| <= 100 * |cs|
            ==> forall id :: !Stale(AfterCycles(cfg, s, since, cs).db, id, since)
    decreases |cs|
  {
    if cs == [] {
    } else {
      CycleClearsABatch(cfg, s, since, cs[0]);
      CyclesClearTheStale(cfg, AfterCycle(cfg, s, since, cs[0]), since, cs[1..]);
    }
    StaleIsSplit(AfterCycles(cfg, s, since, cs).db, since);
  }
}
