/** internal/infrastructure/postgres/job_repo.go: the two tables as fields that each statement
    updates, the batch statements as loops. The two stale statements are those of
    buffer_repo.go as well. */
module JobRepository {
  import opened Tasks

  // ---- batches ----

  predicate Due(db: Db, id: Id, now: int) {
    id in db.rows && db.rows[id].status.Pending? && db.rows[id].scheduledAt <= now
  }

  function DueSet(db: Db, now: int): set<Id> {
    set id | id in db.rows && Due(db, id, now)
  }

  function Retryable(db: Db, cutoff: int): set<Id> {
    set id | id in db.rows && Stale(db, id, cutoff) && db.rows[id].retry < db.rows[id].maxRetries
  }

  function Exhausted(db: Db, cutoff: int): set<Id> {
    set id | id in db.rows && Stale(db, id, cutoff) && db.rows[id].retry >= db.rows[id].maxRetries
  }

  /** ORDER BY heartbeat_at ASC NULLS FIRST */
  predicate OlderBeat(db: Db, a: Id, b: Id) {
    a in db.beats ==> b in db.beats && db.beats[a] <= db.beats[b]
  }

  predicate EarlierDue(db: Db, a: Id, b: Id) {
    a in db.rows && b in db.rows ==> db.rows[a].scheduledAt <= db.rows[b].scheduledAt
  }

  function Elements(s: seq<Id>): set<Id> {
    set id | id in s
  }

  ghost predicate Distinct(s: seq<Id>) {
    forall i, j :: 0 <= i < j < |s| ==> s[i] != s[j]
  }

  /** ORDER BY ... LIMIT: as many candidates as the limit allows, and none left out that
      comes before one taken. */
  ghost predicate FirstOf(before: (Id, Id) -> bool, candidates: set<Id>, picked: seq<Id>, limit: nat) {
    && Distinct(picked) && Elements(picked) <= candidates
    && |picked| == (if |candidates| < limit then |candidates| else limit)
    && forall p, q :: p in picked && q in candidates && q !in picked ==> before(p, q)
  }

  function ClaimAll(db: Db, picked: seq<Id>, next: nat, now: int): Db {
    if picked == [] then db
    else
      var n := |picked| - 1;
      var before := ClaimAll(db, picked[..n], next, now);
      if picked[n] in before.rows then ClaimRow(before, picked[n], next + n, now) else before
  }

  function RetryAll(db: Db, picked: seq<Id>): Db {
    if picked == [] then db
    else
      var n := |picked| - 1;
      var before := RetryAll(db, picked[..n]);
      if picked[n] in before.rows then ReapRetryRow(before, picked[n]) else before
  }

  function FailAll(db: Db, picked: seq<Id>): Db {
    if picked == [] then db
    else
      var n := |picked| - 1;
      var before := FailAll(db, picked[..n]);
      if picked[n] in before.rows then ReapFailRow(before, picked[n]) else before
  }

  function ByBeat(db: Db): (Id, Id) -> bool {
    (a, b) => OlderBeat(db, a, b)
  }

  function ByDue(db: Db): (Id, Id) -> bool {
    (a, b) => EarlierDue(db, a, b)
  }

  /** Total and transitive on a set of ids. */
  ghost predicate Orders(before: (Id, Id) -> bool, s: set<Id>) {
    && (forall a, b :: a in s && b in s ==> before(a, b) || before(b, a))
    && (forall a, b, c :: a in s && b in s && c in s && before(a, b) && before(b, c) ==> before(a, c))
  }

  lemma {:induction false} LeastExists(before: (Id, Id) -> bool, s: set<Id>) returns (least: Id)
    requires s != {}
    requires Orders(before, s)
    ensures least in s && forall q :: q in s ==> before(least, q)
  {
    assert (forall x :: x !in s) ==> s == {};
    var x :| x in s;
    var rest := s - {x};
    if rest == {} {
      assert forall q :: q in s ==> q in rest || q == x;
      least := x;
    } else {
      var other := LeastExists(before, rest);
      least := if before(other, x) then other else x;
      forall q | q in s ensures before(least, q) {
        if q != x { assert q in rest && before(other, q); }
      }
    }
  }

  lemma Append(picked: seq<Id>, id: Id)
    ensures Elements(picked + [id]) == Elements(picked) + {id}
    ensures (picked + [id])[..|picked|] == picked
  {
  }

  /** SelectFirst under way: what it has taken and what is left. */
  ghost predicate Selecting(before: (Id, Id) -> bool, candidates: set<Id>, picked: seq<Id>, left: set<Id>) {
    && Distinct(picked) && Elements(picked) !! left && Elements(picked) + left == candidates
    && |picked| + |left| == |candidates|
    && forall p, q :: p in picked && q in left ==> before(p, q)
  }

  lemma SelectNext(before: (Id, Id) -> bool, candidates: set<Id>, picked: seq<Id>, left: set<Id>, id: Id)
    requires Selecting(before, candidates, picked, left)
    requires id in left && forall q :: q in left ==> before(id, q)
    ensures Selecting(before, candidates, picked + [id], left - {id})
  {
    Append(picked, id);
    forall i | 0 <= i < |picked| ensures picked[i] != id {
      assert picked[i] in Elements(picked);
    }
  }

  lemma LeastOfSubset(before: (Id, Id) -> bool, candidates: set<Id>, left: set<Id>) returns (least: Id)
    requires Orders(before, candidates) && left <= candidates && left != {}
    ensures least in left && forall q :: q in left ==> before(least, q)
  {
    least := LeastExists(before, left);
  }

  /** SELECT id ... ORDER BY ... LIMIT */
  method SelectFirst(before: (Id, Id) -> bool, candidates: set<Id>, limit: nat) returns (picked: seq<Id>)
    requires Orders(before, candidates)
    ensures FirstOf(before, candidates, picked, limit)
  {
    picked := [];
    var left := candidates;
    while left != {} && |picked| < limit
      invariant Selecting(before, candidates, picked, left) && |picked| <= limit
      decreases left
    {
      ghost var least := LeastOfSubset(before, candidates, left);
      var id :| id in left && forall q :: q in left ==> before(id, q);
      SelectNext(before, candidates, picked, left, id);
      picked := picked + [id];
      left := left - {id};
    }
    forall p, q | p in picked && q in candidates && q !in picked ensures before(p, q) {
      assert q in left;
    }
  }

  lemma {:induction false} ElementsSize(s: seq<Id>)
    requires Distinct(s)
    ensures |Elements(s)| == |s|
  {
    if s == [] {
    } else {
      var n := |s| - 1;
      assert s == s[..n] + [s[n]];
      Append(s[..n], s[n]);
      ElementsSize(s[..n]);
      assert s[n] !in Elements(s[..n]);
    }
  }

  /** A candidate left out means that the limit is used up by others that come no later. */
  lemma FirstOfFills(before: (Id, Id) -> bool, candidates: set<Id>, picked: seq<Id>, limit: nat, q: Id)
    requires FirstOf(before, candidates, picked, limit) && q in candidates && q !in picked
    ensures |picked| == limit && forall p :: p in picked ==> before(p, q)
  {
    ElementsSize(picked);
    SubsetSize(Elements(picked) + {q}, candidates);
  }

  // ---- the batches in fields of the tables ----

  /** A claim takes due pending rows, and leaves one out only for others due no later. */
  lemma DueInFields(db: Db, picked: seq<Id>, limit: nat, now: int)
    requires FirstOf(ByDue(db), DueSet(db, now), picked, limit)
    ensures |picked| <= limit && Distinct(picked)
    ensures forall id :: id in picked ==>
              id in db.rows && db.rows[id].status == Pending && db.rows[id].scheduledAt <= now
    ensures forall id ::
              id in db.rows && db.rows[id].status == Pending && db.rows[id].scheduledAt <= now && id !in picked ==>
                |picked| == limit && forall p :: p in picked ==> db.rows[p].scheduledAt <= db.rows[id].scheduledAt
  {
    forall id | id in picked ensures id in DueSet(db, now) {
      assert id in Elements(picked);
    }
    forall id | id in DueSet(db, now) && id !in picked
      ensures |picked| == limit && forall p :: p in picked ==> ByDue(db)(p, id)
    {
      FirstOfFills(ByDue(db), DueSet(db, now), picked, limit, id);
    }
  }

  /** Both stale statements take running rows without a heartbeat since the cutoff, the one
      with budget left and the other without, and leave one out only for others at least as
      stale; a missing heartbeat is the stalest. */
  lemma StaleInFields(db: Db, picked: seq<Id>, limit: nat, cutoff: int, left: bool)
    requires FirstOf(ByBeat(db), if left then Retryable(db, cutoff) else Exhausted(db, cutoff), picked, limit)
    ensures |picked| <= limit && Distinct(picked)
    ensures forall id :: id in picked ==>
              && id in db.rows && db.rows[id].status == Running && (id in db.beats ==> db.beats[id] < cutoff)
              && (db.rows[id].retry < db.rows[id].maxRetries <==> left)
    ensures forall id ::
              && id in db.rows && db.rows[id].status == Running && (id in db.beats ==> db.beats[id] < cutoff)
              && (db.rows[id].retry < db.rows[id].maxRetries <==> left) && id !in picked ==>
                && |picked| == limit
                && forall p :: p in picked && p in db.beats ==> id in db.beats && db.beats[p] <= db.beats[id]
  {
    var all := if left then Retryable(db, cutoff) else Exhausted(db, cutoff);
    forall id | id in picked ensures id in all {
      assert id in Elements(picked);
    }
    forall id | id in all && id !in picked ensures |picked| == limit && forall p :: p in picked ==> ByBeat(db)(p, id) {
      FirstOfFills(ByBeat(db), all, picked, limit, id);
    }
  }

  lemma {:induction false} ClaimInFields(db: Db, picked: seq<Id>, next: nat, now: int, id: Id)
    requires Distinct(picked) && id in db.rows
    ensures var db' := ClaimAll(db, picked, next, now);
            && id in db'.rows
            && (id in picked ==>
                  && db'.rows[id] == db.rows[id].(status := Running, claims := db.rows[id].claims + 1,
                                                  holder := db'.rows[id].holder)
                  && id in db'.beats && db'.beats[id] == now)
            && (id !in picked ==>
                  && db'.rows[id] == db.rows[id] && (id in db'.beats <==> id in db.beats)
                  && (id in db.beats ==> db'.beats[id] == db.beats[id]))
  {
    if picked == [] {
    } else {
      var n := |picked| - 1;
      var init, last := picked[..n], picked[n];
      assert picked == init + [last] && last !in init;
      ClaimInFields(db, init, next, now, id);
    }
  }

  lemma {:induction false} RetryInFields(db: Db, picked: seq<Id>, id: Id)
    requires Distinct(picked) && id in db.rows
    ensures var db' := RetryAll(db, picked);
            && id in db'.rows
            && (id in picked ==>
                  db'.rows[id] == db.rows[id].(status := Pending, retry := db.rows[id].retry + 1) && id !in db'.beats)
            && (id !in picked ==> db'.rows[id] == db.rows[id])
  {
    if picked == [] {
    } else {
      var n := |picked| - 1;
      var init, last := picked[..n], picked[n];
      assert picked == init + [last] && last !in init;
      RetryInFields(db, init, id);
    }
  }

  lemma {:induction false} FailInFields(db: Db, picked: seq<Id>, id: Id)
    requires id in db.rows
    ensures var db' := FailAll(db, picked);
            && id in db'.rows
            && (id in picked ==>
                  db'.rows[id] == db.rows[id].(status := Failed, finisher := ByReaper) && id !in db'.beats)
            && (id !in picked ==> db'.rows[id] == db.rows[id])
  {
    if picked == [] {
    } else {
      var n := |picked| - 1;
      assert picked == picked[..n] + [picked[n]];
      FailInFields(db, picked[..n], id);
    }
  }

  /** Rows outside the batch keep their contents; rows inside leave 'running'. */
  lemma {:induction false} RetryAllEffect(db: Db, picked: seq<Id>)
    ensures var db' := RetryAll(db, picked);
            && db'.rows.Keys == db.rows.Keys
            && (forall id :: id in db.rows && id !in picked ==> db'.rows[id] == db.rows[id])
            && (forall id :: id in picked && id in db.rows ==> db'.rows[id].status.Pending?)
            && (forall id :: id !in picked ==> (id in db'.beats <==> id in db.beats))
            && (forall id :: id !in picked && id in db.beats ==> db'.beats[id] == db.beats[id])
  {
    if picked == [] {
    } else {
      var n := |picked| - 1;
      assert picked == picked[..n] + [picked[n]];
      RetryAllEffect(db, picked[..n]);
    }
  }

  lemma {:induction false} FailAllEffect(db: Db, picked: seq<Id>)
    ensures var db' := FailAll(db, picked);
            && db'.rows.Keys == db.rows.Keys
            && (forall id :: id in db.rows && id !in picked ==> db'.rows[id] == db.rows[id])
            && (forall id :: id in picked && id in db.rows ==> db'.rows[id].status.Failed?)
            && (forall id :: id !in picked ==> (id in db'.beats <==> id in db.beats))
            && (forall id :: id !in picked && id in db.beats ==> db'.beats[id] == db.beats[id])
  {
    if picked == [] {
    } else {
      var n := |picked| - 1;
      assert picked == picked[..n] + [picked[n]];
      FailAllEffect(db, picked[..n]);
    }
  }

  datatype JobKey = JobKey(user: int, idempotencyKey: string)

  datatype CreateResult = Created | ErrDuplicateJob

  datatype CancelResult = JobCancelled | ErrJobNotFound | ErrJobNotCancellable

  class Repository {
    var rows: map<Id, Row>
    var beats: map<Id, int>
    var keys: set<JobKey>   // UNIQUE (user_id, idempotency_key)

    constructor ()
      ensures Contents() == Db(map[], map[]) && keys == {}
    {
      rows, beats, keys := map[], map[], {};
    }

    function Contents(): Db
      reads this
    {
      Db(rows, beats)
    }

    /** Under the id the database generates; a user's repeated idempotency key is refused. */
    method Create(id: Id, row: Row, key: JobKey) returns (r: CreateResult)
      requires id !in rows
      modifies this
      ensures r.ErrDuplicateJob? <==> key in old(keys)
      ensures r.Created? ==> Contents() == Insert(old(Contents()), id, row) && keys == old(keys) + {key}
      ensures r.ErrDuplicateJob? ==> Contents() == old(Contents()) && keys == old(keys)
    {
      if key in keys {
        return ErrDuplicateJob;
      }
      keys := keys + {key};
      rows := rows[id := row];
      r := Created;
    }

    method Claim(next: nat, limit: nat, now: int) returns (picked: seq<Id>)
      modifies this`rows, this`beats
      ensures FirstOf(ByDue(old(Contents())), DueSet(old(Contents()), now), picked, limit)
      ensures Contents() == ClaimAll(old(Contents()), picked, next, now)
      ensures forall id :: id in picked ==>
                id in old(rows) && old(rows)[id].status == Pending && old(rows)[id].scheduledAt <= now
      ensures forall id ::
                && id in old(rows) && id !in picked
                && old(rows)[id].status == Pending && old(rows)[id].scheduledAt <= now ==>
                  && |picked| == limit
                  && forall p :: p in picked ==> old(rows)[p].scheduledAt <= old(rows)[id].scheduledAt
      ensures forall id :: id in old(rows) ==>
                && id in rows
                && (id in picked ==> rows[id].status == Running && rows[id].retry == old(rows)[id].retry
                                     && id in beats && beats[id] == now)
                && (id !in picked ==> rows[id] == old(rows)[id])
    {
      ghost var db := Contents();
      picked := SelectFirst(ByDue(Contents()), DueSet(Contents(), now), limit);
      for k := 0 to |picked|
        invariant Contents() == ClaimAll(db, picked[..k], next, now) && rows.Keys == db.rows.Keys
      {
        var id := picked[k];
        assert id in Elements(picked) && picked[..k + 1][..k] == picked[..k];
        rows := rows[id := rows[id].(status := Running, claims := rows[id].claims + 1, holder := next + k)];
        beats := beats[id := now];
      }
      assert picked[..|picked|] == picked;
      DueInFields(db, picked, limit, now);
      forall id | id in db.rows ensures id in rows && (id in picked ==> id in beats) {
        ClaimInFields(db, picked, next, now, id);
      }
      forall id | id in db.rows
        ensures id in picked ==> rows[id].status == Running && rows[id].retry == db.rows[id].retry && beats[id] == now
        ensures id !in picked ==> rows[id] == db.rows[id]
      {
        ClaimInFields(db, picked, next, now, id);
      }
    }

    method UpdateHeartbeat(id: Id, now: int)
      modifies this`rows, this`beats
      ensures Contents() == Beat(old(Contents()), id, now)
    {
      if id in rows && rows[id].status.Running? { beats := beats[id := now]; }
    }

    method CreateAttempt(id: Id, num: nat)
      modifies this`rows, this`beats
      ensures Contents() == OpenAttempt(old(Contents()), id, num)
    {
      if id in rows { rows := rows[id := rows[id].(attempts := rows[id].attempts + [num])]; }
    }

    method CompleteWithWebhook(id: Id, delivery: bool)
      modifies this`rows, this`beats
      ensures Contents() == CompleteRow(old(Contents()), id, delivery)
    {
      if id in rows {
        rows := rows[id := rows[id].(status := Completed, finisher := ByWorker)];
        beats := beats - {id};
        if delivery { rows := rows[id := rows[id].(deliveries := rows[id].deliveries + [JobCompleted])]; }
      }
    }

    method FailWithWebhook(id: Id, delivery: bool)
      modifies this`rows, this`beats
      ensures Contents() == FailRow(old(Contents()), id, delivery)
    {
      if id in rows {
        rows := rows[id := rows[id].(status := Failed, finisher := ByWorker)];
        beats := beats - {id};
        if delivery { rows := rows[id := rows[id].(deliveries := rows[id].deliveries + [JobFailed])]; }
      }
    }

    method Reschedule(id: Id, retryAt: int)
      modifies this`rows, this`beats
      ensures Contents() == RescheduleRow(old(Contents()), id, retryAt, false)
    {
      if id in rows {
        rows := rows[id := rows[id].(status := Pending, retry := rows[id].retry + 1, scheduledAt := retryAt)];
        beats := beats - {id};
      }
    }

    method RescheduleStale(cutoff: int, limit: nat) returns (picked: seq<Id>)
      modifies this`rows, this`beats
      ensures FirstOf(ByBeat(old(Contents())), Retryable(old(Contents()), cutoff), picked, limit)
      ensures Contents() == RetryAll(old(Contents()), picked)
      ensures forall id :: id in picked ==>
                && id in old(rows) && old(rows)[id].status == Running && old(rows)[id].retry < old(rows)[id].maxRetries
                && (id in old(beats) ==> old(beats)[id] < cutoff)
      ensures forall id ::
                && id in old(rows) && id !in picked && old(rows)[id].status == Running
                && old(rows)[id].retry < old(rows)[id].maxRetries && (id in old(beats) ==> old(beats)[id] < cutoff) ==>
                  |picked| == limit
      ensures forall id :: id in old(rows) ==>
                && id in rows
                && (id in picked ==> rows[id] == old(rows)[id].(status := Pending, retry := old(rows)[id].retry + 1))
                && (id !in picked ==> rows[id] == old(rows)[id])
    {
      ghost var db := Contents();
      picked := SelectFirst(ByBeat(Contents()), Retryable(Contents(), cutoff), limit);
      for k := 0 to |picked|
        invariant Contents() == RetryAll(db, picked[..k]) && rows.Keys == db.rows.Keys
      {
        var id := picked[k];
        assert id in Elements(picked) && picked[..k + 1][..k] == picked[..k];
        rows := rows[id := rows[id].(status := Pending, retry := rows[id].retry + 1)];
        beats := beats - {id};
      }
      assert picked[..|picked|] == picked;
      StaleInFields(db, picked, limit, cutoff, true);
      forall id | id in db.rows
        ensures id in rows
        ensures id in picked ==> rows[id] == db.rows[id].(status := Pending, retry := db.rows[id].retry + 1)
        ensures id in rows && (id !in picked ==> rows[id] == db.rows[id])
      {
        RetryInFields(db, picked, id);
      }
    }

    method FailStale(cutoff: int, limit: nat) returns (picked: seq<Id>)
      modifies this`rows, this`beats
      ensures FirstOf(ByBeat(old(Contents())), Exhausted(old(Contents()), cutoff), picked, limit)
      ensures Contents() == FailAll(old(Contents()), picked)
      ensures forall id :: id in picked ==>
                && id in old(rows) && old(rows)[id].status == Running && old(rows)[id].retry >= old(rows)[id].maxRetries
                && (id in old(beats) ==> old(beats)[id] < cutoff)
      ensures forall id ::
                && id in old(rows) && id !in picked && old(rows)[id].status == Running
                && old(rows)[id].retry >= old(rows)[id].maxRetries && (id in old(beats) ==> old(beats)[id] < cutoff) ==>
                  |picked| == limit
      ensures forall id :: id in old(rows) ==>
                && id in rows
                && (id in picked ==> rows[id] == old(rows)[id].(status := Failed, finisher := ByReaper))
                && (id !in picked ==> rows[id] == old(rows)[id])
    {
      ghost var db := Contents();
      picked := SelectFirst(ByBeat(Contents()), Exhausted(Contents(), cutoff), limit);
      for k := 0 to |picked|
        invariant Contents() == FailAll(db, picked[..k]) && rows.Keys == db.rows.Keys
      {
        var id := picked[k];
        assert id in Elements(picked) && picked[..k + 1][..k] == picked[..k];
        rows := rows[id := rows[id].(status := Failed, finisher := ByReaper)];
        beats := beats - {id};
      }
      assert picked[..|picked|] == picked;
      StaleInFields(db, picked, limit, cutoff, false);
      forall id | id in db.rows
        ensures id in rows && (id in picked ==> rows[id] == db.rows[id].(status := Failed, finisher := ByReaper))
        ensures id in rows && (id !in picked ==> rows[id] == db.rows[id])
      {
        FailInFields(db, picked, id);
      }
    }

    method Cancel(id: Id) returns (r: CancelResult)
      modifies this`rows, this`beats
      ensures Contents() == CancelRow(old(Contents()), id)
      ensures r.JobCancelled? <==> Contents() != old(Contents())
      ensures r.ErrJobNotFound? <==> id !in old(rows)
      ensures r.JobCancelled? <==> id in old(rows) && old(rows)[id].status == Pending
      ensures r.JobCancelled? ==> rows == old(rows)[id := old(rows)[id].(status := Cancelled)] && beats == old(beats)
    {
      if id in rows && rows[id].status.Pending? {
        assert rows[id].status != Cancelled;
        rows := rows[id := rows[id].(status := Cancelled)];
        assert rows[id].status == Cancelled;
        r := JobCancelled;
      } else {
        r := if id in rows then ErrJobNotCancellable else ErrJobNotFound;
      }
    }
  }
}
