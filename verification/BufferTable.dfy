/** internal/infrastructure/postgres/buffer_repo.go: the items of one buffer, their
    heartbeats and the buffer's token bucket, as fields that each statement updates. */
module BufferTable {
  import opened Tasks
  import opened TokenBucket
  import opened JobRepository
  import opened Buffers

  datatype ReplayResult = Replayed | ErrItemNotFound | ErrItemNotReplayable | ErrInsufficientCredits

  class BufferRepository {
    var rows: map<Id, Row>
    var beats: map<Id, int>
    var created: map<Id, int>
    var bucket: Bucket
    const rate: int

    constructor (rate: int, start: int)
      ensures Valid() && this.rate == rate && Contents() == Db(map[], map[]) && created == map[]
      ensures bucket == Bucket(0.0, Seconds(start))
    {
      this.rate := rate;
      rows, beats, created, bucket := map[], map[], map[], Bucket(0.0, Seconds(start));
    }

    function Contents(): Db
      reads this
    {
      Db(rows, beats)
    }

    ghost predicate Valid()
      reads this
    {
      created.Keys == rows.Keys
    }

    /** Returns the claimed head, or None when something is running, nothing is pending,
        the head is not due, or no token is available. */
    method ClaimNextItem(claim: nat, now: int) returns (item: Option<Id>)
      requires Valid()
      modifies this
      ensures Valid() && created == old(created)
      ensures item.Some? ==>
                && Head(old(Contents()), created, item.value)
                && old(rows)[item.value].scheduledAt <= now
                && Admits(old(bucket), rate as real, Seconds(now))
                && Contents() == ClaimRow(old(Contents()), item.value, claim, now)
                && bucket == Spend(old(bucket), rate as real, Seconds(now))
      ensures item.None? ==>
                && Contents() == old(Contents()) && bucket == old(bucket)
                && (|| !NothingRunning(Contents()) || PendingItems(Contents()) == {}
                    || !Admits(bucket, rate as real, Seconds(now))
                    || exists id :: Head(Contents(), created, id) && rows[id].scheduledAt > now)
      // the same in fields: what was there, and what the claim made of it
      ensures item.Some? ==>
                var id, grown := item.value, old(bucket.tokens) + (Seconds(now) - old(bucket.last)) * rate as real;
                && (forall i :: i in old(rows) ==> old(rows)[i].status != Running)
                && id in old(rows) && old(rows)[id].status == Pending && old(rows)[id].scheduledAt <= now
                && (forall i :: i in old(rows) && old(rows)[i].status == Pending ==> created[id] <= created[i])
                && grown >= 1.0 && rate >= 1
                && bucket.tokens == (if grown > rate as real then rate as real else grown) - 1.0
                && bucket.last == Seconds(now)
                && id in rows && rows[id].status == Running && rows[id].retry == old(rows)[id].retry
                && rows == old(rows)[id := rows[id]] && beats == old(beats)[id := now]
      ensures item.None? ==>
                || (exists i :: i in rows && rows[i].status == Running)
                || (forall i :: i in rows ==> rows[i].status != Pending)
                || (exists i :: i in rows && rows[i].status == Pending && rows[i].scheduledAt > now
                                && forall j :: j in rows && rows[j].status == Pending ==> created[i] <= created[j])
                || bucket.tokens + (Seconds(now) - bucket.last) * rate as real < 1.0 || rate < 1
    {
      item := None;
      var running := set id | id in rows && rows[id].status.Running?;
      if running != {} {
        assert (forall x :: x !in running) ==> running == {};
        ghost var i :| i in running;
        assert i in rows && rows[i].status == Running;
        return;
      }
      var candidates := PendingItems(Contents());
      var c := created;
      var picked := SelectFirst((a, b) => a in c && b in c ==> c[a] <= c[b], candidates, 1);
      if picked == [] {
        assert candidates == {};
        forall i | i in rows ensures rows[i].status != Pending { assert i !in candidates; }
        return;
      }
      var id := picked[0];
      assert id in picked && id in Elements(picked) && |picked| == 1;
      assert NothingRunning(Contents()) by {
        forall x | x in rows ensures !rows[x].status.Running? { assert x !in running; }
      }
      assert Head(Contents(), created, id);
      HeadInFields(Contents(), created, id);
      TokenInFields(bucket, rate, Seconds(now));
      if rows[id].scheduledAt <= now && Admits(bucket, rate as real, Seconds(now)) {
        bucket := Spend(bucket, rate as real, Seconds(now));
        rows := rows[id := rows[id].(status := Running, claims := rows[id].claims + 1, holder := claim)];
        beats := beats[id := now];
        item := Some(id);
      }
    }

    /** A new item goes to the tail: created_at is the time of the insert. */
    method CreateItem(id: Id, maxRetries: nat, now: int)
      requires Valid() && id !in rows
      modifies this`rows, this`created
      ensures Valid() && created == old(created)[id := now]
      ensures Contents() == Insert(old(Contents()), id, Fresh(Item, maxRetries, now, false))
      ensures rows[id].status == Pending && rows[id].retry == 0 && rows[id].maxRetries == maxRetries
      ensures rows[id].scheduledAt == now
    {
      rows := rows[id := Fresh(Item, maxRetries, now, false)];
      created := created[id := now];
    }

    /** ReplayItem: a failed item, and no other, is pushed again as a new one with its budget;
        `credits` is what the credit check answered. The failed item stays as it is. */
    method ReplayItem(id: Id, source: Id, credits: bool, now: int) returns (r: ReplayResult)
      requires Valid() && id !in rows
      modifies this`rows, this`created
      ensures Valid()
      ensures r == if source !in old(rows) then ErrItemNotFound
                   else if old(rows)[source].status != Failed then ErrItemNotReplayable
                   else if !credits then ErrInsufficientCredits else Replayed
      ensures r != Replayed ==> rows == old(rows) && created == old(created)
      ensures r == Replayed ==>
                && id in rows && rows == old(rows)[id := rows[id]] && created == old(created)[id := now]
                && rows[id].status == Pending && rows[id].retry == 0 && rows[id].scheduledAt == now
                && rows[id].maxRetries == old(rows)[source].maxRetries
    {
      if source !in rows {
        return ErrItemNotFound;
      }
      if !rows[source].status.Failed? {
        return ErrItemNotReplayable;
      }
      if !credits {
        return ErrInsufficientCredits;
      }
      CreateItem(id, rows[source].maxRetries, now);
      r := Replayed;
    }

    method UpdateItemHeartbeat(id: Id, now: int)
      requires Valid()
      modifies this`beats
      ensures Valid() && Contents() == Beat(old(Contents()), id, now)
    {
      if id in rows && rows[id].status.Running? { beats := beats[id := now]; }
    }

    method CompleteItem(id: Id)
      requires Valid()
      modifies this`rows, this`beats
      ensures Valid() && Contents() == CompleteRow(old(Contents()), id, false)
    {
      if id in rows {
        rows := rows[id := rows[id].(status := Completed, finisher := ByWorker)];
        beats := beats - {id};
      }
    }

    method FailItem(id: Id)
      requires Valid()
      modifies this`rows, this`beats
      ensures Valid() && Contents() == FailRow(old(Contents()), id, false)
    {
      if id in rows {
        rows := rows[id := rows[id].(status := Failed, finisher := ByWorker)];
        beats := beats - {id};
      }
    }

    method RescheduleItem(id: Id, retryAt: int, rateLimited: bool)
      requires Valid()
      modifies this`rows, this`beats
      ensures Valid() && Contents() == RescheduleRow(old(Contents()), id, retryAt, rateLimited)
    {
      if id in rows {
        var r := rows[id];
        rows := rows[id := r.(status := Pending, retry := r.retry + 1, scheduledAt := retryAt,
                              limited := if rateLimited then r.limited + 1 else r.limited)];
        beats := beats - {id};
      }
    }
  }
}
