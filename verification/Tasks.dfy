/** Rows of the `jobs` and `buffer_items` tables, their heartbeat sidecars, and the
    SQL statements that change them. Every function below is one atomic statement
    (or one transaction); outcome writes match on the id alone, as in the source.

    Three fields of a row are bookkeeping the tables do not have: `claims` and
    `holder` number the claims (claimed_by names a process, not a claim), and
    `finisher` tells who moved the row to a terminal status. */
module Tasks {

  type Id = int

  datatype Option<+T> = None | Some(value: T)

  datatype Kind = Job | Item

  datatype Status = Pending | Running | Completed | Failed | Cancelled

  datatype Event = JobCompleted | JobFailed

  datatype Finisher = Nobody | ByWorker | ByReaper

  datatype Row = Row(
    kind: Kind,
    status: Status,
    retry: nat,              // retry_count
    maxRetries: nat,         // max_retries
    scheduledAt: int,
    webhook: bool,           // webhook_url is set
    limited: nat,            // how many of the retries answered a 429
    claims: nat,
    holder: nat,
    finisher: Finisher,
    attempts: seq<nat>,      // attempt_num of the job_attempts rows of this job
    deliveries: seq<Event>)  // events of the webhook_deliveries rows of this job

  datatype Db = Db(rows: map<Id, Row>, beats: map<Id, int>)

  predicate Terminal(s: Status) {
    s.Completed? || s.Failed? || s.Cancelled?
  }

  function Fresh(kind: Kind, maxRetries: nat, scheduledAt: int, webhook: bool): Row {
    Row(kind, Pending, 0, maxRetries, scheduledAt, webhook && kind.Job?, 0, 0, 0, Nobody, [], [])
  }

  function Insert(db: Db, id: Id, row: Row): Db {
    db.(rows := db.rows[id := row])
  }

  /** The row leaves 'running', so its sidecar row goes too. */
  function Leave(db: Db, id: Id, row: Row): Db {
    Db(db.rows[id := row], db.beats - {id})
  }

  // Claim and ClaimNextItem: one row of the batch
  function ClaimRow(db: Db, id: Id, claim: nat, now: int): Db
    requires id in db.rows
  {
    var r := db.rows[id];
    Db(db.rows[id := r.(status := Running, claims := r.claims + 1, holder := claim)], db.beats[id := now])
  }

  // UpdateHeartbeat and UpdateItemHeartbeat: guarded by status = 'running'
  function Beat(db: Db, id: Id, now: int): Db {
    if id in db.rows && db.rows[id].status.Running? then db.(beats := db.beats[id := now]) else db
  }

  function OpenAttempt(db: Db, id: Id, num: nat): Db {
    if id in db.rows then
      var r := db.rows[id];
      db.(rows := db.rows[id := r.(attempts := r.attempts + [num])])
    else db
  }

  // CompleteWithWebhook: completeJob and, if a delivery was built, its insert
  function CompleteRow(db: Db, id: Id, delivery: bool): Db {
    if id in db.rows then
      var r := db.rows[id];
      Leave(db, id, r.(status := Completed, finisher := ByWorker,
                       deliveries := if delivery then r.deliveries + [JobCompleted] else r.deliveries))
    else db
  }

  // FailWithWebhook: failJob and, if a delivery was built, its insert
  function FailRow(db: Db, id: Id, delivery: bool): Db {
    if id in db.rows then
      var r := db.rows[id];
      Leave(db, id, r.(status := Failed, finisher := ByWorker,
                       deliveries := if delivery then r.deliveries + [JobFailed] else r.deliveries))
    else db
  }

  // Reschedule and RescheduleItem
  function RescheduleRow(db: Db, id: Id, retryAt: int, rateLimited: bool): Db {
    if id in db.rows then
      var r := db.rows[id];
      Leave(db, id, r.(status := Pending, retry := r.retry + 1, scheduledAt := retryAt,
                       limited := if rateLimited then r.limited + 1 else r.limited))
    else db
  }

  // The staleness test both reaper statements share
  predicate Stale(db: Db, id: Id, cutoff: int) {
    && id in db.rows
    && db.rows[id].status.Running?
    && (id in db.beats ==> db.beats[id] < cutoff)
  }

  // RescheduleStale: one row of the batch
  function ReapRetryRow(db: Db, id: Id): Db
    requires id in db.rows
  {
    var r := db.rows[id];
    Leave(db, id, r.(status := Pending, retry := r.retry + 1))
  }

  // FailStale: one row of the batch. No delivery is written.
  function ReapFailRow(db: Db, id: Id): Db
    requires id in db.rows
  {
    Leave(db, id, db.rows[id].(status := Failed, finisher := ByReaper))
  }

  // Cancel: guarded by status = 'pending'
  function CancelRow(db: Db, id: Id): Db {
    if id in db.rows && db.rows[id].status.Pending?
    then db.(rows := db.rows[id := db.rows[id].(status := Cancelled)])
    else db
  }

  lemma SubsetSize<T>(a: set<T>, b: set<T>)
    requires a <= b
    ensures |a| <= |b|
  {
    assert b == a + (b - a);
  }
}
