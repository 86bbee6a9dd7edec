/** The heartbeat sidecar against the design it replaced, where the heartbeat is a column
    of the job's own row. Nothing here depends on timing: it holds in every run, also in
    those where an owner acts on a row it has lost. */
module Sidecar {
  import opened Tasks
  import opened Lease
  import opened LeaseSafety

  predicate IsRunning(db: Db, id: Id) {
    id in db.rows && db.rows[id].status.Running?
  }

  function ColumnOnOutcome(o: Owner, res: Result, col: map<Id, int>): map<Id, int> {
    var outcome := Decide(o.kind, res, o.retry, o.maxRetries);
    if outcome.Retry? || outcome.RateLimited? then col - {o.task} else col
  }

  /** heartbeat_at in the row: set by a claim, by a heartbeat while running, reset to NULL
      when the row goes back to 'pending', and left alone by completion and failure. */
  function Column(cfg: Config, s: State, a: Action, col: map<Id, int>): map<Id, int>
    requires Enabled(cfg, s, a)
  {
    match a
    case Claim(id) => col[id := s.now]
    case BeatLands(c) => if IsRunning(s.db, s.owners[c].task) then col[s.owners[c].task := s.now] else col
    case StrayBeat(id) => if IsRunning(s.db, id) then col[id := s.now] else col
    case Commit(c, _) => ColumnOnOutcome(s.owners[c], s.owners[c].phase.result, col)
    case ReapRetry(id, _) => col - {id}
    case _ => col
  }

  function ColumnAfter(cfg: Config, s: State, run: seq<Action>, col: map<Id, int>): map<Id, int>
    requires Valid(cfg, s, run)
    decreases |run|
  {
    if run == [] then col else ColumnAfter(cfg, Apply(cfg, s, run[0]), run[1..], Column(cfg, s, run[0], col))
  }

  ghost predicate Mirrors(db: Db, col: map<Id, int>) {
    && SidecarOk(db)
    && forall id :: id in db.beats ==> id in col && col[id] == db.beats[id]
  }

  lemma OutcomeKeepsMirror(db: Db, o: Owner, res: Result, at: int, col: map<Id, int>)
    requires Mirrors(db, col)
    ensures Mirrors(WriteOutcome(db, o, res, at), ColumnOnOutcome(o, res, col))
  {
  }

  lemma StepKeepsMirror(cfg: Config, s: State, a: Action, col: map<Id, int>)
    requires Mirrors(s.db, col) && Enabled(cfg, s, a)
    ensures Mirrors(Apply(cfg, s, a).db, Column(cfg, s, a, col))
  {
    if a.Commit? {
      OutcomeKeepsMirror(s.db, s.owners[a.c], s.owners[a.c].phase.result, a.retryAt, col);
    }
  }

  lemma {:induction false} RunKeepsMirror(cfg: Config, s: State, run: seq<Action>, col: map<Id, int>)
    requires Mirrors(s.db, col) && Valid(cfg, s, run)
    ensures Mirrors(After(cfg, s, run).db, ColumnAfter(cfg, s, run, col))
    decreases |run|
  {
    if run == [] {
    } else {
      StepKeepsMirror(cfg, s, run[0], col);
      RunKeepsMirror(cfg, Apply(cfg, s, run[0]), run[1..], Column(cfg, s, run[0], col));
    }
  }

  /** The staleness test on the column. */
  predicate StaleInRow(db: Db, col: map<Id, int>, id: Id, cutoff: int) {
    IsRunning(db, id) && (id in col ==> col[id] < cutoff)
  }

  /** In every reachable state the sidecar's keys are the running rows, and the reaper
      finds the same rows stale, in the same order, as it would on the column. */
  lemma SidecarIsTheColumn(cfg: Config, run: seq<Action>, cutoff: int)
    requires Valid(cfg, Init(), run)
    ensures var db, col := After(cfg, Init(), run).db, ColumnAfter(cfg, Init(), run, map[]);
            && (forall id :: id in db.beats <==> IsRunning(db, id))
            && (forall id :: Stale(db, id, cutoff) <==> StaleInRow(db, col, id, cutoff))
            && (forall a, b :: Stale(db, a, cutoff) && Stale(db, b, cutoff) ==>
                  a in col && b in col && (db.beats[a] <= db.beats[b] <==> col[a] <= col[b]))
  {
    RunKeepsMirror(cfg, Init(), run, map[]);
  }
}
