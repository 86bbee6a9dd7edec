/** The claim / heartbeat / fence / reap protocol of internal/scheduler as a state
    machine. A step is one database statement, one decision of a goroutine, one crash
    or the passing of time. An owner is the goroutine that serves one claim. */
module Lease {
  import opened Tasks

  /** Times are in one unit. `interval`, `lease` and `cutoff` are constants of the
      source; the other three bound what the environment may do: time from the claim to
      the start of the heartbeat, time a heartbeat call takes, and time from the lease
      check to the outcome write. */
  datatype Config = Config(interval: int, lease: int, cutoff: int,
                           startDelay: int, latency: int, writeDelay: int)

  predicate Sensible(cfg: Config) {
    && 0 < cfg.interval && 0 < cfg.lease && 0 < cfg.cutoff
    && 0 <= cfg.startDelay && 0 <= cfg.latency && 0 <= cfg.writeDelay
  }

  /** How long after its start a ticker of period `step` first fires at or past x. */
  function FirstTick(x: int, step: int): int
    requires 0 < step
    decreases if x <= 0 then 0 else x
  {
    if x <= 0 then 0 else step + FirstTick(x - step, step)
  }

  /** How long after the start of its last successful call an owner may start the call
      that fences it. Calls of up to one interval start on ticks; longer ones leave a tick
      waiting, so that calls start between ticks, up to a whole interval before the next. */
  function LastLook(cfg: Config): int
    requires Sensible(cfg)
  {
    if cfg.latency <= cfg.interval then FirstTick(cfg.lease + cfg.latency, cfg.interval)
    else cfg.lease + cfg.latency + cfg.interval - 1
  }

  /** The last outcome write a self-fencing owner can make comes no later than the
      reaper's cutoff, both for an owner whose heartbeat never got through and for one
      whose last call took the full latency to return. */
  predicate InTime(cfg: Config)
    requires Sensible(cfg)
  {
    && cfg.startDelay + FirstTick(cfg.lease, cfg.interval) + cfg.latency + cfg.writeDelay <= cfg.cutoff
    && LastLook(cfg) + cfg.latency + cfg.writeDelay <= cfg.cutoff
  }

  // ---- what a goroutine decides ----

  datatype Result = NoCredits | Response(err: bool, code: int)

  datatype Outcome = Succeed | GiveUp | Retry | RateLimited

  // Worker.runJob
  function JobOutcome(res: Result, retry: nat, maxRetries: nat): Outcome {
    if res.NoCredits? then GiveUp
    else if !res.err && res.code == 200 then Succeed
    else if retry < maxRetries then Retry
    else GiveUp
  }

  // BufferDrainer.runItem
  function ItemOutcome(res: Result, retry: nat, maxRetries: nat): Outcome {
    if res.NoCredits? then GiveUp
    else if res.code == 429 then RateLimited
    else if !res.err && 200 <= res.code < 300 then Succeed
    else if retry < maxRetries then Retry
    else GiveUp
  }

  function Decide(kind: Kind, res: Result, retry: nat, maxRetries: nat): Outcome {
    if kind.Job? then JobOutcome(res, retry, maxRetries) else ItemOutcome(res, retry, maxRetries)
  }

  // ---- state ----

  datatype Call = Idle | InFlight | Landed

  /** `lastSuccess` and the ticker are the heartbeat goroutine's own variables: `due` is
      when it takes its next tick and `ring` the first tick after that. `anchor` is the
      start of the heartbeat (while `initial`) or of the call that succeeded last. */
  datatype Phase =
    | Starting(logged: bool)
    | Executing(anchor: int, initial: bool, lastSuccess: int, due: int, ring: int, call: Call)
    | Writing(deadline: int, result: Result)

  /** `kind` to `webhook` are what the owner read when it claimed the row. */
  datatype Owner = Owner(task: Id, kind: Kind, retry: nat, maxRetries: nat, webhook: bool, claimedAt: int, phase: Phase)

  datatype State = State(now: int, db: Db, owners: map<nat, Owner>, claims: nat)

  datatype Action =
    | Create(id: Id, kind: Kind, maxRetries: nat, scheduledAt: int, webhook: bool)
    | Cancel(id: Id)
    | Claim(id: Id)
    | Open(c: nat)
    | StartBeating(c: nat)
    | Refuse(c: nat)
    | Tick(c: nat)
    | BeatLands(c: nat)
    | BeatReturns(c: nat)
    | BeatFails(c: nat)
    | StrayBeat(id: Id)
    | Respond(c: nat, res: Result)
    | Commit(c: nat, retryAt: int)
    | LoseWrite(c: nat)
    | Crash(c: nat)
    | ReapRetry(id: Id, cutoff: int)
    | ReapFail(id: Id, cutoff: int)
    | Advance(t: int)

  function Init(): State {
    State(0, Db(map[], map[]), map[], 0)
  }

  /** The environment's promise: no live owner outstays its current deadline. */
  predicate MeetsDeadline(cfg: Config, o: Owner, t: int) {
    match o.phase
    case Starting(_) => t <= o.claimedAt + cfg.startDelay
    case Executing(_, _, _, due, _, call) => t <= due + (if call.Idle? then 0 else cfg.latency)
    case Writing(deadline, _) => t <= deadline
  }

  predicate Live(s: State, c: nat) {
    c in s.owners
  }

  predicate Beating(s: State, c: nat) {
    Live(s, c) && s.owners[c].phase.Executing?
  }

  /** A job passes to the gate with its attempt record, an item at once. */
  predicate AtTheGate(o: Owner) {
    o.phase.Starting? && (o.phase.logged || o.kind.Item?)
  }

  predicate Enabled(cfg: Config, s: State, a: Action) {
    match a
    case Create(id, _, _, _, _) => id !in s.db.rows
    case Cancel(id) => id in s.db.rows && s.db.rows[id].kind.Job?
    case Claim(id) => id in s.db.rows && s.db.rows[id].status.Pending? && s.db.rows[id].scheduledAt <= s.now
    case Open(c) => Live(s, c) && s.owners[c].phase == Starting(false) && s.owners[c].kind.Job?
    case StartBeating(c) => Live(s, c) && AtTheGate(s.owners[c])
    case Refuse(c) => Live(s, c) && AtTheGate(s.owners[c])
    case Tick(c) => Beating(s, c) && s.owners[c].phase.call.Idle? && s.now == s.owners[c].phase.due
    case BeatLands(c) => Beating(s, c) && s.owners[c].phase.call.InFlight?
    case BeatReturns(c) => Beating(s, c) && s.owners[c].phase.call.Landed?
    case BeatFails(c) => Beating(s, c) && !s.owners[c].phase.call.Idle?
    case StrayBeat(_) => true
    case Respond(c, res) => Beating(s, c) && res.Response?
    case Commit(c, _) => Live(s, c) && s.owners[c].phase.Writing?
    case LoseWrite(c) => Live(s, c) && s.owners[c].phase.Writing?
    case Crash(c) => Live(s, c)
    case ReapRetry(id, cutoff) =>
      cutoff <= s.now - cfg.cutoff && Stale(s.db, id, cutoff) && s.db.rows[id].retry < s.db.rows[id].maxRetries
    case ReapFail(id, cutoff) =>
      cutoff <= s.now - cfg.cutoff && Stale(s.db, id, cutoff) && s.db.rows[id].retry >= s.db.rows[id].maxRetries
    case Advance(t) => s.now <= t && forall c :: c in s.owners ==> MeetsDeadline(cfg, s.owners[c], t)
  }

  function SetPhase(s: State, c: nat, p: Phase): State
    requires Live(s, c)
  {
    s.(owners := s.owners[c := s.owners[c].(phase := p)])
  }

  function Drop(s: State, c: nat): State {
    s.(owners := s.owners - {c})
  }

  /** The outcome write: the branch comes from what the owner read when it claimed the
      row, the statement matches the row by id only. */
  function WriteOutcome(db: Db, o: Owner, res: Result, retryAt: int): Db {
    match Decide(o.kind, res, o.retry, o.maxRetries)
    case Succeed => CompleteRow(db, o.task, o.webhook)
    case GiveUp => FailRow(db, o.task, o.webhook)
    case Retry => RescheduleRow(db, o.task, retryAt, false)
    case RateLimited => RescheduleRow(db, o.task, retryAt, true)
  }

  /** The first tick after time t, counting on from `ring`. */
  function NextRing(ring: int, t: int, step: int): int
    decreases if ring > t then 0 else t - ring + 1
  {
    if ring > t || step <= 0 then ring else NextRing(ring + step, t, step)
  }

  /** Back to the select after a call that ended at time t. The ticker has kept one tick
      for a late reader and dropped the others. */
  function Rearm(p: Phase, t: int, step: int): Phase
    requires p.Executing?
  {
    if t < p.ring then p.(due := p.ring, ring := p.ring + step, call := Idle)
    else p.(due := t, ring := NextRing(p.ring, t, step), call := Idle)
  }

  /** One failed heartbeat call: fence, that is stop executing, once the last success
      is a whole lease ago. */
  function MissBeat(cfg: Config, s: State, c: nat): State
    requires Beating(s, c)
  {
    var p := s.owners[c].phase;
    if s.now - p.lastSuccess >= cfg.lease then Drop(s, c)
    else SetPhase(s, c, Rearm(p, s.now, cfg.interval))
  }

  function Apply(cfg: Config, s: State, a: Action): State
    requires Enabled(cfg, s, a)
  {
    match a
    case Create(id, kind, max, at, webhook) => s.(db := Insert(s.db, id, Fresh(kind, max, at, webhook)))
    case Cancel(id) => s.(db := CancelRow(s.db, id))
    case Claim(id) =>
      var r := s.db.rows[id];
      var o := Owner(id, r.kind, r.retry, r.maxRetries, r.webhook, s.now, Starting(false));
      State(s.now, ClaimRow(s.db, id, s.claims, s.now), s.owners[s.claims := o], s.claims + 1)
    case Open(c) =>
      SetPhase(s.(db := OpenAttempt(s.db, s.owners[c].task, s.owners[c].retry + 1)), c, Starting(true))
    case StartBeating(c) =>
      SetPhase(s, c, Executing(s.now, true, s.now, s.now + cfg.interval, s.now + 2 * cfg.interval, Idle))
    case Refuse(c) => SetPhase(s, c, Writing(s.now + cfg.writeDelay, NoCredits))
    case Tick(c) => SetPhase(s, c, s.owners[c].phase.(call := InFlight))
    case BeatLands(c) =>
      SetPhase(s.(db := Beat(s.db, s.owners[c].task, s.now)), c, s.owners[c].phase.(call := Landed))
    case BeatReturns(c) =>
      var p := s.owners[c].phase;
      SetPhase(s, c, Rearm(p.(anchor := p.due, initial := false, lastSuccess := s.now), s.now, cfg.interval))
    case BeatFails(c) => MissBeat(cfg, s, c)
    case StrayBeat(id) => s.(db := Beat(s.db, id, s.now))
    case Respond(c, res) => SetPhase(s, c, Writing(s.now + cfg.writeDelay, res))
    case Commit(c, at) => Drop(s.(db := WriteOutcome(s.db, s.owners[c], s.owners[c].phase.result, at)), c)
    case LoseWrite(c) => Drop(s, c)
    case Crash(c) => Drop(s, c)
    case ReapRetry(id, _) => s.(db := ReapRetryRow(s.db, id))
    case ReapFail(id, _) => s.(db := ReapFailRow(s.db, id))
    case Advance(t) => s.(now := t)
  }

  // ---- runs ----

  predicate Valid(cfg: Config, s: State, run: seq<Action>)
    decreases |run|
  {
    run == [] || (Enabled(cfg, s, run[0]) && Valid(cfg, Apply(cfg, s, run[0]), run[1..]))
  }

  function After(cfg: Config, s: State, run: seq<Action>): State
    requires Valid(cfg, s, run)
    decreases |run|
  {
    if run == [] then s else After(cfg, Apply(cfg, s, run[0]), run[1..])
  }

  /** The row an owner serves is still running under that owner's own claim. */
  predicate Holds(s: State, c: nat)
    requires Live(s, c)
  {
    var id := s.owners[c].task;
    id in s.db.rows && s.db.rows[id].status.Running? && s.db.rows[id].holder == c
  }

  ghost predicate AllHold(s: State) {
    forall c :: Live(s, c) ==> Holds(s, c)
  }

  lemma {:induction false} RunAppend(cfg: Config, s: State, run: seq<Action>, more: seq<Action>)
    requires Valid(cfg, s, run) && Valid(cfg, After(cfg, s, run), more)
    ensures Valid(cfg, s, run + more)
    ensures After(cfg, s, run + more) == After(cfg, After(cfg, s, run), more)
    decreases |run|
  {
    if run == [] {
      assert run + more == more;
    } else {
      assert (run + more)[1..] == run[1..] + more;
      RunAppend(cfg, Apply(cfg, s, run[0]), run[1..], more);
    }
  }

  lemma RunThen(cfg: Config, s: State, run: seq<Action>, a: Action)
    requires Valid(cfg, s, run) && Enabled(cfg, After(cfg, s, run), a)
    ensures Valid(cfg, s, run + [a]) && After(cfg, s, run + [a]) == Apply(cfg, After(cfg, s, run), a)
  {
    assert [a][1..] == [];
    RunAppend(cfg, s, run, [a]);
  }

  lemma FirstThen(cfg: Config, s: State, a: Action, rest: seq<Action>)
    requires Enabled(cfg, s, a) && Valid(cfg, Apply(cfg, s, a), rest)
    ensures Valid(cfg, s, [a] + rest) && After(cfg, s, [a] + rest) == After(cfg, Apply(cfg, s, a), rest)
  {
    assert ([a] + rest)[1..] == rest;
  }
}
