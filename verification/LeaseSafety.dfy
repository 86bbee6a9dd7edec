/** What every step of the lease protocol keeps, and what that means for whole runs. */
module LeaseSafety {
  import opened Tasks
  import opened Lease

  // ---- the invariant ----

  function Held(s: Status): nat {
    if s.Running? || s.Completed? || s.Failed? then 1 else 0
  }

  /** The delivery rows a job must have: one, with the event of its status, exactly when
      it has a webhook URL and a worker finished it. */
  function Owed(r: Row): seq<Event> {
    if r.webhook && r.finisher.ByWorker?
    then [if r.status.Completed? then JobCompleted else JobFailed]
    else []
  }

  ghost predicate Increasing(s: seq<nat>) {
    forall i, j :: 0 <= i < j < |s| ==> s[i] < s[j]
  }

  ghost predicate RowOk(r: Row) {
    && r.limited <= r.retry <= r.maxRetries + r.limited
    && (r.kind.Job? ==> r.limited == 0)
    && r.claims == r.retry + Held(r.status)
    && Increasing(r.attempts)
    && (forall n :: n in r.attempts ==> 1 <= n <= r.claims)
    && (r.finisher.Nobody? <==> !r.status.Completed? && !r.status.Failed?)
    && (r.status.Completed? ==> r.finisher.ByWorker?)
    && r.deliveries == Owed(r)
  }

  function Lag(cfg: Config, initial: bool): int {
    if initial then cfg.startDelay else 0
  }

  function Slack(cfg: Config, initial: bool): int {
    if initial then 0 else cfg.latency
  }

  function LookBound(cfg: Config, initial: bool): int
    requires Sensible(cfg)
  {
    if initial then FirstTick(cfg.lease, cfg.interval) else LastLook(cfg)
  }

  ghost predicate OnTick(x: int, step: int)
    requires 0 < step
    decreases if x <= 0 then 0 else x
  {
    x == 0 || (x > 0 && OnTick(x - step, step))
  }

  /** The next call starts in time, and `ring` is the first tick after it. Without long
      calls every call starts on a tick. */
  ghost predicate Ticking(cfg: Config, anchor: int, initial: bool, due: int, ring: int)
    requires Sensible(cfg)
  {
    && anchor < due <= anchor + LookBound(cfg, initial)
    && due < ring <= due + cfg.interval
    && (initial || cfg.latency <= cfg.interval ==> OnTick(ring - anchor, cfg.interval))
    && (cfg.latency <= cfg.interval ==> ring == due + cfg.interval)
  }

  /** The owner's variables against the sidecar's heartbeat `hb` of its row. */
  ghost predicate Timely(cfg: Config, o: Owner, now: int, hb: int)
    requires Sensible(cfg)
  {
    && hb <= now
    && MeetsDeadline(cfg, o, now)
    && match o.phase
       case Starting(_) => o.claimedAt <= hb
       case Executing(anchor, initial, lastSuccess, due, ring, call) =>
         && anchor - Lag(cfg, initial) <= hb
         && lastSuccess <= anchor + Slack(cfg, initial)
         && Ticking(cfg, anchor, initial, due, ring)
         && (!call.Idle? ==> due <= now)
         && (call.Landed? ==> due <= hb)
       case Writing(deadline, _) => deadline <= hb + cfg.cutoff
  }

  /** What the owner read at its claim is still in the row. */
  predicate Matches(o: Owner, r: Row) {
    o.kind == r.kind && o.retry == r.retry && o.maxRetries == r.maxRetries && o.webhook == r.webhook
  }

  ghost predicate OwnerOk(cfg: Config, s: State, c: nat)
    requires Sensible(cfg)
    requires Live(s, c)
  {
    var o := s.owners[c];
    && c < s.claims
    && Holds(s, c)
    && o.task in s.db.beats
    && (var r := s.db.rows[o.task];
        && Matches(o, r)
        && (o.phase == Starting(false) ==> forall n :: n in r.attempts ==> n < r.claims))
    && Timely(cfg, o, s.now, s.db.beats[o.task])
  }

  /** The sidecar holds a heartbeat for exactly the running rows. */
  ghost predicate SidecarOk(db: Db) {
    forall id :: id in db.beats <==> id in db.rows && db.rows[id].status.Running?
  }

  ghost predicate Inv(cfg: Config, s: State)
    requires Sensible(cfg)
  {
    && SidecarOk(s.db)
    && (forall id :: id in s.db.rows ==> RowOk(s.db.rows[id]))
    && (forall c :: Live(s, c) ==> OwnerOk(cfg, s, c))
  }

  // ---- steps ----

  /** An owner that has not been fenced at a tick before y is looked at again no later
      than the first tick at or past y. */
  lemma {:induction false} NextTickCovers(x: int, y: int, step: int)
    requires 0 < step && OnTick(x, step) && x < y
    ensures x + step <= FirstTick(y, step)
    decreases x
  {
    if x == 0 {
      TickNonNegative(y - step, step);
    } else {
      NextTickCovers(x - step, y - step, step);
    }
  }

  lemma {:induction false} TickNonNegative(x: int, step: int)
    requires 0 < step
    ensures 0 <= FirstTick(x, step)
    decreases if x <= 0 then 0 else x
  {
    if x <= 0 {
    } else {
      TickNonNegative(x - step, step);
    }
  }

  lemma {:induction false} FirstTickCovers(x: int, step: int)
    requires 0 < step
    ensures x <= FirstTick(x, step)
    decreases if x <= 0 then 0 else x
  {
    if x <= 0 {
    } else {
      FirstTickCovers(x - step, step);
    }
  }

  lemma {:induction false} NextRingIsNext(ring: int, t: int, step: int, anchor: int, aligned: bool)
    requires 0 < step && ring <= t + step
    requires aligned ==> OnTick(ring - anchor, step)
    ensures t < NextRing(ring, t, step) <= t + step
    ensures aligned ==> OnTick(NextRing(ring, t, step) - anchor, step)
    decreases if ring > t then 0 else t - ring + 1
  {
    if ring <= t {
      if aligned { NextTick(ring - anchor, step); }
      assert ring - anchor + step == ring + step - anchor;
      NextRingIsNext(ring + step, t, step, anchor, aligned);
    }
  }

  lemma NextTick(x: int, step: int)
    requires 0 < step && OnTick(x, step)
    ensures 0 <= x && OnTick(x + step, step)
  {
    assert x + step - step == x;
  }

  /** An unfenced miss at time t leads to a next call that is in time again. */
  lemma MissKeepsTicking(cfg: Config, p: Phase, t: int)
    requires Sensible(cfg) && p.Executing? && Ticking(cfg, p.anchor, p.initial, p.due, p.ring)
    requires p.lastSuccess <= p.anchor + Slack(cfg, p.initial)
    requires p.due <= t <= p.due + cfg.latency && t - p.lastSuccess < cfg.lease
    ensures var q := Rearm(p, t, cfg.interval);
            Ticking(cfg, q.anchor, q.initial, q.due, q.ring)
  {
    var aligned := p.initial || cfg.latency <= cfg.interval;
    var limit := cfg.lease + Slack(cfg, p.initial);
    FirstTickCovers(limit, cfg.interval);
    NextRingIsNext(p.ring, t, cfg.interval, p.anchor, aligned);
    if aligned {
      NextTick(p.ring - p.anchor, cfg.interval);
      assert p.ring - p.anchor + cfg.interval == p.ring + cfg.interval - p.anchor;
      if t < p.ring && p.ring - p.anchor > cfg.interval {
        NextTickCovers(p.ring - p.anchor - cfg.interval, limit, cfg.interval);
      } else if t < p.ring {
        NextTickCovers(0, limit, cfg.interval);
      }
    }
  }

  /** So does a success: the grid is then counted from the start of that call. */
  lemma SuccessKeepsTicking(cfg: Config, p: Phase, t: int)
    requires Sensible(cfg) && p.Executing? && Ticking(cfg, p.anchor, p.initial, p.due, p.ring)
    requires p.due <= t <= p.due + cfg.latency
    ensures var q := Rearm(p.(anchor := p.due, initial := false, lastSuccess := t), t, cfg.interval);
            Ticking(cfg, q.anchor, q.initial, q.due, q.ring)
  {
    FirstTickCovers(cfg.lease + cfg.latency, cfg.interval);
    NextTickCovers(0, cfg.lease + cfg.latency, cfg.interval);
    var aligned := cfg.latency <= cfg.interval;
    if aligned {
      NextTick(0, cfg.interval);
      NextTick(cfg.interval, cfg.interval);
    }
    NextRingIsNext(p.ring, t, cfg.interval, p.due, aligned);
  }

  /** What the reaper may take never belongs to a live owner. */
  lemma StaleIsOrphaned(cfg: Config, s: State, id: Id, cutoff: int, c: nat)
    requires Sensible(cfg) && InTime(cfg) && Inv(cfg, s)
    requires cutoff <= s.now - cfg.cutoff && Stale(s.db, id, cutoff)
    requires Live(s, c)
    ensures s.owners[c].task != id
  {
    assert OwnerOk(cfg, s, c);
    NextTickCovers(0, cfg.lease, cfg.interval);
  }

  /** A step that changes at most the row `id`, its heartbeat and the owner `c`. */
  lemma LocalStep(cfg: Config, s: State, s': State, id: Id, c: nat)
    requires Sensible(cfg) && Inv(cfg, s)
    requires s'.now == s.now && s.claims <= s'.claims
    requires s'.owners - {c} == s.owners - {c}
    requires s'.db.rows - {id} == s.db.rows - {id} && s'.db.beats - {id} == s.db.beats - {id}
    requires forall d: nat :: d != c && Live(s, d) ==> s.owners[d].task != id
    requires id in s'.db.beats <==> id in s'.db.rows && s'.db.rows[id].status.Running?
    requires id in s'.db.rows ==> RowOk(s'.db.rows[id])
    requires Live(s', c) ==> OwnerOk(cfg, s', c)
    ensures Inv(cfg, s')
  {
    forall i ensures i in s'.db.beats <==> i in s'.db.rows && s'.db.rows[i].status.Running? {
      if i != id { SameElsewhere(s.db.rows, s'.db.rows, id, i); SameElsewhere(s.db.beats, s'.db.beats, id, i); }
    }
    forall i | i in s'.db.rows ensures RowOk(s'.db.rows[i]) {
      if i != id { SameElsewhere(s.db.rows, s'.db.rows, id, i); }
    }
    forall d: nat | Live(s', d) ensures OwnerOk(cfg, s', d) {
      if d != c {
        SameElsewhere(s.owners, s'.owners, c, d);
        assert OwnerOk(cfg, s, d);
        SameElsewhere(s.db.rows, s'.db.rows, id, s.owners[d].task);
        SameElsewhere(s.db.beats, s'.db.beats, id, s.owners[d].task);
      }
    }
  }

  lemma SameElsewhere<K, V>(m: map<K, V>, m': map<K, V>, k: K, i: K)
    requires m' - {k} == m - {k} && i != k
    ensures i in m <==> i in m'
    ensures i in m ==> m'[i] == m[i]
  {
    assert i in m <==> i in m - {k};
    assert i in m' <==> i in m' - {k};
    if i in m { assert (m - {k})[i] == m[i] && (m' - {k})[i] == m'[i]; }
  }

  lemma OwnersElsewhere(cfg: Config, s: State, c: nat)
    requires Sensible(cfg) && Inv(cfg, s) && Live(s, c)
    ensures OwnerOk(cfg, s, c)
    ensures forall d: nat :: d != c && Live(s, d) ==> s.owners[d].task != s.owners[c].task
  {
    assert OwnerOk(cfg, s, c);
    forall d: nat | d != c && Live(s, d) ensures s.owners[d].task != s.owners[c].task {
      assert OwnerOk(cfg, s, d);
    }
  }

  lemma DropStep(cfg: Config, s: State, c: nat)
    requires Sensible(cfg) && Inv(cfg, s)
    ensures Inv(cfg, Drop(s, c))
  {
    forall d: nat | Live(Drop(s, c), d) ensures OwnerOk(cfg, Drop(s, c), d) {
      assert OwnerOk(cfg, s, d);
    }
  }

  lemma PhaseStep(cfg: Config, s: State, c: nat, p: Phase)
    requires Sensible(cfg) && Inv(cfg, s) && Live(s, c)
    requires p != Starting(false)
    requires OwnerOk(cfg, s, c) && Timely(cfg, s.owners[c].(phase := p), s.now, s.db.beats[s.owners[c].task])
    ensures Inv(cfg, SetPhase(s, c, p))
  {
    var s' := SetPhase(s, c, p);
    forall d: nat | Live(s', d) ensures OwnerOk(cfg, s', d) {
      assert OwnerOk(cfg, s, d);
    }
  }

  lemma OpenStep(cfg: Config, s: State, c: nat)
    requires Sensible(cfg) && Inv(cfg, s) && Enabled(cfg, s, Open(c))
    ensures Inv(cfg, Apply(cfg, s, Open(c)))
  {
    OwnersElsewhere(cfg, s, c);
    var r := s.db.rows[s.owners[c].task];
    assert forall i :: 0 <= i < |r.attempts| ==> r.attempts[i] in r.attempts;
    LocalStep(cfg, s, Apply(cfg, s, Open(c)), s.owners[c].task, c);
  }

  lemma LandStep(cfg: Config, s: State, c: nat)
    requires Sensible(cfg) && Inv(cfg, s) && Enabled(cfg, s, BeatLands(c))
    ensures Inv(cfg, Apply(cfg, s, BeatLands(c)))
  {
    OwnersElsewhere(cfg, s, c);
    LocalStep(cfg, s, Apply(cfg, s, BeatLands(c)), s.owners[c].task, c);
  }

  lemma MissStep(cfg: Config, s: State, c: nat)
    requires Sensible(cfg) && Inv(cfg, s) && Enabled(cfg, s, BeatFails(c))
    ensures Inv(cfg, MissBeat(cfg, s, c))
  {
    assert OwnerOk(cfg, s, c);
    var p := s.owners[c].phase;
    if s.now - p.lastSuccess >= cfg.lease {
      DropStep(cfg, s, c);
    } else {
      MissKeepsTicking(cfg, p, s.now);
      PhaseStep(cfg, s, c, Rearm(p, s.now, cfg.interval));
    }
  }

  lemma OwnerStaysTimely(cfg: Config, s: State, a: Action, c: nat)
    requires Sensible(cfg) && InTime(cfg) && Enabled(cfg, s, a) && Live(s, c) && OwnerOk(cfg, s, c)
    requires (a.StartBeating? || a.Refuse? || a.Tick? || a.BeatReturns? || a.Respond?) && a.c == c
    ensures Live(Apply(cfg, s, a), c) && Timely(cfg, Apply(cfg, s, a).owners[c], s.now, s.db.beats[s.owners[c].task])
  {
    NextTickCovers(0, cfg.lease, cfg.interval);
    if a.StartBeating? {
      NextTick(0, cfg.interval);
      NextTick(cfg.interval, cfg.interval);
    } else if a.BeatReturns? {
      SuccessKeepsTicking(cfg, s.owners[c].phase, s.now);
    }
  }

  /** Steps that only move the owner to another phase. */
  lemma OwnerStep(cfg: Config, s: State, a: Action, c: nat)
    requires Sensible(cfg) && InTime(cfg) && Inv(cfg, s) && Enabled(cfg, s, a)
    requires (a.StartBeating? || a.Refuse? || a.Tick? || a.BeatReturns? || a.Respond?) && a.c == c
    ensures Inv(cfg, Apply(cfg, s, a))
  {
    assert OwnerOk(cfg, s, c);
    OwnerStaysTimely(cfg, s, a, c);
    PhaseStep(cfg, s, c, Apply(cfg, s, a).owners[c].phase);
  }

  lemma OutcomeIsLocal(db: Db, o: Owner, res: Result, at: int)
    requires o.task in db.rows
    ensures var db' := WriteOutcome(db, o, res, at);
            && db'.rows.Keys == db.rows.Keys && o.task !in db'.beats
            && db'.rows - {o.task} == db.rows - {o.task} && db'.beats - {o.task} == db.beats - {o.task}
  {
  }

  lemma OutcomeKeepsRow(db: Db, o: Owner, res: Result, at: int)
    requires o.task in db.rows && RowOk(db.rows[o.task]) && db.rows[o.task].status.Running?
    requires Matches(o, db.rows[o.task])
    ensures var rows' := WriteOutcome(db, o, res, at).rows;
            o.task in rows' && RowOk(rows'[o.task]) && !rows'[o.task].status.Running?
  {
  }

  lemma CommitStep(cfg: Config, s: State, c: nat, at: int)
    requires Sensible(cfg) && Inv(cfg, s) && Enabled(cfg, s, Commit(c, at))
    ensures Inv(cfg, Apply(cfg, s, Commit(c, at)))
  {
    OwnersElsewhere(cfg, s, c);
    var s' := Apply(cfg, s, Commit(c, at));
    OutcomeIsLocal(s.db, s.owners[c], s.owners[c].phase.result, at);
    OutcomeKeepsRow(s.db, s.owners[c], s.owners[c].phase.result, at);
    LocalStep(cfg, s, s', s.owners[c].task, c);
  }

  lemma ReapStep(cfg: Config, s: State, a: Action, id: Id)
    requires Sensible(cfg) && InTime(cfg) && Inv(cfg, s) && Enabled(cfg, s, a)
    requires (a.ReapRetry? || a.ReapFail?) && a.id == id
    ensures Inv(cfg, Apply(cfg, s, a))
  {
    forall d: nat | Live(s, d) ensures s.owners[d].task != id && d < s.claims {
      assert OwnerOk(cfg, s, d);
      StaleIsOrphaned(cfg, s, id, a.cutoff, d);
    }
    LocalStep(cfg, s, Apply(cfg, s, a), id, s.claims);
  }

  lemma TableStep(cfg: Config, s: State, a: Action, id: Id)
    requires Sensible(cfg) && Inv(cfg, s) && Enabled(cfg, s, a)
    requires (a.Create? || a.Cancel? || a.Claim?) && a.id == id
    ensures Inv(cfg, Apply(cfg, s, a))
  {
    var s' := Apply(cfg, s, a);
    if a.Cancel? && !s.db.rows[id].status.Pending? {
      assert s' == s;
    } else {
      forall d: nat | Live(s, d) ensures s.owners[d].task != id && d < s.claims {
        assert OwnerOk(cfg, s, d);
      }
      LocalStep(cfg, s, s', id, s.claims);
    }
  }

  lemma StrayBeatStep(cfg: Config, s: State, id: Id)
    requires Sensible(cfg) && Inv(cfg, s)
    ensures Inv(cfg, Apply(cfg, s, StrayBeat(id)))
  {
    var s' := Apply(cfg, s, StrayBeat(id));
    forall d: nat | Live(s', d) ensures OwnerOk(cfg, s', d) {
      assert OwnerOk(cfg, s, d);
    }
  }

  lemma AdvanceStep(cfg: Config, s: State, t: int)
    requires Sensible(cfg) && Inv(cfg, s) && Enabled(cfg, s, Advance(t))
    ensures Inv(cfg, Apply(cfg, s, Advance(t)))
  {
    var s' := Apply(cfg, s, Advance(t));
    forall d: nat | Live(s', d) ensures OwnerOk(cfg, s', d) {
      assert OwnerOk(cfg, s, d);
    }
  }

  lemma StepKeepsInv(cfg: Config, s: State, a: Action)
    requires Sensible(cfg) && InTime(cfg) && Inv(cfg, s) && Enabled(cfg, s, a)
    ensures Inv(cfg, Apply(cfg, s, a))
  {
    match a
    case Create(id, _, _, _, _) => TableStep(cfg, s, a, id);
    case Cancel(id) => TableStep(cfg, s, a, id);
    case Claim(id) => TableStep(cfg, s, a, id);
    case ReapRetry(id, _) => ReapStep(cfg, s, a, id);
    case ReapFail(id, _) => ReapStep(cfg, s, a, id);
    case StrayBeat(id) => StrayBeatStep(cfg, s, id);
    case Commit(c, at) => CommitStep(cfg, s, c, at);
    case Open(c) => OpenStep(cfg, s, c);
    case BeatLands(c) => LandStep(cfg, s, c);
    case BeatFails(c) => MissStep(cfg, s, c);
    case LoseWrite(c) => DropStep(cfg, s, c);
    case Crash(c) => DropStep(cfg, s, c);
    case Advance(t) => AdvanceStep(cfg, s, t);
    case _ => OwnerStep(cfg, s, a, a.c);
  }

  // ---- whole runs ----

  lemma {:induction false} RunKeepsInv(cfg: Config, s: State, run: seq<Action>)
    requires Sensible(cfg) && InTime(cfg) && Inv(cfg, s) && Valid(cfg, s, run)
    ensures Inv(cfg, After(cfg, s, run))
    decreases |run|
  {
    if run == [] {
    } else {
      StepKeepsInv(cfg, s, run[0]);
      RunKeepsInv(cfg, Apply(cfg, s, run[0]), run[1..]);
    }
  }

  lemma Reachable(cfg: Config, run: seq<Action>)
    requires Sensible(cfg) && InTime(cfg) && Valid(cfg, Init(), run)
    ensures Inv(cfg, After(cfg, Init(), run))
  {
    RunKeepsInv(cfg, Init(), run);
  }

  /** A live, unfenced owner's row is still running under that owner's own claim, so no
      job or item ever has two. */
  lemma OwnershipIsExclusive(cfg: Config, run: seq<Action>)
    requires Sensible(cfg) && InTime(cfg) && Valid(cfg, Init(), run)
    ensures var s := After(cfg, Init(), run);
            && AllHold(s)
            && forall c: nat, d: nat :: Live(s, c) && Live(s, d) && s.owners[c].task == s.owners[d].task ==> c == d
  {
    Reachable(cfg, run);
    var s := After(cfg, Init(), run);
    forall c: nat | Live(s, c) ensures Holds(s, c) {
      assert OwnerOk(cfg, s, c);
    }
  }

  /** The answers that count as success: 200 for a job, any 2xx for a buffer item. */
  predicate Accepted(kind: Kind, res: Result) {
    res.Response? && !res.err && (if kind.Job? then res.code == 200 else 200 <= res.code <= 299)
  }

  predicate TooManyRequests(kind: Kind, res: Result) {
    kind.Item? && res.Response? && res.code == 429
  }

  predicate GoesBack(r: Row, res: Result) {
    && !Accepted(r.kind, res) && res.Response?
    && (r.retry < r.maxRetries || TooManyRequests(r.kind, res))
  }

  /** What the answer `res` must make of the row r. The row is completed exactly on success,
      goes back exactly while its budget lasts or on a 429, which is also when it costs one
      retry, and fails otherwise. */
  predicate Answered(r: Row, res: Result, at: int, r': Row) {
    && (r'.status.Completed? <==> Accepted(r.kind, res))
    && (r'.status.Pending? <==> GoesBack(r, res))
    && (r'.status.Failed? || r'.status.Completed? || r'.status.Pending?)
    && r'.retry == r.retry + (if r'.status.Pending? then 1 else 0)
    && r'.limited == r.limited + (if TooManyRequests(r.kind, res) then 1 else 0)
    && r'.scheduledAt == (if r'.status.Pending? then at else r.scheduledAt)
    && r'.claims == r.claims && r'.holder == r.holder && r'.attempts == r.attempts
    && r'.kind == r.kind && r'.maxRetries == r.maxRetries && r'.webhook == r.webhook
  }

  lemma OutcomeAnswers(db: Db, o: Owner, res: Result, at: int)
    requires o.task in db.rows && Matches(o, db.rows[o.task])
    ensures var rows' := WriteOutcome(db, o, res, at).rows;
            && o.task in rows' && rows' == db.rows[o.task := rows'[o.task]]
            && Answered(db.rows[o.task], res, at, rows'[o.task])
  {
  }

  /** The outcome write that matches on id alone finds its own claim and the budget the
      owner decided with, answers that row and touches no other. */
  lemma OutcomeWriteHitsOwnClaim(cfg: Config, run: seq<Action>, c: nat, at: int)
    requires Sensible(cfg) && InTime(cfg) && Valid(cfg, Init(), run + [Commit(c, at)])
    ensures Valid(cfg, Init(), run)
    ensures var s, rows' := After(cfg, Init(), run), After(cfg, Init(), run + [Commit(c, at)]).db.rows;
            && Live(s, c) && Holds(s, c) && s.owners[c].phase.Writing?
            && (var id := s.owners[c].task;
                && id in rows' && rows' == s.db.rows[id := rows'[id]]
                && Matches(s.owners[c], s.db.rows[id])
                && Answered(s.db.rows[id], s.owners[c].phase.result, at, rows'[id]))
  {
    RunSplit(cfg, Init(), run, [Commit(c, at)]);
    Reachable(cfg, run);
    var s := After(cfg, Init(), run);
    assert OwnerOk(cfg, s, c);
    assert [Commit(c, at)][1..] == [];
    OutcomeAnswers(s.db, s.owners[c], s.owners[c].phase.result, at);
  }

  lemma {:induction false} RunSplit(cfg: Config, s: State, run: seq<Action>, more: seq<Action>)
    requires Valid(cfg, s, run + more)
    ensures Valid(cfg, s, run) && Valid(cfg, After(cfg, s, run), more)
    ensures After(cfg, s, run + more) == After(cfg, After(cfg, s, run), more)
    decreases |run|
  {
    if run == [] {
      assert run + more == more;
    } else {
      assert (run + more)[1..] == run[1..] + more;
      RunSplit(cfg, Apply(cfg, s, run[0]), run[1..], more);
    }
  }

  lemma TerminalStep(cfg: Config, s: State, a: Action, id: Id)
    requires Sensible(cfg) && InTime(cfg) && Inv(cfg, s) && Enabled(cfg, s, a)
    requires id in s.db.rows && Terminal(s.db.rows[id].status)
    ensures id in Apply(cfg, s, a).db.rows && Apply(cfg, s, a).db.rows[id] == s.db.rows[id]
  {
    if (a.Commit? || a.Open?) && Live(s, a.c) {
      assert OwnerOk(cfg, s, a.c);
    }
  }

  /** completed, failed and cancelled are absorbing: from any reachable state on, no run
      changes a terminal row in any way. */
  lemma {:induction false} TerminalIsAbsorbing(cfg: Config, s: State, run: seq<Action>, id: Id)
    requires Sensible(cfg) && InTime(cfg) && Inv(cfg, s) && Valid(cfg, s, run)
    requires id in s.db.rows && Terminal(s.db.rows[id].status)
    ensures id in After(cfg, s, run).db.rows && After(cfg, s, run).db.rows[id] == s.db.rows[id]
    decreases |run|
  {
    if run == [] {
    } else {
      TerminalStep(cfg, s, run[0], id);
      StepKeepsInv(cfg, s, run[0]);
      TerminalIsAbsorbing(cfg, Apply(cfg, s, run[0]), run[1..], id);
    }
  }

  /** Claims are counted by retry_count, the budget bounds both, no two attempts of a
      job share an attempt_num, and the outbox holds exactly what is owed. A buffer item
      may exceed its budget by the number of 429 answers, and by no more. */
  lemma Bookkeeping(cfg: Config, run: seq<Action>, id: Id)
    requires Sensible(cfg) && InTime(cfg) && Valid(cfg, Init(), run)
    requires id in After(cfg, Init(), run).db.rows
    ensures var r := After(cfg, Init(), run).db.rows[id];
            && r.claims == r.retry + Held(r.status)
            && r.retry <= r.maxRetries + r.limited && r.claims <= r.maxRetries + 1 + r.limited
            && (r.kind.Job? ==> r.retry <= r.maxRetries && r.claims <= r.maxRetries + 1)
            && (forall i, j :: 0 <= i < j < |r.attempts| ==> r.attempts[i] != r.attempts[j])
            && r.deliveries == Owed(r)
  {
    Reachable(cfg, run);
  }

  // ---- progress ----

  function Rank(r: Row): int {
    2 * (r.maxRetries + r.limited - r.retry) + (if r.status.Pending? then 2 else if r.status.Running? then 1 else 0)
  }

  predicate Progress(r: Row, r': Row) {
    && 0 <= Rank(r')
    && (r'.limited == r.limited ==> Rank(r') <= Rank(r) && (r'.status != r.status ==> Rank(r') < Rank(r)))
    && (r'.limited != r.limited ==> r.kind.Item? && r'.limited == r.limited + 1 && Rank(r') == Rank(r) + 1)
  }

  lemma OutcomeIsProgress(db: Db, o: Owner, res: Result, at: int)
    requires o.task in db.rows && RowOk(db.rows[o.task]) && db.rows[o.task].status.Running?
    requires Matches(o, db.rows[o.task])
    ensures var rows' := WriteOutcome(db, o, res, at).rows;
            o.task in rows' && Progress(db.rows[o.task], rows'[o.task])
  {
  }

  lemma CommitIsProgress(cfg: Config, s: State, c: nat, at: int, id: Id)
    requires Sensible(cfg) && Inv(cfg, s) && Enabled(cfg, s, Commit(c, at)) && id in s.db.rows
    ensures id in Apply(cfg, s, Commit(c, at)).db.rows
    ensures Progress(s.db.rows[id], Apply(cfg, s, Commit(c, at)).db.rows[id])
  {
    var o := s.owners[c];
    assert RowOk(s.db.rows[id]) && OwnerOk(cfg, s, c);
    OutcomeIsLocal(s.db, o, o.phase.result, at);
    if id == o.task {
      OutcomeIsProgress(s.db, o, o.phase.result, at);
    } else {
      SameElsewhere(s.db.rows, Apply(cfg, s, Commit(c, at)).db.rows, o.task, id);
    }
  }

  /** Every change of status brings a row closer to a terminal one, unless it answers a
      429; and Rank is never negative. */
  lemma StatusChangeLowersRank(cfg: Config, s: State, a: Action, id: Id)
    requires Sensible(cfg) && InTime(cfg) && Inv(cfg, s) && Enabled(cfg, s, a) && id in s.db.rows
    ensures id in Apply(cfg, s, a).db.rows
    ensures Progress(s.db.rows[id], Apply(cfg, s, a).db.rows[id])
  {
    assert RowOk(s.db.rows[id]);
    if a.Commit? { CommitIsProgress(cfg, s, a.c, a.retryAt, id); }
  }
}
