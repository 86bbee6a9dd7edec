/** The timing condition is exact: where it fails, some run lets an owner write the
    outcome of a row the reaper has already taken from it. */
module LeaseLimits {
  import opened Tasks
  import opened Lease
  import opened LeaseSafety

  /** A single job, claimed at time 0, whose owner has been beating since `anchor`. */
  function Scene(now: int, hb: int, p: Phase): State {
    var row := Fresh(Job, 0, 0, false).(status := Running, claims := 1, attempts := [1]);
    State(now, Db(map[0 := row], map[0 := hb]), map[0 := Owner(0, Job, 0, 0, false, 0, p)], 1)
  }

  /** An idle heartbeat whose next call starts on a tick. */
  function Beats(anchor: int, initial: bool, lastSuccess: int, due: int, step: int): Phase {
    Executing(anchor, initial, lastSuccess, due, due + step, Idle)
  }

  ghost predicate Reaches(cfg: Config, s: State, run: seq<Action>) {
    Valid(cfg, Init(), run) && After(cfg, Init(), run) == s
  }

  lemma Extend(cfg: Config, s: State, run: seq<Action>, a: Action) returns (run': seq<Action>)
    requires Reaches(cfg, s, run) && Enabled(cfg, s, a)
    ensures Reaches(cfg, Apply(cfg, s, a), run')
  {
    RunThen(cfg, Init(), run, a);
    run' := run + [a];
  }

  lemma Begin(cfg: Config, delay: int) returns (run: seq<Action>)
    requires Sensible(cfg) && 0 <= delay <= cfg.startDelay
    ensures Reaches(cfg, Scene(delay, 0, Beats(delay, true, delay, delay + cfg.interval, cfg.interval)), run)
  {
    var s := Init();
    run := [];
    run := Extend(cfg, s, run, Create(0, Job, 0, 0, false)); s := Apply(cfg, s, Create(0, Job, 0, 0, false));
    run := Extend(cfg, s, run, Claim(0));                    s := Apply(cfg, s, Claim(0));
    run := Extend(cfg, s, run, Open(0));                     s := Apply(cfg, s, Open(0));
    assert s.db.rows[0].attempts == [1];
    assert s.db == Scene(0, 0, Starting(true)).db;
    assert s.owners == Scene(0, 0, Starting(true)).owners;
    run := Wait(cfg, 0, 0, Starting(true), delay, run);
    s := Scene(delay, 0, Starting(true));
    run := Extend(cfg, s, run, StartBeating(0));
    assert Apply(cfg, s, StartBeating(0))
        == Scene(delay, 0, Beats(delay, true, delay, delay + cfg.interval, cfg.interval));
  }

  lemma Wait(cfg: Config, now: int, hb: int, p: Phase, t: int, run: seq<Action>) returns (run': seq<Action>)
    requires Reaches(cfg, Scene(now, hb, p), run)
    requires now <= t && MeetsDeadline(cfg, Owner(0, Job, 0, 0, false, 0, p), t)
    ensures Reaches(cfg, Scene(t, hb, p), run')
  {
    run' := Extend(cfg, Scene(now, hb, p), run, Advance(t));
    assert Apply(cfg, Scene(now, hb, p), Advance(t)) == Scene(t, hb, p);
  }

  lemma Ring(cfg: Config, now: int, hb: int, p: Phase, run: seq<Action>) returns (run': seq<Action>)
    requires p.Executing? && p.call.Idle? && now <= p.due && Reaches(cfg, Scene(now, hb, p), run)
    ensures Reaches(cfg, Scene(p.due, hb, p.(call := InFlight)), run')
  {
    run' := Wait(cfg, now, hb, p, p.due, run);
    run' := Extend(cfg, Scene(p.due, hb, p), run', Tick(0));
    assert Apply(cfg, Scene(p.due, hb, p), Tick(0)) == Scene(p.due, hb, p.(call := InFlight));
  }

  lemma Miss(cfg: Config, hb: int, p: Phase, run: seq<Action>) returns (run': seq<Action>)
    requires p.Executing? && p.call.InFlight? && p.due - p.lastSuccess < cfg.lease && p.due < p.ring
    requires Reaches(cfg, Scene(p.due, hb, p), run)
    ensures Reaches(cfg, Scene(p.due, hb, p.(due := p.ring, ring := p.ring + cfg.interval, call := Idle)), run')
  {
    run' := Extend(cfg, Scene(p.due, hb, p), run, BeatFails(0));
    assert Apply(cfg, Scene(p.due, hb, p), BeatFails(0))
        == Scene(p.due, hb, p.(due := p.ring, ring := p.ring + cfg.interval, call := Idle));
  }

  lemma Land(cfg: Config, now: int, hb: int, p: Phase, run: seq<Action>) returns (run': seq<Action>)
    requires p.Executing? && p.call.InFlight? && Reaches(cfg, Scene(now, hb, p), run)
    ensures Reaches(cfg, Scene(now, now, p.(call := Landed)), run')
  {
    run' := Extend(cfg, Scene(now, hb, p), run, BeatLands(0));
    assert Apply(cfg, Scene(now, hb, p), BeatLands(0)) == Scene(now, now, p.(call := Landed));
  }

  function Returned(p: Phase, t: int, step: int): Phase
    requires p.Executing?
  {
    Rearm(p.(anchor := p.due, initial := false, lastSuccess := t), t, step)
  }

  lemma Return(cfg: Config, now: int, hb: int, p: Phase, run: seq<Action>) returns (run': seq<Action>)
    requires p.Executing? && p.call.Landed? && Reaches(cfg, Scene(now, hb, p), run)
    ensures Reaches(cfg, Scene(now, hb, Returned(p, now, cfg.interval)), run')
  {
    run' := Extend(cfg, Scene(now, hb, p), run, BeatReturns(0));
    assert Apply(cfg, Scene(now, hb, p), BeatReturns(0)) == Scene(now, hb, Returned(p, now, cfg.interval));
  }

  lemma Answer(cfg: Config, now: int, hb: int, p: Phase, run: seq<Action>) returns (run': seq<Action>)
    requires p.Executing? && Reaches(cfg, Scene(now, hb, p), run)
    ensures Reaches(cfg, Scene(now, hb, Writing(now + cfg.writeDelay, Response(false, 200))), run')
  {
    var a := Respond(0, Response(false, 200));
    run' := Extend(cfg, Scene(now, hb, p), run, a);
    assert Apply(cfg, Scene(now, hb, p), a) == Scene(now, hb, Writing(now + cfg.writeDelay, Response(false, 200)));
  }

  lemma MissOne(cfg: Config, now: int, hb: int, p: Phase, run: seq<Action>) returns (run': seq<Action>)
    requires p.Executing? && p.call.Idle? && now <= p.due < p.ring && p.due - p.lastSuccess < cfg.lease
    requires Reaches(cfg, Scene(now, hb, p), run)
    ensures Reaches(cfg, Scene(p.due, hb, p.(due := p.ring, ring := p.ring + cfg.interval)), run')
  {
    run' := Ring(cfg, now, hb, p, run);
    run' := Miss(cfg, hb, p.(call := InFlight), run');
  }

  /** Calls that fail at once keep the owner unfenced up to the tick that notices. */
  lemma {:induction false} MissBeats(cfg: Config, now: int, hb: int, p: Phase, left: int, run: seq<Action>)
    returns (now': int, run': seq<Action>)
    requires Sensible(cfg) && p.Executing? && p.call.Idle? && now <= p.due && p.ring == p.due + cfg.interval
    requires left == p.lastSuccess + cfg.lease - p.due
    requires Reaches(cfg, Scene(now, hb, p), run)
    ensures var due := p.due + FirstTick(left, cfg.interval);
            now' <= due && Reaches(cfg, Scene(now', hb, p.(due := due, ring := due + cfg.interval)), run')
    decreases if left <= 0 then 0 else left
  {
    if left <= 0 {
      now', run' := now, run;
    } else {
      run' := MissOne(cfg, now, hb, p, run);
      var next := p.(due := p.ring, ring := p.ring + cfg.interval);
      now', run' := MissBeats(cfg, p.due, hb, next, left - cfg.interval, run');
    }
  }

  /** From the tick that would notice, the call hangs, the response arrives, the write is
      slow, and the reaper comes first. */
  lemma Overtaken(cfg: Config, now: int, hb: int, p: Phase, run: seq<Action>) returns (run': seq<Action>)
    requires Sensible(cfg) && p.Executing? && p.call.Idle? && now <= p.due
    requires hb + cfg.cutoff < p.due + cfg.latency + cfg.writeDelay
    requires Reaches(cfg, Scene(now, hb, p), run)
    ensures StealsOutcome(cfg, run')
  {
    var answered := p.due + cfg.latency;
    var end := answered + cfg.writeDelay;
    run' := Ring(cfg, now, hb, p, run);
    run' := Wait(cfg, p.due, hb, p.(call := InFlight), answered, run');
    run' := Answer(cfg, answered, hb, p.(call := InFlight), run');
    run' := Wait(cfg, answered, hb, Writing(end, Response(false, 200)), end, run');
    var s := Scene(end, hb, Writing(end, Response(false, 200)));
    run' := Extend(cfg, s, run', ReapFail(0, end - cfg.cutoff));
    s := Apply(cfg, s, ReapFail(0, end - cfg.cutoff));
    assert Enabled(cfg, s, Commit(0, 0)) && !Holds(s, 0);
  }

  /** After `run` some owner may still write an outcome to a row it no longer holds. */
  ghost predicate StealsOutcome(cfg: Config, run: seq<Action>) {
    && Valid(cfg, Init(), run)
    && exists c: nat :: Enabled(cfg, After(cfg, Init(), run), Commit(c, 0)) && !Holds(After(cfg, Init(), run), c)
  }

  lemma {:induction false} FirstTickShift(x: int, step: int)
    requires 0 < step && 0 < x
    ensures step + FirstTick(x - step, step) == FirstTick(x, step)
  {
  }

  lemma LateWithoutABeat(cfg: Config) returns (run: seq<Action>)
    requires Sensible(cfg)
    requires cfg.startDelay + FirstTick(cfg.lease, cfg.interval) + cfg.latency + cfg.writeDelay > cfg.cutoff
    ensures StealsOutcome(cfg, run)
  {
    var start, i := cfg.startDelay, cfg.interval;
    var p := Beats(start, true, start, start + i, i);
    run := Begin(cfg, start);
    var now;
    now, run := MissBeats(cfg, start, 0, p, cfg.lease - i, run);
    FirstTickShift(cfg.lease, i);
    var due := p.due + FirstTick(cfg.lease - i, i);
    run := Overtaken(cfg, now, 0, p.(due := due, ring := due + i), run);
  }

  /** A call that lands at once and returns `duration` later. */
  lemma SlowCall(cfg: Config, now: int, hb: int, p: Phase, duration: int, run: seq<Action>) returns (run': seq<Action>)
    requires p.Executing? && p.call.Idle? && now <= p.due && 0 <= duration <= cfg.latency
    requires Reaches(cfg, Scene(now, hb, p), run)
    ensures Reaches(cfg, Scene(p.due + duration, p.due, Returned(p, p.due + duration, cfg.interval)), run')
  {
    run' := Ring(cfg, now, hb, p, run);
    run' := Land(cfg, p.due, hb, p.(call := InFlight), run');
    run' := Wait(cfg, p.due, p.due, p.(call := Landed), p.due + duration, run');
    run' := Return(cfg, p.due + duration, p.due, p.(call := Landed), run');
  }

  lemma SlowBeat(cfg: Config) returns (run: seq<Action>)
    requires Sensible(cfg) && cfg.latency <= cfg.interval
    ensures var i, end := cfg.interval, cfg.interval + cfg.latency;
            Reaches(cfg, Scene(end, i, Beats(i, false, end, i + i, i)), run)
  {
    var i, end := cfg.interval, cfg.interval + cfg.latency;
    run := Begin(cfg, 0);
    run := SlowCall(cfg, 0, 0, Beats(0, true, 0, i, i), cfg.latency, run);
    assert NextRing(i + i, i + i, i) == NextRing(i + i + i, i + i, i) == i + i + i;
  }

  lemma LateAfterASlowBeat(cfg: Config) returns (run: seq<Action>)
    requires Sensible(cfg) && cfg.latency <= cfg.interval
    requires FirstTick(cfg.lease + cfg.latency, cfg.interval) + cfg.latency + cfg.writeDelay > cfg.cutoff
    ensures StealsOutcome(cfg, run)
  {
    var i, end := cfg.interval, cfg.interval + cfg.latency;
    run := SlowBeat(cfg);
    var p := Beats(i, false, end, i + i, i);
    var now;
    now, run := MissBeats(cfg, end, i, p, cfg.lease + cfg.latency - i, run);
    FirstTickShift(cfg.lease + cfg.latency, i);
    var due := p.due + FirstTick(cfg.lease + cfg.latency - i, i);
    run := Overtaken(cfg, now, i, p.(due := due, ring := due + i), run);
  }

  // ---- calls longer than an interval ----

  /** Each successful call of one interval and one unit starts the next call one unit
      closer to the following tick. */
  lemma {:induction false} Drift(cfg: Config, gap: int) returns (now: int, hb: int, p: Phase, run: seq<Action>)
    requires Sensible(cfg) && cfg.interval < cfg.latency && 1 <= gap <= cfg.interval
    ensures p.Executing? && p.call.Idle? && now <= p.due && p.ring == p.due + gap
    ensures Reaches(cfg, Scene(now, hb, p), run)
    decreases cfg.interval - gap
  {
    var i := cfg.interval;
    if gap == i {
      now, hb, p := 0, 0, Beats(0, true, 0, i, i);
      run := Begin(cfg, 0);
    } else {
      var before;
      now, hb, before, run := Drift(cfg, gap + 1);
      run := SlowCall(cfg, now, hb, before, i + 1, run);
      now, hb := before.due + i + 1, before.due;
      assert NextRing(before.ring, now, i) == NextRing(before.ring + i, now, i) == before.ring + i;
      p := Returned(before, now, i);
    }
  }

  /** x less a multiple of the step, between 1 and the step. */
  function Residue(x: int, step: int): (r: int)
    requires 0 < step && 1 <= x
    ensures 1 <= r <= step && r <= x && OnTick(x - r, step)
  {
    if x <= step then x else Residue(x - step, step)
  }

  lemma {:induction false} FirstTickPast(x: int, step: int)
    requires 0 < step && OnTick(x, step)
    ensures FirstTick(x + 1, step) == x + step
    decreases x
  {
    if x == 0 {
      assert FirstTick(1 - step, step) == 0;
    } else {
      FirstTickPast(x - step, step);
    }
  }

  /** If `last` is a tick, the first tick past it comes a whole step later. */
  lemma {:induction false} RingPast(ring: int, t: int, last: int, step: int)
    requires 0 < step && ring <= t <= last && OnTick(last - ring, step)
    ensures NextRing(ring, t, step) + FirstTick(last + 1 - NextRing(ring, t, step), step) == last + step
    decreases t - ring
  {
    var next := ring + step;
    assert last - ring - step == last - next;
    if next <= t {
      RingPast(next, t, last, step);
    } else if last == ring {
      assert FirstTick(1 - step, step) == 0;
    } else {
      FirstTickPast(last - next, step);
    }
  }

  /** A call of the full latency that starts `gap` before a tick, then one that fails at
      once; the next call is on a tick again. */
  lemma LongCall(cfg: Config, gap: int) returns (start: int, p: Phase, run: seq<Action>)
    requires Sensible(cfg) && cfg.interval < cfg.latency && 1 <= gap <= cfg.interval
    ensures var end := start + cfg.latency;
            && p.Executing? && p.call.Idle? && p.lastSuccess == end && end <= p.due && p.ring == p.due + cfg.interval
            && p.due == NextRing(start + gap, end, cfg.interval)
            && Reaches(cfg, Scene(end, start, p), run)
  {
    var now, hb, q;
    now, hb, q, run := Drift(cfg, gap);
    start := q.due;
    run := SlowCall(cfg, now, hb, q, cfg.latency, run);
    q := Returned(q, start + cfg.latency, cfg.interval);
    NextRingIsNext(start + gap, start + cfg.latency, cfg.interval, 0, false);
    run := MissOne(cfg, start + cfg.latency, start, q, run);
    p := q.(due := q.ring, ring := q.ring + cfg.interval);
  }

  lemma LateWithLongCalls(cfg: Config) returns (run: seq<Action>)
    requires Sensible(cfg) && cfg.interval < cfg.latency
    requires LastLook(cfg) + cfg.latency + cfg.writeDelay > cfg.cutoff
    ensures StealsOutcome(cfg, run)
  {
    var i, gap := cfg.interval, Residue(cfg.latency + cfg.lease - 1, cfg.interval);
    var now, start, p;
    start, p, run := LongCall(cfg, gap);
    var end := start + cfg.latency;
    now, run := MissBeats(cfg, end, start, p, end + cfg.lease - p.due, run);
    assert end + cfg.lease - 1 - (start + gap) == cfg.latency + cfg.lease - 1 - gap;
    RingPast(start + gap, end, end + cfg.lease - 1, i);
    var due := end + cfg.lease - 1 + i;
    run := Overtaken(cfg, now, start, p.(due := due, ring := due + i), run);
  }

  // ---- the exact condition ----

  lemma StealerHoldsNothing(cfg: Config, run: seq<Action>)
    requires StealsOutcome(cfg, run)
    ensures !AllHold(After(cfg, Init(), run))
  {
    var s := After(cfg, Init(), run);
    var c: nat :| Enabled(cfg, s, Commit(c, 0)) && !Holds(s, c);
  }

  lemma Unsafe(cfg: Config) returns (run: seq<Action>)
    requires Sensible(cfg) && !InTime(cfg)
    ensures StealsOutcome(cfg, run) && Valid(cfg, Init(), run) && !AllHold(After(cfg, Init(), run))
  {
    if cfg.startDelay + FirstTick(cfg.lease, cfg.interval) + cfg.latency + cfg.writeDelay > cfg.cutoff {
      run := LateWithoutABeat(cfg);
    } else if cfg.latency <= cfg.interval {
      run := LateAfterASlowBeat(cfg);
    } else {
      run := LateWithLongCalls(cfg);
    }
    StealerHoldsNothing(cfg, run);
  }

  lemma Safe(cfg: Config, run: seq<Action>)
    requires Sensible(cfg) && InTime(cfg) && Valid(cfg, Init(), run)
    ensures AllHold(After(cfg, Init(), run)) && !StealsOutcome(cfg, run)
  {
    OwnershipIsExclusive(cfg, run);
  }

  /** The protocol is safe in every run if and only if the timing parameters fit. */
  lemma LeaseIsSafeExactlyInTime(cfg: Config)
    requires Sensible(cfg)
    ensures InTime(cfg) <==> forall run :: Valid(cfg, Init(), run) ==> AllHold(After(cfg, Init(), run))
    ensures InTime(cfg) <==> !exists run :: StealsOutcome(cfg, run)
  {
    if InTime(cfg) {
      forall run | Valid(cfg, Init(), run) ensures AllHold(After(cfg, Init(), run)) && !StealsOutcome(cfg, run) {
        Safe(cfg, run);
      }
    } else {
      var run := Unsafe(cfg);
    }
  }

  /** heartbeatInterval, heartbeatLeaseTimeout and the reaper's timeout, in milliseconds. */
  function Shipped(startDelay: int, latency: int, writeDelay: int): Config {
    Config(10000, 20000, 30000, startDelay, latency, writeDelay)
  }

  /** With the shipped constants the lease is safe exactly when heartbeat calls take no
      time and start and write delay together stay within 10 s. */
  lemma ShippedConstants(startDelay: int, latency: int, writeDelay: int)
    requires Sensible(Shipped(startDelay, latency, writeDelay))
    ensures InTime(Shipped(startDelay, latency, writeDelay)) <==> latency == 0 && startDelay + writeDelay <= 10000
  {
    assert FirstTick(20000, 10000) == 20000;
    if latency <= 10000 {
      assert FirstTick(latency, 10000) == if latency == 0 then 0 else 10000;
      FirstTickShift(20000 + latency, 10000);
      FirstTickShift(10000 + latency, 10000);
    }
  }

  // ---- two properties the code does not have, and exactly when they hold ----

  /** retry_count <= max_retries can fail for buffer items. A step breaks it exactly when it
      commits a 429 answer for an item whose budget is already used up: the guard the 429
      branch lacks. */
  lemma BudgetBreaksExactlyAt429(cfg: Config, s: State, a: Action, id: Id)
    requires Sensible(cfg) && InTime(cfg) && Inv(cfg, s) && Enabled(cfg, s, a)
    requires id in s.db.rows && s.db.rows[id].retry <= s.db.rows[id].maxRetries
    ensures id in Apply(cfg, s, a).db.rows
    ensures Apply(cfg, s, a).db.rows[id].retry > Apply(cfg, s, a).db.rows[id].maxRetries
       <==> && a.Commit? && s.owners[a.c].task == id && s.db.rows[id].kind.Item?
            && s.db.rows[id].retry == s.db.rows[id].maxRetries
            && s.owners[a.c].phase.result.Response? && s.owners[a.c].phase.result.code == 429
  {
    if a.Commit? {
      var o := s.owners[a.c];
      assert OwnerOk(cfg, s, a.c);
      OutcomeIsLocal(s.db, o, o.phase.result, a.retryAt);
      if o.task == id {
        OutcomeBudget(s.db, o, o.phase.result, a.retryAt);
      } else {
        SameElsewhere(s.db.rows, Apply(cfg, s, a).db.rows, o.task, id);
      }
    }
  }

  lemma OutcomeBudget(db: Db, o: Owner, res: Result, at: int)
    requires o.task in db.rows && Matches(o, db.rows[o.task]) && db.rows[o.task].retry <= db.rows[o.task].maxRetries
    ensures var r, rows' := db.rows[o.task], WriteOutcome(db, o, res, at).rows;
            && o.task in rows'
            && (rows'[o.task].retry > rows'[o.task].maxRetries
                <==> r.kind.Item? && r.retry == r.maxRetries && res.Response? && res.code == 429)
  {
  }

  /** One 429 is enough to exceed a budget of 0. */
  lemma ItemExceedsBudget(cfg: Config) returns (run: seq<Action>)
    requires Sensible(cfg)
    ensures Valid(cfg, Init(), run)
    ensures var rows := After(cfg, Init(), run).db.rows;
            0 in rows && rows[0].kind.Item? && rows[0].retry > rows[0].maxRetries
  {
    var s := Init();
    run := [];
    run := Extend(cfg, s, run, Create(0, Item, 0, 0, false));     s := Apply(cfg, s, Create(0, Item, 0, 0, false));
    run := Extend(cfg, s, run, Claim(0));                         s := Apply(cfg, s, Claim(0));
    run := Extend(cfg, s, run, StartBeating(0));                  s := Apply(cfg, s, StartBeating(0));
    run := Extend(cfg, s, run, Respond(0, Response(false, 429))); s := Apply(cfg, s, Respond(0, Response(false, 429)));
    run := Extend(cfg, s, run, Commit(0, 0));
  }

  /** "Every failed job with a webhook URL has a delivery row" is false. A step finishes a
      job without one exactly when it is the reaper's, and the reaper may take that step
      exactly when the row is running, stale and out of budget. */
  lemma FinishesSilentlyExactlyAtReapFail(cfg: Config, s: State, a: Action, id: Id)
    requires Sensible(cfg) && InTime(cfg) && Inv(cfg, s) && Enabled(cfg, s, a)
    requires id in s.db.rows && s.db.rows[id].webhook && !Terminal(s.db.rows[id].status)
    ensures id in Apply(cfg, s, a).db.rows
    ensures var r := Apply(cfg, s, a).db.rows[id];
            (r.status.Completed? || r.status.Failed?) && r.deliveries == [] <==> a.ReapFail? && a.id == id
    ensures a.ReapFail? && a.id == id ==>
              Stale(s.db, id, s.now - cfg.cutoff) && s.db.rows[id].retry >= s.db.rows[id].maxRetries
  {
    assert RowOk(s.db.rows[id]);
    if a.Commit? {
      var o := s.owners[a.c];
      assert OwnerOk(cfg, s, a.c);
      OutcomeIsLocal(s.db, o, o.phase.result, a.retryAt);
      if o.task == id {
        OutcomeDelivers(s.db, o, o.phase.result, a.retryAt);
      } else {
        SameElsewhere(s.db.rows, Apply(cfg, s, a).db.rows, o.task, id);
      }
    }
  }

  lemma OutcomeDelivers(db: Db, o: Owner, res: Result, at: int)
    requires o.task in db.rows && o.webhook
    ensures var rows' := WriteOutcome(db, o, res, at).rows;
            o.task in rows' && (rows'[o.task].status.Pending? || rows'[o.task].deliveries != [])
  {
  }

  /** For whole runs: in every reachable state a finished job with a webhook URL has
      its row if and only if a worker finished it. */
  lemma DeliveryExistsIffWorkerFinished(cfg: Config, run: seq<Action>, id: Id)
    requires Sensible(cfg) && InTime(cfg) && Valid(cfg, Init(), run)
    requires var rows := After(cfg, Init(), run).db.rows;
             id in rows && rows[id].webhook && (rows[id].status.Completed? || rows[id].status.Failed?)
    ensures var r := After(cfg, Init(), run).db.rows[id];
            r.deliveries != [] <==> r.finisher.ByWorker?
  {
    Reachable(cfg, run);
  }

  lemma ReaperFailsSilently(cfg: Config) returns (run: seq<Action>)
    requires Sensible(cfg)
    ensures Valid(cfg, Init(), run)
    ensures var rows := After(cfg, Init(), run).db.rows;
            0 in rows && rows[0].webhook && rows[0].status.Failed? && rows[0].deliveries == []
  {
    var s := Init();
    run := [];
    run := Extend(cfg, s, run, Create(0, Job, 0, 0, true));  s := Apply(cfg, s, Create(0, Job, 0, 0, true));
    run := Extend(cfg, s, run, Claim(0));                    s := Apply(cfg, s, Claim(0));
    run := Extend(cfg, s, run, Crash(0));                    s := Apply(cfg, s, Crash(0));
    assert s.owners == map[];
    run := Extend(cfg, s, run, Advance(cfg.cutoff + 1));     s := Apply(cfg, s, Advance(cfg.cutoff + 1));
    run := Extend(cfg, s, run, ReapFail(0, 1));
  }
}
