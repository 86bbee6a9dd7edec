/** internal/scheduler/worker.go and drainer.go: the heartbeat loop, the semaphore around
    claiming, and the goroutine that serves one claim. */
module Worker {
  import opened Tasks
  import opened Lease
  import opened JobRepository
  import opened BufferTable
  import opened Credits
  import O = Overdraft

  const LEASE_TIMEOUT: int := 20000   // heartbeatLeaseTimeout, in milliseconds

  /** One UpdateHeartbeat call: when it returned, and whether without an error. */
  datatype Beat = Beat(returned: int, ok: bool)

  /** When the heartbeat last got through before call k: at its start if never. */
  function LastSuccess(start: int, calls: seq<Beat>, k: nat): int
    requires k <= |calls|
  {
    if k == 0 then start
    else if calls[k - 1].ok then calls[k - 1].returned
    else LastSuccess(start, calls, k - 1)
  }

  predicate LosesLease(start: int, calls: seq<Beat>, k: nat)
    requires k < |calls|
  {
    !calls[k].ok && calls[k].returned - LastSuccess(start, calls, k) >= LEASE_TIMEOUT
  }

  /** Runs until cancelled or fenced; the lease is lost at the first failed call that
      returns a whole lease after the last success, and not before. */
  method Heartbeat(start: int, calls: seq<Beat>) returns (fencedAt: Option<nat>)
    ensures fencedAt.Some? ==> fencedAt.value < |calls| && LosesLease(start, calls, fencedAt.value)
    ensures forall k :: 0 <= k < (if fencedAt.Some? then fencedAt.value else |calls|) ==> !LosesLease(start, calls, k)
    // with the constant written out
    ensures fencedAt.Some? ==>
              && !calls[fencedAt.value].ok
              && calls[fencedAt.value].returned - LastSuccess(start, calls, fencedAt.value) >= 20000
    ensures forall k :: 0 <= k < (if fencedAt.Some? then fencedAt.value else |calls|) && !calls[k].ok ==>
              calls[k].returned - LastSuccess(start, calls, k) < 20000
  {
    var lastSuccess := start;
    var i := 0;
    while i < |calls|
      invariant 0 <= i <= |calls|
      invariant lastSuccess == LastSuccess(start, calls, i)
      invariant forall k :: 0 <= k < i && !calls[k].ok ==> calls[k].returned - LastSuccess(start, calls, k) < 20000
    {
      if !calls[i].ok {
        var staleFor := calls[i].returned - lastSuccess;
        if staleFor >= LEASE_TIMEOUT {
          return Some(i);
        }
      } else {
        lastSuccess := calls[i].returned;
      }
      i := i + 1;
    }
    fencedAt := None;
  }

  /** LastSuccess is the return of the latest call that got through, or the start. */
  lemma {:induction false} LastSuccessIsLatest(start: int, calls: seq<Beat>, k: nat)
    requires k <= |calls|
    ensures || (LastSuccess(start, calls, k) == start && forall j :: 0 <= j < k ==> !calls[j].ok)
            || exists m :: && 0 <= m < k && calls[m].ok && LastSuccess(start, calls, k) == calls[m].returned
                           && forall j :: m < j < k ==> !calls[j].ok
  {
    if k == 0 {
    } else if calls[k - 1].ok {
      assert LastSuccess(start, calls, k) == calls[k - 1].returned;
    } else {
      LastSuccessIsLatest(start, calls, k - 1);
    }
  }

  /** With calls that return at once, 10 s apart, a call fences if and only if it is the
      second miss in a row: one miss never does. */
  lemma FencesExactlyAtSecondMiss(start: int, calls: seq<Beat>, k: nat)
    requires k < |calls| && forall i :: 0 <= i < |calls| ==> calls[i].returned == start + 10000 * (i + 1)
    ensures LosesLease(start, calls, k) <==> !calls[k].ok && 0 < k && !calls[k - 1].ok
  {
    LastSuccessIsLatest(start, calls, k);
  }

  /** The semaphore channel: cap(w.sem) and len(w.sem). */
  class Slots {
    const capacity: nat
    var held: nat

    ghost predicate Valid()
      reads this
    {
      held <= capacity
    }

    constructor (capacity: nat)
      ensures Valid() && held == 0 && this.capacity == capacity
    {
      this.capacity := capacity;
      held := 0;
    }

    /** Claims the due jobs that come first, as many as there are free slots, so that
        taking a slot for each of them never blocks. */
    method ProcessBatch(repo: Repository, next: nat, now: int) returns (picked: seq<Id>)
      requires Valid()
      modifies this, repo`rows, repo`beats
      ensures Valid() && held == old(held) + |picked|
      ensures FirstOf(ByDue(old(repo.Contents())), DueSet(old(repo.Contents()), now), picked, capacity - old(held))
      ensures repo.Contents() == ClaimAll(old(repo.Contents()), picked, next, now)
      // a pending job that is due is left unclaimed only if every slot is taken
      ensures forall id ::
                && id in old(repo.rows) && id !in picked
                && old(repo.rows)[id].status == Pending && old(repo.rows)[id].scheduledAt <= now ==>
                  held == capacity
    {
      var available := capacity - held;
      if available == 0 {
        return [];
      }
      picked := repo.Claim(next, available, now);
      for k := 0 to |picked|
        invariant held == old(held) + k
        invariant repo.Contents() == ClaimAll(old(repo.Contents()), picked, next, now)
      {
        held := held + 1;
      }
    }

    method Release()
      requires Valid() && 0 < held
      modifies this
      ensures Valid() && held == old(held) - 1
    {
      held := held - 1;
    }
  }

  // ---- serving one claim ----

  /** Database calls of the goroutine that return an error: then nothing is written. */
  datatype Faults = Faults(attempt: bool, gate: bool, deduct: bool, write: bool)

  /** What the goroutine met: whether it was fenced before the response came, what the
      response was, when a retry would be due, and which calls failed. */
  datatype Course = Course(fenced: bool, err: bool, code: int, retryAt: int, faults: Faults)

  /** Gate 2 refuses only on a definite answer; an error lets the execution through. */
  predicate Refused(w: Wallet, at: Today, c: Course) {
    !c.faults.gate && w.account.Some? && Refreshed(w.account.value, at).balance <= 0
  }

  /** What is left in the tables by serving the claim of `o`. */
  function Served(db: Db, o: Owner, refused: bool, c: Course): Db {
    if (!refused && c.fenced) || c.faults.write then db
    else WriteOutcome(db, o, if refused then NoCredits else Response(c.err, c.code), c.retryAt)
  }

  /** A job opens an attempt record first, and goes no further without it. */
  function JobServed(db: Db, o: Owner, refused: bool, c: Course): Db {
    if c.faults.attempt then db else Served(OpenAttempt(db, o.task, o.retry + 1), o, refused, c)
  }

  /** What is left in the user's wallet: a refresh when a day has begun, and one credit
      less exactly when the claim was executed, not fenced, and the deduction went through. */
  function Billed(w: Wallet, at: Today, threshold: int, c: Course): Wallet {
    var gated := if c.faults.gate then w else Handled(w, Ask(Gate(at)), 0);
    if Refused(w, at, c) || c.fenced || c.faults.deduct then gated else Handled(gated, Ask(Charge), threshold)
  }

  // ---- the same in fields of the tables ----

  /** Without an account nothing is written. With one, the gate is asked unless that call
      fails, and then refuses exactly if nothing is left; an execution it lets through, or
      is not asked about, is charged exactly once, unless it was fenced or the deduction
      failed; nothing else is charged. */
  predicate WalletInFields(w: Wallet, at: Today, c: Course, ran: bool, w': Wallet) {
    match w.account
    case None => w' == w
    case Some(a) =>
      var asked := ran && !c.faults.gate;
      var grants := asked && a.plan == Free && a.refreshedDay < at.session;
      var left := if grants then a.dailyLimit else a.balance;
      var charged := ran && !(asked && left <= 0) && !c.fenced && !c.faults.deduct;
      && w'.ledger == w.ledger + (if grants then [DailyGrant(a.dailyLimit)] else [])
                               + (if charged then [Execution] else [])
      && w'.account.Some? && w'.account.value.balance == left - (if charged then 1 else 0)
  }

  /** The gate answers, and nothing is left: the day's limit if a grant is due, else the
      balance, is not positive. */
  predicate NothingLeft(w: Wallet, at: Today, c: Course) {
    && !c.faults.gate && w.account.Some?
    && (var a := w.account.value;
        (if a.plan == Free && a.refreshedDay < at.session then a.dailyLimit else a.balance) <= 0)
  }

  predicate JobInFields(r: Row, o: Owner, w: Wallet, at: Today, c: Course, r': Row) {
    if c.faults.attempt then r' == r
    else if c.faults.write || (c.fenced && !NothingLeft(w, at, c)) then r' == r.(attempts := r.attempts + [o.retry + 1])
    else
      && r'.attempts == r.attempts + [o.retry + 1]
      && r'.status == (if NothingLeft(w, at, c) then Failed
                       else if !c.err && c.code == 200 then Completed
                       else if o.retry < o.maxRetries then Pending else Failed)
      && r'.retry == r.retry + (if r'.status == Pending then 1 else 0)
  }

  predicate ItemInFields(r: Row, o: Owner, w: Wallet, at: Today, c: Course, r': Row) {
    if c.faults.write || (c.fenced && !NothingLeft(w, at, c)) then r' == r
    else
      && r'.status == (if NothingLeft(w, at, c) then Failed
                       else if c.code == 429 then Pending
                       else if !c.err && 200 <= c.code <= 299 then Completed
                       else if o.retry < o.maxRetries then Pending else Failed)
      && r'.retry == r.retry + (if r'.status == Pending then 1 else 0)
  }

  lemma BilledInFields(w: Wallet, at: Today, threshold: int, c: Course)
    ensures WalletInFields(w, at, c, true, Billed(w, at, threshold, c))
  {
  }

  lemma JobServedInFields(db: Db, o: Owner, w: Wallet, at: Today, c: Course)
    requires o.kind.Job?
    ensures var rows' := JobServed(db, o, Refused(w, at, c), c).rows;
            o.task in db.rows ==> o.task in rows' && JobInFields(db.rows[o.task], o, w, at, c, rows'[o.task])
  {
  }

  lemma ItemServedInFields(db: Db, o: Owner, w: Wallet, at: Today, c: Course)
    requires o.kind.Item?
    ensures var rows' := Served(db, o, Refused(w, at, c), c).rows;
            o.task in db.rows ==> o.task in rows' && ItemInFields(db.rows[o.task], o, w, at, c, rows'[o.task])
  {
  }

  // ---- the goroutine ----

  // the outcome branches of runJob
  method FinishJob(repo: Repository, o: Owner, c: Course)
    requires o.kind.Job?
    modifies repo`rows, repo`beats
    ensures repo.Contents() == WriteOutcome(old(repo.Contents()), o, Response(c.err, c.code), c.retryAt)
  {
    if !c.err && c.code == 200 {
      repo.CompleteWithWebhook(o.task, o.webhook);
    } else if o.retry < o.maxRetries {
      repo.Reschedule(o.task, c.retryAt);
    } else {
      repo.FailWithWebhook(o.task, o.webhook);
    }
  }

  // the outcome branches of runItem; items have no webhook row in the outbox
  method FinishItem(repo: BufferRepository, o: Owner, c: Course)
    requires repo.Valid() && o.kind.Item? && !o.webhook
    modifies repo`rows, repo`beats
    ensures repo.Valid() && repo.Contents() == WriteOutcome(old(repo.Contents()), o, Response(c.err, c.code), c.retryAt)
  {
    if c.code == 429 {
      repo.RescheduleItem(o.task, c.retryAt, true);
    } else if !c.err && c.code >= 200 && c.code < 300 {
      repo.CompleteItem(o.task);
    } else if o.retry < o.maxRetries {
      repo.RescheduleItem(o.task, c.retryAt, false);
    } else {
      repo.FailItem(o.task);
    }
  }

  // runJob
  method RunJob(repo: Repository, credits: CreditRepository, o: Owner, user: int, at: Today, threshold: int, c: Course)
    requires o.kind.Job?
    modifies repo`rows, repo`beats, credits
    ensures repo.Contents() == JobServed(old(repo.Contents()), o, Refused(old(credits.WalletOf(user)), at, c), c)
    ensures credits.WalletOf(user) == if c.faults.attempt then old(credits.WalletOf(user))
                                      else Billed(old(credits.WalletOf(user)), at, threshold, c)
    ensures credits.wallets - {user} == old(credits.wallets) - {user}
    ensures WalletInFields(old(credits.WalletOf(user)), at, c, !c.faults.attempt, credits.WalletOf(user))
    ensures o.task in old(repo.rows) ==>
              && o.task in repo.rows
              && JobInFields(old(repo.rows)[o.task], o, old(credits.WalletOf(user)), at, c, repo.rows[o.task])
  {
    BilledInFields(credits.WalletOf(user), at, threshold, c);
    JobServedInFields(repo.Contents(), o, credits.WalletOf(user), at, c);
    if c.faults.attempt {
      return;
    }
    repo.CreateAttempt(o.task, o.retry + 1);
    var ok := Err;
    if !c.faults.gate { ok := credits.HasCredits(user, at); }
    if ok.Ok? && !ok.value {
      if !c.faults.write { repo.FailWithWebhook(o.task, o.webhook); }
      return;
    }
    if c.fenced {
      return;
    }
    if !c.faults.deduct { var crossing := credits.Deduct(user, threshold); }
    if c.faults.write {
      return;
    }
    FinishJob(repo, o, c);
  }

  // BufferDrainer.runItem
  method RunItem(
    repo: BufferRepository, credits: CreditRepository, o: Owner, user: int, at: Today, threshold: int, c: Course)
    requires repo.Valid() && o.kind.Item? && !o.webhook
    modifies repo`rows, repo`beats, credits
    ensures repo.Valid()
    ensures repo.Contents() == Served(old(repo.Contents()), o, Refused(old(credits.WalletOf(user)), at, c), c)
    ensures credits.WalletOf(user) == Billed(old(credits.WalletOf(user)), at, threshold, c)
    ensures credits.wallets - {user} == old(credits.wallets) - {user}
    ensures WalletInFields(old(credits.WalletOf(user)), at, c, true, credits.WalletOf(user))
    ensures o.task in old(repo.rows) ==>
              && o.task in repo.rows
              && ItemInFields(old(repo.rows)[o.task], o, old(credits.WalletOf(user)), at, c, repo.rows[o.task])
  {
    BilledInFields(credits.WalletOf(user), at, threshold, c);
    ItemServedInFields(repo.Contents(), o, credits.WalletOf(user), at, c);
    var ok := Err;
    if !c.faults.gate { ok := credits.HasCredits(user, at); }
    if ok.Ok? && !ok.value {
      if !c.faults.write { repo.FailItem(o.task); }
      return;
    }
    if c.fenced {
      return;
    }
    if !c.faults.deduct { var crossing := credits.Deduct(user, threshold); }
    if c.faults.write {
      return;
    }
    FinishItem(repo, o, c);
  }

  // ---- the bill is a run of the overdraft machine ----

  lemma OverdraftStep(s: O.State, a: O.Action, rest: seq<O.Action>)
    requires O.Enabled(s, a) && O.Valid(O.Apply(s, a), rest)
    ensures O.Valid(s, [a] + rest) && O.After(s, [a] + rest) == O.After(O.Apply(s, a), rest)
  {
    assert ([a] + rest)[1..] == rest;
  }

  /** From the gate on: charge if the gate left the execution, then give the slot back. */
  function Rest(s: O.State, e: nat, threshold: int, c: Course): seq<O.Action> {
    if e !in s.execs then []
    else if c.fenced || c.faults.deduct then [O.End(e)]
    else [O.Action.Charge(e, threshold)] + [O.End(e)]
  }

  lemma RestIsRun(s: O.State, e: nat, threshold: int, c: Course)
    requires e in s.execs ==> s.execs[e].phase.Gated? && s.execs[e].user in s.accounts
    ensures var run := Rest(s, e, threshold, c);
            && O.Valid(s, run) && O.After(s, run).execs == s.execs - {e}
            && O.After(s, run).accounts ==
               if e in s.execs && !c.fenced && !c.faults.deduct
               then s.accounts[s.execs[e].user := Deducted(s.accounts[s.execs[e].user], threshold)]
               else s.accounts
  {
    if e in s.execs {
      if c.fenced || c.faults.deduct {
        OverdraftStep(s, O.End(e), []);
      } else {
        var s1 := O.Apply(s, O.Action.Charge(e, threshold));
        OverdraftStep(s1, O.End(e), []);
        OverdraftStep(s, O.Action.Charge(e, threshold), [O.End(e)]);
      }
    } else {
      assert s.execs - {e} == s.execs;
    }
  }

  /** The account a goroutine leaves is the one Begin, Check (or its error), Charge and End
      leave, and the charge is made exactly if the check left the execution gated, it was not
      fenced, and the deduction did not fail. */
  lemma BillIsOverdraftRun(
    s: O.State, e: nat, user: int, pool: O.Pool, at: Today, threshold: int, c: Course, ledger: seq<Entry>)
    returns (run: seq<O.Action>)
    requires e !in s.execs && user in s.accounts && |O.InPool(s, pool)| < O.Capacity(s, pool)
    ensures O.Valid(s, run) && |run| >= 2
    ensures run[0] == O.Begin(e, user, pool) && run[1] == if c.faults.gate then O.CheckFails(e) else O.Check(e, at)
    ensures var gated := O.Apply(O.Apply(s, run[0]), run[1]);
            && run[2..] == Rest(gated, e, threshold, c)
            && (e in gated.execs <==> !Refused(Wallet(Some(s.accounts[user]), ledger), at, c))
    ensures var w' := Billed(Wallet(Some(s.accounts[user]), ledger), at, threshold, c);
            w'.account.Some? && O.After(s, run).accounts == s.accounts[user := w'.account.value]
    ensures O.After(s, run).execs == s.execs
  {
    var begin, check := O.Begin(e, user, pool), if c.faults.gate then O.CheckFails(e) else O.Check(e, at);
    var s1 := O.Apply(s, begin);
    var s2 := O.Apply(s1, check);
    var rest := Rest(s2, e, threshold, c);
    assert s2.execs - {e} == s.execs;
    RestIsRun(s2, e, threshold, c);
    OverdraftStep(s1, check, rest);
    OverdraftStep(s, begin, [check] + rest);
    run := [begin] + ([check] + rest);
    assert run[2..] == rest;
  }

  // ---- serving a claim is a run of the protocol ----

  /** The run ends with the tables `db` and without the owner c. */
  ghost predicate Ends(cfg: Config, s: State, run: seq<Action>, c: nat, db: Db) {
    Valid(cfg, s, run) && After(cfg, s, run) == s.(db := db, owners := s.owners - {c})
  }

  lemma EndsAfter(cfg: Config, s: State, a: Action, run: seq<Action>, c: nat, db: Db)
    requires Enabled(cfg, s, a) && Ends(cfg, Apply(cfg, s, a), run, c, db)
    requires var s' := Apply(cfg, s, a);
             s'.now == s.now && s'.claims == s.claims && s'.owners - {c} == s.owners - {c}
    ensures Ends(cfg, s, [a] + run, c, db)
  {
    FirstThen(cfg, s, a, run);
  }

  lemma OutcomeIsRun(cfg: Config, s: State, c: nat, lost: bool, at: int) returns (run: seq<Action>)
    requires Live(s, c) && s.owners[c].phase.Writing?
    ensures Ends(cfg, s, run, c, if lost then s.db else WriteOutcome(s.db, s.owners[c], s.owners[c].phase.result, at))
  {
    var a := if lost then LoseWrite(c) else Commit(c, at);
    run := [a];
    assert run[1..] == [];
  }

  lemma CrashIsRun(cfg: Config, s: State, c: nat) returns (run: seq<Action>)
    requires Live(s, c)
    ensures Ends(cfg, s, run, c, s.db)
  {
    run := [Crash(c)];
    assert run[1..] == [];
  }

  /** From the gate on. A fenced owner leaves the protocol as a crashed one does. */
  lemma ServingIsRun(cfg: Config, s: State, c: nat, refused: bool, x: Course) returns (run: seq<Action>)
    requires Live(s, c) && AtTheGate(s.owners[c])
    ensures Ends(cfg, s, run, c, Served(s.db, s.owners[c], refused, x))
  {
    if refused {
      run := OutcomeIsRun(cfg, Apply(cfg, s, Refuse(c)), c, x.faults.write, x.retryAt);
      EndsAfter(cfg, s, Refuse(c), run, c, Served(s.db, s.owners[c], refused, x));
      run := [Refuse(c)] + run;
    } else {
      var s1 := Apply(cfg, s, StartBeating(c));
      if x.fenced {
        run := CrashIsRun(cfg, s1, c);
      } else {
        var a := Respond(c, Response(x.err, x.code));
        run := OutcomeIsRun(cfg, Apply(cfg, s1, a), c, x.faults.write, x.retryAt);
        EndsAfter(cfg, s1, a, run, c, Served(s.db, s.owners[c], refused, x));
        run := [a] + run;
      }
      EndsAfter(cfg, s, StartBeating(c), run, c, Served(s.db, s.owners[c], refused, x));
      run := [StartBeating(c)] + run;
    }
  }

  /** What RunItem leaves is what a run of the protocol leaves. */
  lemma ItemIsRun(cfg: Config, s: State, c: nat, refused: bool, x: Course) returns (run: seq<Action>)
    requires Live(s, c) && s.owners[c].phase == Starting(false) && s.owners[c].kind.Item?
    ensures Ends(cfg, s, run, c, Served(s.db, s.owners[c], refused, x))
  {
    run := ServingIsRun(cfg, s, c, refused, x);
  }

  /** What RunJob leaves is what a run of the protocol leaves. */
  lemma JobIsRun(cfg: Config, s: State, c: nat, refused: bool, x: Course) returns (run: seq<Action>)
    requires Live(s, c) && s.owners[c].phase == Starting(false) && s.owners[c].kind.Job?
    ensures Ends(cfg, s, run, c, JobServed(s.db, s.owners[c], refused, x))
  {
    if x.faults.attempt {
      run := CrashIsRun(cfg, s, c);
    } else {
      run := ServingIsRun(cfg, Apply(cfg, s, Open(c)), c, refused, x);
      EndsAfter(cfg, s, Open(c), run, c, JobServed(s.db, s.owners[c], refused, x));
      run := [Open(c)] + run;
    }
  }
}
