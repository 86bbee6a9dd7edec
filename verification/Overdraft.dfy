/** The credit gate is checked before an execution and the credit taken after it, so
    balances can go below zero. How far is bounded by the execution slots: the worker's
    and the drainer's semaphores, over all scheduler processes. */
module Overdraft {
  import opened Tasks
  import opened Credits

  datatype Pool = Workers | Drainers

  datatype Phase = Claimed | Gated | Charged

  /** One goroutine that holds a slot; `sure` if the gate has answered it. */
  datatype Exec = Exec(user: int, pool: Pool, phase: Phase, sure: bool)

  /** `slipped` counts, per user, the executions charged although their credit check had
      returned an error. */
  datatype State = State(accounts: map<int, Account>, execs: map<nat, Exec>, workers: nat, drainers: nat,
                         slipped: map<int, nat>)

  datatype Action =
    | Begin(e: nat, user: int, pool: Pool)   // takes a slot
    | Check(e: nat, at: Today)               // Gate 2: HasCredits in runJob or runItem
    | CheckFails(e: nat)                     // the check returns an error, and the execution proceeds
    | Charge(e: nat, threshold: int)         // Deduct or DeductForBufferItem
    | End(e: nat)                            // outcome written, lease lost, deduction failed or crash
    | Ask(user: int, at: Today)              // HasCredits in the API and in the dispatcher
    | Recharge(user: int, amount: nat)
    | ChangePlan(user: int, plan: Plan)

  function InPool(s: State, pool: Pool): set<nat> {
    set e | e in s.execs && s.execs[e].pool == pool
  }

  function Capacity(s: State, pool: Pool): nat {
    if pool.Workers? then s.workers else s.drainers
  }

  /** Executions of the user that the gate let through and that have not been charged. */
  function Uncharged(s: State, user: int): set<nat> {
    set e | e in s.execs && s.execs[e].user == user && s.execs[e].phase.Gated? && s.execs[e].sure
  }

  function Slipped(s: State, user: int): nat {
    if user in s.slipped then s.slipped[user] else 0
  }

  predicate Enabled(s: State, a: Action) {
    match a
    case Begin(e, user, pool) => e !in s.execs && |InPool(s, pool)| < Capacity(s, pool)
    case Check(e, _) => e in s.execs && s.execs[e].phase.Claimed? && s.execs[e].user in s.accounts
    case CheckFails(e) => e in s.execs && s.execs[e].phase.Claimed?
    case Charge(e, _) => e in s.execs && s.execs[e].phase.Gated? && s.execs[e].user in s.accounts
    case End(e) => e in s.execs
    case Ask(user, _) => user in s.accounts
    case Recharge(user, _) => user in s.accounts
    case ChangePlan(user, _) => user in s.accounts
  }

  function Apply(s: State, a: Action): State
    requires Enabled(s, a)
  {
    match a
    case Begin(e, user, pool) => s.(execs := s.execs[e := Exec(user, pool, Claimed, false)])
    case Check(e, at) =>
      var x := s.execs[e];
      var acct := Refreshed(s.accounts[x.user], at);
      s.(accounts := s.accounts[x.user := acct],
         execs := if acct.balance > 0 then s.execs[e := x.(phase := Gated, sure := true)] else s.execs - {e})
    case CheckFails(e) => s.(execs := s.execs[e := s.execs[e].(phase := Gated)])
    case Charge(e, threshold) =>
      var x := s.execs[e];
      s.(accounts := s.accounts[x.user := Deducted(s.accounts[x.user], threshold)],
         execs := s.execs[e := x.(phase := Charged)],
         slipped := if x.sure then s.slipped else s.slipped[x.user := Slipped(s, x.user) + 1])
    case End(e) => s.(execs := s.execs - {e})
    case Ask(user, at) => s.(accounts := s.accounts[user := Refreshed(s.accounts[user], at)])
    case Recharge(user, n) => s.(accounts := s.accounts[user := ToppedUp(s.accounts[user], n)])
    case ChangePlan(user, p) => s.(accounts := s.accounts[user := s.accounts[user].(plan := p)])
  }

  predicate Valid(s: State, run: seq<Action>)
    decreases |run|
  {
    run == [] || (Enabled(s, run[0]) && Valid(Apply(s, run[0]), run[1..]))
  }

  function After(s: State, run: seq<Action>): State
    requires Valid(s, run)
    decreases |run|
  {
    if run == [] then s else After(Apply(s, run[0]), run[1..])
  }

  /** What the free slots, and the checks that failed, account for. */
  function Floor(s: State, u: int): int {
    1 - (s.workers + s.drainers) - Slipped(s, u) + |Uncharged(s, u)|
  }

  /** No user owes more. */
  ghost predicate Inv(s: State) {
    && |InPool(s, Workers)| <= s.workers && |InPool(s, Drainers)| <= s.drainers
    && (forall e :: e in s.execs && s.execs[e].phase.Claimed? ==> !s.execs[e].sure)
    && forall u :: u in s.accounts ==> 1 <= s.accounts[u].dailyLimit && s.accounts[u].balance >= Floor(s, u)
  }

  lemma SlotsBoundUncharged(s: State, u: int)
    requires |InPool(s, Workers)| <= s.workers && |InPool(s, Drainers)| <= s.drainers
    ensures |Uncharged(s, u)| <= s.workers + s.drainers
  {
    SubsetSize(Uncharged(s, u), InPool(s, Workers) + InPool(s, Drainers));
    assert InPool(s, Workers) !! InPool(s, Drainers);
  }

  lemma SlotsAreBounded(s: State, a: Action, pool: Pool)
    requires Enabled(s, a) && |InPool(s, pool)| <= Capacity(s, pool)
    ensures |InPool(Apply(s, a), pool)| <= Capacity(Apply(s, a), pool)
  {
    var s' := Apply(s, a);
    if a.Begin? && a.pool == pool {
      assert InPool(s', pool) == InPool(s, pool) + {a.e};
    } else {
      SubsetSize(InPool(s', pool), InPool(s, pool));
    }
  }

  /** A charge takes the unit it was counted with, or slips. */
  lemma ChargeKeepsFloor(s: State, a: Action, u: int)
    requires Inv(s) && Enabled(s, a) && a.Charge? && u in s.accounts
    ensures Apply(s, a).accounts[u].balance >= Floor(Apply(s, a), u)
  {
    var s' := Apply(s, a);
    if s.execs[a.e].user == u && s.execs[a.e].sure {
      assert Uncharged(s', u) == Uncharged(s, u) - {a.e};
    } else {
      assert Uncharged(s', u) == Uncharged(s, u);
    }
  }

  /** Every other step leaves the user's uncharged executions or finds a positive balance. */
  lemma StepKeepsFloor(s: State, a: Action, u: int)
    requires Inv(s) && Enabled(s, a) && !a.Charge? && u in s.accounts
    requires |InPool(Apply(s, a), Workers)| <= s.workers && |InPool(Apply(s, a), Drainers)| <= s.drainers
    ensures Apply(s, a).accounts[u].balance >= Floor(Apply(s, a), u)
  {
    var s' := Apply(s, a);
    SlotsBoundUncharged(s', u);
    if !(a.Check? && s.execs[a.e].user == u && s'.accounts[u].balance > 0) {
      SubsetSize(Uncharged(s', u), Uncharged(s, u));
    }
  }

  lemma StepKeepsInv(s: State, a: Action)
    requires Inv(s) && Enabled(s, a)
    ensures Inv(Apply(s, a))
  {
    var s' := Apply(s, a);
    SlotsAreBounded(s, a, Workers);
    SlotsAreBounded(s, a, Drainers);
    forall u | u in s'.accounts ensures 1 <= s'.accounts[u].dailyLimit && s'.accounts[u].balance >= Floor(s', u) {
      if a.Charge? {
        ChargeKeepsFloor(s, a, u);
      } else {
        StepKeepsFloor(s, a, u);
      }
    }
  }

  lemma {:induction false} RunKeepsInv(s: State, run: seq<Action>)
    requires Inv(s) && Valid(s, run)
    ensures Inv(After(s, run)) && After(s, run).workers == s.workers && After(s, run).drainers == s.drainers
    decreases |run|
  {
    if run == [] {
    } else {
      StepKeepsInv(s, run[0]);
      RunKeepsInv(Apply(s, run[0]), run[1..]);
    }
  }

  /** With N slots no balance ever falls below 1 - N, whatever the interleaving, less one for
      every execution that was charged after its credit check had returned an error. */
  lemma OverdraftIsBounded(s: State, run: seq<Action>, u: int)
    requires s.execs == map[] && s.slipped == map[] && 1 <= s.workers + s.drainers
    requires forall v :: v in s.accounts ==> 1 <= s.accounts[v].dailyLimit && 0 <= s.accounts[v].balance
    requires Valid(s, run) && u in After(s, run).accounts
    ensures var s' := After(s, run);
            && s'.accounts[u].balance >= 1 - (s.workers + s.drainers) - Slipped(s', u)
            && s'.accounts[u].balance >= 1 - (s.workers + s.drainers) - Slipped(s', u) + |Uncharged(s', u)|
  {
    assert InPool(s, Workers) == {} && InPool(s, Drainers) == {};
    assert forall v :: Uncharged(s, v) == {};
    RunKeepsInv(s, run);
  }

  lemma {:induction false} NothingSlips(s: State, run: seq<Action>, u: int)
    requires Valid(s, run) && Slipped(s, u) == 0 && forall a :: a in run ==> !a.CheckFails?
    requires forall e :: e in s.execs && s.execs[e].phase.Gated? ==> s.execs[e].sure
    ensures Slipped(After(s, run), u) == 0
    decreases |run|
  {
    if run == [] {
    } else {
      assert run[0] in run;
      NothingSlips(Apply(s, run[0]), run[1..], u);
    }
  }

  /** Without such errors the bound is 1 - N. */
  lemma OverdraftIsBoundedByTheSlots(s: State, run: seq<Action>, u: int)
    requires s.execs == map[] && s.slipped == map[] && 1 <= s.workers + s.drainers
    requires forall v :: v in s.accounts ==> 1 <= s.accounts[v].dailyLimit && 0 <= s.accounts[v].balance
    requires Valid(s, run) && u in After(s, run).accounts && forall a :: a in run ==> !a.CheckFails?
    ensures After(s, run).accounts[u].balance >= 1 - (s.workers + s.drainers)
  {
    OverdraftIsBounded(s, run, u);
    NothingSlips(s, run, u);
  }

  // ---- the bound is reached ----

  function Below(n: nat): (r: set<nat>)
    ensures |r| == n && forall e: nat :: e in r <==> e < n
  {
    if n == 0 then {} else Below(n - 1) + {n - 1}
  }

  function Slot(w: nat, j: nat, e: nat): Exec {
    Exec(0, if e < w then Workers else Drainers, if e < j then Charged else Gated, true)
  }

  /** One paying user with a single credit: k slots passed the gate, j of them charged. */
  function Scene(w: nat, d: nat, k: nat, j: nat): State {
    State(map[0 := Account(1 - j, false, PayAsYouGo, 1, 0)], map e: nat | e < k :: Slot(w, j, e), w, d, map[])
  }

  predicate Leads(s: State, run: seq<Action>, s': State) {
    Valid(s, run) && After(s, run) == s'
  }

  lemma {:induction false} Join(s: State, run: seq<Action>, mid: State, more: seq<Action>, end: State)
    requires Leads(s, run, mid) && Leads(mid, more, end)
    ensures Leads(s, run + more, end)
    decreases |run|
  {
    if run == [] {
      assert run + more == more;
    } else {
      assert (run + more)[1..] == run[1..] + more;
      Join(Apply(s, run[0]), run[1..], mid, more, end);
    }
  }

  ghost predicate Reaches(s: State, s': State) {
    exists run :: Leads(s, run, s')
  }

  lemma ReachesItself(s: State)
    ensures Reaches(s, s)
  {
    assert Leads(s, [], s);
  }

  lemma ReachesOn(s: State, mid: State, s': State)
    requires Reaches(s, mid) && Reaches(mid, s')
    ensures Reaches(s, s')
  {
    var run :| Leads(s, run, mid);
    var more :| Leads(mid, more, s');
    Join(s, run, mid, more, s');
  }

  lemma ReachesNext(s: State, a: Action, s': State)
    requires Enabled(s, a) && Apply(s, a) == s'
    ensures Reaches(s, s')
  {
    var run := [a];
    assert run != [] && run[0] == a && run[1..] == [] && Valid(s', []) && After(s', []) == s';
    assert Leads(s, run, s');
  }

  lemma BelowGap(k: nat, w: nat)
    requires w <= k
    ensures |Below(k) - Below(w)| == k - w
  {
    assert (Below(k) - Below(w)) + Below(w) == Below(k);
  }

  lemma SlotIsFree(w: nat, d: nat, k: nat)
    requires k < w + d
    ensures Enabled(Scene(w, d, k, 0), Begin(k, 0, if k < w then Workers else Drainers))
  {
    var s := Scene(w, d, k, 0);
    if k < w {
      assert InPool(s, Workers) == Below(k);
    } else {
      assert InPool(s, Drainers) == Below(k) - Below(w);
      BelowGap(k, w);
    }
  }

  /** Scene(w, d, k, 0) with one more slot taken, not yet through the gate. */
  function Waiting(w: nat, d: nat, k: nat): State {
    var s := Scene(w, d, k, 0);
    s.(execs := s.execs[k := Exec(0, if k < w then Workers else Drainers, Claimed, false)])
  }

  lemma OneMoreGated(w: nat, d: nat, k: nat)
    ensures var execs := Waiting(w, d, k).execs;
            && k in execs
            && execs[k := execs[k].(phase := Gated, sure := true)] == Scene(w, d, k + 1, 0).execs
  {
  }

  lemma PassGate(w: nat, d: nat, k: nat)
    ensures Reaches(Waiting(w, d, k), Scene(w, d, k + 1, 0))
  {
    var s := Waiting(w, d, k);
    OneMoreGated(w, d, k);
    assert s.accounts[0] == Refreshed(s.accounts[0], Today(0, 0));
    assert s.accounts[0 := s.accounts[0]] == s.accounts;
    ReachesNext(s, Check(k, Today(0, 0)), Scene(w, d, k + 1, 0));
  }

  lemma EnterOne(w: nat, d: nat, k: nat)
    requires k < w + d
    ensures Reaches(Scene(w, d, k, 0), Scene(w, d, k + 1, 0))
  {
    SlotIsFree(w, d, k);
    ReachesNext(Scene(w, d, k, 0), Begin(k, 0, if k < w then Workers else Drainers), Waiting(w, d, k));
    PassGate(w, d, k);
    ReachesOn(Scene(w, d, k, 0), Waiting(w, d, k), Scene(w, d, k + 1, 0));
  }

  lemma ChargeOne(w: nat, d: nat, j: nat)
    requires j < w + d
    ensures Reaches(Scene(w, d, w + d, j), Scene(w, d, w + d, j + 1))
  {
    var s, s' := Scene(w, d, w + d, j), Scene(w, d, w + d, j + 1);
    assert s.accounts[0 := Deducted(s.accounts[0], 0)] == s'.accounts;
    assert s.execs[j := s.execs[j].(phase := Charged)] == s'.execs;
    ReachesNext(s, Action.Charge(j, 0), s');
  }

  lemma {:induction false} EnterEach(w: nat, d: nat, k: nat)
    requires k <= w + d
    ensures Reaches(Scene(w, d, 0, 0), Scene(w, d, k, 0))
  {
    if k == 0 {
      ReachesItself(Scene(w, d, 0, 0));
    } else {
      EnterEach(w, d, k - 1);
      EnterOne(w, d, k - 1);
      ReachesOn(Scene(w, d, 0, 0), Scene(w, d, k - 1, 0), Scene(w, d, k, 0));
    }
  }

  lemma {:induction false} ChargeEach(w: nat, d: nat, j: nat)
    requires j <= w + d
    ensures Reaches(Scene(w, d, 0, 0), Scene(w, d, w + d, j))
  {
    if j == 0 {
      EnterEach(w, d, w + d);
    } else {
      ChargeEach(w, d, j - 1);
      ChargeOne(w, d, j - 1);
      ReachesOn(Scene(w, d, 0, 0), Scene(w, d, w + d, j - 1), Scene(w, d, w + d, j));
    }
  }

  /** Some run takes a balance of 1 down to exactly 1 - N. */
  lemma OverdraftIsReached(w: nat, d: nat) returns (run: seq<Action>)
    ensures Valid(Scene(w, d, 0, 0), run)
    ensures var accounts := After(Scene(w, d, 0, 0), run).accounts;
            0 in accounts && accounts[0].balance == 1 - (w + d)
  {
    ChargeEach(w, d, w + d);
    run :| Leads(Scene(w, d, 0, 0), run, Scene(w, d, w + d, w + d));
  }
}
