/** internal/infrastructure/postgres/billing_repo.go: one user's credit row and ledger. */
module Credits {
  import opened Tasks

  datatype Plan = Free | PayAsYouGo

  datatype Entry = DailyGrant(amount: int) | StripeTopUp(amount: int) | Execution

  /** `refreshedDay` is the UTC date of refreshed_at. */
  datatype Account = Account(balance: int, notified: bool, plan: Plan, dailyLimit: int, refreshedDay: int)

  /** The user_credits row, if it exists yet, and the user's credit_transactions. */
  datatype Wallet = Wallet(account: Option<Account>, ledger: seq<Entry>)

  const STARTING_BALANCE: int := 100000

  // ---- the statements, on one account ----

  /** One moment, as a UTC date and as the date in the database session's time zone. */
  datatype Today = Today(utc: int, session: int)

  /** The refresh test sets a UTC date against the session's date. */
  predicate RefreshDue(a: Account, at: Today) {
    a.plan.Free? && a.refreshedDay < at.session
  }

  function Refreshed(a: Account, at: Today): Account {
    if RefreshDue(a, at) then a.(balance := a.dailyLimit, notified := false, refreshedDay := at.utc) else a
  }

  function Deducted(a: Account, threshold: int): Account {
    a.(balance := a.balance - 1,
       notified := a.notified || (threshold > 0 && a.balance - 1 < threshold && !a.notified))
  }

  // What a deduction reports: the threshold is set, the balance left is below it, and one
  // credit more would not be
  predicate Crosses(a: Account, threshold: int) {
    var left := a.balance - 1;
    threshold > 0 && left < threshold && left + 1 >= threshold
  }

  function ToppedUp(a: Account, amount: int): Account {
    a.(balance := a.balance + amount, notified := false)
  }

  // internal/domain/alert.go
  predicate CrossedLowBalance(prev: int, current: int, threshold: int) {
    if threshold <= 0 then false else prev >= threshold && current < threshold
  }

  // ---- a user's history ----

  datatype Event = Gate(at: Today) | Charge | TopUp(amount: int) | SetPlan(plan: Plan)

  datatype History = History(account: Account, ledger: seq<Entry>)

  function Step(h: History, e: Event, threshold: int): History {
    match e
    case Gate(at) =>
      History(Refreshed(h.account, at),
              if RefreshDue(h.account, at) then h.ledger + [DailyGrant(h.account.dailyLimit)] else h.ledger)
    case Charge => History(Deducted(h.account, threshold), h.ledger + [Execution])
    case TopUp(n) => History(ToppedUp(h.account, n), h.ledger + [StripeTopUp(n)])
    case SetPlan(p) => h.(account := h.account.(plan := p))
  }

  /** Events are appended on the right, as the ledger is. */
  function Run(h: History, es: seq<Event>, threshold: int): History {
    if es == [] then h else Step(Run(h, es[..|es| - 1], threshold), es[|es| - 1], threshold)
  }

  lemma RunPrefix(h: History, es: seq<Event>, threshold: int, j: nat)
    requires 0 < j <= |es|
    ensures Run(h, es[..j], threshold) == Step(Run(h, es[..j - 1], threshold), es[j - 1], threshold)
  {
    assert es[..j][..j - 1] == es[..j - 1];
  }

  // ---- the ledger explains the balance ----

  function Value(e: Entry): int {
    if e.Execution? then -1 else e.amount
  }

  /** A daily grant replaces the balance, every other entry adds to it. */
  function Fold(start: int, ledger: seq<Entry>): int {
    if ledger == [] then start
    else
      var last := ledger[|ledger| - 1];
      if last.DailyGrant? then last.amount else Fold(start, ledger[..|ledger| - 1]) + Value(last)
  }

  function Sum(ledger: seq<Entry>): int {
    if ledger == [] then 0 else Sum(ledger[..|ledger| - 1]) + Value(ledger[|ledger| - 1])
  }

  /** The balances that daily refreshes threw away. */
  function Overwritten(start: int, ledger: seq<Entry>): int {
    if ledger == [] then 0
    else
      var before := ledger[..|ledger| - 1];
      Overwritten(start, before) + (if ledger[|ledger| - 1].DailyGrant? then Fold(start, before) else 0)
  }

  lemma {:induction false} SumMissesWhatWasOverwritten(start: int, ledger: seq<Entry>)
    ensures start + Sum(ledger) - Fold(start, ledger) == Overwritten(start, ledger)
  {
    if ledger == [] {
    } else {
      SumMissesWhatWasOverwritten(start, ledger[..|ledger| - 1]);
    }
  }

  /** For every history the balance is the fold of the ledger, and differs from the plain
      sum by exactly the balances the refreshes overwrote. */
  lemma {:induction false} LedgerExplainsBalance(a: Account, es: seq<Event>, threshold: int)
    ensures var h := Run(History(a, []), es, threshold);
            && h.account.balance == Fold(a.balance, h.ledger)
            && a.balance + Sum(h.ledger) - h.account.balance == Overwritten(a.balance, h.ledger)
  {
    var h := Run(History(a, []), es, threshold);
    if es == [] {
    } else {
      var g := Run(History(a, []), es[..|es| - 1], threshold);
      LedgerExplainsBalance(a, es[..|es| - 1], threshold);
      if h.ledger != g.ledger { assert h.ledger[..|g.ledger|] == g.ledger; }
    }
    SumMissesWhatWasOverwritten(a.balance, h.ledger);
  }

  /** So `starting balance + sum of the ledger` does not stay the balance: a step from any
      history for which it is breaks it if and only if it refreshes a balance other than 0. */
  lemma SumBreaksExactlyAtRefresh(start: int, h: History, e: Event, threshold: int)
    requires start + Sum(h.ledger) == h.account.balance
    ensures var h' := Step(h, e, threshold);
            start + Sum(h'.ledger) != h'.account.balance
            <==> e.Gate? && RefreshDue(h.account, e.at) && h.account.balance != 0
  {
    var h' := Step(h, e, threshold);
    if h'.ledger != h.ledger { assert h'.ledger[..|h.ledger|] == h.ledger; }
  }

  // ---- the ledger of a wallet ----

  datatype Request = Ensure(day: int) | Ask(event: Event)

  function NewAccount(day: int): Account {
    Account(STARTING_BALANCE, false, Free, STARTING_BALANCE, day)
  }

  /** What the repository does to the user's rows. Without an account, a top-up still
      writes its ledger row, and everything else but Ensure is refused or matches no row. */
  function Handled(w: Wallet, q: Request, threshold: int): Wallet {
    match q
    case Ensure(day) => if w.account.Some? then w else w.(account := Some(NewAccount(day)))
    case Ask(e) =>
      match w.account
      case Some(a) =>
        var h := Step(History(a, w.ledger), e, threshold);
        Wallet(Some(h.account), h.ledger)
      case None => if e.TopUp? then w.(ledger := w.ledger + [StripeTopUp(e.amount)]) else w
  }

  function WalletAfter(qs: seq<Request>, threshold: int): Wallet {
    if qs == [] then Wallet(None, []) else Handled(WalletAfter(qs[..|qs| - 1], threshold), qs[|qs| - 1], threshold)
  }

  /** The first k entries are the top-ups that came before the account row; the balance is
      the fold of the others. */
  predicate Explains(w: Wallet, k: nat) {
    && k <= |w.ledger| && (forall i :: 0 <= i < k ==> w.ledger[i].StripeTopUp?)
    && match w.account
       case None => k == |w.ledger|
       case Some(a) => a.balance == Fold(STARTING_BALANCE, w.ledger[k..])
  }

  /** How many top-ups come before the first Ensure. */
  function EarlyTopUps(qs: seq<Request>): nat {
    if qs == [] then 0
    else
      var before, q := qs[..|qs| - 1], qs[|qs| - 1];
      EarlyTopUps(before) + (if !Ensured(before) && q.Ask? && q.event.TopUp? then 1 else 0)
  }

  predicate Ensured(qs: seq<Request>) {
    exists i :: 0 <= i < |qs| && qs[i].Ensure?
  }

  lemma EnsuredInPart(qs: seq<Request>)
    requires qs != []
    ensures Ensured(qs) <==> Ensured(qs[..|qs| - 1]) || qs[|qs| - 1].Ensure?
  {
    var n := |qs| - 1;
    assert forall i :: 0 <= i < n ==> qs[..n][i] == qs[i];
  }

  lemma HandledIsExplained(w: Wallet, q: Request, threshold: int, k: nat)
    requires Explains(w, k)
    ensures Explains(Handled(w, q, threshold), k + (if w.account.None? && q.Ask? && q.event.TopUp? then 1 else 0))
  {
    var w' := Handled(w, q, threshold);
    if w.account.Some? && w'.ledger != w.ledger {
      assert |w'.ledger| == |w.ledger| + 1;
      assert w'.ledger[k..][..|w.ledger| - k] == w.ledger[k..];
    }
  }

  lemma {:induction false} WalletIsExplained(qs: seq<Request>, threshold: int)
    ensures Explains(WalletAfter(qs, threshold), EarlyTopUps(qs))
    ensures WalletAfter(qs, threshold).account.Some? <==> Ensured(qs)
  {
    if qs == [] {
    } else {
      var before := qs[..|qs| - 1];
      WalletIsExplained(before, threshold);
      HandledIsExplained(WalletAfter(before, threshold), qs[|qs| - 1], threshold, EarlyTopUps(before));
      EnsuredInPart(qs);
    }
  }

  predicate HasGrant(ledger: seq<Entry>) {
    exists i :: 0 <= i < |ledger| && ledger[i].DailyGrant?
  }

  lemma GrantInPart(ledger: seq<Entry>, n: nat)
    requires n + 1 == |ledger|
    ensures HasGrant(ledger) <==> HasGrant(ledger[..n]) || ledger[n].DailyGrant?
  {
    assert forall i :: 0 <= i < n ==> ledger[..n][i] == ledger[i];
  }

  /** Folding from another start makes the same difference, unless a grant wipes it out. */
  lemma {:induction false} FoldSplits(start: int, a: seq<Entry>, b: seq<Entry>)
    requires !HasGrant(a)
    ensures Fold(start, a + b) == Fold(start, b) + (if HasGrant(b) then 0 else Sum(a))
    decreases |a| + |b|
  {
    if a == [] && b == [] {
    } else if b == [] {
      var n := |a| - 1;
      GrantInPart(a, n);
      FoldSplits(start, a[..n], []);
      assert a + b == a && a[..n] + [] == a[..n];
    } else {
      var n := |b| - 1;
      assert (a + b)[..|a| + n] == a + b[..n];
      GrantInPart(b, n);
      FoldSplits(start, a, b[..n]);
    }
  }

  /** For every history of requests: the balance is the fold of the ledger behind the
      top-ups that preceded the account, and the fold of the whole ledger if and only if
      those come to nothing or a daily grant has been made since. */
  lemma WalletLedgerExplainsBalance(qs: seq<Request>, threshold: int)
    ensures var w, k := WalletAfter(qs, threshold), EarlyTopUps(qs);
            && Explains(w, k)
            && (w.account.Some? <==> Ensured(qs))
            && (w.account.Some? ==>
                  (w.account.value.balance == Fold(STARTING_BALANCE, w.ledger)
                   <==> Sum(w.ledger[..k]) == 0 || HasGrant(w.ledger[k..])))
  {
    WalletIsExplained(qs, threshold);
    var ledger, k := WalletAfter(qs, threshold).ledger, EarlyTopUps(qs);
    assert ledger == ledger[..k] + ledger[k..];
    FoldSplits(STARTING_BALANCE, ledger[..k], ledger[k..]);
  }

  /** A top-up before the account row is in the ledger and not in the balance. */
  lemma EarlyTopUpIsMissing()
    ensures var w := WalletAfter([Ask(TopUp(5)), Ensure(0)], 0);
            && w.account.Some? && w.ledger == [StripeTopUp(5)]
            && w.account.value.balance != Fold(STARTING_BALANCE, w.ledger)
  {
    var q1, q2 := Ask(TopUp(5)), Ensure(0);
    assert [q1, q2][..1] == [q1] && [q1][..0] == [];
    assert WalletAfter([q1], 0) == Handled(WalletAfter([], 0), q1, 0) == Wallet(None, [StripeTopUp(5)]);
    assert WalletAfter([q1, q2], 0) == Handled(WalletAfter([q1], 0), q2, 0);
    assert [StripeTopUp(5)][..0] == [];
  }

  // ---- the low-balance latch ----

  /** The latch is only ever set below the threshold. */
  predicate LatchOk(a: Account, threshold: int) {
    a.notified ==> threshold > 0 && a.balance < threshold
  }

  lemma StepKeepsLatch(h: History, e: Event, threshold: int)
    requires LatchOk(h.account, threshold)
    ensures LatchOk(Step(h, e, threshold).account, threshold)
  {
  }

  /** A reported crossing is the edge of CrossedLowBalance, and it is the deduction that
      flips the latch, although the RETURNING clause never reads the latch. */
  lemma CrossingFlipsLatch(a: Account, threshold: int)
    requires LatchOk(a, threshold)
    ensures var left := Deducted(a, threshold).balance;
            Crosses(a, threshold) <==> CrossedLowBalance(left + 1, left, threshold)
    ensures Crosses(a, threshold) ==> !a.notified && Deducted(a, threshold).notified
  {
  }

  predicate Reports(h: History, e: Event, threshold: int) {
    e.Charge? && Crosses(h.account, threshold)
  }

  /** A top-up, or a gate that refreshes. */
  predicate Rearms(h: History, e: Event) {
    e.TopUp? || (e.Gate? && RefreshDue(h.account, e.at))
  }

  lemma {:induction false} RunLatch(h: History, es: seq<Event>, threshold: int)
    requires LatchOk(h.account, threshold)
    ensures LatchOk(Run(h, es, threshold).account, threshold)
  {
    if es == [] {
    } else {
      RunLatch(h, es[..|es| - 1], threshold);
      StepKeepsLatch(Run(h, es[..|es| - 1], threshold), es[|es| - 1], threshold);
    }
  }

  lemma LatchStays(h: History, e: Event, threshold: int)
    requires h.account.notified && !Rearms(h, e)
    ensures Step(h, e, threshold).account.notified
  {
  }

  /** While nothing re-arms it, the latch stays set. */
  lemma {:induction false} LatchHolds(h: History, es: seq<Event>, threshold: int, i: nat, j: nat)
    requires LatchOk(h.account, threshold) && i < j <= |es|
    requires Reports(Run(h, es[..i], threshold), es[i], threshold)
    requires forall k :: i < k < j ==> !Rearms(Run(h, es[..k], threshold), es[k])
    ensures Run(h, es[..j], threshold).account.notified
    decreases j
  {
    RunPrefix(h, es, threshold, j);
    if j == i + 1 {
      RunLatch(h, es[..i], threshold);
      CrossingFlipsLatch(Run(h, es[..i], threshold).account, threshold);
    } else {
      LatchHolds(h, es, threshold, i, j - 1);
      var g, e := Run(h, es[..j - 1], threshold), es[j - 1];
      assert !Rearms(g, e);
      LatchStays(g, e, threshold);
    }
  }

  /** Between two reported crossings of any history there is a top-up or a refresh. */
  lemma OneReportPerArming(h: History, es: seq<Event>, threshold: int, i: nat, j: nat)
    requires LatchOk(h.account, threshold) && i < j < |es|
    requires Reports(Run(h, es[..i], threshold), es[i], threshold)
    requires Reports(Run(h, es[..j], threshold), es[j], threshold)
    ensures exists k :: i < k < j && Rearms(Run(h, es[..k], threshold), es[k])
  {
    if forall k :: i < k < j ==> !Rearms(Run(h, es[..k], threshold), es[k]) {
      LatchHolds(h, es, threshold, i, j);
      RunLatch(h, es[..j], threshold);
      assert false;
    }
  }

  // ---- at most one grant per day ----

  predicate Grants(h: History, e: Event) {
    e.Gate? && RefreshDue(h.account, e.at)
  }

  /** No session's date is ahead of the UTC date. */
  ghost predicate NotAhead(es: seq<Event>) {
    forall i :: 0 <= i < |es| && es[i].Gate? ==> es[i].at.session <= es[i].at.utc
  }

  /** Once a day's grant is made, the account remembers that day or a later one. */
  lemma {:induction false} GrantIsRemembered(h: History, es: seq<Event>, threshold: int, i: nat, j: nat)
    requires NotAhead(es) && i < j <= |es| && Grants(Run(h, es[..i], threshold), es[i])
    ensures es[i].at.utc <= Run(h, es[..j], threshold).account.refreshedDay
    decreases j
  {
    RunPrefix(h, es, threshold, j);
    if j == i + 1 {
    } else {
      GrantIsRemembered(h, es, threshold, i, j - 1);
    }
  }

  /** Two grants of any history are on different, increasing UTC days, if no session's date
      is ahead. */
  lemma OneGrantPerDay(h: History, es: seq<Event>, threshold: int, i: nat, j: nat)
    requires NotAhead(es) && i < j < |es|
    requires Grants(Run(h, es[..i], threshold), es[i]) && Grants(Run(h, es[..j], threshold), es[j])
    ensures es[i].at.utc < es[j].at.utc
  {
    GrantIsRemembered(h, es, threshold, i, j);
  }

  /** And only then: the same moment grants once more right after a grant if and only if the
      session's date is ahead of the UTC date. */
  lemma GrantsAgainExactlyAhead(h: History, at: Today, threshold: int)
    requires Grants(h, Gate(at))
    ensures Grants(Step(h, Gate(at), threshold), Gate(at)) <==> at.session > at.utc
  {
  }

  // ---- whom the refresh is for ----

  function Charges(es: seq<Event>): nat {
    if es == [] then 0 else Charges(es[..|es| - 1]) + (if es[|es| - 1].Charge? then 1 else 0)
  }

  function TopUps(es: seq<Event>): int {
    if es == [] then 0 else TopUps(es[..|es| - 1]) + (if es[|es| - 1].TopUp? then es[|es| - 1].amount else 0)
  }

  /** While a user pays as they go, no day's grant is written and the balance is what it was,
      less the charges and plus the top-ups, whatever the days. */
  lemma {:induction false} PaidIsNeverRefreshed(a: Account, es: seq<Event>, threshold: int)
    requires a.plan == PayAsYouGo && forall i :: 0 <= i < |es| ==> es[i] != SetPlan(Free)
    ensures var h := Run(History(a, []), es, threshold);
            && h.account.plan == PayAsYouGo
            && (forall i :: 0 <= i < |h.ledger| ==> !h.ledger[i].DailyGrant?)
            && h.account.balance == a.balance - Charges(es) + TopUps(es)
  {
    if es == [] {
    } else {
      PaidIsNeverRefreshed(a, es[..|es| - 1], threshold);
    }
  }

  /** A gate gives a free account its daily limit, in place of what it had, and writes the
      grant if and only if the last refresh was on an earlier day than the session's. */
  lemma FreeIsRefreshedOnANewDay(h: History, at: Today, threshold: int)
    requires h.account.plan == Free
    ensures var h' := Step(h, Gate(at), threshold);
            && (h.account.refreshedDay < at.session ==>
                  && h'.account.balance == h.account.dailyLimit && !h'.account.notified
                  && h'.account.refreshedDay == at.utc
                  && h'.ledger == h.ledger + [DailyGrant(h.account.dailyLimit)])
            && (h.account.refreshedDay >= at.session ==> h' == h)
            && (|h'.ledger| > |h.ledger| <==> h.account.refreshedDay < at.session)
  {
  }

  // ---- the repository ----

  datatype Result<T> = Ok(value: T) | Err

  class CreditRepository {
    var wallets: map<int, Wallet>

    constructor ()
      ensures wallets == map[]
    {
      wallets := map[];
    }

    function WalletOf(user: int): Wallet
      reads this
    {
      if user in wallets then wallets[user] else Wallet(None, [])
    }

    method EnsureExists(user: int, day: int)
      modifies this
      ensures WalletOf(user) == Handled(old(WalletOf(user)), Ensure(day), 0)
      ensures WalletOf(user).ledger == old(WalletOf(user)).ledger
      ensures WalletOf(user).account == if old(WalletOf(user)).account.Some? then old(WalletOf(user)).account
                                        else Some(Account(100000, false, Free, 100000, day))
      ensures wallets - {user} == old(wallets) - {user}
    {
      var w := WalletOf(user);
      if w.account.None? {
        wallets := wallets[user := w.(account := Some(Account(STARTING_BALANCE, false, Free, STARTING_BALANCE, day)))];
      }
    }

    /** Refreshes if a new day has begun, then answers balance > 0; a missing row is an
        error that leaves nothing behind. */
    method HasCredits(user: int, at: Today) returns (r: Result<bool>)
      modifies this
      ensures wallets - {user} == old(wallets) - {user}
      ensures WalletOf(user) == Handled(old(WalletOf(user)), Ask(Gate(at)), 0)
      ensures r == match WalletOf(user).account
                   case None => Err
                   case Some(a) => Ok(a.balance > 0)
      // in fields: only a free account whose last refresh is of an earlier day changes
      ensures var w := old(WalletOf(user));
              WalletOf(user) ==
              if w.account.Some? && w.account.value.plan == Free && w.account.value.refreshedDay < at.session
              then Wallet(Some(w.account.value.(balance := w.account.value.dailyLimit, notified := false,
                                                refreshedDay := at.utc)),
                          w.ledger + [DailyGrant(w.account.value.dailyLimit)])
              else w
    {
      var w := WalletOf(user);
      if w.account.None? {
        return Err;
      }
      var a := w.account.value;
      if a.plan == Free && a.refreshedDay < at.session {
        a := a.(balance := a.dailyLimit, notified := false, refreshedDay := at.utc);
        w := Wallet(Some(a), w.ledger + [DailyGrant(a.dailyLimit)]);
        wallets := wallets[user := w];
      }
      r := Ok(a.balance > 0);
    }

    /** The report is the edge CrossedLowBalance of the old and the new balance. */
    method Deduct(user: int, threshold: int) returns (r: Result<bool>)
      modifies this
      ensures wallets - {user} == old(wallets) - {user}
      ensures WalletOf(user) == Handled(old(WalletOf(user)), Ask(Charge), threshold)
      ensures r == match old(WalletOf(user)).account
                   case None => Err
                   case Some(a) => Ok(CrossedLowBalance(a.balance, a.balance - 1, threshold))
      // in fields
      ensures match old(WalletOf(user)).account
              case None => WalletOf(user) == old(WalletOf(user))
              case Some(a) =>
                && WalletOf(user).ledger == old(WalletOf(user)).ledger + [Execution]
                && WalletOf(user).account ==
                   Some(a.(balance := a.balance - 1,
                           notified := a.notified || (0 < threshold && a.balance <= threshold)))
                && r == Ok(0 < threshold == a.balance)
    {
      var w := WalletOf(user);
      if w.account.None? {
        return Err;
      }
      var a := w.account.value;
      var latch := a.notified || (threshold > 0 && a.balance - 1 < threshold && !a.notified);
      a := a.(balance := a.balance - 1, notified := latch);
      wallets := wallets[user := Wallet(Some(a), w.ledger + [Execution])];
      r := Ok(threshold > 0 && a.balance < threshold && a.balance + 1 >= threshold);
    }

    /** The UPDATE may match no row; the ledger row is written all the same. */
    method TopUp(user: int, amount: int)
      modifies this
      ensures wallets - {user} == old(wallets) - {user}
      ensures WalletOf(user) == Handled(old(WalletOf(user)), Ask(Event.TopUp(amount)), 0)
      ensures WalletOf(user).ledger == old(WalletOf(user)).ledger + [StripeTopUp(amount)]
      ensures WalletOf(user).account ==
              match old(WalletOf(user)).account
              case None => None
              case Some(a) => Some(a.(balance := a.balance + amount, notified := false))
    {
      var w := WalletOf(user);
      if w.account.Some? {
        w := w.(account := Some(w.account.value.(balance := w.account.value.balance + amount, notified := false)));
      }
      wallets := wallets[user := w.(ledger := w.ledger + [StripeTopUp(amount)])];
    }
  }
}
