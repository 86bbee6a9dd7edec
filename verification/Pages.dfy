/** Keyset pagination. A table is the list of a user's matching rows in the order of the
    query, newest first; a key is the (time, id) pair the cursor carries. */
module Pages {
  import opened Tasks

  datatype Key = Key(time: int, id: int)

  // (created_at, id) < (t, i)
  predicate Less(a: Key, b: Key) {
    a.time < b.time || (a.time == b.time && a.id < b.id)
  }

  /** ORDER BY time DESC, id DESC with unique ids */
  ghost predicate Descending(rows: seq<Key>) {
    forall i, j {:trigger Less(rows[j], rows[i])} :: 0 <= i < j < |rows| ==> Less(rows[j], rows[i])
  }

  function Below(rows: seq<Key>, cursor: Option<Key>): seq<Key> {
    if rows == [] then []
    else if cursor.Some? && !Less(rows[0], cursor.value) then Below(rows[1..], cursor)
    else [rows[0]] + Below(rows[1..], cursor)
  }

  function Take(rows: seq<Key>, n: nat): seq<Key> {
    if |rows| <= n then rows else rows[..n]
  }

  /** SELECT ... WHERE key < cursor ORDER BY key DESC LIMIT n */
  function Query(rows: seq<Key>, cursor: Option<Key>, n: nat): seq<Key> {
    Take(Below(rows, cursor), n)
  }

  lemma {:induction false} BelowEverything(rows: seq<Key>)
    ensures Below(rows, None) == rows
  {
    if rows == [] {
    } else {
      BelowEverything(rows[1..]);
    }
  }

  /** After row i come exactly the rows behind it. */
  lemma {:induction false} BelowRow(rows: seq<Key>, i: nat)
    requires Descending(rows) && i < |rows|
    ensures Below(rows, Some(rows[i])) == rows[i + 1..]
  {
    if i == 0 {
      AllBelow(rows[1..], rows[0]);
    } else {
      assert Less(rows[i], rows[0]);
      BelowRow(rows[1..], i - 1);
    }
  }

  lemma {:induction false} AllBelow(rows: seq<Key>, k: Key)
    requires forall i :: 0 <= i < |rows| ==> Less(rows[i], k)
    ensures Below(rows, Some(k)) == rows
  {
    if rows == [] {
    } else {
      AllBelow(rows[1..], k);
    }
  }

  // ---- the endpoints ----

  function JobsLimit(limit: int): nat {
    if limit <= 0 then 20 else if limit > 100 then 100 else limit
  }

  function DeliveriesLimit(limit: int): nat {
    if limit <= 0 then 25 else if limit > 100 then 100 else limit
  }

  function TransactionsLimit(limit: int): nat {
    if limit <= 0 || limit > 100 then 50 else limit
  }

  /** The cursor behind a page: the last row on it if more follow. */
  function Last(rest: seq<Key>, limit: nat): Option<Key>
    requires 0 < limit
  {
    if |rest| > limit then Some(rest[limit - 1]) else None
  }

  /** The cursor of the job list: the row peeked at. */
  function Peeked(rest: seq<Key>, limit: nat): Option<Key> {
    if |rest| > limit then Some(rest[limit]) else None
  }

  // usecase/job.go ListJobs, and the buffers, items and schedules lists
  method ListJobs(table: seq<Key>, requested: int, cursor: Option<Key>) returns (rows: seq<Key>, next: Option<Key>)
    ensures var limit := JobsLimit(requested);
            var rest := Below(table, cursor);
            && rows == Take(rest, limit)
            && next == Peeked(rest, limit)
    ensures var size := if requested <= 0 then 20 else if requested > 100 then 100 else requested;
            |rows| <= size && (next.Some? ==> |rows| == size)
  {
    var limit := requested;
    if limit <= 0 { limit := 20; }
    if limit > 100 { limit := 100; }
    rows := Query(table, cursor, limit + 1);
    next := None;
    if |rows| == limit + 1 {
      next := Some(rows[limit]);
      rows := rows[..limit];
    }
  }

  // handler/webhook.go ListDeliveries
  method ListDeliveries(table: seq<Key>, requested: int, cursor: Option<Key>)
    returns (rows: seq<Key>, next: Option<Key>)
    ensures var limit := DeliveriesLimit(requested);
            var rest := Below(table, cursor);
            && rows == Take(rest, limit)
            && next == Last(rest, limit)
    ensures var size := if requested <= 0 then 25 else if requested > 100 then 100 else requested;
            |rows| <= size && (next.Some? ==> |rows| == size)
  {
    var limit := 25;
    if requested > 0 { limit := requested; }
    if limit > 100 { limit := 100; }
    rows := Query(table, cursor, limit + 1);
    next := None;
    if |rows| > limit {
      next := Some(rows[limit - 1]);
      rows := rows[..limit];
    }
  }

  // billing_repo.go ListTransactions behind usecase/billing.go
  method ListTransactions(table: seq<Key>, requested: int, cursor: Option<Key>)
    returns (rows: seq<Key>, next: Option<Key>)
    ensures var limit := TransactionsLimit(requested);
            var rest := Below(table, cursor);
            && rows == Take(rest, limit)
            && next == Last(rest, limit)
    ensures var size := if requested <= 0 || requested > 100 then 50 else requested;
            |rows| <= size && (next.Some? ==> |rows| == size)
  {
    var limit := requested;
    if limit <= 0 || limit > 100 { limit := 50; }
    rows := Query(table, cursor, limit + 1);
    next := None;
    if |rows| == limit + 1 {
      rows := rows[..limit];
      next := Some(rows[limit - 1]);
    }
  }

  // ---- walks ----

  predicate Walked(table: seq<Key>, seen: seq<Key>, next: Option<Key>) {
    && seen <= table
    && if next.None? then seen == table else seen != [] && next.value == seen[|seen| - 1]
  }

  lemma PageJoins(table: seq<Key>, seen: seq<Key>, rest: seq<Key>, limit: nat)
    requires table == seen + rest && 0 < limit
    ensures Walked(table, seen + Take(rest, limit), Last(rest, limit))
  {
    assert table == seen + Take(rest, limit) + rest[|Take(rest, limit)|..];
  }

  /** The page behind the rows seen so far joins up with them. */
  lemma NextPage(table: seq<Key>, seen: seq<Key>, next: Option<Key>, limit: nat)
    requires Descending(table) && next.Some? && Walked(table, seen, next) && 0 < limit
    ensures var rest := Below(table, next);
            && Walked(table, seen + Take(rest, limit), Last(rest, limit))
            && (Last(rest, limit).Some? ==> |Take(rest, limit)| == limit)
  {
    BelowRow(table, |seen| - 1);
    PageJoins(table, seen, Below(table, next), limit);
  }

  lemma FirstPage(table: seq<Key>, limit: nat)
    requires 0 < limit
    ensures var rest := Below(table, None);
            Walked(table, Take(rest, limit), Last(rest, limit))
  {
    BelowEverything(table);
    PageJoins(table, [], table, limit);
  }

  /** Following next_cursor to the end returns the whole table, once and in order. */
  method WalkDeliveries(table: seq<Key>, requested: int) returns (seen: seq<Key>)
    requires Descending(table)
    ensures seen == table
  {
    FirstPage(table, DeliveriesLimit(requested));
    var next;
    seen, next := ListDeliveries(table, requested, None);
    while next.Some?
      invariant Walked(table, seen, next)
      decreases next.Some?, |table| - |seen|
    {
      NextPage(table, seen, next, DeliveriesLimit(requested));
      var page;
      page, next := ListDeliveries(table, requested, next);
      seen := seen + page;
    }
  }

  method WalkTransactions(table: seq<Key>, requested: int) returns (seen: seq<Key>)
    requires Descending(table)
    ensures seen == table
  {
    FirstPage(table, TransactionsLimit(requested));
    var next;
    seen, next := ListTransactions(table, requested, None);
    while next.Some?
      invariant Walked(table, seen, next)
      decreases next.Some?, |table| - |seen|
    {
      NextPage(table, seen, next, TransactionsLimit(requested));
      var page;
      page, next := ListTransactions(table, requested, next);
      seen := seen + page;
    }
  }

  /** Every row but the one peeked at behind each full page. */
  function Kept(rows: seq<Key>, limit: nat): seq<Key> {
    if |rows| <= limit then rows else rows[..limit] + Kept(rows[limit + 1..], limit)
  }

  /** A walk through ListJobs that has come to row `at`. */
  ghost predicate WalkedJobs(table: seq<Key>, seen: seq<Key>, next: Option<Key>, at: nat, limit: nat) {
    if next.None? then seen == Kept(table, limit)
    else at < |table| && next.value == table[at] && Kept(table, limit) == seen + Kept(table[at + 1..], limit)
  }

  /** The same walk through ListJobs loses the peeked rows. */
  method WalkJobs(table: seq<Key>, requested: int) returns (seen: seq<Key>)
    requires Descending(table)
    ensures seen == Kept(table, JobsLimit(requested))
  {
    FirstJobs(table, JobsLimit(requested));
    var next;
    seen, next := ListJobs(table, requested, None);
    ghost var at: nat := JobsLimit(requested);
    while next.Some?
      invariant WalkedJobs(table, seen, next, at, JobsLimit(requested))
      decreases next.Some?, |table| - at
    {
      NextJobs(table, seen, next, at, JobsLimit(requested));
      var page;
      page, next := ListJobs(table, requested, next);
      seen := seen + page;
      at := at + 1 + JobsLimit(requested);
    }
  }

  lemma FirstJobs(table: seq<Key>, limit: nat)
    ensures var rest := Below(table, None);
            WalkedJobs(table, Take(rest, limit), Peeked(rest, limit), limit, limit)
  {
    BelowEverything(table);
  }

  lemma NextJobs(table: seq<Key>, seen: seq<Key>, next: Option<Key>, at: nat, limit: nat)
    requires Descending(table) && next.Some? && WalkedJobs(table, seen, next, at, limit)
    ensures var rest := Below(table, next);
            WalkedJobs(table, seen + Take(rest, limit), Peeked(rest, limit), at + 1 + limit, limit)
  {
    BelowRow(table, at);
    KeptStep(table, at, limit, seen);
  }

  lemma KeptStep(table: seq<Key>, at: nat, limit: nat, seen: seq<Key>)
    requires at < |table|
    ensures var rest := table[at + 1..];
            if |rest| <= limit then seen + Kept(rest, limit) == seen + Take(rest, limit)
            else
              && rest[limit] == table[at + 1 + limit]
              && seen + Kept(rest, limit) == (seen + Take(rest, limit)) + Kept(table[at + 1 + limit + 1..], limit)
  {
    var rest := table[at + 1..];
    if |rest| > limit {
      assert rest[limit + 1..] == table[at + 1 + limit + 1..];
      var kept := Kept(rest[limit + 1..], limit);
      assert seen + (rest[..limit] + kept) == (seen + rest[..limit]) + kept;
    }
  }

  lemma {:induction false} KeptIsPart(rows: seq<Key>, limit: nat, k: Key)
    requires k in Kept(rows, limit)
    ensures k in rows
  {
    if |rows| > limit && k !in rows[..limit] { KeptIsPart(rows[limit + 1..], limit, k); }
  }

  lemma PeekedIsLost(rows: seq<Key>, limit: nat)
    requires Descending(rows) && limit < |rows|
    ensures rows[limit] !in Kept(rows, limit)
  {
    var k, rest := rows[limit], rows[limit + 1..];
    forall j | 0 <= j < limit ensures rows[j] != k {
      assert Less(k, rows[j]);
    }
    forall j | 0 <= j < |rest| ensures rest[j] != k {
      assert Less(rows[limit + 1 + j], k);
    }
    if k in Kept(rest, limit) { KeptIsPart(rest, limit, k); }
  }

  lemma EarlierRow(rows: seq<Key>, limit: nat, i: nat)
    requires i < limit && i < |rows|
    ensures rows[i] in Kept(rows, limit)
  {
    if |rows| > limit { assert rows[..limit][i] == rows[i]; }
  }

  lemma LaterRow(rows: seq<Key>, limit: nat, i: nat)
    requires Descending(rows) && limit < i < |rows|
    ensures rows[i] in Kept(rows, limit) <==> rows[i] in Kept(rows[limit + 1..], limit)
  {
    forall j | 0 <= j < limit ensures rows[j] != rows[i] {
      assert Less(rows[i], rows[j]);
    }
  }

  lemma RestDescends(rows: seq<Key>, n: nat)
    requires Descending(rows) && n <= |rows|
    ensures Descending(rows[n..])
  {
    forall i, j | 0 <= i < j < |rows[n..]| ensures Less(rows[n..][j], rows[n..][i]) {
      assert Less(rows[n + j], rows[n + i]);
    }
  }

  /** Where row i stands behind the last peeked row before it. */
  function Offset(i: nat, n: nat): nat
    requires 0 < n
  {
    if i < n then i else Offset(i - n, n)
  }

  lemma {:induction false} KeptByOffset(rows: seq<Key>, limit: nat, i: nat)
    requires Descending(rows) && i < |rows|
    ensures rows[i] in Kept(rows, limit) <==> Offset(i, limit + 1) != limit
    decreases i
  {
    if i < limit {
      EarlierRow(rows, limit, i);
    } else if i == limit {
      PeekedIsLost(rows, limit);
    } else {
      var j := i - (limit + 1);
      RestDescends(rows, limit + 1);
      KeptByOffset(rows[limit + 1..], limit, j);
      LaterRow(rows, limit, i);
      assert rows[limit + 1..][j] == rows[i];
    }
  }

  lemma {:induction false} OffsetIsRemainder(i: nat, n: nat)
    requires 0 < n
    ensures Offset(i, n) == i % n
  {
    if i < n {
      SmallMod(i, n);
    } else {
      OffsetIsRemainder(i - n, n);
      ShiftMod(i, n);
    }
  }

  /** ListJobs loses exactly the rows at positions congruent to limit modulo limit + 1. */
  lemma LostPositions(rows: seq<Key>, limit: nat, i: nat)
    requires Descending(rows) && i < |rows|
    ensures rows[i] in Kept(rows, limit) <==> i % (limit + 1) != limit
  {
    KeptByOffset(rows, limit, i);
    OffsetIsRemainder(i, limit + 1);
  }

  lemma SmallMod(i: nat, n: nat)
    requires i < n
    ensures i % n == i
  {
  }

  lemma AtLeastOnce(n: int, d: int)
    requires 0 < n && 1 <= d
    ensures n <= n * d
  {
  }

  lemma OnlyZeroIsSmall(n: int, d: int)
    requires 0 < n && -n < n * d < n
    ensures d == 0
  {
    if d >= 1 {
      AtLeastOnce(n, d);
    } else if d <= -1 {
      AtLeastOnce(n, -d);
    }
  }

  lemma ShiftMod(i: int, n: int)
    requires 0 < n
    ensures i % n == (i - n) % n
  {
    var q, q' := i / n, (i - n) / n;
    assert i == n * q + i % n && i - n == n * q' + (i - n) % n;
    assert n * (q - 1 - q') == n * q - n - n * q';
    OnlyZeroIsSmall(n, q - 1 - q');
  }

  /** So a walk through ListJobs is complete if and only if one page holds everything. */
  lemma JobsCompleteIff(rows: seq<Key>, limit: nat)
    requires Descending(rows)
    ensures (forall k :: k in rows ==> k in Kept(rows, limit)) <==> |rows| <= limit
  {
    if |rows| > limit {
      PeekedIsLost(rows, limit);
      assert rows[limit] in rows;
    }
  }
}
