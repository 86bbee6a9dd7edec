/** The per-buffer token bucket of ClaimNextItem: refilled lazily, written only by a
    successful claim. Tokens are reals; a time is in seconds. */
module TokenBucket {

  datatype Bucket = Bucket(tokens: real, last: real)

  function Min(x: real, y: real): real {
    if x <= y then x else y
  }

  // LEAST(rate_limit, tokens + elapsed * rate_limit)
  function Available(b: Bucket, rate: real, t: real): real {
    Min(rate, b.tokens + (t - b.last) * rate)
  }

  predicate Admits(b: Bucket, rate: real, t: real) {
    Available(b, rate, t) >= 1.0
  }

  // the UPDATE of the bucket CTE
  function Spend(b: Bucket, rate: real, t: real): Bucket {
    Bucket(Available(b, rate, t) - 1.0, t)
  }

  predicate Full(b: Bucket, rate: real) {
    0.0 <= b.tokens <= rate
  }

  // ---- lazy and continuous refill ----

  /** A claim attempt, or an instant at which a bucket that refills all the time is
      looked at. */
  datatype Moment = Try(t: real) | Look(t: real)

  predicate Ordered(from: real, ms: seq<Moment>)
    decreases |ms|
  {
    ms == [] || (from <= ms[0].t && Ordered(ms[0].t, ms[1..]))
  }

  function Lazy(b: Bucket, rate: real, ms: seq<Moment>): seq<bool>
    decreases |ms|
  {
    if ms == [] then []
    else if ms[0].Look? then Lazy(b, rate, ms[1..])
    else if Admits(b, rate, ms[0].t) then [true] + Lazy(Spend(b, rate, ms[0].t), rate, ms[1..])
    else [false] + Lazy(b, rate, ms[1..])
  }

  /** The tokens that have arrived are credited, and what does not fit is lost. */
  function Refilled(b: Bucket, rate: real, t: real): Bucket {
    var grown := b.tokens + (t - b.last) * rate;
    Bucket(if grown > rate then rate else grown, t)
  }

  lemma RefillIsAvailable(b: Bucket, rate: real, t: real)
    ensures Refilled(b, rate, t) == Bucket(Available(b, rate, t), t)
  {
  }

  /** The reference: tokens are credited at every moment, also at the ones between
      attempts and at attempts that are turned away. */
  function Continuous(b: Bucket, rate: real, ms: seq<Moment>): seq<bool>
    decreases |ms|
  {
    if ms == [] then []
    else
      var t := ms[0].t;
      var full := Refilled(b, rate, t);
      if ms[0].Look? then Continuous(full, rate, ms[1..])
      else if full.tokens >= 1.0 then [true] + Continuous(Bucket(full.tokens - 1.0, t), rate, ms[1..])
      else [false] + Continuous(full, rate, ms[1..])
  }

  lemma Distribute(x: real, y: real, z: real, rate: real)
    ensures (z - x) * rate == (y - x) * rate + (z - y) * rate
  {
  }

  lemma NonNegative(x: real, rate: real)
    requires 0.0 <= x && 0.0 <= rate
    ensures 0.0 <= x * rate
  {
  }

  lemma RefillComposes(b: Bucket, rate: real, u: real, t: real)
    requires 0.0 <= rate && b.last <= u <= t
    ensures Available(Bucket(Available(b, rate, u), u), rate, t) == Available(b, rate, t)
  {
    Distribute(b.last, u, t, rate);
    NonNegative(t - u, rate);
    NonNegative(u - b.last, rate);
  }

  /** Refilling only when a claim succeeds admits exactly the claims a continuously
      refilled bucket admits, for every set of moments at which the latter is observed. */
  lemma {:induction false} LazyRefillIsContinuous(b: Bucket, rate: real, u: real, ms: seq<Moment>)
    requires 0.0 <= rate && b.last <= u && Ordered(u, ms)
    ensures Lazy(b, rate, ms) == Continuous(Bucket(Available(b, rate, u), u), rate, ms)
    decreases |ms|
  {
    if ms == [] {
    } else {
      var t := ms[0].t;
      RefillComposes(b, rate, u, t);
      RefillIsAvailable(Bucket(Available(b, rate, u), u), rate, t);
      if ms[0].Try? && Admits(b, rate, t) {
        var b' := Spend(b, rate, t);
        assert Available(b', rate, t) == b'.tokens;
        LazyRefillIsContinuous(b', rate, t, ms[1..]);
      } else {
        LazyRefillIsContinuous(b, rate, t, ms[1..]);
      }
    }
  }

  // ---- how many claims fit ----

  /** Claims at these times, in this order, are all admitted. */
  predicate Admissible(b: Bucket, rate: real, claims: seq<real>)
    decreases |claims|
  {
    claims == [] ||
    (b.last <= claims[0] && Admits(b, rate, claims[0]) && Admissible(Spend(b, rate, claims[0]), rate, claims[1..]))
  }

  function AfterClaims(b: Bucket, rate: real, claims: seq<real>): Bucket
    decreases |claims|
  {
    if claims == [] then b else AfterClaims(Spend(b, rate, claims[0]), rate, claims[1..])
  }

  /** Number of claims in the window (s, t]. */
  function CountIn(claims: seq<real>, s: real, t: real): nat
    decreases |claims|
  {
    if claims == [] then 0 else (if s < claims[0] <= t then 1 else 0) + CountIn(claims[1..], s, t)
  }

  function CountUpTo(claims: seq<real>, t: real): nat
    decreases |claims|
  {
    if claims == [] then 0 else (if claims[0] <= t then 1 else 0) + CountUpTo(claims[1..], t)
  }

  lemma {:induction false} TokensStayInRange(b: Bucket, rate: real, claims: seq<real>)
    requires 0.0 <= rate && Full(b, rate) && Admissible(b, rate, claims)
    ensures Full(AfterClaims(b, rate, claims), rate) && b.last <= AfterClaims(b, rate, claims).last
    decreases |claims|
  {
    if claims == [] {
    } else {
      TokensStayInRange(Spend(b, rate, claims[0]), rate, claims[1..]);
    }
  }

  lemma {:induction false} WindowIsPart(claims: seq<real>, s: real, t: real)
    ensures CountIn(claims, s, t) <= CountUpTo(claims, t)
    decreases |claims|
  {
    if claims == [] {
    } else {
      WindowIsPart(claims[1..], s, t);
    }
  }

  lemma {:induction false} NoneBefore(b: Bucket, rate: real, claims: seq<real>, t: real)
    requires Admissible(b, rate, claims) && t < b.last
    ensures CountUpTo(claims, t) == 0
    decreases |claims|
  {
    if claims == [] {
    } else {
      NoneBefore(Spend(b, rate, claims[0]), rate, claims[1..], t);
    }
  }

  lemma Growth(b: Bucket, rate: real, s: real, u: real)
    requires 0.0 <= rate && b.last <= s <= u
    ensures Available(b, rate, s) <= Available(b, rate, u) <= Available(b, rate, s) + (u - s) * rate
  {
    Distribute(b.last, s, u, rate);
    NonNegative(u - s, rate);
  }

  /** From s on, claims spend what is available at s and what arrives afterwards. */
  lemma {:induction false} SpentIsSupplied(b: Bucket, rate: real, claims: seq<real>, s: real, t: real)
    requires 0.0 <= rate && Admissible(b, rate, claims)
    requires b.last <= s <= t && (claims != [] ==> s <= claims[0]) && 0.0 <= Available(b, rate, s)
    ensures CountUpTo(claims, t) as real <= Available(b, rate, s) + (t - s) * rate
    decreases |claims|
  {
    NonNegative(t - s, rate);
    if claims == [] {
    } else {
      var u := claims[0];
      var b' := Spend(b, rate, u);
      if t < u {
        NoneBefore(b', rate, claims[1..], t);
      } else {
        Distribute(s, u, t, rate);
        Growth(b, rate, s, u);
        assert Available(b', rate, u) == b'.tokens;
        SpentIsSupplied(b', rate, claims[1..], u, t);
      }
    }
  }

  lemma WiderWindow(count: real, rate: real, s: real, from: real, t: real)
    requires s <= from <= t && 0.0 <= rate && count <= rate + (t - from) * rate
    ensures count <= rate + (t - s) * rate
  {
    Distribute(s, from, t, rate);
    NonNegative(from - s, rate);
  }

  lemma AvailableRange(b: Bucket, rate: real, t: real)
    requires 0.0 <= rate && Full(b, rate) && b.last <= t
    ensures 0.0 <= Available(b, rate, t) <= rate
  {
    NonNegative(t - b.last, rate);
  }

  lemma SpentFromFull(b: Bucket, rate: real, claims: seq<real>, from: real, t: real)
    requires 1.0 <= rate && Full(b, rate) && Admissible(b, rate, claims)
    requires b.last <= from <= t && (claims != [] ==> from <= claims[0])
    ensures CountUpTo(claims, t) as real <= rate + (t - from) * rate
  {
    AvailableRange(b, rate, from);
    SpentIsSupplied(b, rate, claims, from, t);
  }

  lemma LaterWindow(b: Bucket, rate: real, claims: seq<real>, s: real, from: real, t: real)
    requires 1.0 <= rate && Full(b, rate) && Admissible(b, rate, claims)
    requires s <= from <= t && b.last <= from && (claims != [] ==> from <= claims[0])
    ensures CountUpTo(claims, t) as real <= rate + (t - s) * rate
  {
    SpentFromFull(b, rate, claims, from, t);
    WiderWindow(CountUpTo(claims, t) as real, rate, s, from, t);
  }

  /** At most rate * (1 + (t - s)) claims in any window (s, t]. */
  lemma {:induction false} WindowBound(b: Bucket, rate: real, claims: seq<real>, s: real, t: real)
    requires 1.0 <= rate && Full(b, rate) && Admissible(b, rate, claims) && s <= t
    ensures CountIn(claims, s, t) as real <= rate + (t - s) * rate
    decreases |claims|
  {
    if claims != [] && claims[0] <= s {
      WindowBound(Spend(b, rate, claims[0]), rate, claims[1..], s, t);
    } else if t < b.last {
      WindowIsPart(claims, s, t);
      NoneBefore(b, rate, claims, t);
      NonNegative(t - s, rate);
    } else {
      WindowIsPart(claims, s, t);
      LaterWindow(b, rate, claims, s, if s < b.last then b.last else s, t);
    }
  }

  /** A bucket that starts empty has admitted at most rate * (t - created) claims. */
  lemma TotalBound(rate: real, created: real, claims: seq<real>, t: real)
    requires 1.0 <= rate && Admissible(Bucket(0.0, created), rate, claims) && created <= t
    ensures CountUpTo(claims, t) as real <= (t - created) * rate
  {
    SpentIsSupplied(Bucket(0.0, created), rate, claims, created, t);
  }

  /** Every window (s, t] holds at most rate * (1 + t - s) claims, and the bucket's whole
      life up to t at most rate * (t - created). */
  ghost predicate KeepsRate(claims: seq<real>, rate: real, created: real, s: real, t: real) {
    && CountIn(claims, s, t) as real <= rate + (t - s) * rate
    && (created <= t ==> CountUpTo(claims, t) as real <= (t - created) * rate)
  }

  lemma HistoryKeepsRate(claims: seq<real>, rate: real, created: real, s: real, t: real)
    requires 1.0 <= rate && Admissible(Bucket(0.0, created), rate, claims) && s <= t
    ensures KeepsRate(claims, rate, created, s, t)
  {
    WindowBound(Bucket(0.0, created), rate, claims, s, t);
    if created <= t { TotalBound(rate, created, claims, t); }
  }

  // ---- exactly which claims fit ----

  lemma {:induction false} AfterOneMore(b: Bucket, rate: real, claims: seq<real>, t: real)
    ensures AfterClaims(b, rate, claims + [t]) == Spend(AfterClaims(b, rate, claims), rate, t)
    decreases |claims|
  {
    if claims == [] {
      assert ([] + [t])[1..] == [];
    } else {
      assert (claims + [t])[1..] == claims[1..] + [t];
      AfterOneMore(Spend(b, rate, claims[0]), rate, claims[1..], t);
    }
  }

  lemma {:induction false} AdmissibleOneMore(b: Bucket, rate: real, claims: seq<real>, t: real)
    ensures Admissible(b, rate, claims + [t])
            <==> && Admissible(b, rate, claims) && AfterClaims(b, rate, claims).last <= t
                 && Admits(AfterClaims(b, rate, claims), rate, t)
    decreases |claims|
  {
    if claims == [] {
      assert ([] + [t])[1..] == [];
    } else {
      assert (claims + [t])[1..] == claims[1..] + [t];
      AdmissibleOneMore(Spend(b, rate, claims[0]), rate, claims[1..], t);
    }
  }

  // Below, time is measured in tokens, that is multiplied by the rate.

  function Scaled(claims: seq<real>, rate: real): seq<real> {
    seq(|claims|, i requires 0 <= i < |claims| => claims[i] * rate)
  }

  lemma ScaledOneMore(init: seq<real>, t: real, rate: real)
    ensures Scaled(init + [t], rate) == Scaled(init, rate) + [t * rate]
  {
    var claims := init + [t];
    forall i | 0 <= i < |claims| ensures Scaled(claims, rate)[i] == (Scaled(init, rate) + [t * rate])[i] {
      if i < |init| {
        assert claims[i] == init[i];
      } else {
        assert claims[i] == t;
      }
    }
  }

  lemma Expand(s: real, t: real, rate: real)
    ensures (t - s) * rate == t * rate - s * rate
  {
  }

  /** What is available at t after claims at these times. */
  function Level(rate: real, created: real, claims: seq<real>, t: real): real {
    if claims == [] then Min(rate, t - created)
    else
      var n := |claims| - 1;
      Min(rate, Level(rate, created, claims[..n], claims[n]) - 1.0 + (t - claims[n]))
  }

  lemma LevelOneMore(rate: real, created: real, init: seq<real>, u: real, t: real)
    ensures Level(rate, created, init + [u], t) == Min(rate, Level(rate, created, init, u) - 1.0 + (t - u))
  {
    assert (init + [u])[..|init|] == init;
  }

  lemma AvailableIs(tokens: real, last: real, rate: real, t: real)
    ensures Available(Bucket(tokens, last), rate, t) == Min(rate, tokens + (t * rate - last * rate))
  {
    Expand(last, t, rate);
  }

  ghost predicate IsLevel(created: real, rate: real, claims: seq<real>, t: real) {
    Available(AfterClaims(Bucket(0.0, created), rate, claims), rate, t)
    == Level(rate, created * rate, Scaled(claims, rate), t * rate)
  }

  lemma NewIsLevel(created: real, rate: real, t: real)
    ensures IsLevel(created, rate, [], t)
  {
    AvailableIs(0.0, created, rate, t);
  }

  lemma StaysLevel(created: real, rate: real, init: seq<real>, u: real, t: real)
    requires IsLevel(created, rate, init, u)
    ensures IsLevel(created, rate, init + [u], t)
  {
    var b := AfterClaims(Bucket(0.0, created), rate, init);
    AfterOneMore(Bucket(0.0, created), rate, init, u);
    AvailableIs(Available(b, rate, u) - 1.0, u, rate, t);
    ScaledOneMore(init, u, rate);
    LevelOneMore(rate, created * rate, Scaled(init, rate), u * rate, t * rate);
  }

  lemma {:induction false} AvailableIsLevel(created: real, rate: real, claims: seq<real>, t: real)
    ensures IsLevel(created, rate, claims, t)
    decreases |claims|
  {
    if claims == [] {
      NewIsLevel(created, rate, t);
    } else {
      var n := |claims| - 1;
      AvailableIsLevel(created, rate, claims[..n], claims[n]);
      StaysLevel(created, rate, claims[..n], claims[n], t);
      assert claims[..n] + [claims[n]] == claims;
    }
  }

  /** At time t at least x tokens are left after these claims: no more than the bucket holds,
      than all supply since its creation, and than a full bucket at each claim could leave. */
  ghost predicate Leaves(rate: real, created: real, claims: seq<real>, t: real, x: real) {
    && x <= rate
    && x + |claims| as real <= t - created
    && forall i :: 0 <= i < |claims| ==> x + (|claims| - i) as real <= rate + (t - claims[i])
  }

  lemma {:induction false} LevelLeaves(rate: real, created: real, claims: seq<real>, t: real, x: real)
    ensures Level(rate, created, claims, t) >= x <==> Leaves(rate, created, claims, t, x)
    decreases |claims|
  {
    if claims == [] {
    } else {
      var n := |claims| - 1;
      var init, u := claims[..n], claims[n];
      var y := x + 1.0 - (t - u);
      LevelLeaves(rate, created, init, u, y);
      assert forall i :: 0 <= i < n ==> init[i] == claims[i];
      assert Leaves(rate, created, claims, t, x) <==> x <= rate && Leaves(rate, created, init, u, y) by {
        if Leaves(rate, created, claims, t, x) { assert x + (n + 1 - n) as real <= rate + (t - claims[n]); }
      }
    }
  }

  /** Every stretch of the claims stays within a full bucket and what arrives meanwhile, and
      all up to each within what has arrived since the creation. */
  ghost predicate CountsFit(rate: real, created: real, claims: seq<real>) {
    && (forall i, j :: 0 <= i <= j < |claims| ==> (j - i + 1) as real <= rate + (claims[j] - claims[i]))
    && (forall j :: 0 <= j < |claims| ==> (j + 1) as real <= claims[j] - created)
  }

  lemma CountsFitOneMore(rate: real, created: real, init: seq<real>, t: real)
    ensures CountsFit(rate, created, init + [t])
            <==> CountsFit(rate, created, init) && Leaves(rate, created, init, t, 1.0)
  {
    var claims, n := init + [t], |init|;
    assert claims[n] == t && forall i :: 0 <= i < n ==> claims[i] == init[i];
    if CountsFit(rate, created, claims) {
      assert (n - n + 1) as real <= rate + (claims[n] - claims[n]);
      forall i, j | 0 <= i <= j < n ensures (j - i + 1) as real <= rate + (init[j] - init[i]) {
        assert (j - i + 1) as real <= rate + (claims[j] - claims[i]);
      }
      forall i | 0 <= i < n ensures 1.0 + (n - i) as real <= rate + (t - init[i]) {
        assert (n - i + 1) as real <= rate + (claims[n] - claims[i]);
      }
    }
  }

  ghost predicate InOrderFrom(created: real, claims: seq<real>) {
    && (forall i :: 0 <= i < |claims| ==> created <= claims[i])
    && (forall i, j :: 0 <= i < j < |claims| ==> claims[i] <= claims[j])
  }

  /** The claims come in order from the bucket's creation on, any j - i + 1 in a row within
      a full bucket and what arrives between the first and the last of them, and the first
      j + 1 within what has arrived since the creation. */
  ghost predicate Fits(created: real, rate: real, claims: seq<real>) {
    && InOrderFrom(created, claims)
    && (forall i, j :: 0 <= i <= j < |claims| ==> (j - i + 1) as real <= rate + (claims[j] - claims[i]) * rate)
    && (forall j :: 0 <= j < |claims| ==> (j + 1) as real <= (claims[j] - created) * rate)
  }

  lemma FitsInTokens(created: real, rate: real, claims: seq<real>)
    ensures Fits(created, rate, claims)
            <==> InOrderFrom(created, claims) && CountsFit(rate, created * rate, Scaled(claims, rate))
  {
    var ts := Scaled(claims, rate);
    forall i, j | 0 <= i <= j < |claims| ensures (claims[j] - claims[i]) * rate == ts[j] - ts[i] {
      Expand(claims[i], claims[j], rate);
    }
    forall j | 0 <= j < |claims| ensures (claims[j] - created) * rate == ts[j] - created * rate {
      Expand(created, claims[j], rate);
    }
  }

  lemma LastClaim(created: real, rate: real, claims: seq<real>)
    ensures AfterClaims(Bucket(0.0, created), rate, claims).last
            == if claims == [] then created else claims[|claims| - 1]
  {
    if claims != [] {
      var n := |claims| - 1;
      assert claims == claims[..n] + [claims[n]];
      AfterOneMore(Bucket(0.0, created), rate, claims[..n], claims[n]);
    }
  }

  lemma OrderOneMore(created: real, init: seq<real>, t: real)
    ensures InOrderFrom(created, init + [t])
            <==> InOrderFrom(created, init) && (if init == [] then created else init[|init| - 1]) <= t
  {
    var claims, n := init + [t], |init|;
    assert claims[n] == t && forall i :: 0 <= i < n ==> claims[i] == init[i];
  }

  /** One more claim is admitted exactly if the bucket has a token left by this count. */
  lemma AdmitsExactlyIfLeft(created: real, rate: real, claims: seq<real>, t: real)
    ensures Admits(AfterClaims(Bucket(0.0, created), rate, claims), rate, t)
            <==> Leaves(rate, created * rate, Scaled(claims, rate), t * rate, 1.0)
  {
    AvailableIsLevel(created, rate, claims, t);
    LevelLeaves(rate, created * rate, Scaled(claims, rate), t * rate, 1.0);
  }

  lemma {:induction false} AdmissibleInTokens(created: real, rate: real, claims: seq<real>)
    ensures Admissible(Bucket(0.0, created), rate, claims)
            <==> InOrderFrom(created, claims) && CountsFit(rate, created * rate, Scaled(claims, rate))
  {
    if claims == [] {
    } else {
      var n := |claims| - 1;
      var init, t := claims[..n], claims[n];
      assert claims == init + [t];
      ScaledOneMore(init, t, rate);
      AdmissibleInTokens(created, rate, init);
      AdmissibleOneMore(Bucket(0.0, created), rate, init, t);
      LastClaim(created, rate, init);
      OrderOneMore(created, init, t);
      AdmitsExactlyIfLeft(created, rate, init, t);
      CountsFitOneMore(rate, created * rate, Scaled(init, rate), t * rate);
    }
  }

  /** A new bucket admits exactly the claims that fit. */
  lemma AdmissibleExactlyIfFits(created: real, rate: real, claims: seq<real>)
    ensures Admissible(Bucket(0.0, created), rate, claims) <==> Fits(created, rate, claims)
  {
    AdmissibleInTokens(created, rate, claims);
    FitsInTokens(created, rate, claims);
  }
}
