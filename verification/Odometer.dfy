/** The address generator of the stress test: an odometer over the bytes of an address. */
module Odometer {

  type Byte = b: int | 0 <= b < 256

  /** Addition as an unsigned byte does it. */
  function Plus1(b: Byte): Byte {
    (b + 1) % 256
  }

  /** One tick of a row of wheels, the last one fastest.  A wheel runs from 1 to 254. */
  function Tick(ds: seq<Byte>): (r: seq<Byte>)
    ensures |r| == |ds|
  {
    if ds == [] then [] else
    var init, last := ds[..|ds| - 1], ds[|ds| - 1];
    if Plus1(last) == 255 then Tick(init) + [1] else init + [Plus1(last)]
  }

  /** The next address: the first byte never moves. */
  function Next(g: seq<Byte>): (r: seq<Byte>)
    requires g != []
    ensures |r| == |g|
  {
    [g[0]] + Tick(g[1..])
  }

  /** Wheels that have ticked from the last one down to, but not including, wheel e. */
  ghost predicate Carried(was: seq<Byte>, now: seq<Byte>, e: nat) {
    && |now| == |was| && e < |was|
    && now[..e + 1] == was[..e + 1]
    && forall i :: e < i < |was| ==> was[i] == 254 && now[i] == 1
  }

  lemma {:induction false} TickStops(was: seq<Byte>, now: seq<Byte>, e: nat)
    requires 0 < e && Carried(was, now, e) && was[e] != 254
    ensures now[e := Plus1(was[e])] == Next(was)
    decreases |was| - e
  {
    var n := |was|;
    if e == n - 1 {
      assert was[1..][..n - 2] == was[1..n - 1];
      assert now[e := Plus1(was[e])] == [was[0]] + (was[1..n - 1] + [Plus1(was[e])]);
    } else {
      TickStops(was[..n - 1], now[..n - 1], e);
      TickCarries(was);
      assert now[e := Plus1(was[e])] == now[..n - 1][e := Plus1(was[e])] + [1];
    }
  }

  lemma TickCarries(g: seq<Byte>)
    requires |g| > 1 && g[|g| - 1] == 254
    ensures Next(g) == Next(g[..|g| - 1]) + [1]
  {
    assert g[1..][..|g| - 2] == g[..|g| - 1][1..];
  }

  lemma {:induction false} TickWraps(was: seq<Byte>, now: seq<Byte>)
    requires Carried(was, now, 0)
    ensures now == Next(was)
    decreases |was|
  {
    var n := |was|;
    if n == 1 {
      assert was[1..] == [];
    } else {
      TickWraps(was[..n - 1], now[..n - 1]);
      TickCarries(was);
      assert now == now[..n - 1] + [1];
    }
  }

  /** The loop over the bytes of the generated address, in place. */
  method Advance(a: array<Byte>)
    requires a.Length > 0
    modifies a
    ensures a[..] == Next(old(a[..]))
  {
    ghost var was := a[..];
    var e := a.Length - 1;
    while e > 0
      invariant 0 <= e < a.Length && Carried(was, a[..], e)
    {
      if Plus1(a[e]) == 255 {
        a[e] := 1;
        e := e - 1;
      } else {
        TickStops(was, a[..], e);
        a[e] := Plus1(a[e]);
        return;
      }
    }
    TickWraps(was, a[..]);
  }

  function Iterate(g: seq<Byte>, i: nat): (r: seq<Byte>)
    requires g != []
    ensures |r| == |g|
  {
    if i == 0 then g else Next(Iterate(g, i - 1))
  }

  // What the wheels count ----------------------------------------------------------------------

  /** What a wheel shows: 1 to 254 are its digits; 255 and 0 are two steps and one step short of them. */
  function Shown(d: Byte): int {
    if d == 255 then -2 else d - 1
  }

  function Pow254(n: nat): nat {
    if n == 0 then 1 else 254 * Pow254(n - 1)
  }

  function Reading(ds: seq<Byte>): int {
    if ds == [] then 0 else 254 * Reading(ds[..|ds| - 1]) + Shown(ds[|ds| - 1])
  }

  predicate AtEnd(ds: seq<Byte>) {
    forall i :: 0 <= i < |ds| ==> ds[i] == 254
  }

  lemma ReadingSnoc(init: seq<Byte>, d: Byte)
    ensures Reading(init + [d]) == 254 * Reading(init) + Shown(d)
  {
    assert (init + [d])[..|init|] == init;
  }

  lemma ShownNext(d: Byte)
    ensures d != 254 ==> Shown(Plus1(d)) == Shown(d) + 1
    ensures Shown(1) == 0 && Shown(254) == 253
  {}

  lemma TickSnoc(init: seq<Byte>, d: Byte)
    ensures Tick(init + [d]) == if d == 254 then Tick(init) + [1] else init + [Plus1(d)]
  {
    assert (init + [d])[..|init|] == init;
  }

  lemma AtEndSnoc(init: seq<Byte>, d: Byte)
    ensures AtEnd(init + [d]) <==> AtEnd(init) && d == 254
  {
    assert (init + [d])[|init|] == d;
    assert forall i :: 0 <= i < |init| ==> (init + [d])[i] == init[i];
  }

  /** A tick adds one to the reading, modulo the number of positions. */
  lemma {:induction false} TickCounts(ds: seq<Byte>)
    ensures Reading(Tick(ds)) == Reading(ds) + 1 - (if AtEnd(ds) then Pow254(|ds|) else 0)
  {
    if ds != [] {
      var init, last := ds[..|ds| - 1], ds[|ds| - 1];
      assert ds == init + [last] && Pow254(|ds|) == 254 * Pow254(|init|);
      hide Reading, Tick, AtEnd, Pow254, Shown, Plus1;
      ShownNext(last);
      TickCounts(init);
      TickSnoc(init, last);
      ReadingSnoc(init, last);
      AtEndSnoc(init, last);
      ReadingSnoc(Tick(init), 1);
      ReadingSnoc(init, Plus1(last));
    }
  }

  lemma {:induction false} Pow254Positive(n: nat)
    ensures Pow254(n) > 0
  {
    if n > 0 {
      Pow254Positive(n - 1);
    }
  }

  /** After i ticks the reading has grown by i, less some full turns. */
  lemma {:induction false} IterateCounts(g: seq<Byte>, i: nat) returns (turns: nat)
    requires g != []
    ensures Reading(Iterate(g, i)[1..]) == Reading(g[1..]) + i - turns * Pow254(|g| - 1)
  {
    hide Reading, Pow254, Tick;
    turns := 0;
    if i > 0 {
      var m := Pow254(|g| - 1);
      var before := IterateCounts(g, i - 1);
      var was := Iterate(g, i - 1)[1..];
      TickCounts(was);
      assert Iterate(g, i)[1..] == Tick(was);
      turns := if AtEnd(was) then before + 1 else before;
      OneMore(before, m);
    }
  }

  lemma OneMore(k: int, m: int)
    ensures (k + 1) * m == k * m + m
  {}

  /** Any start, whatever its bytes: addresses fewer than 254^(n-1) ticks apart differ. */
  lemma Distinct(g: seq<Byte>, i: nat, j: nat)
    requires g != [] && i < j < i + Pow254(|g| - 1)
    ensures Iterate(g, i) != Iterate(g, j)
  {
    Pow254Positive(|g| - 1);
    if Iterate(g, i) == Iterate(g, j) {
      var s := IterateCounts(g, i);
      var t := IterateCounts(g, j);
      TurnsApart(j - i, s, t, Pow254(|g| - 1));
    }
  }

  /** Nonzero multiples of m are at least m away from zero. */
  lemma Away(k: int, m: int)
    requires m > 0
    ensures k > 0 ==> k * m >= m
    ensures k < 0 ==> k * m <= -m
    ensures k == 0 ==> k * m == 0
  {
    if k > 0 {
      assert (k - 1) * m >= 0;
    } else if k < 0 {
      assert (-1 - k) * m >= 0;
    }
  }

  lemma TurnsApart(d: int, s: int, t: int, m: int)
    requires m > 0 && d == t * m - s * m
    ensures d <= -m || d == 0 || m <= d
  {
    assert d == (t - s) * m;
    Away(t - s, m);
  }

  predicate Turning(ds: seq<Byte>) {
    forall i :: 0 <= i < |ds| ==> 1 <= ds[i] <= 254
  }

  lemma {:induction false} TickTurns(ds: seq<Byte>, i: nat)
    requires i < |ds|
    ensures 1 <= ds[i] <= 254 ==> 1 <= Tick(ds)[i] <= 254
    ensures ds[i] <= 254 && Tick(ds)[i] == 0 ==> ds[i] == 0
  {
    var init := ds[..|ds| - 1];
    if i < |ds| - 1 && ds[|ds| - 1] == 254 {
      TickTurns(init, i);
    }
  }

  /** The first byte stays; a wheel that shows a digit always will, so zero never comes back. */
  lemma {:induction false} WheelsStay(g: seq<Byte>, i: nat, j: nat, e: nat)
    requires g != [] && i <= j && e < |g|
    ensures Iterate(g, j)[0] == g[0]
    ensures 1 <= Iterate(g, i)[e] <= 254 ==> 1 <= Iterate(g, j)[e] <= 254
    decreases j
  {
    if i < j {
      WheelsStay(g, i, j - 1, e);
      if e > 0 {
        TickTurns(Iterate(g, j - 1)[1..], e - 1);
      }
    } else if j > 0 {
      WheelsStay(g, j - 1, j - 1, e);
    }
  }

  lemma DigitsSplit(x: int, y: int, c: int, d: int)
    requires 254 * x + c == 254 * y + d && 0 <= c < 254 && 0 <= d < 254
    ensures x == y && c == d
  {}

  /** For wheels that all show digits, the reading says what they show. */
  lemma {:induction false} ReadingInjective(ds: seq<Byte>, es: seq<Byte>)
    requires |ds| == |es| && Turning(ds) && Turning(es) && Reading(ds) == Reading(es)
    ensures ds == es
  {
    if ds != [] {
      var n := |ds| - 1;
      DigitsSplit(Reading(ds[..n]), Reading(es[..n]), Shown(ds[n]), Shown(es[n]));
      ReadingInjective(ds[..n], es[..n]);
      assert ds == ds[..n] + [ds[n]] && es == es[..n] + [es[n]];
    }
  }

  lemma {:induction false} ReadingBounded(ds: seq<Byte>)
    requires Turning(ds)
    ensures 0 <= Reading(ds) < Pow254(|ds|)
  {
    if ds != [] {
      ReadingBounded(ds[..|ds| - 1]);
    }
  }

  lemma IterateTurns(g: seq<Byte>, i: nat)
    requires g != [] && Turning(g[1..])
    ensures Turning(Iterate(g, i)[1..]) && Iterate(g, i) == [g[0]] + Iterate(g, i)[1..]
  {
    WheelsStay(g, 0, i, 0);
    forall e | 0 < e < |g| ensures 1 <= Iterate(g, i)[e] <= 254 {
      assert g[e] == g[1..][e - 1];
      WheelsStay(g, 0, i, e);
    }
  }

  lemma WholeTurns(d: int, k: int, q: int, r: int, m: int)
    requires m > 0 && d == k * m && d == q * m + r && 0 <= r < m
    ensures r == 0
  {
    TurnsApart(r, q, k, m);
  }

  lemma DivMod(d: nat, m: nat)
    requires m > 0
    ensures d == d / m * m + d % m && 0 <= d % m < m
  {}

  /** From a start that shows digits only, addresses coincide exactly when whole turns lie between them. */
  lemma CoincideExactly(g: seq<Byte>, i: nat, j: nat)
    requires g != [] && Turning(g[1..]) && i <= j
    ensures Pow254(|g| - 1) > 0
    ensures Iterate(g, i) == Iterate(g, j) <==> (j - i) % Pow254(|g| - 1) == 0
  {
    hide Iterate, Reading, Turning, Pow254;
    var m := Pow254(|g| - 1);
    Pow254Positive(|g| - 1);
    IterateTurns(g, i);
    IterateTurns(g, j);
    var s := IterateCounts(g, i);
    var t := IterateCounts(g, j);
    var ds, es := Iterate(g, i)[1..], Iterate(g, j)[1..];
    ReadingBounded(ds);
    ReadingBounded(es);
    TurnsDecide(j - i, Reading(es) - Reading(ds), s, t, m);
    if Reading(ds) == Reading(es) {
      ReadingInjective(ds, es);
    }
  }

  /** Two readings less than a turn apart are equal exactly when the ticks between them are whole turns. */
  lemma TurnsDecide(d: nat, diff: int, s: int, t: int, m: nat)
    requires m > 0 && -1 * m < diff < m && diff == d - (t * m - s * m)
    ensures diff == 0 <==> d % m == 0
  {
    DivMod(d, m);
    var q, r := d / m, d % m;
    if diff == 0 {
      assert d == (t - s) * m;
      WholeTurns(d, t - s, q, r, m);
    }
    if r == 0 {
      assert diff == (q + s) * m - t * m;
      TurnsApart(diff, t, q + s, m);
    }
  }
}
