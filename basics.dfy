/** Grid helpers shared by the three engine variants (sim, sim_v2, sim_v3 each
    define identical copies of these in Go; the model defines them once). */
module Basics {

  datatype Option<T> = None | Some(value: T)

  datatype Sex = Male | Female

  /** Some member of a non-empty set. The loops that walk a Go map in an unknown
      order take `var k :| k in rest`; naming one member first gives the verifier
      its witness. */
  ghost function Pick<T>(s: set<T>): (x: T)
    requires s != {}
    ensures x in s
  {
    var x :| x in s; x
  }

  /** Go's `clamp(v, lo, hi)` on ints: lo wins over hi when the bounds cross. */
  function Clamp(v: int, lo: int, hi: int): (r: int)
    ensures lo <= hi ==> lo <= r <= hi
    ensures lo <= v <= hi ==> r == v
    ensures v < lo ==> r == lo
    ensures lo <= v && v > hi ==> r == hi
  {
    if v < lo then lo else if v > hi then hi else v
  }

  /** Go's `clampF(v, lo, hi)` on float64, modelled on reals. */
  function ClampF(v: real, lo: real, hi: real): (r: real)
    ensures lo <= hi ==> lo <= r <= hi
    ensures lo <= v <= hi ==> r == v
    ensures v < lo ==> r == lo
    ensures lo <= v && v > hi ==> r == hi
  {
    if v < lo then lo else if v > hi then hi else v
  }

  function Abs(x: int): (r: int)
    ensures r >= 0
    ensures r == x || r == -x
  {
    if x < 0 then -x else x
  }

  function Max(a: int, b: int): (r: int)
    ensures r >= a && r >= b
    ensures r == a || r == b
  {
    if a > b then a else b
  }

  function Min(a: int, b: int): (r: int)
    ensures r <= a && r <= b
    ensures r == a || r == b
  {
    if a < b then a else b
  }

  /** `math.Abs`, `math.Max` and `math.Min` on float64, modelled on reals. */
  function RAbs(x: real): (r: real)
    ensures r >= 0.0
    ensures r == x || r == -x
  {
    if x < 0.0 then -x else x
  }

  function RMax(a: real, b: real): (r: real)
    ensures r >= a && r >= b
    ensures r == a || r == b
  {
    if a > b then a else b
  }

  function RMin(a: real, b: real): (r: real)
    ensures r <= a && r <= b
    ensures r == a || r == b
  {
    if a < b then a else b
  }

  /** Manhattan distance, the adjacency measure of combat, merging and mating. */
  function Manhattan(x1: int, y1: int, x2: int, y2: int): nat
  {
    Abs(x1 - x2) + Abs(y1 - y2)
  }

  predicate InBounds(x: int, y: int, w: int, h: int)
  {
    0 <= x < w && 0 <= y < h
  }

  /** Go's `%` truncates toward zero (the sign follows the dividend). */
  function GoRem(a: int, b: int): int
    requires b > 0
  {
    if a >= 0 then a % b else -((-a) % b)
  }

  /** Go's `/` truncates toward zero. */
  function GoQuo(a: int, b: int): int
    requires b > 0
  {
    if a >= 0 then a / b else -((-a) / b)
  }

  /** Action decoding of Tick: `dx := (act % 3) - 1`, `dy := (act / 3) - 1`. */
  function ActionDx(act: int): int
  {
    GoRem(act, 3) - 1
  }

  function ActionDy(act: int): int
  {
    GoQuo(act, 3) - 1
  }

  /** The action encoding `(dy+1)*3 + (dx+1)` that decoding inverts. */
  function EncodeAction(dx: int, dy: int): int
  {
    (dy + 1) * 3 + (dx + 1)
  }

  predicate IsAction(act: int)
  {
    0 <= act < 9
  }

  lemma DecodeEncode(act: int)
    requires IsAction(act)
    ensures -1 <= ActionDx(act) <= 1 && -1 <= ActionDy(act) <= 1
    ensures EncodeAction(ActionDx(act), ActionDy(act)) == act
  {
  }

  lemma EncodeDecode(dx: int, dy: int)
    requires -1 <= dx <= 1 && -1 <= dy <= 1
    ensures IsAction(EncodeAction(dx, dy))
    ensures ActionDx(EncodeAction(dx, dy)) == dx && ActionDy(EncodeAction(dx, dy)) == dy
  {
  }

  /** The position reached by taking `act` from (x, y), clamped to the grid. */
  function Step(x: int, y: int, act: int, w: int, h: int): (p: (int, int))
    requires w > 0 && h > 0
    ensures InBounds(p.0, p.1, w, h)
    ensures IsAction(act) && InBounds(x, y, w, h) ==> Abs(p.0 - x) <= 1 && Abs(p.1 - y) <= 1
    ensures IsAction(act) && InBounds(x + ActionDx(act), y + ActionDy(act), w, h) ==>
      p == (x + ActionDx(act), y + ActionDy(act))
  {
    (Clamp(x + ActionDx(act), 0, w - 1), Clamp(y + ActionDy(act), 0, h - 1))
  }

  /** Food registry key `x*H + y`. */
  function FoodKey(x: int, y: int, h: int): int
  {
    x * h + y
  }

  /** Within the grid the key determines the cell: it is a bijection onto [0, w*h). */
  lemma FoodKeyDecode(x: int, y: int, w: int, h: int)
    requires InBounds(x, y, w, h)
    ensures 0 <= FoodKey(x, y, h) < w * h
    ensures FoodKey(x, y, h) / h == x && FoodKey(x, y, h) % h == y
  {
    var k := FoodKey(x, y, h);
    assert k == x * h + y;
    assert 0 <= x * h by {
      assert x >= 0 && h > 0;
    }
    assert x * h + y < (x + 1) * h;
    assert (x + 1) * h <= w * h by {
      assert x + 1 <= w;
    }
    DivModUnique(k, h, x, y);
  }

  lemma DivModUnique(k: int, h: int, q: int, r: int)
    requires h > 0 && 0 <= r < h && k == q * h + r
    ensures k / h == q && k % h == r
  {
    var q', r' := k / h, k % h;
    var d := q - q';
    assert d * h == r' - r by {
      assert q * h - q' * h == (q - q') * h;
    }
    if d >= 1 {
      MulAtLeast(d, h);
    } else if d <= -1 {
      assert (-d) * h == -(d * h);
      MulAtLeast(-d, h);
    }
  }

  lemma MulAtLeast(d: int, h: int)
    requires d >= 1 && h > 0
    ensures d * h >= h
  {
    assert d * h == h + (d - 1) * h;
    assert (d - 1) * h >= 0;
  }

  lemma FoodKeyInjective(x1: int, y1: int, x2: int, y2: int, w: int, h: int)
    requires InBounds(x1, y1, w, h) && InBounds(x2, y2, w, h)
    requires FoodKey(x1, y1, h) == FoodKey(x2, y2, h)
    ensures x1 == x2 && y1 == y2
  {
    FoodKeyDecode(x1, y1, w, h);
    FoodKeyDecode(x2, y2, w, h);
  }

  /** Reading a Go `map[string]int` counter: a missing key reads as 0. */
  function Count(m: map<string, int>, k: string): int
  {
    if k in m then m[k] else 0
  }

  /** `m[k]++` on a Go counter map. */
  function Inc(m: map<string, int>, k: string): (r: map<string, int>)
    ensures r.Keys == m.Keys + {k}
    ensures Count(r, k) == Count(m, k) + 1
    ensures forall j :: j in m && j != k ==> r[j] == m[j]
  {
    m[k := Count(m, k) + 1]
  }

  /** The experience counters after the merge loop `a[k] += v` over the other
      agent's counters. */
  function SumCounts(ea: map<string, int>, eb: map<string, int>): map<string, int>
  {
    map k | k in ea.Keys + eb.Keys :: Count(ea, k) + Count(eb, k)
  }

  /** Summing loses no counter and reads, key by key, as the sum of both counters. */
  lemma SumCountsEntries(ea: map<string, int>, eb: map<string, int>, k: string)
    ensures SumCounts(ea, eb).Keys == ea.Keys + eb.Keys
    ensures Count(SumCounts(ea, eb), k) == Count(ea, k) + Count(eb, k)
  {
  }

  /** The merge loop itself. */
  method AddCounts(ea: map<string, int>, eb: map<string, int>) returns (r: map<string, int>)
    ensures r == SumCounts(ea, eb)
  {
    r := ea;
    var rest := eb.Keys;
    while rest != {}
      invariant rest <= eb.Keys
      invariant r.Keys == ea.Keys + (eb.Keys - rest)
      invariant forall k :: k in r ==> r[k] == Count(ea, k) + (if k in eb && k !in rest then eb[k] else 0)
      decreases rest
    {
      ghost var some := Pick(rest);  // the witness the `:|` below needs (see Basics.Pick)
      var k :| k in rest;
      r := r[k := Count(r, k) + eb[k]];
      rest := rest - {k};
    }
    assert r.Keys == ea.Keys + eb.Keys;
    assert forall k :: k in r ==> r[k] == SumCounts(ea, eb)[k];
  }

  lemma MapAddCard<K, V>(m: map<K, V>, k: K, v: V)
    requires k !in m
    ensures |m[k := v]| == |m| + 1
  {
    assert m[k := v].Keys == m.Keys + {k};
  }

  lemma MapRemoveCard<K, V>(m: map<K, V>, k: K)
    requires k in m
    ensures |m - {k}| == |m| - 1
  {
    assert (m - {k}).Keys == m.Keys - {k};
  }
}
