/** Tabular Q-learning: a table maps a discretised state to a row, and a row
    maps an action to its value. Both are Go maps (`map[StateKey]map[int]float64`),
    so a missing row or a missing action is read as empty or 0. The row and
    table algebra used by merging, inheriting and sharing tables lives here,
    generic in the state key, because sim_v2 and sim_v3 use different keys. */
module QTables {
  import opened Basics

  type Row = map<int, real>

  /** `row[a]` in Go: a missing action reads as 0. */
  function Get(row: Row, a: int): real
  {
    if a in row then row[a] else 0.0
  }

  /** `q[s]` in Go: a missing state reads as the empty row. */
  function RowOf<K(==)>(q: map<K, Row>, s: K): Row
  {
    if s in q then q[s] else map[]
  }

  /** `v` is the largest value of `row`, or 0 when every value is below 0 (the
      accumulator of both update rules starts at 0). */
  ghost predicate IsMaxOr0(row: Row, v: real)
  {
    && v >= 0.0
    && (forall k :: k in row ==> row[k] <= v)
    && (v == 0.0 || exists k :: k in row && row[k] == v)
  }

  ghost function MaxOr0(row: Row): (v: real)
    ensures IsMaxOr0(row, v)
    decreases |row|
  {
    if row.Keys == {} then 0.0
    else
      var k := Pick(row.Keys);
      var rest := row - {k};
      var m := MaxOr0(rest);
      assert forall j :: j in row && j != k ==> j in rest && row[j] == rest[j];
      assert m != 0.0 ==> exists j :: j in rest && rest[j] == m;
      RMax(row[k], m)
  }

  lemma MaxOr0Unique(row: Row, v: real)
    requires IsMaxOr0(row, v)
    ensures v == MaxOr0(row)
  {
    var w := MaxOr0(row);
  }

  /** The `maxNextQ` loop of both update rules: start at 0, keep any larger value. */
  method MaxValueOrZero(row: Row) returns (m: real)
    ensures m == MaxOr0(row)
  {
    m := 0.0;
    var rest := row.Keys;
    while rest != {}
      invariant rest <= row.Keys
      invariant m >= 0.0
      invariant forall k :: k in row && k !in rest ==> row[k] <= m
      invariant m == 0.0 || exists k :: k in row && k !in rest && row[k] == m
      decreases rest
    {
      ghost var some := Pick(rest);  // the witness the `:|` below needs (see Basics.Pick)
      var k :| k in rest;
      if row[k] > m {
        m := row[k];
      }
      rest := rest - {k};
    }
    MaxOr0Unique(row, m);
  }

  /** What a greedy scan started at (start, startValue) may return: the start,
      when nothing beats its value, or an action holding the largest value,
      which then beats the start value. */
  ghost predicate GreedyFrom(row: Row, start: int, startValue: real, best: int)
  {
    || (best == start && forall k :: k in row ==> row[k] <= startValue)
    || (best in row && row[best] > startValue && forall k :: k in row ==> row[k] <= row[best])
  }

  /** Starting from an action's own value, the action returned holds a value
      at least as large as every other, and is a stored action whenever the
      start is one. */
  lemma GreedyIsArgMax(row: Row, start: int, best: int)
    requires GreedyFrom(row, start, Get(row, start), best)
    ensures forall k :: k in row ==> row[k] <= Get(row, best)
    ensures start in row ==> best in row
  {
  }

  /** Starting below every stored value, a non-empty row yields a stored
      action holding the largest value. */
  lemma GreedyBelowAll(row: Row, start: int, startValue: real, best: int)
    requires GreedyFrom(row, start, startValue, best)
    requires forall k :: k in row ==> row[k] > startValue
    requires row != map[]
    ensures best in row && forall k :: k in row ==> row[k] <= row[best]
  {
    var k := Pick(row.Keys);
  }

  /** The greedy loop of `chooseAction`: start from (start, startValue) and move to
      any action whose value is strictly larger. Map order decides between equal
      maxima, so any maximal action may come out. */
  method ArgMaxFrom(row: Row, start: int, startValue: real) returns (best: int)
    ensures GreedyFrom(row, start, startValue, best)
  {
    best := start;
    var bestValue := startValue;
    var rest := row.Keys;
    while rest != {}
      invariant rest <= row.Keys
      invariant (best == start && bestValue == startValue) || (best in row && bestValue == row[best] && bestValue > startValue)
      invariant forall k :: k in row && k !in rest ==> row[k] <= bestValue
      decreases rest
    {
      ghost var some := Pick(rest);  // the witness the `:|` below needs (see Basics.Pick)
      var k :| k in rest;
      if row[k] > bestValue {
        bestValue := row[k];
        best := k;
      }
      rest := rest - {k};
    }
  }

  /** A zero entry for a new action leaves the maximum unchanged, since the
      maximum never drops below 0. */
  lemma MaxOr0WithZero(row: Row, a: int)
    requires a !in row
    ensures MaxOr0(row[a := 0.0]) == MaxOr0(row)
  {
    var m := MaxOr0(row);
    var r := row[a := 0.0];
    assert forall k :: k in r ==> r[k] <= m;
    if m != 0.0 {
      var k :| k in row && row[k] == m;
      assert k in r && r[k] == m;
    }
    MaxOr0Unique(r, m);
  }

  // ---------------------------------------------------------------------------
  // The one-entry update rules.

  /** sim_v2's temporal-difference step `old + alpha*(reward + gamma*maxNext - old)`. */
  function TDUpdate(q: real, alpha: real, gamma: real, reward: real, maxNext: real): real
  {
    q + alpha * (reward + gamma * maxNext - q)
  }

  /** sim_v3's form of the same step, `q*(1 - alpha) + alpha*(reward + gamma*maxNext)`. */
  function BlendUpdate(q: real, alpha: real, gamma: real, reward: real, maxNext: real): real
  {
    q * (1.0 - alpha) + alpha * (reward + gamma * maxNext)
  }

  /** The two variants compute the same value. */
  lemma UpdatesAgree(q: real, alpha: real, gamma: real, reward: real, maxNext: real)
    ensures TDUpdate(q, alpha, gamma, reward, maxNext) == BlendUpdate(q, alpha, gamma, reward, maxNext)
  {
    assert q * (1.0 - alpha) == q - alpha * q;
  }

  /** With a learning rate in [0, 1] the new value lies between the old value
      and the target `reward + gamma*maxNext`; rate 0 keeps the old value and
      rate 1 takes the target. */
  lemma UpdateMovesTowardTarget(q: real, alpha: real, gamma: real, reward: real, maxNext: real)
    requires 0.0 <= alpha <= 1.0
    ensures var t, n := reward + gamma * maxNext, TDUpdate(q, alpha, gamma, reward, maxNext);
      && (q <= t ==> q <= n <= t)
      && (t <= q ==> t <= n <= q)
      && (alpha == 0.0 ==> n == q)
      && (alpha == 1.0 ==> n == t)
  {
    var t := reward + gamma * maxNext;
    var d := t - q;
    assert TDUpdate(q, alpha, gamma, reward, maxNext) == q + alpha * d;
    if d >= 0.0 {
      assert 0.0 <= alpha * d <= d by {
        assert d - alpha * d == (1.0 - alpha) * d;
      }
    } else {
      assert d <= alpha * d <= 0.0 by {
        assert alpha * d - d == (1.0 - alpha) * (-d);
      }
    }
  }

  // ---------------------------------------------------------------------------
  // Merging (sim_v2 tryMerge): the survivor's row absorbs the other's row.

  /** The survivor's row after the merge loop: actions only in `rb` are copied,
      actions in both are blended with the energy weights, actions only in `ra`
      are kept. */
  function MergeRow(ra: Row, rb: Row, wa: real, wb: real): Row
  {
    map k | k in ra.Keys + rb.Keys ::
      if k in rb then (if k in ra then ra[k] * wa + rb[k] * wb else rb[k]) else ra[k]
  }

  /** The survivor's table after the merge loop over the other's states. */
  function MergeTables<K(==)>(qa: map<K, Row>, qb: map<K, Row>, wa: real, wb: real): map<K, Row>
  {
    map s | s in qa.Keys + qb.Keys ::
      if s in qb then MergeRow(RowOf(qa, s), qb[s], wa, wb) else qa[s]
  }

  /** The key and value algebra of a merge, entry by entry. */
  lemma MergeTablesEntries<K>(qa: map<K, Row>, qb: map<K, Row>, wa: real, wb: real, s: K, k: int)
    ensures var m := MergeTables(qa, qb, wa, wb);
      && m.Keys == qa.Keys + qb.Keys
      && (s in m ==> (k in m[s] <==> (s in qa && k in qa[s]) || (s in qb && k in qb[s])))
      && (s in qa && k in qa[s] && s in qb && k in qb[s] ==> m[s][k] == qa[s][k] * wa + qb[s][k] * wb)
      && (s in qb && k in qb[s] && !(s in qa && k in qa[s]) ==> m[s][k] == qb[s][k])
      && (s in qa && k in qa[s] && !(s in qb && k in qb[s]) ==> m[s][k] == qa[s][k])
  {
  }

  /** The inner loop of the merge, over the other agent's actions of one state. */
  method MergeRowFrom(ra: Row, rb: Row, wa: real, wb: real) returns (r: Row)
    ensures r == MergeRow(ra, rb, wa, wb)
  {
    r := ra;
    var rest := rb.Keys;
    while rest != {}
      invariant rest <= rb.Keys
      invariant r.Keys == ra.Keys + (rb.Keys - rest)
      invariant forall k :: k in r ==>
        r[k] == (if k in rb && k !in rest then (if k in ra then ra[k] * wa + rb[k] * wb else rb[k]) else ra[k])
      decreases rest
    {
      ghost var some := Pick(rest);  // the witness the `:|` below needs (see Basics.Pick)
      var k :| k in rest;
      if k in r {
        r := r[k := r[k] * wa + rb[k] * wb];
      } else {
        r := r[k := rb[k]];
      }
      rest := rest - {k};
    }
    assert r.Keys == ra.Keys + rb.Keys;
    assert forall k :: k in r ==> r[k] == MergeRow(ra, rb, wa, wb)[k];
  }

  /** The outer loop of the merge, over the other agent's states. A state the
      survivor lacks starts from an empty row, which the row loop then fills with
      plain copies. */
  method MergeTablesFrom<K(==)>(qa: map<K, Row>, qb: map<K, Row>, wa: real, wb: real) returns (q: map<K, Row>)
    ensures q == MergeTables(qa, qb, wa, wb)
  {
    q := qa;
    var rest := qb.Keys;
    while rest != {}
      invariant rest <= qb.Keys
      invariant q.Keys == qa.Keys + (qb.Keys - rest)
      invariant forall s :: s in q ==>
        q[s] == (if s in qb && s !in rest then MergeRow(RowOf(qa, s), qb[s], wa, wb) else qa[s])
      decreases rest
    {
      ghost var some := Pick(rest);  // the witness the `:|` below needs (see Basics.Pick)
      var s :| s in rest;
      var row := MergeRowFrom(RowOf(q, s), qb[s], wa, wb);
      q := q[s := row];
      rest := rest - {s};
    }
    MergedTable(qa, qb, wa, wb, q);
  }

  /** A table that agrees with MergeTables key by key is MergeTables. */
  lemma MergedTable<K>(qa: map<K, Row>, qb: map<K, Row>, wa: real, wb: real, q: map<K, Row>)
    requires q.Keys == qa.Keys + qb.Keys
    requires forall s :: s in q ==> q[s] == (if s in qb then MergeRow(RowOf(qa, s), qb[s], wa, wb) else qa[s])
    ensures q == MergeTables(qa, qb, wa, wb)
  {
    forall s | s in q ensures q[s] == MergeTables(qa, qb, wa, wb)[s] {
    }
  }

  // ---------------------------------------------------------------------------
  // Inheriting (sim_v2 tryReproduce): the child's table.

  /** The child's row for a state of the first parent: that parent's actions, each
      the mean of both parents' values (a missing one reads as 0) plus noise. */
  function BlendRow<K(==)>(ra: Row, rb: Row, s: K, noise: (K, int) -> real): Row
  {
    map k | k in ra :: (ra[k] + Get(rb, k)) / 2.0 + noise(s, k)
  }

  /** The child's row for a state only the second parent knows: its values plus noise. */
  function NoisyRow<K(==)>(rb: Row, s: K, noise: (K, int) -> real): Row
  {
    map k | k in rb :: rb[k] + noise(s, k)
  }

  function ChildTable<K(==)>(qa: map<K, Row>, qb: map<K, Row>, noise: (K, int) -> real): map<K, Row>
  {
    map s | s in qa.Keys + qb.Keys ::
      if s in qa then BlendRow(qa[s], RowOf(qb, s), s, noise) else NoisyRow(qb[s], s, noise)
  }

  /** The child knows every state of both parents; for a state of the first parent
      it has exactly that parent's actions, otherwise all of the second parent's. */
  lemma ChildTableKeys<K>(qa: map<K, Row>, qb: map<K, Row>, noise: (K, int) -> real, s: K)
    ensures var c := ChildTable(qa, qb, noise);
      && c.Keys == qa.Keys + qb.Keys
      && (s in qa ==> c[s].Keys == qa[s].Keys)
      && (s !in qa && s in qb ==> c[s].Keys == qb[s].Keys)
  {
  }

  /** Without noise a value shared by both parents is their mean, so it lies between them. */
  lemma ChildValueBetween<K>(qa: map<K, Row>, qb: map<K, Row>, s: K, k: int)
    requires s in qa && k in qa[s] && s in qb && k in qb[s]
    ensures var c := ChildTable(qa, qb, (_: K, _: int) => 0.0);
      && (qa[s][k] <= qb[s][k] ==> qa[s][k] <= c[s][k] <= qb[s][k])
      && (qb[s][k] <= qa[s][k] ==> qb[s][k] <= c[s][k] <= qa[s][k])
  {
    var c := ChildTable(qa, qb, (_: K, _: int) => 0.0);
    assert c[s] == BlendRow(qa[s], qb[s], s, (_: K, _: int) => 0.0);
    assert c[s][k] == (qa[s][k] + qb[s][k]) / 2.0;
  }

  /** The loop that fills one row of the child from the first parent. */
  method BlendRowFrom<K(==)>(ra: Row, rb: Row, s: K, noise: (K, int) -> real) returns (r: Row)
    ensures r == BlendRow(ra, rb, s, noise)
  {
    r := map[];
    var rest := ra.Keys;
    while rest != {}
      invariant rest <= ra.Keys
      invariant r.Keys == ra.Keys - rest
      invariant forall k :: k in r ==> r[k] == (ra[k] + Get(rb, k)) / 2.0 + noise(s, k)
      decreases rest
    {
      ghost var some := Pick(rest);  // the witness the `:|` below needs (see Basics.Pick)
      var k :| k in rest;
      r := r[k := (ra[k] + Get(rb, k)) / 2.0 + noise(s, k)];
      rest := rest - {k};
    }
  }

  /** The loop that copies one row of the second parent into the child. */
  method NoisyRowFrom<K(==)>(rb: Row, s: K, noise: (K, int) -> real) returns (r: Row)
    ensures r == NoisyRow(rb, s, noise)
  {
    r := map[];
    var rest := rb.Keys;
    while rest != {}
      invariant rest <= rb.Keys
      invariant r.Keys == rb.Keys - rest
      invariant forall k :: k in r ==> r[k] == rb[k] + noise(s, k)
      decreases rest
    {
      ghost var some := Pick(rest);  // the witness the `:|` below needs (see Basics.Pick)
      var k :| k in rest;
      r := r[k := rb[k] + noise(s, k)];
      rest := rest - {k};
    }
    assert r.Keys == rb.Keys;
    assert forall k :: k in r ==> r[k] == NoisyRow(rb, s, noise)[k];
  }

  /** The two loops that build the child's table: every state of the first
      parent, then every state of the second parent the child still lacks. */
  method ChildTableFrom<K(==)>(qa: map<K, Row>, qb: map<K, Row>, noise: (K, int) -> real) returns (q: map<K, Row>)
    ensures q == ChildTable(qa, qb, noise)
  {
    q := map[];
    var rest := qa.Keys;
    while rest != {}
      invariant rest <= qa.Keys
      invariant q.Keys == qa.Keys - rest
      invariant forall s :: s in q ==> q[s] == BlendRow(qa[s], RowOf(qb, s), s, noise)
      decreases rest
    {
      ghost var some := Pick(rest);  // the witness the `:|` below needs (see Basics.Pick)
      var s :| s in rest;
      var row := BlendRowFrom(qa[s], RowOf(qb, s), s, noise);
      q := q[s := row];
      rest := rest - {s};
    }
    rest := qb.Keys;
    while rest != {}
      invariant rest <= qb.Keys
      invariant q.Keys == qa.Keys + (qb.Keys - rest)
      invariant forall s :: s in q ==>
        q[s] == (if s in qa then BlendRow(qa[s], RowOf(qb, s), s, noise) else NoisyRow(qb[s], s, noise))
      decreases rest
    {
      ghost var some := Pick(rest);  // the witness the `:|` below needs (see Basics.Pick)
      var s :| s in rest;
      if s !in q {
        var row := NoisyRowFrom(qb[s], s, noise);
        q := q[s := row];
      }
      rest := rest - {s};
    }
    ChildTableIs(qa, qb, noise, q);
  }

  /** A table that agrees with ChildTable key by key is ChildTable. */
  lemma ChildTableIs<K>(qa: map<K, Row>, qb: map<K, Row>, noise: (K, int) -> real, q: map<K, Row>)
    requires q.Keys == qa.Keys + qb.Keys
    requires forall s :: s in q ==>
      q[s] == (if s in qa then BlendRow(qa[s], RowOf(qb, s), s, noise) else NoisyRow(qb[s], s, noise))
    ensures q == ChildTable(qa, qb, noise)
  {
    forall s | s in q ensures q[s] == ChildTable(qa, qb, noise)[s] {
    }
  }

  // ---------------------------------------------------------------------------
  // Sharing (sim_v3 shareExperience): each table is filled from the other.

  const ShareDiscount: real := 0.7

  /** Row `p` with every action it lacks taken from `q`, discounted. */
  function FillRow(p: Row, q: Row): Row
  {
    map k | k in p.Keys + q.Keys :: if k in p then p[k] else ShareDiscount * q[k]
  }

  /** Table `p` with every state and action it lacks taken from `q`, discounted. */
  function FillTable<K(==)>(p: map<K, Row>, q: map<K, Row>): map<K, Row>
  {
    map s | s in p.Keys + q.Keys :: FillRow(RowOf(p, s), RowOf(q, s))
  }

  lemma FillTableEntries<K>(p: map<K, Row>, q: map<K, Row>, s: K, k: int)
    ensures var f := FillTable(p, q);
      && f.Keys == p.Keys + q.Keys
      && (s in f ==> (k in f[s] <==> (s in p && k in p[s]) || (s in q && k in q[s])))
      && (s in p && k in p[s] ==> f[s][k] == p[s][k])
      && (s in q && k in q[s] && !(s in p && k in p[s]) ==> f[s][k] == ShareDiscount * q[s][k])
  {
  }

  /** After sharing, both tables hold the same (state, action) keys. */
  lemma FillTableSameKeys<K>(p: map<K, Row>, q: map<K, Row>)
    ensures FillTable(p, q).Keys == FillTable(q, p).Keys
    ensures forall s :: s in FillTable(p, q) ==> FillTable(p, q)[s].Keys == FillTable(q, p)[s].Keys
  {
  }

  /** The inner loop of sharing: add to row `p` each action of `q` it lacks. */
  method FillRowFrom(p: Row, q: Row) returns (r: Row)
    ensures r == FillRow(p, q)
  {
    r := p;
    var rest := q.Keys;
    while rest != {}
      invariant rest <= q.Keys
      invariant r.Keys == p.Keys + (q.Keys - rest)
      invariant forall k :: k in r ==> r[k] == (if k in p then p[k] else ShareDiscount * q[k])
      decreases rest
    {
      ghost var some := Pick(rest);  // the witness the `:|` below needs (see Basics.Pick)
      var k :| k in rest;
      if k !in r {
        r := r[k := ShareDiscount * q[k]];
      }
      rest := rest - {k};
    }
    assert r.Keys == p.Keys + q.Keys;
    assert forall k :: k in r ==> r[k] == FillRow(p, q)[k];
  }

  /** The outer loop of one direction of sharing, over the giver's states; a
      state the receiver lacks starts as an empty row. */
  method FillTableFrom<K(==)>(p: map<K, Row>, q: map<K, Row>) returns (f: map<K, Row>)
    ensures f == FillTable(p, q)
  {
    f := p;
    var rest := q.Keys;
    while rest != {}
      invariant rest <= q.Keys
      invariant f.Keys == p.Keys + (q.Keys - rest)
      invariant forall s :: s in f ==> f[s] == (if s in rest || s !in q then p[s] else FillRow(RowOf(p, s), q[s]))
      decreases rest
    {
      ghost var some := Pick(rest);  // the witness the `:|` below needs (see Basics.Pick)
      var s :| s in rest;
      var row := FillRowFrom(RowOf(f, s), q[s]);
      f := f[s := row];
      rest := rest - {s};
    }
    FilledTable(p, q, f);
  }

  /** A table that agrees with FillTable key by key is FillTable. */
  lemma FilledTable<K>(p: map<K, Row>, q: map<K, Row>, f: map<K, Row>)
    requires f.Keys == p.Keys + q.Keys
    requires forall s :: s in f ==> f[s] == (if s !in q then p[s] else FillRow(RowOf(p, s), q[s]))
    ensures f == FillTable(p, q)
  {
    var r := FillTable(p, q);
    forall s | s in f ensures f[s] == r[s] {
      FilledRow(p, q, s);
    }
    assert f.Keys == r.Keys;
  }

  /** The row `FillTable` holds for a state it keeps. */
  lemma FilledRow<K>(p: map<K, Row>, q: map<K, Row>, s: K)
    requires s in p.Keys + q.Keys
    ensures FillTable(p, q)[s] == (if s !in q then p[s] else FillRow(RowOf(p, s), q[s]))
  {
    if s !in q {
      assert FillRow(p[s], map[]) == p[s];
    }
  }

  lemma FillRowAfterFill(p: Row, q: Row)
    ensures FillRow(p, FillRow(q, p)) == FillRow(p, q)
  {
    assert FillRow(p, FillRow(q, p)).Keys == FillRow(p, q).Keys;
  }

  /** Sharing runs the second direction against the already filled table. What
      the first direction copied over came from the receiver itself, so it
      already has those entries: the second direction reads as if it ran
      against the giver's original table. */
  lemma FillAfterFill<K>(p: map<K, Row>, q: map<K, Row>)
    ensures FillTable(p, FillTable(q, p)) == FillTable(p, q)
  {
    var l, r := FillTable(p, FillTable(q, p)), FillTable(p, q);
    assert l.Keys == r.Keys;
    forall s | s in l
      ensures l[s] == r[s]
    {
      assert RowOf(FillTable(q, p), s) == FillRow(RowOf(q, s), RowOf(p, s));
      FillRowAfterFill(RowOf(p, s), RowOf(q, s));
    }
  }
}
