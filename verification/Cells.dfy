/** The parameter matrix: its expansion into cells, and the A/B split along one axis. */
module Cells {

  /** A parameter and its declared values. */
  datatype Axis<V> = Axis(name: string, values: seq<V>)

  // ---- expansion ----------------------------------------------------------------------------

  function Row<V>(combo: seq<V>, values: seq<V>): (row: seq<seq<V>>)
    ensures |row| == |values| && forall j :: 0 <= j < |row| ==> row[j] == combo + [values[j]]
  {
    seq(|values|, j requires 0 <= j < |values| => combo + [values[j]])
  }

  /** Every combination extended by every value, combinations outermost. */
  function Extend<V>(combos: seq<seq<V>>, values: seq<V>): seq<seq<V>>
  {
    if combos == [] then []
    else Extend(combos[..|combos| - 1], values) + Row(combos[|combos| - 1], values)
  }

  function Product<V>(axes: seq<Axis<V>>): seq<seq<V>>
  {
    if axes == [] then [[]]
    else Extend(Product(axes[..|axes| - 1]), axes[|axes| - 1].values)
  }

  /** The nested loops of `expand_cells`. */
  method ExpandCells<V>(axes: seq<Axis<V>>) returns (combos: seq<seq<V>>)
    ensures combos == Product(axes)
  {
    combos := [[]];
    for a := 0 to |axes|
      invariant combos == Product(axes[..a])
    {
      var values := axes[a].values;
      var next: seq<seq<V>> := [];
      for c := 0 to |combos|
        invariant next == Extend(combos[..c], values)
      {
        ghost var before := next;
        for v := 0 to |values|
          invariant next == before + Row(combos[c], values)[..v]
        {
          next := next + [combos[c] + [values[v]]];
        }
        assert combos[..c + 1][..c] == combos[..c];
      }
      assert combos[..|combos|] == combos;
      assert axes[..a + 1][..a] == axes[..a];
      combos := next;
    }
    assert axes[..|axes|] == axes;
  }

  // ---- which cell comes where -------------------------------------------------------------------

  function Count<V>(axes: seq<Axis<V>>): nat
  {
    if axes == [] then 1 else Count(axes[..|axes| - 1]) * |axes[|axes| - 1].values|
  }

  /** A choice of one value index per axis. */
  ghost predicate Choice<V>(axes: seq<Axis<V>>, d: seq<nat>)
  {
    |d| == |axes| && forall i :: 0 <= i < |d| ==> d[i] < |axes[i].values|
  }

  function Pick<V>(axes: seq<Axis<V>>, d: seq<nat>): (combo: seq<V>)
    requires |d| == |axes| && forall i :: 0 <= i < |d| ==> d[i] < |axes[i].values|
    ensures |combo| == |d| && forall i :: 0 <= i < |d| ==> combo[i] == axes[i].values[d[i]]
  {
    seq(|d|, i requires 0 <= i < |d| => axes[i].values[d[i]])
  }

  /** The position of a choice when choices are counted like digits, last axis fastest. */
  function Rank<V>(axes: seq<Axis<V>>, d: seq<nat>): nat
    requires |d| == |axes|
  {
    if d == [] then 0
    else Rank(axes[..|axes| - 1], d[..|d| - 1]) * |axes[|axes| - 1].values| + d[|d| - 1]
  }

  /** `d` comes before `e` in lexicographic order. */
  ghost predicate LexBefore(d: seq<nat>, e: seq<nat>)
  {
    |d| == |e| && exists i :: 0 <= i < |d| && d[..i] == e[..i] && d[i] < e[i]
  }

  lemma {:induction false} ExtendLength<V>(combos: seq<seq<V>>, values: seq<V>)
    ensures |Extend(combos, values)| == |combos| * |values|
  {
    if combos != [] {
      ExtendLength(combos[..|combos| - 1], values);
      assert |combos| * |values| == (|combos| - 1) * |values| + |values|;
    }
  }

  lemma {:induction false} ExtendAt<V>(combos: seq<seq<V>>, values: seq<V>, c: nat, j: nat)
    requires c < |combos| && j < |values|
    ensures c * |values| + j < |Extend(combos, values)|
    ensures Extend(combos, values)[c * |values| + j] == combos[c] + [values[j]]
  {
    var n := |combos| - 1;
    ExtendLength(combos[..n], values);
    if c < n {
      ExtendAt(combos[..n], values, c, j);
    }
  }

  lemma {:induction false} ProductLength<V>(axes: seq<Axis<V>>)
    ensures |Product(axes)| == Count(axes)
  {
    if axes != [] {
      ProductLength(axes[..|axes| - 1]);
      ExtendLength(Product(axes[..|axes| - 1]), axes[|axes| - 1].values);
    }
  }

  /** The cell of a choice stands at the choice's rank. */
  lemma {:induction false} CellAtRank<V>(axes: seq<Axis<V>>, d: seq<nat>)
    requires Choice(axes, d)
    ensures Rank(axes, d) < |Product(axes)| && Product(axes)[Rank(axes, d)] == Pick(axes, d)
  {
    if d != [] {
      var n := |d| - 1;
      CellAtRank(axes[..n], d[..n]);
      ExtendAt(Product(axes[..n]), axes[n].values, Rank(axes[..n], d[..n]), d[n]);
      PickSplits(axes, d);
    }
  }

  lemma PickSplits<V>(axes: seq<Axis<V>>, d: seq<nat>)
    requires Choice(axes, d) && d != []
    ensures var n := |d| - 1; Pick(axes, d) == Pick(axes[..n], d[..n]) + [axes[n].values[d[n]]]
  {
  }

  /** The choice at a given position. */
  function ChoiceAt<V>(axes: seq<Axis<V>>, k: nat): (d: seq<nat>)
    ensures |d| == |axes|
  {
    if axes == [] then []
    else
      var m := |axes[|axes| - 1].values|;
      if m == 0 then ChoiceAt(axes[..|axes| - 1], 0) + [0]
      else ChoiceAt(axes[..|axes| - 1], k / m) + [k % m]
  }

  lemma DivBelow(k: nat, a: nat, m: nat)
    requires m > 0 && k < a * m
    ensures k / m < a && k == (k / m) * m + k % m
  {
    var q := k / m;
    assert q * m <= k;
    assert q >= a ==> q * m >= a * m;
  }

  /** Every position is the rank of a choice. */
  lemma {:induction false} RankOfChoiceAt<V>(axes: seq<Axis<V>>, k: nat)
    requires k < Count(axes)
    ensures Choice(axes, ChoiceAt(axes, k)) && Rank(axes, ChoiceAt(axes, k)) == k
  {
    if axes != [] {
      var n := |axes| - 1;
      var m := |axes[n].values|;
      assert m > 0;
      DivBelow(k, Count(axes[..n]), m);
      RankOfChoiceAt(axes[..n], k / m);
      assert ChoiceAt(axes, k)[..n] == ChoiceAt(axes[..n], k / m);
    }
  }

  /** Comparing two-part numbers compares the leading parts first. */
  lemma CompareParts(a: nat, b: nat, m: nat, x: nat, y: nat)
    requires x < m && y < m
    ensures a * m + x < b * m + y <==> a < b || (a == b && x < y)
    ensures a * m + x == b * m + y <==> a == b && x == y
  {
    if a < b {
      assert b * m >= (a + 1) * m == a * m + m;
    } else if b < a {
      assert a * m >= (b + 1) * m == b * m + m;
    }
  }

  /** Ranks order choices lexicographically. */
  lemma {:induction false} RankIsLexicographic<V>(axes: seq<Axis<V>>, d: seq<nat>, e: seq<nat>)
    requires Choice(axes, d) && Choice(axes, e)
    ensures Rank(axes, d) < Rank(axes, e) <==> LexBefore(d, e)
    ensures Rank(axes, d) == Rank(axes, e) <==> d == e
  {
    if d != [] {
      var n := |d| - 1;
      RankIsLexicographic(axes[..n], d[..n], e[..n]);
      CompareParts(Rank(axes[..n], d[..n]), Rank(axes[..n], e[..n]), |axes[n].values|, d[n], e[n]);
      EqualSplits(d, e);
      LexSplits(d, e);
    }
  }

  lemma EqualSplits(d: seq<nat>, e: seq<nat>)
    requires |d| == |e| > 0
    ensures var n := |d| - 1; d == e <==> d[..n] == e[..n] && d[n] == e[n]
  {
    var n := |d| - 1;
    assert d == d[..n] + [d[n]] && e == e[..n] + [e[n]];
  }

  lemma LexSplits(d: seq<nat>, e: seq<nat>)
    requires |d| == |e| > 0
    ensures var n := |d| - 1; LexBefore(d, e) <==> LexBefore(d[..n], e[..n]) || (d[..n] == e[..n] && d[n] < e[n])
  {
    var n := |d| - 1;
    if LexBefore(d, e) {
      var i :| 0 <= i < |d| && d[..i] == e[..i] && d[i] < e[i];
      if i < n {
        assert d[..n][..i] == d[..i] && e[..n][..i] == e[..i];
      }
    }
    if LexBefore(d[..n], e[..n]) {
      var i :| 0 <= i < n && d[..n][..i] == e[..n][..i] && d[..n][i] < e[..n][i];
      assert d[..i] == d[..n][..i] && e[..i] == e[..n][..i];
    }
  }

  /** The cells are exactly the choices, in lexicographic order, as many as the product of
      the axis lengths. */
  lemma ExpansionIsLexicographic<V>(axes: seq<Axis<V>>, j: nat, k: nat)
    requires j < k < |Product(axes)|
    ensures |Product(axes)| == Count(axes)
    ensures Choice(axes, ChoiceAt(axes, j)) && Choice(axes, ChoiceAt(axes, k))
    ensures Product(axes)[j] == Pick(axes, ChoiceAt(axes, j)) && Product(axes)[k] == Pick(axes, ChoiceAt(axes, k))
    ensures LexBefore(ChoiceAt(axes, j), ChoiceAt(axes, k))
  {
    ProductLength(axes);
    RankOfChoiceAt(axes, j);
    RankOfChoiceAt(axes, k);
    CellAtRank(axes, ChoiceAt(axes, j));
    CellAtRank(axes, ChoiceAt(axes, k));
    RankIsLexicographic(axes, ChoiceAt(axes, j), ChoiceAt(axes, k));
  }

  ghost predicate DistinctValues<V>(axes: seq<Axis<V>>)
  {
    forall a, i, j :: 0 <= a < |axes| && 0 <= i < j < |axes[a].values| ==> axes[a].values[i] != axes[a].values[j]
  }

  /** With distinct values on every axis each combination of values is listed exactly once. */
  lemma EachCombinationOnce<V>(axes: seq<Axis<V>>, d: seq<nat>)
    requires DistinctValues(axes) && Choice(axes, d)
    ensures exists k :: 0 <= k < |Product(axes)| && Product(axes)[k] == Pick(axes, d)
    ensures forall j, k :: 0 <= j < k < |Product(axes)| ==> Product(axes)[j] != Product(axes)[k]
  {
    CellAtRank(axes, d);
    forall j, k | 0 <= j < k < |Product(axes)| ensures Product(axes)[j] != Product(axes)[k] {
      ExpansionIsLexicographic(axes, j, k);
      var dj, dk := ChoiceAt(axes, j), ChoiceAt(axes, k);
      var i :| 0 <= i < |dj| && dj[..i] == dk[..i] && dj[i] < dk[i];
      assert axes[i].values[dj[i]] != axes[i].values[dk[i]];
    }
  }

  // ---- the A/B split ------------------------------------------------------------------------------

  /** A cell's parameters by name, inserted axis by axis. */
  function Params<V>(axes: seq<Axis<V>>, combo: seq<V>): map<string, V>
    requires |combo| == |axes|
  {
    if axes == [] then map[]
    else Params(axes[..|axes| - 1], combo[..|combo| - 1])[axes[|axes| - 1].name := combo[|combo| - 1]]
  }

  ghost predicate DistinctNames<V>(axes: seq<Axis<V>>)
  {
    forall i, j :: 0 <= i < j < |axes| ==> axes[i].name != axes[j].name
  }

  lemma {:induction false} ParamLookup<V>(axes: seq<Axis<V>>, combo: seq<V>, d: nat)
    requires |combo| == |axes| && d < |axes| && DistinctNames(axes)
    ensures axes[d].name in Params(axes, combo) && Params(axes, combo)[axes[d].name] == combo[d]
  {
    if d < |axes| - 1 {
      ParamLookup(axes[..|axes| - 1], combo[..|combo| - 1], d);
    }
  }

  /** The cells whose parameter `dim` has the value `v`, in order. */
  function Group<V(==)>(axes: seq<Axis<V>>, combos: seq<seq<V>>, dim: string, v: V): seq<seq<V>>
    requires forall i :: 0 <= i < |combos| ==> |combos[i]| == |axes|
  {
    if combos == [] then []
    else
      var last := combos[|combos| - 1];
      var params := Params(axes, last);
      Group(axes, combos[..|combos| - 1], dim, v) + if dim in params && params[dim] == v then [last] else []
  }

  predicate Covers<V>(combos: seq<seq<V>>, d: nat)
  {
    forall i :: 0 <= i < |combos| ==> d < |combos[i]|
  }

  /** The same by position. */
  function Select<V(==)>(combos: seq<seq<V>>, d: nat, v: V): seq<seq<V>>
    requires Covers(combos, d)
  {
    if combos == [] then []
    else
      var last := combos[|combos| - 1];
      Select(combos[..|combos| - 1], d, v) + if last[d] == v then [last] else []
  }

  lemma {:induction false} GroupIsSelect<V>(axes: seq<Axis<V>>, combos: seq<seq<V>>, d: nat, v: V)
    requires d < |axes| && DistinctNames(axes) && forall i :: 0 <= i < |combos| ==> |combos[i]| == |axes|
    ensures Group(axes, combos, axes[d].name, v) == Select(combos, d, v)
  {
    if combos != [] {
      GroupIsSelect(axes, combos[..|combos| - 1], d, v);
      ParamLookup(axes, combos[|combos| - 1], d);
    }
  }

  ghost predicate Width<V>(combos: seq<seq<V>>, n: nat)
  {
    forall i :: 0 <= i < |combos| ==> |combos[i]| == n
  }

  lemma {:induction false} ExtendWidth<V>(combos: seq<seq<V>>, values: seq<V>, n: nat)
    requires Width(combos, n)
    ensures Width(Extend(combos, values), n + 1)
  {
    if combos != [] {
      ExtendWidth(combos[..|combos| - 1], values, n);
    }
  }

  lemma {:induction false} ProductWidth<V>(axes: seq<Axis<V>>)
    ensures Width(Product(axes), |axes|)
  {
    if axes != [] {
      ProductWidth(axes[..|axes| - 1]);
      ExtendWidth(Product(axes[..|axes| - 1]), axes[|axes| - 1].values, |axes| - 1);
    }
  }

  lemma {:induction false} SelectConcat<V>(a: seq<seq<V>>, b: seq<seq<V>>, d: nat, v: V)
    requires Covers(a, d) && Covers(b, d)
    ensures Select(a + b, d, v) == Select(a, d, v) + Select(b, d, v)
  {
    if b == [] {
      assert a + b == a;
    } else {
      var n := |b| - 1;
      SelectConcat(a, b[..n], d, v);
      assert (a + b)[..|a| + n] == a + b[..n];
    }
  }

  /** How often `v` is among the values. */
  function Occurrences<V(==)>(values: seq<V>, v: V): nat
  {
    if values == [] then 0
    else Occurrences(values[..|values| - 1], v) + if values[|values| - 1] == v then 1 else 0
  }

  function Copies<T>(x: T, n: nat): seq<T>
  {
    if n == 0 then [] else Copies(x, n - 1) + [x]
  }

  /** Selecting on an earlier axis keeps or drops whole rows. */
  lemma {:induction false} SelectRowEarlier<V>(combo: seq<V>, values: seq<V>, d: nat, v: V)
    requires d < |combo|
    ensures Covers(Row(combo, values), d)
    ensures Select(Row(combo, values), d, v) == if combo[d] == v then Row(combo, values) else []
  {
    if values != [] {
      var n := |values| - 1;
      assert Row(combo, values)[..n] == Row(combo, values[..n]);
      SelectRowEarlier(combo, values[..n], d, v);
      assert Row(combo, values) == Row(combo, values[..n]) + [combo + [values[n]]];
    }
  }

  /** Selecting on the last axis keeps one cell of each row per occurrence of the value. */
  lemma {:induction false} SelectRowLast<V>(combo: seq<V>, values: seq<V>, v: V)
    ensures Select(Row(combo, values), |combo|, v) == Copies(combo + [v], Occurrences(values, v))
  {
    if values != [] {
      var n := |values| - 1;
      assert Row(combo, values)[..n] == Row(combo, values[..n]);
      SelectRowLast(combo, values[..n], v);
    }
  }

  lemma {:induction false} SelectExtendEarlier<V>(combos: seq<seq<V>>, values: seq<V>, w: nat, d: nat, v: V)
    requires Width(combos, w) && d < w
    ensures Covers(Extend(combos, values), d)
    ensures Select(Extend(combos, values), d, v) == Extend(Select(combos, d, v), values)
  {
    ExtendWidth(combos, values, w);
    if combos != [] {
      var n := |combos| - 1;
      SelectExtendEarlier(combos[..n], values, w, d, v);
      SelectOneMoreRow(Extend(combos[..n], values), combos[n], values, d, v);
      if combos[n][d] != v {
        assert Select(combos, d, v) == Select(combos[..n], d, v);
      } else {
        ExtendSnoc(Select(combos[..n], d, v), combos[n], values);
      }
    }
  }

  lemma SelectOneMoreRow<V>(front: seq<seq<V>>, combo: seq<V>, values: seq<V>, d: nat, v: V)
    requires Covers(front, d) && d < |combo|
    ensures Covers(front + Row(combo, values), d)
    ensures Select(front + Row(combo, values), d, v)
         == Select(front, d, v) + if combo[d] == v then Row(combo, values) else []
  {
    SelectRowEarlier(combo, values, d, v);
    SelectConcat(front, Row(combo, values), d, v);
  }

  lemma ExtendSnoc<V>(combos: seq<seq<V>>, combo: seq<V>, values: seq<V>)
    ensures Extend(combos + [combo], values) == Extend(combos, values) + Row(combo, values)
  {
    assert (combos + [combo])[..|combos|] == combos;
  }

  lemma {:induction false} SelectExtendLast<V>(combos: seq<seq<V>>, values: seq<V>, w: nat, v: V)
    requires Width(combos, w) && Occurrences(values, v) == 1
    ensures Width(Extend(combos, values), w + 1)
    ensures Select(Extend(combos, values), w, v) == Extend(combos, [v])
  {
    ExtendWidth(combos, values, w);
    if combos != [] {
      var n := |combos| - 1;
      SelectExtendLast(combos[..n], values, w, v);
      SelectRowLast(combos[n], values, v);
      assert Copies(combos[n] + [v], 1) == [combos[n] + [v]];
      SelectConcat(Extend(combos[..n], values), Row(combos[n], values), w, v);
      assert Row(combos[n], [v]) == [combos[n] + [v]];
    }
  }

  /** The cells with one value of an axis are the expansion with the axis cut down to it. */
  lemma {:induction false} GroupIsSmallerProduct<V>(axes: seq<Axis<V>>, d: nat, v: V)
    requires d < |axes| && Occurrences(axes[d].values, v) == 1
    ensures Width(Product(axes), |axes|)
    ensures Select(Product(axes), d, v) == Product(Cut(axes, d, v))
  {
    ProductWidth(axes);
    var n := |axes| - 1;
    var cut := Cut(axes, d, v);
    var front := Product(axes[..n]);
    ProductWidth(axes[..n]);
    if d < n {
      GroupIsSmallerProduct(axes[..n], d, v);
      assert cut[..n] == Cut(axes[..n], d, v);
      SelectExtendEarlier(front, axes[n].values, n, d, v);
    } else {
      assert cut[..n] == axes[..n];
      SelectExtendLast(front, axes[n].values, n, v);
    }
  }

  /** Axis `d` cut down to one value. */
  function Cut<V>(axes: seq<Axis<V>>, d: nat, v: V): (cut: seq<Axis<V>>)
    requires d < |axes|
    ensures |cut| == |axes|
  {
    axes[d := Axis(axes[d].name, [v])]
  }

  lemma CellAt<V>(axes: seq<Axis<V>>, k: nat)
    requires k < |Product(axes)|
    ensures Choice(axes, ChoiceAt(axes, k)) && Product(axes)[k] == Pick(axes, ChoiceAt(axes, k))
  {
    ProductLength(axes);
    RankOfChoiceAt(axes, k);
    CellAtRank(axes, ChoiceAt(axes, k));
  }

  /** Two expansions that differ in one single-valued axis differ only there. */
  lemma TwinProducts<V>(axes: seq<Axis<V>>, d: nat, v: V, w: V)
    requires d < |axes|
    ensures |Product(Cut(axes, d, v))| == |Product(Cut(axes, d, w))|
    ensures Width(Product(Cut(axes, d, v)), |axes|) && Width(Product(Cut(axes, d, w)), |axes|)
  {
    ProductLength(Cut(axes, d, v));
    ProductLength(Cut(axes, d, w));
    ProductWidth(Cut(axes, d, v));
    ProductWidth(Cut(axes, d, w));
    SameCount(axes, d, v, w);
  }

  lemma TwinCells<V>(axes: seq<Axis<V>>, d: nat, v: V, w: V, k: nat, i: nat)
    requires d < |axes| && i < |axes| && k < |Product(Cut(axes, d, v))|
    requires |Product(Cut(axes, d, v))| == |Product(Cut(axes, d, w))|
    ensures var a, b := Product(Cut(axes, d, v))[k], Product(Cut(axes, d, w))[k];
            |a| == |b| == |axes| && if i == d then a[i] == v && b[i] == w else a[i] == b[i]
  {
    CellAt(Cut(axes, d, v), k);
    CellAt(Cut(axes, d, w), k);
    SameChoice(axes, d, v, w, k);
  }

  lemma {:induction false} SameCount<V>(axes: seq<Axis<V>>, d: nat, v: V, w: V)
    requires d < |axes|
    ensures Count(Cut(axes, d, v)) == Count(Cut(axes, d, w))
  {
    var n := |axes| - 1;
    var ax, bx := Cut(axes, d, v), Cut(axes, d, w);
    if d < n {
      SameCount(axes[..n], d, v, w);
      assert ax[..n] == Cut(axes[..n], d, v) && bx[..n] == Cut(axes[..n], d, w);
    } else {
      assert ax[..n] == axes[..n] == bx[..n];
    }
  }

  lemma {:induction false} SameChoice<V>(axes: seq<Axis<V>>, d: nat, v: V, w: V, k: nat)
    requires d < |axes|
    ensures ChoiceAt(Cut(axes, d, v), k) == ChoiceAt(Cut(axes, d, w), k)
  {
    var n := |axes| - 1;
    var ax, bx := Cut(axes, d, v), Cut(axes, d, w);
    if d < n {
      var m := |axes[n].values|;
      SameChoice(axes[..n], d, v, w, if m == 0 then 0 else k / m);
      assert ax[..n] == Cut(axes[..n], d, v) && bx[..n] == Cut(axes[..n], d, w);
    } else {
      assert ax[..n] == axes[..n] == bx[..n];
    }
  }

  lemma {:induction false} SelectCounts<V>(combos: seq<seq<V>>, d: nat, v: V, w: V)
    requires Covers(combos, d)
    requires forall i :: 0 <= i < |combos| ==> combos[i][d] == v || combos[i][d] == w
    ensures |Select(combos, d, v)| + |Select(combos, d, w)| == if v == w then 2 * |combos| else |combos|
  {
    if combos != [] {
      SelectCounts(combos[..|combos| - 1], d, v, w);
    }
  }

  /** Selecting two different values splits the cells, losing and repeating none. */
  lemma {:induction false} SelectSplits<V>(combos: seq<seq<V>>, d: nat, v: V, w: V)
    requires v != w && Covers(combos, d)
    requires forall i :: 0 <= i < |combos| ==> combos[i][d] == v || combos[i][d] == w
    ensures multiset(Select(combos, d, v)) + multiset(Select(combos, d, w)) == multiset(combos)
  {
    if combos != [] {
      var n := |combos| - 1;
      SelectSplits(combos[..n], d, v, w);
      SplitOneMore(Select(combos[..n], d, v), Select(combos[..n], d, w), combos[..n], combos[n]);
      assert combos == combos[..n] + [combos[n]];
      if combos[n][d] == v {
        assert Select(combos, d, v) == Select(combos[..n], d, v) + [combos[n]];
        assert Select(combos, d, w) == Select(combos[..n], d, w);
      } else {
        assert Select(combos, d, v) == Select(combos[..n], d, v);
        assert Select(combos, d, w) == Select(combos[..n], d, w) + [combos[n]];
      }
    }
  }

  lemma SplitOneMore<T>(a: seq<T>, b: seq<T>, both: seq<T>, x: T)
    requires multiset(a) + multiset(b) == multiset(both)
    ensures multiset(a + [x]) + multiset(b) == multiset(both + [x])
    ensures multiset(a) + multiset(b + [x]) == multiset(both + [x])
  {
  }

  lemma ValuesComeFromAxis<V>(axes: seq<Axis<V>>, d: nat, k: nat)
    requires d < |axes| && k < |Product(axes)|
    ensures d < |Product(axes)[k]| && Product(axes)[k][d] in axes[d].values
  {
    CellAt(axes, k);
  }

  lemma OnceEach<V>(values: seq<V>)
    requires |values| == 2 && values[0] != values[1]
    ensures Occurrences(values, values[0]) == 1 == Occurrences(values, values[1])
  {
    forall v ensures Occurrences(values, v) == (if values[0] == v then 1 else 0) + (if values[1] == v then 1 else 0) {
      var one := values[..1];
      assert one[..0] == [];
      assert Occurrences(one, v) == if values[0] == v then 1 else 0;
    }
  }

  /** The group of a value that the axis lists once. */
  lemma GroupIsCut<V>(axes: seq<Axis<V>>, d: nat, v: V)
    requires DistinctNames(axes) && d < |axes| && Occurrences(axes[d].values, v) == 1
    ensures Width(Product(axes), |axes|) && Width(Product(Cut(axes, d, v)), |axes|)
    ensures Group(axes, Product(axes), axes[d].name, v) == Product(Cut(axes, d, v))
  {
    ProductWidth(axes);
    ProductWidth(Cut(axes, d, v));
    GroupIsSelect(axes, Product(axes), d, v);
    GroupIsSmallerProduct(axes, d, v);
  }

  lemma GroupsAreSelections<V>(axes: seq<Axis<V>>, d: nat)
    requires DistinctNames(axes) && d < |axes| && |axes[d].values| == 2
    ensures Width(Product(axes), |axes|)
    ensures var v, w, cells := axes[d].values[0], axes[d].values[1], Product(axes);
            && Group(axes, cells, axes[d].name, v) == Select(cells, d, v)
            && Group(axes, cells, axes[d].name, w) == Select(cells, d, w)
            && forall c :: 0 <= c < |cells| ==> cells[c][d] == v || cells[c][d] == w
  {
    var v, w := axes[d].values[0], axes[d].values[1];
    ProductWidth(axes);
    GroupIsSelect(axes, Product(axes), d, v);
    GroupIsSelect(axes, Product(axes), d, w);
    forall c | 0 <= c < |Product(axes)| ensures Product(axes)[c][d] == v || Product(axes)[c][d] == w {
      ValuesComeFromAxis(axes, d, c);
    }
  }

  lemma GroupSizes<V>(axes: seq<Axis<V>>, d: nat)
    requires DistinctNames(axes) && d < |axes| && |axes[d].values| == 2
    ensures Width(Product(axes), |axes|)
    ensures var v, w := axes[d].values[0], axes[d].values[1];
            |Group(axes, Product(axes), axes[d].name, v)| + |Group(axes, Product(axes), axes[d].name, w)|
            == if v == w then 2 * |Product(axes)| else |Product(axes)|
  {
    GroupsAreSelections(axes, d);
    SelectCounts(Product(axes), d, axes[d].values[0], axes[d].values[1]);
  }

  lemma GroupsCover<V>(axes: seq<Axis<V>>, d: nat)
    requires DistinctNames(axes) && d < |axes| && |axes[d].values| == 2 && axes[d].values[0] != axes[d].values[1]
    ensures Width(Product(axes), |axes|)
    ensures multiset(Group(axes, Product(axes), axes[d].name, axes[d].values[0]))
          + multiset(Group(axes, Product(axes), axes[d].name, axes[d].values[1])) == multiset(Product(axes))
  {
    GroupsAreSelections(axes, d);
    SelectSplits(Product(axes), d, axes[d].values[0], axes[d].values[1]);
  }

  /** Comparing on an axis with two distinct values partitions the cells into two groups of the
      same size whose k-th cells agree on every other parameter. */
  lemma ABSplit<V>(axes: seq<Axis<V>>, d: nat, k: nat, i: nat)
    requires DistinctNames(axes) && d < |axes| && i < |axes|
    requires |axes[d].values| == 2 && axes[d].values[0] != axes[d].values[1]
    ensures Width(Product(axes), |axes|)
    ensures var v, w := axes[d].values[0], axes[d].values[1];
            var a, b := Group(axes, Product(axes), axes[d].name, v), Group(axes, Product(axes), axes[d].name, w);
            && |a| == |b| && multiset(a) + multiset(b) == multiset(Product(axes)) && Width(a, |axes|)
            && Width(b, |axes|)
            && (k < |a| ==> if i == d then a[k][i] == v && b[k][i] == w else a[k][i] == b[k][i])
  {
    var v, w := axes[d].values[0], axes[d].values[1];
    OnceEach(axes[d].values);
    GroupIsCut(axes, d, v);
    GroupIsCut(axes, d, w);
    GroupsCover(axes, d);
    TwinProducts(axes, d, v, w);
    if k < |Product(Cut(axes, d, v))| {
      TwinCells(axes, d, v, w, k, i);
    }
  }

  /** The two groups partition the cells exactly when the compared values differ, or there
      are no cells; equal values, which validation lets through, put every cell in both. */
  lemma PartitionExactly<V>(axes: seq<Axis<V>>, d: nat)
    requires DistinctNames(axes) && d < |axes| && |axes[d].values| == 2
    ensures Width(Product(axes), |axes|)
    ensures var v, w := axes[d].values[0], axes[d].values[1];
            var a, b := Group(axes, Product(axes), axes[d].name, v), Group(axes, Product(axes), axes[d].name, w);
            |a| + |b| == |Product(axes)| <==> v != w || Product(axes) == []
  {
    GroupSizes(axes, d);
  }
}
