/** The ids by which the gate joins metrics across runs, and what an id determines. */
module MetricIds {
  import opened Decimal
  import opened Options
  import opened Strings

  /** A label value. */
  datatype Scalar = Text(s: string) | Number(n: int) | Flag(b: bool)

  /** What a metric id is made from; labels are in the order the producer emitted them. */
  datatype Subject =
    Subject(name: string, key: Option<string>, labels: seq<(string, Scalar)>, reduction: Reduction)

  datatype Reduction = Mean | P50 | P99 | Value | Rate

  function ReductionName(r: Reduction): string
  {
    match r
    case Mean => "mean"
    case P50 => "p50"
    case P99 => "p99"
    case Value => "value"
    case Rate => "rate"
  }

  /** `scalar_to_string`: strings bare, everything else as JSON writes it. */
  function ScalarText(v: Scalar): string
  {
    match v
    case Text(s) => s
    case Number(n) => IntText(n)
    case Flag(b) => if b then "true" else "false"
  }

  function Lookup(labels: seq<(string, Scalar)>, k: string): (v: Scalar)
    requires k in Keys(labels)
    ensures (k, v) in labels
  {
    if labels[0].0 == k then labels[0].1
    else
      assert k in Keys(labels[1..]) by {
        var j :| 0 <= j < |labels| && Keys(labels)[j] == k;
        assert Keys(labels[1..])[j - 1] == k;
      }
      Lookup(labels[1..], k)
  }

  /** The labels as a map from key to rendered value. */
  function LabelMap(labels: seq<(string, Scalar)>): map<string, string>
  {
    map k | k in Keys(labels) :: ScalarText(Lookup(labels, k))
  }

  // ---- rendering ----------------------------------------------------------------------------

  /** The `k=v` parts for the given keys. */
  function Parts(labels: seq<(string, Scalar)>, keys: seq<string>): (parts: seq<string>)
    requires forall k :: k in keys ==> k in Keys(labels)
    ensures |parts| == |keys|
    ensures forall i :: 0 <= i < |keys| ==> parts[i] == keys[i] + "=" + ScalarText(Lookup(labels, keys[i]))
  {
    seq(|keys|, i requires 0 <= i < |keys| => keys[i] + "=" + ScalarText(Lookup(labels, keys[i])))
  }

  /** Each part preceded by a bar. */
  function Barred(parts: seq<string>): string
  {
    if parts == [] then "" else Barred(parts[..|parts| - 1]) + "|" + parts[|parts| - 1]
  }

  function KeyParts(key: Option<string>): seq<string>
  {
    if key.Some? then [key.value] else []
  }

  function LabelParts(labels: seq<(string, Scalar)>): seq<string>
  {
    Parts(labels, Sort(Keys(labels)))
  }

  function Assemble(name: string, key: Option<string>, parts: seq<string>, reduction: string): string
  {
    name + Barred(KeyParts(key) + parts + [reduction])
  }

  function MetricId(s: Subject): string
  {
    Assemble(s.name, s.key, LabelParts(s.labels), ReductionName(s.reduction))
  }

  /** `labels_suffix`. */
  method LabelsSuffix(labels: seq<(string, Scalar)>) returns (s: string)
    ensures s == Barred(LabelParts(labels))
  {
    var keys := Sort(Keys(labels));
    s := "";
    for i := 0 to |keys|
      invariant s == Barred(LabelParts(labels)[..i])
    {
      s := s + "|" + keys[i] + "=" + ScalarText(Lookup(labels, keys[i]));
      assert LabelParts(labels)[..i + 1][..i] == LabelParts(labels)[..i];
      StepText(Barred(LabelParts(labels)[..i]), keys[i], ScalarText(Lookup(labels, keys[i])));
    }
    assert LabelParts(labels)[..|keys|] == LabelParts(labels);
  }

  lemma StepText(front: string, k: string, v: string)
    ensures front + "|" + k + "=" + v == front + "|" + (k + "=" + v)
  {
  }

  /** The id `reduce` builds for one series and one of its reductions. */
  method BuildId(s: Subject) returns (id: string)
    ensures id == MetricId(s)
  {
    var keyed := if s.key.Some? then s.name + "|" + s.key.value else s.name;
    var suffix := LabelsSuffix(s.labels);
    id := keyed + suffix + "|" + ReductionName(s.reduction);
    PushedInOrder(s.name, s.key, LabelParts(s.labels), ReductionName(s.reduction));
  }

  lemma PushedInOrder(name: string, key: Option<string>, parts: seq<string>, reduction: string)
    ensures Assemble(name, key, parts, reduction)
         == (if key.Some? then name + "|" + key.value else name) + Barred(parts) + "|" + reduction
  {
    EndsWithReduction(name, KeyParts(key) + parts, reduction);
    BarredConcat(KeyParts(key), parts);
    Associates(name, Barred(KeyParts(key)), Barred(parts));
    if key.Some? {
      BarredOne(key.value);
      Associates(name, "|", key.value);
    } else {
      assert name + "" == name;
    }
  }

  lemma Associates(a: string, b: string, c: string)
    ensures a + (b + c) == a + b + c
  {
  }

  lemma EndsWithReduction(name: string, parts: seq<string>, reduction: string)
    ensures name + Barred(parts + [reduction]) == name + Barred(parts) + "|" + reduction
  {
    assert (parts + [reduction])[..|parts|] == parts;
    var front := Barred(parts);
    assert name + (front + "|" + reduction) == name + front + "|" + reduction;
  }

  lemma BarredOne(p: string)
    ensures Barred([p]) == "|" + p
  {
    assert [p][..0] == [];
  }

  lemma {:induction false} BarredConcat(a: seq<string>, b: seq<string>)
    ensures Barred(a + b) == Barred(a) + Barred(b)
  {
    if b == [] {
      assert a + b == a;
    } else {
      BarredConcat(a, b[..|b| - 1]);
      assert (a + b)[..|a + b| - 1] == a + b[..|b| - 1];
    }
  }

  // ---- reading an id back ---------------------------------------------------------------------

  predicate Free(s: string, c: char)
  {
    forall i :: 0 <= i < |s| ==> s[i] != c
  }

  predicate BarFree(parts: seq<string>)
  {
    forall i :: 0 <= i < |parts| ==> Free(parts[i], '|')
  }

  /** Two texts cut at the last occurrence of a separator agree on both sides. */
  lemma LastCut(a: string, x: string, b: string, y: string, c: char)
    requires Free(x, c) && Free(y, c) && a + [c] + x == b + [c] + y
    ensures a == b && x == y
  {
    var whole := a + [c] + x;
    assert whole[|a|] == c && whole[|b|] == c;
    assert forall i :: |a| < i < |whole| ==> whole[i] == x[i - |a| - 1];
    assert forall i :: |b| < i < |whole| ==> whole[i] == y[i - |b| - 1];
    assert |a| == |b|;
    assert a == whole[..|a|] && b == whole[..|b|];
    assert x == whole[|a| + 1..] && y == whole[|b| + 1..];
  }

  /** Two texts cut at the first occurrence of a separator agree on both sides. */
  lemma FirstCut(a: string, x: string, b: string, y: string, c: char)
    requires Free(a, c) && Free(b, c) && a + [c] + x == b + [c] + y
    ensures a == b && x == y
  {
    var whole := a + [c] + x;
    assert whole[|a|] == c && whole[|b|] == c;
    assert forall i :: 0 <= i < |a| ==> whole[i] == a[i];
    assert forall i :: 0 <= i < |b| ==> whole[i] == b[i];
    assert |a| == |b|;
    assert a == whole[..|a|] && b == whole[..|b|];
    assert x == whole[|a| + 1..] && y == whole[|b| + 1..];
  }

  lemma {:induction false} BarredIsInjective(m: string, ps: seq<string>, n: string, qs: seq<string>)
    requires Free(m, '|') && Free(n, '|') && BarFree(ps) && BarFree(qs)
    requires m + Barred(ps) == n + Barred(qs)
    ensures m == n && ps == qs
  {
    if ps == [] || qs == [] {
      HasBar(m, ps);
      HasBar(n, qs);
    } else {
      var i, j := |ps| - 1, |qs| - 1;
      assert m + Barred(ps) == m + Barred(ps[..i]) + "|" + ps[i];
      assert n + Barred(qs) == n + Barred(qs[..j]) + "|" + qs[j];
      LastCut(m + Barred(ps[..i]), ps[i], n + Barred(qs[..j]), qs[j], '|');
      BarredIsInjective(m, ps[..i], n, qs[..j]);
      assert ps == ps[..i] + [ps[i]] && qs == qs[..j] + [qs[j]];
    }
  }

  lemma HasBar(m: string, ps: seq<string>)
    requires Free(m, '|')
    ensures Free(m + Barred(ps), '|') <==> ps == []
    ensures ps == [] ==> m + Barred(ps) == m
  {
    if ps != [] {
      var front := m + Barred(ps[..|ps| - 1]);
      assert m + Barred(ps) == front + "|" + ps[|ps| - 1];
      assert (m + Barred(ps))[|front|] == '|';
    }
  }

  // ---- a key with bars in it reads as several parts ----------------------------------------------

  /** The text between bars. */
  function Pieces(s: string): (ps: seq<string>)
    ensures ps != []
  {
    if s == [] then [""]
    else
      var front, c := Pieces(s[..|s| - 1]), s[|s| - 1];
      if c == '|' then front + [""] else front[..|front| - 1] + [front[|front| - 1] + [c]]
  }

  lemma {:induction false} PiecesJoin(s: string)
    ensures Barred(Pieces(s)) == "|" + s
  {
    if s == [] {
      BarredOne("");
    } else {
      var n := |s| - 1;
      var front, c := Pieces(s[..n]), s[n];
      PiecesJoin(s[..n]);
      assert s == s[..n] + [c];
      if c == '|' {
        assert (front + [""])[..|front|] == front;
        assert Barred(front + [""]) == Barred(front) + "|" + "";
      } else {
        ExtendLast(front, c);
      }
    }
  }

  lemma {:induction false} PiecesBarFree(s: string)
    ensures BarFree(Pieces(s))
  {
    if s != [] {
      PiecesBarFree(s[..|s| - 1]);
    }
  }

  lemma {:induction false} PiecesKeyShaped(s: string)
    requires Free(s, '=')
    ensures KeyShaped(Pieces(s))
  {
    if s != [] {
      PiecesKeyShaped(s[..|s| - 1]);
    }
  }

  lemma PiecesOf(s: string)
    ensures Barred(Pieces(s)) == "|" + s && BarFree(Pieces(s))
    ensures Free(s, '=') ==> KeyShaped(Pieces(s))
  {
    PiecesJoin(s);
    PiecesBarFree(s);
    if Free(s, '=') {
      PiecesKeyShaped(s);
    }
  }

  lemma ExtendLast(ps: seq<string>, c: char)
    requires ps != []
    ensures Barred(ps[..|ps| - 1] + [ps[|ps| - 1] + [c]]) == Barred(ps) + [c]
  {
    var n := |ps| - 1;
    BarredSnoc(ps[..n], ps[n] + [c]);
    Reassociate(Barred(ps[..n]) + "|", ps[n], [c]);
  }

  lemma BarredSnoc(ps: seq<string>, last: string)
    ensures Barred(ps + [last]) == Barred(ps) + "|" + last
  {
    assert (ps + [last])[..|ps|] == ps;
  }

  lemma Reassociate(a: string, b: string, c: string)
    ensures a + (b + c) == a + b + c
  {
  }

  function PieceParts(key: Option<string>): seq<string>
  {
    if key.Some? then Pieces(key.value) else []
  }

  lemma AssembledFromPieces(name: string, key: Option<string>, parts: seq<string>, reduction: string)
    ensures Assemble(name, key, parts, reduction) == name + Barred(PieceParts(key) + parts + [reduction])
  {
    BarredConcat(KeyParts(key) + parts, [reduction]);
    BarredConcat(PieceParts(key) + parts, [reduction]);
    BarredConcat(KeyParts(key), parts);
    BarredConcat(PieceParts(key), parts);
    if key.Some? {
      BarredOne(key.value);
      PiecesOf(key.value);
    }
  }

  lemma SamePieces(k: Option<string>, j: Option<string>)
    requires PieceParts(k) == PieceParts(j)
    ensures k == j
  {
    if k.Some? && j.Some? {
      PiecesOf(k.value);
      PiecesOf(j.value);
      assert ("|" + k.value)[1..] == k.value && ("|" + j.value)[1..] == j.value;
    }
  }

  // ---- what an id determines ---------------------------------------------------------------------

  /** No bar in the name or in a rendered label, no equals sign in the key or in a label's key. */
  predicate Plain(s: Subject)
  {
    && Free(s.name, '|')
    && (s.key.Some? ==> Free(s.key.value, '='))
    && forall i :: 0 <= i < |s.labels| ==> PlainLabel(s.labels[i].0, ScalarText(s.labels[i].1))
  }

  predicate PlainLabel(k: string, v: string)
  {
    Free(k, '|') && Free(k, '=') && Free(v, '|')
  }

  ghost predicate UniqueKeys(s: Subject)
  {
    Unique(Keys(s.labels))
  }

  ghost predicate PlainLabels(labels: seq<(string, Scalar)>)
  {
    forall k :: k in Keys(labels) ==> PlainLabel(k, ScalarText(Lookup(labels, k)))
  }

  ghost predicate LabelShaped(parts: seq<string>)
  {
    forall i :: 0 <= i < |parts| ==> Free(parts[i], '|') && !Free(parts[i], '=')
  }

  lemma PlainParts(s: Subject)
    requires Plain(s)
    ensures LabelShaped(LabelParts(s.labels)) && PlainLabels(s.labels)
  {
    var keys := Sort(Keys(s.labels));
    forall k | k in Keys(s.labels) ensures PlainLabel(k, ScalarText(Lookup(s.labels, k))) {
      assert (k, Lookup(s.labels, k)) in s.labels;
    }
    forall i | 0 <= i < |keys| ensures Free(LabelParts(s.labels)[i], '|') && !Free(LabelParts(s.labels)[i], '=') {
      assert keys[i] in keys;
      assert LabelParts(s.labels)[i][|keys[i]|] == '=';
    }
  }

  lemma PartsDetermineMap(a: seq<(string, Scalar)>, b: seq<(string, Scalar)>)
    requires Unique(Keys(a)) && Unique(Keys(b)) && PlainLabels(a) && PlainLabels(b)
    ensures LabelParts(a) == LabelParts(b) <==> LabelMap(a) == LabelMap(b)
  {
    if LabelParts(a) == LabelParts(b) {
      SamePartsSameMap(a, b);
    }
    if LabelMap(a) == LabelMap(b) {
      SameMapSameParts(a, b);
    }
  }

  lemma SamePartsSameMap(a: seq<(string, Scalar)>, b: seq<(string, Scalar)>)
    requires PlainLabels(a) && PlainLabels(b) && LabelParts(a) == LabelParts(b)
    ensures LabelMap(a) == LabelMap(b)
  {
    var ka, kb := Sort(Keys(a)), Sort(Keys(b));
    forall i | 0 <= i < |ka| ensures ka[i] == kb[i] && ScalarText(Lookup(a, ka[i])) == ScalarText(Lookup(b, kb[i])) {
      assert ka[i] in ka && kb[i] in kb;
      assert LabelParts(a)[i] == LabelParts(b)[i];
      FirstCut(ka[i], ScalarText(Lookup(a, ka[i])), kb[i], ScalarText(Lookup(b, kb[i])), '=');
    }
    assert ka == kb;
    forall k | k in LabelMap(a) ensures LabelMap(a)[k] == LabelMap(b)[k] {
      assert k in ka;
    }
  }

  lemma SameMapSameParts(a: seq<(string, Scalar)>, b: seq<(string, Scalar)>)
    requires Unique(Keys(a)) && Unique(Keys(b)) && LabelMap(a) == LabelMap(b)
    ensures LabelParts(a) == LabelParts(b)
  {
    var ka, kb := Sort(Keys(a)), Sort(Keys(b));
    assert forall k :: k in Keys(a) <==> k in LabelMap(a);
    assert forall k :: k in Keys(b) <==> k in LabelMap(b);
    SortForgetsOrder(Keys(a), Keys(b));
    forall i | 0 <= i < |ka| ensures LabelParts(a)[i] == LabelParts(b)[i] {
      assert ka[i] in ka;
      assert LabelMap(a)[ka[i]] == LabelMap(b)[ka[i]];
    }
  }

  lemma ReductionsDiffer(r: Reduction, q: Reduction)
    ensures ReductionName(r) == ReductionName(q) <==> r == q
    ensures Free(ReductionName(r), '|') && Free(ReductionName(r), '=') && ReductionName(r) != "dur"
  {
    assert "p50"[1] != "p99"[1] && "mean"[0] != "rate"[0];
  }

  /** For plain subjects two ids are equal exactly when name, key, label map and reduction are:
      the order of the labels never matters and nothing else is lost. Each clause of `Plain` is
      needed, as the collisions below show; a bar in a key, or an equals sign in a name or a
      label's value, does no harm. */
  lemma IdDetermines(s: Subject, t: Subject)
    requires Plain(s) && Plain(t) && UniqueKeys(s) && UniqueKeys(t)
    ensures MetricId(s) == MetricId(t) <==>
            s.name == t.name && s.key == t.key && LabelMap(s.labels) == LabelMap(t.labels) && s.reduction == t.reduction
  {
    PlainParts(s);
    PlainParts(t);
    PartsDetermineMap(s.labels, t.labels);
    ReductionsDiffer(s.reduction, t.reduction);
    ReductionsDiffer(t.reduction, s.reduction);
    if MetricId(s) == MetricId(t) {
      AssembleIsInjective(s.name, s.key, LabelParts(s.labels), ReductionName(s.reduction),
                          t.name, t.key, LabelParts(t.labels), ReductionName(t.reduction));
    }
  }

  lemma AssembleIsInjective(m: string, k: Option<string>, ps: seq<string>, r: string,
                            n: string, j: Option<string>, qs: seq<string>, q: string)
    requires Free(m, '|') && Free(n, '|') && LabelShaped(ps) && LabelShaped(qs)
    requires Free(r, '|') && Free(r, '=') && Free(q, '|') && Free(q, '=')
    requires k.Some? ==> Free(k.value, '=')
    requires j.Some? ==> Free(j.value, '=')
    requires Assemble(m, k, ps, r) == Assemble(n, j, qs, q)
    ensures m == n && k == j && ps == qs && r == q
  {
    AssembledFromPieces(m, k, ps, r);
    AssembledFromPieces(n, j, qs, q);
    PartsOfId(k, ps, r);
    PartsOfId(j, qs, q);
    BarredIsInjective(m, PieceParts(k) + ps + [r], n, PieceParts(j) + qs + [q]);
    SplitParts(PieceParts(k), ps, r, PieceParts(j), qs, q);
    SamePieces(k, j);
  }

  lemma PartsOfId(key: Option<string>, ps: seq<string>, r: string)
    requires (key.Some? ==> Free(key.value, '=')) && LabelShaped(ps) && Free(r, '|')
    ensures BarFree(PieceParts(key) + ps + [r]) && KeyShaped(PieceParts(key))
  {
    if key.Some? {
      PiecesOf(key.value);
    }
    assert BarFree(PieceParts(key)) && BarFree(ps);
  }

  ghost predicate KeyShaped(parts: seq<string>)
  {
    forall i :: 0 <= i < |parts| ==> Free(parts[i], '=')
  }

  /** The parts of a key hold no equals sign and every label part does, so the list splits one
      way. */
  lemma SplitParts(ks: seq<string>, ps: seq<string>, r: string, js: seq<string>, qs: seq<string>, q: string)
    requires ks + ps + [r] == js + qs + [q]
    requires KeyShaped(ks) && KeyShaped(js) && LabelShaped(ps) && LabelShaped(qs)
    ensures ks == js && ps == qs && r == q
  {
    var all, same := ks + ps + [r], js + qs + [q];
    assert all[|all| - 1] == r && same[|same| - 1] == q;
    assert all[..|all| - 1] == ks + ps && same[..|same| - 1] == js + qs;
    SplitShapes(ks, ps, js, qs);
  }

  lemma SplitShapes(ks: seq<string>, ps: seq<string>, js: seq<string>, qs: seq<string>)
    requires ks + ps == js + qs
    requires KeyShaped(ks) && KeyShaped(js) && LabelShaped(ps) && LabelShaped(qs)
    ensures ks == js && ps == qs
  {
    KeysEnd(ks, ps, js, qs);
    KeysEnd(js, qs, ks, ps);
    assert ks == (ks + ps)[..|ks|] && js == (js + qs)[..|js|];
    assert ps == (ks + ps)[|ks|..] && qs == (js + qs)[|js|..];
  }

  lemma KeysEnd(ks: seq<string>, ps: seq<string>, js: seq<string>, qs: seq<string>)
    requires ks + ps == js + qs && LabelShaped(ps) && KeyShaped(js)
    ensures |js| <= |ks|
  {
    var whole := ks + ps;
    assert forall i :: 0 <= i < |js| ==> Free(whole[i], '=') by {
      assert whole == js + qs;
    }
    assert forall i :: |ks| <= i < |whole| ==> !Free(whole[i], '=');
    assert |ks| < |whole| ==> !Free(whole[|ks|], '=');
  }

  /** A span's duration id never meets the id of a series metric. */
  lemma SpansKeepApart(span: string, s: Subject)
    ensures "span:" + span + "|dur" != MetricId(s)
  {
    ReductionsDiffer(s.reduction, s.reduction);
    DurationsDiffer("span:" + span, s.name, s.key, LabelParts(s.labels), ReductionName(s.reduction));
  }

  lemma DurationsDiffer(span: string, name: string, key: Option<string>, parts: seq<string>, reduction: string)
    requires Free(reduction, '|') && reduction != "dur"
    ensures span + "|dur" != Assemble(name, key, parts, reduction)
  {
    EndsWithReduction(name, KeyParts(key) + parts, reduction);
    assert span + "|dur" == span + "|" + "dur";
    if span + "|dur" == Assemble(name, key, parts, reduction) {
      LastCut(span, "dur", name + Barred(KeyParts(key) + parts), reduction, '|');
    }
  }

  // ---- every clause of the condition is needed ------------------------------------------------------

  /** A bar in a name collides with a key, whatever the labels. */
  lemma NameBarCollides(a: string, b: string, labels: seq<(string, Scalar)>, r: Reduction)
    ensures MetricId(Subject(a + "|" + b, None, labels, r)) == MetricId(Subject(a, Some(b), labels, r))
  {
    PushedInOrder(a + "|" + b, None, LabelParts(labels), ReductionName(r));
    PushedInOrder(a, Some(b), LabelParts(labels), ReductionName(r));
  }

  /** An equals sign in a key collides with a label. */
  lemma KeyEqualsCollides(name: string, k: string, v: string, r: Reduction)
    ensures MetricId(Subject(name, Some(k + "=" + v), [], r)) == MetricId(Subject(name, None, [(k, Text(v))], r))
  {
    NoLabels();
    OneLabel(k, Text(v));
    assert [k + "=" + v] + [] == [] + [k + "=" + v];
  }

  /** A bar in a label's key collides with a key. */
  lemma LabelKeyBarCollides(name: string, b: string, k: string, v: string, r: Reduction)
    ensures MetricId(Subject(name, None, [(b + "|" + k, Text(v))], r))
         == MetricId(Subject(name, Some(b), [(k, Text(v))], r))
  {
    OneLabel(b + "|" + k, Text(v));
    OneLabel(k, Text(v));
    var part := k + "=" + v;
    BarredOne(b + "|" + k + "=" + v);
    BarredOne(part);
    PushedInOrder(name, None, [b + "|" + k + "=" + v], ReductionName(r));
    PushedInOrder(name, Some(b), [part], ReductionName(r));
    assert b + "|" + k + "=" + v == b + "|" + part;
    BarTwice(name, b, part);
  }

  lemma BarTwice(a: string, b: string, c: string)
    ensures a + ("|" + (b + "|" + c)) == a + "|" + b + ("|" + c)
  {
    Associates(b, "|", c);
    Associates("|", b, "|" + c);
    Associates(a, "|" + b, "|" + c);
    Associates(a, "|", b);
  }

  /** An equals sign in a label's key collides with one in another label's value. */
  lemma LabelKeyEqualsCollides(name: string, key: Option<string>, a: string, b: string, c: string, r: Reduction)
    ensures MetricId(Subject(name, key, [(a + "=" + b, Text(c))], r))
         == MetricId(Subject(name, key, [(a, Text(b + "=" + c))], r))
  {
    OneLabel(a + "=" + b, Text(c));
    OneLabel(a, Text(b + "=" + c));
    assert a + "=" + b + "=" + c == a + "=" + (b + "=" + c);
  }

  /** A bar in a label's value collides with a further label. */
  lemma ValueBarCollides(name: string, key: Option<string>, k: string, v: string, j: string, w: string, r: Reduction)
    requires Before(k, j)
    ensures MetricId(Subject(name, key, [(k, Text(v + "|" + j + "=" + w))], r))
         == MetricId(Subject(name, key, [(k, Text(v)), (j, Text(w))], r))
  {
    var long := v + "|" + j + "=" + w;
    OneLabel(k, Text(long));
    TwoLabels(k, v, j, w);
    LongValue(k, v, j, w);
    SameBarred(name, key, [k + "=" + long], [k + "=" + v, j + "=" + w], ReductionName(r));
  }

  lemma LongValue(k: string, v: string, j: string, w: string)
    ensures Barred([k + "=" + (v + "|" + j + "=" + w)]) == Barred([k + "=" + v, j + "=" + w])
  {
    BarredOne(k + "=" + (v + "|" + j + "=" + w));
    BarredTwo(k + "=" + v, j + "=" + w);
    assert k + "=" + (v + "|" + j + "=" + w) == k + "=" + v + "|" + (j + "=" + w);
    Associates("|", k + "=" + v, "|" + (j + "=" + w));
    Associates(k + "=" + v, "|", j + "=" + w);
    Associates("|" + (k + "=" + v), "|", j + "=" + w);
  }

  lemma SameBarred(name: string, key: Option<string>, ps: seq<string>, qs: seq<string>, r: string)
    requires Barred(ps) == Barred(qs)
    ensures Assemble(name, key, ps, r) == Assemble(name, key, qs, r)
  {
    PushedInOrder(name, key, ps, r);
    PushedInOrder(name, key, qs, r);
  }

  /** A label value that is a number joins with the string that spells it. */
  lemma NumbersJoinTheirText(name: string, k: string, n: int, r: Reduction)
    ensures MetricId(Subject(name, None, [(k, Number(n))], r))
         == MetricId(Subject(name, None, [(k, Text(ScalarText(Number(n))))], r))
  {
    OneLabel(k, Number(n));
    OneLabel(k, Text(ScalarText(Number(n))));
  }

  /** And so does a flag. */
  lemma FlagsJoinTheirText(name: string, k: string, b: bool, r: Reduction)
    ensures MetricId(Subject(name, None, [(k, Flag(b))], r))
         == MetricId(Subject(name, None, [(k, Text(if b then "true" else "false"))], r))
  {
    OneLabel(k, Flag(b));
    OneLabel(k, Text(if b then "true" else "false"));
  }

  lemma BarredTwo(p: string, q: string)
    ensures Barred([p, q]) == "|" + p + "|" + q
  {
    BarredConcat([p], [q]);
    BarredOne(p);
    BarredOne(q);
    assert [p] + [q] == [p, q];
    Associates("|" + p, "|", q);
  }

  lemma NoLabels()
    ensures LabelParts([]) == []
  {
    assert Keys<Scalar>([]) == [];
  }

  lemma OneLabel(k: string, v: Scalar)
    ensures LabelParts([(k, v)]) == [k + "=" + ScalarText(v)]
  {
    var labels := [(k, v)];
    assert Keys(labels) == [k];
    assert Sort([k]) == [k] by { assert [k][1..] == []; }
    assert Parts(labels, [k])[0] == k + "=" + ScalarText(Lookup(labels, k));
  }

  lemma TwoLabels(k: string, v: string, j: string, w: string)
    requires Before(k, j)
    ensures LabelParts([(k, Text(v)), (j, Text(w))]) == [k + "=" + v, j + "=" + w]
  {
    var labels := [(k, Text(v)), (j, Text(w))];
    BeforeIrreflexive(k);
    assert Keys(labels) == [k, j];
    assert Sort([k, j]) == [k, j] by {
      assert [k, j][1..] == [j] && [j][1..] == [];
      assert Sort([j]) == [j];
    }
    assert labels[1..] == [(j, Text(w))];
    assert Lookup(labels, k) == Text(v);
    assert Lookup(labels[1..], j) == Text(w);
    assert Lookup(labels, j) == Text(w);
    var parts := Parts(labels, [k, j]);
    assert parts[0] == k + "=" + v && parts[1] == j + "=" + w;
  }
}
