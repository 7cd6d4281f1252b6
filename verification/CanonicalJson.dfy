/** The canonical JSON text behind `params_hash`, and why two values share it exactly when
    they differ only in the order of object keys. */
module CanonicalJson {
  import opened Decimal
  import opened Strings

  /** A JSON value; an object keeps its members in insertion order. */
  datatype Json =
    | Null
    | Bool(b: bool)
    | Num(n: int)
    | Str(s: string)
    | Arr(items: seq<Json>)
    | Obj(members: seq<(string, Json)>)

  /** An object has each key once, at every depth. */
  ghost predicate WellFormed(v: Json)
  {
    match v
    case Arr(items) => forall i :: 0 <= i < |items| ==> WellFormed(items[i])
    case Obj(members) =>
      Unique(Keys(members)) && forall i :: 0 <= i < |members| ==> WellFormed(members[i].1)
    case _ => true
  }

  function IndexOfKey(members: seq<(string, Json)>, k: string): (i: nat)
    requires k in Keys(members)
    ensures i < |members| && members[i].0 == k
  {
    if members[0].0 == k then 0
    else
      assert k in Keys(members[1..]) by {
        var j :| 0 <= j < |members| && Keys(members)[j] == k;
        assert Keys(members[1..])[j - 1] == k;
      }
      1 + IndexOfKey(members[1..], k)
  }

  // ---- the text -------------------------------------------------------------------------

  /** One character inside a JSON string, escaped as the serialiser does. */
  function Escape(c: char): (s: string)
    ensures s != [] && s[0] != '"'
  {
    if c == '"' then "\\\""
    else if c == '\\' then "\\\\"
    else if c as int == 8 then "\\b"
    else if c as int == 9 then "\\t"
    else if c as int == 10 then "\\n"
    else if c as int == 12 then "\\f"
    else if c as int == 13 then "\\r"
    else if c as int < 32 then "\\u00" + [HexDigit(c as int / 16), HexDigit(c as int % 16)]
    else [c]
  }

  /** The rest of a string literal, closing quote included. */
  function QuoteRest(s: string): string
  {
    if s == [] then "\"" else Escape(s[0]) + QuoteRest(s[1..])
  }

  function Quote(s: string): string
  {
    "\"" + QuoteRest(s)
  }

  /** `canonical_json`: compact, with object keys in sorted order. */
  function Text(v: Json): string
    decreases v, 1, 0
  {
    match v
    case Null => "null"
    case Bool(b) => if b then "true" else "false"
    case Num(n) => IntText(n)
    case Str(s) => Quote(s)
    case Arr(items) => "[" + ItemsText(v, 0)
    case Obj(members) => "{" + MembersText(v, Sort(Keys(members)), true)
  }

  /** The items from the `i`-th on, with their separating commas and the closing bracket. */
  function ItemsText(v: Json, i: nat): string
    requires v.Arr? && i <= |v.items|
    decreases v, 0, |v.items| - i
  {
    if i == |v.items| then "]"
    else (if i == 0 then "" else ",") + Text(v.items[i]) + ItemsText(v, i + 1)
  }

  /** The members with the given keys, with their separating commas and the closing brace. */
  function MembersText(v: Json, keys: seq<string>, first: bool): string
    requires v.Obj? && forall i :: 0 <= i < |keys| ==> keys[i] in Keys(v.members)
    decreases v, 0, |keys|
  {
    if keys == [] then "}"
    else
      var value := v.members[IndexOfKey(v.members, keys[0])].1;
      (if first then "" else ",") + Quote(keys[0]) + ":" + Text(value) + MembersText(v, keys[1..], false)
  }

  // ---- equality up to key order -----------------------------------------------------------

  /** The same value, but for the order of object keys at any depth. */
  ghost predicate Same(v: Json, w: Json)
    decreases v
  {
    match v
    case Arr(items) =>
      w.Arr? && |items| == |w.items| && forall i :: 0 <= i < |items| ==> Same(items[i], w.items[i])
    case Obj(members) =>
      && w.Obj?
      && (forall k :: k in Keys(members) <==> k in Keys(w.members))
      && forall i, j :: 0 <= i < |members| && 0 <= j < |w.members| && members[i].0 == w.members[j].0
           ==> Same(members[i].1, w.members[j].1)
    case _ => v == w
  }

  // ---- unique reading -----------------------------------------------------------------------

  /** What may follow a complete value: nothing, or a comma or closing bracket. */
  predicate Delimited(x: string)
  {
    x == [] || x[0] in ",]}"
  }

  /** How many digits `s` starts with. */
  function RunLength(s: string): nat
  {
    if s == [] || !IsDigit(s[0]) then 0 else 1 + RunLength(s[1..])
  }

  lemma {:induction false} RunLengthOf(a: string, x: string)
    requires AllDigits(a) && (x == [] || !IsDigit(x[0]))
    ensures RunLength(a + x) == |a|
  {
    if a == [] {
      assert a + x == x;
    } else {
      assert (a + x)[1..] == a[1..] + x;
      RunLengthOf(a[1..], x);
    }
  }

  lemma DigitRunUnique(a: string, b: string, x: string, y: string)
    requires AllDigits(a) && AllDigits(b) && (x == [] || !IsDigit(x[0])) && (y == [] || !IsDigit(y[0]))
    requires a + x == b + y
    ensures a == b && x == y
  {
    RunLengthOf(a, x);
    RunLengthOf(b, y);
    assert (a + x)[..|a|] == a && (b + y)[..|a|] == b;
    assert (a + x)[|a|..] == x && (b + y)[|a|..] == y;
  }

  lemma IntUnique(m: int, n: int, x: string, y: string)
    requires IntText(m) + x == IntText(n) + y && Delimited(x) && Delimited(y)
    ensures m == n && x == y
  {
    var a, b := IntText(m), IntText(n);
    assert (a + x)[0] == a[0] && (b + y)[0] == b[0];
    var da, db := if m < 0 then Render(-m) else Render(m), if n < 0 then Render(-n) else Render(n);
    assert IsDigit(da[0]) && IsDigit(db[0]);
    assert m < 0 <==> n < 0;
    if m < 0 {
      assert (a + x)[1..] == da + x && (b + y)[1..] == db + y;
    }
    assert da + x == db + y;
    DigitRunUnique(da, db, x, y);
    RenderInjective(if m < 0 then -m else m, if n < 0 then -n else n);
  }

  lemma EscapeUnique(c: char, d: char, x: string, y: string)
    requires Escape(c) + x == Escape(d) + y
    ensures c == d && x == y
  {
    var a, b := Escape(c), Escape(d);
    assert (a + x)[0] == a[0] && (b + y)[0] == b[0];
    if a[0] == '\\' {
      assert (a + x)[1] == a[1] && (b + y)[1] == b[1];
      if a[1] == 'u' {
        assert (a + x)[4] == a[4] && (b + y)[4] == b[4];
        assert (a + x)[5] == a[5] && (b + y)[5] == b[5];
      }
    }
    assert c == d;
    assert (a + x)[|a|..] == x && (b + y)[|a|..] == y;
  }

  lemma Regroup(a: string, b: string, x: string)
    ensures (a + b) + x == a + (b + x)
  {}

  lemma QuoteRestFirst(s: string, x: string)
    ensures QuoteRest(s) != [] && ((QuoteRest(s) + x)[0] == '"' <==> s == [])
    ensures s == [] ==> (QuoteRest(s) + x)[1..] == x
    ensures s != [] ==> QuoteRest(s) + x == Escape(s[0]) + (QuoteRest(s[1..]) + x)
  {
    if s != [] {
      Regroup(Escape(s[0]), QuoteRest(s[1..]), x);
    }
  }

  lemma {:induction false} QuoteRestUnique(s: string, t: string, x: string, y: string)
    requires QuoteRest(s) + x == QuoteRest(t) + y
    ensures s == t && x == y
  {
    QuoteRestFirst(s, x);
    QuoteRestFirst(t, y);
    if s != [] {
      EscapeUnique(s[0], t[0], QuoteRest(s[1..]) + x, QuoteRest(t[1..]) + y);
      QuoteRestUnique(s[1..], t[1..], x, y);
      assert s == [s[0]] + s[1..] && t == [t[0]] + t[1..];
    }
  }

  lemma QuoteUnique(s: string, t: string, x: string, y: string)
    requires Quote(s) + x == Quote(t) + y
    ensures s == t && x == y
  {
    QuoteTail(s, x);
    QuoteTail(t, y);
    QuoteRestUnique(s, t, x, y);
  }

  lemma QuoteTail(s: string, x: string)
    ensures (Quote(s) + x)[1..] == QuoteRest(s) + x
  {
  }

  /** The first character tells the kind of value. */
  function Lead(v: Json): char
  {
    match v
    case Null => 'n'
    case Bool(b) => if b then 't' else 'f'
    case Num(n) => IntText(n)[0]
    case Str(_) => '"'
    case Arr(_) => '['
    case Obj(_) => '{'
  }

  lemma LeadIsFirst(v: Json, x: string)
    ensures Text(v) != [] && (Text(v) + x)[0] == Lead(v)
  {}

  lemma CutFront(sep: string, s: string, t: string)
    requires sep + s == sep + t
    ensures s == t
  {
    assert (sep + s)[|sep|..] == s && (sep + t)[|sep|..] == t;
  }

  predicate StartsWith(s: string, c: char)
  {
    s != [] && s[0] == c
  }

  lemma ItemsDelimit(v: Json, i: nat, x: string)
    requires v.Arr? && 0 < i <= |v.items|
    ensures Delimited(ItemsText(v, i) + x)
  {}

  lemma MembersDelimit(v: Json, keys: seq<string>, x: string)
    requires KeysOf(v, keys)
    ensures Delimited(MembersText(v, keys, false) + x)
  {}

  lemma LeadTellsKind(v: Json, w: Json)
    requires Lead(v) == Lead(w)
    ensures v.Null? == w.Null? && v.Num? == w.Num? && v.Str? == w.Str? && v.Arr? == w.Arr? && v.Obj? == w.Obj?
    ensures v.Bool? == w.Bool? && (v.Bool? ==> v == w)
  {}

  /** A text is read in only one way: whatever follows, the value in front and the rest
      are determined, up to key order. */
  lemma {:induction false} ReadOnce(v: Json, w: Json, x: string, y: string)
    requires WellFormed(v) && WellFormed(w) && Delimited(x) && Delimited(y)
    requires Text(v) + x == Text(w) + y
    ensures Same(v, w) && x == y
    decreases v, 1, 0
  {
    LeadIsFirst(v, x);
    LeadIsFirst(w, y);
    LeadTellsKind(v, w);
    match v {
      case Null => CutFront("null", x, y);
      case Bool(b) => CutFront(Text(v), x, y);
      case Num(n) => IntUnique(n, w.n, x, y);
      case Str(s) => QuoteUnique(s, w.s, x, y);
      case Arr(items) => ArrReadOnce(v, w, x, y);
      case Obj(members) => ObjReadOnce(v, w, x, y);
    }
  }

  lemma {:induction false} ArrReadOnce(v: Json, w: Json, x: string, y: string)
    requires v.Arr? && w.Arr? && WellFormed(v) && WellFormed(w)
    requires Text(v) + x == Text(w) + y
    ensures Same(v, w) && x == y
    decreases v, 0, |v.items| + 1
  {
    Regroup("[", ItemsText(v, 0), x);
    Regroup("[", ItemsText(w, 0), y);
    CutFront("[", ItemsText(v, 0) + x, ItemsText(w, 0) + y);
    ItemsReadOnce(v, w, 0, x, y);
  }

  lemma {:induction false} ObjReadOnce(v: Json, w: Json, x: string, y: string)
    requires v.Obj? && w.Obj? && WellFormed(v) && WellFormed(w)
    requires Text(v) + x == Text(w) + y
    ensures Same(v, w) && x == y
    decreases v, 0, |v.members| + 1
  {
    var ks, ls := Sort(Keys(v.members)), Sort(Keys(w.members));
    Regroup("{", MembersText(v, ks, true), x);
    Regroup("{", MembersText(w, ls, true), y);
    CutFront("{", MembersText(v, ks, true) + x, MembersText(w, ls, true) + y);
    MembersReadOnce(v, w, ks, ls, true, x, y);
    SameMembers(v, w, ks);
  }

  function Sep(first: bool): string
  {
    if first then "" else ","
  }

  lemma {:induction false} ItemsReadOnce(v: Json, w: Json, i: nat, x: string, y: string)
    requires v.Arr? && w.Arr? && WellFormed(v) && WellFormed(w) && i <= |v.items| && i <= |w.items|
    requires ItemsText(v, i) + x == ItemsText(w, i) + y
    ensures |v.items| == |w.items| && x == y
    ensures forall k :: i <= k < |v.items| ==> Same(v.items[k], w.items[k])
    decreases v, 0, |v.items| - i
  {
    ItemsStep(v, i, x);
    ItemsStep(w, i, y);
    if i < |v.items| {
      assert i < |w.items|;
      ItemReadOnce(v, w, i, x, y);
      ItemsReadOnce(v, w, i + 1, x, y);
    } else {
      CutFront("]", x, y);
    }
  }

  lemma {:induction false} ItemReadOnce(v: Json, w: Json, i: nat, x: string, y: string)
    requires v.Arr? && w.Arr? && WellFormed(v) && WellFormed(w) && i < |v.items| && i < |w.items|
    requires ItemsText(v, i) + x == ItemsText(w, i) + y
    ensures Same(v.items[i], w.items[i])
    ensures ItemsText(v, i + 1) + x == ItemsText(w, i + 1) + y
    decreases v, 0, 0
  {
    ItemsStep(v, i, x);
    ItemsStep(w, i, y);
    var restV, restW := ItemsText(v, i + 1) + x, ItemsText(w, i + 1) + y;
    CutFront(Sep(i == 0), Text(v.items[i]) + restV, Text(w.items[i]) + restW);
    ItemsDelimit(v, i + 1, x);
    ItemsDelimit(w, i + 1, y);
    ReadOnce(v.items[i], w.items[i], restV, restW);
  }

  /** The next item, or the closing bracket, and which of the two it is. */
  lemma ItemsStep(v: Json, i: nat, x: string)
    requires v.Arr? && i <= |v.items|
    ensures StartsWith(ItemsText(v, i) + x, ']') <==> i == |v.items|
    ensures i < |v.items| ==> ItemsText(v, i) + x == Sep(i == 0) + (Text(v.items[i]) + (ItemsText(v, i + 1) + x))
  {
    if i < |v.items| {
      var t, rest := Text(v.items[i]), ItemsText(v, i + 1);
      assert ItemsText(v, i) == (Sep(i == 0) + t) + rest;
      Regroup(Sep(i == 0) + t, rest, x);
      Regroup(Sep(i == 0), t, rest + x);
      LeadIsFirst(v.items[i], rest + x);
      assert i == 0 ==> "" + (t + (rest + x)) == t + (rest + x);
    }
  }

  ghost predicate KeysOf(v: Json, keys: seq<string>)
  {
    v.Obj? && forall i :: 0 <= i < |keys| ==> keys[i] in Keys(v.members)
  }

  function ValueAt(v: Json, k: string): Json
    requires v.Obj? && k in Keys(v.members)
  {
    v.members[IndexOfKey(v.members, k)].1
  }

  lemma {:induction false} MembersReadOnce(v: Json, w: Json, ks: seq<string>, ls: seq<string>, first: bool,
                                           x: string, y: string)
    requires KeysOf(v, ks) && KeysOf(w, ls) && WellFormed(v) && WellFormed(w)
    requires MembersText(v, ks, first) + x == MembersText(w, ls, first) + y
    ensures ks == ls && x == y
    ensures forall i :: 0 <= i < |ks| ==> Same(ValueAt(v, ks[i]), ValueAt(w, ks[i]))
    decreases v, 0, |ks|
  {
    hide Text, Quote, Same, Sort;
    MembersStep(v, ks, first, x);
    MembersStep(w, ls, first, y);
    if ks != [] {
      assert ls != [];
      MemberReadOnce(v, w, ks, ls, first, x, y);
      MembersReadOnce(v, w, ks[1..], ls[1..], false, x, y);
      assert ks == [ks[0]] + ks[1..] && ls == [ls[0]] + ls[1..];
    } else {
      CutFront("}", x, y);
    }
  }

  lemma {:induction false} MemberReadOnce(v: Json, w: Json, ks: seq<string>, ls: seq<string>, first: bool,
                                          x: string, y: string)
    requires ks != [] && ls != [] && KeysOf(v, ks) && KeysOf(w, ls) && WellFormed(v) && WellFormed(w)
    requires MembersText(v, ks, first) + x == MembersText(w, ls, first) + y
    ensures ks[0] == ls[0] && Same(ValueAt(v, ks[0]), ValueAt(w, ks[0]))
    ensures MembersText(v, ks[1..], false) + x == MembersText(w, ls[1..], false) + y
    decreases v, 0, 0
  {
    MembersStep(v, ks, first, x);
    MembersStep(w, ls, first, y);
    var restV, restW := MembersText(v, ks[1..], false) + x, MembersText(w, ls[1..], false) + y;
    var textV, textW := Text(ValueAt(v, ks[0])) + restV, Text(ValueAt(w, ls[0])) + restW;
    CutFront(Sep(first), Quote(ks[0]) + (":" + textV), Quote(ls[0]) + (":" + textW));
    QuoteUnique(ks[0], ls[0], ":" + textV, ":" + textW);
    CutFront(":", textV, textW);
    MembersDelimit(v, ks[1..], x);
    MembersDelimit(w, ls[1..], y);
    ReadOnce(ValueAt(v, ks[0]), ValueAt(w, ls[0]), restV, restW);
  }

  /** The next member, or the closing brace, and which of the two it is. */
  lemma MembersStep(v: Json, ks: seq<string>, first: bool, x: string)
    requires KeysOf(v, ks)
    ensures StartsWith(MembersText(v, ks, first) + x, '}') <==> ks == []
    ensures ks != [] ==> MembersText(v, ks, first) + x == MemberThen(v, ks, first, x)
  {
    if ks != [] {
      var sep, key, value, rest := Sep(first), Quote(ks[0]), Text(ValueAt(v, ks[0])), MembersText(v, ks[1..], false);
      assert MembersText(v, ks, first) == (((sep + key) + ":") + value) + rest;
      Regroup(((sep + key) + ":") + value, rest, x);
      Regroup((sep + key) + ":", value, rest + x);
      Regroup(sep + key, ":", value + (rest + x));
      Regroup(sep, key, ":" + (value + (rest + x)));
      assert first ==> "" + (key + (":" + (value + (rest + x)))) == key + (":" + (value + (rest + x)));
    }
  }

  function MemberThen(v: Json, ks: seq<string>, first: bool, x: string): string
    requires v.Obj? && ks != [] && forall i :: 0 <= i < |ks| ==> ks[i] in Keys(v.members)
  {
    Sep(first) + (Quote(ks[0]) + (":" + (Text(ValueAt(v, ks[0])) + (MembersText(v, ks[1..], false) + x))))
  }

  lemma OnePlace(members: seq<(string, Json)>, i: nat, j: nat)
    requires Unique(Keys(members)) && i < |members| && j < |members| && members[i].0 == members[j].0
    ensures i == j
  {
    var ks := Keys(members);
    assert ks[i] == ks[j];
  }

  /** A key leads to the member that carries it. */
  lemma ValueAtMember(v: Json, i: nat)
    requires v.Obj? && WellFormed(v) && i < |v.members|
    ensures v.members[i].0 in Keys(v.members) && ValueAt(v, v.members[i].0) == v.members[i].1
  {
    assert Keys(v.members)[i] == v.members[i].0;
    OnePlace(v.members, i, IndexOfKey(v.members, v.members[i].0));
  }

  lemma SameMembers(v: Json, w: Json, ks: seq<string>)
    requires v.Obj? && w.Obj? && WellFormed(v) && WellFormed(w)
    requires ks == Sort(Keys(v.members)) == Sort(Keys(w.members))
    requires forall i :: 0 <= i < |ks| ==> Same(ValueAt(v, ks[i]), ValueAt(w, ks[i]))
    ensures Same(v, w)
  {
    SortForgetsOrder(Keys(v.members), Keys(w.members));
    forall i, j | 0 <= i < |v.members| && 0 <= j < |w.members| && v.members[i].0 == w.members[j].0
      ensures Same(v.members[i].1, w.members[j].1)
    {
      ValueAtMember(v, i);
      ValueAtMember(w, j);
      var k :| 0 <= k < |ks| && ks[k] == v.members[i].0;
    }
  }

  // ---- the other direction --------------------------------------------------------------------

  lemma {:induction false} SameText(v: Json, w: Json)
    requires WellFormed(v) && WellFormed(w) && Same(v, w)
    ensures Text(v) == Text(w)
    decreases v, 1, 0
  {
    match v {
      case Arr(items) => SameItemsText(v, w, 0);
      case Obj(members) =>
        SortForgetsOrder(Keys(members), Keys(w.members));
        SameMembersText(v, w, Sort(Keys(members)), true);
      case _ =>
    }
  }

  lemma {:induction false} SameItemsText(v: Json, w: Json, i: nat)
    requires v.Arr? && WellFormed(v) && WellFormed(w) && Same(v, w) && i <= |v.items|
    ensures ItemsText(v, i) == ItemsText(w, i)
    decreases v, 0, |v.items| - i
  {
    if i < |v.items| {
      SameText(v.items[i], w.items[i]);
      SameItemsText(v, w, i + 1);
    }
  }

  lemma {:induction false} SameMembersText(v: Json, w: Json, ks: seq<string>, first: bool)
    requires v.Obj? && WellFormed(v) && WellFormed(w) && Same(v, w)
    requires KeysOf(v, ks) && KeysOf(w, ks)
    ensures MembersText(v, ks, first) == MembersText(w, ks, first)
    decreases v, 0, |ks|
  {
    if ks != [] {
      SameText(ValueAt(v, ks[0]), ValueAt(w, ks[0]));
      SameMembersText(v, w, ks[1..], false);
    }
  }

  // ---- the law --------------------------------------------------------------------------------

  /** Two values have the same canonical text exactly when they are equal up to the order
      of object keys, at every depth. */
  lemma CanonicalTextIsUnique(v: Json, w: Json)
    requires WellFormed(v) && WellFormed(w)
    ensures Text(v) == Text(w) <==> Same(v, w)
  {
    if Same(v, w) {
      SameText(v, w);
    }
    if Text(v) == Text(w) {
      ReadOnce(v, w, "", "");
    }
  }

  function ParamsHash(sha256: string -> string, params: Json): string
  {
    sha256(Text(params))
  }

  /** `params_hash` merges two cells exactly when they are the same up to key order, or their
      own two different texts collide under the digest. */
  lemma HashMergesOnlyOnCollision(sha256: string -> string, v: Json, w: Json)
    requires WellFormed(v) && WellFormed(w)
    ensures ParamsHash(sha256, v) == ParamsHash(sha256, w)
       <==> Same(v, w) || (Text(v) != Text(w) && sha256(Text(v)) == sha256(Text(w)))
  {
    CanonicalTextIsUnique(v, w);
  }
}
