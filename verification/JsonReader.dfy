/** A reader of JSON by the grammar of RFC 8259 (integers, no white space), and that it reads
    canonical text back. */
module JsonReader {
  import opened CanonicalJson
  import opened Decimal
  import opened Options
  import opened Strings

  // ---- the grammar ---------------------------------------------------------------------------

  /** What has been read, and the text after it. */
  datatype Reading<T> = Reading(value: T, rest: string)

  /** RFC 8259, section 7: the characters that may follow a backslash, other than `u`. */
  function Unescaped(c: char): Option<char>
  {
    if c == '"' || c == '\\' || c == '/' then Some(c)
    else if c == 'b' then Some(8 as char)
    else if c == 'f' then Some(12 as char)
    else if c == 'n' then Some(10 as char)
    else if c == 'r' then Some(13 as char)
    else if c == 't' then Some(9 as char)
    else None
  }

  function HexValue(c: char): (v: Option<nat>)
    ensures v.Some? ==> v.value < 16
  {
    if '0' <= c <= '9' then Some((c as int) - ('0' as int))
    else if 'a' <= c <= 'f' then Some((c as int) - ('a' as int) + 10)
    else if 'A' <= c <= 'F' then Some((c as int) - ('A' as int) + 10)
    else None
  }

  /** Four hexadecimal digits; halves of a surrogate pair are not read. */
  function Hex4(t: string): Option<char>
    requires |t| == 4
  {
    var a, b, c, d := HexValue(t[0]), HexValue(t[1]), HexValue(t[2]), HexValue(t[3]);
    if a.None? || b.None? || c.None? || d.None? then None
    else
      var code := a.value * 4096 + b.value * 256 + c.value * 16 + d.value;
      if 0xD800 <= code < 0xE000 then None else Some(code as char)
  }

  /** One character of a string literal. */
  function ReadChar(t: string): (r: Option<Reading<char>>)
    ensures r.Some? ==> |r.value.rest| < |t|
  {
    if t == [] || t[0] == '"' || t[0] as int < 32 then None
    else if t[0] != '\\' then Some(Reading(t[0], t[1..]))
    else if |t| < 2 then None
    else if t[1] != 'u' then
      match Unescaped(t[1])
      case Some(c) => Some(Reading(c, t[2..]))
      case None => None
    else if |t| < 6 then None
    else
      match Hex4(t[2..6])
      case Some(c) => Some(Reading(c, t[6..]))
      case None => None
  }

  /** A string literal after its opening quote. */
  function ReadChars(t: string): (r: Option<Reading<string>>)
    ensures r.Some? ==> |r.value.rest| < |t|
    decreases |t|
  {
    if t == [] then None
    else if t[0] == '"' then Some(Reading("", t[1..]))
    else
      match ReadChar(t)
      case None => None
      case Some(first) =>
        match ReadChars(first.rest)
        case None => None
        case Some(more) => Some(Reading([first.value] + more.value, more.rest))
  }

  /** Section 6: digits without a leading zero. */
  function ReadDigits(t: string): (r: Option<Reading<nat>>)
    ensures r.Some? ==> |r.value.rest| < |t|
  {
    var n := RunLength(t);
    RunIsDigits(t);
    if n == 0 || (n > 1 && t[0] == '0') then None else Some(Reading(Value(t[..n]), t[n..]))
  }

  lemma {:induction false} RunIsDigits(t: string)
    ensures RunLength(t) <= |t| && AllDigits(t[..RunLength(t)])
  {
    if RunLength(t) > 0 {
      RunIsDigits(t[1..]);
      assert forall i :: 1 <= i < RunLength(t) ==> t[i] == t[1..][i - 1];
    }
  }

  function ReadInt(t: string): (r: Option<Reading<Json>>)
    ensures r.Some? ==> |r.value.rest| < |t|
  {
    var minus := t != [] && t[0] == '-';
    match ReadDigits(if minus then t[1..] else t)
    case None => None
    case Some(d) =>
      var n: int := d.value;
      Some(Reading(Num(if minus then -n else n), d.rest))
  }

  function ReadWord(t: string, word: string, v: Json): (r: Option<Reading<Json>>)
    requires word != []
    ensures r.Some? ==> |r.value.rest| < |t|
  {
    if word <= t then Some(Reading(v, t[|word|..])) else None
  }

  /** Section 3: a value, told by its first character. */
  function ReadValue(t: string): (r: Option<Reading<Json>>)
    ensures r.Some? ==> |r.value.rest| < |t|
    decreases |t|, 0
  {
    if t == [] then None
    else if t[0] == 'n' then ReadWord(t, "null", Null)
    else if t[0] == 't' then ReadWord(t, "true", Bool(true))
    else if t[0] == 'f' then ReadWord(t, "false", Bool(false))
    else if t[0] == '"' then
      match ReadChars(t[1..])
      case Some(s) => Some(Reading(Str(s.value), s.rest))
      case None => None
    else if t[0] == '[' then
      if StartsWith(t[1..], ']') then Some(Reading(Arr([]), t[2..]))
      else
        match ReadItems(t[1..])
        case Some(items) => Some(Reading(Arr(items.value), items.rest))
        case None => None
    else if t[0] == '{' then
      if StartsWith(t[1..], '}') then Some(Reading(Obj([]), t[2..]))
      else
        match ReadMembers(t[1..])
        case Some(members) => Some(Reading(Obj(members.value), members.rest))
        case None => None
    else ReadInt(t)
  }

  /** Section 5: values parted by commas, then the closing bracket. */
  function ReadItems(t: string): (r: Option<Reading<seq<Json>>>)
    ensures r.Some? ==> |r.value.rest| < |t|
    decreases |t|, 1
  {
    match ReadValue(t)
    case None => None
    case Some(first) =>
      if StartsWith(first.rest, ']') then Some(Reading([first.value], first.rest[1..]))
      else if StartsWith(first.rest, ',') then
        match ReadItems(first.rest[1..])
        case Some(more) => Some(Reading([first.value] + more.value, more.rest))
        case None => None
      else None
  }

  /** Section 4: a name, a colon and a value. */
  function ReadMember(t: string): (r: Option<Reading<(string, Json)>>)
    ensures r.Some? ==> |r.value.rest| < |t|
    decreases |t|, 1
  {
    if !StartsWith(t, '"') then None
    else
      match ReadChars(t[1..])
      case None => None
      case Some(key) =>
        if !StartsWith(key.rest, ':') then None
        else
          match ReadValue(key.rest[1..])
          case Some(value) => Some(Reading((key.value, value.value), value.rest))
          case None => None
  }

  /** Members parted by commas, then the closing brace. */
  function ReadMembers(t: string): (r: Option<Reading<seq<(string, Json)>>>)
    ensures r.Some? ==> |r.value.rest| < |t|
    decreases |t|, 2
  {
    match ReadMember(t)
    case None => None
    case Some(first) =>
      if StartsWith(first.rest, '}') then Some(Reading([first.value], first.rest[1..]))
      else if StartsWith(first.rest, ',') then
        match ReadMembers(first.rest[1..])
        case Some(more) => Some(Reading([first.value] + more.value, more.rest))
        case None => None
      else None
  }

  // ---- strings and numbers read back ------------------------------------------------------------

  lemma EscapeReadBack(c: char, x: string)
    ensures ReadChar(Escape(c) + x) == Some(Reading(c, x))
  {
    var t := Escape(c) + x;
    if c as int < 32 && Escape(c)[1] == 'u' {
      assert t[2..6] == Escape(c)[2..6] && t[6..] == x;
      HexDigitRead(c as int / 16);
      HexDigitRead(c as int % 16);
      assert (c as int / 16) * 16 + c as int % 16 == c as int;
    } else {
      assert t[|Escape(c)|..] == x;
    }
  }

  lemma HexDigitRead(d: nat)
    requires d < 16
    ensures HexValue(HexDigit(d)) == Some(d)
  {
  }

  lemma {:induction false} QuoteReadBack(s: string, x: string)
    ensures ReadChars(QuoteRest(s) + x) == Some(Reading(s, x))
  {
    QuoteRestFirst(s, x);
    if s != [] {
      EscapeReadBack(s[0], QuoteRest(s[1..]) + x);
      QuoteReadBack(s[1..], x);
      assert s == [s[0]] + s[1..];
    }
  }

  lemma {:induction false} RenderLeads(n: nat)
    requires n > 0
    ensures Render(n)[0] != '0'
  {
    if n >= 10 {
      RenderLeads(n / 10);
    }
  }

  lemma DigitsReadBack(n: nat, x: string)
    requires Delimited(x)
    ensures ReadDigits(Render(n) + x) == Some(Reading(n, x))
  {
    var s := Render(n);
    RunLengthOf(s, x);
    ValueOfRender(n);
    if n > 0 {
      RenderLeads(n);
    }
    assert (s + x)[..|s|] == s && (s + x)[|s|..] == x;
  }

  lemma MinusRead(u: string, m: nat, n: int, x: string)
    requires n + m == 0 && m > 0 && ReadDigits(u) == Some(Reading(m, x))
    ensures ReadInt("-" + u) == Some(Reading(Num(n), x))
  {
    assert ("-" + u)[1..] == u;
  }

  lemma PlainRead(t: string, n: nat, x: string)
    requires t != [] && t[0] != '-' && ReadDigits(t) == Some(Reading(n, x))
    ensures ReadInt(t) == Some(Reading(Num(n), x))
  {
  }

  lemma IntReadBack(n: int, x: string)
    requires Delimited(x)
    ensures ReadInt(IntText(n) + x) == Some(Reading(Num(n), x))
  {
    if n < 0 {
      DigitsReadBack(-n, x);
      Regroup("-", Render(-n), x);
      MinusRead(Render(-n) + x, -n, n, x);
    } else {
      DigitsReadBack(n, x);
      assert IsDigit((Render(n) + x)[0]);
      PlainRead(Render(n) + x, n, x);
    }
  }

  // ---- canonical text read back -------------------------------------------------------------------

  /** The same value with the keys of its objects sorted, at every depth. */
  function Canonical(v: Json): (c: Json)
    decreases v, 1, 0
  {
    match v
    case Arr(items) => Arr(CanonicalItems(v, 0))
    case Obj(members) => Obj(CanonicalMembers(v, Sort(Keys(members))))
    case _ => v
  }

  function CanonicalItems(v: Json, i: nat): seq<Json>
    requires v.Arr? && i <= |v.items|
    decreases v, 0, |v.items| - i
  {
    if i == |v.items| then [] else [Canonical(v.items[i])] + CanonicalItems(v, i + 1)
  }

  function CanonicalMembers(v: Json, keys: seq<string>): seq<(string, Json)>
    requires v.Obj? && forall i :: 0 <= i < |keys| ==> keys[i] in Keys(v.members)
    decreases v, 0, |keys|
  {
    if keys == [] then []
    else [(keys[0], Canonical(ValueAt(v, keys[0])))] + CanonicalMembers(v, keys[1..])
  }

  /** Reading canonical text gives the value, with its keys sorted, and what follows it. */
  lemma {:induction false} TextReadBack(v: Json, x: string)
    requires Delimited(x)
    ensures ReadValue(Text(v) + x) == Some(Reading(Canonical(v), x))
    decreases v, 1, 0
  {
    LeadIsFirst(v, x);
    match v {
      case Null => assert ("null" + x)[4..] == x;
      case Bool(b) => assert (Text(v) + x)[|Text(v)|..] == x;
      case Num(n) => IntReadBack(n, x);
      case Str(s) =>
        QuoteTail(s, x);
        QuoteReadBack(s, x);
      case Arr(items) => ArrReadBack(v, x);
      case Obj(members) => ObjReadBack(v, x);
    }
  }

  lemma ReadArr(u: string)
    ensures StartsWith(u, ']') ==> ReadValue("[" + u) == Some(Reading(Arr([]), u[1..]))
    ensures !StartsWith(u, ']') && ReadItems(u).Some? ==>
              ReadValue("[" + u) == Some(Reading(Arr(ReadItems(u).value.value), ReadItems(u).value.rest))
  {
    assert ("[" + u)[1..] == u;
  }

  lemma ReadObj(u: string)
    ensures StartsWith(u, '}') ==> ReadValue("{" + u) == Some(Reading(Obj([]), u[1..]))
    ensures !StartsWith(u, '}') && ReadMembers(u).Some? ==>
              ReadValue("{" + u) == Some(Reading(Obj(ReadMembers(u).value.value), ReadMembers(u).value.rest))
  {
    assert ("{" + u)[1..] == u;
  }

  lemma ReadItem(t: string, first: Json, rest: string)
    requires ReadValue(t) == Some(Reading(first, rest))
    ensures StartsWith(rest, ']') ==> ReadItems(t) == Some(Reading([first], rest[1..]))
    ensures StartsWith(rest, ',') && ReadItems(rest[1..]).Some? ==>
              var more := ReadItems(rest[1..]).value; ReadItems(t) == Some(Reading([first] + more.value, more.rest))
  {
  }

  lemma ReadOneMember(t: string, first: (string, Json), rest: string)
    requires ReadMember(t) == Some(Reading(first, rest))
    ensures StartsWith(rest, '}') ==> ReadMembers(t) == Some(Reading([first], rest[1..]))
    ensures StartsWith(rest, ',') && ReadMembers(rest[1..]).Some? ==>
              var more := ReadMembers(rest[1..]).value; ReadMembers(t) == Some(Reading([first] + more.value, more.rest))
  {
  }

  lemma {:induction false} ArrReadBack(v: Json, x: string)
    requires v.Arr?
    ensures ReadValue(Text(v) + x) == Some(Reading(Canonical(v), x))
    decreases v, 0, |v.items| + 2
  {
    hide ReadValue, ReadItems;
    var u := ItemsText(v, 0) + x;
    Regroup("[", ItemsText(v, 0), x);
    ItemsStep(v, 0, x);
    ReadArr(u);
    if v.items == [] {
      assert u[1..] == x;
    } else {
      ItemsReadBack(v, 0, x);
      NoComma(Text(v.items[0]) + (ItemsText(v, 1) + x));
    }
  }

  lemma NoComma(s: string)
    ensures Sep(true) + s == s
  {
  }

  lemma AfterComma(s: string)
    ensures StartsWith(Sep(false) + s, ',') && (Sep(false) + s)[1..] == s
  {
  }

  lemma AfterClosing(closing: string, x: string)
    requires |closing| == 1
    ensures StartsWith(closing + x, closing[0]) && (closing + x)[1..] == x
  {
  }

  /** The items from the `i`-th on, after the comma before it. */
  lemma {:induction false} ItemsReadBack(v: Json, i: nat, x: string)
    requires v.Arr? && i < |v.items|
    ensures ReadItems(Text(v.items[i]) + (ItemsText(v, i + 1) + x)) == Some(Reading(CanonicalItems(v, i), x))
    decreases v, 0, |v.items| - i
  {
    var rest := ItemsText(v, i + 1) + x;
    ItemsDelimit(v, i + 1, x);
    TextReadBack(v.items[i], rest);
    ReadItem(Text(v.items[i]) + rest, Canonical(v.items[i]), rest);
    ItemsStep(v, i + 1, x);
    if i + 1 < |v.items| {
      ItemsReadBack(v, i + 1, x);
      AfterComma(Text(v.items[i + 1]) + (ItemsText(v, i + 2) + x));
    } else {
      assert ItemsText(v, i + 1) == "]" && CanonicalItems(v, i + 1) == [];
      AfterClosing("]", x);
      assert CanonicalItems(v, i) == [Canonical(v.items[i])];
    }
  }

  lemma {:induction false} ObjReadBack(v: Json, x: string)
    requires v.Obj?
    ensures ReadValue(Text(v) + x) == Some(Reading(Canonical(v), x))
    decreases v, 0, |v.members| + 2
  {
    hide ReadValue, ReadMembers;
    var ks := Sort(Keys(v.members));
    Regroup("{", MembersText(v, ks, true), x);
    MembersStep(v, ks, true, x);
    ReadObj(MembersText(v, ks, true) + x);
    if ks == [] {
      AfterClosing("}", x);
    } else {
      MembersReadBack(v, ks, x);
      NoComma(FirstMember(v, ks, x));
    }
  }

  /** The members with these keys, without a comma before them. */
  function FirstMember(v: Json, ks: seq<string>, x: string): string
    requires KeysOf(v, ks) && ks != []
  {
    Quote(ks[0]) + (":" + (Text(ValueAt(v, ks[0])) + (MembersText(v, ks[1..], false) + x)))
  }

  lemma {:induction false} MembersReadBack(v: Json, ks: seq<string>, x: string)
    requires KeysOf(v, ks) && ks != []
    ensures ReadMembers(FirstMember(v, ks, x)) == Some(Reading(CanonicalMembers(v, ks), x))
    decreases v, 0, |ks|
  {
    var rest := MembersText(v, ks[1..], false) + x;
    MemberReadBack(v, ks[0], rest, ks[1..], x);
    ReadOneMember(FirstMember(v, ks, x), (ks[0], Canonical(ValueAt(v, ks[0]))), rest);
    MembersStep(v, ks[1..], false, x);
    if ks[1..] != [] {
      MembersReadBack(v, ks[1..], x);
      AfterComma(FirstMember(v, ks[1..], x));
    } else {
      assert MembersText(v, ks[1..], false) == "}" && CanonicalMembers(v, ks[1..]) == [];
      AfterClosing("}", x);
      assert CanonicalMembers(v, ks) == [(ks[0], Canonical(ValueAt(v, ks[0])))];
    }
  }

  lemma {:induction false} MemberReadBack(v: Json, k: string, rest: string, ks: seq<string>, x: string)
    requires v.Obj? && k in Keys(v.members) && KeysOf(v, ks) && rest == MembersText(v, ks, false) + x
    ensures ReadMember(Quote(k) + (":" + (Text(ValueAt(v, k)) + rest)))
         == Some(Reading((k, Canonical(ValueAt(v, k))), rest))
    decreases v, 0, 0
  {
    var value := Text(ValueAt(v, k)) + rest;
    MembersDelimit(v, ks, x);
    TextReadBack(ValueAt(v, k), rest);
    QuoteTail(k, ":" + value);
    QuoteReadBack(k, ":" + value);
    assert (":" + value)[1..] == value;
  }

  // ---- nothing but the order is lost ---------------------------------------------------------------

  lemma {:induction false} CanonicalMembersAre(v: Json, keys: seq<string>)
    requires KeysOf(v, keys)
    ensures Keys(CanonicalMembers(v, keys)) == keys
    ensures forall i :: 0 <= i < |keys| ==> CanonicalMembers(v, keys)[i].1 == Canonical(ValueAt(v, keys[i]))
    decreases |keys|
  {
    if keys != [] {
      CanonicalMembersAre(v, keys[1..]);
      assert keys == [keys[0]] + keys[1..];
    }
  }

  lemma {:induction false} CanonicalItemsAre(v: Json, i: nat)
    requires v.Arr? && i <= |v.items|
    ensures |CanonicalItems(v, i)| == |v.items| - i
    ensures forall k :: i <= k < |v.items| ==> CanonicalItems(v, i)[k - i] == Canonical(v.items[k])
    decreases |v.items| - i
  {
    if i < |v.items| {
      CanonicalItemsAre(v, i + 1);
    }
  }

  /** The canonical form of a value is that value up to the order of keys. */
  lemma {:induction false} CanonicalIsSame(v: Json)
    requires WellFormed(v)
    ensures Same(v, Canonical(v))
    decreases v
  {
    match v {
      case Arr(items) =>
        CanonicalItemsAre(v, 0);
        forall i | 0 <= i < |items| ensures Same(items[i], CanonicalItems(v, 0)[i]) {
          CanonicalIsSame(items[i]);
        }
      case Obj(members) =>
        var ks := Sort(Keys(members));
        CanonicalMembersAre(v, ks);
        var sorted := CanonicalMembers(v, ks);
        forall i, j | 0 <= i < |members| && 0 <= j < |sorted| && members[i].0 == sorted[j].0
          ensures Same(members[i].1, sorted[j].1)
        {
          assert Keys(sorted)[j] == ks[j];
          ValueAtMember(v, i);
          CanonicalIsSame(members[i].1);
        }
        assert forall k :: k in Keys(members) <==> k in ks;
      case _ =>
    }
  }

  /** Canonical text is JSON: read as a whole it gives the value back, up to the order of keys. */
  lemma CanonicalTextIsJson(v: Json)
    requires WellFormed(v)
    ensures var r := ReadValue(Text(v)); r.Some? && r.value.rest == [] && Same(v, r.value.value)
  {
    TextReadBack(v, []);
    assert Text(v) + [] == Text(v);
    CanonicalIsSame(v);
  }
}
