/** The text protocol between the orchestrator and the attribution owner. */
module Wire {
  import opened Decimal
  import opened Options
  import opened Powers

  // ---- words of a line ------------------------------------------------------------------

  predicate IsSpace(c: char)
  {
    c == ' ' || c == '\t' || c == '\n' || c == '\r' || c as int == 11 || c as int == 12
  }

  /** How many characters of `s` come before the first space. */
  function WordLength(s: string): (n: nat)
    ensures n <= |s| && forall i :: 0 <= i < n ==> !IsSpace(s[i])
    ensures n < |s| ==> IsSpace(s[n])
  {
    if s == [] || IsSpace(s[0]) then 0 else 1 + WordLength(s[1..])
  }

  /** `split_whitespace`. */
  function Words(s: string): seq<string>
    decreases |s|
  {
    if s == [] then []
    else if IsSpace(s[0]) then Words(s[1..])
    else [s[..WordLength(s)]] + Words(s[WordLength(s)..])
  }

  ghost predicate Word(w: string)
  {
    w != [] && forall i :: 0 <= i < |w| ==> !IsSpace(w[i])
  }

  lemma {:induction false} WordLengthOf(w: string, rest: string)
    requires (forall i :: 0 <= i < |w| ==> !IsSpace(w[i])) && (rest == [] || IsSpace(rest[0]))
    ensures WordLength(w + rest) == |w|
  {
    if w != [] {
      assert (w + rest)[1..] == w[1..] + rest;
      WordLengthOf(w[1..], rest);
    } else {
      assert w + rest == rest;
    }
  }

  lemma WordsSplit(w: string, rest: string)
    requires Word(w) && (rest == [] || IsSpace(rest[0]))
    ensures Words(w + rest) == [w] + Words(rest)
  {
    WordLengthOf(w, rest);
    assert (w + rest)[0] == w[0];
    assert (w + rest)[..|w|] == w && (w + rest)[|w|..] == rest;
  }

  lemma SpaceThen(c: char, s: string)
    requires IsSpace(c)
    ensures Words([c] + s) == Words(s)
  {
    assert ([c] + s)[1..] == s;
  }

  /** A word, a space and more: the word comes off the front. */
  lemma WordThen(w: string, s: string)
    requires Word(w)
    ensures Words(w + " " + s) == [w] + Words(s)
  {
    assert w + " " + s == w + ([' '] + s);
    WordsSplit(w, [' '] + s);
    SpaceThen(' ', s);
  }

  lemma LastWord(w: string)
    requires Word(w)
    ensures Words(w + "\n") == [w]
  {
    WordsSplit(w, "\n");
    SpaceThen('\n', "");
    assert ['\n'] + "" == "\n";
  }

  lemma RenderIsWord(n: nat)
    ensures Word(Render(n))
  {
    forall i | 0 <= i < |Render(n)| ensures !IsSpace(Render(n)[i]) {
      assert IsDigit(Render(n)[i]);
    }
  }

  // ---- commands ---------------------------------------------------------------------------

  const RUNNING: nat := 0
  const PAUSING: nat := 1
  const PAUSED: nat := 2
  const RESUMING: nat := 3

  datatype Command =
    | Add(ifindex: nat, handle: nat, netns: nat)
    | State(handle: nat, state: nat)
    | Remove(handle: nat)

  /** The integer widths of the client's arguments. */
  predicate Typed(c: Command)
  {
    match c
    case Add(ifindex, handle, netns) => ifindex < U32 && handle < U64 && netns < U32
    case State(handle, state) => handle < U64 && state < 256
    case Remove(handle) => handle < U64
  }

  function StateName(state: nat): string
  {
    if state == PAUSING then "PAUSING"
    else if state == PAUSED then "PAUSED"
    else if state == RESUMING then "RESUMING"
    else "RUNNING"
  }

  /** The line the client writes, newline included. */
  function Line(c: Command): string
  {
    match c
    case Add(ifindex, handle, netns) =>
      "add" + " " + (Render(ifindex) + " " + (Render(handle) + " " + (Render(netns) + "\n")))
    case State(handle, state) => "state" + " " + (Render(handle) + " " + (StateName(state) + "\n"))
    case Remove(handle) => "remove" + " " + (Render(handle) + "\n")
  }

  datatype Rejection = EmptyCommand | MissingField | BadNumber | UnknownState | UnknownVerb
  datatype Parsed = Ok(command: Command) | Err(why: Rejection)

  function Upper(c: char): char
  {
    if 'a' <= c <= 'z' then (c as int - 32) as char else c
  }

  function Uppercase(s: string): (u: string)
    ensures |u| == |s| && forall i :: 0 <= i < |s| ==> u[i] == Upper(s[i])
  {
    seq(|s|, i requires 0 <= i < |s| => Upper(s[i]))
  }

  function StateFromName(name: string): Option<nat>
  {
    var u := Uppercase(name);
    if u == "RUNNING" then Some(RUNNING)
    else if u == "PAUSING" then Some(PAUSING)
    else if u == "PAUSED" then Some(PAUSED)
    else if u == "RESUMING" then Some(RESUMING)
    else None
  }

  /** The next numeric field, if it is there and fits. */
  function Field(words: seq<string>, i: nat, limit: nat): Option<nat>
  {
    if i < |words| then Parse(words[i], limit) else None
  }

  function FieldError(words: seq<string>, i: nat): Parsed
  {
    Err(if i < |words| then BadNumber else MissingField)
  }

  /** The owner's reading of one line; words after the last expected field are ignored. */
  function ParseWords(words: seq<string>): Parsed
  {
    if words == [] then Err(EmptyCommand)
    else if words[0] == "add" then
      var ifindex, handle, netns := Field(words, 1, U32), Field(words, 2, U64), Field(words, 3, U32);
      if ifindex.None? then FieldError(words, 1)
      else if handle.None? then FieldError(words, 2)
      else if netns.None? then FieldError(words, 3)
      else Ok(Add(ifindex.value, handle.value, netns.value))
    else if words[0] == "state" then
      var handle := Field(words, 1, U64);
      if handle.None? then FieldError(words, 1)
      else if |words| < 3 then Err(MissingField)
      else if StateFromName(words[2]).None? then Err(UnknownState)
      else Ok(State(handle.value, StateFromName(words[2]).value))
    else if words[0] == "remove" then
      var handle := Field(words, 1, U64);
      if handle.None? then FieldError(words, 1) else Ok(Remove(handle.value))
    else Err(UnknownVerb)
  }

  function ParseCommand(line: string): Parsed
  {
    ParseWords(Words(line))
  }

  lemma StateNameWord(state: nat)
    ensures Word(StateName(state))
    ensures StateFromName(StateName(state)) == Some(if state <= RESUMING then state else RUNNING)
  {
    assert Uppercase("RUNNING") == "RUNNING";
    assert Uppercase("PAUSING") == "PAUSING";
    assert Uppercase("PAUSED") == "PAUSED";
    assert Uppercase("RESUMING") == "RESUMING";
  }

  lemma LineWords(c: Command)
    ensures Words(Line(c)) ==
      match c
      case Add(ifindex, handle, netns) => ["add", Render(ifindex), Render(handle), Render(netns)]
      case State(handle, state) => ["state", Render(handle), StateName(state)]
      case Remove(handle) => ["remove", Render(handle)]
  {
    match c {
      case Add(ifindex, handle, netns) =>
        RenderIsWord(ifindex);
        RenderIsWord(handle);
        RenderIsWord(netns);
        WordThen("add", Render(ifindex) + " " + (Render(handle) + " " + (Render(netns) + "\n")));
        WordThen(Render(ifindex), Render(handle) + " " + (Render(netns) + "\n"));
        WordThen(Render(handle), Render(netns) + "\n");
        LastWord(Render(netns));
      case State(handle, state) =>
        RenderIsWord(handle);
        StateNameWord(state);
        WordThen("state", Render(handle) + " " + (StateName(state) + "\n"));
        WordThen(Render(handle), StateName(state) + "\n");
        LastWord(StateName(state));
      case Remove(handle) =>
        RenderIsWord(handle);
        WordThen("remove", Render(handle) + "\n");
        LastWord(Render(handle));
    }
  }

  lemma AddParses(ifindex: nat, handle: nat, netns: nat)
    requires ifindex < U32 && handle < U64 && netns < U32
    ensures ParseWords(["add", Render(ifindex), Render(handle), Render(netns)]) == Ok(Add(ifindex, handle, netns))
  {
    RenderParses(ifindex, U32);
    RenderParses(handle, U64);
    RenderParses(netns, U32);
  }

  lemma StateParses(handle: nat, state: nat)
    requires handle < U64
    ensures ParseWords(["state", Render(handle), StateName(state)])
            == Ok(State(handle, if state <= RESUMING then state else RUNNING))
  {
    RenderParses(handle, U64);
    StateNameWord(state);
  }

  lemma RemoveParses(handle: nat)
    requires handle < U64
    ensures ParseWords(["remove", Render(handle)]) == Ok(Remove(handle))
  {
    RenderParses(handle, U64);
  }

  /** The owner parses every command the client renders; it comes back as it was sent, but
      a state byte outside the four lifecycle states arrives as RUNNING. */
  lemma WireRoundTrip(c: Command)
    requires Typed(c)
    ensures ParseCommand(Line(c)) == Ok(if c.State? && c.state > RESUMING then c.(state := RUNNING) else c)
    ensures ParseCommand(Line(c)) == Ok(c) <==> (c.State? ==> c.state <= RESUMING)
  {
    LineWords(c);
    match c {
      case Add(ifindex, handle, netns) => AddParses(ifindex, handle, netns);
      case State(handle, state) => StateParses(handle, state);
      case Remove(handle) => RemoveParses(handle);
    }
  }

  // ---- replies ----------------------------------------------------------------------------

  datatype Reply = Done | Refused(message: string)

  function ReplyLine(r: Reply): string
  {
    match r
    case Done => "ok\n"
    case Refused(message) => "err " + message + "\n"
  }

  function TrimStart(s: string): string
  {
    if s != [] && IsSpace(s[0]) then TrimStart(s[1..]) else s
  }

  function TrimEnd(s: string): string
  {
    if s != [] && IsSpace(s[|s| - 1]) then TrimEnd(s[..|s| - 1]) else s
  }

  /** The client's reading of a reply line: success only for a bare `ok`. */
  predicate Accepts(line: string)
  {
    var reply := TrimEnd(TrimStart(line));
    !("err" <= reply) && reply == "ok"
  }

  lemma {:induction false} TrimEndKeepsStart(s: string)
    requires s != [] && !IsSpace(s[0])
    ensures TrimEnd(s) != [] && TrimEnd(s)[0] == s[0]
  {
    if IsSpace(s[|s| - 1]) {
      TrimEndKeepsStart(s[..|s| - 1]);
    }
  }

  /** The client takes a reply for success exactly when the owner meant success. */
  lemma ReplyRoundTrip(r: Reply)
    ensures Accepts(ReplyLine(r)) <==> r.Done?
  {
    match r {
      case Done =>
        assert "ok\n"[..2] == "ok";
        assert TrimEnd("ok\n") == TrimEnd("ok");
      case Refused(message) =>
        TrimEndKeepsStart(ReplyLine(r));
    }
  }
}
