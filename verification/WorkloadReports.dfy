/** A workload report as a tree, and its numeric leaves under dotted paths. */
module WorkloadReports {

  /** A JSON value: a number, an object, or anything else. */
  datatype Report = Number(x: real) | Object(members: seq<(string, Report)>) | Other

  /** The key of a member: its name, after the prefix and a dot if there is a prefix. */
  function Extend(prefix: string, name: string): string
  {
    if prefix == "" then name else prefix + "." + name
  }

  /** `flatten_numbers`. */
  function Flatten(prefix: string, v: Report): seq<(string, real)>
    decreases v, 1, 0
  {
    match v
    case Number(x) => [(prefix, x)]
    case Object(members) => FlattenMembers(prefix, v, |members|)
    case Other => []
  }

  function FlattenMembers(prefix: string, v: Report, n: nat): seq<(string, real)>
    requires v.Object? && n <= |v.members|
    decreases v, 0, n
  {
    if n == 0 then []
    else FlattenMembers(prefix, v, n - 1) + Flatten(Extend(prefix, v.members[n - 1].0), v.members[n - 1].1)
  }

  method FlattenNumbers(prefix: string, v: Report, before: seq<(string, real)>) returns (out: seq<(string, real)>)
    ensures out == before + Flatten(prefix, v)
    decreases v
  {
    out := before;
    match v {
      case Number(x) => out := out + [(prefix, x)];
      case Object(members) =>
        for i := 0 to |members|
          invariant out == before + FlattenMembers(prefix, v, i)
        {
          out := FlattenNumbers(Extend(prefix, members[i].0), members[i].1, out);
          Regroup(before, FlattenMembers(prefix, v, i), Flatten(Extend(prefix, members[i].0), members[i].1));
        }
      case Other =>
    }
  }

  lemma Regroup<T>(a: seq<T>, b: seq<T>, c: seq<T>)
    ensures a + b + c == a + (b + c)
  {
  }

  /** The number `x` stands at `path`. */
  ghost predicate LeafAt(v: Report, path: seq<string>, x: real)
    decreases v
  {
    match v
    case Number(y) => path == [] && x == y
    case Object(members) =>
      path != [] && exists i :: 0 <= i < |members| && members[i].0 == path[0] && LeafAt(members[i].1, path[1..], x)
    case Other => false
  }

  /** The path written after a prefix. */
  function Dotted(prefix: string, path: seq<string>): string
    decreases |path|
  {
    if path == [] then prefix else Dotted(Extend(prefix, path[0]), path[1..])
  }

  ghost predicate Listed(prefix: string, v: Report, name: string, x: real)
  {
    exists path :: LeafAt(v, path, x) && name == Dotted(prefix, path)
  }

  /** The flattened report lists exactly the numeric leaves, each under its dotted path. */
  lemma {:induction false} FlattenListsLeaves(prefix: string, v: Report, name: string, x: real)
    ensures (name, x) in Flatten(prefix, v) <==> Listed(prefix, v, name, x)
    decreases v, 1, 0
  {
    match v {
      case Number(y) =>
        if name == prefix && x == y {
          assert LeafAt(v, [], x) && name == Dotted(prefix, []);
        }
      case Object(members) =>
        MembersListLeaves(prefix, v, |members|, name, x);
        ObjectLists(prefix, v, name, x);
      case Other =>
    }
  }

  ghost predicate ListedBelow(prefix: string, v: Report, n: nat, name: string, x: real)
    requires v.Object? && n <= |v.members|
  {
    exists i :: 0 <= i < n && Listed(Extend(prefix, v.members[i].0), v.members[i].1, name, x)
  }

  lemma {:induction false} MembersListLeaves(prefix: string, v: Report, n: nat, name: string, x: real)
    requires v.Object? && n <= |v.members|
    ensures (name, x) in FlattenMembers(prefix, v, n) <==> ListedBelow(prefix, v, n, name, x)
    decreases v, 0, n
  {
    if n > 0 {
      MembersListLeaves(prefix, v, n - 1, name, x);
      FlattenListsLeaves(Extend(prefix, v.members[n - 1].0), v.members[n - 1].1, name, x);
    }
  }

  lemma ObjectLists(prefix: string, v: Report, name: string, x: real)
    requires v.Object?
    ensures Listed(prefix, v, name, x) <==> ListedBelow(prefix, v, |v.members|, name, x)
  {
    if Listed(prefix, v, name, x) {
      var path :| LeafAt(v, path, x) && name == Dotted(prefix, path);
      var i :| 0 <= i < |v.members| && v.members[i].0 == path[0] && LeafAt(v.members[i].1, path[1..], x);
      assert Listed(Extend(prefix, v.members[i].0), v.members[i].1, name, x);
    }
    if ListedBelow(prefix, v, |v.members|, name, x) {
      var i :| 0 <= i < |v.members| && Listed(Extend(prefix, v.members[i].0), v.members[i].1, name, x);
      var rest :| LeafAt(v.members[i].1, rest, x) && name == Dotted(Extend(prefix, v.members[i].0), rest);
      var path := [v.members[i].0] + rest;
      assert path[1..] == rest;
      assert LeafAt(v, path, x);
    }
  }
}
