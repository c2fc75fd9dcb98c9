/** The dotted keys of a configuration struct, one per leaf. */
module ConfigKeys {

  datatype Option<T> = None | Some(value: T)

  /** A struct field: its Go name, its `mapstructure` tag if any, and its kind. */
  datatype Field = Field(name: string, tag: Option<string>, kind: Kind)

  datatype Kind = Struct(fields: seq<Field>) | Leaf

  function LowerChar(c: char): char {
    if 'A' <= c <= 'Z' then c - 'A' + 'a' else c
  }

  function Lower(s: string): string {
    seq(|s|, (i: nat) requires i < |s| => LowerChar(s[i]))
  }

  function KeyName(f: Field): string {
    match f.tag case Some(t) => t case None => Lower(f.name)
  }

  // ---- what the keys should be ----

  function Prefixed(name: string, paths: seq<seq<string>>): seq<seq<string>> {
    seq(|paths|, (i: nat) requires i < |paths| => [name] + paths[i])
  }

  /** The root-to-leaf paths of a struct, in field order. */
  function Paths(fields: seq<Field>): seq<seq<string>> {
    if fields == [] then [] else FieldPaths(fields[0]) + Paths(fields[1..])
  }

  function FieldPaths(f: Field): seq<seq<string>> {
    match f.kind
    case Leaf => [[KeyName(f)]]
    case Struct(fields) => Prefixed(KeyName(f), Paths(fields))
  }

  /** `strings.Join` with a dot. */
  function Join(parts: seq<string>): string {
    if parts == [] then "" else if |parts| == 1 then parts[0] else parts[0] + "." + Join(parts[1..])
  }

  function Keys(prefix: seq<string>, paths: seq<seq<string>>): seq<string> {
    seq(|paths|, (i: nat) requires i < |paths| => Join(prefix + paths[i]))
  }

  lemma KeysConcat(prefix: seq<string>, a: seq<seq<string>>, b: seq<seq<string>>)
    ensures Keys(prefix, a + b) == Keys(prefix, a) + Keys(prefix, b)
  {}

  lemma KeysPrefixed(prefix: seq<string>, name: string, paths: seq<seq<string>>)
    ensures Keys(prefix, Prefixed(name, paths)) == Keys(prefix + [name], paths)
  {
    forall i: nat | i < |paths| ensures Keys(prefix, Prefixed(name, paths))[i] == Keys(prefix + [name], paths)[i] {
      assert prefix + ([name] + paths[i]) == (prefix + [name]) + paths[i];
    }
  }

  lemma {:induction false} PathsSnoc(fields: seq<Field>, f: Field)
    ensures Paths(fields + [f]) == Paths(fields) + FieldPaths(f)
  {
    if fields == [] {
      assert [f][1..] == [];
    } else {
      PathsSnoc(fields[1..], f);
      assert (fields + [f])[1..] == fields[1..] + [f];
    }
  }

  /** The keys of one more field come after those of the fields before it. */
  lemma KeysOfNext(prefix: seq<string>, fields: seq<Field>, i: nat)
    requires i < |fields|
    ensures Keys(prefix, Paths(fields[..i + 1])) ==
            Keys(prefix, Paths(fields[..i])) + Keys(prefix, FieldPaths(fields[i]))
  {
    assert fields[..i + 1] == fields[..i] + [fields[i]];
    PathsSnoc(fields[..i], fields[i]);
    KeysConcat(prefix, Paths(fields[..i]), FieldPaths(fields[i]));
  }

  lemma KeysOfField(prefix: seq<string>, f: Field)
    ensures f.kind.Leaf? ==> Keys(prefix, FieldPaths(f)) == [Join(prefix + [KeyName(f)])]
    ensures f.kind.Struct? ==> Keys(prefix, FieldPaths(f)) == Keys(prefix + [KeyName(f)], Paths(f.kind.fields))
  {
    if f.kind.Struct? {
      KeysPrefixed(prefix, KeyName(f), Paths(f.kind.fields));
    }
  }

  const UPPER := "ABCDEFGHIJKLMNOPQRSTUVWXYZ"
  const LOWER := "abcdefghijklmnopqrstuvwxyz"

  /** `d` is `c` in lower case: its place in the alphabet if it is a capital, else the same. */
  ghost predicate Lowered(c: char, d: char) {
    if c in UPPER then exists i: nat :: i < 26 && c == UPPER[i] && d == LOWER[i] else d == c
  }

  lemma LoweredChar(c: char)
    ensures Lowered(c, LowerChar(c))
  {
    if 'A' <= c <= 'Z' {
      var i := (c - 'A') as int;
      assert UPPER[i] == c && LOWER[i] == LowerChar(c);
    } else {
      forall i: nat | i < 26 ensures UPPER[i] != c {
        assert 'A' <= UPPER[i] <= 'Z';
      }
    }
  }

  /** What a field is called in a key: its tag as it stands, or else its name letter by letter in lower case. */
  ghost predicate Called(f: Field, name: string) {
    match f.tag
    case Some(t) => name == t
    case None => |name| == |f.name| && forall i: nat | i < |name| :: Lowered(f.name[i], name[i])
  }

  /**
   * Every path of a field starts with what the field is called, and goes on with a path of its
   * struct if it is one; so a leaf has one path, which is its own name alone.
   */
  lemma PathsOfFieldCalled(f: Field)
    ensures forall k: nat | k < |FieldPaths(f)| :: FieldPaths(f)[k] != [] && Called(f, FieldPaths(f)[k][0])
    ensures f.kind.Leaf? ==> |FieldPaths(f)| == 1 && |FieldPaths(f)[0]| == 1
    ensures f.kind.Struct? ==>
              && |FieldPaths(f)| == |Paths(f.kind.fields)|
              && forall k: nat | k < |FieldPaths(f)| :: FieldPaths(f)[k][1..] == Paths(f.kind.fields)[k]
  {
    assert Called(f, KeyName(f)) by {
      forall i: nat | i < |f.name| ensures Lowered(f.name[i], LowerChar(f.name[i])) {
        LoweredChar(f.name[i]);
      }
    }
  }

  // ---- the walk, with its shared slices ----

  /** A Go slice that starts at the head of its backing array; the capacity is the length of the array. */
  datatype Slice = Slice(backing: array<string>, len: nat)

  ghost function Contents(s: Slice): seq<string>
    requires s.len <= s.backing.Length
    reads s.backing
  {
    s.backing[..s.len]
  }

  /**
   * `append(s, x)`: in place if there is room, so that every slice over the same array sees
   * it; otherwise into a new array, `spare` entries larger than needed.
   */
  method Append(s: Slice, x: string, spare: nat) returns (r: Slice)
    requires s.len <= s.backing.Length
    modifies s.backing
    ensures r.len == s.len + 1 <= r.backing.Length && Contents(r) == old(Contents(s)) + [x]
    ensures r.backing == s.backing || fresh(r.backing)
    ensures Contents(s) == old(Contents(s))
  {
    if s.len < s.backing.Length {
      s.backing[s.len] := x;
      r := Slice(s.backing, s.len + 1);
    } else {
      var a := new string[s.len + 1 + spare](i requires 0 <= i reads s.backing =>
        if i < s.len && i < s.backing.Length then s.backing[i] else "");
      a[s.len] := x;
      r := Slice(a, s.len + 1);
    }
  }

  /** The environment keys bound so far. */
  class Viper {
    var bound: seq<string>

    constructor ()
      ensures bound == []
    {
      bound := [];
    }
  }

  /**
   * Whatever capacity a grown slice gets, and however the slices of the recursion share their
   * arrays, exactly the root-to-leaf keys are bound, in field order: a call writes its
   * caller's array only past the caller's own prefix.
   */
  method BindConfigEnvs(fields: seq<Field>, parts: Slice, spare: nat -> nat, viper: Viper)
    requires parts.len <= parts.backing.Length
    modifies parts.backing, viper
    ensures viper.bound == old(viper.bound) + Keys(old(Contents(parts)), Paths(fields))
    ensures Contents(parts) == old(Contents(parts))
    decreases fields
  {
    ghost var prefix := Contents(parts);
    for i := 0 to |fields|
      invariant viper.bound == old(viper.bound) + Keys(prefix, Paths(fields[..i]))
      invariant Contents(parts) == prefix
    {
      KeysOfNext(prefix, fields, i);
      BindField(fields[i], parts, spare, viper);
    }
    assert fields[..|fields|] == fields;
  }

  /** One field: descend into a struct, bind the key of anything else (after logging it). */
  method BindField(f: Field, parts: Slice, spare: nat -> nat, viper: Viper)
    requires parts.len <= parts.backing.Length
    modifies parts.backing, viper
    ensures viper.bound == old(viper.bound) + Keys(old(Contents(parts)), FieldPaths(f))
    ensures f.kind.Leaf? && f.tag.Some? ==>
              viper.bound == old(viper.bound) + [Join(old(Contents(parts)) + [f.tag.value])]
    ensures Contents(parts) == old(Contents(parts))
    decreases f
  {
    var name := KeyName(f);
    KeysOfField(Contents(parts), f);
    match f.kind
    case Struct(inner) =>
      var longer := Append(parts, name, spare(parts.len));
      BindConfigEnvs(inner, longer, spare, viper);
      assert Contents(longer)[..parts.len] == Contents(parts);
    case Leaf =>
      var logged := Append(parts, name, spare(parts.len));
      var key := Append(parts, name, spare(parts.len));
      viper.bound := viper.bound + [Join(key.backing[..key.len])];
  }

  // ---- from a key back to its path ----

  /** What a dotted key was joined from, if no part held a dot. */
  function Split(s: string): (parts: seq<string>)
    ensures parts != []
  {
    if s == "" then [""] else Before(s[0], Split(s[1..]))
  }

  /** The parts of a key that has one more character in front. */
  function Before(c: char, parts: seq<string>): (longer: seq<string>)
    requires parts != []
    ensures longer != []
  {
    if c == '.' then [""] + parts else [[c] + parts[0]] + parts[1..]
  }

  lemma BeforeConcat(c: char, a: seq<string>, b: seq<string>)
    requires a != []
    ensures Before(c, a + b) == Before(c, a) + b
  {
    assert (a + b)[1..] == a[1..] + b;
  }

  /** A path with every part cut at its dots. */
  function Flat(parts: seq<string>): seq<string> {
    if parts == [] then [] else Split(parts[0]) + Flat(parts[1..])
  }

  lemma {:induction false} SplitConcat(a: string, rest: string)
    ensures Split(a + "." + rest) == Split(a) + Split(rest)
  {
    var s := a + "." + rest;
    if a == "" {
      assert s[1..] == rest;
    } else {
      assert s[1..] == a[1..] + "." + rest && s[0] == a[0];
      SplitConcat(a[1..], rest);
      BeforeConcat(a[0], Split(a[1..]), Split(rest));
    }
  }

  lemma {:induction false} SplitNoDot(a: string)
    requires '.' !in a
    ensures Split(a) == [a]
  {
    if a != "" {
      SplitNoDot(a[1..]);
      assert [a[0]] + a[1..] == a;
    }
  }

  /** Splitting a key gives its path with every part cut at its dots. */
  lemma {:induction false} SplitJoin(parts: seq<string>)
    requires parts != []
    ensures Split(Join(parts)) == Flat(parts)
  {
    if |parts| == 1 {
      assert parts[1..] == [];
    } else {
      SplitJoin(parts[1..]);
      SplitConcat(parts[0], Join(parts[1..]));
    }
  }

  /** And joining what a key was split into gives the key, whatever it holds. */
  lemma {:induction false} JoinSplit(s: string)
    ensures Join(Split(s)) == s
  {
    if s != "" {
      JoinSplit(s[1..]);
      var rest := Split(s[1..]);
      assert s == [s[0]] + s[1..];
      if s[0] == '.' {
        assert ([""] + rest)[1..] == rest;
      } else {
        JoinLonger(s[0], rest);
      }
    }
  }

  lemma JoinLonger(c: char, parts: seq<string>)
    requires parts != []
    ensures Join([[c] + parts[0]] + parts[1..]) == [c] + Join(parts)
  {
    assert ([[c] + parts[0]] + parts[1..])[1..] == parts[1..];
  }

  /** Two paths have the same key exactly when they spell the same once cut at all dots. */
  lemma SameKeyExactly(p: seq<string>, q: seq<string>)
    requires p != [] && q != []
    ensures Join(p) == Join(q) <==> Flat(p) == Flat(q)
  {
    SplitJoin(p);
    SplitJoin(q);
    JoinSplit(Join(p));
    JoinSplit(Join(q));
  }

  ghost predicate DotFree(parts: seq<string>) {
    forall i: nat | i < |parts| :: '.' !in parts[i]
  }

  lemma {:induction false} FlatDotFree(parts: seq<string>)
    requires DotFree(parts)
    ensures Flat(parts) == parts
  {
    if parts != [] {
      SplitNoDot(parts[0]);
      FlatDotFree(parts[1..]);
    }
  }

  // ---- distinct leaves, distinct keys ----

  ghost predicate Distinct<T(!new)>(s: seq<T>) {
    forall i: nat, j: nat | i < j < |s| :: s[i] != s[j]
  }

  function Flats(paths: seq<seq<string>>): seq<seq<string>> {
    seq(|paths|, (i: nat) requires i < |paths| => Flat(paths[i]))
  }

  lemma {:induction false} PathsNonEmpty(fields: seq<Field>, k: nat)
    requires k < |Paths(fields)|
    ensures Paths(fields)[k] != []
  {
    var n := |FieldPaths(fields[0])|;
    if n <= k {
      PathsNonEmpty(fields[1..], k - n);
    }
  }

  /** For every tree: all keys bound are different if and only if all paths are, once cut at their dots. */
  lemma KeysDistinctExactly(fields: seq<Field>)
    ensures Distinct(Keys([], Paths(fields))) <==> Distinct(Flats(Paths(fields)))
  {
    var paths := Paths(fields);
    forall i: nat, j: nat | i < |paths| && j < |paths|
      ensures Keys([], paths)[i] == Keys([], paths)[j] <==> Flats(paths)[i] == Flats(paths)[j]
    {
      PathsNonEmpty(fields, i);
      PathsNonEmpty(fields, j);
      SameKeyExactly(paths[i], paths[j]);
      assert [] + paths[i] == paths[i] && [] + paths[j] == paths[j];
    }
  }

  /** No name in the tree holds a dot. */
  ghost predicate NoDots(fields: seq<Field>)
    decreases fields
  {
    && (forall i: nat | i < |fields| :: '.' !in KeyName(fields[i]))
    && (forall i: nat | i < |fields| && fields[i].kind.Struct? :: NoDots(fields[i].kind.fields))
  }

  /** Every path is made of field names, the first being that of a field of the struct itself. */
  lemma {:induction false} PathsNamed(fields: seq<Field>, k: nat)
    requires NoDots(fields) && k < |Paths(fields)|
    ensures Paths(fields)[k] != [] && DotFree(Paths(fields)[k])
    ensures exists i: nat :: i < |fields| && Paths(fields)[k][0] == KeyName(fields[i])
    decreases fields
  {
    var f := fields[0];
    var n := |FieldPaths(f)|;
    if k < n {
      if f.kind.Struct? {
        PathsNamed(f.kind.fields, k);
      }
    } else {
      PathsNamed(fields[1..], k - n);
      var i: nat :| i < |fields[1..]| && Paths(fields[1..])[k - n][0] == KeyName(fields[1..][i]);
      assert fields[i + 1] == fields[1..][i];
    }
  }

  lemma FlatsNoDots(fields: seq<Field>)
    requires NoDots(fields)
    ensures Flats(Paths(fields)) == Paths(fields)
  {
    forall k: nat | k < |Paths(fields)| ensures Flat(Paths(fields)[k]) == Paths(fields)[k] {
      PathsNamed(fields, k);
      FlatDotFree(Paths(fields)[k]);
    }
  }

  // ---- when a path repeats ----

  /** Same-named fields that are both leaves, or both structs with a path in common. */
  ghost predicate Clash(f: Field, g: Field) {
    && KeyName(f) == KeyName(g)
    && ((f.kind.Leaf? && g.kind.Leaf?)
        || (f.kind.Struct? && g.kind.Struct? && exists p :: p in Paths(f.kind.fields) && p in Paths(g.kind.fields)))
  }

  /** Somewhere in the tree two fields of one struct clash. */
  ghost predicate Clashes(fields: seq<Field>)
    decreases fields
  {
    || (exists i: nat, j: nat :: i < j < |fields| && Clash(fields[i], fields[j]))
    || (exists i: nat :: i < |fields| && fields[i].kind.Struct? && Clashes(fields[i].kind.fields))
  }

  lemma ClashesCons(fields: seq<Field>)
    requires fields != []
    ensures Clashes(fields) <==>
            || (fields[0].kind.Struct? && Clashes(fields[0].kind.fields))
            || (exists j: nat :: j < |fields[1..]| && Clash(fields[0], fields[1..][j]))
            || Clashes(fields[1..])
  {
    var rest := fields[1..];
    assert forall i: nat | i < |rest| :: rest[i] == fields[i + 1];
    assert forall i: nat | 0 < i < |fields| :: fields[i] == rest[i - 1];
  }

  lemma {:induction false} PathOfField(fields: seq<Field>, p: seq<string>)
    ensures p in Paths(fields) <==> exists i: nat :: i < |fields| && p in FieldPaths(fields[i])
  {
    if fields != [] {
      PathOfField(fields[1..], p);
      assert forall i: nat | i < |fields[1..]| :: fields[1..][i] == fields[i + 1];
      assert forall i: nat | 0 < i < |fields| :: fields[i] == fields[1..][i - 1];
    }
  }

  lemma InPrefixed(name: string, paths: seq<seq<string>>, p: seq<string>)
    ensures p in Prefixed(name, paths) <==> p != [] && p[0] == name && p[1..] in paths
  {
    if p in Prefixed(name, paths) {
      var i: nat :| i < |paths| && p == [name] + paths[i];
      assert p[1..] == paths[i];
    }
    if p != [] && p[0] == name && p[1..] in paths {
      var i: nat :| i < |paths| && paths[i] == p[1..];
      assert p == [name] + paths[i] == Prefixed(name, paths)[i];
    }
  }

  lemma PathHead(fields: seq<Field>)
    ensures [] !in Paths(fields)
  {
    forall k: nat | k < |Paths(fields)| ensures Paths(fields)[k] != [] {
      PathsNonEmpty(fields, k);
    }
  }

  lemma InField(f: Field, p: seq<string>)
    ensures p in FieldPaths(f) <==>
            && p != [] && p[0] == KeyName(f)
            && (if f.kind.Leaf? then |p| == 1 else |p| > 1 && p[1..] in Paths(f.kind.fields))
  {
    match f.kind
    case Leaf =>
      assert p in FieldPaths(f) <==> p == [KeyName(f)];
    case Struct(fields) =>
      InPrefixed(KeyName(f), Paths(fields), p);
      PathHead(fields);
      assert |p| == 1 ==> p[1..] == [];
  }

  /** Two fields have a path in common exactly when they clash. */
  lemma ClashShares(f: Field, g: Field)
    ensures Clash(f, g) <==> exists p :: p in FieldPaths(f) && p in FieldPaths(g)
  {
    forall p ensures p in FieldPaths(f) && p in FieldPaths(g) ==> Clash(f, g) {
      InField(f, p);
      InField(g, p);
    }
    if Clash(f, g) {
      if f.kind.Leaf? {
        assert [KeyName(f)] in FieldPaths(f) && [KeyName(f)] in FieldPaths(g);
      } else {
        var q :| q in Paths(f.kind.fields) && q in Paths(g.kind.fields);
        PathHead(f.kind.fields);
        var p := [KeyName(f)] + q;
        assert p[1..] == q;
        InField(f, p);
        InField(g, p);
      }
    }
  }

  lemma DistinctConcat<T(!new)>(a: seq<T>, b: seq<T>)
    ensures Distinct(a + b) <==> Distinct(a) && Distinct(b) && forall x | x in a :: x !in b
  {
    var c := a + b;
    if Distinct(c) {
      forall i: nat, j: nat | i < j < |a| ensures a[i] != a[j] {
        assert c[i] == a[i] && c[j] == a[j];
      }
      forall i: nat, j: nat | i < j < |b| ensures b[i] != b[j] {
        assert c[|a| + i] == b[i] && c[|a| + j] == b[j];
      }
      forall i: nat, j: nat | i < |a| && j < |b| ensures a[i] != b[j] {
        assert c[i] == a[i] && c[|a| + j] == b[j];
      }
    } else {
      var i: nat, j: nat :| i < j < |c| && c[i] == c[j];
      assert j < |a| ==> a[i] == a[j];
      assert |a| <= i ==> b[i - |a|] == b[j - |a|];
      assert i < |a| <= j ==> a[i] in a && a[i] == b[j - |a|] && a[i] in b;
    }
  }

  lemma PrefixedDistinct(name: string, paths: seq<seq<string>>)
    ensures Distinct(Prefixed(name, paths)) <==> Distinct(paths)
  {
    forall i: nat, j: nat | i < |paths| && j < |paths|
      ensures Prefixed(name, paths)[i] == Prefixed(name, paths)[j] <==> paths[i] == paths[j]
    {
      assert ([name] + paths[i])[1..] == paths[i] && ([name] + paths[j])[1..] == paths[j];
    }
  }

  lemma ApartFromRest(f: Field, rest: seq<Field>)
    ensures (forall p | p in FieldPaths(f) :: p !in Paths(rest)) <==>
            !(exists j: nat :: j < |rest| && Clash(f, rest[j]))
  {
    forall p ensures p in Paths(rest) <==> exists j: nat :: j < |rest| && p in FieldPaths(rest[j]) {
      PathOfField(rest, p);
    }
    forall j: nat | j < |rest|
      ensures Clash(f, rest[j]) <==> exists p :: p in FieldPaths(f) && p in FieldPaths(rest[j])
    {
      ClashShares(f, rest[j]);
    }
  }

  /** For every tree: a path repeats if and only if somewhere two fields of one struct clash. */
  lemma {:induction false} PathsDistinctExactly(fields: seq<Field>)
    ensures Distinct(Paths(fields)) <==> !Clashes(fields)
    decreases fields
  {
    if fields != [] {
      var f, rest := fields[0], fields[1..];
      ClashesCons(fields);
      DistinctConcat(FieldPaths(f), Paths(rest));
      PathsDistinctExactly(rest);
      ApartFromRest(f, rest);
      if f.kind.Struct? {
        PathsDistinctExactly(f.kind.fields);
        PrefixedDistinct(KeyName(f), Paths(f.kind.fields));
      }
    }
  }

  /** Without dots in names, all keys bound are different if and only if no two fields of one struct clash. */
  lemma KeysDistinctWithoutDots(fields: seq<Field>)
    requires NoDots(fields)
    ensures Distinct(Keys([], Paths(fields))) <==> Distinct(Paths(fields))
    ensures Distinct(Keys([], Paths(fields))) <==> !Clashes(fields)
  {
    KeysDistinctExactly(fields);
    FlatsNoDots(fields);
    PathsDistinctExactly(fields);
  }

  /** No name holds a dot, and no two fields of one struct have the same name. */
  ghost predicate WellNamed(fields: seq<Field>)
    decreases fields
  {
    && (forall i: nat | i < |fields| :: '.' !in KeyName(fields[i]))
    && (forall i: nat, j: nat | i < j < |fields| :: KeyName(fields[i]) != KeyName(fields[j]))
    && (forall i: nat | i < |fields| && fields[i].kind.Struct? :: WellNamed(fields[i].kind.fields))
  }

  lemma {:induction false} WellNamedIsEnough(fields: seq<Field>)
    requires WellNamed(fields)
    ensures NoDots(fields) && !Clashes(fields)
    decreases fields
  {
    forall i: nat | i < |fields| && fields[i].kind.Struct?
      ensures NoDots(fields[i].kind.fields) && !Clashes(fields[i].kind.fields)
    {
      WellNamedIsEnough(fields[i].kind.fields);
    }
  }

  /** In particular they are when no name holds a dot and sibling names differ. */
  lemma KeysDistinct(fields: seq<Field>)
    requires WellNamed(fields)
    ensures Distinct(Keys([], Paths(fields)))
  {
    WellNamedIsEnough(fields);
    KeysDistinctWithoutDots(fields);
  }

  /** Two leaves of one struct with the same name share a key. */
  lemma SiblingsCollide()
    ensures var a, b := Field("A", None, Leaf), Field("a", None, Leaf);
            NoDots([a, b]) && Clashes([a, b]) && Keys([], Paths([a, b])) == ["a", "a"]
  {
    var a, b := Field("A", None, Leaf), Field("a", None, Leaf);
    assert Lower("A") == "a" && Lower("a") == "a";
    assert [a, b][1..] == [b] && [b][1..] == [];
    assert Paths([b]) == [["a"]] && Paths([a, b]) == [["a"], ["a"]];
    assert [] + ["a"] == ["a"];
    assert Clash([a, b][0], [a, b][1]);
  }

  /** A dot in a tag can make two leaves share a key. */
  lemma DottedNamesCollide()
    ensures var a, b := Field("X", Some("a.b"), Leaf), Field("A", None, Struct([Field("B", None, Leaf)]));
            Paths([a, b]) == [["a.b"], ["a", "b"]] && Keys([], Paths([a, b])) == ["a.b", "a.b"]
  {
    var a, inner := Field("X", Some("a.b"), Leaf), Field("B", None, Leaf);
    var b := Field("A", None, Struct([inner]));
    assert Lower("A") == "a" && Lower("B") == "b";
    assert [inner][1..] == [] && [b][1..] == [] && [a, b][1..] == [b];
    assert Paths([inner]) == [["b"]];
    assert ["a"] + ["b"] == ["a", "b"];
    assert Prefixed("a", [["b"]])[0] == ["a"] + ["b"];
    assert FieldPaths(b) == Prefixed("a", [["b"]]) == [["a", "b"]];
    assert Paths([b]) == [["a", "b"]];
    assert [] + ["a.b"] == ["a.b"] && [] + ["a", "b"] == ["a", "b"] && ["a", "b"][1..] == ["b"];
    assert Join(["a", "b"]) == "a.b";
  }
}
