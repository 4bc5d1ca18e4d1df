/**
 rewriteJSON of the support bundle: a token loop with a stack of frames that
 passes every leaf to a function with its dotted member path. The function may
 keep a state from leaf to leaf (the scrubber's placeholders and counters).
 */
module RewriteJson {
  import opened Json
  import opened Decoder
  import opened Wrappers

  /** (state, path, leaf) to (state, leaf to write, false to drop an array element). */
  type LeafFn<!S> = (S, string, Leaf) -> (S, Leaf, bool)

  // ---- the recursive tree map ---------------------------------------------------

  function Join(parts: seq<string>): string {
    if parts == [] then ""
    else if |parts| == 1 then parts[0]
    else parts[0] + "." + Join(parts[1..])
  }

  /** The path of a member: an empty name does not show. */
  function Under(path: seq<string>, name: string): seq<string> {
    if name == "" then path else path + [name]
  }

  /** A dropped element of an array is None; anywhere else it becomes null. */
  function MapValue<S>(v: Value, path: seq<string>, element: bool, f: LeafFn<S>, s: S): (r: (Option<Value>, S))
    ensures r.0.None? ==> element && v.Scalar?
    decreases v, 0
  {
    match v
    case Scalar(l) =>
      var (s', l', keep) := f(s, Join(path), l);
      (if keep then Some(Scalar(l')) else if element then None else Some(Scalar(Null)), s')
    case Arr(items) => var (items', s') := MapItems(items, path, f, s); (Some(Arr(items')), s')
    case Obj(ms) => var (ms', s') := MapMembers(ms, path, f, s); (Some(Obj(ms')), s')
  }

  function MapItems<S>(items: seq<Value>, path: seq<string>, f: LeafFn<S>, s: S): (seq<Value>, S)
    decreases items, 1
  {
    if items == [] then ([], s)
    else
      var (first, s1) := MapValue(items[0], path, true, f, s);
      var (rest, s2) := MapItems(items[1..], path, f, s1);
      ((if first.Some? then [first.value] else []) + rest, s2)
  }

  function MapMembers<S>(ms: seq<Member>, path: seq<string>, f: LeafFn<S>, s: S): (r: (seq<Member>, S))
    ensures |r.0| == |ms|
    ensures forall i :: 0 <= i < |ms| ==> r.0[i].name == ms[i].name
    decreases ms, 1
  {
    if ms == [] then ([], s)
    else
      var (first, s1) := MapValue(ms[0].value, Under(path, ms[0].name), false, f, s);
      var (rest, s2) := MapMembers(ms[1..], path, f, s1);
      ([Member(ms[0].name, first.value)] + rest, s2)
  }

  /** The top-level values of an input. */
  function MapDocs<S>(docs: seq<Value>, f: LeafFn<S>, s: S): (seq<Value>, S) {
    if docs == [] then ([], s)
    else
      var (first, s1) := MapValue(docs[0], [], false, f, s);
      var (rest, s2) := MapDocs(docs[1..], f, s1);
      ([first.value] + rest, s2)
  }

  lemma {:induction false} MapItemsAppend<S>(items: seq<Value>, v: Value, path: seq<string>, f: LeafFn<S>, s: S)
    ensures var (done, s1) := MapItems(items, path, f, s);
            var (r, s2) := MapValue(v, path, true, f, s1);
            MapItems(items + [v], path, f, s) == (if r.Some? then done + [r.value] else done, s2)
  {
    if items == [] {
      assert items + [v] == [v] && [v][1..] == [];
      var (r, s1) := MapValue(v, path, true, f, s);
      var head := if r.Some? then [r.value] else [];
      assert MapItems([v], path, f, s) == (head + [], s1) && head + [] == head;
      assert r.Some? ==> [] + [r.value] == head;
    } else {
      assert (items + [v])[1..] == items[1..] + [v] && (items + [v])[0] == items[0];
      var (first, s1) := MapValue(items[0], path, true, f, s);
      MapItemsAppend(items[1..], v, path, f, s1);
      var (rest, s2) := MapItems(items[1..], path, f, s1);
      var head := if first.Some? then [first.value] else [];
      var r := MapValue(v, path, true, f, s2).0;
      assert r.Some? ==> head + (rest + [r.value]) == (head + rest) + [r.value];
    }
  }

  lemma {:induction false} MapMembersAppend<S>(ms: seq<Member>, m: Member, path: seq<string>, f: LeafFn<S>, s: S)
    ensures var (done, s1) := MapMembers(ms, path, f, s);
            var (r, s2) := MapValue(m.value, Under(path, m.name), false, f, s1);
            MapMembers(ms + [m], path, f, s) == (done + [Member(m.name, r.value)], s2)
  {
    if ms == [] {
      assert ms + [m] == [m] && [m][1..] == [];
      var last := Member(m.name, MapValue(m.value, Under(path, m.name), false, f, s).0.value);
      assert [last] + [] == [] + [last];
    } else {
      assert (ms + [m])[1..] == ms[1..] + [m] && (ms + [m])[0] == ms[0];
      var (first, s1) := MapValue(ms[0].value, Under(path, ms[0].name), false, f, s);
      MapMembersAppend(ms[1..], m, path, f, s1);
      var (rest, s2) := MapMembers(ms[1..], path, f, s1);
      var head, last := [Member(ms[0].name, first.value)], MapValue(m.value, Under(path, m.name), false, f, s2).0;
      assert head + (rest + [Member(m.name, last.value)]) == (head + rest) + [Member(m.name, last.value)];
    }
  }

  lemma {:induction false} MapDocsAppend<S>(docs: seq<Value>, v: Value, f: LeafFn<S>, s: S)
    ensures var (done, s1) := MapDocs(docs, f, s);
            var (r, s2) := MapValue(v, [], false, f, s1);
            MapDocs(docs + [v], f, s) == (done + [r.value], s2)
  {
    if docs == [] {
      assert docs + [v] == [v] && [v][1..] == [];
      var last := MapValue(v, [], false, f, s).0.value;
      assert [last] + [] == [] + [last];
    } else {
      assert (docs + [v])[1..] == docs[1..] + [v] && (docs + [v])[0] == docs[0];
      var (first, s1) := MapValue(docs[0], [], false, f, s);
      MapDocsAppend(docs[1..], v, f, s1);
      var (rest, s2) := MapDocs(docs[1..], f, s1);
      var last := MapValue(v, [], false, f, s2).0;
      assert [first.value] + (rest + [last.value]) == ([first.value] + rest) + [last.value];
    }
  }

  // ---- what the map means ---------------------------------------------------------

  datatype Call = Call(path: string, leaf: Leaf)

  /** The leaves of a value in document order, each with its dotted path. */
  function Leaves(v: Value, path: seq<string>): seq<Call>
    decreases v, 0
  {
    match v
    case Scalar(l) => [Call(Join(path), l)]
    case Arr(items) => ItemLeaves(items, path)
    case Obj(ms) => MemberLeaves(ms, path)
  }

  function ItemLeaves(items: seq<Value>, path: seq<string>): seq<Call>
    decreases items, 1
  {
    if items == [] then [] else Leaves(items[0], path) + ItemLeaves(items[1..], path)
  }

  function MemberLeaves(ms: seq<Member>, path: seq<string>): seq<Call>
    decreases ms, 1
  {
    if ms == [] then [] else Leaves(ms[0].value, Under(path, ms[0].name)) + MemberLeaves(ms[1..], path)
  }

  /** The state after f was called with each of the leaves in turn. */
  function Fold<S>(calls: seq<Call>, f: LeafFn<S>, s: S): S {
    if calls == [] then s else Fold(calls[1..], f, f(s, calls[0].path, calls[0].leaf).0)
  }

  lemma {:induction false} FoldConcat<S>(a: seq<Call>, b: seq<Call>, f: LeafFn<S>, s: S)
    ensures Fold(a + b, f, s) == Fold(b, f, Fold(a, f, s))
  {
    if a == [] {
      assert a + b == b;
    } else {
      assert (a + b)[1..] == a[1..] + b;
      FoldConcat(a[1..], b, f, f(s, a[0].path, a[0].leaf).0);
    }
  }

  /** Every leaf is passed exactly once, in document order, with the dotted path
      of its members: array elements carry their array's path. */
  lemma {:induction false} EveryLeafOnce<S>(v: Value, path: seq<string>, element: bool, f: LeafFn<S>, s: S)
    ensures MapValue(v, path, element, f, s).1 == Fold(Leaves(v, path), f, s)
    decreases v, 0
  {
    match v
    case Scalar(l) => assert Leaves(v, path)[1..] == [];
    case Arr(items) => EveryItemOnce(items, path, f, s);
    case Obj(ms) => EveryMemberOnce(ms, path, f, s);
  }

  lemma {:induction false} EveryItemOnce<S>(items: seq<Value>, path: seq<string>, f: LeafFn<S>, s: S)
    ensures MapItems(items, path, f, s).1 == Fold(ItemLeaves(items, path), f, s)
    decreases items, 1
  {
    if items != [] {
      EveryLeafOnce(items[0], path, true, f, s);
      EveryItemOnce(items[1..], path, f, MapValue(items[0], path, true, f, s).1);
      FoldConcat(Leaves(items[0], path), ItemLeaves(items[1..], path), f, s);
    }
  }

  lemma {:induction false} EveryMemberOnce<S>(ms: seq<Member>, path: seq<string>, f: LeafFn<S>, s: S)
    ensures MapMembers(ms, path, f, s).1 == Fold(MemberLeaves(ms, path), f, s)
    decreases ms, 1
  {
    if ms != [] {
      var under := Under(path, ms[0].name);
      EveryLeafOnce(ms[0].value, under, false, f, s);
      EveryMemberOnce(ms[1..], path, f, MapValue(ms[0].value, under, false, f, s).1);
      FoldConcat(Leaves(ms[0].value, under), MemberLeaves(ms[1..], path), f, s);
    }
  }

  /** A function that keeps every leaf it is given leaves the document alone. */
  lemma {:induction false} KeepingChangesNothing<S>(v: Value, path: seq<string>, element: bool, f: LeafFn<S>, s: S)
    requires forall s, p, l :: f(s, p, l).1 == l && f(s, p, l).2
    ensures MapValue(v, path, element, f, s).0 == Some(v)
    decreases v, 0
  {
    match v
    case Scalar(l) =>
    case Arr(items) => KeepingItems(items, path, f, s);
    case Obj(ms) => KeepingMembers(ms, path, f, s);
  }

  lemma {:induction false} KeepingItems<S>(items: seq<Value>, path: seq<string>, f: LeafFn<S>, s: S)
    requires forall s, p, l :: f(s, p, l).1 == l && f(s, p, l).2
    ensures MapItems(items, path, f, s).0 == items
    decreases items, 1
  {
    if items != [] {
      KeepingChangesNothing(items[0], path, true, f, s);
      KeepingItems(items[1..], path, f, MapValue(items[0], path, true, f, s).1);
    }
  }

  lemma {:induction false} KeepingMembers<S>(ms: seq<Member>, path: seq<string>, f: LeafFn<S>, s: S)
    requires forall s, p, l :: f(s, p, l).1 == l && f(s, p, l).2
    ensures MapMembers(ms, path, f, s).0 == ms
    decreases ms, 1
  {
    if ms != [] {
      var under := Under(path, ms[0].name);
      KeepingChangesNothing(ms[0].value, under, false, f, s);
      KeepingMembers(ms[1..], path, f, MapValue(ms[0].value, under, false, f, s).1);
    }
  }

  // ---- what is written for each leaf -------------------------------------------------------

  /** Which leaves of a value are elements of an array, in document order. */
  function Elements(v: Value, element: bool): seq<bool>
    decreases v, 0
  {
    match v
    case Scalar(_) => [element]
    case Arr(items) => ItemElements(items)
    case Obj(ms) => MemberElements(ms)
  }

  function ItemElements(items: seq<Value>): seq<bool>
    decreases items, 1
  {
    if items == [] then [] else Elements(items[0], true) + ItemElements(items[1..])
  }

  function MemberElements(ms: seq<Member>): seq<bool>
    decreases ms, 1
  {
    if ms == [] then [] else Elements(ms[0].value, false) + MemberElements(ms[1..])
  }

  /** What f answers for each leaf in turn: a leaf that is not kept is left out of its
      array, and is null anywhere else. */
  function Answered<S>(calls: seq<Call>, elements: seq<bool>, f: LeafFn<S>, s: S): seq<Call>
    requires |calls| == |elements|
  {
    if calls == [] then []
    else
      var (s', l, keep) := f(s, calls[0].path, calls[0].leaf);
      (if keep then [Call(calls[0].path, l)] else if elements[0] then [] else [Call(calls[0].path, Null)])
      + Answered(calls[1..], elements[1..], f, s')
  }

  lemma {:induction false} AnsweredConcat<S>(a: seq<Call>, ea: seq<bool>, b: seq<Call>, eb: seq<bool>, f: LeafFn<S>, s: S)
    requires |a| == |ea| && |b| == |eb|
    ensures Answered(a + b, ea + eb, f, s) == Answered(a, ea, f, s) + Answered(b, eb, f, Fold(a, f, s))
  {
    if a == [] {
      assert a + b == b && ea + eb == eb;
    } else {
      assert (a + b)[1..] == a[1..] + b && (ea + eb)[1..] == ea[1..] + eb;
      AnsweredConcat(a[1..], ea[1..], b, eb, f, f(s, a[0].path, a[0].leaf).0);
    }
  }

  function LeavesOf(v: Option<Value>, path: seq<string>): seq<Call> {
    if v.None? then [] else Leaves(v.value, path)
  }

  /** The leaves of the result are the answers for the leaves of the document, in their
      order and under their paths. */
  lemma {:induction false} LeavesAreAnswers<S>(v: Value, path: seq<string>, element: bool, f: LeafFn<S>, s: S)
    ensures |Leaves(v, path)| == |Elements(v, element)|
    ensures LeavesOf(MapValue(v, path, element, f, s).0, path) == Answered(Leaves(v, path), Elements(v, element), f, s)
    decreases v, 0
  {
    match v
    case Scalar(l) =>
      var calls := Leaves(v, path);
      assert Answered(calls[1..], Elements(v, element)[1..], f, f(s, calls[0].path, l).0) == [];
    case Arr(items) => ItemsAreAnswers(items, path, f, s);
    case Obj(ms) => MembersAreAnswers(ms, path, f, s);
  }

  lemma {:induction false} ItemsAreAnswers<S>(items: seq<Value>, path: seq<string>, f: LeafFn<S>, s: S)
    ensures |ItemLeaves(items, path)| == |ItemElements(items)|
    ensures ItemLeaves(MapItems(items, path, f, s).0, path) == Answered(ItemLeaves(items, path), ItemElements(items), f, s)
    decreases items, 1
  {
    if items != [] {
      var (first, s1) := MapValue(items[0], path, true, f, s);
      var rest := MapItems(items[1..], path, f, s1).0;
      LeavesAreAnswers(items[0], path, true, f, s);
      ItemsAreAnswers(items[1..], path, f, s1);
      EveryLeafOnce(items[0], path, true, f, s);
      AnsweredConcat(Leaves(items[0], path), Elements(items[0], true), ItemLeaves(items[1..], path), ItemElements(items[1..]), f, s);
      if first.Some? {
        assert ([first.value] + rest)[1..] == rest;
      } else {
        assert [] + rest == rest;
      }
    }
  }

  lemma {:induction false} MembersAreAnswers<S>(ms: seq<Member>, path: seq<string>, f: LeafFn<S>, s: S)
    ensures |MemberLeaves(ms, path)| == |MemberElements(ms)|
    ensures MemberLeaves(MapMembers(ms, path, f, s).0, path) == Answered(MemberLeaves(ms, path), MemberElements(ms), f, s)
    decreases ms, 1
  {
    if ms != [] {
      var under := Under(path, ms[0].name);
      var (first, s1) := MapValue(ms[0].value, under, false, f, s);
      var rest := MapMembers(ms[1..], path, f, s1).0;
      LeavesAreAnswers(ms[0].value, under, false, f, s);
      MembersAreAnswers(ms[1..], path, f, s1);
      EveryLeafOnce(ms[0].value, under, false, f, s);
      AnsweredConcat(Leaves(ms[0].value, under), Elements(ms[0].value, false), MemberLeaves(ms[1..], path), MemberElements(ms[1..]), f, s);
      assert ([Member(ms[0].name, first.value)] + rest)[1..] == rest;
    }
  }

  // ---- what a path says ------------------------------------------------------------------

  /** The parts of a text between its dots, read from left to right. */
  function Split(s: string): (parts: seq<string>)
    ensures parts != []
  {
    if s == "" then [""]
    else
      var rest := Split(s[1..]);
      if s[0] == '.' then [""] + rest else [[s[0]] + rest[0]] + rest[1..]
  }

  ghost predicate NoDots(parts: seq<string>) {
    forall p <- parts :: '.' !in p
  }

  lemma {:induction false} SplitPlain(p: string)
    requires '.' !in p
    ensures Split(p) == [p]
  {
    if p != "" {
      assert p[0] in p && [p[0]] + p[1..] == p;
      SplitPlain(p[1..]);
    }
  }

  lemma {:induction false} SplitFirst(p: string, rest: string)
    requires '.' !in p
    ensures Split(p + "." + rest) == [p] + Split(rest)
  {
    var s := p + "." + rest;
    if p == "" {
      assert s[1..] == rest;
    } else {
      assert p[0] in p && s[0] == p[0] && [p[0]] + p[1..] == p;
      assert s[1..] == p[1..] + "." + rest;
      SplitFirst(p[1..], rest);
    }
  }

  /** The parts of a joined path are the names it was joined from. */
  lemma {:induction false} SplitJoin(parts: seq<string>)
    requires parts != [] && NoDots(parts)
    ensures Split(Join(parts)) == parts
  {
    if |parts| == 1 {
      SplitPlain(parts[0]);
    } else {
      SplitJoin(parts[1..]);
      SplitFirst(parts[0], Join(parts[1..]));
    }
  }

  /** Different lists of names without dots have different paths. */
  lemma {:induction false} JoinInjective(a: seq<string>, b: seq<string>)
    requires NoDots(a) && NoDots(b) && "" !in a && "" !in b && Join(a) == Join(b)
    ensures a == b
  {
    if a != [] {
      SplitJoin(a);
    }
    if b != [] {
      SplitJoin(b);
    }
  }

  /** The member names on the way from a value to one of its leaves. */
  ghost predicate Reaches(v: Value, names: seq<string>, l: Leaf)
    decreases v
  {
    match v
    case Scalar(x) => names == [] && x == l
    case Arr(items) => exists i :: 0 <= i < |items| && Reaches(items[i], names, l)
    case Obj(ms) => names != [] && exists i :: 0 <= i < |ms| && ms[i].name == names[0] && Reaches(ms[i].value, names[1..], l)
  }

  function Named(names: seq<string>): seq<string> {
    if names == [] then []
    else (if names[0] == "" then [] else [names[0]]) + Named(names[1..])
  }

  lemma {:induction false} NamedAre(names: seq<string>)
    ensures forall p :: p in Named(names) <==> p in names && p != ""
    ensures "" !in names ==> Named(names) == names
  {
    if names != [] {
      NamedAre(names[1..]);
      assert names == [names[0]] + names[1..];
    }
  }

  /** A leaf is passed with a path exactly when the path joins the non-empty member
      names on the way to it. */
  lemma {:induction false} PathsAreNames(v: Value, path: seq<string>, p: string, l: Leaf)
    ensures Call(p, l) in Leaves(v, path) <==> exists names :: Reaches(v, names, l) && p == Join(path + Named(names))
    decreases v, 0
  {
    match v
    case Scalar(x) =>
      assert path + Named([]) == path;
      assert Reaches(v, [], x);
    case Arr(items) => ItemPaths(items, path, p, l);
    case Obj(ms) => MemberPaths(ms, path, p, l);
  }

  lemma {:induction false} ItemPaths(items: seq<Value>, path: seq<string>, p: string, l: Leaf)
    ensures Call(p, l) in ItemLeaves(items, path)
       <==> exists names :: Reaches(Arr(items), names, l) && p == Join(path + Named(names))
    decreases items, 1
  {
    if items != [] {
      PathsAreNames(items[0], path, p, l);
      ItemPaths(items[1..], path, p, l);
      forall names ensures Reaches(Arr(items), names, l) <==> Reaches(items[0], names, l) || Reaches(Arr(items[1..]), names, l) {
        ItemReaches(items, names, l);
      }
    }
  }

  lemma ItemReaches(items: seq<Value>, names: seq<string>, l: Leaf)
    requires items != []
    ensures Reaches(Arr(items), names, l) <==> Reaches(items[0], names, l) || Reaches(Arr(items[1..]), names, l)
  {
    if i :| 0 <= i < |items| && Reaches(items[i], names, l) {
      assert i > 0 ==> items[1..][i - 1] == items[i];
    }
    if i :| 0 <= i < |items[1..]| && Reaches(items[1..][i], names, l) {
      assert items[i + 1] == items[1..][i];
    }
  }

  lemma {:induction false} MemberPaths(ms: seq<Member>, path: seq<string>, p: string, l: Leaf)
    ensures Call(p, l) in MemberLeaves(ms, path)
       <==> exists names :: Reaches(Obj(ms), names, l) && p == Join(path + Named(names))
    decreases ms, 1
  {
    if ms != [] {
      var m := ms[0];
      PathsAreNames(m.value, Under(path, m.name), p, l);
      MemberPaths(ms[1..], path, p, l);
      forall names ensures Reaches(Obj(ms), names, l) <==> FirstReaches(m, names, l) || Reaches(Obj(ms[1..]), names, l) {
        MemberReaches(ms, names, l);
      }
      FirstPaths(m, path, p, l);
    }
  }

  ghost predicate FirstReaches(m: Member, names: seq<string>, l: Leaf) {
    names != [] && names[0] == m.name && Reaches(m.value, names[1..], l)
  }

  lemma MemberReaches(ms: seq<Member>, names: seq<string>, l: Leaf)
    requires ms != []
    ensures Reaches(Obj(ms), names, l) <==> FirstReaches(ms[0], names, l) || Reaches(Obj(ms[1..]), names, l)
  {
    if names != [] {
      if i :| 0 <= i < |ms| && ms[i].name == names[0] && Reaches(ms[i].value, names[1..], l) {
        assert i > 0 ==> ms[1..][i - 1] == ms[i];
      }
      if i :| 0 <= i < |ms[1..]| && ms[1..][i].name == names[0] && Reaches(ms[1..][i].value, names[1..], l) {
        assert ms[i + 1] == ms[1..][i];
      }
    }
  }

  lemma FirstPaths(m: Member, path: seq<string>, p: string, l: Leaf)
    ensures (exists names :: FirstReaches(m, names, l) && p == Join(path + Named(names)))
       <==> (exists rest :: Reaches(m.value, rest, l) && p == Join(Under(path, m.name) + Named(rest)))
  {
    hide Reaches, Join;
    if names :| FirstReaches(m, names, l) && p == Join(path + Named(names)) {
      NamedUnder(path, m.name, names[1..]);
      assert names == [m.name] + names[1..];
    }
    if rest :| Reaches(m.value, rest, l) && p == Join(Under(path, m.name) + Named(rest)) {
      NamedUnder(path, m.name, rest);
      assert FirstReaches(m, [m.name] + rest, l);
    }
  }

  lemma NamedUnder(path: seq<string>, name: string, rest: seq<string>)
    ensures path + Named([name] + rest) == Under(path, name) + Named(rest)
  {
    assert ([name] + rest)[1..] == rest;
    if name != "" {
      assert path + ([name] + Named(rest)) == (path + [name]) + Named(rest);
    }
  }

  // ---- the map of the part read so far ----------------------------------------------

  function PathOf(z: Zip): seq<string> {
    match z
    case Top(_) => []
    case Push(rest, OpenArr(_)) => PathOf(rest)
    case Push(rest, OpenObj(_, None)) => PathOf(rest)
    case Push(rest, OpenObj(_, Some(name))) => Under(PathOf(rest), name)
  }

  predicate InArray(z: Zip) {
    z.Push? && z.open.OpenArr?
  }

  function MapOpen<S>(o: Open, path: seq<string>, f: LeafFn<S>, s: S): (Open, S) {
    match o
    case OpenArr(items) => var (items', s') := MapItems(items, path, f, s); (OpenArr(items'), s')
    case OpenObj(ms, pending) => var (ms', s') := MapMembers(ms, path, f, s); (OpenObj(ms', pending), s')
  }

  function MapZip<S>(z: Zip, f: LeafFn<S>, s: S): (r: (Zip, S))
    ensures Ready(z) <==> Ready(r.0)
    ensures r.0.Push? <==> z.Push?
  {
    match z
    case Top(docs) => var (docs', s') := MapDocs(docs, f, s); (Top(docs'), s')
    case Push(rest, o) =>
      var (rest', s1) := MapZip(rest, f, s);
      var (o', s2) := MapOpen(o, PathOf(rest), f, s1);
      (Push(rest', o'), s2)
  }

  function AddMapped(z: Zip, v: Option<Value>): Zip
    requires Ready(z)
  {
    if v.Some? then Add(z, v.value) else z
  }

  lemma MapAdd<S>(z: Zip, v: Value, f: LeafFn<S>, s: S)
    requires Ready(z)
    ensures var (z', s1) := MapZip(z, f, s);
            var (v', s2) := MapValue(v, PathOf(z), InArray(z), f, s1);
            MapZip(Add(z, v), f, s) == (AddMapped(z', v'), s2)
  {
    match z
    case Top(docs) => MapDocsAppend(docs, v, f, s);
    case Push(rest, OpenArr(items)) =>
      MapItemsAppend(items, v, PathOf(rest), f, MapZip(rest, f, s).1);
    case Push(rest, OpenObj(ms, pending)) =>
      MapMembersAppend(ms, Member(pending.value, v), PathOf(rest), f, MapZip(rest, f, s).1);
  }

  // ---- rewriteJSON ----------------------------------------------------------------------

  /** An open object or array: the member name being read. */
  datatype JsonFrame = JsonFrame(obj: bool, name: string)

  function Parts(frames: seq<JsonFrame>): seq<string> {
    if frames == [] then []
    else
      var f := frames[|frames| - 1];
      var before := Parts(frames[..|frames| - 1]);
      if f.obj && f.name != "" then before + [f.name] else before
  }

  method CurrentPath(frames: seq<JsonFrame>) returns (path: string)
    ensures path == Join(Parts(frames))
  {
    var parts := [];
    for i := 0 to |frames|
      invariant parts == Parts(frames[..i])
    {
      assert frames[..i + 1][..i] == frames[..i];
      if frames[i].obj && frames[i].name != "" {
        parts := parts + [frames[i].name];
      }
    }
    assert frames[..|frames|] == frames;
    path := Join(parts);
  }

  ghost predicate FramesStand(frames: seq<JsonFrame>, z: Zip)
    decreases z
  {
    match z
    case Top(_) => frames == []
    case Push(rest, o) =>
      && frames != []
      && FramesStand(frames[..|frames| - 1], rest)
      && var top := frames[|frames| - 1];
         match o
         case OpenArr(_) => !top.obj
         case OpenObj(_, pending) => top.obj && (pending.Some? ==> top.name == pending.value)
  }

  lemma {:induction false} PartsArePath(frames: seq<JsonFrame>, z: Zip)
    requires FramesStand(frames, z) && Nested(z) && Ready(z)
    ensures Parts(frames) == PathOf(z)
    decreases z
  {
    if z.Push? {
      PartsArePath(frames[..|frames| - 1], z.rest);
    }
  }

  /** What holds before each token: `z` is the document read so far, and what
      was written is its map. */
  ghost predicate Mapped<S>(z: Zip, frames: seq<JsonFrame>, out: seq<Token>, outStack: seq<Frame>,
                            f: LeafFn<S>, s0: S, s: S)
  {
    && Nested(z)
    && FramesStand(frames, z)
    && MapZip(z, f, s0).1 == s
    && Nested(MapZip(z, f, s0).0)
    && out == Consumed(MapZip(z, f, s0).0)
    && Stands(outStack, MapZip(z, f, s0).0, false)
  }

  /** Copies a JSON input and passes every leaf to f; an input that is no
      sequence of complete JSON values is an error. */
  method Rewrite<S>(toks: seq<Token>, f: LeafFn<S>, s0: S) returns (r: Result<seq<Token>, ()>, s: S)
    ensures match Parse(toks)
            case None => r == Err(())
            case Some(docs) => r == Ok(Stream(MapDocs(docs, f, s0).0)) && s == MapDocs(docs, f, s0).1
  {
    hide Reading, Mapped, Step, ZipStep, Nested, Ready;
    s := s0;
    var dec := new TokenReader(toks);
    var enc := new TokenWriter();
    var stack: seq<JsonFrame> := [];
    ghost var z := Top([]);
    Begins(toks, f, s0);
    while true
      invariant dec.Valid() && dec.toks == toks
      invariant Reading(toks, dec.pos, dec.stack, z)
      invariant Mapped(z, stack, enc.out, enc.stack, f, s0, s)
      decreases |toks| - dec.pos
    {
      ReadingStep(toks, dec.pos, dec.stack, z);
      ghost var before := dec.stack;
      var read := dec.ReadToken();
      if read == Eof {
        EndMapped(toks, z, stack, enc.out, enc.stack, f, s0, s);
        break;
      }
      if read == Bad {
        BadEnds(toks, dec.pos, before, z);
        return Err(()), s;
      }
      var tok := read.t;
      ghost var next := ZipStep(z, tok).value;
      if tok == ObjOpen || tok == ArrOpen {
        OpenMapped(z, stack, enc.out, enc.stack, f, s0, s, tok);
        stack := stack + [JsonFrame(tok == ObjOpen, "")];
      } else if tok == ObjClose || tok == ArrClose {
        CloseMapped(z, stack, enc.out, enc.stack, f, s0, s, tok);
        stack := stack[..|stack| - 1];
      } else {
        NameOrLeaf(toks, dec.pos - 1, before, z, stack, enc.out, enc.stack, f, s0, s, tok.leaf);
        if |stack| > 0 && stack[|stack| - 1].obj && dec.stack[|dec.stack| - 1].length % 2 == 1 {
          NameMapped(z, stack, enc.out, enc.stack, f, s0, s, tok.leaf);
          stack := stack[..|stack| - 1] + [JsonFrame(true, tok.leaf.s)];
        } else {
          LeafMapped(z, stack, enc.out, enc.stack, f, s0, s, tok.leaf);
          var path := CurrentPath(stack);
          var (s', nt, keep) := f(s, path, tok.leaf);
          s := s';
          if !keep && (|stack| == 0 || stack[|stack| - 1].obj) {
            nt, keep := Null, true;
          }
          if !keep {
            z := next;
            continue;
          }
          tok := Lit(nt);
        }
      }
      z := next;
      var ok := enc.WriteToken(tok);
      if !ok {
        return Err(()), s;
      }
    }
    return Ok(enc.out), s;
  }

  lemma Begins<S>(toks: seq<Token>, f: LeafFn<S>, s0: S)
    ensures Reading(toks, 0, [], Top([])) && Mapped(Top([]), [], [], [], f, s0, s0)
  {
    assert toks[0..] == toks;
  }

  /** The input ends outside of all containers: what was written is its map. */
  lemma EndMapped<S>(toks: seq<Token>, z: Zip, frames: seq<JsonFrame>, out: seq<Token>, outStack: seq<Frame>,
                     f: LeafFn<S>, s0: S, s: S)
    requires Reading(toks, |toks|, [], z) && Mapped(z, frames, out, outStack, f, s0, s)
    ensures Parse(toks).Some?
    ensures var docs := Parse(toks).value; out == Stream(MapDocs(docs, f, s0).0) && s == MapDocs(docs, f, s0).1
  {
    ReadingStep(toks, |toks|, [], z);
  }

  /** The frames and the decoder tell a member name from a value. */
  lemma NameOrLeaf<S>(toks: seq<Token>, pos: nat, stack: seq<Frame>, z: Zip, frames: seq<JsonFrame>, out: seq<Token>,
                      outStack: seq<Frame>, f: LeafFn<S>, s0: S, s: S, l: Leaf)
    requires Reading(toks, pos, stack, z) && Mapped(z, frames, out, outStack, f, s0, s) && Step(stack, Lit(l)).Some?
    ensures var next := Step(stack, Lit(l)).value;
            && (frames != [] ==> next != [])
            && (frames != [] && frames[|frames| - 1].obj && next[|next| - 1].length % 2 == 1 <==> !Ready(z))
    ensures Nested(z) && (Ready(z) ==> ZipStep(z, Lit(l)) == Some(Add(z, Scalar(l))))
  {
    LengthTellsNames(stack, z, l);
  }

  lemma OpenMapped<S>(z: Zip, frames: seq<JsonFrame>, out: seq<Token>, outStack: seq<Frame>,
                      f: LeafFn<S>, s0: S, s: S, t: Token)
    requires Mapped(z, frames, out, outStack, f, s0, s)
    requires t == ObjOpen || t == ArrOpen
    requires ZipStep(z, t).Some?
    ensures Step(outStack, t).Some?
    ensures Mapped(ZipStep(z, t).value, frames + [JsonFrame(t == ObjOpen, "")], out + [t], Step(outStack, t).value, f, s0, s)
  {
    var z' := MapZip(z, f, s0).0;
    StepAgrees(outStack, z', t);
    var next := ZipStep(z, t).value;
    assert MapZip(next, f, s0) == (ZipStep(z', t).value, s);
    assert OpenTokens(next.open) == [t];
    var frames' := frames + [JsonFrame(t == ObjOpen, "")];
    assert frames'[..|frames'| - 1] == frames;
  }

  /** The value that the token t completes. */
  function Completed(z: Zip, t: Token): Value
    requires z.Push? && (t == ObjClose <==> z.open.OpenObj?)
  {
    if z.open.OpenObj? then Obj(z.open.members) else Arr(z.open.items)
  }

  lemma CloseMaps<S>(z: Zip, f: LeafFn<S>, s0: S, t: Token)
    requires Nested(z) && (t == ObjClose || t == ArrClose) && ZipStep(z, t).Some?
    requires Nested(MapZip(z, f, s0).0)
    ensures ZipStep(MapZip(z, f, s0).0, t).Some?
    ensures MapZip(ZipStep(z, t).value, f, s0) == (ZipStep(MapZip(z, f, s0).0, t).value, MapZip(z, f, s0).1)
  {
    MapAdd(z.rest, Completed(z, t), f, s0);
  }

  lemma CloseFrames(frames: seq<JsonFrame>, z: Zip, t: Token)
    requires FramesStand(frames, z) && Nested(z) && (t == ObjClose || t == ArrClose) && ZipStep(z, t).Some?
    ensures frames != [] && FramesStand(frames[..|frames| - 1], ZipStep(z, t).value)
  {
    AddFramesStand(frames[..|frames| - 1], z.rest, Completed(z, t));
  }

  lemma CloseWritten(z': Zip, out: seq<Token>, outStack: seq<Frame>, t: Token)
    requires Nested(z') && (t == ObjClose || t == ArrClose) && ZipStep(z', t).Some?
    requires out == Consumed(z') && Stands(outStack, z', false)
    ensures Step(outStack, t).Some?
    ensures out + [t] == Consumed(ZipStep(z', t).value)
    ensures Stands(Step(outStack, t).value, ZipStep(z', t).value, false)
  {
    StepAgrees(outStack, z', t);
    hide Stands, Step;
    AddConsumed(z'.rest, Completed(z', t));
    assert Consumed(z') + [t] == Consumed(z'.rest) + Tokens(Completed(z', t));
  }

  lemma CloseMapped<S>(z: Zip, frames: seq<JsonFrame>, out: seq<Token>, outStack: seq<Frame>,
                       f: LeafFn<S>, s0: S, s: S, t: Token)
    requires Mapped(z, frames, out, outStack, f, s0, s)
    requires t == ObjClose || t == ArrClose
    requires ZipStep(z, t).Some?
    ensures Step(outStack, t).Some? && frames != []
    ensures Mapped(ZipStep(z, t).value, frames[..|frames| - 1], out + [t], Step(outStack, t).value, f, s0, s)
  {
    hide FramesStand, MapZip, Consumed, Stands, Step, ZipStep, Nested, Ready;
    CloseMaps(z, f, s0, t);
    CloseFrames(frames, z, t);
    CloseWritten(MapZip(z, f, s0).0, out, outStack, t);
  }

  lemma AddFramesStand(frames: seq<JsonFrame>, z: Zip, v: Value)
    requires FramesStand(frames, z) && Ready(z)
    ensures FramesStand(frames, Add(z, v))
  {
  }

  lemma NewNameStays(ms: seq<Member>, ms': seq<Member>, name: string)
    requires |ms'| == |ms| && forall i :: 0 <= i < |ms| ==> ms'[i].name == ms[i].name
    requires forall m :: m in ms ==> m.name != name
    ensures forall m :: m in ms' ==> m.name != name
  {
    forall m | m in ms' ensures m.name != name {
      var i :| 0 <= i < |ms'| && ms'[i] == m;
      assert ms[i] in ms;
    }
  }

  /** The map of the document once a member name is read. */
  lemma NameMaps<S>(z: Zip, f: LeafFn<S>, s0: S, l: Leaf)
    requires Nested(z) && !Ready(z) && ZipStep(z, Lit(l)).Some?
    requires Nested(MapZip(z, f, s0).0)
    ensures l.Text? && z.Push? && z.open.OpenObj?
    ensures ZipStep(MapZip(z, f, s0).0, Lit(l)).Some?
    ensures MapZip(ZipStep(z, Lit(l)).value, f, s0) == (ZipStep(MapZip(z, f, s0).0, Lit(l)).value, MapZip(z, f, s0).1)
  {
    var z' := MapZip(z, f, s0).0;
    NewNameStays(z.open.members, z'.open.members, l.s);
  }

  lemma NameFrames(frames: seq<JsonFrame>, z: Zip, l: Leaf)
    requires FramesStand(frames, z) && Nested(z) && !Ready(z) && ZipStep(z, Lit(l)).Some?
    ensures l.Text? && frames != []
    ensures FramesStand(frames[..|frames| - 1] + [JsonFrame(true, l.s)], ZipStep(z, Lit(l)).value)
  {
    var frames' := frames[..|frames| - 1] + [JsonFrame(true, l.s)];
    assert frames'[..|frames'| - 1] == frames[..|frames| - 1];
  }

  /** The encoder takes a name that the document can take. */
  lemma NameWritten(z': Zip, out: seq<Token>, outStack: seq<Frame>, l: Leaf)
    requires Nested(z') && !Ready(z') && ZipStep(z', Lit(l)).Some? && out == Consumed(z') && Stands(outStack, z', false)
    ensures Step(outStack, Lit(l)).Some?
    ensures out + [Lit(l)] == Consumed(ZipStep(z', Lit(l)).value)
    ensures Stands(Step(outStack, Lit(l)).value, ZipStep(z', Lit(l)).value, false)
  {
    StepAgrees(outStack, z', Lit(l));
    hide Stands, Step;
  }

  lemma NameMapped<S>(z: Zip, frames: seq<JsonFrame>, out: seq<Token>, outStack: seq<Frame>,
                      f: LeafFn<S>, s0: S, s: S, l: Leaf)
    requires Mapped(z, frames, out, outStack, f, s0, s)
    requires !Ready(z) && ZipStep(z, Lit(l)).Some?
    ensures l.Text? && frames != [] && Step(outStack, Lit(l)).Some?
    ensures Mapped(ZipStep(z, Lit(l)).value, frames[..|frames| - 1] + [JsonFrame(true, l.s)], out + [Lit(l)],
                   Step(outStack, Lit(l)).value, f, s0, s)
  {
    hide FramesStand, MapZip, Consumed, Stands, Step, ZipStep, Nested, Ready;
    NameMaps(z, f, s0, l);
    NameFrames(frames, z, l);
    NameWritten(MapZip(z, f, s0).0, out, outStack, l);
  }

  lemma LeafMapped<S>(z: Zip, frames: seq<JsonFrame>, out: seq<Token>, outStack: seq<Frame>,
                      f: LeafFn<S>, s0: S, s: S, l: Leaf)
    requires Mapped(z, frames, out, outStack, f, s0, s)
    requires Ready(z)
    ensures var (s', nt, keep) := f(s, Join(Parts(frames)), l);
            var element := frames != [] && !frames[|frames| - 1].obj;
            var written := if keep then nt else Null;
            && Step(outStack, Lit(written)).Some?
            && (if keep || !element
                then Mapped(Add(z, Scalar(l)), frames, out + [Lit(written)], Step(outStack, Lit(written)).value, f, s0, s')
                else Mapped(Add(z, Scalar(l)), frames, out, outStack, f, s0, s'))
  {
    PartsArePath(frames, z);
    MapAdd(z, Scalar(l), f, s0);
    AddFramesStand(frames, z, Scalar(l));
    var (s', nt, keep) := f(s, Join(Parts(frames)), l);
    LeafWritten(MapZip(z, f, s0).0, out, outStack, if keep then nt else Null);
  }

  lemma LeafWritten(z': Zip, out: seq<Token>, outStack: seq<Frame>, l: Leaf)
    requires Nested(z') && Ready(z') && out == Consumed(z') && Stands(outStack, z', false)
    ensures Step(outStack, Lit(l)).Some?
    ensures Nested(Add(z', Scalar(l))) && out + [Lit(l)] == Consumed(Add(z', Scalar(l)))
    ensures Stands(Step(outStack, Lit(l)).value, Add(z', Scalar(l)), false)
  {
    StepAgrees(outStack, z', Lit(l));
    AddConsumed(z', Scalar(l));
  }

  /** The rewritten document is well formed, so the encoder takes it. */
  lemma {:induction false} MapWellFormed<S>(v: Value, path: seq<string>, element: bool, f: LeafFn<S>, s: S)
    requires WellFormed(v)
    ensures var r := MapValue(v, path, element, f, s).0; r.Some? ==> WellFormed(r.value)
    decreases v, 0
  {
    match v
    case Scalar(l) =>
    case Arr(items) => MapItemsWellFormed(items, path, f, s);
    case Obj(ms) => MapMembersWellFormed(ms, path, f, s);
  }

  lemma {:induction false} MapItemsWellFormed<S>(items: seq<Value>, path: seq<string>, f: LeafFn<S>, s: S)
    requires AllWellFormed(items)
    ensures AllWellFormed(MapItems(items, path, f, s).0)
    decreases items, 1
  {
    if items != [] {
      MapWellFormed(items[0], path, true, f, s);
      var s1 := MapValue(items[0], path, true, f, s).1;
      MapItemsWellFormed(items[1..], path, f, s1);
      var first, rest := MapValue(items[0], path, true, f, s).0, MapItems(items[1..], path, f, s1).0;
      if first.Some? {
        assert ([first.value] + rest)[1..] == rest;
      } else {
        assert [] + rest == rest;
      }
    }
  }

  lemma {:induction false} MapMembersWellFormed<S>(ms: seq<Member>, path: seq<string>, f: LeafFn<S>, s: S)
    requires MembersWellFormed(ms)
    ensures MembersWellFormed(MapMembers(ms, path, f, s).0)
    decreases ms, 1
  {
    if ms != [] {
      var under := Under(path, ms[0].name);
      MapWellFormed(ms[0].value, under, false, f, s);
      MapMembersWellFormed(ms[1..], path, f, MapValue(ms[0].value, under, false, f, s).1);
    }
  }
}
