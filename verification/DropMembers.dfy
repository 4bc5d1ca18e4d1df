/**
 dropMembers and settingsView of `picache config`: one JSON document without
 the object members at some JSON pointers (sections 3 and 4 of RFC 6901).
 */
module DropMembers {
  import opened Json
  import opened Decoder
  import opened Wrappers

  // ---- JSON pointers ---------------------------------------------------------------

  function Escape(name: string): string {
    if name == "" then ""
    else (if name[0] == '~' then "~0" else if name[0] == '/' then "~1" else [name[0]]) + Escape(name[1..])
  }

  function Decimal(n: nat): string {
    if n < 10 then ["0123456789"[n]] else Decimal(n / 10) + ["0123456789"[n % 10]]
  }

  /** The pointer with these reference tokens. */
  function Pointer(tokens: seq<string>): string {
    if tokens == [] then "" else "/" + Escape(tokens[0]) + Pointer(tokens[1..])
  }

  /** The parts of a pointer between its slashes, read from left to right. */
  function Pieces(s: string): (parts: seq<string>)
    ensures parts != []
  {
    if s == "" then [""]
    else
      var rest := Pieces(s[1..]);
      if s[0] == '/' then [""] + rest else [[s[0]] + rest[0]] + rest[1..]
  }

  /** A reference token as section 4 of RFC 6901 reads it. */
  function Unescape(s: string): string {
    if |s| >= 2 && s[0] == '~' && s[1] == '1' then "/" + Unescape(s[2..])
    else if |s| >= 2 && s[0] == '~' && s[1] == '0' then "~" + Unescape(s[2..])
    else if s == "" then "" else [s[0]] + Unescape(s[1..])
  }

  /** The reference tokens of a pointer. */
  function ReadPointer(s: string): seq<string> {
    var parts := Pieces(s)[1..];
    seq(|parts|, i requires 0 <= i < |parts| => Unescape(parts[i]))
  }

  lemma {:induction false} EscapeReads(name: string)
    ensures '/' !in Escape(name) && Unescape(Escape(name)) == name
  {
    if name != "" {
      EscapeReads(name[1..]);
      var x, rest := Escape(name), Escape(name[1..]);
      assert name == [name[0]] + name[1..];
      assert name[0] == '~' || name[0] == '/' ==> x[2..] == rest;
      assert name[0] != '~' && name[0] != '/' ==> x[1..] == rest;
    }
  }

  lemma {:induction false} PiecesOf(p: string, rest: string)
    requires '/' !in p && (rest == "" || rest[0] == '/')
    ensures Pieces(p + rest) == [p] + Pieces(rest)[1..]
  {
    var s := p + rest;
    if p == "" {
      assert s == rest;
    } else {
      assert p[0] in p && s[0] == p[0] && [p[0]] + p[1..] == p;
      assert s[1..] == p[1..] + rest;
      PiecesOf(p[1..], rest);
    }
  }

  lemma SlashFirst(s: string)
    ensures Pieces("/" + s) == [""] + Pieces(s)
  {
    assert ("/" + s)[1..] == s;
  }

  lemma PointerNext(tokens: seq<string>)
    requires tokens != []
    ensures Pointer(tokens) == "/" + (Escape(tokens[0]) + Pointer(tokens[1..]))
    ensures Pointer(tokens[1..]) == "" || Pointer(tokens[1..])[0] == '/'
  {
    hide Escape;
    var a, b := Escape(tokens[0]), Pointer(tokens[1..]);
    assert "/" + a + b == "/" + (a + b);
    if tokens[1..] != [] {
      assert ("/" + Escape(tokens[1..][0]))[0] == '/';
    }
  }

  lemma ReadFirst(s: string, name: string, rest: string)
    requires Pieces(s) == [""] + ([name] + Pieces(rest)[1..])
    ensures ReadPointer(s) == [Unescape(name)] + ReadPointer(rest)
  {
    hide Pieces, Unescape;
  }

  /** A pointer is read as the tokens that it was made of. */
  lemma {:induction false} PointerReads(tokens: seq<string>)
    ensures ReadPointer(Pointer(tokens)) == tokens
  {
    if tokens == [] {
      assert Pieces("") == [""];
    } else {
      hide Pieces, Escape, Unescape, Pointer, ReadPointer;
      var name, rest := Escape(tokens[0]), Pointer(tokens[1..]);
      PointerReads(tokens[1..]);
      EscapeReads(tokens[0]);
      PointerNext(tokens);
      PiecesOf(name, rest);
      SlashFirst(name + rest);
      ReadFirst(Pointer(tokens), name, rest);
      assert tokens == [tokens[0]] + tokens[1..];
    }
  }

  /** Two lists of reference tokens never have the same pointer. */
  lemma {:induction false} PointerInjective(p: seq<string>, q: seq<string>)
    requires Pointer(p) == Pointer(q)
    ensures p == q
  {
    PointerReads(p);
    PointerReads(q);
  }

  /** The number that decimal digits stand for. */
  function Number(s: string): int {
    if s == "" then 0 else 10 * Number(s[..|s| - 1]) + (s[|s| - 1] as int - '0' as int)
  }

  /** The decimal digits of n, without a zero in front. */
  lemma {:induction false} DecimalReads(n: nat)
    ensures Number(Decimal(n)) == n && Decimal(n) != "" && (n > 0 ==> Decimal(n)[0] != '0')
    ensures forall i :: 0 <= i < |Decimal(n)| ==> '0' <= Decimal(n)[i] <= '9'
  {
    var s := Decimal(n);
    if n >= 10 {
      DecimalReads(n / 10);
      assert s[..|s| - 1] == Decimal(n / 10);
    } else {
      assert s[..0] == "";
    }
  }

  // ---- a document without some of its members -----------------------------------------

  function At(ptr: string, name: string): string {
    ptr + "/" + Escape(name)
  }

  /** v, which stands at ptr, without the members at the pointers drop. */
  function Without(v: Value, ptr: string, drop: seq<string>): (r: Value)
    ensures r.Obj? == v.Obj? && r.Arr? == v.Arr?
    decreases v, 0
  {
    match v
    case Scalar(_) => v
    case Arr(items) => Arr(WithoutItems(items, ptr, 0, drop))
    case Obj(ms) => Obj(WithoutMembers(ms, ptr, drop))
  }

  function WithoutItems(items: seq<Value>, ptr: string, i: nat, drop: seq<string>): (r: seq<Value>)
    ensures |r| == |items|
    decreases items, 1
  {
    if items == [] then []
    else [Without(items[0], ptr + "/" + Decimal(i), drop)] + WithoutItems(items[1..], ptr, i + 1, drop)
  }

  function WithoutMembers(ms: seq<Member>, ptr: string, drop: seq<string>): seq<Member>
    decreases ms, 1
  {
    if ms == [] then []
    else
      var m := ms[0];
      var rest := WithoutMembers(ms[1..], ptr, drop);
      if At(ptr, m.name) in drop then rest
      else [Member(m.name, Without(m.value, At(ptr, m.name), drop))] + rest
  }

  function WithoutDocs(docs: seq<Value>, drop: seq<string>): (r: seq<Value>)
    ensures |r| == |docs|
  {
    if docs == [] then [] else [Without(docs[0], "", drop)] + WithoutDocs(docs[1..], drop)
  }

  lemma {:induction false} WithoutItemsAppend(items: seq<Value>, v: Value, ptr: string, i: nat, drop: seq<string>)
    ensures WithoutItems(items + [v], ptr, i, drop)
         == WithoutItems(items, ptr, i, drop) + [Without(v, ptr + "/" + Decimal(i + |items|), drop)]
  {
    if items == [] {
      assert items + [v] == [v];
    } else {
      assert (items + [v])[1..] == items[1..] + [v];
      WithoutItemsAppend(items[1..], v, ptr, i + 1, drop);
    }
  }

  lemma {:induction false} WithoutMembersAppend(ms: seq<Member>, m: Member, ptr: string, drop: seq<string>)
    ensures WithoutMembers(ms + [m], ptr, drop)
         == WithoutMembers(ms, ptr, drop)
          + (if At(ptr, m.name) in drop then [] else [Member(m.name, Without(m.value, At(ptr, m.name), drop))])
  {
    if ms == [] {
      assert ms + [m] == [m];
    } else {
      assert (ms + [m])[1..] == ms[1..] + [m];
      WithoutMembersAppend(ms[1..], m, ptr, drop);
    }
  }

  lemma {:induction false} WithoutDocsAppend(docs: seq<Value>, v: Value, drop: seq<string>)
    ensures WithoutDocs(docs + [v], drop) == WithoutDocs(docs, drop) + [Without(v, "", drop)]
  {
    if docs == [] {
      assert docs + [v] == [v];
    } else {
      assert (docs + [v])[1..] == docs[1..] + [v];
      WithoutDocsAppend(docs[1..], v, drop);
    }
  }

  // ---- what is left ------------------------------------------------------------------------

  datatype PathStep = Key(name: string) | Index(i: nat)

  function Find(ms: seq<Member>, name: string): Option<Value> {
    if ms == [] then None
    else if ms[0].name == name then Some(ms[0].value)
    else Find(ms[1..], name)
  }

  /** The part of a value at a path, by the evaluation rules of JSON pointers. */
  function Get(v: Value, path: seq<PathStep>): Option<Value>
    decreases path
  {
    if path == [] then Some(v)
    else
      match (v, path[0])
      case (Obj(ms), Key(name)) =>
        (match Find(ms, name)
         case None => None
         case Some(w) => Get(w, path[1..]))
      case (Arr(items), Index(i)) => if i < |items| then Get(items[i], path[1..]) else None
      case _ => None
  }

  /** The place of the first member with this name. */
  ghost predicate IsFirst(ms: seq<Member>, name: string, i: nat) {
    i < |ms| && ms[i].name == name && forall j :: 0 <= j < i ==> ms[j].name != name
  }

  /** The value of the first member with the name, if any has it. */
  lemma {:induction false} FindMeans(ms: seq<Member>, name: string)
    ensures Find(ms, name) == None <==> forall i :: 0 <= i < |ms| ==> ms[i].name != name
    ensures forall i: nat :: IsFirst(ms, name, i) ==> Find(ms, name) == Some(ms[i].value)
  {
    if ms != [] {
      FindMeans(ms[1..], name);
      assert Find(ms, name) == None ==> Find(ms[1..], name) == None && ms[0].name != name;
      assert (forall i :: 0 <= i < |ms| ==> ms[i].name != name) ==> forall i :: 0 <= i < |ms[1..]| ==> ms[1..][i].name != name by {
        assert forall i :: 0 <= i < |ms[1..]| ==> ms[1..][i] == ms[i + 1];
      }
      forall i: nat | IsFirst(ms, name, i) ensures Find(ms, name) == Some(ms[i].value) {
        if i > 0 {
          assert ms[i] == ms[1..][i - 1] && IsFirst(ms[1..], name, i - 1);
        }
      }
      assert forall i :: 0 < i < |ms| ==> ms[i] == ms[1..][i - 1];
    }
  }

  /** A path leads through the elements of an array by place and the members of an object
      by name, and nowhere else. */
  lemma {:induction false} GetMeans(v: Value, s: PathStep, rest: seq<PathStep>)
    ensures Get(v, []) == Some(v)
    ensures v.Arr? && s.Index? && s.i < |v.items| ==> Get(v, [s] + rest) == Get(v.items[s.i], rest)
    ensures v.Obj? && s.Key? ==> forall i: nat :: IsFirst(v.members, s.name, i) ==> Get(v, [s] + rest) == Get(v.members[i].value, rest)
    ensures !(v.Arr? && s.Index? && s.i < |v.items|) && !(v.Obj? && s.Key? && exists m <- v.members :: m.name == s.name)
            ==> Get(v, [s] + rest) == None
  {
    assert ([s] + rest)[1..] == rest;
    if v.Obj? && s.Key? {
      FindMeans(v.members, s.name);
    }
  }

  function Under(ptr: string, s: PathStep): string {
    match s
    case Key(name) => At(ptr, name)
    case Index(i) => ptr + "/" + Decimal(i)
  }

  function PointerUnder(ptr: string, path: seq<PathStep>): string
    decreases path
  {
    if path == [] then ptr else PointerUnder(Under(ptr, path[0]), path[1..])
  }

  /** A member on the way down this path is dropped. */
  predicate Cut(ptr: string, path: seq<PathStep>, drop: seq<string>)
    decreases path
  {
    path != [] && ((path[0].Key? && Under(ptr, path[0]) in drop) || Cut(Under(ptr, path[0]), path[1..], drop))
  }

  /** The reference token of a step: the name of a member, the place of an element. */
  function StepToken(s: PathStep): string {
    match s
    case Key(name) => name
    case Index(i) => Decimal(i)
  }

  function PathTokens(path: seq<PathStep>): seq<string> {
    seq(|path|, i requires 0 <= i < |path| => StepToken(path[i]))
  }

  lemma {:induction false} PathPointer(ptr: string, path: seq<PathStep>)
    ensures PointerUnder(ptr, path) == ptr + Pointer(PathTokens(path))
    decreases |path|
  {
    if path != [] {
      var rest, e := PathTokens(path[1..]), Escape(StepToken(path[0]));
      PathPointer(Under(ptr, path[0]), path[1..]);
      StepPointer(ptr, path[0]);
      assert PathTokens(path)[0] == StepToken(path[0]) && PathTokens(path)[1..] == rest;
      hide Escape, Under, StepToken, PathTokens, Pointer;
      PointerNext(PathTokens(path));
      ThreeParts(ptr, e, Pointer(rest));
    } else {
      assert ptr + "" == ptr;
    }
  }

  lemma ThreeParts(a: string, b: string, c: string)
    ensures a + ("/" + b) + c == a + ("/" + (b + c))
  {
  }

  lemma StepPointer(ptr: string, s: PathStep)
    ensures Under(ptr, s) == ptr + ("/" + Escape(StepToken(s)))
  {
    if s.Index? {
      DecimalReads(s.i);
      EscapePlain(Decimal(s.i));
    }
  }

  lemma {:induction false} EscapePlain(s: string)
    requires forall i :: 0 <= i < |s| ==> '0' <= s[i] <= '9'
    ensures Escape(s) == s
  {
    if s != "" {
      EscapePlain(s[1..]);
      assert s == [s[0]] + s[1..];
    }
  }

  /** A path is cut exactly when some part of it ends with a member whose pointer is to be
      dropped. */
  lemma {:induction false} CutMeans(path: seq<PathStep>, drop: seq<string>)
    ensures Cut("", path, drop) <==> exists k :: 0 < k <= |path| && path[k - 1].Key? && Pointer(PathTokens(path[..k])) in drop
  {
    CutUnder("", path, drop);
    assert forall t: seq<string> :: "" + Pointer(t) == Pointer(t);
  }

  lemma {:induction false} CutUnder(ptr: string, path: seq<PathStep>, drop: seq<string>)
    ensures Cut(ptr, path, drop)
       <==> exists k :: 0 < k <= |path| && path[k - 1].Key? && ptr + Pointer(PathTokens(path[..k])) in drop
    decreases |path|
  {
    if path != [] {
      var under, rest := Under(ptr, path[0]), path[1..];
      CutUnder(under, rest, drop);
      forall k | 0 < k <= |path| ensures ptr + Pointer(PathTokens(path[..k])) == under + Pointer(PathTokens(rest[..k - 1])) {
        PathPointer(ptr, path[..k]);
        PathPointer(under, rest[..k - 1]);
        assert path[..k][1..] == rest[..k - 1] && path[..k][0] == path[0];
      }
      assert PathTokens(rest[..0]) == [] && under + Pointer([]) == under;
      CutNext(ptr, path, drop);
    }
  }

  lemma CutNext(ptr: string, path: seq<PathStep>, drop: seq<string>)
    requires path != []
    requires var under, rest := Under(ptr, path[0]), path[1..];
             && under + Pointer(PathTokens(rest[..0])) == under
             && (forall k :: 0 < k <= |path| ==> ptr + Pointer(PathTokens(path[..k])) == under + Pointer(PathTokens(rest[..k - 1])))
             && (Cut(under, rest, drop)
                 <==> exists k :: 0 < k <= |rest| && rest[k - 1].Key? && under + Pointer(PathTokens(rest[..k])) in drop)
    ensures Cut(ptr, path, drop)
       <==> exists k :: 0 < k <= |path| && path[k - 1].Key? && ptr + Pointer(PathTokens(path[..k])) in drop
  {
    var under, rest := Under(ptr, path[0]), path[1..];
    hide PathTokens, Pointer, Under;
    if k :| 0 < k <= |rest| && rest[k - 1].Key? && under + Pointer(PathTokens(rest[..k])) in drop {
      assert path[k + 1 - 1].Key? && ptr + Pointer(PathTokens(path[..k + 1])) in drop;
    }
    if k :| 0 < k <= |path| && path[k - 1].Key? && ptr + Pointer(PathTokens(path[..k])) in drop {
      assert k > 1 ==> rest[k - 1 - 1].Key? && under + Pointer(PathTokens(rest[..k - 1])) in drop;
    }
    if path[0].Key? && under in drop {
      assert path[1 - 1].Key? && ptr + Pointer(PathTokens(path[..1])) in drop;
    }
  }

  lemma {:induction false} FindKept(ms: seq<Member>, ptr: string, drop: seq<string>, name: string)
    ensures Find(WithoutMembers(ms, ptr, drop), name)
         == if At(ptr, name) in drop || Find(ms, name).None? then None
            else Some(Without(Find(ms, name).value, At(ptr, name), drop))
  {
    if ms != [] {
      FindKept(ms[1..], ptr, drop, name);
      var rest := WithoutMembers(ms[1..], ptr, drop);
      if At(ptr, ms[0].name) !in drop {
        var kept := Member(ms[0].name, Without(ms[0].value, At(ptr, ms[0].name), drop));
        assert ([kept] + rest)[1..] == rest;
      }
    }
  }

  lemma {:induction false} ItemKept(items: seq<Value>, ptr: string, i: nat, drop: seq<string>, k: nat)
    requires k < |items|
    ensures WithoutItems(items, ptr, i, drop)[k] == Without(items[k], ptr + "/" + Decimal(i + k), drop)
  {
    if k > 0 {
      ItemKept(items[1..], ptr, i + 1, drop, k - 1);
    }
  }

  /** Exactly the members at the pointers are gone, at any depth: a path finds
      what it found before unless it passes through a dropped member. */
  lemma {:induction false} WithoutFinds(v: Value, ptr: string, drop: seq<string>, path: seq<PathStep>)
    ensures Get(Without(v, ptr, drop), path)
         == if Cut(ptr, path, drop) || Get(v, path).None? then None
            else Some(Without(Get(v, path).value, PointerUnder(ptr, path), drop))
    decreases path
  {
    if path != [] {
      match (v, path[0])
      case (Obj(ms), Key(name)) =>
        FindKept(ms, ptr, drop, name);
        if Find(ms, name).Some? {
          WithoutFinds(Find(ms, name).value, At(ptr, name), drop, path[1..]);
        }
      case (Arr(items), Index(i)) =>
        if i < |items| {
          ItemKept(items, ptr, 0, drop, i);
          WithoutFinds(items[i], ptr + "/" + Decimal(i), drop, path[1..]);
        }
      case _ =>
    }
  }

  // ---- the token loop ------------------------------------------------------------------------

  /** The pointer of the value or name read last. */
  function StackPointer(stack: seq<Frame>): string {
    if stack == [] then ""
    else
      var top := stack[|stack| - 1];
      var before := StackPointer(stack[..|stack| - 1]);
      if top.length == 0 then before
      else if top.obj then At(before, top.last)
      else before + "/" + Decimal(top.length - 1)
  }

  function PointerOf(z: Zip): string {
    match z
    case Top(_) => ""
    case Push(rest, OpenArr(items)) => PointerOf(rest) + "/" + Decimal(|items|)
    case Push(rest, OpenObj(_, None)) => PointerOf(rest)
    case Push(rest, OpenObj(_, Some(name))) => At(PointerOf(rest), name)
  }

  lemma {:induction false} StackPointerIs(stack: seq<Frame>, z: Zip)
    requires Stands(stack, z, true)
    ensures StackPointer(stack) == PointerOf(z)
    decreases z
  {
    if z.Push? {
      StackPointerIs(stack[..|stack| - 1], z.rest);
    }
  }

  function WithoutOpen(o: Open, ptr: string, drop: seq<string>): Open {
    match o
    case OpenArr(items) => OpenArr(WithoutItems(items, ptr, 0, drop))
    case OpenObj(ms, pending) => OpenObj(WithoutMembers(ms, ptr, drop), pending)
  }

  function WithoutZip(z: Zip, drop: seq<string>): (r: Zip)
    ensures Ready(r) <==> Ready(z)
    ensures r.Push? <==> z.Push?
  {
    match z
    case Top(docs) => Top(WithoutDocs(docs, drop))
    case Push(rest, o) => Push(WithoutZip(rest, drop), WithoutOpen(o, PointerOf(rest), drop))
  }

  /** No container stands open inside a dropped member. */
  ghost predicate Kept(z: Zip, drop: seq<string>) {
    z.Push? ==>
      && Kept(z.rest, drop)
      && (z.open.OpenObj? && z.open.pending.Some? ==> PointerOf(z) !in drop)
  }

  lemma {:induction false} WithoutAdd(z: Zip, v: Value, drop: seq<string>)
    requires Ready(z)
    requires z.Push? ==> Kept(z.rest, drop)
    ensures Kept(Add(z, v), drop)
    ensures z.Push? && z.open.OpenObj? && PointerOf(z) in drop ==>
              WithoutZip(Add(z, v), drop) == WithoutZip(Push(z.rest, z.open.(pending := None)), drop)
    ensures Kept(z, drop) ==> WithoutZip(Add(z, v), drop) == Add(WithoutZip(z, drop), Without(v, PointerOf(z), drop))
  {
    match z
    case Top(docs) => WithoutDocsAppend(docs, v, drop);
    case Push(rest, OpenArr(items)) => WithoutItemsAppend(items, v, PointerOf(rest), 0, drop);
    case Push(rest, OpenObj(ms, pending)) =>
      var ptr, m := PointerOf(rest), Member(pending.value, v);
      WithoutMembersAppend(ms, m, ptr, drop);
      assert WithoutMembers(ms, ptr, drop) + [] == WithoutMembers(ms, ptr, drop);
  }

  /** What holds before each token: what was written is the part read so far
      without the dropped members. */
  ghost predicate Copied(z: Zip, out: seq<Token>, outStack: seq<Frame>, drop: seq<string>) {
    && Nested(z)
    && Kept(z, drop)
    && Nested(WithoutZip(z, drop))
    && out == Consumed(WithoutZip(z, drop))
    && Stands(outStack, WithoutZip(z, drop), false)
  }

  lemma TokenCopied(z: Zip, out: seq<Token>, outStack: seq<Frame>, drop: seq<string>, t: Token)
    requires Copied(z, out, outStack, drop)
    requires ZipStep(z, t).Some?
    requires !Ready(z) && t.Lit? ==> PointerOf(ZipStep(z, t).value) !in drop
    ensures Step(outStack, t).Some?
    ensures Copied(ZipStep(z, t).value, out + [t], Step(outStack, t).value, drop)
  {
    var z', next := WithoutZip(z, drop), ZipStep(z, t).value;
    var v := if t == ObjClose then Obj(z.open.members) else if t == ArrClose then Arr(z.open.items) else Scalar(Null);
    if t == ObjClose || t == ArrClose {
      assert Kept(z.rest, drop);
      WithoutAdd(z.rest, v, drop);
    } else if t.Lit? && Ready(z) {
      WithoutAdd(z, Scalar(t.leaf), drop);
    } else if t.Lit? {
      NamesShrink(z.open.members, PointerOf(z.rest), drop);
    }
    assert ZipStep(z', t) == Some(WithoutZip(next, drop));
    StepAgrees(outStack, z', t);
    StepConsumes(z', t);
  }

  lemma SkippedCopied(z: Zip, out: seq<Token>, outStack: seq<Frame>, drop: seq<string>, name: Token, v: Value)
    requires Copied(z, out, outStack, drop)
    requires !Ready(z) && name.Lit? && ZipStep(z, name).Some?
    requires PointerOf(ZipStep(z, name).value) in drop
    ensures Copied(Add(ZipStep(z, name).value, v), out, outStack, drop)
  {
    var next := ZipStep(z, name).value;
    WithoutAdd(next, v, drop);
    assert Push(next.rest, next.open.(pending := None)) == z;
  }

  lemma StepConsumes(z: Zip, t: Token)
    requires Nested(z) && ZipStep(z, t).Some?
    ensures Consumed(ZipStep(z, t).value) == Consumed(z) + [t]
  {
    match t {
      case ObjOpen => assert OpenTokens(OpenObj([], None)) == [ObjOpen];
      case ArrOpen => assert OpenTokens(OpenArr([])) == [ArrOpen];
      case ObjClose => AddConsumed(z.rest, Obj(z.open.members));
      case ArrClose => AddConsumed(z.rest, Arr(z.open.items));
      case Lit(l) => if Ready(z) { AddConsumed(z, Scalar(l)); }
    }
  }

  lemma {:induction false} NamesShrink(ms: seq<Member>, ptr: string, drop: seq<string>)
    ensures forall m :: m in WithoutMembers(ms, ptr, drop) ==> exists n :: n in ms && n.name == m.name
  {
    if ms != [] {
      NamesShrink(ms[1..], ptr, drop);
      var rest := WithoutMembers(ms[1..], ptr, drop);
      forall m | m in WithoutMembers(ms, ptr, drop) ensures exists n :: n in ms && n.name == m.name {
        if m in rest {
          var n :| n in ms[1..] && n.name == m.name;
          assert n in ms;
        } else {
          assert ms[0] in ms;
        }
      }
    }
  }

  /** Copies the JSON values of the input without the object members at the
      pointers drop; the order of everything else stays. */
  method Drop(toks: seq<Token>, drop: seq<string>) returns (r: Result<seq<Token>, ()>)
    ensures match Parse(toks)
            case None => r == Err(())
            case Some(docs) => r == if docs == [] then Err(()) else Ok(Stream(WithoutDocs(docs, drop)))
  {
    hide Reading, Copied, Step, ZipStep, Nested, Ready, StackPointer;
    var dec := new TokenReader(toks);
    var enc := new TokenWriter();
    ghost var z := Top([]);
    Begins(toks, drop);
    while true
      invariant dec.Valid() && dec.toks == toks
      invariant Reading(toks, dec.pos, dec.stack, z)
      invariant Copied(z, enc.out, enc.stack, drop)
      decreases |toks| - dec.pos
    {
      ReadingStep(toks, dec.pos, dec.stack, z);
      ghost var before := dec.stack;
      var read := dec.ReadToken();
      if read == Eof {
        EndCopied(toks, z, enc.out, enc.stack, drop);
        break;
      }
      if read == Bad {
        BadEnds(toks, dec.pos, before, z);
        return Err(());
      }
      var tok := read.t;
      ghost var next := ZipStep(z, tok).value;
      NameToken(toks, dec.pos - 1, before, z, tok);
      if |dec.stack| > 0 && dec.stack[|dec.stack| - 1].obj && dec.stack[|dec.stack| - 1].length % 2 == 1
         && tok.Lit? && tok.leaf.Text? && StackPointer(dec.stack) in drop {
        ghost var v;
        var ok;
        ok, v := dec.SkipValue(next);
        if !ok {
          return Err(());
        }
        SkippedCopied(z, enc.out, enc.stack, drop, tok, v);
        z := Add(next, v);
        continue;
      }
      TokenCopied(z, enc.out, enc.stack, drop, tok);
      z := next;
      var ok := enc.WriteToken(tok);
      if !ok {
        return Err(());
      }
    }
    if |enc.out| == 0 {
      return Err(());
    }
    return Ok(enc.out);
  }

  lemma Begins(toks: seq<Token>, drop: seq<string>)
    ensures Reading(toks, 0, [], Top([])) && Copied(Top([]), [], [], drop)
  {
    assert toks[0..] == toks;
  }

  /** The input ends outside of all containers. */
  lemma EndCopied(toks: seq<Token>, z: Zip, out: seq<Token>, outStack: seq<Frame>, drop: seq<string>)
    requires Reading(toks, |toks|, [], z) && Copied(z, out, outStack, drop)
    ensures Parse(toks).Some? && out == Stream(WithoutDocs(Parse(toks).value, drop))
    ensures out == [] <==> Parse(toks).value == []
  {
    ReadingStep(toks, |toks|, [], z);
    SomeTokens(WithoutDocs(Parse(toks).value, drop));
  }

  lemma SomeTokens(docs: seq<Value>)
    ensures Stream(docs) == [] <==> docs == []
  {
    if docs != [] {
      assert Tokens(docs[0]) != [];
    }
  }

  /** The kind and length of the innermost frame tell a name just read. */
  lemma NameToken(toks: seq<Token>, pos: nat, stack: seq<Frame>, z: Zip, t: Token)
    requires Reading(toks, pos, stack, z) && Step(stack, t).Some?
    ensures Nested(z) && ZipStep(z, t).Some?
    ensures var next := Step(stack, t).value;
            && (next != [] && next[|next| - 1].obj && next[|next| - 1].length % 2 == 1 && t.Lit? <==> !Ready(z) && t.Lit?)
            && (!Ready(z) && t.Lit? ==>
                  && t.leaf.Text? && StackPointer(next) == PointerOf(ZipStep(z, t).value)
                  && ZipStep(z, t).value.Push? && ZipStep(z, t).value.open.OpenObj? && Ready(ZipStep(z, t).value))
  {
    StepAgrees(stack, z, t);
    hide Run;
    NameKind(stack, z, t);
    if !Ready(z) && t.Lit? {
      NamePointer(stack, z, t);
    }
  }

  lemma NameKind(stack: seq<Frame>, z: Zip, t: Token)
    requires Stands(stack, z, false) && Step(stack, t).Some? && Nested(z) && ZipStep(z, t).Some?
    ensures var next := Step(stack, t).value;
            next != [] && next[|next| - 1].obj && next[|next| - 1].length % 2 == 1 && t.Lit? <==> !Ready(z) && t.Lit?
  {
  }

  lemma NamePointer(stack: seq<Frame>, z: Zip, t: Token)
    requires Stands(stack, z, false) && Step(stack, t).Some? && Nested(z) && ZipStep(z, t).Some? && !Ready(z) && t.Lit?
    ensures t.leaf.Text? && StackPointer(Step(stack, t).value) == PointerOf(ZipStep(z, t).value)
    ensures ZipStep(z, t).value.Push? && ZipStep(z, t).value.open.OpenObj? && Ready(ZipStep(z, t).value)
  {
    var below := stack[..|stack| - 1];
    NameFrame(stack, z, t);
    StackPointerIs(below, z.rest);
    NameOpen(z, t);
    hide Stands, Step, ZipStep, Ready, Nested;
    var next := Step(stack, t).value;
    assert next[..|next| - 1] == below;
  }

  /** The stack once a member name is read. */
  lemma NameFrame(stack: seq<Frame>, z: Zip, t: Token)
    requires Stands(stack, z, false) && Step(stack, t).Some? && Nested(z) && !Ready(z) && t.Lit?
    ensures z.Push? && stack != [] && t.leaf.Text? && Stands(stack[..|stack| - 1], z.rest, true)
    ensures exists top: Frame :: top.obj && top.length > 0 && top.last == t.leaf.s
                                 && Step(stack, t).value == stack[..|stack| - 1] + [top]
  {
    var top := stack[|stack| - 1];
    assert Step(stack, t).value
        == stack[..|stack| - 1] + [Frame(true, top.length + 1, top.names + {t.leaf.s}, t.leaf.s)];
  }

  lemma NameOpen(z: Zip, t: Token)
    requires Nested(z) && ZipStep(z, t).Some? && !Ready(z) && t.Lit?
    ensures t.leaf.Text? && z.Push? && z.open.OpenObj?
    ensures ZipStep(z, t).value == Push(z.rest, OpenObj(z.open.members, Some(t.leaf.s))) && Ready(ZipStep(z, t).value)
  {
  }

  // ---- picache config get and set -----------------------------------------------------------------

  predicate HasPrefix(s: string, prefix: string) {
    |prefix| <= |s| && s[..|prefix|] == prefix
  }

  /** The pointers below /section, relative to it. */
  function Stripped(pointers: seq<string>, section: string): seq<string> {
    if pointers == [] then []
    else
      var p := pointers[|pointers| - 1];
      var prefix := "/" + section + "/";
      Stripped(pointers[..|pointers| - 1], section) + (if HasPrefix(p, prefix) then ["/" + p[|prefix|..]] else [])
  }

  method StripSection(pointers: seq<string>, section: string) returns (drop: seq<string>)
    ensures drop == Stripped(pointers, section)
  {
    drop := [];
    var prefix := "/" + section + "/";
    for i := 0 to |pointers|
      invariant drop == Stripped(pointers[..i], section)
    {
      assert pointers[..i + 1][..i] == pointers[..i];
      if HasPrefix(pointers[i], prefix) {
        drop := drop + ["/" + pointers[i][|prefix|..]];
      }
    }
    assert pointers[..|pointers|] == pointers;
  }

  lemma {:induction false} StrippedHas(pointers: seq<string>, section: string, q: string)
    requires q != "" && q[0] == '/'
    ensures q in Stripped(pointers, section) <==> "/" + section + q in pointers
  {
    if pointers != [] {
      var p, before := pointers[|pointers| - 1], pointers[..|pointers| - 1];
      var prefix, full := "/" + section + "/", "/" + section + q;
      StrippedHas(before, section, q);
      assert pointers == before + [p];
      assert full == prefix + q[1..] && q == "/" + q[1..];
      if p == full {
        assert p[|prefix|..] == q[1..];
      }
      if HasPrefix(p, prefix) && "/" + p[|prefix|..] == q {
        assert p == prefix + p[|prefix|..];
      }
    }
  }

  /** The settings document, or one section of it, without the read-only
      members. */
  method SettingsView(doc: Value, section: string, readOnly: seq<string>) returns (r: Result<seq<Token>, ()>)
    requires WellFormed(doc)
    ensures section == "" ==> r == Ok(Tokens(Without(doc, "", readOnly)))
    ensures section != "" ==>
              r == if !doc.Obj? || Find(doc.members, section).None? then Err(())
                   else Ok(Tokens(Without(Find(doc.members, section).value, "", Stripped(readOnly, section))))
  {
    var raw, drop := doc, readOnly;
    if section != "" {
      if !doc.Obj? {
        return Err(());
      }
      match Find(doc.members, section) {
        case None => return Err(());
        case Some(v) =>
          FoundWellFormed(doc.members, section);
          raw := v;
          drop := StripSection(readOnly, section);
      }
    }
    assert AllWellFormed([raw]);
    ParseIsInverse(Stream([raw]), [raw]);
    assert Stream([raw]) == Tokens(raw);
    r := Drop(Tokens(raw), drop);
    assert WithoutDocs([raw], drop) == [Without(raw, "", drop)];
    assert Stream([Without(raw, "", drop)]) == Tokens(Without(raw, "", drop));
  }

  lemma {:induction false} FoundWellFormed(ms: seq<Member>, name: string)
    requires MembersWellFormed(ms)
    ensures Find(ms, name).Some? ==> WellFormed(Find(ms, name).value)
  {
    if ms != [] {
      FoundWellFormed(ms[1..], name);
    }
  }

  lemma {:induction false} WithoutInSection(v: Value, q: string, section: string, readOnly: seq<string>)
    requires q == "" || q[0] == '/'
    ensures Without(v, "/" + section + q, readOnly) == Without(v, q, Stripped(readOnly, section))
    decreases v, 0
  {
    match v
    case Scalar(_) =>
    case Arr(items) => ItemsInSection(items, q, 0, section, readOnly);
    case Obj(ms) => MembersInSection(ms, q, section, readOnly);
  }

  lemma {:induction false} ItemsInSection(items: seq<Value>, q: string, i: nat, section: string, readOnly: seq<string>)
    requires q == "" || q[0] == '/'
    ensures WithoutItems(items, "/" + section + q, i, readOnly) == WithoutItems(items, q, i, Stripped(readOnly, section))
    decreases items, 1
  {
    if items != [] {
      assert "/" + section + q + "/" + Decimal(i) == "/" + section + (q + "/" + Decimal(i));
      WithoutInSection(items[0], q + "/" + Decimal(i), section, readOnly);
      ItemsInSection(items[1..], q, i + 1, section, readOnly);
    }
  }

  lemma {:induction false} MembersInSection(ms: seq<Member>, q: string, section: string, readOnly: seq<string>)
    requires q == "" || q[0] == '/'
    ensures WithoutMembers(ms, "/" + section + q, readOnly) == WithoutMembers(ms, q, Stripped(readOnly, section))
    decreases ms, 1
  {
    if ms != [] {
      assert At("/" + section + q, ms[0].name) == "/" + section + At(q, ms[0].name);
      StrippedHas(readOnly, section, At(q, ms[0].name));
      WithoutInSection(ms[0].value, At(q, ms[0].name), section, readOnly);
      MembersInSection(ms[1..], q, section, readOnly);
    }
  }

  /** The view of a section is that section of the view of the whole document,
      exactly when no read-only pointer names the section itself. */
  lemma {:induction false} SectionOfView(doc: Value, section: string, readOnly: seq<string>)
    requires doc.Obj? && Find(doc.members, section).Some?
    requires Escape(section) == section
    ensures Get(Without(doc, "", readOnly), [Key(section)])
         == Some(Without(Find(doc.members, section).value, "", Stripped(readOnly, section)))
        <==> "/" + section !in readOnly
  {
    var v := Find(doc.members, section).value;
    FindKept(doc.members, "", readOnly, section);
    assert At("", section) == "/" + section == "/" + section + "";
    WithoutInSection(v, "", section, readOnly);
    assert [Key(section)][1..] == [];
  }

  /** Two values one after the other are no error: both are copied. Only an
      input of exactly one value is copied as one value. */
  lemma {:induction false} TrailingValues(v: Value, w: Value)
    requires WellFormed(v) && WellFormed(w)
    ensures Parse(Tokens(v) + Tokens(w)) == Some([v, w])
  {
    assert Stream([v, w]) == Tokens(v) + Stream([w]);
    assert Stream([w]) == Tokens(w) + Stream([]);
    assert AllWellFormed([v, w]) && Stream([v, w]) == Tokens(v) + Tokens(w);
    ParseIsInverse(Tokens(v) + Tokens(w), [v, w]);
  }
}
