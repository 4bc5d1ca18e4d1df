/**
 The streaming decoder that rewriteJSON and dropMembers read from. It checks
 the grammar token by token with a stack of open containers. `Zip` is the part
 of the document tree read so far: what the stack stands for.
 */
module Decoder {
  import opened Json
  import opened Wrappers

  // ---- what the decoder keeps ------------------------------------------------

  /** An open container: `length` counts the names and values begun in it,
      `last` is the member name read last. */
  datatype Frame = Frame(obj: bool, length: nat, names: set<string>, last: string)

  /** The next token must be a member name or the end of an object. */
  predicate AtName(stack: seq<Frame>) {
    stack != [] && stack[|stack| - 1].obj && stack[|stack| - 1].length % 2 == 0
  }

  function Bump(stack: seq<Frame>): seq<Frame> {
    if stack == [] then []
    else
      var top := stack[|stack| - 1];
      stack[..|stack| - 1] + [top.(length := top.length + 1)]
  }

  /** The stack after token t, None when t is not allowed there. */
  function Step(stack: seq<Frame>, t: Token): Option<seq<Frame>> {
    match t
    case ObjOpen => if AtName(stack) then None else Some(Bump(stack) + [Frame(true, 0, {}, "")])
    case ArrOpen => if AtName(stack) then None else Some(Bump(stack) + [Frame(false, 0, {}, "")])
    case ObjClose => if AtName(stack) then Some(stack[..|stack| - 1]) else None
    case ArrClose =>
      if stack != [] && !stack[|stack| - 1].obj then Some(stack[..|stack| - 1]) else None
    case Lit(l) =>
      if !AtName(stack) then Some(Bump(stack))
      else
        var top := stack[|stack| - 1];
        if l.Text? && l.s !in top.names then
          Some(stack[..|stack| - 1] + [Frame(true, top.length + 1, top.names + {l.s}, l.s)])
        else None
  }

  datatype Read = Eof | Bad | Got(t: Token)

  class TokenReader {
    const toks: seq<Token>
    var pos: nat
    var stack: seq<Frame>

    ghost predicate Valid()
      reads this
    {
      pos <= |toks|
    }

    constructor (toks: seq<Token>)
      ensures Valid() && this.toks == toks && pos == 0 && stack == []
    {
      this.toks := toks;
      pos, stack := 0, [];
    }

    /** The next token; Bad at a token the grammar does not allow and at the
        end of the input inside a container. */
    method ReadToken() returns (r: Read)
      requires Valid()
      modifies this
      ensures Valid()
      ensures old(pos) == |toks| ==>
                r == (if old(stack) == [] then Eof else Bad) && pos == old(pos) && stack == old(stack)
      ensures old(pos) < |toks| ==>
                match Step(old(stack), toks[old(pos)])
                case None => r == Bad && pos == old(pos) && stack == old(stack)
                case Some(next) => r == Got(toks[old(pos)]) && pos == old(pos) + 1 && stack == next
    {
      if pos == |toks| {
        return if stack == [] then Eof else Bad;
      }
      var t := toks[pos];
      match Step(stack, t) {
        case None => r := Bad;
        case Some(next) => r, pos, stack := Got(t), pos + 1, next;
      }
    }

    /** Reads over the value of the member whose name was just read; `z` is the
        document read so far. */
    method SkipValue(ghost z: Zip) returns (ok: bool, ghost v: Value)
      requires Valid() && z.Push? && z.open.OpenObj? && Ready(z)
      requires Reading(toks, pos, stack, z)
      modifies this
      ensures Valid()
      ensures !ok ==> Parse(toks) == None
      ensures ok ==> Reading(toks, pos, stack, Add(z, v)) && old(pos) < pos
    {
      hide Reading, Inside, Step, ZipStep, Stands, Closed;
      var depth := |stack|;
      ghost var at := z;
      v := Scalar(Null);
      SkipStarts(toks, pos, stack, z);
      while true
        invariant Valid() && old(pos) <= pos
        invariant Reading(toks, pos, stack, at)
        invariant Inside(at, z)
        invariant |stack| == Height(at) && depth == Height(z)
        decreases |toks| - pos
      {
        ReadingStep(toks, pos, stack, at);
        var read := ReadToken();
        if !read.Got? {
          StillOpen(at, z);
          return false, v;
        }
        SkipStep(at, z, read.t);
        v := Closed(at, read.t);
        at := ZipStep(at, read.t).value;
        HeightIs(toks, pos, stack, at);
        if |stack| == depth {
          return true, v;
        }
      }
    }
  }

  /** The encoder checks the same grammar as the decoder. */
  class TokenWriter {
    var out: seq<Token>
    var stack: seq<Frame>

    constructor ()
      ensures out == [] && stack == []
    {
      out, stack := [], [];
    }

    method WriteToken(t: Token) returns (ok: bool)
      modifies this
      ensures ok == Step(old(stack), t).Some?
      ensures ok ==> out == old(out) + [t] && stack == Step(old(stack), t).value
    {
      match Step(stack, t) {
        case None => ok := false;
        case Some(next) => ok, out, stack := true, out + [t], next;
      }
    }
  }

  /** The number of open containers. */
  ghost function Height(z: Zip): nat {
    if z.Top? then 0 else 1 + Height(z.rest)
  }

  /** z with containers opened inside it, or z itself. */
  ghost predicate Inside(at: Zip, z: Zip) {
    at == z || (at.Push? && Inside(at.rest, z))
  }

  /** The value that token t completes. */
  ghost function Closed(at: Zip, t: Token): Value {
    if t.Lit? then Scalar(t.leaf)
    else if at.Top? then Scalar(Null)
    else if at.open.OpenObj? then Obj(at.open.members) else Arr(at.open.items)
  }

  lemma {:induction false} HeightStands(stack: seq<Frame>, z: Zip)
    requires Stands(stack, z, false) || Stands(stack, z, true)
    ensures |stack| == Height(z)
    decreases z
  {
    if z.Push? {
      HeightStands(stack[..|stack| - 1], z.rest);
    }
  }

  lemma {:induction false} InsideHeight(at: Zip, z: Zip)
    requires Inside(at, z)
    ensures Height(at) >= Height(z)
    ensures Height(at) == Height(z) ==> at == z
  {
    if at != z {
      InsideHeight(at.rest, z);
    }
  }

  lemma StillOpen(at: Zip, z: Zip)
    requires Inside(at, z) && z.Push?
    ensures at.Push?
  {
  }

  /** One token further inside the value: it is complete when no container
      above z is open any more. */
  lemma SkipStep(at: Zip, z: Zip, t: Token)
    requires z.Push? && z.open.OpenObj? && Ready(z) && Nested(at)
    requires Inside(at, z) && ZipStep(at, t).Some?
    ensures var next := ZipStep(at, t).value;
            if Height(next) == Height(z) then next == Add(z, Closed(at, t)) else Inside(next, z)
  {
    InsideHeight(at, z);
    if at.Push? && at != z {
      InsideHeight(at.rest, z);
    }
  }

  // ---- the document read so far ------------------------------------------------

  datatype Open =
    | OpenArr(items: seq<Value>)
    | OpenObj(members: seq<Member>, pending: Option<string>)

  /** The finished top-level values, then the open containers, outermost first. */
  datatype Zip = Top(docs: seq<Value>) | Push(rest: Zip, open: Open)

  function OpenTokens(o: Open): seq<Token> {
    match o
    case OpenArr(items) => [ArrOpen] + Stream(items)
    case OpenObj(ms, pending) =>
      [ObjOpen] + MemberTokens(ms) + (if pending.Some? then [Lit(Text(pending.value))] else [])
  }

  function Consumed(z: Zip): seq<Token> {
    match z
    case Top(docs) => Stream(docs)
    case Push(rest, o) => Consumed(rest) + OpenTokens(o)
  }

  /** A value may come next. */
  predicate Ready(z: Zip) {
    z.Push? && z.open.OpenObj? ==> z.open.pending.Some?
  }

  /** Every open container stands where a value may stand. */
  ghost predicate Nested(z: Zip) {
    z.Push? ==> Ready(z.rest) && Nested(z.rest)
  }

  function Add(z: Zip, v: Value): (next: Zip)
    requires Ready(z)
    ensures Nested(z) ==> Nested(next)
  {
    match z
    case Top(docs) => Top(docs + [v])
    case Push(rest, OpenArr(items)) => Push(rest, OpenArr(items + [v]))
    case Push(rest, OpenObj(ms, pending)) => Push(rest, OpenObj(ms + [Member(pending.value, v)], None))
  }

  ghost predicate WellFormedOpen(o: Open) {
    match o
    case OpenArr(items) => AllWellFormed(items)
    case OpenObj(ms, pending) =>
      && DistinctNames(ms) && MembersWellFormed(ms)
      && (pending.Some? ==> forall i :: 0 <= i < |ms| ==> ms[i].name != pending.value)
  }

  ghost predicate WellFormedZip(z: Zip) {
    match z
    case Top(docs) => AllWellFormed(docs)
    case Push(rest, o) => Ready(rest) && WellFormedZip(rest) && WellFormedOpen(o)
  }

  function ZipStep(z: Zip, t: Token): (next: Option<Zip>)
    requires Nested(z)
    ensures next.Some? ==> Nested(next.value)
  {
    match t
    case ObjOpen => if Ready(z) then Some(Push(z, OpenObj([], None))) else None
    case ArrOpen => if Ready(z) then Some(Push(z, OpenArr([]))) else None
    case ObjClose => if Ready(z) || z.Top? then None else Some(Add(z.rest, Obj(z.open.members)))
    case ArrClose => if z.Push? && z.open.OpenArr? then Some(Add(z.rest, Arr(z.open.items))) else None
    case Lit(l) =>
      if Ready(z) then Some(Add(z, Scalar(l)))
      else if l.Text? && forall m :: m in z.open.members ==> m.name != l.s then
        Some(Push(z.rest, z.open.(pending := Some(l.s))))
      else None
  }

  ghost function Run(z: Zip, toks: seq<Token>): Option<Zip>
    requires Nested(z)
    decreases |toks|
  {
    if toks == [] then Some(z)
    else
      match ZipStep(z, toks[0])
      case None => None
      case Some(next) => Run(next, toks[1..])
  }

  /** The top-level values of an input, None when it is not a sequence of
      complete JSON values with distinct member names. */
  ghost function Parse(toks: seq<Token>): Option<seq<Value>> {
    match Run(Top([]), toks)
    case Some(Top(docs)) => Some(docs)
    case _ => None
  }

  // ---- the stack of the decoder stands for the zipper --------------------------

  function FrameOf(o: Open, child: bool): Frame {
    var extra := if child then 1 else 0;
    match o
    case OpenArr(items) => Frame(false, |items| + extra, {}, "")
    case OpenObj(ms, None) => Frame(true, 2 * |ms| + extra, Names(ms), if ms == [] then "" else ms[|ms| - 1].name)
    case OpenObj(ms, Some(name)) => Frame(true, 2 * |ms| + 1 + extra, Names(ms) + {name}, name)
  }

  ghost predicate Stands(stack: seq<Frame>, z: Zip, child: bool)
    decreases z
  {
    match z
    case Top(_) => stack == []
    case Push(rest, o) =>
      && stack != []
      && stack[|stack| - 1] == FrameOf(o, child)
      && (child ==> Ready(z))
      && Stands(stack[..|stack| - 1], rest, true)
  }

  lemma StandsBump(stack: seq<Frame>, z: Zip)
    requires Stands(stack, z, false) && Ready(z)
    ensures Stands(Bump(stack), z, true)
  {
    if z.Push? {
      assert Bump(stack)[..|stack| - 1] == stack[..|stack| - 1];
    }
  }

  lemma StandsAdd(stack: seq<Frame>, z: Zip, v: Value)
    requires Stands(stack, z, true) && Ready(z)
    ensures Stands(stack, Add(z, v), false)
  {
    if z.Push? && z.open.OpenObj? {
      NamesAppend(z.open.members, Member(z.open.pending.value, v));
    }
  }

  lemma {:induction false} StandsNested(stack: seq<Frame>, z: Zip, child: bool)
    requires Stands(stack, z, child)
    ensures Nested(z)
  {
    if z.Push? {
      StandsNested(stack[..|stack| - 1], z.rest, true);
      assert z.rest.Push? ==> Ready(z.rest);
    }
  }

  /** The decoder refuses exactly what the document tree cannot take, and its
      stack keeps standing for the tree. */
  lemma StepAgrees(stack: seq<Frame>, z: Zip, t: Token)
    requires Stands(stack, z, false)
    ensures Nested(z)
    ensures Step(stack, t).Some? <==> ZipStep(z, t).Some?
    ensures Step(stack, t).Some? ==> Stands(Step(stack, t).value, ZipStep(z, t).value, false)
  {
    StandsNested(stack, z, false);
    assert AtName(stack) <==> !Ready(z);
    match t {
      case ObjOpen =>
        if Ready(z) { PushStands(stack, z, OpenObj([], None)); }
      case ArrOpen =>
        if Ready(z) { PushStands(stack, z, OpenArr([])); }
      case ObjClose =>
        if !Ready(z) { StandsAdd(stack[..|stack| - 1], z.rest, Obj(z.open.members)); }
      case ArrClose =>
        if z.Push? && z.open.OpenArr? { StandsAdd(stack[..|stack| - 1], z.rest, Arr(z.open.items)); }
      case Lit(l) =>
        if Ready(z) {
          StandsBump(stack, z);
          StandsAdd(Bump(stack), z, Scalar(l));
        } else {
          NameStands(stack, z, l);
        }
    }
  }

  lemma PushStands(stack: seq<Frame>, z: Zip, o: Open)
    requires Stands(stack, z, false) && Ready(z)
    requires o == OpenArr([]) || o == OpenObj([], None)
    ensures Stands(Bump(stack) + [Frame(o.OpenObj?, 0, {}, "")], Push(z, o), false)
  {
    StandsBump(stack, z);
    StandsTop(Bump(stack), Frame(o.OpenObj?, 0, {}, ""), z, o);
  }

  lemma StandsTop(below: seq<Frame>, top: Frame, z: Zip, o: Open)
    requires Stands(below, z, true) && top == FrameOf(o, false)
    ensures Stands(below + [top], Push(z, o), false)
  {
    assert (below + [top])[..|below|] == below;
  }

  lemma NameStands(stack: seq<Frame>, z: Zip, l: Leaf)
    requires Stands(stack, z, false) && !Ready(z) && Nested(z)
    ensures Step(stack, Lit(l)).Some? <==> ZipStep(z, Lit(l)).Some?
    ensures Step(stack, Lit(l)).Some? ==> Stands(Step(stack, Lit(l)).value, ZipStep(z, Lit(l)).value, false)
  {
    var below, top := stack[..|stack| - 1], stack[|stack| - 1];
    assert top == FrameOf(z.open, false);
    if l.Text? {
      NotAmong(z.open.members, l.s);
      StandsTop(below, FrameOf(z.open.(pending := Some(l.s)), false), z.rest, z.open.(pending := Some(l.s)));
    }
  }

  lemma NotAmong(ms: seq<Member>, name: string)
    ensures name !in Names(ms) <==> forall m :: m in ms ==> m.name != name
  {
  }

  // ---- parsing is the inverse of writing ----------------------------------------

  lemma AddConsumed(z: Zip, v: Value)
    requires Ready(z)
    ensures Consumed(Add(z, v)) == Consumed(z) + Tokens(v)
  {
    match z
    case Top(docs) => StreamAppend(docs, v);
    case Push(_, _) => OpenAppend(z, v);
  }

  /** An open container with one value more. */
  function OpenAdd(o: Open, v: Value): Open
    requires o.OpenObj? ==> o.pending.Some?
  {
    match o
    case OpenArr(items) => OpenArr(items + [v])
    case OpenObj(ms, pending) => OpenObj(ms + [Member(pending.value, v)], None)
  }

  lemma OpenTokensAdd(o: Open, v: Value)
    requires o.OpenObj? ==> o.pending.Some?
    ensures OpenTokens(OpenAdd(o, v)) == OpenTokens(o) + Tokens(v)
  {
    match o
    case OpenArr(items) => StreamAppend(items, v);
    case OpenObj(ms, pending) => MemberTokensAppend(ms, Member(pending.value, v));
  }

  lemma OpenAppend(z: Zip, v: Value)
    requires Ready(z) && z.Push?
    ensures Consumed(Add(z, v)) == Consumed(z) + Tokens(v)
  {
    OpenTokensAdd(z.open, v);
    assert Add(z, v) == Push(z.rest, OpenAdd(z.open, v));
    hide OpenTokens, Tokens, OpenAdd;
  }

  lemma AddWellFormed(z: Zip, v: Value)
    requires Ready(z) && WellFormedZip(z) && WellFormed(v)
    ensures WellFormedZip(Add(z, v))
  {
    match z
    case Top(docs) => AllWellFormedAppend(docs, v);
    case Push(rest, OpenArr(items)) => AllWellFormedAppend(items, v);
    case Push(rest, OpenObj(ms, pending)) => MembersWellFormedAppend(ms, Member(pending.value, v));
  }

  lemma ZipStepConsumed(z: Zip, t: Token)
    requires Nested(z) && WellFormedZip(z) && ZipStep(z, t).Some?
    ensures Consumed(ZipStep(z, t).value) == Consumed(z) + [t]
    ensures Nested(ZipStep(z, t).value) && WellFormedZip(ZipStep(z, t).value)
  {
    match t {
      case ObjOpen => assert OpenTokens(OpenObj([], None)) == [ObjOpen];
      case ArrOpen => assert OpenTokens(OpenArr([])) == [ArrOpen];
      case ObjClose =>
        AddConsumed(z.rest, Obj(z.open.members));
        AddWellFormed(z.rest, Obj(z.open.members));
      case ArrClose =>
        AddConsumed(z.rest, Arr(z.open.items));
        AddWellFormed(z.rest, Arr(z.open.items));
      case Lit(l) =>
        if Ready(z) {
          AddConsumed(z, Scalar(l));
          AddWellFormed(z, Scalar(l));
        }
    }
  }

  lemma {:induction false} RunConsumed(z: Zip, toks: seq<Token>, end: Zip)
    requires Nested(z) && WellFormedZip(z)
    requires Run(z, toks) == Some(end)
    ensures WellFormedZip(end) && Consumed(end) == Consumed(z) + toks
    decreases |toks|
  {
    if toks == [] {
      assert Consumed(z) + toks == Consumed(z);
    } else {
      var next := ZipStep(z, toks[0]).value;
      ZipStepConsumed(z, toks[0]);
      RunConsumed(next, toks[1..], end);
      HeadFirst(Consumed(z), toks);
    }
  }

  lemma HeadFirst(before: seq<Token>, toks: seq<Token>)
    requires toks != []
    ensures before + [toks[0]] + toks[1..] == before + toks
  {
  }

  lemma RunCons(z: Zip, t: Token, toks: seq<Token>)
    requires Nested(z)
    ensures ZipStep(z, t).Some? ==> Run(z, [t] + toks) == Run(ZipStep(z, t).value, toks)
  {
    assert ([t] + toks)[0] == t && ([t] + toks)[1..] == toks;
  }

  lemma Regroup(open: Token, inner: seq<Token>, close: Token, toks: seq<Token>)
    ensures [open] + inner + [close] + toks == [open] + (inner + ([close] + toks))
  {
  }

  lemma ArrSteps(z: Zip, items: seq<Value>)
    requires Nested(z) && Ready(z)
    ensures var o := Push(z, OpenArr([])); ZipStep(z, ArrOpen) == Some(o) && Nested(o)
    ensures var p := Push(z, OpenArr(items)); Nested(p) && ZipStep(p, ArrClose) == Some(Add(z, Arr(items)))
  {
  }

  lemma ObjSteps(z: Zip, ms: seq<Member>)
    requires Nested(z) && Ready(z)
    ensures var o := Push(z, OpenObj([], None)); ZipStep(z, ObjOpen) == Some(o) && Nested(o)
    ensures var p := Push(z, OpenObj(ms, None)); Nested(p) && ZipStep(p, ObjClose) == Some(Add(z, Obj(ms)))
  {
  }

  lemma NameStep(z: Zip, done: seq<Member>, name: string)
    requires Nested(z) && Ready(z) && forall m :: m in done ==> m.name != name
    ensures var o := Push(z, OpenObj(done, None)); var p := Push(z, OpenObj(done, Some(name)));
            && Nested(o) && ZipStep(o, Lit(Text(name))) == Some(p) && Nested(p) && Ready(p)
            && forall v :: Add(p, v) == Push(z, OpenObj(done + [Member(name, v)], None))
  {
  }

  lemma {:induction false} RunValue(z: Zip, v: Value, toks: seq<Token>)
    requires Nested(z) && Ready(z) && WellFormed(v)
    ensures Run(z, Tokens(v) + toks) == Run(Add(z, v), toks)
    decreases v, 1
  {
    match v
    case Scalar(l) => RunCons(z, Lit(l), toks);
    case Arr(_) => RunArr(z, v, toks);
    case Obj(_) => RunObj(z, v, toks);
  }

  lemma {:induction false} RunArr(z: Zip, v: Value, toks: seq<Token>)
    requires Nested(z) && Ready(z) && v.Arr? && WellFormed(v)
    ensures Run(z, Tokens(v) + toks) == Run(Add(z, v), toks)
    decreases v, 0
  {
    var items := v.items;
    var after := [ArrClose] + toks;
    assert AllWellFormed(items) && Tokens(v) == [ArrOpen] + Stream(items) + [ArrClose];
    ArrSteps(z, items);
    hide Run, ZipStep, Stream, Tokens, WellFormed, AllWellFormed, Add, Nested, Ready;
    Regroup(ArrOpen, Stream(items), ArrClose, toks);
    RunCons(z, ArrOpen, Stream(items) + after);
    RunItems(z, [], items, after);
    assert [] + items == items;
    RunCons(Push(z, OpenArr(items)), ArrClose, toks);
  }

  lemma {:induction false} RunObj(z: Zip, v: Value, toks: seq<Token>)
    requires Nested(z) && Ready(z) && v.Obj? && WellFormed(v)
    ensures Run(z, Tokens(v) + toks) == Run(Add(z, v), toks)
    decreases v, 0
  {
    var ms := v.members;
    var after := [ObjClose] + toks;
    assert [] + ms == ms;
    assert MembersWellFormed(ms) && DistinctNames([] + ms) && Tokens(v) == [ObjOpen] + MemberTokens(ms) + [ObjClose];
    ObjSteps(z, ms);
    hide Run, ZipStep, MemberTokens, Tokens, WellFormed, MembersWellFormed, DistinctNames, Add, Nested, Ready;
    Regroup(ObjOpen, MemberTokens(ms), ObjClose, toks);
    RunCons(z, ObjOpen, MemberTokens(ms) + after);
    RunMembers(z, [], ms, after);
    RunCons(Push(z, OpenObj(ms, None)), ObjClose, toks);
  }

  lemma {:induction false} RunItems(z: Zip, done: seq<Value>, items: seq<Value>, toks: seq<Token>)
    requires Nested(z) && Ready(z) && AllWellFormed(items)
    ensures Run(Push(z, OpenArr(done)), Stream(items) + toks) == Run(Push(z, OpenArr(done + items)), toks)
    decreases items, 2
  {
    hide Run;
    if items == [] {
      assert done + items == done && Stream(items) + toks == toks;
    } else {
      assert Stream(items) + toks == Tokens(items[0]) + (Stream(items[1..]) + toks);
      RunValue(Push(z, OpenArr(done)), items[0], Stream(items[1..]) + toks);
      RunItems(z, done + [items[0]], items[1..], toks);
      assert done + [items[0]] + items[1..] == done + items;
    }
  }

  lemma FirstMember(ms: seq<Member>, toks: seq<Token>)
    requires ms != []
    ensures MemberTokens(ms) + toks == [Lit(Text(ms[0].name))] + (Tokens(ms[0].value) + (MemberTokens(ms[1..]) + toks))
  {
  }

  lemma {:induction false} RunMember(z: Zip, done: seq<Member>, m: Member, toks: seq<Token>)
    requires Nested(z) && Ready(z) && WellFormed(m.value) && forall x :: x in done ==> x.name != m.name
    ensures Run(Push(z, OpenObj(done, None)), [Lit(Text(m.name))] + (Tokens(m.value) + toks))
         == Run(Push(z, OpenObj(done + [m], None)), toks)
    decreases m, 2
  {
    NameStep(z, done, m.name);
    assert Member(m.name, m.value) == m;
    hide Run, ZipStep, Nested, Ready, Tokens, WellFormed, Add;
    RunCons(Push(z, OpenObj(done, None)), Lit(Text(m.name)), Tokens(m.value) + toks);
    RunValue(Push(z, OpenObj(done, Some(m.name))), m.value, toks);
  }

  lemma {:induction false} RunMembers(z: Zip, done: seq<Member>, ms: seq<Member>, toks: seq<Token>)
    requires Nested(z) && Ready(z) && MembersWellFormed(ms) && DistinctNames(done + ms)
    ensures Run(Push(z, OpenObj(done, None)), MemberTokens(ms) + toks) == Run(Push(z, OpenObj(done + ms, None)), toks)
    decreases ms, 2
  {
    hide Run, ZipStep, Nested, Ready, Tokens, WellFormed, Add;
    if ms == [] {
      assert done + ms == done && MemberTokens(ms) + toks == toks;
    } else {
      NewName(done, ms);
      FirstMember(ms, toks);
      assert done + [ms[0]] + ms[1..] == done + ms;
      assert MembersWellFormed(ms[1..]) && WellFormed(ms[0].value);
      hide MemberTokens, MembersWellFormed, DistinctNames;
      RunMember(z, done, ms[0], MemberTokens(ms[1..]) + toks);
      RunMembers(z, done + [ms[0]], ms[1..], toks);
    }
  }

  lemma NewName(done: seq<Member>, ms: seq<Member>)
    requires ms != [] && DistinctNames(done + ms)
    ensures forall m :: m in done ==> m.name != ms[0].name
  {
    forall i | 0 <= i < |done| ensures done[i].name != ms[0].name {
      assert (done + ms)[i] == done[i] && (done + ms)[|done|] == ms[0];
    }
  }

  lemma {:induction false} RunDocs(done: seq<Value>, docs: seq<Value>)
    requires AllWellFormed(docs)
    ensures Run(Top(done), Stream(docs)) == Some(Top(done + docs))
    decreases docs
  {
    if docs == [] {
      assert done + docs == done;
    } else {
      RunValue(Top(done), docs[0], Stream(docs[1..]));
      RunDocs(done + [docs[0]], docs[1..]);
      assert done + [docs[0]] + docs[1..] == done + docs;
    }
  }

  /** Parsing accepts exactly the token streams of well-formed values and gives
      those values back. */
  lemma {:induction false} ParseIsInverse(toks: seq<Token>, docs: seq<Value>)
    ensures Parse(toks) == Some(docs) <==> AllWellFormed(docs) && toks == Stream(docs)
  {
    if AllWellFormed(docs) && toks == Stream(docs) {
      RunDocs([], docs);
      assert [] + docs == docs;
    }
    if Parse(toks) == Some(docs) {
      RunConsumed(Top([]), toks, Top(docs));
      assert [] + toks == toks;
    }
  }

  // ---- reading token by token -----------------------------------------------------

  /** What holds of the decoder before each token. */
  ghost predicate Reading(toks: seq<Token>, pos: nat, stack: seq<Frame>, z: Zip) {
    && pos <= |toks|
    && Nested(z)
    && Stands(stack, z, false)
    && Run(Top([]), toks) == Run(z, toks[pos..])
  }

  lemma HeightIs(toks: seq<Token>, pos: nat, stack: seq<Frame>, z: Zip)
    requires Reading(toks, pos, stack, z)
    ensures |stack| == Height(z)
  {
    HeightStands(stack, z);
  }

  lemma SkipStarts(toks: seq<Token>, pos: nat, stack: seq<Frame>, z: Zip)
    requires Reading(toks, pos, stack, z)
    ensures |stack| == Height(z) && Inside(z, z)
  {
    HeightStands(stack, z);
  }

  lemma ReadingStep(toks: seq<Token>, pos: nat, stack: seq<Frame>, z: Zip)
    requires Reading(toks, pos, stack, z)
    ensures pos <= |toks| && Nested(z)
    ensures pos == |toks| ==> Run(Top([]), toks) == Some(z) && (stack == [] <==> z.Top?)
    ensures pos < |toks| && Step(stack, toks[pos]).None? ==> Parse(toks) == None
    ensures pos < |toks| && Step(stack, toks[pos]).Some? ==>
              && ZipStep(z, toks[pos]).Some?
              && Reading(toks, pos + 1, Step(stack, toks[pos]).value, ZipStep(z, toks[pos]).value)
  {
    if pos < |toks| {
      StepAgrees(stack, z, toks[pos]);
      assert toks[pos..][0] == toks[pos] && toks[pos..][1..] == toks[pos + 1..];
    }
  }

  lemma LengthTellsNames(stack: seq<Frame>, z: Zip, l: Leaf)
    requires Stands(stack, z, false) && Step(stack, Lit(l)).Some?
    ensures var next := Step(stack, Lit(l)).value;
            z.Push? && z.open.OpenObj? ==> next != [] && (next[|next| - 1].length % 2 == 1 <==> !Ready(z))
  {
  }

  /** A token that cannot be read is an error of the input. */
  lemma BadEnds(toks: seq<Token>, pos: nat, stack: seq<Frame>, z: Zip)
    requires Reading(toks, pos, stack, z) && (pos == |toks| ==> stack != [])
    requires pos < |toks| ==> Step(stack, toks[pos]).None?
    ensures Parse(toks) == None
  {
    ReadingStep(toks, pos, stack, z);
  }
}
