/**
 JSON documents as trees, and as the token streams that a streaming decoder
 reads and a streaming encoder writes (section 4 of RFC 8259 for objects).
 */
module Json {

  datatype Leaf = Null | Bool(b: bool) | Number(text: string) | Text(s: string)

  datatype Member = Member(name: string, value: Value)

  datatype Value =
    | Scalar(leaf: Leaf)
    | Arr(items: seq<Value>)
    | Obj(members: seq<Member>)

  datatype Token = ObjOpen | ObjClose | ArrOpen | ArrClose | Lit(leaf: Leaf)

  function Tokens(v: Value): seq<Token>
    decreases v, 0
  {
    match v
    case Scalar(l) => [Lit(l)]
    case Arr(items) => [ArrOpen] + Stream(items) + [ArrClose]
    case Obj(members) => [ObjOpen] + MemberTokens(members) + [ObjClose]
  }

  /** The tokens of values one after the other: the elements of an array, or
      the top-level values of an input. */
  function Stream(vs: seq<Value>): seq<Token>
    decreases vs, 1
  {
    if vs == [] then [] else Tokens(vs[0]) + Stream(vs[1..])
  }

  function MemberTokens(ms: seq<Member>): seq<Token>
    decreases ms, 1
  {
    if ms == [] then []
    else [Lit(Text(ms[0].name))] + Tokens(ms[0].value) + MemberTokens(ms[1..])
  }

  function Names(ms: seq<Member>): (names: set<string>)
  {
    set m | m in ms :: m.name
  }

  lemma NamesAppend(ms: seq<Member>, m: Member)
    ensures Names(ms + [m]) == Names(ms) + {m.name}
  {
    forall x | x in Names(ms) + {m.name} ensures x in Names(ms + [m]) {
      if x != m.name {
        var y :| y in ms && y.name == x;
        assert y in ms + [m];
      } else {
        assert m in ms + [m];
      }
    }
  }

  ghost predicate DistinctNames(ms: seq<Member>) {
    forall i, j :: 0 <= i < j < |ms| ==> ms[i].name != ms[j].name
  }

  /** No object has two members of one name. */
  ghost predicate WellFormed(v: Value)
    decreases v, 0
  {
    match v
    case Scalar(_) => true
    case Arr(items) => AllWellFormed(items)
    case Obj(members) => DistinctNames(members) && MembersWellFormed(members)
  }

  ghost predicate AllWellFormed(vs: seq<Value>)
    decreases vs, 1
  {
    vs == [] || (WellFormed(vs[0]) && AllWellFormed(vs[1..]))
  }

  ghost predicate MembersWellFormed(ms: seq<Member>)
    decreases ms, 1
  {
    ms == [] || (WellFormed(ms[0].value) && MembersWellFormed(ms[1..]))
  }

  lemma {:induction false} StreamAppend(vs: seq<Value>, v: Value)
    ensures Stream(vs + [v]) == Stream(vs) + Tokens(v)
  {
    if vs == [] {
      assert Stream([v]) == Tokens(v) + Stream([]);
    } else {
      assert (vs + [v])[1..] == vs[1..] + [v];
      StreamAppend(vs[1..], v);
    }
  }

  lemma {:induction false} MemberTokensAppend(ms: seq<Member>, m: Member)
    ensures MemberTokens(ms + [m]) == MemberTokens(ms) + [Lit(Text(m.name))] + Tokens(m.value)
  {
    if ms == [] {
      assert MemberTokens([m]) == [Lit(Text(m.name))] + Tokens(m.value) + MemberTokens([]);
    } else {
      assert (ms + [m])[1..] == ms[1..] + [m];
      MemberTokensAppend(ms[1..], m);
    }
  }

  lemma {:induction false} AllWellFormedAppend(vs: seq<Value>, v: Value)
    ensures AllWellFormed(vs + [v]) <==> AllWellFormed(vs) && WellFormed(v)
  {
    if vs != [] {
      assert (vs + [v])[1..] == vs[1..] + [v];
      AllWellFormedAppend(vs[1..], v);
    }
  }

  lemma {:induction false} MembersWellFormedAppend(ms: seq<Member>, m: Member)
    ensures MembersWellFormed(ms + [m]) <==> MembersWellFormed(ms) && WellFormed(m.value)
  {
    if ms != [] {
      assert (ms + [m])[1..] == ms[1..] + [m];
      MembersWellFormedAppend(ms[1..], m);
    }
  }
}
