/**
 replaceLabel of the support bundle scrubber: a configured name is replaced
 where it stands as whole DNS labels, case-insensitively.
 */
module ReplaceLabel {
  import opened Wrappers

  predicate IsLabelByte(c: char) {
    'a' <= c <= 'z' || 'A' <= c <= 'Z' || '0' <= c <= '9' || c == '-' || c == '_'
  }

  function LowerByte(c: char): char {
    if 'A' <= c <= 'Z' then c - 'A' + 'a' else c
  }

  const UPPER := "ABCDEFGHIJKLMNOPQRSTUVWXYZ"
  const LOWER := "abcdefghijklmnopqrstuvwxyz"
  const DIGITS := "0123456789"

  lemma InAlphabet(c: char)
    ensures c in UPPER <==> 'A' <= c <= 'Z'
    ensures c in LOWER <==> 'a' <= c <= 'z'
    ensures c in DIGITS <==> '0' <= c <= '9'
  {
    InRow(UPPER, 'A', c);
    InRow(LOWER, 'a', c);
    InRow(DIGITS, '0', c);
  }

  /** A character is in a row of consecutive ones exactly when it is between its ends. */
  lemma InRow(row: string, first: char, c: char)
    requires |row| <= 26 && first as int < 100
    requires forall i :: 0 <= i < |row| ==> row[i] as int == first as int + i
    ensures c in row <==> first as int <= c as int < first as int + |row|
  {
    if first as int <= c as int < first as int + |row| {
      assert row[c as int - first as int] == c;
    }
  }

  /** The bytes of a DNS label are the ASCII letters and digits, '-' and '_'. */
  lemma LabelBytes(c: char)
    ensures IsLabelByte(c) <==> c in UPPER || c in LOWER || c in DIGITS || c == '-' || c == '_'
  {
    InAlphabet(c);
    hide *;
    IsLabel(c);
  }

  lemma IsLabel(c: char)
    ensures IsLabelByte(c) <==> 'A' <= c <= 'Z' || 'a' <= c <= 'z' || '0' <= c <= '9' || c == '-' || c == '_'
  {
  }

  /** Each upper-case letter becomes the lower-case one at its place of the alphabet, any
      other byte stays. */
  lemma LowerBytes(c: char, i: nat)
    requires i < 26
    ensures LowerByte(UPPER[i]) == LOWER[i]
    ensures c !in UPPER ==> LowerByte(c) == c
  {
    if 'A' <= c <= 'Z' {
      assert UPPER[c as int - 'A' as int] == c;
    }
    assert UPPER[i] == 'A' + i as char && LOWER[i] == 'a' + i as char;
  }

  function Lower(s: string): string {
    seq(|s|, i requires 0 <= i < |s| => LowerByte(s[i]))
  }

  method AsciiLower(s: string) returns (r: string)
    ensures r == Lower(s)
  {
    var b := new char[|s|](i requires 0 <= i < |s| => s[i]);
    for i := 0 to b.Length
      invariant forall k :: 0 <= k < i ==> b[k] == LowerByte(s[k])
      invariant forall k :: i <= k < b.Length ==> b[k] == s[k]
    {
      if 'A' <= b[i] <= 'Z' {
        b[i] := b[i] - 'A' + 'a';
      }
    }
    r := b[..];
  }

  // ---- where a name stands ----------------------------------------------------------

  predicate Matches(lower: string, name: string, j: nat) {
    j + |name| <= |lower| && lower[j..j + |name|] == name
  }

  predicate Bounded(lower: string, n: nat, j: nat)
    requires j + n <= |lower|
  {
    (j == 0 || !IsLabelByte(lower[j - 1])) && (j + n == |lower| || !IsLabelByte(lower[j + n]))
  }

  /** name stands in s at j as whole labels, whatever its case there. */
  predicate Stands(s: string, name: string, j: nat) {
    Matches(Lower(s), name, j) && Bounded(Lower(s), |name|, j)
  }

  /** The bytes at j are those of the name but for their case, and the bytes before and
      after are no label bytes. */
  lemma {:induction false} StandsMeans(s: string, name: string, j: nat)
    ensures Stands(s, name, j)
       <==> && j + |name| <= |s|
            && (forall k :: 0 <= k < |name| ==> LowerByte(s[j + k]) == name[k])
            && (j == 0 || !IsLabelByte(s[j - 1]))
            && (j + |name| == |s| || !IsLabelByte(s[j + |name|]))
  {
    var lower := Lower(s);
    if j + |name| <= |s| {
      var part := lower[j..j + |name|];
      assert forall k :: 0 <= k < |name| ==> part[k] == LowerByte(s[j + k]);
      if forall k :: 0 <= k < |name| ==> LowerByte(s[j + k]) == name[k] {
        assert lower[j..j + |name|] == name;
      }
    }
  }

  /** All places from `from` on, in order. */
  function Places(s: string, name: string, from: nat): seq<nat>
    decreases |s| + 1 - from
  {
    if from > |s| then []
    else if Stands(s, name, from) then [from] + Places(s, name, from + 1)
    else Places(s, name, from + 1)
  }

  predicate Ascending(ps: seq<nat>) {
    forall k, l :: 0 <= k < l < |ps| ==> ps[k] < ps[l]
  }

  /** They are in order. */
  lemma {:induction false} PlacesAscend(s: string, name: string, from: nat)
    ensures Ascending(Places(s, name, from))
    decreases |s| + 1 - from
  {
    if from <= |s| {
      PlacesAscend(s, name, from + 1);
      var rest := Places(s, name, from + 1);
      forall k | 0 <= k < |rest| ensures from < rest[k] {
        PlacesAreAll(s, name, from + 1, rest[k]);
      }
    }
  }

  /** They are all the places there are. */
  lemma {:induction false} PlacesAreAll(s: string, name: string, from: nat, j: nat)
    ensures j in Places(s, name, from) <==> from <= j && Stands(s, name, j)
    decreases |s| + 1 - from
  {
    if from <= |s| {
      PlacesAreAll(s, name, from + 1, j);
      var rest := Places(s, name, from + 1);
      assert j in [from] + rest <==> j == from || j in rest;
    }
  }

  /** The places do not run into each other. */
  predicate Apart(ps: seq<nat>, n: nat) {
    forall k :: 0 < k < |ps| ==> ps[k - 1] + n <= ps[k]
  }

  /** The end of the last place. */
  function End(ps: seq<nat>, n: nat): nat {
    if ps == [] then 0 else ps[|ps| - 1] + n
  }

  predicate Fit(s: string, ps: seq<nat>, n: nat) {
    Apart(ps, n) && forall k :: 0 <= k < |ps| ==> ps[k] + n <= |s|
  }

  /** s up to the end of the last place, with `with` in place of the n bytes at
      each place and every other byte unchanged. */
  function Written(s: string, ps: seq<nat>, n: nat, with: string): string
    requires Fit(s, ps, n)
  {
    if ps == [] then ""
    else
      var before := ps[..|ps| - 1];
      Written(s, before, n, with) + s[End(before, n)..ps[|ps| - 1]] + with
  }

  function Spliced(s: string, ps: seq<nat>, n: nat, with: string): string
    requires Fit(s, ps, n)
  {
    Written(s, ps, n, with) + s[End(ps, n)..]
  }

  // ---- the index loop ------------------------------------------------------------------

  /** strings.Index from i on. */
  method Index(lower: string, name: string, i: nat) returns (j: Option<nat>)
    ensures j.Some? ==> i <= j.value && Matches(lower, name, j.value)
    ensures forall k :: i <= k && (j.Some? ==> k < j.value) ==> !Matches(lower, name, k)
  {
    var at := i;
    while at + |name| <= |lower|
      invariant i <= at
      invariant forall k :: i <= k < at ==> !Matches(lower, name, k)
      decreases |lower| - at
    {
      if Matches(lower, name, at) {
        return Some(at);
      }
      at := at + 1;
    }
    return None;
  }

  lemma PlacesFrom(s: string, name: string, i: nat, j: nat)
    requires i <= j && forall k :: i <= k < j ==> !Stands(s, name, k)
    ensures Places(s, name, i) == Places(s, name, j)
    decreases j - i
  {
    if i < j && i <= |s| {
      PlacesFrom(s, name, i + 1, j);
    }
  }

  lemma OneMore(s: string, ps: seq<nat>, p: nat, n: nat, with: string)
    requires Fit(s, ps, n) && End(ps, n) <= p && p + n <= |s|
    ensures Fit(s, ps + [p], n)
    ensures Written(s, ps + [p], n, with) == Written(s, ps, n, with) + s[End(ps, n)..p] + with
  {
    assert (ps + [p])[..|ps|] == ps;
  }

  /** What the loop has done when it stands at i: `done` are the places before i. */
  ghost predicate Scanned(s: string, name: string, with: string, i: nat, done: seq<nat>, last: nat, b: string) {
    && Places(s, name, 0) == done + Places(s, name, i)
    && Fit(s, done, |name|)
    && last == End(done, |name|)
    && b == Written(s, done, |name|, with)
  }

  lemma SkipTo(s: string, name: string, with: string, i: nat, j: nat, done: seq<nat>, last: nat, b: string)
    requires Scanned(s, name, with, i, done, last, b)
    requires i <= j && forall k :: i <= k < j ==> !Matches(Lower(s), name, k)
    ensures Scanned(s, name, with, j, done, last, b)
  {
    PlacesFrom(s, name, i, j);
  }

  lemma NotHere(s: string, name: string, with: string, j: nat, done: seq<nat>, last: nat, b: string)
    requires Scanned(s, name, with, j, done, last, b) && !Stands(s, name, j)
    ensures Scanned(s, name, with, j + 1, done, last, b)
  {
    PlacesFrom(s, name, j, j + 1);
  }

  lemma AtEnd(s: string, name: string, with: string, i: nat, done: seq<nat>, last: nat, b: string)
    requires Scanned(s, name, with, i, done, last, b)
    requires forall k :: i <= k ==> !Matches(Lower(s), name, k)
    ensures Places(s, name, 0) == done && Fit(s, done, |name|) && Apart(done, |name|) && last <= |s|
    ensures b + s[last..] == Spliced(s, done, |name|, with)
    ensures last == 0 && name != "" ==> done == [] && b + s[last..] == s
  {
    PlacesFrom(s, name, i, if i <= |s| then |s| + 1 else i);
    assert done + [] == done;
  }

  lemma TakeNext(s: string, name: string, with: string, j: nat, done: seq<nat>, last: nat, b: string)
    requires Scanned(s, name, with, j, done, last, b) && Stands(s, name, j)
    ensures last > j ==> !Apart(Places(s, name, 0), |name|)
    ensures last <= j ==> Scanned(s, name, with, j + 1, done + [j], j + |name|, b + s[last..j] + with)
  {
    var all := Places(s, name, 0);
    assert j <= |s|;
    assert Places(s, name, j) == [j] + Places(s, name, j + 1);
    assert all == done + [j] + Places(s, name, j + 1);
    hide Places, Stands;
    if last > j {
      assert all[|done| - 1] == done[|done| - 1] && all[|done|] == j;
    } else {
      hide Written;
      OneMore(s, done, j, |name|, with);
    }
  }

  lemma Starts(s: string, name: string, with: string)
    ensures Scanned(s, name, with, 0, [], 0, "")
  {
    assert [] + Places(s, name, 0) == Places(s, name, 0);
  }

  lemma FoundAt(s: string, name: string, j: nat)
    requires Matches(Lower(s), name, j)
    ensures j + |name| <= |s| && (Stands(s, name, j) <==> Bounded(Lower(s), |name|, j))
  {
  }

  lemma NoneLeft(lower: string, name: string, i: nat)
    ensures i + |name| > |lower| ==> forall k :: i <= k ==> !Matches(lower, name, k)
  {
  }

  /** Puts `with` in place of every occurrence of the name, given in lower case, that has
      no further label byte on either side. None when a slice is out of bounds, which is
      when two such places overlap. */
  method Replace(s: string, name: string, with: string, count: nat) returns (r: Option<string>, count': nat)
    requires name != ""
    ensures r.Some? <==> Apart(Places(s, name, 0), |name|)
    ensures r.Some? ==> count' == count + |Places(s, name, 0)|
    ensures r.Some? ==> Fit(s, Places(s, name, 0), |name|) && r.value == Spliced(s, Places(s, name, 0), |name|, with)
  {
    hide Scanned, Places, Stands, Apart, Fit, Spliced, Matches;
    count' := count;
    var lower := AsciiLower(s);
    var b, last: nat, i := "", 0, 0;
    ghost var done: seq<nat> := [];
    Starts(s, name, with);
    while i + |name| <= |lower|
      invariant i <= |lower| + 1
      invariant Scanned(s, name, with, i, done, last, b)
      invariant count' == count + |done|
      decreases |lower| + 1 - i
    {
      var found := Index(lower, name, i);
      if found.None? {
        break;
      }
      var j := found.value;
      SkipTo(s, name, with, i, j, done, last, b);
      FoundAt(s, name, j);
      var end := j + |name|;
      if Bounded(lower, |name|, j) {
        TakeNext(s, name, with, j, done, last, b);
        if last > j {
          return None, count';
        }
        b := b + s[last..j] + with;
        last := end;
        count' := count' + 1;
        done := done + [j];
      } else {
        NotHere(s, name, with, j, done, last, b);
      }
      i := j + 1;
    }
    NoneLeft(lower, name, i);
    AtEnd(s, name, with, i, done, last, b);
    if last == 0 {
      return Some(s), count';
    }
    return Some(b + s[last..]), count';
  }

  // ---- for which names it is safe on every text -----------------------------------------------

  /** name, shifted by some whole labels, runs into itself. */
  ghost predicate OverlapsItself(name: string) {
    exists p :: ShiftFits(name, p)
  }

  ghost predicate ShiftFits(name: string, p: nat) {
    0 < p < |name| && name[p..] == name[..|name| - p] && !IsLabelByte(name[p - 1]) && !IsLabelByte(name[|name| - p])
  }

  lemma OverlapShows(s: string, name: string, j: nat, p: nat)
    requires Stands(s, name, j) && Stands(s, name, j + p) && 0 < p < |name|
    ensures ShiftFits(name, p)
  {
    var lower, n := Lower(s), |name|;
    forall k | 0 <= k < n - p ensures name[p..][k] == name[..n - p][k] {
      assert lower[j..j + n][p + k] == lower[j + p..j + p + n][k];
    }
    assert name[p - 1] == lower[j..j + n][p - 1];
    assert name[n - p] == lower[j + p..j + p + n][n - p];
  }

  function OverlapText(name: string, p: nat): string
    requires 0 < p < |name|
  {
    name + name[|name| - p..]
  }

  lemma OverlapTextStands(name: string, p: nat)
    requires ShiftFits(name, p) && Lower(name) == name
    ensures Stands(OverlapText(name, p), name, 0) && Stands(OverlapText(name, p), name, p)
  {
    var t, n := OverlapText(name, p), |name|;
    forall k | 0 <= k < |t| ensures Lower(t)[k] == t[k] {
      assert Lower(name)[if k < n then k else k - p] == LowerByte(t[k]);
    }
    assert Lower(t) == t;
    assert t[0..n] == name && t[n] == name[n - p];
    forall k | 0 <= k < n ensures t[p..p + n][k] == name[k] {
      assert k < n - p ==> name[p..][k] == name[..n - p][k];
    }
    assert t[p..p + n] == name;
  }

  lemma {:induction false} ApartAll(ps: seq<nat>, n: nat, k: nat, l: nat)
    requires Apart(ps, n) && k < l < |ps|
    ensures ps[k] + n <= ps[l]
    decreases l
  {
    if k < l - 1 {
      ApartAll(ps, n, k, l - 1);
    }
  }

  lemma NotApart(ps: seq<nat>, n: nat, a: nat, b: nat)
    requires a in ps && b in ps && a < b < a + n
    requires Ascending(ps)
    ensures !Apart(ps, n)
  {
    var k :| 0 <= k < |ps| && ps[k] == a;
    var l :| 0 <= l < |ps| && ps[l] == b;
    if Apart(ps, n) {
      ApartAll(ps, n, k, l);
      assert false;
    }
  }

  lemma PlacesApart(s: string, name: string)
    requires !OverlapsItself(name)
    ensures Apart(Places(s, name, 0), |name|)
  {
    var ps := Places(s, name, 0);
    PlacesAscend(s, name, 0);
    hide Places, Stands, OverlapsItself;
    forall k | 0 < k < |ps| ensures ps[k - 1] + |name| <= ps[k] {
      assert ps[k - 1] < ps[k];
      PlacesAreAll(s, name, 0, ps[k - 1]);
      PlacesAreAll(s, name, 0, ps[k]);
      NoOverlap(s, name, ps[k - 1], ps[k]);
    }
  }

  lemma NoOverlap(s: string, name: string, i: nat, j: nat)
    requires !OverlapsItself(name) && Stands(s, name, i) && Stands(s, name, j) && i < j
    ensures i + |name| <= j
  {
    if j < i + |name| {
      OverlapShows(s, name, i, j - i);
    }
  }

  lemma OverlapFault(name: string, p: nat)
    requires ShiftFits(name, p) && Lower(name) == name
    ensures !Apart(Places(OverlapText(name, p), name, 0), |name|)
  {
    OverlapTextStands(name, p);
    PlacesAscend(OverlapText(name, p), name, 0);
    PlacesAreAll(OverlapText(name, p), name, 0, 0);
    PlacesAreAll(OverlapText(name, p), name, 0, p);
    NotApart(Places(OverlapText(name, p), name, 0), |name|, 0, p);
  }

  /** A name is replaced without a fault in every text exactly when it does not
      overlap itself at a label boundary. */
  lemma {:induction false} SafeNames(name: string)
    requires Lower(name) == name
    ensures (forall s :: Apart(Places(s, name, 0), |name|)) <==> !OverlapsItself(name)
  {
    if OverlapsItself(name) {
      var p :| ShiftFits(name, p);
      OverlapFault(name, p);
    } else {
      forall s ensures Apart(Places(s, name, 0), |name|) {
        PlacesApart(s, name);
      }
    }
  }

  /** A host name of twice the same label is such a name. */
  lemma {:induction false} TwiceTheSameLabel()
    ensures OverlapsItself("nas.nas")
    ensures !Apart(Places("nas.nas.nas", "nas.nas", 0), 7)
  {
    var name := "nas.nas";
    assert name[4..] == "nas" == name[..3];
    assert ShiftFits(name, 4);
    assert Lower(name) == name;
    assert OverlapText(name, 4) == "nas.nas.nas";
    OverlapFault(name, 4);
  }
}
