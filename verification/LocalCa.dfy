/**
 The name constraints of the local CA and the names and addresses of the
 certificates it issues: what such a CA permits, in terms of whole labels, and
 what a certificate for the same identity covers.
*/
module LocalCa {

  // ---- names by labels ---------------------------------------------------------------------

  predicate HasSuffix(s: string, t: string) {
    |t| <= |s| && s[|s| - |t|..] == t
  }

  /** n is c or a name below it. */
  predicate AtOrBelow(n: string, c: string) {
    n == c || HasSuffix(n, "." + c)
  }

  lemma BelowMeans(n: string, c: string)
    ensures AtOrBelow(n, c) <==> n == c || exists k :: 0 <= k < |n| && n[k] == '.' && n[k + 1..] == c
  {
    if HasSuffix(n, "." + c) {
      var k := |n| - |c| - 1;
      assert n[k..] == "." + c;
      assert n[k] == '.' && n[k + 1..] == n[k..][1..] == c;
    }
    if k :| 0 <= k < |n| && n[k] == '.' && n[k + 1..] == c {
      assert n[k..] == [n[k]] + n[k + 1..];
    }
  }

  lemma BelowTransitive(a: string, b: string, c: string)
    requires AtOrBelow(a, b) && AtOrBelow(b, c)
    ensures AtOrBelow(a, c)
  {
    hide AtOrBelow;
    BelowMeans(a, b);
    BelowMeans(b, c);
    BelowMeans(a, c);
    if a != b && b != c {
      var k :| 0 <= k < |a| && a[k] == '.' && a[k + 1..] == b;
      var m :| 0 <= m < |b| && b[m] == '.' && b[m + 1..] == c;
      assert a[k + 1..][m..] == a[k + 1 + m..];
      assert a[k + 1 + m] == '.' && a[k + m + 2..] == c;
    }
  }

  predicate OneLabel(l: string) {
    l != "" && '.' !in l
  }

  /** What is above a name directly under d: the name itself, or d and the names
      above d. */
  lemma AboveDirect(l: string, d: string, c: string)
    requires OneLabel(l) && AtOrBelow(l + "." + d, c)
    ensures c == l + "." + d || AtOrBelow(d, c)
  {
    var n := l + "." + d;
    BelowMeans(n, c);
    if n != c {
      var k :| 0 <= k < |n| && n[k] == '.' && n[k + 1..] == c;
      if k < |l| {
        assert false;
      } else if k == |l| {
        assert c == d;
      } else {
        var m := k - |l| - 1;
        assert d[m] == n[k] && d[m + 1..] == n[k + 1..];
        BelowMeans(d, c);
      }
    }
  }

  // ---- addresses and ranges -----------------------------------------------------------------

  datatype Addr = V4(bits: nat) | V6(bits: nat)

  datatype Range = Range(addr: Addr, prefix: nat)

  function Width(a: Addr): nat {
    if a.V4? then 32 else 128
  }

  function Pow2(n: nat): (p: nat)
    ensures p > 0
  {
    if n == 0 then 1 else 2 * Pow2(n - 1)
  }

  lemma {:induction false} Pow2Add(m: nat, n: nat)
    ensures Pow2(m + n) == Pow2(m) * Pow2(n)
  {
    if m > 0 {
      Pow2Add(m - 1, n);
    }
  }

  /** IPv4 addresses have 32 bits, IPv6 addresses 128. */
  lemma AddressBits(a: Addr)
    ensures ValidAddr(a) <==> a.bits < if a.V4? then 0x1_0000_0000 else 0x1_0000_0000_0000_0000_0000_0000_0000_0000
  {
    Doublings(8, 0x100);
  }

  lemma Doublings(n: nat, p: nat)
    requires n == 8 && p == 0x100
    ensures Pow2(4 * n) == 0x1_0000_0000 && Pow2(16 * n) == 0x1_0000_0000_0000_0000_0000_0000_0000_0000
  {
    EightBits(n);
    hide Pow2;
    Twice(n, 0x100);
    Twice(2 * n, 0x1_0000);
    Twice(4 * n, 0x1_0000_0000);
    Twice(8 * n, 0x1_0000_0000_0000_0000);
  }

  lemma EightBits(n: nat)
    requires n == 8
    ensures Pow2(n) == 0x100
  {
    assert Pow2(4) == 16;
  }

  lemma Twice(n: nat, p: nat)
    requires Pow2(n) == p
    ensures Pow2(2 * n) == p * p
  {
    Pow2Add(n, n);
  }

  predicate ValidAddr(a: Addr) {
    a.bits < Pow2(Width(a))
  }

  /** The first bits of the range's address and of a are the same. */
  predicate Contains(r: Range, a: Addr) {
    && r.addr.V4? == a.V4? && r.prefix <= Width(a)
    && a.bits / Pow2(Width(a) - r.prefix) == r.addr.bits / Pow2(Width(a) - r.prefix)
  }

  lemma SingleAddress(r: Range, a: Addr)
    requires r.prefix == Width(r.addr)
    ensures Contains(r, a) <==> a == r.addr
  {
  }

  lemma WholeFamily(r: Range, a: Addr)
    requires r.prefix == 0 && r.addr.bits == 0 && ValidAddr(a)
    ensures Contains(r, a) <==> r.addr.V4? == a.V4?
  {
    hide Pow2;
    FirstBits(a.bits, Pow2(Width(a)));
    FirstBits(0, Pow2(Width(a)));
  }

  lemma FirstBits(x: nat, p: nat)
    requires x < p
    ensures x / p == 0
  {
  }

  // ---- the identity and its constraints --------------------------------------------------------

  /** The own names and addresses, the extra hosts of the web settings, the local and
      search domains (lower-case, without dots at the ends, "" for none), the server
      name of encrypted DNS and whether DNS over TLS is on. */
  datatype Identity = Identity(names: seq<string>, addrs: seq<Addr>, extra: seq<string>,
                               domains: seq<string>, serverName: string, dot: bool)

  /** The constraints of a CA. */
  datatype Constraints = Constraints(domains: seq<string>, permitted: seq<Range>, excluded: seq<Range>)

  /** The name is a domain of this network or above one. */
  predicate Broad(n: string, domains: seq<string>) {
    exists i :: 0 <= i < |domains| && domains[i] != "" && AtOrBelow(domains[i], n)
  }

  predicate AboveSome(n: string, names: seq<string>) {
    exists i :: 0 <= i < |names| && AtOrBelow(names[i], n)
  }

  predicate ServerNameLeftOut(id: Identity) {
    id.serverName == "" || Broad(id.serverName, id.domains) || AboveSome(id.serverName, id.extra)
  }

  /** The own names that a new CA is constrained to. */
  predicate Kept(id: Identity, n: string) {
    n in id.names && !(n == id.serverName && ServerNameLeftOut(id)) && !Broad(n, id.domains)
  }

  predicate PermittedBy(c: string, n: string) {
    if c != "" && c[0] == '.' then HasSuffix(n, c) else AtOrBelow(n, c)
  }

  predicate PermitsName(ca: Constraints, n: string) {
    exists i :: 0 <= i < |ca.domains| && PermittedBy(ca.domains[i], n)
  }

  predicate PermitsAddr(ca: Constraints, a: Addr) {
    && (forall i :: 0 <= i < |ca.excluded| ==> !Contains(ca.excluded[i], a))
    && (exists i :: 0 <= i < |ca.permitted| && Contains(ca.permitted[i], a))
  }

  predicate HasFamily(addrs: seq<Addr>, v4: bool) {
    exists i :: 0 <= i < |addrs| && addrs[i].V4? == v4
  }

  /** Own names are host names: not empty and without a dot at the front. */
  predicate ValidIdentity(id: Identity) {
    && (forall i :: 0 <= i < |id.names| ==> id.names[i] != "" && id.names[i][0] != '.')
    && (forall i :: 0 <= i < |id.addrs| ==> ValidAddr(id.addrs[i]))
  }

  /** The constraints of a CA made for this identity. */
  ghost predicate MadeFor(ca: Constraints, id: Identity) {
    && (forall n :: n in ca.domains <==> Kept(id, n))
    && (forall r :: r in ca.permitted <==> r.addr in id.addrs && r.prefix == Width(r.addr))
    && (forall r :: r in ca.excluded
                    <==> (r == Range(V4(0), 0) && !HasFamily(id.addrs, true)) || (r == Range(V6(0), 0) && !HasFamily(id.addrs, false)))
  }

  method BroadName(n: string, domains: seq<string>) returns (broad: bool)
    ensures broad <==> Broad(n, domains)
  {
    for i := 0 to |domains|
      invariant forall j :: 0 <= j < i ==> domains[j] == "" || !AtOrBelow(domains[j], n)
    {
      if domains[i] != "" && (domains[i] == n || HasSuffix(domains[i], "." + n)) {
        return true;
      }
    }
    return false;
  }

  method ServerNameExcluded(id: Identity) returns (excluded: bool)
    ensures excluded <==> ServerNameLeftOut(id)
  {
    if id.serverName == "" {
      return true;
    }
    var broad := BroadName(id.serverName, id.domains);
    if broad {
      return true;
    }
    for i := 0 to |id.extra|
      invariant forall j :: 0 <= j < i ==> !AtOrBelow(id.extra[j], id.serverName)
    {
      if id.extra[i] == id.serverName || HasSuffix(id.extra[i], "." + id.serverName) {
        return true;
      }
    }
    return false;
  }

  method ConstrainedNames(id: Identity) returns (names: seq<string>)
    ensures forall n :: n in names <==> Kept(id, n)
  {
    names := [];
    for i := 0 to |id.names|
      invariant forall n :: n in names <==> n in id.names[..i] && Kept(id, n)
    {
      var n := id.names[i];
      assert id.names[..i + 1] == id.names[..i] + [n];
      var excluded := ServerNameExcluded(id);
      if n == id.serverName && excluded {
        continue;
      }
      var broad := BroadName(n, id.domains);
      if !broad {
        names := names + [n];
      }
    }
    assert id.names[..|id.names|] == id.names;
  }

  method ConstrainedAddrs(addrs: seq<Addr>) returns (permitted: seq<Range>, excluded: seq<Range>)
    ensures forall r :: r in permitted <==> r.addr in addrs && r.prefix == Width(r.addr)
    ensures forall r :: r in excluded
                        <==> (r == Range(V4(0), 0) && !HasFamily(addrs, true)) || (r == Range(V6(0), 0) && !HasFamily(addrs, false))
  {
    permitted, excluded := [], [];
    var has4, has6 := false, false;
    for i := 0 to |addrs|
      invariant forall r :: r in permitted <==> r.addr in addrs[..i] && r.prefix == Width(r.addr)
      invariant has4 <==> HasFamily(addrs[..i], true)
      invariant has6 <==> HasFamily(addrs[..i], false)
    {
      var a := addrs[i];
      assert addrs[..i + 1] == addrs[..i] + [a];
      FamilyNext(addrs[..i], a);
      permitted := permitted + [Range(a, Width(a))];
      has4, has6 := has4 || a.V4?, has6 || a.V6?;
    }
    assert addrs[..|addrs|] == addrs;
    if !has4 {
      excluded := excluded + [Range(V4(0), 0)];
    }
    if !has6 {
      excluded := excluded + [Range(V6(0), 0)];
    }
  }

  lemma FamilyNext(addrs: seq<Addr>, a: Addr)
    ensures forall v4 :: HasFamily(addrs + [a], v4) <==> HasFamily(addrs, v4) || a.V4? == v4
  {
    forall v4 | HasFamily(addrs, v4) ensures HasFamily(addrs + [a], v4) {
      var i :| 0 <= i < |addrs| && addrs[i].V4? == v4;
      assert (addrs + [a])[i].V4? == v4;
    }
    assert (addrs + [a])[|addrs|] == a;
  }

  method CaConstraints(id: Identity) returns (ca: Constraints)
    ensures MadeFor(ca, id)
  {
    var names := ConstrainedNames(id);
    var permitted, excluded := ConstrainedAddrs(id.addrs);
    ca := Constraints(names, permitted, excluded);
  }

  method CheckName(ca: Constraints, n: string) returns (ok: bool)
    ensures ok <==> PermitsName(ca, n)
    ensures ok <==> exists c <- ca.domains :: if c != "" && c[0] == '.' then HasSuffix(n, c) else n == c || HasSuffix(n, "." + c)
  {
    hide HasSuffix;
    for i := 0 to |ca.domains|
      invariant forall j :: 0 <= j < i ==> !PermittedBy(ca.domains[j], n)
    {
      var c := ca.domains[i];
      if c != "" && c[0] == '.' {
        if HasSuffix(n, c) {
          return true;
        }
      } else if n == c || HasSuffix(n, "." + c) {
        return true;
      }
    }
    return false;
  }

  method CheckAddr(ca: Constraints, a: Addr) returns (ok: bool)
    ensures ok <==> PermitsAddr(ca, a)
    ensures ok <==> (forall r <- ca.excluded :: !Contains(r, a)) && exists r <- ca.permitted :: Contains(r, a)
  {
    hide Contains;
    for i := 0 to |ca.excluded|
      invariant forall j :: 0 <= j < i ==> !Contains(ca.excluded[j], a)
    {
      if Contains(ca.excluded[i], a) {
        return false;
      }
    }
    for i := 0 to |ca.permitted|
      invariant forall j :: 0 <= j < i ==> !Contains(ca.permitted[j], a)
    {
      if Contains(ca.permitted[i], a) {
        return true;
      }
    }
    return false;
  }

  // ---- what such a CA permits ----------------------------------------------------------------------

  lemma PermitsKept(ca: Constraints, id: Identity, n: string)
    requires ValidIdentity(id) && MadeFor(ca, id)
    ensures PermitsName(ca, n) <==> exists c :: Kept(id, c) && AtOrBelow(n, c)
  {
    if c :| Kept(id, c) && AtOrBelow(n, c) {
      var i :| 0 <= i < |ca.domains| && ca.domains[i] == c;
      assert PermittedBy(ca.domains[i], n);
    }
    if i :| 0 <= i < |ca.domains| && PermittedBy(ca.domains[i], n) {
      assert Kept(id, ca.domains[i]);
    }
  }

  /** Every address of a family is excluded by a range exactly when the identity has none
      of the family. */
  lemma {:induction false} FamilyExcluded(ca: Constraints, id: Identity, a: Addr)
    requires MadeFor(ca, id) && ValidAddr(a)
    ensures (exists r <- ca.excluded :: Contains(r, a)) <==> forall b <- id.addrs :: b.V4? != a.V4?
  {
    var whole := Range(if a.V4? then V4(0) else V6(0), 0);
    WholeFamily(whole, a);
    hide Contains, ValidAddr, Width, Pow2;
    assert forall r <- ca.excluded :: r.addr.V4? == a.V4? ==> r == whole;
    OtherFamily(ca.excluded, a);
    if HasFamily(id.addrs, a.V4?) {
      var i :| 0 <= i < |id.addrs| && id.addrs[i].V4? == a.V4?;
      assert id.addrs[i] in id.addrs;
    } else {
      assert whole in ca.excluded;
      forall b | b in id.addrs ensures b.V4? != a.V4? {
        var i :| 0 <= i < |id.addrs| && id.addrs[i] == b;
      }
    }
  }

  lemma OtherFamily(rs: seq<Range>, a: Addr)
    ensures forall r <- rs :: Contains(r, a) ==> r.addr.V4? == a.V4?
  {
    hide Pow2, Width;
  }

  /** n is neither a domain of the network nor above one. */
  ghost predicate InNoDomain(n: string, domains: seq<string>) {
    forall d <- domains :: d != "" ==> d != n && !HasSuffix(d, "." + n)
  }

  lemma NotBroad(n: string, domains: seq<string>)
    ensures Broad(n, domains) <==> !InNoDomain(n, domains)
  {
    hide HasSuffix;
    if i :| 0 <= i < |domains| && domains[i] != "" && AtOrBelow(domains[i], n) {
      assert domains[i] in domains;
    }
    if d :| d in domains && d != "" && (d == n || HasSuffix(d, "." + n)) {
      var k :| 0 <= k < |domains| && domains[k] == d;
      assert AtOrBelow(domains[k], n);
    }
  }

  /** An extra host of the web settings is permitted exactly when it is an own name or
      below one other than the server name, which is left out above it. */
  lemma {:induction false} ExtraNotByServerName(ca: Constraints, id: Identity, h: string)
    requires ValidIdentity(id) && MadeFor(ca, id) && h in id.extra
    ensures PermitsName(ca, h)
       <==> exists n <- id.names :: n != id.serverName && (h == n || HasSuffix(h, "." + n)) && InNoDomain(n, id.domains)
  {
    PermitsKept(ca, id, h);
    var i :| 0 <= i < |id.extra| && id.extra[i] == h;
    if AtOrBelow(h, id.serverName) {
      assert AboveSome(id.serverName, id.extra);
    }
    hide HasSuffix, Broad, InNoDomain, MadeFor, PermitsName;
    if c :| Kept(id, c) && AtOrBelow(h, c) {
      NotBroad(c, id.domains);
      assert c in id.names && c != id.serverName;
    }
    if n :| n in id.names && n != id.serverName && (h == n || HasSuffix(h, "." + n)) && InNoDomain(n, id.domains) {
      NotBroad(n, id.domains);
      assert Kept(id, n) && AtOrBelow(h, n);
    }
  }

  /** Nothing broad is permitted, even below another own name. */
  lemma {:induction false} BroadNotPermitted(ca: Constraints, id: Identity, n: string)
    requires ValidIdentity(id) && MadeFor(ca, id) && Broad(n, id.domains)
    ensures !PermitsName(ca, n)
  {
    PermitsKept(ca, id, n);
    if c :| Kept(id, c) && AtOrBelow(n, c) {
      var i :| 0 <= i < |id.domains| && id.domains[i] != "" && AtOrBelow(id.domains[i], n);
      BelowTransitive(id.domains[i], n, c);
      assert Broad(c, id.domains);
      assert false;
    }
  }

  /** The CA cannot sign the names of other devices: of the names directly under the
      local or a search domain it permits exactly its own. */
  lemma {:induction false} OnlyOwnDevice(ca: Constraints, id: Identity, l: string, i: nat)
    requires ValidIdentity(id) && MadeFor(ca, id) && OneLabel(l) && i < |id.domains| && id.domains[i] != ""
    ensures PermitsName(ca, l + "." + id.domains[i]) <==> Kept(id, l + "." + id.domains[i])
    ensures !PermitsName(ca, id.domains[i])
  {
    var d := id.domains[i];
    var n := l + "." + d;
    PermitsKept(ca, id, n);
    if c :| Kept(id, c) && AtOrBelow(n, c) {
      AboveDirect(l, d, c);
    }
    assert AtOrBelow(d, d);
    BroadNotPermitted(ca, id, d);
  }

  /** The addresses that the CA permits are exactly the own ones. */
  lemma {:induction false} OnlyOwnAddrs(ca: Constraints, id: Identity, a: Addr)
    requires ValidIdentity(id) && MadeFor(ca, id) && ValidAddr(a)
    ensures PermitsAddr(ca, a) <==> a in id.addrs
  {
    if a in id.addrs {
      var k :| 0 <= k < |id.addrs| && id.addrs[k] == a;
      assert HasFamily(id.addrs, a.V4?);
      forall i | 0 <= i < |ca.excluded| ensures !Contains(ca.excluded[i], a) {
        assert ca.excluded[i] in ca.excluded;
        WholeFamily(ca.excluded[i], a);
      }
      var r := Range(a, Width(a));
      assert r in ca.permitted;
      var i :| 0 <= i < |ca.permitted| && ca.permitted[i] == r;
      assert Contains(ca.permitted[i], a);
    } else if i :| 0 <= i < |ca.permitted| && Contains(ca.permitted[i], a) {
      assert ca.permitted[i] in ca.permitted;
      SingleAddress(ca.permitted[i], a);
    }
  }

  // ---- the certificate ------------------------------------------------------------------------------

  const WILDCARD := "*."

  datatype Outside = Name(n: string) | Address(a: Addr)

  /** The subject alternative names of a certificate and the entries that the CA
      does not permit and a new one would. */
  datatype Leaf = Leaf(names: seq<string>, addrs: seq<Addr>, outside: seq<Outside>)

  /** What one own name adds to the certificate. */
  function LeafNames(ca: Constraints, id: Identity, n: string): seq<string> {
    if !PermitsName(ca, n) then []
    else if n == id.serverName && id.dot && PermitsName(ca, WILDCARD + n) then [n, WILDCARD + n]
    else [n]
  }

  /** An own name that only a new CA covers. */
  predicate Missing(ca: Constraints, id: Identity, n: string) {
    !PermitsName(ca, n) && !(n == id.serverName && ServerNameLeftOut(id))
  }

  /** The certificate for an identity under some CA, new or old. */
  ghost predicate LeafFor(leaf: Leaf, ca: Constraints, id: Identity) {
    && (forall x :: x in leaf.names <==> exists n :: n in id.names && x in LeafNames(ca, id, n))
    && (forall a :: a in leaf.addrs <==> a in id.addrs && PermitsAddr(ca, a))
    && (forall x :: x in leaf.outside <==> if x.Name? then x.n in id.names && Missing(ca, id, x.n)
                                           else x.a in id.addrs && !PermitsAddr(ca, x.a))
  }

  method OneLeafName(ca: Constraints, id: Identity, n: string) returns (names: seq<string>, missing: bool)
    ensures names == LeafNames(ca, id, n) && (missing <==> Missing(ca, id, n))
  {
    var permitted := CheckName(ca, n);
    if permitted {
      names := [n];
      if n == id.serverName && id.dot {
        var wildcard := CheckName(ca, WILDCARD + n);
        if wildcard {
          names := names + [WILDCARD + n];
        }
      }
      return names, false;
    }
    var excluded := ServerNameExcluded(id);
    return [], !(n == id.serverName && excluded);
  }

  method LeafOwnNames(ca: Constraints, id: Identity) returns (names: seq<string>, outside: seq<Outside>)
    ensures forall x :: x in names <==> exists n :: n in id.names && x in LeafNames(ca, id, n)
    ensures forall x :: x in outside <==> x.Name? && x.n in id.names && Missing(ca, id, x.n)
  {
    hide LeafNames, Missing;
    names, outside := [], [];
    for i := 0 to |id.names|
      invariant forall x :: x in names <==> exists n :: n in id.names[..i] && x in LeafNames(ca, id, n)
      invariant forall x :: x in outside <==> x.Name? && x.n in id.names[..i] && Missing(ca, id, x.n)
    {
      var n := id.names[i];
      assert id.names[..i + 1] == id.names[..i] + [n];
      var own, missing := OneLeafName(ca, id, n);
      names := names + own;
      if missing {
        outside := outside + [Name(n)];
      }
    }
    assert id.names[..|id.names|] == id.names;
  }

  method LeafSans(ca: Constraints, id: Identity) returns (leaf: Leaf)
    ensures LeafFor(leaf, ca, id)
  {
    hide LeafNames, Missing, PermitsAddr;
    var names, outside := LeafOwnNames(ca, id);
    ghost var broad := outside;
    var addrs: seq<Addr> := [];
    for i := 0 to |id.addrs|
      invariant forall a :: a in addrs <==> a in id.addrs[..i] && PermitsAddr(ca, a)
      invariant forall x :: x in outside
                            <==> x in broad || (x.Address? && x.a in id.addrs[..i] && !PermitsAddr(ca, x.a))
    {
      var a := id.addrs[i];
      assert id.addrs[..i + 1] == id.addrs[..i] + [a];
      var permitted := CheckAddr(ca, a);
      if permitted {
        addrs := addrs + [a];
      } else {
        outside := outside + [Address(a)];
      }
    }
    assert id.addrs[..|id.addrs|] == id.addrs;
    leaf := Leaf(names, addrs, outside);
  }

  /** A CA that permits a name permits every name below it. */
  lemma {:induction false} PermitsBelow(ca: Constraints, n: string, l: string)
    requires PermitsName(ca, n)
    ensures PermitsName(ca, l + "." + n)
  {
    var i :| 0 <= i < |ca.domains| && PermittedBy(ca.domains[i], n);
    var c := ca.domains[i];
    var x := l + "." + n;
    assert AtOrBelow(x, n) by {
      assert x[|x| - |n| - 1..] == "." + n;
    }
    if c != "" && c[0] == '.' {
      assert x[|x| - |n|..] == n;
      assert x[|x| - |c|..] == n[|n| - |c|..];
    } else {
      BelowTransitive(x, n, c);
    }
    assert PermittedBy(ca.domains[i], x);
  }

  /** A certificate of any CA holds only what the CA permits; the names of the
      server and the wildcard below it come together. */
  lemma {:induction false} LeafWithinCa(leaf: Leaf, ca: Constraints, id: Identity)
    requires LeafFor(leaf, ca, id)
    ensures forall x <- leaf.names :: PermitsName(ca, x)
    ensures forall a <- leaf.addrs :: PermitsAddr(ca, a)
    ensures id.dot && id.serverName in leaf.names && id.serverName in id.names ==> WILDCARD + id.serverName in leaf.names
  {
    if id.serverName in leaf.names {
      var n :| n in id.names && id.serverName in LeafNames(ca, id, n);
      PermitsBelow(ca, id.serverName, "*");
      assert "*" + "." + id.serverName == WILDCARD + id.serverName;
      assert WILDCARD + id.serverName in LeafNames(ca, id, id.serverName) || !id.dot;
    }
  }

  /** What a certificate holds and what is reported, written out: the own names that the
      CA permits, with the wildcard below the server name while DNS over TLS is on; and
      the other own names but a server name that a new CA would leave out too. */
  lemma {:induction false} LeafExactly(leaf: Leaf, ca: Constraints, id: Identity, x: string)
    requires LeafFor(leaf, ca, id)
    ensures x in leaf.names
       <==> || (x in id.names && PermitsName(ca, x))
            || (id.dot && x == "*." + id.serverName && id.serverName in id.names && PermitsName(ca, id.serverName))
    ensures Name(x) in leaf.outside
       <==> && x in id.names && !PermitsName(ca, x)
            && (x == id.serverName
                ==> x != "" && InNoDomain(x, id.domains) && forall e <- id.extra :: e != x && !HasSuffix(e, "." + x))
  {
    if PermitsName(ca, id.serverName) {
      PermitsBelow(ca, id.serverName, "*");
      assert "*" + "." + id.serverName == WILDCARD + id.serverName;
    }
    assert x in id.names && PermitsName(ca, x) ==> x in LeafNames(ca, id, x);
    assert id.dot && PermitsName(ca, id.serverName) ==> WILDCARD + id.serverName in LeafNames(ca, id, id.serverName);
    NotBroad(x, id.domains);
    NotAbove(x, id.extra);
    hide PermitsName, InNoDomain, Broad, AboveSome, HasSuffix;
  }

  lemma NotAbove(n: string, names: seq<string>)
    ensures AboveSome(n, names) <==> !forall e <- names :: e != n && !HasSuffix(e, "." + n)
  {
    hide HasSuffix;
    if i :| 0 <= i < |names| && AtOrBelow(names[i], n) {
      assert names[i] in names;
    }
    if e :| e in names && (e == n || HasSuffix(e, "." + n)) {
      var k :| 0 <= k < |names| && names[k] == e;
      assert AtOrBelow(names[k], n);
    }
  }

  /** The first certificate of a new CA covers every own address, and every own name
      that is neither broad nor the server name left out; the entries reported
      outside of the CA are exactly the broad own names, the server name apart. */
  lemma {:induction false} LeafCovers(leaf: Leaf, ca: Constraints, id: Identity)
    requires ValidIdentity(id) && MadeFor(ca, id) && LeafFor(leaf, ca, id)
    ensures forall a <- id.addrs :: a in leaf.addrs
    ensures forall n <- id.names :: Kept(id, n) ==> n in leaf.names
    ensures forall x :: x in leaf.outside
                        <==> x.Name? && x.n in id.names && Broad(x.n, id.domains) && !(x.n == id.serverName)
  {
    forall a | a in id.addrs ensures a in leaf.addrs && PermitsAddr(ca, a) {
      OnlyOwnAddrs(ca, id, a);
    }
    forall n | n in id.names && Kept(id, n) ensures n in leaf.names {
      KeptIsPermitted(ca, id, n);
      assert n in LeafNames(ca, id, n);
    }
    forall n | n in id.names ensures Missing(ca, id, n) <==> Broad(n, id.domains) && n != id.serverName {
      if Broad(n, id.domains) {
        BroadNotPermitted(ca, id, n);
      } else if Kept(id, n) {
        KeptIsPermitted(ca, id, n);
      }
    }
  }

  lemma KeptIsPermitted(ca: Constraints, id: Identity, n: string)
    requires ValidIdentity(id) && MadeFor(ca, id) && Kept(id, n)
    ensures PermitsName(ca, n)
  {
    PermitsKept(ca, id, n);
    assert AtOrBelow(n, n);
  }

  // ---- the own names ------------------------------------------------------------------------------

  /** How host names are cleaned (spaces, a final dot, case) and which are valid. */
  datatype HostNames = HostNames(clean: string -> string, valid: string -> bool)

  /** n as a name of the domain d. */
  predicate InDomain(h: HostNames, n: string, d: string, x: string) {
    '.' !in n && d != "" && x == n + "." + d && h.valid(x)
  }

  predicate InSome(h: HostNames, n: string, domains: seq<string>, x: string) {
    exists i :: 0 <= i < |domains| && InDomain(h, n, domains[i], x)
  }

  /** A name that the identity gets from a configured one: itself, and a single label
      also in each domain. */
  predicate Gives(h: HostNames, domains: seq<string>, raw: string, x: string) {
    var n := h.clean(raw);
    n != "" && h.valid(n) && (x == n || InSome(h, n, domains, x))
  }

  /** The same in one sentence: a configured name that is valid once it is cleaned, and
      when it is a single label also its valid names in the domains. */
  lemma GivesMeans(h: HostNames, domains: seq<string>, raw: string, x: string)
    ensures var n := h.clean(raw);
            (Gives(h, domains, raw, x)
             <==> n != "" && h.valid(n) && h.valid(x) && (x == n || ('.' !in n && exists d <- domains :: d != "" && x == n + "." + d)))
  {
    var n := h.clean(raw);
    if d :| d in domains && d != "" && x == n + "." + d && '.' !in n && h.valid(x) {
      var i :| 0 <= i < |domains| && domains[i] == d;
      assert InDomain(h, n, domains[i], x);
    }
  }

  ghost predicate NoDuplicates(xs: seq<string>) {
    forall i, j :: 0 <= i < j < |xs| ==> xs[i] != xs[j]
  }

  /** A single label comes with its names in the domains. */
  ghost predicate Complete(h: HostNames, domains: seq<string>, xs: seq<string>) {
    forall n, x :: n in xs && InSome(h, n, domains, x) ==> x in xs
  }

  method AddInDomains(h: HostNames, domains: seq<string>, out: seq<string>, n: string) returns (r: seq<string>)
    requires NoDuplicates(out)
    ensures NoDuplicates(r) && forall x :: x in r <==> x in out || InSome(h, n, domains, x)
  {
    r := out;
    if '.' in n {
      return;
    }
    for i := 0 to |domains|
      invariant NoDuplicates(r)
      invariant forall x :: x in r <==> x in out || exists j :: 0 <= j < i && InDomain(h, n, domains[j], x)
    {
      var d := domains[i];
      var fqdn := n + "." + d;
      if d != "" && h.valid(fqdn) && fqdn !in r {
        r := r + [fqdn];
      }
      assert forall x :: InDomain(h, n, d, x) <==> d != "" && x == fqdn && h.valid(x);
    }
  }

  lemma InDomainHasDot(h: HostNames, n: string, domains: seq<string>, x: string)
    requires InSome(h, n, domains, x)
    ensures '.' in x && forall y :: !InSome(h, x, domains, y)
  {
    assert x[|n|] == '.';
  }

  method AddName(h: HostNames, domains: seq<string>, out: seq<string>, raw: string) returns (r: seq<string>)
    requires NoDuplicates(out) && Complete(h, domains, out)
    ensures NoDuplicates(r) && Complete(h, domains, r)
    ensures forall x :: x in r <==> x in out || Gives(h, domains, raw, x)
  {
    hide InSome;
    var n := h.clean(raw);
    if n == "" || !h.valid(n) || n in out {
      return out;
    }
    r := AddInDomains(h, domains, out + [n], n);
    forall x | InSome(h, n, domains, x) ensures forall y :: !InSome(h, x, domains, y) {
      InDomainHasDot(h, n, domains, x);
    }
  }

  /** The own names: each one that a configured name gives, once. */
  method OwnNames(h: HostNames, domains: seq<string>, hostname: string, serverNames: seq<string>, encrypted: string)
    returns (out: seq<string>)
    ensures NoDuplicates(out)
    ensures var raws := ["localhost", "picache", hostname] + serverNames + [encrypted];
            forall x :: x in out <==> exists i :: 0 <= i < |raws| && Gives(h, domains, raws[i], x)
  {
    hide Gives;
    var raws := ["localhost", "picache", hostname] + serverNames + [encrypted];
    out := [];
    for k := 0 to |raws|
      invariant NoDuplicates(out) && Complete(h, domains, out)
      invariant forall x :: x in out <==> exists i :: 0 <= i < k && Gives(h, domains, raws[i], x)
    {
      out := AddName(h, domains, out, raws[k]);
    }
  }

  /** The two names that every identity has, in every domain. */
  predicate HasBuiltIn(id: Identity) {
    && "localhost" in id.names && "picache" in id.names
    && forall i :: 0 <= i < |id.domains| && id.domains[i] != "" ==>
         "localhost" + "." + id.domains[i] in id.names && "picache" + "." + id.domains[i] in id.names
  }

  /** It has them when host names are cleaned and checked as usual: names in a domain
      so long that they are not host names are what it may lack. */
  lemma {:induction false} NamesHaveBuiltIn(h: HostNames, raws: seq<string>, id: Identity)
    requires |raws| > 1 && raws[0] == "localhost" && raws[1] == "picache"
    requires h.clean(raws[0]) == raws[0] && h.valid(raws[0]) && h.clean(raws[1]) == raws[1] && h.valid(raws[1])
    requires forall x :: x in id.names <==> exists i :: 0 <= i < |raws| && Gives(h, id.domains, raws[i], x)
    requires forall i :: 0 <= i < |id.domains| && id.domains[i] != "" ==>
               h.valid(raws[0] + "." + id.domains[i]) && h.valid(raws[1] + "." + id.domains[i])
    ensures HasBuiltIn(id)
  {
    assert Gives(h, id.domains, raws[0], raws[0]) && Gives(h, id.domains, raws[1], raws[1]);
    forall i, k | 0 <= i < |id.domains| && id.domains[i] != "" && 0 <= k < 2
      ensures raws[k] + "." + id.domains[i] in id.names
    {
      assert InDomain(h, raws[k], id.domains[i], raws[k] + "." + id.domains[i]);
      assert Gives(h, id.domains, raws[k], raws[k] + "." + id.domains[i]);
    }
  }

  /** The longest of the domains. */
  lemma {:induction false} LongestDomain(domains: seq<string>) returns (d: string)
    ensures d == "" || d in domains
    ensures forall i :: 0 <= i < |domains| ==> |domains[i]| <= |d|
  {
    if domains == [] {
      d := "";
    } else {
      d := LongestDomain(domains[..|domains| - 1]);
      if |domains[|domains| - 1]| > |d| {
        d := domains[|domains| - 1];
      }
    }
  }

  lemma LongerIsNotBroad(n: string, domains: seq<string>)
    requires forall i :: 0 <= i < |domains| ==> domains[i] == "" || |domains[i]| < |n|
    ensures !Broad(n, domains)
  {
  }

  /** A new CA always has a name constraint. With none, section 4.2.1.10 of RFC 5280
      would leave all names allowed. */
  lemma {:induction false} NeverUnconstrained(ca: Constraints, id: Identity)
    requires MadeFor(ca, id) && HasBuiltIn(id)
    ensures ca.domains != []
  {
    var d := LongestDomain(id.domains);
    var a := if d == "" then "localhost" else "localhost" + "." + d;
    var b := if d == "" then "picache" else "picache" + "." + d;
    assert a[0] != b[0];
    LongerIsNotBroad(a, id.domains);
    LongerIsNotBroad(b, id.domains);
    assert Kept(id, a) || Kept(id, b);
  }
}