/**
 The check of a saved set of listeners: what it accepts, said in terms of the
 addresses that the listeners answer on.
 */
module ListenerRules {
  import opened Wrappers

  datatype Role = Dns | Cache | Sni | Web | WebTls | Dot | Doh | Ntp

  const ROLES: seq<Role> := [Dns, Cache, Sni, Web, WebTls, Dot, Doh, Ntp]
  const TCP_ROLES: seq<Role> := [Dns, Cache, Sni, Web, WebTls, Dot, Doh]
  const UDP_ROLES: seq<Role> := [Dns, Ntp]
  const MAX_LISTENER_ADDRS := 8

  datatype Ip = V4(bits: nat) | V6(bits: nat) {
    predicate Unspecified() {
      bits == 0
    }

    predicate Loopback() {
      if V4? then bits / 0x100_0000 == 127 else bits == 1
    }
  }

  /** A listener address: ":port", "ip:port", or a value of the environment that
      names a host or does not parse. */
  datatype Listener = Every(port: nat) | On(ip: Ip, port: nat) | Named(host: string, port: nat) | Bad(text: string)

  /** None for a listener on every address. */
  function ListenerIp(l: Listener): Option<Ip> {
    if l.On? then Some(l.ip) else None
  }

  /** The addresses a listener answers on: ":p" and "[::]:p" those of both
      families, "0.0.0.0:p" those of IPv4. */
  predicate Answers(l: Listener, a: Ip) {
    match l
    case Every(_) => true
    case On(ip, _) => ip == a || (ip.Unspecified() && (ip.V6? || a.V4?))
    case Named(_, _) => true
    case Bad(_) => false
  }

  predicate Literal(l: Listener) {
    l.Every? || l.On?
  }

  // ---- overlapping listeners -----------------------------------------------------------

  predicate Covers(w: Option<Ip>, o: Option<Ip>) {
    match w
    case None => true
    case Some(ip) => ip.Unspecified() && (ip.V6? || o.None? || o.value.V4?)
  }

  predicate Overlap(x: Listener, y: Listener) {
    && !x.Bad? && !y.Bad? && x.port == y.port
    && (ListenerIp(x) == ListenerIp(y) || Covers(ListenerIp(x), ListenerIp(y)) || Covers(ListenerIp(y), ListenerIp(x)))
  }

  ghost predicate ShareAddress(x: Listener, y: Listener) {
    exists a :: Answers(x, a) && Answers(y, a)
  }

  /** Two listeners overlap exactly when they are on one port and some address is
      answered by both. */
  lemma {:induction false} OverlapMeans(x: Listener, y: Listener)
    requires Literal(x) && Literal(y)
    ensures Overlap(x, y) <==> x.port == y.port && ShareAddress(x, y)
  {
    if Overlap(x, y) {
      var ix, iy := ListenerIp(x), ListenerIp(y);
      var a := if Covers(ix, iy) && y.On? then y.ip else if Covers(ix, iy) || x.Every? then V4(1) else x.ip;
      assert Answers(x, a) && Answers(y, a);
    }
  }

  lemma OverlapSymmetric(x: Listener, y: Listener)
    ensures Overlap(x, y) <==> Overlap(y, x)
  {
  }

  // ---- port clashes of a set -------------------------------------------------------------

  type Set = map<Role, seq<Listener>>

  function Get(s: Set, r: Role): seq<Listener> {
    if r in s then s[r] else []
  }

  ghost predicate Apart(xs: seq<Listener>, ys: seq<Listener>) {
    forall i, j :: 0 <= i < |xs| && 0 <= j < |ys| ==> !Overlap(xs[i], ys[j])
  }

  /** No two of these roles share a port and an address. */
  ghost predicate NoClash(s: Set, roles: seq<Role>) {
    forall i, j :: 0 <= i < j < |roles| ==> Apart(Get(s, roles[j]), Get(s, roles[i]))
  }

  method FindOverlap(xs: seq<Listener>, ys: seq<Listener>) returns (found: bool)
    ensures found <==> !Apart(xs, ys)
  {
    for i := 0 to |xs|
      invariant forall k, j :: 0 <= k < i && 0 <= j < |ys| ==> !Overlap(xs[k], ys[j])
    {
      for j := 0 to |ys|
        invariant forall k :: 0 <= k < j ==> !Overlap(xs[i], ys[k])
      {
        if Overlap(xs[i], ys[j]) {
          return true;
        }
      }
    }
    return false;
  }

  method CheckProtocol(effective: Set, roles: seq<Role>) returns (ok: bool)
    ensures ok <==> NoClash(effective, roles)
  {
    for i := 0 to |roles|
      invariant forall j, k :: 0 <= j < k < i ==> Apart(Get(effective, roles[k]), Get(effective, roles[j]))
    {
      for j := 0 to i
        invariant forall k :: 0 <= k < j ==> Apart(Get(effective, roles[i]), Get(effective, roles[k]))
      {
        var clash := FindOverlap(Get(effective, roles[i]), Get(effective, roles[j]));
        if clash {
          return false;
        }
      }
    }
    return true;
  }

  method CheckPortClashes(effective: Set) returns (ok: bool)
    ensures ok <==> NoClash(effective, TCP_ROLES) && NoClash(effective, UDP_ROLES)
  {
    ok := CheckProtocol(effective, TCP_ROLES);
    if ok {
      ok := CheckProtocol(effective, UDP_ROLES);
    }
  }

  // ---- the rules of the file ------------------------------------------------------------------

  predicate CanDisable(r: Role, s: Set) {
    match r
    case Dns => false
    case Cache => false
    case Web => Get(s, WebTls) != []
    case _ => true
  }

  predicate Once(ls: seq<Listener>) {
    forall i, j :: 0 <= i < j < |ls| ==> ls[i] != ls[j]
  }

  /** What a listeners file may hold: at most 8 literal addresses a role, each
      once, and [] only where a role may be off. */
  predicate ValidFile(s: Set) {
    forall r :: r in s ==>
      && |s[r]| <= MAX_LISTENER_ADDRS && Once(s[r])
      && (forall i :: 0 <= i < |s[r]| ==> Literal(s[r][i]))
      && (s[r] == [] ==> CanDisable(r, s))
  }

  // ---- checkListeners ------------------------------------------------------------------------------

  /** The addresses of a role as sent, parsed: None is an address that does not. */
  type Request = map<Role, seq<Option<Listener>>>

  /** What the host is: the values without the saved set, the roles set by a flag
      or the environment, and its addresses. */
  datatype Host = Host(values: Set, locked: set<Role>, own: set<Ip>)

  function Effective(s: Set, values: Set, r: Role): seq<Listener> {
    if r in s then s[r] else Get(values, r)
  }

  function WebListeners(s: Set, values: Set): seq<Listener> {
    Effective(s, values, Web) + Effective(s, values, WebTls)
  }

  predicate ServesLocally(l: Listener) {
    var ip := ListenerIp(l);
    ip.None? || ip.value.Unspecified() || ip.value.Loopback()
  }

  predicate Serves(l: Listener, local: Ip) {
    var ip := ListenerIp(l);
    ip.None? || ip.value == local || (ip.value.Unspecified() && ip.value.V4? == local.V4?) || (ip.value.Unspecified() && ip.value.V6?)
  }

  ghost predicate Parses(req: Request, s: Set) {
    && s.Keys == req.Keys
    && forall r :: r in req ==> |s[r]| == |req[r]| && forall i :: 0 <= i < |s[r]| ==> req[r][i] == Some(s[r][i])
  }

  ghost predicate OnThisHost(s: Set, own: set<Ip>) {
    forall r, i :: r in s && 0 <= i < |s[r]| && s[r][i].On? ==> s[r][i].ip.Unspecified() || s[r][i].ip in own
  }

  function EffectiveSet(s: Set, values: Set): Set {
    map r | r in {Dns, Cache, Sni, Web, WebTls, Dot, Doh, Ntp} :: Effective(s, values, r)
  }

  ghost predicate ServesOneLocally(web: seq<Listener>) {
    exists i :: 0 <= i < |web| && ServesLocally(web[i])
  }

  ghost predicate ServesOne(web: seq<Listener>, local: Ip) {
    exists i :: 0 <= i < |web| && Serves(web[i], local)
  }

  /** The sets that are accepted. */
  ghost predicate Acceptable(s: Set, host: Host, local: Option<Ip>) {
    && ValidFile(s)
    && s.Keys * host.locked == {}
    && OnThisHost(s, host.own)
    && NoClash(EffectiveSet(s, host.values), TCP_ROLES) && NoClash(EffectiveSet(s, host.values), UDP_ROLES)
    && Effective(s, host.values, Dns) != [] && Effective(s, host.values, Cache) != []
    && ServesOneLocally(WebListeners(s, host.values))
    && (local.Some? ==> ServesOne(WebListeners(s, host.values), local.value))
  }

  /** Parses the addresses of a role; each may be listed once. */
  method Canonical(addrs: seq<Option<Listener>>) returns (r: Option<seq<Listener>>)
    ensures r.Some? ==> |r.value| == |addrs| && Once(r.value) && forall i :: 0 <= i < |addrs| ==> addrs[i] == Some(r.value[i])
    ensures r.None? ==> Broken(addrs)
  {
    var out: seq<Listener> := [];
    for i := 0 to |addrs|
      invariant |out| == i && Once(out)
      invariant forall k :: 0 <= k < i ==> addrs[k] == Some(out[k])
    {
      if addrs[i].None? {
        return None;
      }
      if addrs[i].value in out {
        var k :| 0 <= k < |out| && out[k] == addrs[i].value;
        assert addrs[k] == addrs[i];
        return None;
      }
      out := out + [addrs[i].value];
    }
    return Some(out);
  }

  /** The parsed addresses of a role: each as sent, once, at most 8. */
  ghost predicate ParsedRole(addrs: seq<Option<Listener>>, ls: seq<Listener>) {
    && |ls| == |addrs| <= MAX_LISTENER_ADDRS && Once(ls)
    && forall i :: 0 <= i < |ls| ==> addrs[i] == Some(ls[i])
  }

  /** The canonical addresses of every role, at most 8 each. */
  method ParseRoles(req: Request) returns (s: Option<Set>)
    ensures s.Some? ==> Parses(req, s.value) && forall r :: r in s.value ==> Once(s.value[r]) && |s.value[r]| <= MAX_LISTENER_ADDRS
    ensures s.None? ==> forall t :: Parses(req, t) ==> !ValidFile(t)
  {
    hide ValidFile, ParsedRole, Parses, Broken, Once;
    var out: Set := map[];
    var todo := req.Keys;
    while todo != {}
      invariant out.Keys == req.Keys - todo && todo <= req.Keys
      invariant forall r :: r in out ==> ParsedRole(req[r], out[r])
      decreases |todo|
    {
      var r :| r in todo;
      var addrs := Canonical(req[r]);
      if |req[r]| > MAX_LISTENER_ADDRS || addrs.None? {
        TooMany(req[r]);
        BadRoleRefuses(req, r);
        return None;
      }
      IsParsed(req[r], addrs.value);
      out := out[r := addrs.value];
      todo := todo - {r};
    }
    AllParsed(req, out);
    return Some(out);
  }

  lemma TooMany(addrs: seq<Option<Listener>>)
    ensures |addrs| > MAX_LISTENER_ADDRS ==> Broken(addrs)
  {
  }

  lemma IsParsed(addrs: seq<Option<Listener>>, ls: seq<Listener>)
    requires |ls| == |addrs| <= MAX_LISTENER_ADDRS && Once(ls) && forall i :: 0 <= i < |addrs| ==> addrs[i] == Some(ls[i])
    ensures ParsedRole(addrs, ls)
  {
  }

  lemma AllParsed(req: Request, s: Set)
    requires s.Keys == req.Keys && forall r :: r in s ==> ParsedRole(req[r], s[r])
    ensures Parses(req, s) && forall r :: r in s ==> Once(s[r]) && |s[r]| <= MAX_LISTENER_ADDRS
  {
    hide Once;
  }

  /** [] only where a role may be off. */
  method OffWhereAllowed(s: Set) returns (ok: bool)
    ensures ok <==> forall r :: r in s && s[r] == [] ==> CanDisable(r, s)
  {
    for i := 0 to |ROLES|
      invariant forall k :: 0 <= k < i && ROLES[k] in s && s[ROLES[k]] == [] ==> CanDisable(ROLES[k], s)
    {
      if ROLES[i] in s && s[ROLES[i]] == [] && !CanDisable(ROLES[i], s) {
        return false;
      }
    }
    forall r | r in s && s[r] == [] ensures CanDisable(r, s) { RoleListed(r); }
    return true;
  }

  /** The canonical set of a request, if it keeps the rules of a file. */
  method ParseRequest(req: Request) returns (s: Option<Set>)
    requires forall r, i :: r in req && 0 <= i < |req[r]| && req[r][i].Some? ==> Literal(req[r][i].value)
    ensures s.Some? ==> Parses(req, s.value) && ValidFile(s.value)
    ensures s.None? ==> forall t :: Parses(req, t) ==> !ValidFile(t)
  {
    s := ParseRoles(req);
    if s.Some? {
      var ok := OffWhereAllowed(s.value);
      if ok {
        ParsedLiteral(req, s.value);
      } else {
        forall t | Parses(req, t) ensures !ValidFile(t) {
          ParsesUnique(req, t, s.value);
        }
        s := None;
      }
    }
  }

  lemma ParsedLiteral(req: Request, s: Set)
    requires Parses(req, s)
    requires forall r, i :: r in req && 0 <= i < |req[r]| && req[r][i].Some? ==> Literal(req[r][i].value)
    ensures forall r, i :: r in s && 0 <= i < |s[r]| ==> Literal(s[r][i])
  {
    forall r, i | r in s && 0 <= i < |s[r]| ensures Literal(s[r][i]) {
      assert req[r][i] == Some(s[r][i]);
    }
  }

  lemma RoleListed(r: Role)
    ensures exists i :: 0 <= i < |ROLES| && ROLES[i] == r
  {
    var i := match r
      case Dns => 0 case Cache => 1 case Sni => 2 case Web => 3 case WebTls => 4 case Dot => 5 case Doh => 6 case Ntp => 7;
    assert ROLES[i] == r;
  }

  ghost predicate Broken(addrs: seq<Option<Listener>>) {
    || |addrs| > MAX_LISTENER_ADDRS
    || (exists i :: 0 <= i < |addrs| && addrs[i].None?)
    || (exists i, j :: 0 <= i < j < |addrs| && addrs[i].Some? && addrs[i] == addrs[j])
  }

  lemma BadRoleRefuses(req: Request, r: Role)
    requires r in req && Broken(req[r])
    ensures forall t :: Parses(req, t) ==> !ValidFile(t)
  {
    forall t | Parses(req, t) ensures !ValidFile(t) {
      BadRole(req, t, r);
    }
  }

  lemma BadRole(req: Request, t: Set, r: Role)
    requires Parses(req, t) && r in req && Broken(req[r])
    ensures !ValidFile(t)
  {
    if i, j :| 0 <= i < j < |req[r]| && req[r][i].Some? && req[r][i] == req[r][j] {
      assert t[r][i] == t[r][j];
    }
  }

  lemma ParsesUnique(req: Request, s: Set, t: Set)
    requires Parses(req, s) && Parses(req, t)
    ensures s == t
  {
    forall r | r in s ensures s[r] == t[r] {
      forall i | 0 <= i < |s[r]| ensures s[r][i] == t[r][i] {
        assert req[r][i] == Some(s[r][i]) && req[r][i] == Some(t[r][i]);
      }
    }
  }

  method AllOnThisHost(s: Set, own: set<Ip>) returns (ok: bool)
    ensures ok <==> OnThisHost(s, own)
  {
    for k := 0 to |ROLES|
      invariant forall j, i :: 0 <= j < k && ROLES[j] in s && 0 <= i < |s[ROLES[j]]| && s[ROLES[j]][i].On? ==>
                  s[ROLES[j]][i].ip.Unspecified() || s[ROLES[j]][i].ip in own
    {
      var addrs := Get(s, ROLES[k]);
      for i := 0 to |addrs|
        invariant forall j :: 0 <= j < i && addrs[j].On? ==> addrs[j].ip.Unspecified() || addrs[j].ip in own
      {
        var ip := ListenerIp(addrs[i]);
        if ip.Some? && !ip.value.Unspecified() && ip.value !in own {
          assert s[ROLES[k]][i].On?;
          return false;
        }
      }
    }
    forall r, i | r in s && 0 <= i < |s[r]| && s[r][i].On? ensures s[r][i].ip.Unspecified() || s[r][i].ip in own {
      RoleListed(r);
    }
    return true;
  }

  method AnyServesLocally(web: seq<Listener>) returns (ok: bool)
    ensures ok <==> ServesOneLocally(web)
  {
    for i := 0 to |web|
      invariant forall k :: 0 <= k < i ==> !ServesLocally(web[k])
    {
      if ServesLocally(web[i]) {
        return true;
      }
    }
    return false;
  }

  method AnyServes(web: seq<Listener>, local: Ip) returns (ok: bool)
    ensures ok <==> ServesOne(web, local)
  {
    for i := 0 to |web|
      invariant forall k :: 0 <= k < i ==> !Serves(web[k], local)
    {
      if Serves(web[i], local) {
        return true;
      }
    }
    return false;
  }

  /** Accepts a request exactly when its canonical set is acceptable. */
  method CheckListeners(req: Request, host: Host, local: Option<Ip>) returns (s: Option<Set>)
    requires forall r, i :: r in req && 0 <= i < |req[r]| && req[r][i].Some? ==> Literal(req[r][i].value)
    ensures s.Some? ==> Parses(req, s.value) && Acceptable(s.value, host, local)
    ensures s.None? ==> forall t :: Parses(req, t) ==> !Acceptable(t, host, local)
  {
    s := ParseRequest(req);
    if s.None? {
      return;
    }
    var set' := s.value;
    forall t | Parses(req, t) ensures t == set' { ParsesUnique(req, t, set'); }
    var ok := set'.Keys * host.locked == {};
    if ok {
      ok := AllOnThisHost(set', host.own);
    }
    if ok {
      ok := CheckPortClashes(EffectiveSet(set', host.values));
    }
    if ok {
      ok := Effective(set', host.values, Dns) != [] && Effective(set', host.values, Cache) != [];
    }
    var web := WebListeners(set', host.values);
    if ok {
      ok := web != [];
    }
    if ok {
      ok := AnyServesLocally(web);
    }
    if ok && local.Some? {
      ok := AnyServes(web, local.value);
    }
    if !ok {
      return None;
    }
  }

  // ---- what acceptance means -----------------------------------------------------------------------------

  /** The listeners of a role once the set is saved: the saved ones, else the host's. */
  ghost predicate Runs(s: Set, values: Set, r: Role, l: Listener) {
    if r in s then l in s[r] else r in values && l in values[r]
  }

  ghost predicate RunsWeb(s: Set, values: Set, l: Listener) {
    Runs(s, values, Web, l) || Runs(s, values, WebTls, l)
  }

  /** The rules of a file, written out. */
  ghost predicate KeepsRules(s: Set) {
    forall r <- s ::
      && |s[r]| <= 8
      && (forall i, j :: 0 <= i < j < |s[r]| ==> s[r][i] != s[r][j])
      && (forall l <- s[r] :: l.Every? || l.On?)
      && (s[r] == [] ==> r != Dns && r != Cache && (r == Web ==> WebTls in s && s[WebTls] != []))
  }

  lemma KeepsRulesMeans(s: Set)
    ensures ValidFile(s) <==> KeepsRules(s)
  {
    forall r | r in s ensures (forall i :: 0 <= i < |s[r]| ==> Literal(s[r][i])) <==> forall l <- s[r] :: l.Every? || l.On? {
      if forall l <- s[r] :: l.Every? || l.On? {
        forall i | 0 <= i < |s[r]| ensures Literal(s[r][i]) {
          assert s[r][i] in s[r];
        }
      }
    }
  }

  /** Two roles have no listeners with a common port and address. */
  ghost predicate Separate(s: Set, values: Set, q: Role, r: Role) {
    forall x, y :: Runs(s, values, q, x) && Runs(s, values, r, y) ==> !Overlap(x, y)
  }

  lemma EffectiveRuns(s: Set, values: Set, r: Role)
    ensures forall l :: l in Get(EffectiveSet(s, values), r) <==> Runs(s, values, r, l)
    ensures Get(EffectiveSet(s, values), r) == Effective(s, values, r)
  {
  }

  lemma ApartMeans(s: Set, values: Set, q: Role, r: Role)
    ensures Apart(Get(EffectiveSet(s, values), r), Get(EffectiveSet(s, values), q)) <==> Separate(s, values, q, r)
  {
    var xs, ys := Get(EffectiveSet(s, values), r), Get(EffectiveSet(s, values), q);
    EffectiveRuns(s, values, q);
    EffectiveRuns(s, values, r);
    hide EffectiveSet, Runs, Get, Overlap;
    if Separate(s, values, q, r) {
      forall i, j | 0 <= i < |xs| && 0 <= j < |ys| ensures !Overlap(xs[i], ys[j]) {
        assert xs[i] in xs && ys[j] in ys;
        OverlapSymmetric(xs[i], ys[j]);
      }
    }
    if Apart(xs, ys) {
      forall x, y | Runs(s, values, q, x) && Runs(s, values, r, y) ensures !Overlap(x, y) {
        var i :| 0 <= i < |xs| && xs[i] == y;
        var j :| 0 <= j < |ys| && ys[j] == x;
        OverlapSymmetric(xs[i], ys[j]);
      }
    }
  }

  lemma TcpMeans(s: Set, values: Set)
    ensures NoClash(EffectiveSet(s, values), TCP_ROLES)
       <==> forall q, r :: q != r && q != Ntp && r != Ntp ==> Separate(s, values, q, r)
  {
    var e := EffectiveSet(s, values);
    hide EffectiveSet, Separate, Apart, Get;
    if NoClash(e, TCP_ROLES) {
      forall q, r | q != r && q != Ntp && r != Ntp ensures Separate(s, values, q, r) {
        var i := TcpIndex(q);
        var j := TcpIndex(r);
        ApartMeans(s, values, q, r);
        ApartMeans(s, values, r, q);
        SeparateSymmetric(s, values, q, r);
        assert i < j ==> Apart(Get(e, TCP_ROLES[j]), Get(e, TCP_ROLES[i]));
        assert j < i ==> Apart(Get(e, TCP_ROLES[i]), Get(e, TCP_ROLES[j]));
      }
    }
    if forall q, r :: q != r && q != Ntp && r != Ntp ==> Separate(s, values, q, r) {
      forall i, j | 0 <= i < j < |TCP_ROLES| ensures Apart(Get(e, TCP_ROLES[j]), Get(e, TCP_ROLES[i])) {
        ApartMeans(s, values, TCP_ROLES[i], TCP_ROLES[j]);
        assert Separate(s, values, TCP_ROLES[i], TCP_ROLES[j]);
      }
    }
  }

  lemma SeparateSymmetric(s: Set, values: Set, q: Role, r: Role)
    ensures Separate(s, values, q, r) <==> Separate(s, values, r, q)
  {
    hide Runs, Overlap;
    forall x, y ensures Overlap(x, y) <==> Overlap(y, x) {
      OverlapSymmetric(x, y);
    }
  }

  lemma TcpIndex(r: Role) returns (i: nat)
    requires r != Ntp
    ensures i < |TCP_ROLES| && TCP_ROLES[i] == r
  {
    i := match r
      case Dns => 0 case Cache => 1 case Sni => 2 case Web => 3 case WebTls => 4 case Dot => 5 case Doh => 6;
  }

  lemma UdpMeans(s: Set, values: Set)
    ensures NoClash(EffectiveSet(s, values), UDP_ROLES) <==> Separate(s, values, Dns, Ntp)
  {
    var e := EffectiveSet(s, values);
    ApartMeans(s, values, Dns, Ntp);
    hide EffectiveSet, Separate, Apart, Get;
    assert UDP_ROLES[0] == Dns && UDP_ROLES[1] == Ntp;
    assert NoClash(e, UDP_ROLES) ==> Apart(Get(e, UDP_ROLES[1]), Get(e, UDP_ROLES[0]));
  }

  /** A listener that the tools of this machine reach: any that names no address, one on
      all addresses or one on loopback, 127.0.0.0/8 or ::1. */
  predicate ForTools(l: Listener) {
    !l.On? || l.ip.bits == 0 || (if l.ip.V4? then l.ip.bits / 0x100_0000 == 127 else l.ip.bits == 1)
  }

  /** One that the requester's own connection reaches. */
  predicate ForRequester(l: Listener, local: Ip) {
    !l.On? || l.ip == local || (l.ip.bits == 0 && (l.ip.V6? || local.V4?))
  }

  lemma ToolsMean(s: Set, values: Set)
    ensures ServesOneLocally(WebListeners(s, values))
       <==> exists l :: RunsWeb(s, values, l) && ForTools(l)
  {
    var web := WebListeners(s, values);
    WebRuns(s, values);
    hide WebListeners, RunsWeb;
    if i :| 0 <= i < |web| && ServesLocally(web[i]) {
      assert web[i] in web && ForTools(web[i]);
    }
    if l :| l in web && ForTools(l) {
      var i :| 0 <= i < |web| && web[i] == l;
      assert ServesLocally(web[i]);
    }
  }

  lemma RequesterMeans(s: Set, values: Set, local: Ip)
    ensures ServesOne(WebListeners(s, values), local)
       <==> exists l :: RunsWeb(s, values, l) && ForRequester(l, local)
  {
    var web := WebListeners(s, values);
    WebRuns(s, values);
    hide WebListeners, RunsWeb;
    if i :| 0 <= i < |web| && Serves(web[i], local) {
      assert web[i] in web && ForRequester(web[i], local);
    }
    if l :| l in web && ForRequester(l, local) {
      var i :| 0 <= i < |web| && web[i] == l;
      assert Serves(web[i], local);
    }
  }

  lemma WebRuns(s: Set, values: Set)
    ensures forall l :: l in WebListeners(s, values) <==> RunsWeb(s, values, l)
  {
  }

  /** What is accepted, in terms of the set, the values of the host and its addresses
      alone. */
  lemma {:induction false} AcceptedExactly(s: Set, host: Host, local: Option<Ip>)
    ensures Acceptable(s, host, local)
       <==> && KeepsRules(s)
            && (forall r <- s :: r !in host.locked)
            && (forall r <- s, l <- s[r] :: l.On? ==> l.ip.bits == 0 || l.ip in host.own)
            && (forall q, r :: q != r && q != Ntp && r != Ntp ==> Separate(s, host.values, q, r))
            && Separate(s, host.values, Dns, Ntp)
            && (exists l :: Runs(s, host.values, Dns, l)) && (exists l :: Runs(s, host.values, Cache, l))
            && (exists l :: RunsWeb(s, host.values, l) && ForTools(l))
            && (local.Some? ==> exists l :: RunsWeb(s, host.values, l) && ForRequester(l, local.value))
  {
    KeepsRulesMeans(s);
    TcpMeans(s, host.values);
    UdpMeans(s, host.values);
    ToolsMean(s, host.values);
    if local.Some? {
      RequesterMeans(s, host.values, local.value);
    }
    SomeRuns(s, host.values, Dns);
    SomeRuns(s, host.values, Cache);
    NoneLocked(s, host.locked);
    HostAddresses(s, host.own);
    hide ValidFile, KeepsRules, NoClash, EffectiveSet, Separate, ServesOneLocally, ServesOne, WebListeners, Runs, RunsWeb, OnThisHost, Effective;
  }

  lemma SomeRuns(s: Set, values: Set, r: Role)
    ensures Effective(s, values, r) != [] <==> exists l :: Runs(s, values, r, l)
  {
    var e := Effective(s, values, r);
    EffectiveRuns(s, values, r);
    hide Runs, Effective, EffectiveSet;
    if e != [] {
      assert e[0] in e;
    }
  }

  lemma NoneLocked(s: Set, locked: set<Role>)
    ensures s.Keys * locked == {} <==> forall r <- s :: r !in locked
  {
    if s.Keys * locked == {} {
      forall r | r in s ensures r !in locked {
        assert r !in s.Keys * locked;
      }
    }
  }

  lemma HostAddresses(s: Set, own: set<Ip>)
    ensures OnThisHost(s, own) <==> forall r <- s, l <- s[r] :: l.On? ==> l.ip.bits == 0 || l.ip in own
  {
    if forall r <- s, l <- s[r] :: l.On? ==> l.ip.bits == 0 || l.ip in own {
      forall r, i | r in s && 0 <= i < |s[r]| && s[r][i].On? ensures s[r][i].ip.Unspecified() || s[r][i].ip in own {
        assert s[r][i] in s[r];
      }
    }
  }

  /** The test for the tools of this machine: some loopback address is answered. */
  lemma {:induction false} ServesLocallyMeans(l: Listener)
    requires Literal(l)
    ensures ServesLocally(l) <==> exists a: Ip :: a.Loopback() && Answers(l, a)
  {
    var v4, v6 := V4(0x7F00_0001), V6(1);
    assert v4.Loopback() && v6.Loopback();
    if ServesLocally(l) {
      assert Answers(l, if l.On? && !l.ip.Unspecified() then l.ip else v4);
    }
  }

  /** The test for the requester's connection: its local address is answered. */
  lemma {:induction false} ServesMeans(l: Listener, local: Ip)
    requires Literal(l)
    ensures Serves(l, local) <==> Answers(l, local)
  {
  }

  /** Two roles of one protocol never answer on the same address and port. */
  lemma {:induction false} NoSharedSocket(s: Set, host: Host, local: Option<Ip>, q: Role, r: Role, x: Listener, y: Listener, a: Ip)
    requires Acceptable(s, host, local) && q != r && q != Ntp && r != Ntp
    requires Runs(s, host.values, q, x) && Runs(s, host.values, r, y) && Literal(x) && Literal(y) && x.port == y.port
    ensures !(Answers(x, a) && Answers(y, a))
  {
    AcceptedExactly(s, host, local);
    OverlapMeans(x, y);
    hide Acceptable, Runs, KeepsRules, Overlap, Answers;
    assert Separate(s, host.values, q, r);
  }

  lemma {:induction false} NoSharedSocketUdp(s: Set, host: Host, local: Option<Ip>, x: Listener, y: Listener, a: Ip)
    requires Acceptable(s, host, local)
    requires Runs(s, host.values, Dns, x) && Runs(s, host.values, Ntp, y) && Literal(x) && Literal(y) && x.port == y.port
    ensures !(Answers(x, a) && Answers(y, a))
  {
    AcceptedExactly(s, host, local);
    OverlapMeans(x, y);
    hide Acceptable, Runs, KeepsRules, Overlap, Answers;
    assert Separate(s, host.values, Dns, Ntp);
  }

  /** Accepting a set implies that the web UI stays reachable for the tools of
      this machine and through the address the requester uses, by a listener that
      answers there, or by one of the host's values whose address the test does not
      read. */
  lemma {:induction false} WebStaysReachable(s: Set, host: Host, local: Option<Ip>)
    requires Acceptable(s, host, local)
    ensures exists l :: RunsWeb(s, host.values, l) && (Literal(l) ==> AnswersLoopback(l))
    ensures local.Some? ==> exists l :: RunsWeb(s, host.values, l) && (Literal(l) ==> Answers(l, local.value))
    ensures forall l :: RunsWeb(s, host.values, l) && !Literal(l)
                        ==> (Web in host.values && l in host.values[Web]) || (WebTls in host.values && l in host.values[WebTls])
  {
    AcceptedExactly(s, host, local);
    assert KeepsRules(s);
    assert exists l :: RunsWeb(s, host.values, l) && ForTools(l);
    var l :| RunsWeb(s, host.values, l) && ForTools(l);
    if Literal(l) {
      assert ServesLocally(l);
      ServesLocallyMeans(l);
    }
    if local.Some? {
      assert exists m :: RunsWeb(s, host.values, m) && ForRequester(m, local.value);
      var m :| RunsWeb(s, host.values, m) && ForRequester(m, local.value);
      if Literal(m) {
        assert Serves(m, local.value);
        ServesMeans(m, local.value);
      }
    }
    hide Acceptable;
  }

  ghost predicate AnswersLoopback(l: Listener) {
    exists a: Ip :: a.Loopback() && Answers(l, a)
  }
}
