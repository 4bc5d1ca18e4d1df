/**
 When saved listeners can be the reason that a start exits: over all hosts on which
 a socket opens exactly when no other program holds a port of an address that it
 answers on and it overlaps none of PiCache's own, and for all saved sets that the check
 accepts.
*/
module ListenerReason {
  import opened ListenerRules
  import opened ListenerStart
  import opened Wrappers

  /** A host, by the sockets that its other programs leave free. */
  function HostWorld(free: Socket -> bool): World {
    World((s: Socket, held: set<Socket>) =>
            !s.addr.Bad? && free(s) && forall h :: h in held && h.udp == s.udp ==> !Overlap(h.addr, s.addr))
  }

  // ---- sockets as addresses ---------------------------------------------------------------

  /** The addresses held by TCP. */
  function TcpOf(held: set<Socket>): set<Listener> {
    set h | h in held && !h.udp :: h.addr
  }

  function SetOf(addrs: seq<Listener>): set<Listener> {
    set a | a in addrs
  }

  predicate IsFree(free: Socket -> bool, a: Listener) {
    !a.Bad? && free(Socket(false, a))
  }

  /** No address of t stands in the way of a. */
  predicate Clear(t: set<Listener>, a: Listener) {
    forall h :: h in t ==> !Overlap(h, a)
  }

  predicate SelfApart(addrs: seq<Listener>) {
    forall i, j :: 0 <= i < j < |addrs| ==> !Overlap(addrs[i], addrs[j])
  }

  /** All of the addresses open by TCP beside t. */
  predicate Fits(free: Socket -> bool, t: set<Listener>, addrs: seq<Listener>) {
    SelfApart(addrs) && forall i :: 0 <= i < |addrs| ==> IsFree(free, addrs[i]) && Clear(t, addrs[i])
  }

  /** The ones that open by TCP beside t. */
  function OpenedTcp(free: Socket -> bool, t: set<Listener>, addrs: seq<Listener>): seq<Listener> {
    if addrs == [] then []
    else
      var before := OpenedTcp(free, t, addrs[..|addrs| - 1]);
      var a := addrs[|addrs| - 1];
      if IsFree(free, a) && Clear(t + SetOf(before), a) then before + [a] else before
  }

  predicate TcpRole(r: Role) {
    !r.Dns? && !r.Ntp?
  }

  lemma {:induction false} HeldByRole(held: set<Socket>, r: Role, addrs: seq<Listener>)
    requires TcpRole(r)
    ensures TcpOf(held + ToSet(SocketsOf(r, addrs))) == TcpOf(held) + SetOf(addrs)
  {
    SocketsAre(r, addrs);
    var all := held + ToSet(SocketsOf(r, addrs));
    forall a ensures a in TcpOf(all) <==> a in TcpOf(held) + SetOf(addrs) {
      assert a in TcpOf(all) <==> Socket(false, a) in all;
      assert a in TcpOf(held) <==> Socket(false, a) in held;
    }
  }

  lemma {:induction false} SocketsAre(r: Role, addrs: seq<Listener>)
    requires TcpRole(r)
    ensures |SocketsOf(r, addrs)| == |addrs|
    ensures forall s :: s in SocketsOf(r, addrs) <==> !s.udp && s.addr in addrs
  {
    if addrs != [] {
      SocketsAre(r, addrs[..|addrs| - 1]);
      assert addrs == addrs[..|addrs| - 1] + [addrs[|addrs| - 1]];
    }
  }

  lemma CanOpenTcp(free: Socket -> bool, held: set<Socket>, a: Listener)
    ensures HostWorld(free).canOpen(Socket(false, a), held) <==> IsFree(free, a) && Clear(TcpOf(held), a)
  {
    assert forall h :: h in held && !h.udp ==> h.addr in TcpOf(held);
    assert forall b :: b in TcpOf(held) ==> Socket(false, b) in held;
  }

  lemma FitsNext(free: Socket -> bool, t: set<Listener>, before: seq<Listener>, a: Listener)
    ensures Fits(free, t, before + [a]) <==> Fits(free, t, before) && IsFree(free, a) && Clear(t + SetOf(before), a)
  {
    var all := before + [a];
    hide Overlap, IsFree;
    if Fits(free, t, before) && IsFree(free, a) && Clear(t + SetOf(before), a) {
      forall i, j | 0 <= i < j < |all| ensures !Overlap(all[i], all[j]) {
        if j == |before| {
          assert all[i] in t + SetOf(before);
        }
      }
    }
    if Fits(free, t, all) {
      assert all[..|before|] == before && all[|before|] == a;
      forall i | 0 <= i < |before| ensures IsFree(free, before[i]) && Clear(t, before[i]) {
        assert before[i] == all[i];
      }
      forall h | h in t + SetOf(before) ensures !Overlap(h, a) {
        if h in before {
          var i :| 0 <= i < |before| && before[i] == h;
          assert !Overlap(all[i], all[|before|]);
        }
      }
      assert SelfApart(before);
    }
  }

  lemma {:induction false} AllOpenTcp(free: Socket -> bool, held: set<Socket>, r: Role, addrs: seq<Listener>)
    requires TcpRole(r)
    ensures AllOpen(HostWorld(free), held, SocketsOf(r, addrs)) <==> Fits(free, TcpOf(held), addrs)
  {
    if addrs != [] {
      var before, a := addrs[..|addrs| - 1], addrs[|addrs| - 1];
      var ss := SocketsOf(r, before);
      var w := HostWorld(free);
      assert SocketsOf(r, addrs) == ss + [Socket(false, a)] && before + [a] == addrs;
      hide Fits, HostWorld, ToSet, TcpOf, SetOf, IsFree, Clear, SocketsOf, AllOpen;
      AllOpenTcp(free, held, r, before);
      OpenNext(w, held, ss, Socket(false, a));
      HeldByRole(held, r, before);
      CanOpenTcp(free, held + ToSet(ss), a);
      FitsNext(free, TcpOf(held), before, a);
    } else {
      assert SocketsOf(r, addrs) == [];
    }
  }

  lemma OpenNext(w: World, held: set<Socket>, ss: seq<Socket>, x: Socket)
    ensures AllOpen(w, held, ss + [x]) <==> AllOpen(w, held, ss) && w.canOpen(x, held + ToSet(ss))
  {
    assert (ss + [x])[..|ss|] == ss;
  }

  lemma {:induction false} OpenedIsTcp(free: Socket -> bool, held: set<Socket>, r: Role, addrs: seq<Listener>)
    requires TcpRole(r)
    ensures Opened(HostWorld(free), held, SocketsOf(r, addrs)) == SocketsOf(r, OpenedTcp(free, TcpOf(held), addrs))
  {
    if addrs != [] {
      var before, a := addrs[..|addrs| - 1], addrs[|addrs| - 1];
      var ss := SocketsOf(r, before);
      var got := OpenedTcp(free, TcpOf(held), before);
      OpenedIsTcp(free, held, r, before);
      assert SocketsOf(r, addrs) == ss + [Socket(false, a)];
      assert (ss + [Socket(false, a)])[..|ss|] == ss;
      HeldByRole(held, r, got);
      CanOpenTcp(free, held + ToSet(SocketsOf(r, got)), a);
      assert (got + [a])[..|got|] == got;
      assert SocketsOf(r, got + [a]) == SocketsOf(r, got) + [Socket(false, a)];
      hide HostWorld, ToSet, TcpOf, SetOf, IsFree, Clear, SocketsOf;
    }
  }

  // ---- a start by its addresses --------------------------------------------------------------

  /** What a TCP role binds beside t. */
  function RoleAddrs(free: Socket -> bool, cfg: Config, c: Option<Set>, t: set<Listener>, r: Role): seq<Listener> {
    var saved := Saved(cfg, c, r);
    if saved.Some? && Fits(free, t, saved.value) then saved.value else OpenedTcp(free, t, Get(cfg.values, r))
  }

  lemma RoleIs(free: Socket -> bool, cfg: Config, c: Option<Set>, held: set<Socket>, r: Role)
    requires TcpRole(r)
    ensures RoleSockets(HostWorld(free), cfg, c, held, r) == SocketsOf(r, RoleAddrs(free, cfg, c, TcpOf(held), r))
  {
    var saved := Saved(cfg, c, r);
    if saved.Some? {
      AllOpenTcp(free, held, r, saved.value);
    }
    OpenedIsTcp(free, held, r, Get(cfg.values, r));
    hide AllOpen, Opened, Fits, HostWorld, SocketsOf, OpenedTcp, Saved;
  }

  /** All of the addresses open by UDP and TCP, with nothing else held. */
  predicate FitsDns(free: Socket -> bool, addrs: seq<Listener>) {
    SelfApart(addrs) && forall i :: 0 <= i < |addrs| ==> IsFree(free, addrs[i]) && free(Socket(true, addrs[i]))
  }

  lemma {:induction false} DnsSocketsAre(addrs: seq<Listener>)
    ensures forall s :: s in SocketsOf(Dns, addrs) <==> s.addr in addrs
  {
    if addrs != [] {
      DnsSocketsAre(addrs[..|addrs| - 1]);
      assert addrs == addrs[..|addrs| - 1] + [addrs[|addrs| - 1]];
    }
  }

  lemma OpenTwo(w: World, held: set<Socket>, ss: seq<Socket>, x: Socket, y: Socket)
    ensures AllOpen(w, held, ss + [x, y])
       <==> AllOpen(w, held, ss) && w.canOpen(x, held + ToSet(ss)) && w.canOpen(y, held + ToSet(ss + [x]))
  {
    assert (ss + [x, y])[..|ss| + 1] == ss + [x];
    assert (ss + [x])[..|ss|] == ss;
  }

  lemma FitsDnsNext(free: Socket -> bool, before: seq<Listener>, a: Listener)
    ensures FitsDns(free, before + [a])
       <==> FitsDns(free, before) && IsFree(free, a) && free(Socket(true, a)) && Clear(SetOf(before), a)
  {
    var all := before + [a];
    hide Overlap, IsFree;
    if FitsDns(free, before) && IsFree(free, a) && free(Socket(true, a)) && Clear(SetOf(before), a) {
      forall i, j | 0 <= i < j < |all| ensures !Overlap(all[i], all[j]) {
        if j == |before| {
          assert all[i] in SetOf(before);
        }
      }
    }
    if FitsDns(free, all) {
      assert all[..|before|] == before && all[|before|] == a;
      forall i | 0 <= i < |before| ensures IsFree(free, before[i]) && free(Socket(true, before[i])) {
        assert before[i] == all[i];
      }
      forall h | h in SetOf(before) ensures !Overlap(h, a) {
        var i :| 0 <= i < |before| && before[i] == h;
        assert !Overlap(all[i], all[|before|]);
      }
      assert SelfApart(before);
    }
  }

  lemma CanOpenDns(free: Socket -> bool, before: seq<Listener>, a: Listener)
    ensures var ss := SocketsOf(Dns, before); var w := HostWorld(free);
            w.canOpen(Socket(true, a), {} + ToSet(ss)) && w.canOpen(Socket(false, a), {} + ToSet(ss + [Socket(true, a)]))
            <==> IsFree(free, a) && free(Socket(true, a)) && Clear(SetOf(before), a)
  {
    DnsSocketsAre(before);
    var ss := SocketsOf(Dns, before);
    var udp := Socket(true, a);
    forall b | b in before ensures Socket(false, b) in ToSet(ss) && Socket(true, b) in ToSet(ss) && Socket(false, b) in ToSet(ss + [udp]) {
    }
    hide SocketsOf, Overlap;
  }

  lemma {:induction false} AllOpenDns(free: Socket -> bool, addrs: seq<Listener>)
    ensures AllOpen(HostWorld(free), {}, SocketsOf(Dns, addrs)) <==> FitsDns(free, addrs)
  {
    if addrs != [] {
      var before, a := addrs[..|addrs| - 1], addrs[|addrs| - 1];
      assert SocketsOf(Dns, addrs) == SocketsOf(Dns, before) + [Socket(true, a), Socket(false, a)];
      assert addrs == before + [a];
      AllOpenDns(free, before);
      hide SocketsOf, HostWorld, FitsDns, AllOpen, Clear, IsFree, ToSet;
      OpenTwo(HostWorld(free), {}, SocketsOf(Dns, before), Socket(true, a), Socket(false, a));
      CanOpenDns(free, before, a);
      FitsDnsNext(free, before, a);
    }
  }

  /** Whether DNS takes its saved addresses. */
  predicate Moves(free: Socket -> bool, cfg: Config, c: Option<Set>) {
    Saved(cfg, c, Dns).Some? && FitsDns(free, Saved(cfg, c, Dns).value)
  }

  function DnsAddrs(free: Socket -> bool, cfg: Config, c: Option<Set>): seq<Listener> {
    if Moves(free, cfg, c) then Saved(cfg, c, Dns).value else Get(cfg.values, Dns)
  }

  /** What is held by TCP once DNS, then the cache, then SNI are bound. */
  function WithDns(free: Socket -> bool, cfg: Config, c: Option<Set>): set<Listener> {
    SetOf(DnsAddrs(free, cfg, c))
  }

  function WithCache(free: Socket -> bool, cfg: Config, c: Option<Set>): set<Listener> {
    WithDns(free, cfg, c) + SetOf(RoleAddrs(free, cfg, c, WithDns(free, cfg, c), Cache))
  }

  function WithSni(free: Socket -> bool, cfg: Config, c: Option<Set>): set<Listener> {
    WithCache(free, cfg, c) + SetOf(RoleAddrs(free, cfg, c, WithCache(free, cfg, c), Sni))
  }

  lemma DnsHeld(free: Socket -> bool, cfg: Config, c: Option<Set>)
    ensures TcpOf(BindRole(HostWorld(free), cfg, c, NOTHING, Dns).held) == WithDns(free, cfg, c)
  {
    var saved := Saved(cfg, c, Dns);
    if saved.Some? {
      AllOpenDns(free, saved.value);
    }
    var addrs := DnsAddrs(free, cfg, c);
    assert RoleSockets(HostWorld(free), cfg, c, {}, Dns) == SocketsOf(Dns, addrs) by { hide AllOpen, FitsDns, SocketsOf, HostWorld; }
    DnsSocketsAre(addrs);
    hide RoleSockets, SocketsOf, DnsAddrs;
    var held := BindRole(HostWorld(free), cfg, c, NOTHING, Dns).held;
    assert held == {} + ToSet(SocketsOf(Dns, addrs));
    forall a ensures a in TcpOf(held) <==> a in addrs {
      assert a in TcpOf(held) <==> Socket(false, a) in held;
    }
  }

  lemma RoleStep(free: Socket -> bool, cfg: Config, c: Option<Set>, o: Outcome, r: Role)
    requires TcpRole(r)
    ensures TcpOf(BindRole(HostWorld(free), cfg, c, o, r).held) == TcpOf(o.held) + SetOf(RoleAddrs(free, cfg, c, TcpOf(o.held), r))
  {
    RoleIs(free, cfg, c, o.held, r);
    HeldByRole(o.held, r, RoleAddrs(free, cfg, c, TcpOf(o.held), r));
    hide RoleSockets, RoleAddrs, SocketsOf, TcpOf;
  }

  lemma ThreeHeld(free: Socket -> bool, cfg: Config, c: Option<Set>)
    ensures TcpOf(BindRoles(HostWorld(free), cfg, c, [Dns, Cache, Sni], NOTHING).held) == WithSni(free, cfg, c)
  {
    var w := HostWorld(free);
    hide BindRole, BindRoles, RoleAddrs, TcpOf, HostWorld;
    BindFirst(w, cfg, c);
    BindNext(w, cfg, c, 1);
    BindNext(w, cfg, c, 2);
    assert ROLES[..3] == [Dns, Cache, Sni] && ROLES[1] == Cache && ROLES[2] == Sni;
    var o1 := BindRole(w, cfg, c, NOTHING, Dns);
    DnsHeld(free, cfg, c);
    RoleStep(free, cfg, c, o1, Cache);
    RoleStep(free, cfg, c, BindRole(w, cfg, c, o1, Cache), Sni);
  }

  /** A start exits exactly when DNS cannot be bound, or no web role binds anything
      beside what DNS, the cache and SNI hold. */
  lemma ExitsByAddress(free: Socket -> bool, cfg: Config, c: Option<Set>)
    ensures Exits(HostWorld(free), cfg, c)
       <==> || (!Moves(free, cfg, c) && !FitsDns(free, Get(cfg.values, Dns)))
            || (&& RoleAddrs(free, cfg, c, WithSni(free, cfg, c), Web) == []
                && RoleAddrs(free, cfg, c, WithSni(free, cfg, c), WebTls) == [])
  {
    var w := HostWorld(free);
    var t := WithSni(free, cfg, c);
    NoDnsIs(free, cfg, c);
    hide BindRoles, BindRole, RoleSockets, RoleAddrs, SocketsOf, TcpOf, HostWorld, FitsDns, NoDns, NoWeb, Moves, WithSni;
    ExitsForWantOfWeb(w, cfg, c);
    ThreeHeld(free, cfg, c);
    var o3 := BindRoles(w, cfg, c, [Dns, Cache, Sni], NOTHING);
    var o4 := BindRole(w, cfg, c, o3, Web);
    RoleIs(free, cfg, c, o3.held, Web);
    SocketsEmpty(Web, RoleAddrs(free, cfg, c, t, Web));
    if RoleAddrs(free, cfg, c, t, Web) == [] {
      RoleStep(free, cfg, c, o3, Web);
      assert TcpOf(o4.held) == t + SetOf([]);
      assert t + SetOf([]) == t;
      RoleIs(free, cfg, c, o4.held, WebTls);
      SocketsEmpty(WebTls, RoleAddrs(free, cfg, c, t, WebTls));
    }
  }

  lemma SocketsEmpty(r: Role, addrs: seq<Listener>)
    requires TcpRole(r)
    ensures SocketsOf(r, addrs) == [] <==> addrs == []
  {
    SocketsAre(r, addrs);
  }

  lemma NoDnsIs(free: Socket -> bool, cfg: Config, c: Option<Set>)
    ensures NoDns(HostWorld(free), cfg, c) <==> !Moves(free, cfg, c) && !FitsDns(free, Get(cfg.values, Dns))
  {
    var saved := Saved(cfg, c, Dns);
    if saved.Some? {
      AllOpenDns(free, saved.value);
    }
    AllOpenDns(free, Get(cfg.values, Dns));
    hide AllOpen, FitsDns, SocketsOf, HostWorld;
  }

  // ---- what other programs hold ----------------------------------------------------------------

  /** 127.0.0.1, which every host has. */
  const LOOPBACK: Ip := V4(0x7F00_0001)

  /** An address that a host with these addresses can listen on. */
  predicate OfHost(own: set<Ip>, a: Listener) {
    !a.Bad? && (a.On? ==> a.ip.Unspecified() || a.ip in own)
  }

  /** The free sockets of a host with these addresses, by what other programs hold: the
      ports of each address, for UDP or TCP. A listener on every address is free when
      its port is on all of the addresses that it answers on. */
  function FreeOn(own: set<Ip>, taken: (bool, Ip, nat) -> bool): Socket -> bool {
    (k: Socket) => OfHost(own, k.addr) && forall ip :: ip in own && Answers(k.addr, ip) ==> !taken(k.udp, ip, k.addr.port)
  }

  predicate At(a: Listener, port: nat, ip: Ip) {
    !a.Bad? && a.port == port && Answers(a, ip)
  }

  predicate Reached(xs: seq<Listener>, port: nat, ip: Ip) {
    exists i :: 0 <= i < |xs| && At(xs[i], port, ip)
  }

  /** Wherever the addresses xs are free, so is a. */
  predicate Covered(own: set<Ip>, xs: seq<Listener>, a: Listener) {
    OfHost(own, a) && forall ip :: ip in own && Answers(a, ip) ==> Reached(xs, a.port, ip)
  }

  lemma FreeCovered(own: set<Ip>, taken: (bool, Ip, nat) -> bool, udp: bool, xs: seq<Listener>, a: Listener)
    requires Covered(own, xs, a) && forall i :: 0 <= i < |xs| ==> FreeOn(own, taken)(Socket(udp, xs[i]))
    ensures FreeOn(own, taken)(Socket(udp, a))
  {
    forall ip | ip in own && Answers(a, ip) ensures !taken(udp, ip, a.port) {
      var i :| 0 <= i < |xs| && At(xs[i], a.port, ip);
      assert FreeOn(own, taken)(Socket(udp, xs[i]));
    }
  }

  lemma Shared(x: Listener, y: Listener, port: nat, ip: Ip)
    requires At(x, port, ip) && At(y, port, ip)
    ensures Overlap(x, y)
  {
  }

  /** Two addresses of a host that overlap share one of its addresses. */
  lemma Meet(own: set<Ip>, x: Listener, y: Listener) returns (ip: Ip)
    requires LOOPBACK in own && OfHost(own, x) && OfHost(own, y) && Overlap(x, y)
    ensures ip in own && Answers(x, ip) && Answers(y, ip)
  {
    ip := if x.On? && !x.ip.Unspecified() then x.ip else if y.On? && !y.ip.Unspecified() then y.ip else LOOPBACK;
  }

  /** What overlaps an address that is covered overlaps one that covers it. */
  lemma MeetsCover(own: set<Ip>, xs: seq<Listener>, a: Listener, h: Listener) returns (i: nat)
    requires LOOPBACK in own && Covered(own, xs, a) && OfHost(own, h) && Overlap(h, a)
    ensures i < |xs| && Overlap(h, xs[i])
  {
    var ip := Meet(own, h, a);
    var j :| 0 <= j < |xs| && At(xs[j], a.port, ip);
    Shared(h, xs[j], a.port, ip);
    i := j;
  }

  // ---- the condition ----------------------------------------------------------------------------

  /** A set that keeps the rules of a file, names no locked role and clashes with
      nothing, on a host whose own values do not clash. */
  ghost predicate Setting(cfg: Config, s: Set) {
    && ValidFile(s) && s.Keys * cfg.locked == {}
    && NoClash(EffectiveSet(s, cfg.values), TCP_ROLES) && NoClash(cfg.values, TCP_ROLES)
  }

  predicate WebRole(r: Role) {
    r.Web? || r.WebTls?
  }

  /** All of the addresses can be bound on some host. */
  predicate Bindable(own: set<Ip>, addrs: seq<Listener>) {
    SelfApart(addrs) && forall i :: 0 <= i < |addrs| ==> OfHost(own, addrs[i])
  }

  /** Saved DNS addresses that open wherever the host's values do. */
  predicate DnsFollows(values: Set, s: Set, own: set<Ip>) {
    Dns in s && SelfApart(s[Dns]) && forall i :: 0 <= i < |s[Dns]| ==> Covered(own, Get(values, Dns), s[Dns][i])
  }

  /** DNS can take its saved addresses, or can be left with its values. */
  predicate DnsCan(values: Set, s: Set, own: set<Ip>, moves: bool) {
    if moves then Dns in s && Bindable(own, s[Dns]) else !DnsFollows(values, s, own)
  }

  predicate AllApart(xs: seq<Listener>, ys: seq<Listener>) {
    forall i, j :: 0 <= i < |xs| && 0 <= j < |ys| ==> !Overlap(xs[i], ys[j])
  }

  /** The cache can take its saved addresses beside DNS. */
  predicate CacheCan(values: Set, s: Set, own: set<Ip>, moves: bool) {
    Cache in s && Bindable(own, s[Cache]) && (moves || AllApart(Get(values, Dns), s[Cache]))
  }

  /** SNI can take its saved addresses beside DNS and the cache, which opens no value
      on them. */
  predicate SniCan(values: Set, s: Set, own: set<Ip>, moves: bool) {
    && Sni in s && Bindable(own, s[Sni]) && (moves || AllApart(Get(values, Dns), s[Sni]))
    && (Cache !in s || CacheCan(values, s, own, moves)
        || forall i :: 0 <= i < |Get(values, Cache)| ==> !Covered(own, s[Sni], Get(values, Cache)[i]))
  }

  predicate Can(values: Set, s: Set, own: set<Ip>, moves: bool, b: Role) {
    match b
    case Dns => moves && Dns in s
    case Cache => CacheCan(values, s, own, moves)
    case Sni => SniCan(values, s, own, moves)
    case _ => false
  }

  /** What web addresses open on wherever x and the DNS values are free: x, and the DNS
      values that DNS leaves. */
  function Room(values: Set, moves: bool, x: Listener): seq<Listener> {
    if moves then Get(values, Dns) + [x] else [x]
  }

  /** Saved web addresses that open wherever x and the DNS values are free. */
  predicate Opens(values: Set, own: set<Ip>, moves: bool, x: Listener, addrs: seq<Listener>) {
    SelfApart(addrs) && forall i :: 0 <= i < |addrs| ==> Covered(own, Room(values, moves, x), addrs[i])
  }

  /** No saved web address needs to open. */
  predicate NoneOpens(values: Set, s: Set, own: set<Ip>, moves: bool, x: Listener) {
    forall q :: WebRole(q) && q in s && s[q] != [] ==> !Opens(values, own, moves, x, s[q])
  }

  /** A saved address of DNS, the cache or SNI that can be taken stands in the way of y. */
  predicate InWay(values: Set, s: Set, own: set<Ip>, moves: bool, y: Listener) {
    exists b, i :: Can(values, s, own, moves, b) && 0 <= i < |Get(s, b)| && Overlap(Get(s, b)[i], y)
  }

  /** Every value of the web role that is free wherever x is has a saved address in its
      way. */
  predicate AllInWay(values: Set, s: Set, own: set<Ip>, moves: bool, r: Role, x: Listener) {
    forall i :: 0 <= i < |Get(values, r)| && Covered(own, [x], Get(values, r)[i])
                ==> InWay(values, s, own, moves, Get(values, r)[i])
  }

  /** The value x of a saved web role would open, and with the saved set none does: the
      role is switched off or its values are in the way of saved addresses, and
      neither web role opens its saved addresses. */
  predicate Loses(values: Set, s: Set, own: set<Ip>, moves: bool, r: Role, x: Listener) {
    && WebRole(r) && r in s && x in Get(values, r) && OfHost(own, x)
    && DnsCan(values, s, own, moves) && NoneOpens(values, s, own, moves, x)
    && (s[r] == [] || AllInWay(values, s, own, moves, r, x))
  }

  /** The saved set can be the reason that a start exits. */
  ghost predicate CanBeReason(values: Set, s: Set, own: set<Ip>) {
    Bindable(own, Get(values, Dns)) && exists moves, r, x :: Loses(values, s, own, moves, r, x)
  }

  // ---- facts of a setting -------------------------------------------------------------------------

  lemma RoleIndex(r: Role) returns (i: nat)
    requires !r.Ntp?
    ensures i < |TCP_ROLES| && TCP_ROLES[i] == r
  {
    i := match r
      case Dns => 0
      case Cache => 1
      case Sni => 2
      case Web => 3
      case WebTls => 4
      case Dot => 5
      case Doh => 6;
  }

  /** Two roles of a set without clashes have no overlapping addresses. */
  lemma RolesApart(e: Set, q: Role, r: Role, x: Listener, y: Listener)
    requires NoClash(e, TCP_ROLES) && q != r && !q.Ntp? && !r.Ntp? && x in Get(e, q) && y in Get(e, r)
    ensures !Overlap(x, y) && !Overlap(y, x)
  {
    var i := RoleIndex(q);
    var j := RoleIndex(r);
    OverlapSymmetric(x, y);
    if i < j {
      assert Apart(Get(e, TCP_ROLES[j]), Get(e, TCP_ROLES[i]));
    } else {
      assert Apart(Get(e, TCP_ROLES[i]), Get(e, TCP_ROLES[j]));
    }
    hide NoClash, Overlap;
  }

  function E(cfg: Config, s: Set, r: Role): seq<Listener> {
    if r in s then s[r] else Get(cfg.values, r)
  }

  lemma EffectiveApart(cfg: Config, s: Set, q: Role, r: Role, x: Listener, y: Listener)
    requires Setting(cfg, s) && q != r && !q.Ntp? && !r.Ntp? && x in E(cfg, s, q) && y in E(cfg, s, r)
    ensures !Overlap(x, y) && !Overlap(y, x)
  {
    assert Get(EffectiveSet(s, cfg.values), q) == E(cfg, s, q);
    assert Get(EffectiveSet(s, cfg.values), r) == E(cfg, s, r);
    RolesApart(EffectiveSet(s, cfg.values), q, r, x, y);
  }

  lemma ValuesApart(cfg: Config, s: Set, q: Role, r: Role, x: Listener, y: Listener)
    requires Setting(cfg, s) && q != r && !q.Ntp? && !r.Ntp? && x in Get(cfg.values, q) && y in Get(cfg.values, r)
    ensures !Overlap(x, y) && !Overlap(y, x)
  {
    RolesApart(cfg.values, q, r, x, y);
  }

  lemma SavedIs(cfg: Config, s: Set, r: Role)
    requires Setting(cfg, s)
    ensures Saved(cfg, Some(s), r) == if r in s then Some(s[r]) else None
  {
    hide ValidFile, NoClash;
    assert r in s ==> r !in cfg.locked || r in s.Keys * cfg.locked;
  }

  lemma OverlapsItself(x: Listener)
    requires !x.Bad?
    ensures Overlap(x, x)
  {
  }

  lemma {:induction false} OpenedIn(free: Socket -> bool, t: set<Listener>, addrs: seq<Listener>)
    ensures forall a <- OpenedTcp(free, t, addrs) :: a in addrs && IsFree(free, a) && Clear(t, a)
  {
    if addrs != [] {
      OpenedIn(free, t, addrs[..|addrs| - 1]);
      hide Overlap;
    }
  }

  /** An address that could open beside t alone is opened, or one that overlaps it is. */
  lemma {:induction false} OpenedCovers(free: Socket -> bool, t: set<Listener>, addrs: seq<Listener>, a: Listener)
    requires a in addrs && IsFree(free, a) && Clear(t, a)
    ensures exists o :: o in OpenedTcp(free, t, addrs) && Overlap(o, a)
  {
    var before, last := addrs[..|addrs| - 1], addrs[|addrs| - 1];
    assert addrs == before + [last];
    var got := OpenedTcp(free, t, before);
    if a in before {
      OpenedCovers(free, t, before, a);
      var o :| o in got && Overlap(o, a);
      assert o in OpenedTcp(free, t, addrs);
    } else {
      assert a == last;
      OverlapsItself(a);
      hide Overlap;
      if Clear(t + SetOf(got), a) {
        assert a in OpenedTcp(free, t, addrs);
      } else {
        var o :| o in t + SetOf(got) && Overlap(o, a);
        assert o in got;
        assert o in OpenedTcp(free, t, addrs);
      }
    }
  }

  /** Nothing opens exactly when no address could. */
  lemma NoneOpen(free: Socket -> bool, t: set<Listener>, addrs: seq<Listener>)
    ensures OpenedTcp(free, t, addrs) == [] <==> forall a <- addrs :: !(IsFree(free, a) && Clear(t, a))
  {
    var got := OpenedTcp(free, t, addrs);
    OpenedIn(free, t, addrs);
    if a :| a in addrs && IsFree(free, a) && Clear(t, a) {
      OpenedCovers(free, t, addrs, a);
    }
    if got != [] {
      assert got[0] in got;
    }
  }

  /** A web role binds nothing exactly when its saved set is [], or does not fit while no
      value of the host could open. */
  lemma NothingBound(free: Socket -> bool, cfg: Config, s: Set, t: set<Listener>, r: Role)
    requires Setting(cfg, s)
    ensures RoleAddrs(free, cfg, Some(s), t, r) == []
       <==> if r in s && Fits(free, t, s[r]) then s[r] == []
            else forall a <- Get(cfg.values, r) :: !(IsFree(free, a) && Clear(t, a))
  {
    SavedIs(cfg, s, r);
    NoneOpen(free, t, Get(cfg.values, r));
    hide OpenedTcp, Fits, Clear, IsFree, Setting;
  }

  // ---- who holds what --------------------------------------------------------------------------

  predicate Early(b: Role) {
    b.Dns? || b.Cache? || b.Sni?
  }

  /** The role takes its saved addresses in this start. */
  predicate Takes(free: Socket -> bool, cfg: Config, s: Set, b: Role) {
    b in s && match b
              case Dns => FitsDns(free, s[Dns])
              case Cache => Fits(free, WithDns(free, cfg, Some(s)), s[Cache])
              case Sni => Fits(free, WithCache(free, cfg, Some(s)), s[Sni])
              case _ => false
  }

  lemma TakesDns(free: Socket -> bool, cfg: Config, s: Set)
    requires Setting(cfg, s)
    ensures Moves(free, cfg, Some(s)) <==> Takes(free, cfg, s, Dns)
    ensures DnsAddrs(free, cfg, Some(s)) == if Takes(free, cfg, s, Dns) then s[Dns] else Get(cfg.values, Dns)
  {
    SavedIs(cfg, s, Dns);
    hide Setting, FitsDns, Saved;
  }

  lemma TakesRole(free: Socket -> bool, cfg: Config, s: Set, b: Role)
    requires Setting(cfg, s) && (b.Cache? || b.Sni?)
    ensures var t := if b.Cache? then WithDns(free, cfg, Some(s)) else WithCache(free, cfg, Some(s));
            RoleAddrs(free, cfg, Some(s), t, b)
            == if Takes(free, cfg, s, b) then s[b] else OpenedTcp(free, t, Get(cfg.values, b))
  {
    SavedIs(cfg, s, b);
    hide Setting, Fits, WithDns, WithCache, OpenedTcp, Saved;
  }

  /** An address held after SNI: one that its role took, or a value of a role that did
      not. */
  predicate From(free: Socket -> bool, cfg: Config, s: Set, b: Role, h: Listener) {
    Early(b) && if Takes(free, cfg, s, b) then b in s && h in s[b] else h in Get(cfg.values, b)
  }

  lemma TakesSaved(free: Socket -> bool, cfg: Config, s: Set, b: Role)
    requires Takes(free, cfg, s, b)
    ensures b in s
  {
  }

  lemma HeldFrom(free: Socket -> bool, cfg: Config, s: Set, h: Listener) returns (b: Role)
    requires Setting(cfg, s) && h in WithSni(free, cfg, Some(s))
    ensures From(free, cfg, s, b, h)
  {
    var c := Some(s);
    TakesDns(free, cfg, s);
    TakesRole(free, cfg, s, Cache);
    TakesRole(free, cfg, s, Sni);
    OpenedIn(free, WithDns(free, cfg, c), Get(cfg.values, Cache));
    OpenedIn(free, WithCache(free, cfg, c), Get(cfg.values, Sni));
    hide Takes, RoleAddrs, DnsAddrs, OpenedTcp, Setting, IsFree, Clear;
    b := if h in WithDns(free, cfg, c) then Dns else if h in WithCache(free, cfg, c) then Cache else Sni;
    if Takes(free, cfg, s, b) {
      TakesSaved(free, cfg, s, b);
    }
  }

  lemma IsHeld(free: Socket -> bool, cfg: Config, s: Set, b: Role, h: Listener)
    requires Setting(cfg, s) && Early(b)
    requires if Takes(free, cfg, s, b) then h in s[b] else b.Dns? && h in Get(cfg.values, Dns)
    ensures h in WithSni(free, cfg, Some(s))
  {
    TakesDns(free, cfg, s);
    TakesRole(free, cfg, s, Cache);
    TakesRole(free, cfg, s, Sni);
    hide Takes, RoleAddrs, DnsAddrs, OpenedTcp, Setting;
  }

  /** Without saved listeners only values are held. */
  lemma HeldValues(free: Socket -> bool, cfg: Config, h: Listener) returns (b: Role)
    requires h in WithSni(free, cfg, None)
    ensures Early(b) && h in Get(cfg.values, b)
  {
    OpenedIn(free, WithDns(free, cfg, None), Get(cfg.values, Cache));
    OpenedIn(free, WithCache(free, cfg, None), Get(cfg.values, Sni));
    hide OpenedTcp, IsFree, Clear;
    b := if h in WithDns(free, cfg, None) then Dns else if h in WithCache(free, cfg, None) then Cache else Sni;
  }

  /** Only a saved address that its role took stands in the way of a value of a web
      role. */
  lemma InTheWay(free: Socket -> bool, cfg: Config, s: Set, r: Role, x: Listener, h: Listener) returns (b: Role)
    requires Setting(cfg, s) && WebRole(r) && x in Get(cfg.values, r)
    requires h in WithSni(free, cfg, Some(s)) && Overlap(h, x)
    ensures Early(b) && Takes(free, cfg, s, b) && b in s && h in s[b]
  {
    b := HeldFrom(free, cfg, s, h);
    if h in Get(cfg.values, b) {
      ValuesApart(cfg, s, b, r, h, x);
    }
    hide Takes, Overlap, Setting;
  }

  // ---- when the files are the reason, the condition holds ---------------------------------------------

  /** A start that exits with the saved set and not without it. */
  ghost predicate IsReason(free: Socket -> bool, cfg: Config, s: Set) {
    Exits(HostWorld(free), cfg, Some(s)) && !Exits(HostWorld(free), cfg, None)
  }

  /** What such a start means: the DNS values open, a value of a web role would open, and
      with the saved set neither web role binds anything. */
  lemma ReasonMeans(free: Socket -> bool, cfg: Config, s: Set) returns (r: Role, x: Listener)
    requires IsReason(free, cfg, s)
    ensures FitsDns(free, Get(cfg.values, Dns)) && WebRole(r) && x in Get(cfg.values, r) && IsFree(free, x)
    ensures forall q :: WebRole(q) ==> RoleAddrs(free, cfg, Some(s), WithSni(free, cfg, Some(s)), q) == []
  {
    var t := WithSni(free, cfg, None);
    ExitsByAddress(free, cfg, None);
    ExitsByAddress(free, cfg, Some(s));
    assert Saved(cfg, None, Dns) == None && Saved(cfg, None, Web) == None && Saved(cfg, None, WebTls) == None;
    hide Exits, FitsDns, WithSni, OpenedTcp, Fits, IsFree, Clear, Saved;
    r := if RoleAddrs(free, cfg, None, t, Web) != [] then Web else WebTls;
    var got := RoleAddrs(free, cfg, None, t, r);
    assert got == OpenedTcp(free, t, Get(cfg.values, r)) && got != [];
    OpenedIn(free, t, Get(cfg.values, r));
    x := got[0];
    assert x in got;
  }

  /** A web role that is not saved opens its value as it would without the files. */
  lemma MustBeSaved(free: Socket -> bool, cfg: Config, s: Set, r: Role, x: Listener)
    requires Setting(cfg, s) && WebRole(r) && x in Get(cfg.values, r) && IsFree(free, x)
    requires RoleAddrs(free, cfg, Some(s), WithSni(free, cfg, Some(s)), r) == []
    ensures r in s
  {
    var t := WithSni(free, cfg, Some(s));
    NothingBound(free, cfg, s, t, r);
    hide Setting, RoleAddrs, WithSni, Overlap, Fits, Takes;
    if r !in s {
      var h :| h in t && Overlap(h, x);
      var b := InTheWay(free, cfg, s, r, x, h);
      EffectiveApart(cfg, s, b, r, h, x);
    }
  }

  lemma FreeIsOfHost(own: set<Ip>, taken: (bool, Ip, nat) -> bool, k: Socket)
    requires FreeOn(own, taken)(k)
    ensures OfHost(own, k.addr)
  {
  }

  lemma FitsBindable(own: set<Ip>, taken: (bool, Ip, nat) -> bool, t: set<Listener>, addrs: seq<Listener>)
    ensures Fits(FreeOn(own, taken), t, addrs) || FitsDns(FreeOn(own, taken), addrs) ==> Bindable(own, addrs)
  {
  }

  /** DNS takes saved addresses that are covered by its values. */
  lemma FollowsTakes(own: set<Ip>, taken: (bool, Ip, nat) -> bool, cfg: Config, s: Set)
    requires FitsDns(FreeOn(own, taken), Get(cfg.values, Dns)) && DnsFollows(cfg.values, s, own)
    ensures Takes(FreeOn(own, taken), cfg, s, Dns)
  {
    var free := FreeOn(own, taken);
    forall i | 0 <= i < |s[Dns]| ensures IsFree(free, s[Dns][i]) && free(Socket(true, s[Dns][i])) {
      FreeCovered(own, taken, true, Get(cfg.values, Dns), s[Dns][i]);
      FreeCovered(own, taken, false, Get(cfg.values, Dns), s[Dns][i]);
    }
  }

  /** How DNS stands in a start that would get its values. */
  lemma DnsStands(own: set<Ip>, taken: (bool, Ip, nat) -> bool, cfg: Config, s: Set)
    requires FitsDns(FreeOn(own, taken), Get(cfg.values, Dns))
    ensures DnsCan(cfg.values, s, own, Takes(FreeOn(own, taken), cfg, s, Dns))
  {
    if Takes(FreeOn(own, taken), cfg, s, Dns) {
      FitsBindable(own, taken, {}, s[Dns]);
    } else if DnsFollows(cfg.values, s, own) {
      FollowsTakes(own, taken, cfg, s);
    }
  }

  /** A held address can be listened on. */
  lemma HeldOfHost(own: set<Ip>, taken: (bool, Ip, nat) -> bool, cfg: Config, s: Set, h: Listener)
    requires Setting(cfg, s) && Bindable(own, Get(cfg.values, Dns)) && h in WithSni(FreeOn(own, taken), cfg, Some(s))
    ensures OfHost(own, h)
  {
    var free, c := FreeOn(own, taken), Some(s);
    TakesDns(free, cfg, s);
    TakesRole(free, cfg, s, Cache);
    TakesRole(free, cfg, s, Sni);
    OpenedIn(free, WithDns(free, cfg, c), Get(cfg.values, Cache));
    OpenedIn(free, WithCache(free, cfg, c), Get(cfg.values, Sni));
    forall b | Early(b) && Takes(free, cfg, s, b) ensures b in s && Bindable(own, s[b]) {
      FitsBindable(own, taken, if b.Sni? then WithCache(free, cfg, c) else WithDns(free, cfg, c), s[b]);
    }
    forall a | IsFree(free, a) ensures OfHost(own, a) {
      FreeIsOfHost(own, taken, Socket(false, a));
    }
    assert Early(Dns) && Early(Cache) && Early(Sni);
    hide Setting, Takes, RoleAddrs, DnsAddrs, OpenedTcp, Clear, FreeOn, IsFree, OfHost, SelfApart;
  }

  /** What stands in the way of a saved web address is a value of a role that did not
      take its saved addresses. */
  lemma ValueInWay(free: Socket -> bool, cfg: Config, s: Set, q: Role, a: Listener, h: Listener) returns (b: Role)
    requires Setting(cfg, s) && WebRole(q) && q in s && a in s[q]
    requires h in WithSni(free, cfg, Some(s)) && Overlap(h, a)
    ensures Early(b) && !Takes(free, cfg, s, b) && h in Get(cfg.values, b)
  {
    hide Takes, Overlap, Setting, WithSni;
    b := HeldFrom(free, cfg, s, h);
    if Takes(free, cfg, s, b) {
      EffectiveApart(cfg, s, b, q, h, a);
    }
  }

  lemma RoomMember(values: Set, moves: bool, x: Listener, i: nat)
    requires i < |Room(values, moves, x)|
    ensures var y := Room(values, moves, x)[i]; y == x || (moves && y in Get(values, Dns))
  {
  }

  /** Covered web addresses have nothing in their way. */
  lemma CoveredClear(own: set<Ip>, taken: (bool, Ip, nat) -> bool, cfg: Config, s: Set, r: Role, x: Listener, q: Role, a: Listener)
    requires Setting(cfg, s) && LOOPBACK in own && Bindable(own, Get(cfg.values, Dns))
    requires WebRole(q) && q in s && a in s[q] && WebRole(r) && x in Get(cfg.values, r)
    requires Covered(own, Room(cfg.values, Takes(FreeOn(own, taken), cfg, s, Dns), x), a)
    ensures Clear(WithSni(FreeOn(own, taken), cfg, Some(s)), a)
  {
    hide Setting, Takes, Overlap, WithSni, FreeOn, Room, Bindable, Covered;
    var free := FreeOn(own, taken);
    var moves := Takes(free, cfg, s, Dns);
    forall h | h in WithSni(free, cfg, Some(s)) ensures !Overlap(h, a) {
      if Overlap(h, a) {
        var b := ValueInWay(free, cfg, s, q, a, h);
        HeldOfHost(own, taken, cfg, s, h);
        var i := MeetsCover(own, Room(cfg.values, moves, x), a, h);
        RoomMember(cfg.values, moves, x, i);
        var y := Room(cfg.values, moves, x)[i];
        ValuesApart(cfg, s, b, if y == x then r else Dns, h, y);
      }
    }
  }

  /** All of them open. */
  lemma OpensFits(own: set<Ip>, taken: (bool, Ip, nat) -> bool, cfg: Config, s: Set, r: Role, x: Listener, q: Role)
    requires Setting(cfg, s) && LOOPBACK in own && FitsDns(FreeOn(own, taken), Get(cfg.values, Dns))
    requires WebRole(q) && q in s && WebRole(r) && x in Get(cfg.values, r) && IsFree(FreeOn(own, taken), x)
    requires Opens(cfg.values, own, Takes(FreeOn(own, taken), cfg, s, Dns), x, s[q])
    ensures Fits(FreeOn(own, taken), WithSni(FreeOn(own, taken), cfg, Some(s)), s[q])
  {
    var free := FreeOn(own, taken);
    var room := Room(cfg.values, Takes(free, cfg, s, Dns), x);
    FitsBindable(own, taken, {}, Get(cfg.values, Dns));
    forall i | 0 <= i < |room| ensures free(Socket(false, room[i])) {
    }
    forall i | 0 <= i < |s[q]| ensures IsFree(free, s[q][i]) && Clear(WithSni(free, cfg, Some(s)), s[q][i]) {
      FreeCovered(own, taken, false, room, s[q][i]);
      hide Setting, Takes, Overlap, WithSni, Clear, FreeOn, Room, Bindable;
      CoveredClear(own, taken, cfg, s, r, x, q, s[q][i]);
    }
  }

  /** A role that takes its saved addresses can take them. */
  lemma TakenCan(own: set<Ip>, taken: (bool, Ip, nat) -> bool, cfg: Config, s: Set, b: Role)
    requires Setting(cfg, s) && LOOPBACK in own && Early(b) && Takes(FreeOn(own, taken), cfg, s, b)
    ensures Can(cfg.values, s, own, Takes(FreeOn(own, taken), cfg, s, Dns), b)
  {
    match b
    case Dns => TakesSaved(FreeOn(own, taken), cfg, s, b);
    case Cache => CacheTaken(own, taken, cfg, s);
    case Sni => SniTaken(own, taken, cfg, s);
  }

  lemma BesideDns(free: Socket -> bool, cfg: Config, s: Set, t: set<Listener>, addrs: seq<Listener>)
    requires Fits(free, t, addrs) && WithDns(free, cfg, Some(s)) <= t && Setting(cfg, s) && !Takes(free, cfg, s, Dns)
    ensures AllApart(Get(cfg.values, Dns), addrs)
  {
    TakesDns(free, cfg, s);
    var dns := Get(cfg.values, Dns);
    hide Setting, Takes, DnsAddrs, Overlap;
    forall i, j | 0 <= i < |dns| && 0 <= j < |addrs| ensures !Overlap(dns[i], addrs[j]) {
      assert dns[i] in WithDns(free, cfg, Some(s));
      assert Clear(t, addrs[j]);
    }
  }

  lemma CacheTaken(own: set<Ip>, taken: (bool, Ip, nat) -> bool, cfg: Config, s: Set)
    requires Setting(cfg, s) && Takes(FreeOn(own, taken), cfg, s, Cache)
    ensures CacheCan(cfg.values, s, own, Takes(FreeOn(own, taken), cfg, s, Dns))
  {
    var free := FreeOn(own, taken);
    FitsBindable(own, taken, WithDns(free, cfg, Some(s)), s[Cache]);
    if !Takes(free, cfg, s, Dns) {
      BesideDns(free, cfg, s, WithDns(free, cfg, Some(s)), s[Cache]);
    }
  }

  lemma SniTaken(own: set<Ip>, taken: (bool, Ip, nat) -> bool, cfg: Config, s: Set)
    requires Setting(cfg, s) && LOOPBACK in own && Takes(FreeOn(own, taken), cfg, s, Sni)
    ensures SniCan(cfg.values, s, own, Takes(FreeOn(own, taken), cfg, s, Dns))
  {
    var free := FreeOn(own, taken);
    var moves := Takes(free, cfg, s, Dns);
    var t := WithCache(free, cfg, Some(s));
    assert Fits(free, t, s[Sni]) && Sni in s;
    FitsBindable(own, taken, t, s[Sni]);
    if !moves {
      BesideDns(free, cfg, s, t, s[Sni]);
    }
    if Cache in s && !CacheCan(cfg.values, s, own, moves) {
      if Takes(free, cfg, s, Cache) {
        CacheTaken(own, taken, cfg, s);
      }
      hide Setting, Fits, Takes, Bindable, CacheCan, AllApart, FreeOn;
      forall i | 0 <= i < |Get(cfg.values, Cache)| ensures !Covered(own, s[Sni], Get(cfg.values, Cache)[i]) {
        NotCacheValue(own, taken, cfg, s, Get(cfg.values, Cache)[i]);
      }
    }
  }

  /** SNI cannot take addresses that cover a value that the cache falls back to. */
  lemma NotCacheValue(own: set<Ip>, taken: (bool, Ip, nat) -> bool, cfg: Config, s: Set, c: Listener)
    requires Setting(cfg, s) && LOOPBACK in own && Cache in s && Sni in s
    requires !Takes(FreeOn(own, taken), cfg, s, Cache) && Takes(FreeOn(own, taken), cfg, s, Sni)
    requires c in Get(cfg.values, Cache)
    ensures !Covered(own, s[Sni], c)
  {
    var free := FreeOn(own, taken);
    var t, u := WithDns(free, cfg, Some(s)), WithCache(free, cfg, Some(s));
    assert Fits(free, u, s[Sni]);
    if Covered(own, s[Sni], c) {
      CoveredIsFree(own, taken, s[Sni], c);
      DnsClearOf(own, taken, cfg, s, c);
      OpenedCovers(free, t, Get(cfg.values, Cache), c);
      TakesRole(free, cfg, s, Cache);
      OpenedIn(free, t, Get(cfg.values, Cache));
      hide Setting, Takes, Overlap, WithDns, OpenedTcp, FreeOn, RoleAddrs, Covered;
      var o :| o in OpenedTcp(free, t, Get(cfg.values, Cache)) && Overlap(o, c);
      assert o in u && free(Socket(false, o));
      FreeIsOfHost(own, taken, Socket(false, o));
      forall k | 0 <= k < |s[Sni]| ensures !Overlap(o, s[Sni][k]) {
        assert Clear(u, s[Sni][k]);
      }
      var _ := MeetsCover(own, s[Sni], c, o);
    }
  }

  lemma CoveredIsFree(own: set<Ip>, taken: (bool, Ip, nat) -> bool, xs: seq<Listener>, a: Listener)
    requires Covered(own, xs, a) && forall i :: 0 <= i < |xs| ==> IsFree(FreeOn(own, taken), xs[i])
    ensures IsFree(FreeOn(own, taken), a)
  {
    FreeCovered(own, taken, false, xs, a);
  }

  /** DNS is not in the way of a value of the cache that saved SNI addresses cover. */
  lemma DnsClearOf(own: set<Ip>, taken: (bool, Ip, nat) -> bool, cfg: Config, s: Set, c: Listener)
    requires Setting(cfg, s) && LOOPBACK in own && Sni in s && c in Get(cfg.values, Cache) && Covered(own, s[Sni], c)
    ensures Clear(WithDns(FreeOn(own, taken), cfg, Some(s)), c)
  {
    var free := FreeOn(own, taken);
    TakesDns(free, cfg, s);
    if Takes(free, cfg, s, Dns) {
      FitsBindable(own, taken, {}, s[Dns]);
      forall h | h in s[Dns] ensures !Overlap(h, c) {
        hide Setting, Takes, Overlap, Covered;
        if Overlap(h, c) {
          var i := MeetsCover(own, s[Sni], c, h);
          EffectiveApart(cfg, s, Dns, Sni, h, s[Sni][i]);
        }
      }
    } else {
      forall h | h in Get(cfg.values, Dns) ensures !Overlap(h, c) {
        ValuesApart(cfg, s, Dns, Cache, h, c);
      }
    }
    hide Setting, Takes, Overlap, Covered, DnsAddrs;
  }

  /** Values of the role that are free have a saved address in their way. */
  lemma ValuesInWay(own: set<Ip>, taken: (bool, Ip, nat) -> bool, cfg: Config, s: Set, r: Role, x: Listener)
    requires Setting(cfg, s) && LOOPBACK in own && WebRole(r) && r in s && s[r] != [] && IsFree(FreeOn(own, taken), x)
    requires RoleAddrs(FreeOn(own, taken), cfg, Some(s), WithSni(FreeOn(own, taken), cfg, Some(s)), r) == []
    ensures AllInWay(cfg.values, s, own, Takes(FreeOn(own, taken), cfg, s, Dns), r, x)
  {
    var free := FreeOn(own, taken);
    var t := WithSni(free, cfg, Some(s));
    NothingBound(free, cfg, s, t, r);
    hide Setting, RoleAddrs, WithSni, Fits, FreeOn, Overlap, Takes, Can, Covered;
    forall i | 0 <= i < |Get(cfg.values, r)| && Covered(own, [x], Get(cfg.values, r)[i])
      ensures InWay(cfg.values, s, own, Takes(free, cfg, s, Dns), Get(cfg.values, r)[i])
    {
      var y := Get(cfg.values, r)[i];
      CoveredIsFree(own, taken, [x], y);
      var h :| h in t && Overlap(h, y);
      var b := InTheWay(free, cfg, s, r, y, h);
      TakenCan(own, taken, cfg, s, b);
      var k :| 0 <= k < |s[b]| && s[b][k] == h;
      assert Can(cfg.values, s, own, Takes(free, cfg, s, Dns), b) && Overlap(Get(s, b)[k], y);
    }
  }

  lemma ReasonHasCondition(own: set<Ip>, taken: (bool, Ip, nat) -> bool, cfg: Config, s: Set)
    requires Setting(cfg, s) && LOOPBACK in own && IsReason(FreeOn(own, taken), cfg, s)
    ensures CanBeReason(cfg.values, s, own)
  {
    var free := FreeOn(own, taken);
    var r, x := ReasonMeans(free, cfg, s);
    var moves := Takes(free, cfg, s, Dns);
    FitsBindable(own, taken, {}, Get(cfg.values, Dns));
    FreeIsOfHost(own, taken, Socket(false, x));
    hide Setting, IsReason, RoleAddrs, WithSni, FitsDns, FreeOn, Bindable, Takes, DnsCan, AllInWay, Opens, Fits;
    MustBeSaved(free, cfg, s, r, x);
    DnsStands(own, taken, cfg, s);
    forall q | WebRole(q) && q in s && s[q] != [] ensures !Opens(cfg.values, own, moves, x, s[q]) {
      if Opens(cfg.values, own, moves, x, s[q]) {
        OpensFits(own, taken, cfg, s, r, x, q);
        NothingBound(free, cfg, s, WithSni(free, cfg, Some(s)), q);
      }
    }
    if s[r] != [] {
      ValuesInWay(own, taken, cfg, s, r, x);
    }
    assert Loses(cfg.values, s, own, moves, r, x);
  }

  // ---- when the condition holds, some host makes the files the reason -----------------------------------

  lemma IsReasonBy(free: Socket -> bool, cfg: Config, s: Set, r: Role, x: Listener)
    requires Setting(cfg, s) && WebRole(r) && x in Get(cfg.values, r) && IsFree(free, x)
    requires FitsDns(free, Get(cfg.values, Dns))
    requires RoleAddrs(free, cfg, Some(s), WithSni(free, cfg, Some(s)), Web) == []
    requires RoleAddrs(free, cfg, Some(s), WithSni(free, cfg, Some(s)), WebTls) == []
    ensures IsReason(free, cfg, s)
  {
    ExitsByAddress(free, cfg, None);
    ExitsByAddress(free, cfg, Some(s));
    var t := WithSni(free, cfg, None);
    assert forall q :: Saved(cfg, None, q) == None;
    hide Exits, Setting, RoleAddrs, WithSni, FitsDns, IsFree, Overlap, Moves, Saved;
    ValueOpens(free, cfg, s, r, x);
  }

  lemma ValueOpens(free: Socket -> bool, cfg: Config, s: Set, r: Role, x: Listener)
    requires Setting(cfg, s) && WebRole(r) && x in Get(cfg.values, r) && IsFree(free, x)
    ensures RoleAddrs(free, cfg, None, WithSni(free, cfg, None), r) != []
  {
    var t := WithSni(free, cfg, None);
    assert Saved(cfg, None, r) == None;
    hide Setting, WithSni, Overlap, OpenedTcp;
    forall h | h in t ensures !Overlap(h, x) {
      var b := HeldValues(free, cfg, h);
      ValuesApart(cfg, s, b, r, h, x);
    }
    OpenedCovers(free, t, Get(cfg.values, r), x);
  }

  /** What is free on the host of the proof: the DNS values, the saved DNS addresses if DNS
      is to take them, x, and the saved addresses that the cache and SNI can take. */
  function ForDns(values: Set, s: Set, moves: bool): seq<Listener> {
    Get(values, Dns) + if moves then Get(s, Dns) else []
  }

  function Left(values: Set, s: Set, own: set<Ip>, moves: bool, x: Listener): seq<Listener> {
    ForDns(values, s, moves) + [x]
    + (if CacheCan(values, s, own, moves) then Get(s, Cache) else [])
    + (if SniCan(values, s, own, moves) then Get(s, Sni) else [])
  }

  /** All else is taken. */
  function Rest(values: Set, s: Set, own: set<Ip>, moves: bool, x: Listener): (bool, Ip, nat) -> bool {
    (udp: bool, ip: Ip, port: nat) => !Reached(if udp then ForDns(values, s, moves) else Left(values, s, own, moves, x), port, ip)
  }

  function Remaining(values: Set, s: Set, own: set<Ip>, moves: bool, x: Listener): Socket -> bool {
    FreeOn(own, Rest(values, s, own, moves, x))
  }

  lemma RemainingIs(values: Set, s: Set, own: set<Ip>, moves: bool, x: Listener, udp: bool, a: Listener)
    ensures Remaining(values, s, own, moves, x)(Socket(udp, a))
       <==> Covered(own, if udp then ForDns(values, s, moves) else Left(values, s, own, moves, x), a)
  {
    hide Reached, Answers;
  }

  lemma CoversItself(own: set<Ip>, xs: seq<Listener>, a: Listener)
    requires OfHost(own, a) && a in xs
    ensures Covered(own, xs, a)
  {
    var i :| 0 <= i < |xs| && xs[i] == a;
    assert forall ip :: Answers(a, ip) ==> At(xs[i], a.port, ip);
  }

  lemma InLeft(values: Set, s: Set, own: set<Ip>, moves: bool, x: Listener, a: Listener)
    ensures a in Left(values, s, own, moves, x)
       <==> || a == x || a in Get(values, Dns) || (moves && a in Get(s, Dns))
            || (CacheCan(values, s, own, moves) && a in Get(s, Cache)) || (SniCan(values, s, own, moves) && a in Get(s, Sni))
    ensures a in ForDns(values, s, moves) <==> a in Get(values, Dns) || (moves && a in Get(s, Dns))
  {
    hide CacheCan, SniCan, Get;
  }

  /** An address that is listed is free. */
  lemma LeftIsFree(values: Set, s: Set, own: set<Ip>, moves: bool, x: Listener, a: Listener)
    requires OfHost(own, a)
    ensures a in Left(values, s, own, moves, x) ==> IsFree(Remaining(values, s, own, moves, x), a)
    ensures a in ForDns(values, s, moves)
            ==> IsFree(Remaining(values, s, own, moves, x), a) && Remaining(values, s, own, moves, x)(Socket(true, a))
  {
    InLeft(values, s, own, moves, x, a);
    RemainingIs(values, s, own, moves, x, true, a);
    RemainingIs(values, s, own, moves, x, false, a);
    hide Left, ForDns, Remaining, Covered;
    if a in ForDns(values, s, moves) {
      CoversItself(own, ForDns(values, s, moves), a);
    }
    if a in Left(values, s, own, moves, x) {
      CoversItself(own, Left(values, s, own, moves, x), a);
    }
  }

  ghost predicate Losing(cfg: Config, s: Set, own: set<Ip>, moves: bool, r: Role, x: Listener) {
    Setting(cfg, s) && LOOPBACK in own && Bindable(own, Get(cfg.values, Dns)) && Loses(cfg.values, s, own, moves, r, x)
  }

  lemma DnsAsWanted(cfg: Config, s: Set, own: set<Ip>, moves: bool, r: Role, x: Listener)
    requires Losing(cfg, s, own, moves, r, x)
    ensures FitsDns(Remaining(cfg.values, s, own, moves, x), Get(cfg.values, Dns))
    ensures Takes(Remaining(cfg.values, s, own, moves, x), cfg, s, Dns) <==> moves
  {
    var free, values := Remaining(cfg.values, s, own, moves, x), cfg.values;
    hide Setting, Remaining, NoneOpens, AllInWay;
    forall a | OfHost(own, a) && (a in Get(values, Dns) || (moves && a in Get(s, Dns))) ensures IsFree(free, a) && free(Socket(true, a)) {
      InLeft(values, s, own, moves, x, a);
      LeftIsFree(values, s, own, moves, x, a);
    }
    if !moves && Takes(free, cfg, s, Dns) {
      forall i | 0 <= i < |s[Dns]| ensures Covered(own, Get(values, Dns), s[Dns][i]) {
        RemainingIs(values, s, own, moves, x, true, s[Dns][i]);
        assert ForDns(values, s, moves) == Get(values, Dns);
      }
    }
  }

  /** What DNS holds then. */
  lemma WantedDns(cfg: Config, s: Set, own: set<Ip>, moves: bool, r: Role, x: Listener)
    requires Losing(cfg, s, own, moves, r, x)
    ensures WithDns(Remaining(cfg.values, s, own, moves, x), cfg, Some(s)) == SetOf(if moves then Get(s, Dns) else Get(cfg.values, Dns))
    ensures moves ==> Dns in s && Bindable(own, s[Dns])
  {
    DnsAsWanted(cfg, s, own, moves, r, x);
    TakesDns(Remaining(cfg.values, s, own, moves, x), cfg, s);
    hide Setting, Takes, Remaining, DnsAddrs, Bindable, NoneOpens, AllInWay, FitsDns, DnsFollows;
  }

  /** Saved addresses beside DNS as it stands then. */
  lemma ClearOfDns(cfg: Config, s: Set, own: set<Ip>, moves: bool, r: Role, x: Listener, q: Role, a: Listener)
    requires Losing(cfg, s, own, moves, r, x) && (q.Cache? || q.Sni?) && q in s && a in s[q]
    requires moves || AllApart(Get(cfg.values, Dns), s[q])
    ensures Clear(WithDns(Remaining(cfg.values, s, own, moves, x), cfg, Some(s)), a)
  {
    WantedDns(cfg, s, own, moves, r, x);
    var t := WithDns(Remaining(cfg.values, s, own, moves, x), cfg, Some(s));
    assert Setting(cfg, s);
    hide Setting, Losing, Remaining, WithDns, Overlap, Bindable;
    forall h | h in t ensures !Overlap(h, a) {
      if moves {
        EffectiveApart(cfg, s, Dns, q, h, a);
      } else {
        var i :| 0 <= i < |Get(cfg.values, Dns)| && Get(cfg.values, Dns)[i] == h;
        var j :| 0 <= j < |s[q]| && s[q][j] == a;
      }
    }
  }

  lemma CacheAsWanted(cfg: Config, s: Set, own: set<Ip>, moves: bool, r: Role, x: Listener)
    requires Losing(cfg, s, own, moves, r, x)
    ensures Takes(Remaining(cfg.values, s, own, moves, x), cfg, s, Cache) <==> CacheCan(cfg.values, s, own, moves)
  {
    var free := Remaining(cfg.values, s, own, moves, x);
    var t := WithDns(free, cfg, Some(s));
    if CacheCan(cfg.values, s, own, moves) {
      forall i | 0 <= i < |s[Cache]| ensures IsFree(free, s[Cache][i]) && Clear(t, s[Cache][i]) {
        InLeft(cfg.values, s, own, moves, x, s[Cache][i]);
        hide Clear, Setting, Overlap, IsFree, Remaining, Left, Losing;
        LeftIsFree(cfg.values, s, own, moves, x, s[Cache][i]);
        ClearOfDns(cfg, s, own, moves, r, x, Cache, s[Cache][i]);
      }
    } else if Takes(free, cfg, s, Cache) {
      CacheTaken(own, Rest(cfg.values, s, own, moves, x), cfg, s);
      DnsAsWanted(cfg, s, own, moves, r, x);
      assert false;
    }
  }

  /** Nothing of the cache stands in the way of SNI. */
  lemma ClearOfCache(cfg: Config, s: Set, own: set<Ip>, moves: bool, r: Role, x: Listener, a: Listener)
    requires Losing(cfg, s, own, moves, r, x) && SniCan(cfg.values, s, own, moves) && a in s[Sni]
    ensures Clear(WithCache(Remaining(cfg.values, s, own, moves, x), cfg, Some(s)), a)
  {
    var free := Remaining(cfg.values, s, own, moves, x);
    var t, u := WithDns(free, cfg, Some(s)), WithCache(free, cfg, Some(s));
    assert Setting(cfg, s);
    ClearOfDns(cfg, s, own, moves, r, x, Sni, a);
    CacheAsWanted(cfg, s, own, moves, r, x);
    TakesRole(free, cfg, s, Cache);
    OpenedIn(free, t, Get(cfg.values, Cache));
    hide Setting, Takes, Losing, OpenedTcp, Overlap, CacheCan, IsFree, Remaining, AllApart, Bindable, Covered;
    forall h | h in u ensures !Overlap(h, a) {
      if h !in t {
        if Takes(free, cfg, s, Cache) {
          TakesSaved(free, cfg, s, Cache);
          EffectiveApart(cfg, s, Cache, Sni, h, a);
        } else if Cache !in s {
          EffectiveApart(cfg, s, Cache, Sni, h, a);
        } else {
          CacheFallsBack(cfg, s, own, moves, r, x, h);
        }
      }
    }
  }

  /** A cache that cannot take its saved addresses opens no value on that host. */
  lemma CacheFallsBack(cfg: Config, s: Set, own: set<Ip>, moves: bool, r: Role, x: Listener, h: Listener)
    requires Losing(cfg, s, own, moves, r, x) && SniCan(cfg.values, s, own, moves)
    requires Cache in s && !CacheCan(cfg.values, s, own, moves) && h in Get(cfg.values, Cache)
    ensures var free := Remaining(cfg.values, s, own, moves, x); !(IsFree(free, h) && Clear(WithDns(free, cfg, Some(s)), h))
  {
    var free := Remaining(cfg.values, s, own, moves, x);
    var list := Left(cfg.values, s, own, moves, x);
    WantedDns(cfg, s, own, moves, r, x);
    RemainingIs(cfg.values, s, own, moves, x, false, h);
    assert Setting(cfg, s) && x in Get(cfg.values, r) && WebRole(r);
    assert !Covered(own, s[Sni], h);
    hide Setting, Losing, Overlap, Remaining, CacheCan, SniCan, Left, WithDns, Bindable;
    if IsFree(free, h) && Clear(WithDns(free, cfg, Some(s)), h) {
      var ip :| ip in own && Answers(h, ip) && !Reached(s[Sni], h.port, ip);
      var i :| 0 <= i < |list| && At(list[i], h.port, ip);
      Shared(list[i], h, h.port, ip);
      InLeft(cfg.values, s, own, moves, x, list[i]);
      if list[i] == x {
        ValuesApart(cfg, s, r, Cache, x, h);
      } else if list[i] in Get(cfg.values, Dns) {
        ValuesApart(cfg, s, Dns, Cache, list[i], h);
      }
    }
  }

  lemma SniAsWanted(cfg: Config, s: Set, own: set<Ip>, moves: bool, r: Role, x: Listener)
    requires Losing(cfg, s, own, moves, r, x) && SniCan(cfg.values, s, own, moves)
    ensures Takes(Remaining(cfg.values, s, own, moves, x), cfg, s, Sni)
  {
    var free := Remaining(cfg.values, s, own, moves, x);
    var t := WithCache(free, cfg, Some(s));
    forall i | 0 <= i < |s[Sni]| ensures IsFree(free, s[Sni][i]) && Clear(t, s[Sni][i]) {
      InLeft(cfg.values, s, own, moves, x, s[Sni][i]);
      hide Clear, Setting, Overlap, WithCache, IsFree, Remaining, Left, Losing, AllApart;
      LeftIsFree(cfg.values, s, own, moves, x, s[Sni][i]);
      ClearOfCache(cfg, s, own, moves, r, x, s[Sni][i]);
    }
  }

  /** Every role that can take its saved addresses does. */
  lemma AllTake(cfg: Config, s: Set, own: set<Ip>, moves: bool, r: Role, x: Listener, b: Role)
    requires Losing(cfg, s, own, moves, r, x) && Can(cfg.values, s, own, moves, b)
    ensures Early(b) && b in s && Takes(Remaining(cfg.values, s, own, moves, x), cfg, s, b)
  {
    hide Losing, Takes, Remaining, SniCan;
    DnsAsWanted(cfg, s, own, moves, r, x);
    CacheAsWanted(cfg, s, own, moves, r, x);
    if b.Sni? {
      SniAsWanted(cfg, s, own, moves, r, x);
      TakesSaved(Remaining(cfg.values, s, own, moves, x), cfg, s, b);
    }
  }

  // Nothing is left for the web roles on that host.

  /** What is listed is in the room of the web roles, or held. */
  lemma ListedHeld(cfg: Config, s: Set, own: set<Ip>, moves: bool, r: Role, x: Listener, l: Listener)
    requires Losing(cfg, s, own, moves, r, x) && l in Left(cfg.values, s, own, moves, x)
    ensures l in Room(cfg.values, moves, x) || l in WithSni(Remaining(cfg.values, s, own, moves, x), cfg, Some(s))
  {
    var free := Remaining(cfg.values, s, own, moves, x);
    InLeft(cfg.values, s, own, moves, x, l);
    if l !in Room(cfg.values, moves, x) {
      var b := if l in Get(cfg.values, Dns) || (moves && l in Get(s, Dns)) then Dns
               else if CacheCan(cfg.values, s, own, moves) && l in Get(s, Cache) then Cache else Sni;
      assert Setting(cfg, s) && Early(b);
      assert if Can(cfg.values, s, own, moves, b) then l in Get(s, b) else b.Dns? && l in Get(cfg.values, Dns);
      hide Setting, Losing, Left, Room, Remaining, CacheCan, SniCan, WithSni, Takes;
      DnsAsWanted(cfg, s, own, moves, r, x);
      if Can(cfg.values, s, own, moves, b) {
        AllTake(cfg, s, own, moves, r, x, b);
      }
      IsHeld(free, cfg, s, b, l);
    }
  }

  /** What is free there and not held is covered by the room. */
  lemma FreeInRoom(cfg: Config, s: Set, own: set<Ip>, moves: bool, r: Role, x: Listener, a: Listener)
    requires Losing(cfg, s, own, moves, r, x)
    requires var free := Remaining(cfg.values, s, own, moves, x); IsFree(free, a) && Clear(WithSni(free, cfg, Some(s)), a)
    ensures Covered(own, Room(cfg.values, moves, x), a)
  {
    var list, room := Left(cfg.values, s, own, moves, x), Room(cfg.values, moves, x);
    RemainingIs(cfg.values, s, own, moves, x, false, a);
    hide Losing, Left, Room, Remaining, WithSni, Overlap;
    forall ip | ip in own && Answers(a, ip) ensures Reached(room, a.port, ip) {
      var i :| 0 <= i < |list| && At(list[i], a.port, ip);
      Shared(list[i], a, a.port, ip);
      ListedHeld(cfg, s, own, moves, r, x, list[i]);
      var k :| 0 <= k < |room| && room[k] == list[i];
    }
  }

  /** A value that overlaps neither x nor a DNS value is not covered by the room. */
  lemma NotInRoom(own: set<Ip>, values: Set, moves: bool, x: Listener, y: Listener)
    requires LOOPBACK in own && OfHost(own, y) && !Overlap(y, x) && forall d <- Get(values, Dns) :: !Overlap(y, d)
    ensures !Covered(own, Room(values, moves, x), y)
  {
    OverlapsItself(y);
    hide Overlap, Covered, Room;
    if Covered(own, Room(values, moves, x), y) {
      var i := MeetsCover(own, Room(values, moves, x), y, y);
      RoomMember(values, moves, x, i);
    }
  }

  /** Without the DNS values x alone covers it. */
  lemma OnlyX(own: set<Ip>, values: Set, moves: bool, x: Listener, y: Listener)
    requires Covered(own, Room(values, moves, x), y) && forall d <- Get(values, Dns) :: !Overlap(d, y)
    ensures Covered(own, [x], y)
  {
    hide Overlap, Answers;
    var room := Room(values, moves, x);
    forall ip | ip in own && Answers(y, ip) ensures Reached([x], y.port, ip) {
      var i :| 0 <= i < |room| && At(room[i], y.port, ip);
      RoomMember(values, moves, x, i);
      Shared(room[i], y, y.port, ip);
      assert room[i] == [x][0];
    }
  }

  lemma SavedFail(cfg: Config, s: Set, own: set<Ip>, moves: bool, r: Role, x: Listener, q: Role)
    requires Losing(cfg, s, own, moves, r, x) && WebRole(q) && q in s && s[q] != []
    ensures var free := Remaining(cfg.values, s, own, moves, x); !Fits(free, WithSni(free, cfg, Some(s)), s[q])
  {
    var free := Remaining(cfg.values, s, own, moves, x);
    assert !Opens(cfg.values, own, moves, x, s[q]);
    if Fits(free, WithSni(free, cfg, Some(s)), s[q]) {
      hide Losing, Remaining, WithSni, Room, Clear, IsFree, Covered;
      forall i | 0 <= i < |s[q]| ensures Covered(own, Room(cfg.values, moves, x), s[q][i]) {
        FreeInRoom(cfg, s, own, moves, r, x, s[q][i]);
      }
    }
  }

  lemma ValueFails(cfg: Config, s: Set, own: set<Ip>, moves: bool, r: Role, x: Listener, q: Role, y: Listener)
    requires Losing(cfg, s, own, moves, r, x) && WebRole(q) && y in Get(cfg.values, q) && (q == r ==> s[r] != [])
    ensures var free := Remaining(cfg.values, s, own, moves, x); !(IsFree(free, y) && Clear(WithSni(free, cfg, Some(s)), y))
  {
    var free, values := Remaining(cfg.values, s, own, moves, x), cfg.values;
    var t := WithSni(free, cfg, Some(s));
    assert Setting(cfg, s) && LOOPBACK in own && WebRole(r) && x in Get(values, r);
    assert q == r ==> AllInWay(values, s, own, moves, r, x);
    hide Setting, Losing, Remaining, WithSni, Clear, IsFree, Overlap, Covered, InWay, Room;
    if IsFree(free, y) && Clear(t, y) {
      FreeInRoom(cfg, s, own, moves, r, x, y);
      forall d | d in Get(values, Dns) ensures !Overlap(d, y) && !Overlap(y, d) {
        ValuesApart(cfg, s, Dns, q, d, y);
      }
      if q == r {
        OnlyX(own, values, moves, x, y);
        var i :| 0 <= i < |Get(values, r)| && Get(values, r)[i] == y;
        InWayHeld(cfg, s, own, moves, r, x, y);
      } else {
        ValuesApart(cfg, s, q, r, y, x);
        CoveredOfHost(own, Room(values, moves, x), y);
        NotInRoom(own, values, moves, x, y);
      }
    }
  }

  lemma CoveredOfHost(own: set<Ip>, xs: seq<Listener>, a: Listener)
    requires Covered(own, xs, a)
    ensures OfHost(own, a)
  {
  }

  lemma InWayHeld(cfg: Config, s: Set, own: set<Ip>, moves: bool, r: Role, x: Listener, y: Listener)
    requires Losing(cfg, s, own, moves, r, x) && InWay(cfg.values, s, own, moves, y)
    ensures !Clear(WithSni(Remaining(cfg.values, s, own, moves, x), cfg, Some(s)), y)
  {
    var free := Remaining(cfg.values, s, own, moves, x);
    var b, i :| Can(cfg.values, s, own, moves, b) && 0 <= i < |Get(s, b)| && Overlap(Get(s, b)[i], y);
    assert Setting(cfg, s);
    hide Setting, Losing, Remaining, WithSni, Takes, Can, Overlap;
    AllTake(cfg, s, own, moves, r, x, b);
    IsHeld(free, cfg, s, b, s[b][i]);
  }

  lemma BindsNothing(cfg: Config, s: Set, own: set<Ip>, moves: bool, r: Role, x: Listener, q: Role)
    requires Losing(cfg, s, own, moves, r, x) && WebRole(q)
    ensures var free := Remaining(cfg.values, s, own, moves, x); RoleAddrs(free, cfg, Some(s), WithSni(free, cfg, Some(s)), q) == []
  {
    var free := Remaining(cfg.values, s, own, moves, x);
    var t := WithSni(free, cfg, Some(s));
    assert Setting(cfg, s) && r in s;
    NothingBound(free, cfg, s, t, q);
    if q in s && s[q] == [] {
      assert Fits(free, t, s[q]);
    }
    hide Setting, Losing, Remaining, WithSni, RoleAddrs, Fits, IsFree, Clear;
    if !(q in s && s[q] == []) {
      if q in s {
        SavedFail(cfg, s, own, moves, r, x, q);
      }
      forall a | a in Get(cfg.values, q) ensures !(IsFree(free, a) && Clear(t, a)) {
        ValueFails(cfg, s, own, moves, r, x, q, a);
      }
    }
  }

  lemma LosingIsReason(cfg: Config, s: Set, own: set<Ip>, moves: bool, r: Role, x: Listener)
    requires Losing(cfg, s, own, moves, r, x)
    ensures IsReason(FreeOn(own, Rest(cfg.values, s, own, moves, x)), cfg, s)
  {
    var free := Remaining(cfg.values, s, own, moves, x);
    assert Setting(cfg, s) && WebRole(r) && x in Get(cfg.values, r) && OfHost(own, x);
    InLeft(cfg.values, s, own, moves, x, x);
    hide Setting, Losing, RoleAddrs, WithSni, IsReason, FitsDns, FreeOn, IsFree, Left;
    LeftIsFree(cfg.values, s, own, moves, x, x);
    DnsAsWanted(cfg, s, own, moves, r, x);
    BindsNothing(cfg, s, own, moves, r, x, Web);
    BindsNothing(cfg, s, own, moves, r, x, WebTls);
    IsReasonBy(free, cfg, s, r, x);
  }

  /** For every saved set that keeps the rules and every host whose own values do not
      clash: some state of the host's other programs makes a start exit with the saved
      set that would not exit without it, exactly when the condition holds. */
  lemma FilesAreReasonExactly(cfg: Config, s: Set, own: set<Ip>)
    requires Setting(cfg, s) && LOOPBACK in own
    ensures (exists taken :: IsReason(FreeOn(own, taken), cfg, s)) <==> CanBeReason(cfg.values, s, own)
  {
    if taken :| IsReason(FreeOn(own, taken), cfg, s) {
      ReasonHasCondition(own, taken, cfg, s);
    }
    if CanBeReason(cfg.values, s, own) {
      var moves, r, x :| Loses(cfg.values, s, own, moves, r, x);
      hide Setting, IsReason, Loses, Bindable, FreeOn;
      LosingIsReason(cfg, s, own, moves, r, x);
    }
  }

  /** The web UI switched off, with https on the loopback address of its port. */
  const ON_LOOPBACK: Set := map[Web := [], WebTls := [On(LOOPBACK, 8080)]]

  /** Such a set is not the reason on any host: where the port of the web UI's value is
      free, so is the loopback address. */
  lemma OnLoopbackIsSafe(own: set<Ip>, taken: (bool, Ip, nat) -> bool)
    requires LOOPBACK in own
    ensures Setting(CONFIG, ON_LOOPBACK) && !IsReason(FreeOn(own, taken), CONFIG, ON_LOOPBACK)
  {
    OnLoopbackSetting();
    hide Setting, IsReason, DnsCan, Opens, OfHost;
    if IsReason(FreeOn(own, taken), CONFIG, ON_LOOPBACK) {
      FilesAreReasonExactly(CONFIG, ON_LOOPBACK, own);
      var moves, r, x :| Loses(VALUES, ON_LOOPBACK, own, moves, r, x);
      assert r == Web && x == Every(8080) && WebRole(WebTls);
      LoopbackOpens(own, moves);
    }
  }

  lemma LoopbackOpens(own: set<Ip>, moves: bool)
    requires LOOPBACK in own
    ensures Opens(VALUES, own, moves, Every(8080), [On(LOOPBACK, 8080)])
  {
    var room := Room(VALUES, moves, Every(8080));
    var last := |room| - 1;
    assert forall ip :: At(room[last], 8080, ip);
  }

  function PortOf(r: Role): nat {
    if r.Dns? then 53 else if r.Cache? then 80 else 8080
  }

  lemma OnLoopbackSetting()
    ensures Setting(CONFIG, ON_LOOPBACK)
  {
    var e := EffectiveSet(ON_LOOPBACK, VALUES);
    OnLoopbackRoles();
    assert forall r :: Get(VALUES, r) == if r.Dns? || r.Cache? || r.Web? then [Every(PortOf(r))] else [];
    assert ValidFile(ON_LOOPBACK);
    hide Get, EffectiveSet, ValidFile;
    PortsApart(e);
    PortsApart(VALUES);
  }

  lemma OnLoopbackRoles()
    ensures forall r :: Get(EffectiveSet(ON_LOOPBACK, VALUES), r)
                        == if r.Dns? || r.Cache? then [Every(PortOf(r))] else if r.WebTls? then [On(LOOPBACK, 8080)] else []
  {
  }

  /** Roles on different ports do not clash. */
  lemma PortsApart(e: Set)
    requires forall r, x :: x in Get(e, r) ==> !x.Bad? && x.port == PortOf(r) && (r.Dns? || r.Cache? || WebRole(r))
    requires Get(e, Web) == [] || Get(e, WebTls) == []
    ensures NoClash(e, TCP_ROLES)
  {
    hide Get;
    forall q, r, x, y | q != r && x in Get(e, q) && y in Get(e, r) ensures !Overlap(x, y) {
    }
    hide Overlap;
    forall i, j | 0 <= i < j < |TCP_ROLES| ensures Apart(Get(e, TCP_ROLES[j]), Get(e, TCP_ROLES[i])) {
    }
  }

  /** An accepted set is one of these. */
  lemma AcceptedSetting(cfg: Config, s: Set, own: set<Ip>, local: Option<Ip>)
    requires Acceptable(s, Host(cfg.values, cfg.locked, own), local) && NoClash(cfg.values, TCP_ROLES)
    ensures Setting(cfg, s)
  {
  }

  /** A set that leaves both web roles as they are is never the reason. */
  lemma OtherRolesAreSafe(cfg: Config, s: Set, free: Socket -> bool)
    requires Setting(cfg, s) && Web !in s && WebTls !in s
    ensures !IsReason(free, cfg, s)
  {
    if IsReason(free, cfg, s) {
      var r, x := ReasonMeans(free, cfg, s);
      hide Setting, IsReason, RoleAddrs, WithSni, FitsDns, IsFree;
      MustBeSaved(free, cfg, s, r, x);
    }
  }
}
