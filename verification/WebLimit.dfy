/**
 The connection limiter of the web listeners: three counters under one mutex,
 against the set of connections that are open. The ghost map `open` holds the
 address of every open connection under a ticket of its own.
 */
module WebLimit {
  import opened Wrappers

  datatype Addr = V4(bits: nat) | V6(bits: nat)

  datatype Prefix = Prefix(addr: nat, bits: nat)

  datatype Caps = Caps(perClient: nat, perNetwork: nat, total: nat, loopback: nat)

  /** What the limiter is told about addresses; clientKey is None for an address
      without a key. */
  datatype Peers = Peers(isLoopback: Addr -> bool, exempt: Addr -> bool, clientKey: Addr -> Option<Prefix>)

  /** The prefixes under which a connection is counted, None where it is not. */
  datatype Slot = Slot(key: Option<Prefix>, net: Option<Prefix>)

  const SIXTY_FOUR_BITS: nat := 0x1_0000_0000_0000_0000

  function Net64(key: Prefix): Prefix {
    Prefix(key.addr / SIXTY_FOUR_BITS * SIXTY_FOUR_BITS, 64)
  }

  function SlotOf(peers: Peers, ip: Addr): Slot {
    if peers.isLoopback(ip) || peers.exempt(ip) then Slot(None, None)
    else
      var key := peers.clientKey(ip);
      Slot(key, if key.Some? && key.value.bits == 128 then Some(Net64(key.value)) else None)
  }

  /** An open connection: its address, whether it is from this machine, and its slot. */
  datatype Entry = Entry(ip: Addr, local: bool, slot: Slot) {
    predicate Valid() {
      && (local ==> slot.key.None?)
      && slot.net == (if slot.key.Some? && slot.key.value.bits == 128 then Some(Net64(slot.key.value)) else None)
    }
  }

  function EntryOf(peers: Peers, ip: Addr): (e: Entry)
    ensures e.Valid()
  {
    Entry(ip, peers.isLoopback(ip), SlotOf(peers, ip))
  }

  // ---- the open connections --------------------------------------------------------

  type Open = map<nat, Entry>

  /** Which of the two maps: per client key or per /64. */
  datatype Index = ByKey | ByNet

  function Field(s: Slot, ix: Index): Option<Prefix> {
    if ix.ByKey? then s.key else s.net
  }

  ghost function Of(open: Open, ix: Index, p: Prefix): set<nat> {
    set t | t in open && Field(open[t].slot, ix) == Some(p)
  }

  ghost function Local(open: Open): set<nat> {
    set t | t in open && open[t].local
  }

  ghost function Remote(open: Open): set<nat> {
    set t | t in open && !open[t].local
  }

  /** m counts the connections of every prefix and keeps no zero entries. */
  ghost predicate Counts(m: map<Prefix, int>, open: Open, ix: Index) {
    forall p :: (p in m <==> Of(open, ix, p) != {}) && (p in m ==> m[p] == |Of(open, ix, p)|)
  }

  function Count(m: map<Prefix, int>, k: Option<Prefix>): int {
    if k.Some? && k.value in m then m[k.value] else 0
  }

  function Incremented(m: map<Prefix, int>, k: Option<Prefix>): map<Prefix, int> {
    if k.Some? then m[k.value := Count(m, k) + 1] else m
  }

  function Decremented(m: map<Prefix, int>, k: Option<Prefix>): map<Prefix, int> {
    if k.None? then m
    else if Count(m, k) - 1 > 0 then m[k.value := Count(m, k) - 1]
    else m - {k.value}
  }

  lemma OfAdded(open: Open, ix: Index, t: nat, e: Entry, p: Prefix)
    requires t !in open
    ensures Of(open[t := e], ix, p) == if Field(e.slot, ix) == Some(p) then Of(open, ix, p) + {t} else Of(open, ix, p)
    ensures t !in Of(open, ix, p)
  {
  }

  lemma CountsAdded(m: map<Prefix, int>, open: Open, ix: Index, t: nat, e: Entry)
    requires Counts(m, open, ix) && t !in open
    ensures Counts(Incremented(m, Field(e.slot, ix)), open[t := e], ix)
  {
    var m', open' := Incremented(m, Field(e.slot, ix)), open[t := e];
    forall p ensures (p in m' <==> Of(open', ix, p) != {}) && (p in m' ==> m'[p] == |Of(open', ix, p)|) {
      OfAdded(open, ix, t, e, p);
    }
  }

  lemma OfRemoved(open: Open, ix: Index, t: nat, p: Prefix)
    requires t in open
    ensures Of(open - {t}, ix, p) == Of(open, ix, p) - {t}
    ensures t in Of(open, ix, p) <==> Field(open[t].slot, ix) == Some(p)
    ensures t in Of(open, ix, p) ==> |Of(open - {t}, ix, p)| == |Of(open, ix, p)| - 1
  {
  }

  lemma CountsRemoved(m: map<Prefix, int>, open: Open, ix: Index, t: nat)
    requires Counts(m, open, ix) && t in open
    ensures Counts(Decremented(m, Field(open[t].slot, ix)), open - {t}, ix)
  {
    var m', open' := Decremented(m, Field(open[t].slot, ix)), open - {t};
    forall p ensures (p in m' <==> Of(open', ix, p) != {}) && (p in m' ==> m'[p] == |Of(open', ix, p)|) {
      OfRemoved(open, ix, t, p);
      assert t !in Of(open, ix, p) ==> Of(open', ix, p) == Of(open, ix, p);
    }
  }

  method Decrement(m: map<Prefix, int>, k: Option<Prefix>) returns (m': map<Prefix, int>)
    ensures m' == Decremented(m, k)
  {
    if k.None? {
      return m;
    }
    var n := (if k.value in m then m[k.value] else 0) - 1;
    if n > 0 {
      m' := m[k.value := n];
    } else {
      m' := m - {k.value};
    }
  }

  // ---- the limiter --------------------------------------------------------------------

  /** The three counters agree with the open connections. */
  ghost predicate Agrees(open: Open, active: int, per: map<Prefix, int>, nets: map<Prefix, int>) {
    && active == |open|
    && Counts(per, open, ByKey)
    && Counts(nets, open, ByNet)
  }

  ghost predicate AtMost(open: Open, ix: Index, cap: nat) {
    forall p :: |Of(open, ix, p)| <= cap
  }

  /** No cap is passed; the network never holds more than the total. */
  ghost predicate WithinCaps(caps: Caps, open: Open) {
    && AtMost(open, ByKey, caps.perClient)
    && AtMost(open, ByNet, caps.perNetwork)
    && |Remote(open)| <= caps.total
    && |open| <= caps.total + caps.loopback
    && forall t :: t in open ==> open[t].Valid()
  }

  /** Each connection is counted as its address asks for. */
  ghost predicate OfPeers(peers: Peers, open: Open) {
    forall t :: t in open ==> open[t] == EntryOf(peers, open[t].ip)
  }

  ghost predicate Good(peers: Peers, caps: Caps, open: Open, active: int, per: map<Prefix, int>, nets: map<Prefix, int>) {
    Agrees(open, active, per, nets) && WithinCaps(caps, open) && OfPeers(peers, open)
  }

  lemma Split(open: Open)
    ensures |open| == |Local(open)| + |Remote(open)|
  {
    assert Local(open) + Remote(open) == open.Keys;
    assert Local(open) * Remote(open) == {};
  }

  /** The test of acquire. */
  predicate Full(caps: Caps, e: Entry, active: int, per: map<Prefix, int>, nets: map<Prefix, int>) {
    || active >= caps.total + (if e.local then caps.loopback else 0)
    || (e.slot.key.Some? && Count(per, e.slot.key) >= caps.perClient)
    || (e.slot.net.Some? && Count(nets, e.slot.net) >= caps.perNetwork)
  }

  /** What the test means for the open connections. */
  ghost predicate NoRoom(caps: Caps, e: Entry, open: Open) {
    || |open| >= caps.total + (if e.local then caps.loopback else 0)
    || (e.slot.key.Some? && |Of(open, ByKey, e.slot.key.value)| >= caps.perClient)
    || (e.slot.net.Some? && |Of(open, ByNet, e.slot.net.value)| >= caps.perNetwork)
  }

  lemma FullMeansNoRoom(caps: Caps, e: Entry, open: Open, active: int, per: map<Prefix, int>, nets: map<Prefix, int>)
    requires Agrees(open, active, per, nets)
    ensures Full(caps, e, active, per, nets) <==> NoRoom(caps, e, open)
  {
    CountIs(per, open, ByKey, e.slot.key);
    CountIs(nets, open, ByNet, e.slot.net);
  }

  lemma CountIs(m: map<Prefix, int>, open: Open, ix: Index, p: Option<Prefix>)
    requires Counts(m, open, ix)
    ensures p.Some? ==> Count(m, p) == |Of(open, ix, p.value)|
  {
  }

  /** A connection of this machine is admitted while fewer than the reserve of
      them are open, however many connections the network holds. */
  lemma {:induction false} ReserveIsKept(caps: Caps, e: Entry, open: Open)
    requires WithinCaps(caps, open)
    requires e.Valid() && e.local && |Local(open)| < caps.loopback
    ensures !NoRoom(caps, e, open)
  {
    Split(open);
  }

  lemma OneMoreOf(open: Open, ix: Index, t: nat, e: Entry, cap: nat)
    requires t !in open && AtMost(open, ix, cap)
    requires Field(e.slot, ix).Some? ==> |Of(open, ix, Field(e.slot, ix).value)| < cap
    ensures AtMost(open[t := e], ix, cap)
  {
    var open' := open[t := e];
    forall p ensures |Of(open', ix, p)| <= cap {
      OfAdded(open, ix, t, e, p);
    }
  }

  lemma {:induction false} AdmittedWithinCaps(caps: Caps, open: Open, t: nat, e: Entry)
    requires WithinCaps(caps, open) && t !in open && e.Valid()
    requires !NoRoom(caps, e, open)
    ensures WithinCaps(caps, open[t := e])
  {
    OneMoreOf(open, ByKey, t, e, caps.perClient);
    OneMoreOf(open, ByNet, t, e, caps.perNetwork);
    RemoteAdded(open, t, e);
    Split(open);
  }

  lemma RemoteAdded(open: Open, t: nat, e: Entry)
    requires t !in open
    ensures |open[t := e]| == |open| + 1
    ensures |Remote(open[t := e])| == if e.local then |Remote(open)| else |Remote(open)| + 1
  {
    assert open[t := e].Keys == open.Keys + {t};
    assert Remote(open[t := e]) == if e.local then Remote(open) else Remote(open) + {t};
  }

  lemma Admitted(peers: Peers, caps: Caps, open: Open, active: int, per: map<Prefix, int>, nets: map<Prefix, int>, t: nat, e: Entry)
    requires Good(peers, caps, open, active, per, nets) && t !in open && e == EntryOf(peers, e.ip)
    ensures Full(caps, e, active, per, nets) <==> NoRoom(caps, e, open)
    ensures !NoRoom(caps, e, open) ==>
              Good(peers, caps, open[t := e], active + 1, Incremented(per, e.slot.key), Incremented(nets, e.slot.net))
  {
    FullMeansNoRoom(caps, e, open, active, per, nets);
    AdmittedAgrees(open, active, per, nets, t, e);
    if !NoRoom(caps, e, open) {
      AdmittedWithinCaps(caps, open, t, e);
    }
  }

  lemma Released(peers: Peers, caps: Caps, open: Open, active: int, per: map<Prefix, int>, nets: map<Prefix, int>, t: nat)
    requires Good(peers, caps, open, active, per, nets) && t in open
    ensures var s := open[t].slot;
            Good(peers, caps, open - {t}, active - 1, Decremented(per, s.key), Decremented(nets, s.net))
  {
    ReleasedAgrees(open, active, per, nets, t);
    ReleasedWithinCaps(caps, open, t);
  }

  lemma {:induction false} AdmittedAgrees(open: Open, active: int, per: map<Prefix, int>, nets: map<Prefix, int>, t: nat, e: Entry)
    requires Agrees(open, active, per, nets) && t !in open
    ensures Agrees(open[t := e], active + 1, Incremented(per, e.slot.key), Incremented(nets, e.slot.net))
  {
    CountsAdded(per, open, ByKey, t, e);
    CountsAdded(nets, open, ByNet, t, e);
    assert open[t := e].Keys == open.Keys + {t};
  }

  lemma ReleasedWithinCaps(caps: Caps, open: Open, t: nat)
    requires WithinCaps(caps, open) && t in open
    ensures WithinCaps(caps, open - {t})
  {
    var open' := open - {t};
    FewerOf(open, ByKey, t, caps.perClient);
    FewerOf(open, ByNet, t, caps.perNetwork);
    Fewer(Remote(open'), Remote(open));
    Fewer(open'.Keys, open.Keys);
  }

  lemma FewerOf(open: Open, ix: Index, t: nat, cap: nat)
    requires AtMost(open, ix, cap) && t in open
    ensures AtMost(open - {t}, ix, cap)
  {
    var open' := open - {t};
    forall p ensures |Of(open', ix, p)| <= cap {
      OfRemoved(open, ix, t, p);
      Fewer(Of(open', ix, p), Of(open, ix, p));
    }
  }

  lemma {:induction false} Fewer(a: set<nat>, b: set<nat>)
    requires a <= b
    ensures |a| <= |b|
  {
    assert b == a + (b - a);
    assert |b| == |a| + |b - a|;
  }

  lemma {:induction false} ReleasedAgrees(open: Open, active: int, per: map<Prefix, int>, nets: map<Prefix, int>, t: nat)
    requires Agrees(open, active, per, nets) && t in open
    ensures var s := open[t].slot; Agrees(open - {t}, active - 1, Decremented(per, s.key), Decremented(nets, s.net))
  {
    CountsRemoved(per, open, ByKey, t);
    CountsRemoved(nets, open, ByNet, t);
    assert (open - {t}).Keys == open.Keys - {t};
  }

  // ---- the caps by the addresses that are connected -------------------------------------------

  type Addrs = map<nat, Addr>

  /** The addresses of the open connections. */
  ghost function AddrsOf(open: Open): Addrs {
    map t | t in open :: open[t].ip
  }

  /** Neither this machine nor a trusted proxy. */
  predicate Counted(peers: Peers, ip: Addr) {
    !peers.isLoopback(ip) && !peers.exempt(ip)
  }

  /** The connections of other clients with this key. */
  ghost function WithKey(peers: Peers, addrs: Addrs, key: Prefix): set<nat> {
    set t | t in addrs && Counted(peers, addrs[t]) && peers.clientKey(addrs[t]) == Some(key)
  }

  /** The connections of other clients with a /128 key in the same /64. */
  ghost function InNetwork(peers: Peers, addrs: Addrs, key: Prefix): set<nat> {
    set t | t in addrs && Counted(peers, addrs[t]) && InSame64(peers.clientKey(addrs[t]), key)
  }

  predicate InSame64(k: Option<Prefix>, key: Prefix) {
    k.Some? && k.value.bits == 128 && k.value.addr / 0x1_0000_0000_0000_0000 == key.addr / 0x1_0000_0000_0000_0000
  }

  /** A connection from ip passes a cap: this machine may use the reserve and
      counts for no client, a trusted proxy counts for no client, and any other address
      counts for its key and, when the key is one address, for its /64. */
  ghost predicate Refused(caps: Caps, peers: Peers, addrs: Addrs, ip: Addr) {
    if peers.isLoopback(ip) then |addrs| >= caps.total + caps.loopback
    else if peers.exempt(ip) then |addrs| >= caps.total
    else
      || |addrs| >= caps.total
      || (peers.clientKey(ip).Some?
          && var key := peers.clientKey(ip).value;
             || |WithKey(peers, addrs, key)| >= caps.perClient
             || (key.bits == 128 && |InNetwork(peers, addrs, key)| >= caps.perNetwork))
  }

  lemma SameCount(open: Open)
    ensures |AddrsOf(open)| == |open|
  {
    assert AddrsOf(open).Keys == open.Keys;
    assert |AddrsOf(open)| == |AddrsOf(open).Keys| && |open| == |open.Keys|;
  }

  lemma SameKeyed(peers: Peers, open: Open, key: Prefix)
    requires OfPeers(peers, open)
    ensures Of(open, ByKey, key) == WithKey(peers, AddrsOf(open), key)
  {
  }

  lemma SameNetworked(peers: Peers, open: Open, key: Prefix)
    requires OfPeers(peers, open)
    ensures Of(open, ByNet, Net64(key)) == InNetwork(peers, AddrsOf(open), key)
  {
    forall t | t in open ensures t in Of(open, ByNet, Net64(key)) <==> t in InNetwork(peers, AddrsOf(open), key) {
      if peers.clientKey(open[t].ip).Some? {
        SameNet(peers.clientKey(open[t].ip).value, key);
      }
      hide Net64;
    }
  }

  lemma {:induction false} NoRoomMeans(caps: Caps, peers: Peers, open: Open, ip: Addr)
    requires OfPeers(peers, open)
    ensures NoRoom(caps, EntryOf(peers, ip), open) <==> Refused(caps, peers, AddrsOf(open), ip)
  {
    SameCount(open);
    if peers.clientKey(ip).Some? {
      SameKeyed(peers, open, peers.clientKey(ip).value);
      SameNetworked(peers, open, peers.clientKey(ip).value);
    }
    hide Of, WithKey, InNetwork, AddrsOf, OfPeers, Net64;
  }

  lemma AskedBy(peers: Peers, caps: Caps, open: Open, active: int, per: map<Prefix, int>, nets: map<Prefix, int>, ip: Addr)
    requires Good(peers, caps, open, active, per, nets)
    ensures NoRoom(caps, EntryOf(peers, ip), open) <==> Refused(caps, peers, AddrsOf(open), ip)
  {
    NoRoomMeans(caps, peers, open, ip);
  }

  lemma SameNet(a: Prefix, b: Prefix)
    ensures Net64(a) == Net64(b) <==> a.addr / 0x1_0000_0000_0000_0000 == b.addr / 0x1_0000_0000_0000_0000
    ensures Net64(a).bits == 64
  {
  }

  // ---- the /64 of the /128 keys -----------------------------------------------------------

  ghost function Sum(ks: set<Prefix>, m: map<Prefix, int>): int {
    if ks == {} then 0
    else
      var k :| k in ks;
      Count(m, Some(k)) + Sum(ks - {k}, m)
  }

  lemma {:induction false} SumTake(ks: set<Prefix>, m: map<Prefix, int>, k: Prefix)
    requires k in ks
    ensures Sum(ks, m) == Count(m, Some(k)) + Sum(ks - {k}, m)
    decreases ks
  {
    var x :| x in ks && Sum(ks, m) == Count(m, Some(x)) + Sum(ks - {x}, m);
    if x != k {
      SumTake(ks - {x}, m, k);
      SumTake(ks - {k}, m, x);
      assert ks - {x} - {k} == ks - {k} - {x};
    }
  }

  /** The connections whose key is one of ks. */
  ghost function OfKeys(open: Open, ks: set<Prefix>): set<nat> {
    set t | t in open && open[t].slot.key.Some? && open[t].slot.key.value in ks
  }

  lemma {:induction false} SumIsConnections(open: Open, per: map<Prefix, int>, ks: set<Prefix>)
    requires Counts(per, open, ByKey)
    ensures Sum(ks, per) == |OfKeys(open, ks)|
    decreases ks
  {
    if ks == {} {
      assert OfKeys(open, ks) == {};
    } else {
      var k :| k in ks;
      SumTake(ks, per, k);
      SumIsConnections(open, per, ks - {k});
      CountIs(per, open, ByKey, Some(k));
      assert OfKeys(open, ks) == OfKeys(open, ks - {k}) + Of(open, ByKey, k);
      assert OfKeys(open, ks - {k}) * Of(open, ByKey, k) == {};
    }
  }

  ghost function KeysUnder(per: map<Prefix, int>, n: Prefix): set<Prefix> {
    set k | k in per && k.bits == 128 && Net64(k) == n
  }

  /** The count of a /64 is the sum of the counts of its /128 keys. */
  lemma {:induction false} NetworkIsSumOfKeys(caps: Caps, open: Open, active: int, per: map<Prefix, int>, nets: map<Prefix, int>, n: Prefix)
    requires Agrees(open, active, per, nets) && WithinCaps(caps, open)
    ensures Count(nets, Some(n)) == Sum(KeysUnder(per, n), per)
  {
    var ks := KeysUnder(per, n);
    SumIsConnections(open, per, ks);
    CountIs(nets, open, ByNet, Some(n));
    forall t | t in Of(open, ByNet, n) ensures t in OfKeys(open, ks) {
      var k := open[t].slot.key.value;
      assert t in Of(open, ByKey, k);
      assert k in per;
    }
    assert Of(open, ByNet, n) == OfKeys(open, ks);
  }

  // ---- the code --------------------------------------------------------------------------------

  class WebLimiter {
    const peers: Peers
    const caps: Caps
    var active: int
    var per: map<Prefix, int>
    var nets: map<Prefix, int>
    ghost var open: Open
    ghost var tickets: nat
    ghost var conns: set<WebLimitConn>

    /** The counters agree with the open connections, which are the connections
        handed out and not closed yet. */
    ghost predicate Valid()
      reads this, conns
    {
      && Good(peers, caps, open, active, per, nets)
      && (forall t :: t in open ==> t < tickets)
      && (forall c :: c in conns ==> c.l == this && c.ticket < tickets)
      && (forall c :: c in conns ==> (c.closed <==> c.ticket !in open))
      && (forall c :: c in conns && !c.closed ==> open[c.ticket].slot == c.slot)
      && (forall c, d :: c in conns && d in conns && c.ticket == d.ticket ==> c == d)
    }

    constructor (peers: Peers, caps: Caps)
      ensures Valid() && open == map[] && conns == {}
      ensures this.peers == peers && this.caps == caps
    {
      this.peers, this.caps := peers, caps;
      active, per, nets := 0, map[], map[];
      open, tickets, conns := map[], 0, {};
      new;
      forall ix, p ensures Of(open, ix, p) == {} {}
      assert Remote(open) == {};
    }

    /** Admits and counts a connection from ip, or leaves everything as it is when one
        of the caps allows no more. */
    method Acquire(ip: Addr) returns (s: Slot, ok: bool)
      requires Good(peers, caps, open, active, per, nets) && tickets !in open
      modifies this`active, this`per, this`nets, this`open
      ensures Good(peers, caps, open, active, per, nets)
      ensures ok <==> !Refused(caps, peers, AddrsOf(old(open)), ip)
      ensures ok ==> s == SlotOf(peers, ip) && open == old(open)[tickets := EntryOf(peers, ip)]
      ensures !ok ==> open == old(open) && active == old(active) && per == old(per) && nets == old(nets)
    {
      hide Good, NoRoom, Net64, Refused, AddrsOf;
      AskedBy(peers, caps, open, active, per, nets, ip);
      var limit := caps.total;
      s := Slot(None, None);
      if peers.isLoopback(ip) {
        limit := limit + caps.loopback;
      } else if !peers.exempt(ip) {
        s := s.(key := peers.clientKey(ip));
        if s.key.Some? && s.key.value.bits == 128 {
          s := s.(net := Some(Net64(s.key.value)));
        }
      }
      ghost var e := EntryOf(peers, ip);
      assert s == e.slot && limit == caps.total + (if e.local then caps.loopback else 0);
      Admitted(peers, caps, open, active, per, nets, tickets, e);
      if active >= limit || (s.key.Some? && Count(per, s.key) >= caps.perClient)
         || (s.net.Some? && Count(nets, s.net) >= caps.perNetwork) {
        return Slot(None, None), false;
      }
      active := active + 1;
      if s.key.Some? {
        per := per[s.key.value := Count(per, s.key) + 1];
      }
      if s.net.Some? {
        nets := nets[s.net.value := Count(nets, s.net) + 1];
      }
      open := open[tickets := e];
      return s, true;
    }

    /** Frees the slot of an admitted connection. */
    method Release(s: Slot, ghost ticket: nat)
      requires Good(peers, caps, open, active, per, nets)
      requires ticket in open && open[ticket].slot == s
      modifies this`active, this`per, this`nets, this`open
      ensures Good(peers, caps, open, active, per, nets)
      ensures open == old(open) - {ticket}
    {
      hide Good;
      Released(peers, caps, open, active, per, nets, ticket);
      active := active - 1;
      per := Decrement(per, s.key);
      nets := Decrement(nets, s.net);
      open := open - {ticket};
    }

    /** The next connection that is admitted, of the addresses that connect; the
        ones refused before it are closed at once. None when the listener ends. */
    method Accept(incoming: seq<Addr>) returns (conn: Option<WebLimitConn>, rest: seq<Addr>)
      requires Valid()
      modifies this
      ensures Valid()
      ensures |rest| <= |incoming| && rest == incoming[|incoming| - |rest|..]
      ensures forall j :: 0 <= j < |incoming| - |rest| - (if conn.Some? then 1 else 0) ==>
                Refused(caps, peers, AddrsOf(old(open)), incoming[j])
      ensures conn.None? ==> rest == [] && conns == old(conns) && open == old(open)
      ensures conn.Some? ==>
                && |rest| < |incoming|
                && fresh(conn.value) && conns == old(conns) + {conn.value} && !conn.value.closed
                && var ip := incoming[|incoming| - |rest| - 1];
                   !Refused(caps, peers, AddrsOf(old(open)), ip) && open == old(open)[conn.value.ticket := EntryOf(peers, ip)]
    {
      hide Good, NoRoom, Refused, AddrsOf;
      var i := 0;
      while i < |incoming|
        invariant 0 <= i <= |incoming|
        invariant Valid() && conns == old(conns) && open == old(open) && tickets == old(tickets)
        invariant forall j :: 0 <= j < i ==> Refused(caps, peers, AddrsOf(open), incoming[j])
      {
        var ip := incoming[i];
        i := i + 1;
        var s, ok := Acquire(ip);
        if ok {
          var c := new WebLimitConn(this, s, tickets);
          conns, tickets := conns + {c}, tickets + 1;
          return Some(c), incoming[i..];
        }
      }
      return None, [];
    }
  }

  class WebLimitConn {
    const l: WebLimiter
    const slot: Slot
    ghost const ticket: nat
    var closed: bool // its sync.Once has run

    constructor (l: WebLimiter, slot: Slot, ghost ticket: nat)
      ensures this.l == l && this.slot == slot && this.ticket == ticket && !closed
    {
      this.l, this.slot, this.ticket := l, slot, ticket;
      closed := false;
    }

    /** Closing frees the slot, the first time only. */
    method Close()
      requires l.Valid() && this in l.conns
      modifies this, l`active, l`per, l`nets, l`open
      ensures l.Valid() && closed
      ensures l.open == old(l.open) - {ticket}
      ensures old(closed) ==> l.open == old(l.open) && l.active == old(l.active) && l.per == old(l.per) && l.nets == old(l.nets)
    {
      if !closed {
        closed := true;
        l.Release(slot, ticket);
      }
    }
  }
}
