/**
 Statistics by device: the addresses of one device are merged into one row. The
 rows are partitioned by a key, each part is sorted and summed, and the series of
 one device takes its addresses by another way, which must give the same ones.
*/
module Devices {
  import opened Sorting

  // ---- parts of a list by key ------------------------------------------------------------------

  /** The elements with this key, in their order. */
  function Select<T>(xs: seq<T>, keyOf: T -> string, k: string): seq<T> {
    if xs == [] then []
    else if keyOf(xs[0]) == k then [xs[0]] + Select(xs[1..], keyOf, k)
    else Select(xs[1..], keyOf, k)
  }

  lemma {:induction false} SelectAppend<T>(xs: seq<T>, x: T, keyOf: T -> string, k: string)
    ensures Select(xs + [x], keyOf, k) == Select(xs, keyOf, k) + if keyOf(x) == k then [x] else []
  {
    if xs == [] {
      assert [x][1..] == [];
    } else {
      assert (xs + [x])[1..] == xs[1..] + [x];
      SelectAppend(xs[1..], x, keyOf, k);
    }
  }

  lemma {:induction false} SelectIn<T>(xs: seq<T>, keyOf: T -> string, k: string)
    ensures forall x :: x in Select(xs, keyOf, k) <==> x in xs && keyOf(x) == k
  {
    if xs != [] {
      SelectIn(xs[1..], keyOf, k);
      assert xs == [xs[0]] + xs[1..];
    }
  }

  lemma {:induction false} SelectInsert<T(!new)>(x: T, xs: seq<T>, le: (T, T) -> bool, keyOf: T -> string, k: string)
    requires TotalOrder(le) && Sorted(xs, le)
    ensures Select(Insert(x, xs, le), keyOf, k)
         == if keyOf(x) == k then Insert(x, Select(xs, keyOf, k), le) else Select(xs, keyOf, k)
  {
    var part := Select(xs, keyOf, k);
    if xs == [] || le(x, xs[0]) {
      SelectIn(xs, keyOf, k);
      if part != [] {
        assert part[0] in xs;
        assert le(x, part[0]);
      }
      assert ([x] + xs)[1..] == xs;
    } else {
      SelectInsert(x, xs[1..], le, keyOf, k);
      var rest := Insert(x, xs[1..], le);
      assert ([xs[0]] + rest)[1..] == rest;
      if keyOf(xs[0]) == k {
        assert part[1..] == Select(xs[1..], keyOf, k);
      }
    }
  }

  /** Sorting everything and then taking a part is taking the part and sorting it. */
  lemma {:induction false} SortSelect<T(!new)>(xs: seq<T>, le: (T, T) -> bool, keyOf: T -> string, k: string)
    requires TotalOrder(le)
    ensures Select(Sort(xs, le), keyOf, k) == Sort(Select(xs, keyOf, k), le)
  {
    if xs != [] {
      SortSelect(xs[1..], le, keyOf, k);
      SortSorted(xs[1..], le);
      SelectInsert(xs[0], Sort(xs[1..], le), le, keyOf, k);
      var part := Select(xs[1..], keyOf, k);
      assert ([xs[0]] + part)[1..] == part;
    }
  }

  // ---- sums -----------------------------------------------------------------------------------------

  function Sum<T>(xs: seq<T>, f: T -> int): int {
    if xs == [] then 0 else Sum(xs[..|xs| - 1], f) + f(xs[|xs| - 1])
  }

  lemma {:induction false} SumCons<T>(x: T, xs: seq<T>, f: T -> int)
    ensures Sum([x] + xs, f) == f(x) + Sum(xs, f)
  {
    if xs == [] {
      assert [x] + xs == [x] && [x][..0] == [];
    } else {
      SumCons(x, xs[..|xs| - 1], f);
      assert ([x] + xs)[..|xs|] == [x] + xs[..|xs| - 1];
    }
  }

  lemma {:induction false} SumRemoved<T>(xs: seq<T>, i: nat, f: T -> int)
    requires i < |xs|
    ensures Sum(xs, f) == f(xs[i]) + Sum(xs[..i] + xs[i + 1..], f)
  {
    if i == 0 {
      SumCons(xs[0], xs[1..], f);
      assert xs == [xs[0]] + xs[1..] && xs[..0] + xs[1..] == xs[1..];
    } else {
      SumRemoved(xs[1..], i - 1, f);
      assert xs[1..][..i - 1] + xs[1..][i..] == (xs[..i] + xs[i + 1..])[1..];
      SumCons(xs[0], xs[1..], f);
      SumCons(xs[0], (xs[..i] + xs[i + 1..])[1..], f);
      assert xs == [xs[0]] + xs[1..];
      assert xs[..i] + xs[i + 1..] == [xs[0]] + (xs[..i] + xs[i + 1..])[1..];
    }
  }

  /** The list without one element. */
  lemma TakeOut<T>(b: seq<T>, x: T) returns (i: nat)
    requires x in b
    ensures i < |b| && b[i] == x && multiset(b[..i] + b[i + 1..]) == multiset(b) - multiset{x}
  {
    i :| 0 <= i < |b| && b[i] == x;
    assert b == b[..i] + [b[i]] + b[i + 1..];
  }

  lemma FirstIn<T>(a: seq<T>, b: seq<T>)
    requires multiset(a) == multiset(b)
    ensures a == [] <==> b == []
    ensures a != [] ==> a[0] in b
  {
    SameElements(a, b);
  }

  /** A sum does not depend on the order. */
  lemma {:induction false} SumKept<T>(a: seq<T>, b: seq<T>, f: T -> int)
    requires multiset(a) == multiset(b)
    ensures Sum(a, f) == Sum(b, f)
  {
    FirstIn(a, b);
    if a != [] {
      var i := TakeOut(b, a[0]);
      Rest(a);
      SumKept(a[1..], b[..i] + b[i + 1..], f);
      hide Sum;
      SumRemoved(b, i, f);
      SumCons(a[0], a[1..], f);
      assert a == [a[0]] + a[1..];
    }
  }

  /** The sum over the parts of these keys. */
  function SumParts<T>(xs: seq<T>, keyOf: T -> string, keys: seq<string>, f: T -> int): int {
    if keys == [] then 0
    else SumParts(xs, keyOf, keys[..|keys| - 1], f) + Sum(Select(xs, keyOf, keys[|keys| - 1]), f)
  }

  lemma {:induction false} PartsOfNone<T>(keyOf: T -> string, keys: seq<string>, f: T -> int)
    ensures SumParts([], keyOf, keys, f) == 0
  {
    if keys != [] {
      PartsOfNone(keyOf, keys[..|keys| - 1], f);
    }
  }

  lemma {:induction false} PartsOfMore<T>(x: T, xs: seq<T>, keyOf: T -> string, keys: seq<string>, f: T -> int)
    requires Distinct(keys)
    ensures SumParts([x] + xs, keyOf, keys, f) == SumParts(xs, keyOf, keys, f) + if keyOf(x) in keys then f(x) else 0
  {
    if keys != [] {
      var k := keys[|keys| - 1];
      var before := keys[..|keys| - 1];
      PartsOfMore(x, xs, keyOf, before, f);
      assert ([x] + xs)[1..] == xs;
      SumCons(x, Select(xs, keyOf, k), f);
      assert keys == before + [k];
    }
  }

  /** Whatever is counted, the parts by key together count what the list does. */
  lemma {:induction false} PartsConserve<T>(xs: seq<T>, keyOf: T -> string, keys: seq<string>, f: T -> int)
    requires Distinct(keys) && forall i :: 0 <= i < |xs| ==> keyOf(xs[i]) in keys
    ensures SumParts(xs, keyOf, keys, f) == Sum(xs, f)
  {
    if xs == [] {
      PartsOfNone(keyOf, keys, f);
    } else {
      PartsConserve(xs[1..], keyOf, keys, f);
      PartsOfMore(xs[0], xs[1..], keyOf, keys, f);
      SumCons(xs[0], xs[1..], f);
      assert xs == [xs[0]] + xs[1..];
    }
  }

  /** The rows with the key k, for every key. */
  ghost predicate PartsOf<T>(byKey: map<string, seq<T>>, xs: seq<T>, keyOf: T -> string) {
    forall k :: if k in byKey then byKey[k] == Select(xs, keyOf, k) && byKey[k] != [] else Select(xs, keyOf, k) == []
  }

  lemma PartsNext<T>(byKey: map<string, seq<T>>, xs: seq<T>, x: T, keyOf: T -> string)
    requires PartsOf(byKey, xs, keyOf)
    ensures var k := keyOf(x);
            PartsOf(byKey[k := (if k in byKey then byKey[k] else []) + [x]], xs + [x], keyOf)
  {
    forall q ensures Select(xs + [x], keyOf, q) == Select(xs, keyOf, q) + if keyOf(x) == q then [x] else [] {
      SelectAppend(xs, x, keyOf, q);
    }
    hide Select;
  }

  lemma PartsCover<T>(byKey: map<string, seq<T>>, xs: seq<T>, keyOf: T -> string)
    requires PartsOf(byKey, xs, keyOf)
    ensures forall i :: 0 <= i < |xs| ==> keyOf(xs[i]) in byKey
  {
    forall i | 0 <= i < |xs| ensures keyOf(xs[i]) in byKey {
      SelectIn(xs, keyOf, keyOf(xs[i]));
    }
  }

  /** The rows by key, and the keys in the order of their first rows. */
  method Partition<T>(xs: seq<T>, keyOf: T -> string) returns (byKey: map<string, seq<T>>, keys: seq<string>)
    ensures Distinct(keys) && (forall k :: k in keys <==> k in byKey)
    ensures PartsOf(byKey, xs, keyOf)
  {
    byKey, keys := map[], [];
    hide PartsOf;
    assert PartsOf(byKey, [], keyOf) by { PartsNone(byKey, keyOf); }
    for i := 0 to |xs|
      invariant Distinct(keys) && (forall k :: k in keys <==> k in byKey)
      invariant PartsOf(byKey, xs[..i], keyOf)
    {
      var x := xs[i];
      var k := keyOf(x);
      PartsNext(byKey, xs[..i], x, keyOf);
      assert xs[..i + 1] == xs[..i] + [x];
      if k !in byKey {
        keys := keys + [k];
        byKey := byKey[k := [x]];
      } else {
        byKey := byKey[k := byKey[k] + [x]];
      }
      assert [] + [x] == [x];
    }
    assert xs[..|xs|] == xs;
  }

  lemma PartsNone<T>(byKey: map<string, seq<T>>, keyOf: T -> string)
    requires byKey == map[]
    ensures PartsOf(byKey, [], keyOf)
  {
  }

  /** Groups that each hold what their parts hold together hold what the list does. */
  lemma {:induction false} GroupsConserve<T, G>(xs: seq<T>, keyOf: T -> string, keys: seq<string>, f: T -> int,
                                              groups: seq<G>, g: G -> int, n: nat)
    requires n <= |keys| == |groups|
    requires forall i :: 0 <= i < |keys| ==> g(groups[i]) == Sum(Select(xs, keyOf, keys[i]), f)
    ensures Sum(groups[..n], g) == SumParts(xs, keyOf, keys[..n], f)
  {
    if n > 0 {
      GroupsConserve(xs, keyOf, keys, f, groups, g, n - 1);
      assert groups[..n][..n - 1] == groups[..n - 1] && keys[..n][..n - 1] == keys[..n - 1];
    }
  }

  lemma AllConserved<T, G>(xs: seq<T>, keyOf: T -> string, keys: seq<string>, f: T -> int, groups: seq<G>, g: G -> int)
    requires |keys| == |groups| && Distinct(keys) && forall i :: 0 <= i < |xs| ==> keyOf(xs[i]) in keys
    requires forall i :: 0 <= i < |keys| ==> g(groups[i]) == Sum(Select(xs, keyOf, keys[i]), f)
    ensures Sum(groups, g) == Sum(xs, f)
  {
    GroupsConserve(xs, keyOf, keys, f, groups, g, |keys|);
    assert groups[..|keys|] == groups && keys[..|keys|] == keys;
    PartsConserve(xs, keyOf, keys, f);
  }

  // ---- devices --------------------------------------------------------------------------------------

  const MAX_SERIES_ADDRESSES := 256

  datatype Device = Device(key: string, clientId: nat, mac: string, name: string)

  type Registry = map<string, Device>

  const UNKNOWN: Device := Device("", 0, "", "")

  function DeviceOf(devs: Registry, addr: string): Device {
    if addr in devs then devs[addr] else UNKNOWN
  }

  function DeviceKey(devs: Registry, addr: string): string {
    if DeviceOf(devs, addr).key != "" then DeviceOf(devs, addr).key else "ip:" + addr
  }

  function FirstOf(names: seq<string>): string {
    if names == [] then "" else if FirstOf(names[..|names| - 1]) != "" then FirstOf(names[..|names| - 1]) else names[|names| - 1]
  }

  /** The name of a configured client or of an IPv4 address. */
  function StrongName(devs: Registry, v4: string -> bool, addr: string): string {
    var d := DeviceOf(devs, addr);
    if d.clientId != 0 || v4(addr) then d.name else ""
  }

  function StrongNames(devs: Registry, v4: string -> bool, members: seq<string>): seq<string> {
    seq(|members|, i requires 0 <= i < |members| => StrongName(devs, v4, members[i]))
  }

  function Names(devs: Registry, members: seq<string>): seq<string> {
    seq(|members|, i requires 0 <= i < |members| => DeviceOf(devs, members[i]).name)
  }

  /** The first strong name, else the first one. */
  function NameOf(devs: Registry, v4: string -> bool, members: seq<string>): string {
    var strong := FirstOf(StrongNames(devs, v4, members));
    if strong != "" then strong else FirstOf(Names(devs, members))
  }

  lemma {:induction false} FirstMeans(names: seq<string>)
    ensures FirstOf(names) == "" <==> forall i :: 0 <= i < |names| ==> names[i] == ""
    ensures forall i :: 0 <= i < |names| && names[i] != "" && (forall j :: 0 <= j < i ==> names[j] == "") ==> FirstOf(names) == names[i]
  {
    if names != [] {
      var n := |names| - 1;
      FirstMeans(names[..n]);
      assert forall i :: 0 <= i < n ==> names[..n][i] == names[i];
    }
  }

  /** A member whose name counts first: a configured client or an IPv4 address with a name. */
  predicate HasStrongName(devs: Registry, v4: string -> bool, addr: string) {
    addr in devs && devs[addr].name != "" && (devs[addr].clientId != 0 || v4(addr))
  }

  /** The name of a device is that of the first such member, if there is one; else of the
      first member that has a name; else it has none. */
  lemma {:induction false} NameMeans(devs: Registry, v4: string -> bool, members: seq<string>, i: nat)
    ensures i < |members| && HasStrongName(devs, v4, members[i]) && (forall j :: 0 <= j < i ==> !HasStrongName(devs, v4, members[j]))
            ==> NameOf(devs, v4, members) == devs[members[i]].name
    ensures && i < |members| && members[i] in devs && devs[members[i]].name != ""
            && (forall j :: 0 <= j < i ==> members[j] !in devs || devs[members[j]].name == "")
            && (forall j :: 0 <= j < |members| ==> !HasStrongName(devs, v4, members[j]))
            ==> NameOf(devs, v4, members) == devs[members[i]].name
    ensures (forall j :: 0 <= j < |members| ==> members[j] !in devs || devs[members[j]].name == "") ==> NameOf(devs, v4, members) == ""
  {
    var strong, names := StrongNames(devs, v4, members), Names(devs, members);
    FirstMeans(strong);
    FirstMeans(names);
    assert forall j :: 0 <= j < |members|
             ==> strong[j] == if HasStrongName(devs, v4, members[j]) then devs[members[j]].name else "";
    assert forall j :: 0 <= j < |members| ==> names[j] == if members[j] in devs then devs[members[j]].name else "";
    hide FirstOf, StrongNames, Names;
  }

  lemma {:induction false} FirstStays(names: seq<string>, i: nat)
    requires i <= |names| && FirstOf(names[..i]) != ""
    ensures FirstOf(names) == FirstOf(names[..i])
  {
    if i < |names| {
      var before := names[..|names| - 1];
      assert before[..i] == names[..i];
      FirstStays(before, i);
    } else {
      assert names[..i] == names;
    }
  }

  lemma NextName(names: seq<string>, i: nat)
    requires i < |names|
    ensures FirstOf(names[..i + 1]) == if FirstOf(names[..i]) != "" then FirstOf(names[..i]) else names[i]
  {
    assert names[..i + 1][..i] == names[..i];
  }

  method DeviceName(devs: Registry, v4: string -> bool, members: seq<string>) returns (name: string)
    ensures name == NameOf(devs, v4, members)
  {
    hide FirstOf;
    ghost var strong, names := StrongNames(devs, v4, members), Names(devs, members);
    var first := "";
    NoNames();
    assert strong[..0] == [] && names[..0] == [];
    for i := 0 to |members|
      invariant first == FirstOf(names[..i]) && FirstOf(strong[..i]) == ""
    {
      NextName(names, i);
      NextName(strong, i);
      var d := DeviceOf(devs, members[i]);
      if d.clientId != 0 && d.name != "" {
        FirstStays(strong, i + 1);
        return d.name;
      }
      if v4(members[i]) && d.name != "" {
        FirstStays(strong, i + 1);
        return d.name;
      }
      if first == "" {
        first := d.name;
      }
    }
    assert names[..|members|] == names && strong[..|members|] == strong;
    return first;
  }

  lemma NoNames()
    ensures FirstOf([]) == ""
  {
  }

  // ---- statistics by device -------------------------------------------------------------------------

  /** The statistics of an address. */
  datatype Row = Row(ip: string, name: string, queries: int, blocked: int, cacheBytes: int, hitBytes: int, seen: int)

  /** The statistics of a device. */
  datatype Group = Group(ip: string, name: string, clientId: nat, mac: string, addresses: seq<string>,
                         queries: int, blocked: int, cacheBytes: int, hitBytes: int, seen: int)

  function KeyOf(devs: Registry): Row -> string {
    (r: Row) => DeviceKey(devs, r.ip)
  }

  /** The most recently seen first, then by address. */
  predicate RowLe(a: Row, b: Row) {
    b.seen < a.seen || (a.seen == b.seen && StringLe(a.ip, b.ip))
  }

  predicate GroupLe(a: Group, b: Group) {
    || b.queries < a.queries
    || (a.queries == b.queries
        && (b.cacheBytes < a.cacheBytes || (a.cacheBytes == b.cacheBytes && StringLe(a.ip, b.ip))))
  }

  lemma LeAreOrders()
    ensures TotalOrder(RowLe) && TotalOrder(GroupLe)
  {
    StringLeIsOrder();
    hide StringLe;
  }

  /** The rows of a device: the most recently seen first, those of one time by address. */
  lemma {:induction false} RecentFirst(rows: seq<Row>, i: nat, j: nat)
    requires i < j < |rows|
    ensures var s := Sort(rows, RowLe);
            |s| == |rows| && (s[j].seen < s[i].seen || (s[j].seen == s[i].seen && StringLe(s[i].ip, s[j].ip)))
  {
    LeAreOrders();
    SortSorted(rows, RowLe);
    SortKeeps(rows, RowLe);
    assert |Sort(rows, RowLe)| == |multiset(Sort(rows, RowLe))| == |multiset(rows)| == |rows|;
    hide Sort, StringLe;
  }

  const QUERIES: Row -> int := (r: Row) => r.queries
  const BLOCKED: Row -> int := (r: Row) => r.blocked
  const CACHE_BYTES: Row -> int := (r: Row) => r.cacheBytes
  const HIT_BYTES: Row -> int := (r: Row) => r.hitBytes

  function Ips(rows: seq<Row>): seq<string> {
    seq(|rows|, i requires 0 <= i < |rows| => rows[i].ip)
  }

  function RowNames(rows: seq<Row>): seq<string> {
    seq(|rows|, i requires 0 <= i < |rows| => rows[i].name)
  }

  function Macs(devs: Registry, rows: seq<Row>): set<string> {
    set r | r in rows && DeviceOf(devs, r.ip).mac != "" :: DeviceOf(devs, r.ip).mac
  }

  /** The client of the last of the rows that has one. */
  function ClientOf(devs: Registry, rows: seq<Row>): nat {
    if rows == [] then 0
    else
      var id := DeviceOf(devs, rows[|rows| - 1].ip).clientId;
      if id != 0 then id else ClientOf(devs, rows[..|rows| - 1])
  }

  predicate Sums(g: Group, rows: seq<Row>) {
    && g.addresses == Ips(rows)
    && g.queries == Sum(rows, QUERIES) && g.blocked == Sum(rows, BLOCKED)
    && g.cacheBytes == Sum(rows, CACHE_BYTES) && g.hitBytes == Sum(rows, HIT_BYTES)
  }

  /** One row for the rows of a device. */
  predicate Merges(g: Group, devs: Registry, v4: string -> bool, rows: seq<Row>) {
    && rows != [] && g.ip == rows[0].ip && g.seen == rows[0].seen
    && Sums(g, rows)
    && g.clientId == ClientOf(devs, rows)
    && (if g.mac == "" then |Macs(devs, rows)| != 1 else Macs(devs, rows) == {g.mac})
    && g.name == (if NameOf(devs, v4, Ips(rows)) != "" then NameOf(devs, v4, Ips(rows)) else FirstOf(RowNames(rows)))
  }

  /** Some row has this MAC, and each row with a known one. */
  ghost predicate SharedMac(devs: Registry, rows: seq<Row>, m: string) {
    && m != "" && (exists r <- rows :: DeviceOf(devs, r.ip).mac == m)
    && forall r <- rows :: DeviceOf(devs, r.ip).mac == "" || DeviceOf(devs, r.ip).mac == m
  }

  /** The client and the MAC of a group: the client of the last row that has one, and the
      MAC that all rows with a known one share. */
  lemma {:induction false} MergedMeans(g: Group, devs: Registry, v4: string -> bool, rows: seq<Row>)
    requires Merges(g, devs, v4, rows)
    ensures g.clientId == 0 <==> forall r <- rows :: DeviceOf(devs, r.ip).clientId == 0
    ensures forall i :: 0 <= i < |rows| && DeviceOf(devs, rows[i].ip).clientId != 0
                        && (forall j :: i < j < |rows| ==> DeviceOf(devs, rows[j].ip).clientId == 0)
                        ==> g.clientId == DeviceOf(devs, rows[i].ip).clientId
    ensures g.mac != "" ==> SharedMac(devs, rows, g.mac)
    ensures forall m :: SharedMac(devs, rows, m) ==> g.mac == m
    ensures NameOf(devs, v4, Ips(rows)) != "" ==> g.name == NameOf(devs, v4, Ips(rows))
    ensures forall i :: (NameOf(devs, v4, Ips(rows)) == "" && 0 <= i < |rows| && rows[i].name != ""
                         && forall j :: 0 <= j < i ==> rows[j].name == "") ==> g.name == rows[i].name
  {
    LastClient(devs, rows);
    FirstMeans(RowNames(rows));
    assert forall i :: 0 <= i < |rows| ==> RowNames(rows)[i] == rows[i].name;
    hide ClientOf, NameOf, Sums, FirstOf, RowNames;
    forall m | SharedMac(devs, rows, m) ensures g.mac == m {
      assert Macs(devs, rows) == {m};
    }
    if g.mac != "" {
      assert g.mac in Macs(devs, rows);
      forall r | r in rows && DeviceOf(devs, r.ip).mac != "" ensures DeviceOf(devs, r.ip).mac == g.mac {
        assert DeviceOf(devs, r.ip).mac in Macs(devs, rows);
      }
    }
  }

  lemma {:induction false} LastClient(devs: Registry, rows: seq<Row>)
    ensures ClientOf(devs, rows) == 0 <==> forall r <- rows :: DeviceOf(devs, r.ip).clientId == 0
    ensures forall i :: 0 <= i < |rows| && DeviceOf(devs, rows[i].ip).clientId != 0
                        && (forall j :: i < j < |rows| ==> DeviceOf(devs, rows[j].ip).clientId == 0)
                        ==> ClientOf(devs, rows) == DeviceOf(devs, rows[i].ip).clientId
  {
    if rows != [] {
      var n := |rows| - 1;
      LastClient(devs, rows[..n]);
      assert rows == rows[..n] + [rows[n]];
    }
  }

  method FirstRowName(rows: seq<Row>) returns (name: string)
    ensures name == FirstOf(RowNames(rows))
  {
    hide FirstOf;
    ghost var names := RowNames(rows);
    NoNames();
    assert names[..0] == [];
    for i := 0 to |rows|
      invariant FirstOf(names[..i]) == ""
    {
      NextName(names, i);
      if rows[i].name != "" {
        FirstStays(names, i + 1);
        return rows[i].name;
      }
    }
    assert names[..|rows|] == names;
    return "";
  }

  lemma NextRow(devs: Registry, rows: seq<Row>, i: nat)
    requires i < |rows|
    ensures var r := rows[i]; var d := DeviceOf(devs, r.ip);
            && Ips(rows[..i + 1]) == Ips(rows[..i]) + [r.ip]
            && Macs(devs, rows[..i + 1]) == Macs(devs, rows[..i]) + (if d.mac != "" then {d.mac} else {})
            && ClientOf(devs, rows[..i + 1]) == (if d.clientId != 0 then d.clientId else ClientOf(devs, rows[..i]))
            && forall f: Row -> int :: Sum(rows[..i + 1], f) == Sum(rows[..i], f) + f(r)
  {
    assert rows[..i + 1] == rows[..i] + [rows[i]];
    assert rows[..i + 1][..i] == rows[..i];
  }

  method MergeRows(devs: Registry, v4: string -> bool, rows: seq<Row>) returns (g: Group)
    requires rows != []
    ensures Merges(g, devs, v4, rows)
  {
    hide DeviceOf, Macs, ClientOf, Ips, Sum, FirstOf, NameOf;
    g := Group(rows[0].ip, "", 0, "", [], 0, 0, 0, 0, rows[0].seen);
    var macs: set<string> := {};
    assert Sums(g, rows[..0]) && Macs(devs, rows[..0]) == {} && ClientOf(devs, rows[..0]) == 0 by { NoRows(devs, rows); }
    for i := 0 to |rows|
      invariant g.ip == rows[0].ip && g.seen == rows[0].seen && g.mac == "" && g.name == ""
      invariant Sums(g, rows[..i])
      invariant macs == Macs(devs, rows[..i]) && g.clientId == ClientOf(devs, rows[..i])
    {
      NextRow(devs, rows, i);
      var r := rows[i];
      var d := DeviceOf(devs, r.ip);
      g := g.(addresses := g.addresses + [r.ip], queries := g.queries + r.queries, blocked := g.blocked + r.blocked,
              cacheBytes := g.cacheBytes + r.cacheBytes, hitBytes := g.hitBytes + r.hitBytes);
      if d.clientId != 0 {
        g := g.(clientId := d.clientId);
      }
      if d.mac != "" {
        macs := macs + {d.mac};
      }
    }
    assert rows[..|rows|] == rows;
    if |macs| == 1 {
      var m :| m in macs;
      OnlyMac(devs, rows, m);
      g := g.(mac := m);
    }
    var name := DeviceName(devs, v4, g.addresses);
    if name == "" {
      name := FirstRowName(rows);
    }
    g := g.(name := name);
  }

  lemma NoRows(devs: Registry, rows: seq<Row>)
    ensures Ips(rows[..0]) == [] && Macs(devs, rows[..0]) == {} && ClientOf(devs, rows[..0]) == 0
    ensures forall f: Row -> int :: Sum(rows[..0], f) == 0
  {
  }

  lemma OnlyMac(devs: Registry, rows: seq<Row>, m: string)
    requires |Macs(devs, rows)| == 1 && m in Macs(devs, rows)
    ensures m != "" && Macs(devs, rows) == {m}
  {
    var macs := Macs(devs, rows);
    assert |macs - {m}| == 0;
  }

  /** Each key has one group, which merges its rows, the most recent first. */
  ghost predicate Grouped(devs: Registry, v4: string -> bool, stats: seq<Row>, keys: seq<string>, groups: seq<Group>) {
    && |keys| == |groups| && Distinct(keys)
    && (forall i :: 0 <= i < |stats| ==> KeyOf(devs)(stats[i]) in keys)
    && forall i :: 0 <= i < |keys| ==>
         Merges(groups[i], devs, v4, Sort(Select(stats, KeyOf(devs), keys[i]), RowLe))
  }

  /** A list of the groups, the most queries first. */
  ghost predicate GroupList(devs: Registry, v4: string -> bool, stats: seq<Row>, out: seq<Group>) {
    exists keys, groups :: Grouped(devs, v4, stats, keys, groups) && out == Sort(groups, GroupLe)
  }

  method GroupClientStats(devs: Registry, v4: string -> bool, stats: seq<Row>) returns (out: seq<Group>)
    ensures GroupList(devs, v4, stats, out)
  {
    hide Merges, Select, Sort;
    var byKey, order := Partition(stats, KeyOf(devs));
    PartsCover(byKey, stats, KeyOf(devs));
    var merged: seq<Group> := [];
    for i := 0 to |order|
      invariant |merged| == i
      invariant forall j :: 0 <= j < i ==>
                  Merges(merged[j], devs, v4, Sort(Select(stats, KeyOf(devs), order[j]), RowLe))
    {
      var rows := Sort(byKey[order[i]], RowLe);
      var g := MergeRows(devs, v4, rows);
      merged := merged + [g];
    }
    assert Grouped(devs, v4, stats, order, merged);
    out := Sort(merged, GroupLe);
  }

  lemma SortedSum(rows: seq<Row>, f: Row -> int)
    ensures Sum(Sort(rows, RowLe), f) == Sum(rows, f)
  {
    SortKeeps(rows, RowLe);
    SumKept(Sort(rows, RowLe), rows, f);
  }

  const GROUP_QUERIES: Group -> int := (g: Group) => g.queries
  const GROUP_BLOCKED: Group -> int := (g: Group) => g.blocked
  const GROUP_CACHE_BYTES: Group -> int := (g: Group) => g.cacheBytes
  const GROUP_HIT_BYTES: Group -> int := (g: Group) => g.hitBytes

  lemma OneCounter(devs: Registry, v4: string -> bool, stats: seq<Row>, keys: seq<string>, groups: seq<Group>,
                   f: Row -> int, g: Group -> int)
    requires Grouped(devs, v4, stats, keys, groups)
    requires forall x, rows :: Merges(x, devs, v4, rows) ==> g(x) == Sum(rows, f)
    ensures Sum(Sort(groups, GroupLe), g) == Sum(stats, f)
  {
    forall i | 0 <= i < |keys| ensures g(groups[i]) == Sum(Select(stats, KeyOf(devs), keys[i]), f) {
      SortedSum(Select(stats, KeyOf(devs), keys[i]), f);
    }
    AllConserved(stats, KeyOf(devs), keys, f, groups, g);
    SortKeeps(groups, GroupLe);
    SumKept(Sort(groups, GroupLe), groups, g);
  }

  /** Grouping by device loses and invents nothing of any counter. */
  lemma {:induction false} CountersConserved(devs: Registry, v4: string -> bool, stats: seq<Row>, out: seq<Group>)
    requires GroupList(devs, v4, stats, out)
    ensures Sum(out, GROUP_QUERIES) == Sum(stats, QUERIES) && Sum(out, GROUP_BLOCKED) == Sum(stats, BLOCKED)
    ensures Sum(out, GROUP_CACHE_BYTES) == Sum(stats, CACHE_BYTES) && Sum(out, GROUP_HIT_BYTES) == Sum(stats, HIT_BYTES)
  {
    var keys, groups :| Grouped(devs, v4, stats, keys, groups) && out == Sort(groups, GroupLe);
    hide Grouped, NameOf, Macs, ClientOf;
    OneCounter(devs, v4, stats, keys, groups, QUERIES, GROUP_QUERIES);
    OneCounter(devs, v4, stats, keys, groups, BLOCKED, GROUP_BLOCKED);
    OneCounter(devs, v4, stats, keys, groups, CACHE_BYTES, GROUP_CACHE_BYTES);
    OneCounter(devs, v4, stats, keys, groups, HIT_BYTES, GROUP_HIT_BYTES);
  }

  // ---- the addresses of the groups --------------------------------------------------------------------

  function Is(a: string): Row -> int {
    (r: Row) => if r.ip == a then 1 else 0
  }

  function Holds(a: string): Group -> int {
    (g: Group) => multiset(g.addresses)[a]
  }

  lemma {:induction false} CountIps(rows: seq<Row>, a: string)
    ensures multiset(Ips(rows))[a] == Sum(rows, Is(a))
  {
    if rows != [] {
      var before := rows[..|rows| - 1];
      CountIps(before, a);
      assert Ips(rows) == Ips(before) + [rows[|rows| - 1].ip];
    }
  }

  /** The addresses of the groups are those of the rows, each as often; and an
      address is in the group of its device only. */
  lemma {:induction false} AddressesPartitioned(devs: Registry, v4: string -> bool, stats: seq<Row>, out: seq<Group>, a: string)
    requires GroupList(devs, v4, stats, out)
    ensures Sum(out, Holds(a)) == multiset(Ips(stats))[a]
    ensures forall g <- out :: a in g.addresses ==> DeviceKey(devs, g.ip) == DeviceKey(devs, a)
  {
    var keys, groups :| Grouped(devs, v4, stats, keys, groups) && out == Sort(groups, GroupLe);
    forall x, rows | Merges(x, devs, v4, rows) ensures Holds(a)(x) == Sum(rows, Is(a)) {
      CountIps(rows, a);
    }
    OneCounter(devs, v4, stats, keys, groups, Is(a), Holds(a));
    CountIps(stats, a);
    SortKeeps(groups, GroupLe);
    SameElements(out, groups);
    forall g | g in out && a in g.addresses ensures DeviceKey(devs, g.ip) == DeviceKey(devs, a) {
      var i :| 0 <= i < |groups| && groups[i] == g;
      KeyOfGroup(devs, v4, stats, keys, groups, i);
      MembersOf(devs, stats, keys[i], a);
    }
  }

  lemma MembersOf(devs: Registry, stats: seq<Row>, k: string, a: string)
    requires a in Ips(Sort(Select(stats, KeyOf(devs), k), RowLe))
    ensures DeviceKey(devs, a) == k
  {
    var part := Select(stats, KeyOf(devs), k);
    var rows := Sort(part, RowLe);
    SortKeeps(part, RowLe);
    SameElements(rows, part);
    SelectIn(stats, KeyOf(devs), k);
    var j :| 0 <= j < |rows| && Ips(rows)[j] == a;
    assert rows[j] in part;
  }

  /** The group of a row's device lists its address, and carries a time at least as
      late. */
  lemma {:induction false} LatestSeen(devs: Registry, v4: string -> bool, stats: seq<Row>, out: seq<Group>, r: Row)
    requires GroupList(devs, v4, stats, out) && r in stats
    ensures exists g <- out :: DeviceKey(devs, g.ip) == DeviceKey(devs, r.ip) && r.ip in g.addresses && g.seen >= r.seen
  {
    var keys, groups :| Grouped(devs, v4, stats, keys, groups) && out == Sort(groups, GroupLe);
    assert KeyOf(devs)(r) in keys;
    var i :| 0 <= i < |keys| && keys[i] == DeviceKey(devs, r.ip);
    SeenInGroup(devs, v4, stats, keys, groups, i, r);
    KeyOfGroup(devs, v4, stats, keys, groups, i);
    SortKeeps(groups, GroupLe);
    SameElements(out, groups);
    assert groups[i] in out;
  }

  lemma SeenInGroup(devs: Registry, v4: string -> bool, stats: seq<Row>, keys: seq<string>, groups: seq<Group>, i: nat, r: Row)
    requires Grouped(devs, v4, stats, keys, groups) && i < |keys| && r in stats && DeviceKey(devs, r.ip) == keys[i]
    ensures groups[i].seen >= r.seen && r.ip in groups[i].addresses
  {
    var part := Select(stats, KeyOf(devs), keys[i]);
    var rows := Sort(part, RowLe);
    LeAreOrders();
    SortSorted(part, RowLe);
    SortKeeps(part, RowLe);
    SameElements(rows, part);
    SelectIn(stats, KeyOf(devs), keys[i]);
    assert r in rows;
    var j :| 0 <= j < |rows| && rows[j] == r;
    assert Ips(rows)[j] == r.ip;
    assert Merges(groups[i], devs, v4, rows);
  }

  /** Two addresses of the rows are in one group exactly when the registry gives them the
      same key; an address without one has a key of its own. */
  lemma {:induction false} OneGroupEach(devs: Registry, v4: string -> bool, stats: seq<Row>, out: seq<Group>, a: string, b: string)
    requires GroupList(devs, v4, stats, out) && a in Ips(stats) && b in Ips(stats)
    ensures (exists g <- out :: a in g.addresses && b in g.addresses)
       <==> (if a in devs && devs[a].key != "" then devs[a].key else "ip:" + a)
            == (if b in devs && devs[b].key != "" then devs[b].key else "ip:" + b)
  {
    AddressesPartitioned(devs, v4, stats, out, a);
    AddressesPartitioned(devs, v4, stats, out, b);
    if DeviceKey(devs, a) == DeviceKey(devs, b) {
      var i :| 0 <= i < |stats| && Ips(stats)[i] == a;
      var j :| 0 <= j < |stats| && Ips(stats)[j] == b;
      Together(devs, v4, stats, out, stats[i], stats[j]);
    }
  }

  lemma Together(devs: Registry, v4: string -> bool, stats: seq<Row>, out: seq<Group>, r: Row, q: Row)
    requires GroupList(devs, v4, stats, out) && r in stats && q in stats && DeviceKey(devs, r.ip) == DeviceKey(devs, q.ip)
    ensures exists g <- out :: r.ip in g.addresses && q.ip in g.addresses
  {
    var keys, groups :| Grouped(devs, v4, stats, keys, groups) && out == Sort(groups, GroupLe);
    assert KeyOf(devs)(r) in keys;
    var i :| 0 <= i < |keys| && keys[i] == DeviceKey(devs, r.ip);
    SeenInGroup(devs, v4, stats, keys, groups, i, r);
    SeenInGroup(devs, v4, stats, keys, groups, i, q);
    SortKeeps(groups, GroupLe);
    SameElements(out, groups);
    assert groups[i] in out;
  }

  /** The groups come with the most queries first, then with the most bytes. */
  lemma {:induction false} MostQueriesFirst(devs: Registry, v4: string -> bool, stats: seq<Row>, out: seq<Group>, i: nat, j: nat)
    requires GroupList(devs, v4, stats, out) && i < j < |out|
    ensures || out[j].queries < out[i].queries
            || (out[j].queries == out[i].queries
                && (out[j].cacheBytes < out[i].cacheBytes || (out[j].cacheBytes == out[i].cacheBytes && StringLe(out[i].ip, out[j].ip))))
  {
    var keys, groups :| Grouped(devs, v4, stats, keys, groups) && out == Sort(groups, GroupLe);
    LeAreOrders();
    SortSorted(groups, GroupLe);
  }

  /** The order of the groups leaves no choice, so a sort that is not stable gives
      it too. */
  lemma {:induction false} OneOrder(devs: Registry, v4: string -> bool, stats: seq<Row>, keys: seq<string>, groups: seq<Group>, out: seq<Group>)
    requires Grouped(devs, v4, stats, keys, groups)
    requires multiset(out) == multiset(groups) && Sorted(out, GroupLe)
    ensures out == Sort(groups, GroupLe)
  {
    LeAreOrders();
    SortSorted(groups, GroupLe);
    SortKeeps(groups, GroupLe);
    SameElements(out, groups);
    hide Sort, GroupLe, Grouped;
    forall x, y | x in out && y in out && GroupLe(x, y) && GroupLe(y, x) ensures x == y {
      NoTies(devs, v4, stats, keys, groups, x, y);
    }
    SortedUnique(out, Sort(groups, GroupLe), GroupLe);
  }

  lemma NoTies(devs: Registry, v4: string -> bool, stats: seq<Row>, keys: seq<string>, groups: seq<Group>, x: Group, y: Group)
    requires Grouped(devs, v4, stats, keys, groups) && x in groups && y in groups && GroupLe(x, y) && GroupLe(y, x)
    ensures x == y
  {
    SameIp(x, y);
    assert |groups| == |keys| && Distinct(keys);
    hide *;
    var i :| 0 <= i < |groups| && groups[i] == x;
    var j :| 0 <= j < |groups| && groups[j] == y;
    KeyOfGroup(devs, v4, stats, keys, groups, i);
    KeyOfGroup(devs, v4, stats, keys, groups, j);
    NotSame(keys, i, j);
  }

  lemma NotSame(keys: seq<string>, i: nat, j: nat)
    requires Distinct(keys) && i < |keys| && j < |keys|
    ensures i != j ==> keys[i] != keys[j]
  {
  }

  lemma SameIp(x: Group, y: Group)
    requires GroupLe(x, y) && GroupLe(y, x)
    ensures x.ip == y.ip
  {
    StringLeAntisymmetric(x.ip, y.ip);
  }

  lemma KeyOfGroup(devs: Registry, v4: string -> bool, stats: seq<Row>, keys: seq<string>, groups: seq<Group>, i: nat)
    requires Grouped(devs, v4, stats, keys, groups) && i < |keys|
    ensures DeviceKey(devs, groups[i].ip) == keys[i]
  {
    var rows := Sort(Select(stats, KeyOf(devs), keys[i]), RowLe);
    assert Merges(groups[i], devs, v4, rows);
    assert Ips(rows)[0] == groups[i].ip;
    MembersOf(devs, stats, keys[i], groups[i].ip);
  }

  // ---- the addresses of one device ----------------------------------------------------------------------

  function Prefix(xs: seq<string>, n: nat): seq<string> {
    if |xs| <= n then xs else xs[..n]
  }

  /** The addresses with this key, the most recently seen first, at most the limit of
      a series. */
  method DeviceAddresses(devs: Registry, stats: seq<Row>, key: string) returns (out: seq<string>)
    ensures out == Prefix(Ips(Select(Sort(stats, RowLe), KeyOf(devs), key)), 256)
  {
    hide Sort, Select, KeyOf;
    var rows := Sort(stats, RowLe);
    out := [];
    assert Ips(Select(rows[..0], KeyOf(devs), key)) == [] by { assert Select([], KeyOf(devs), key) == [] by { SelectNone(KeyOf(devs), key); } }
    for i := 0 to |rows|
      invariant out == Prefix(Ips(Select(rows[..i], KeyOf(devs), key)), MAX_SERIES_ADDRESSES)
    {
      SelectAppend(rows[..i], rows[i], KeyOf(devs), key);
      assert rows[..i + 1] == rows[..i] + [rows[i]];
      KeyIs(devs, rows[i]);
      IpsAppend(Select(rows[..i], KeyOf(devs), key), rows[i]);
      if DeviceKey(devs, rows[i].ip) == key && |out| < MAX_SERIES_ADDRESSES {
        out := out + [rows[i].ip];
      }
    }
    assert rows[..|rows|] == rows;
  }

  lemma SelectNone(keyOf: Row -> string, k: string)
    ensures Select([], keyOf, k) == []
  {
  }

  lemma KeyIs(devs: Registry, r: Row)
    ensures KeyOf(devs)(r) == DeviceKey(devs, r.ip)
  {
  }

  lemma IpsAppend(rows: seq<Row>, r: Row)
    ensures Ips(rows + [r]) == Ips(rows) + [r.ip] && Ips(rows + []) == Ips(rows)
  {
    assert rows + [] == rows;
  }

  /** The series of a device takes exactly the first addresses of its group, although
      it sorts before it selects. */
  lemma {:induction false} SeriesIsPrefix(devs: Registry, v4: string -> bool, stats: seq<Row>, out: seq<Group>, g: Group)
    requires GroupList(devs, v4, stats, out) && g in out
    ensures Prefix(Ips(Select(Sort(stats, RowLe), KeyOf(devs), DeviceKey(devs, g.ip))), 256) == Prefix(g.addresses, 256)
  {
    var keys, groups :| Grouped(devs, v4, stats, keys, groups) && out == Sort(groups, GroupLe);
    SortKeeps(groups, GroupLe);
    SameElements(out, groups);
    var i :| 0 <= i < |groups| && groups[i] == g;
    KeyOfGroup(devs, v4, stats, keys, groups, i);
    LeAreOrders();
    SortSelect(stats, RowLe, KeyOf(devs), keys[i]);
  }

  // ---- top lists by device ------------------------------------------------------------------------------

  datatype Item = Item(addr: string, name: string, count: int, bytes: int)

  datatype TopGroup = TopGroup(addr: string, name: string, count: int, bytes: int, addresses: seq<string>)

  function ItemKeyOf(devs: Registry): Item -> string {
    (x: Item) => DeviceKey(devs, x.addr)
  }

  predicate More(byBytes: bool, aBytes: int, aCount: int, aKey: string, bBytes: int, bCount: int, bKey: string) {
    if byBytes then
      || bBytes < aBytes
      || (aBytes == bBytes && (bCount < aCount || (aCount == bCount && StringLe(aKey, bKey))))
    else
      bCount < aCount || (aCount == bCount && StringLe(aKey, bKey))
  }

  function ItemLe(byBytes: bool): (Item, Item) -> bool {
    (a: Item, b: Item) => More(byBytes, a.bytes, a.count, a.addr, b.bytes, b.count, b.addr)
  }

  function TopLe(byBytes: bool): (TopGroup, TopGroup) -> bool {
    (a: TopGroup, b: TopGroup) => More(byBytes, a.bytes, a.count, a.addr, b.bytes, b.count, b.addr)
  }

  const COUNT: Item -> int := (x: Item) => x.count
  const BYTES: Item -> int := (x: Item) => x.bytes
  const TOP_COUNT: TopGroup -> int := (g: TopGroup) => g.count
  const TOP_BYTES: TopGroup -> int := (g: TopGroup) => g.bytes

  function Addrs(items: seq<Item>): seq<string> {
    seq(|items|, i requires 0 <= i < |items| => items[i].addr)
  }

  function ItemNames(items: seq<Item>): seq<string> {
    seq(|items|, i requires 0 <= i < |items| => items[i].name)
  }

  predicate MergesTop(g: TopGroup, devs: Registry, v4: string -> bool, items: seq<Item>) {
    && items != [] && g.addr == items[0].addr && g.addresses == Addrs(items)
    && g.count == Sum(items, COUNT) && g.bytes == Sum(items, BYTES)
    && g.name == (if NameOf(devs, v4, Addrs(items)) != "" then NameOf(devs, v4, Addrs(items)) else FirstOf(ItemNames(items)))
  }

  ghost predicate GroupedTop(devs: Registry, v4: string -> bool, items: seq<Item>, byBytes: bool,
                             keys: seq<string>, groups: seq<TopGroup>) {
    && |keys| == |groups| && Distinct(keys)
    && (forall i :: 0 <= i < |items| ==> ItemKeyOf(devs)(items[i]) in keys)
    && forall i :: 0 <= i < |keys| ==>
         MergesTop(groups[i], devs, v4, Sort(Select(items, ItemKeyOf(devs), keys[i]), ItemLe(byBytes)))
  }

  lemma NextItem(items: seq<Item>, i: nat)
    requires i < |items|
    ensures Addrs(items[..i + 1]) == Addrs(items[..i]) + [items[i].addr]
    ensures forall f: Item -> int :: Sum(items[..i + 1], f) == Sum(items[..i], f) + f(items[i])
  {
    assert items[..i + 1][..i] == items[..i];
  }

  method FirstItemName(items: seq<Item>) returns (name: string)
    ensures name == FirstOf(ItemNames(items))
  {
    hide FirstOf;
    ghost var names := ItemNames(items);
    NoNames();
    assert names[..0] == [];
    for i := 0 to |items|
      invariant FirstOf(names[..i]) == ""
    {
      NextName(names, i);
      if items[i].name != "" {
        FirstStays(names, i + 1);
        return items[i].name;
      }
    }
    assert names[..|items|] == names;
    return "";
  }

  method MergeItems(devs: Registry, v4: string -> bool, items: seq<Item>) returns (g: TopGroup)
    requires items != []
    ensures MergesTop(g, devs, v4, items)
  {
    hide Sum, NameOf, FirstOf, Addrs;
    g := TopGroup(items[0].addr, "", 0, 0, []);
    NoItems(items);
    for i := 0 to |items|
      invariant g.addr == items[0].addr && g.addresses == Addrs(items[..i])
      invariant g.count == Sum(items[..i], COUNT) && g.bytes == Sum(items[..i], BYTES)
    {
      NextItem(items, i);
      g := g.(addresses := g.addresses + [items[i].addr], count := g.count + items[i].count, bytes := g.bytes + items[i].bytes);
    }
    assert items[..|items|] == items;
    var name := DeviceName(devs, v4, g.addresses);
    if name == "" {
      name := FirstItemName(items);
    }
    g := g.(name := name);
  }

  lemma NoItems(items: seq<Item>)
    ensures Addrs(items[..0]) == [] && forall f: Item -> int :: Sum(items[..0], f) == 0
  {
  }

  /** A list of all groups, the most active first. */
  ghost predicate TopList(devs: Registry, v4: string -> bool, items: seq<Item>, byBytes: bool, all: seq<TopGroup>) {
    exists keys, groups :: GroupedTop(devs, v4, items, byBytes, keys, groups) && all == Sort(groups, TopLe(byBytes))
  }

  /** The list that is cut to the limit. */
  ghost predicate CutTo(out: seq<TopGroup>, all: seq<TopGroup>, limit: nat) {
    out == if |all| <= limit then all else all[..limit]
  }

  method GroupTop(devs: Registry, v4: string -> bool, items: seq<Item>, byBytes: bool, limit: nat)
    returns (out: seq<TopGroup>)
    ensures exists all :: TopList(devs, v4, items, byBytes, all) && CutTo(out, all, limit)
  {
    hide MergesTop, Select, Sort, TopLe, ItemLe;
    var byKey, order := Partition(items, ItemKeyOf(devs));
    PartsCover(byKey, items, ItemKeyOf(devs));
    var merged: seq<TopGroup> := [];
    for i := 0 to |order|
      invariant |merged| == i
      invariant forall j :: 0 <= j < i ==>
                  MergesTop(merged[j], devs, v4, Sort(Select(items, ItemKeyOf(devs), order[j]), ItemLe(byBytes)))
    {
      var rows := Sort(byKey[order[i]], ItemLe(byBytes));
      var g := MergeItems(devs, v4, rows);
      merged := merged + [g];
    }
    assert GroupedTop(devs, v4, items, byBytes, order, merged);
    var sorted := Sort(merged, TopLe(byBytes));
    out := if |sorted| <= limit then sorted else sorted[..limit];
    assert CutTo(out, sorted, limit);
  }

  lemma OneTopCounter(devs: Registry, v4: string -> bool, items: seq<Item>, byBytes: bool, keys: seq<string>,
                      groups: seq<TopGroup>, f: Item -> int, g: TopGroup -> int)
    requires GroupedTop(devs, v4, items, byBytes, keys, groups)
    requires forall x, rows :: MergesTop(x, devs, v4, rows) ==> g(x) == Sum(rows, f)
    ensures Sum(Sort(groups, TopLe(byBytes)), g) == Sum(items, f)
  {
    forall i | 0 <= i < |keys| ensures g(groups[i]) == Sum(Select(items, ItemKeyOf(devs), keys[i]), f) {
      var part := Select(items, ItemKeyOf(devs), keys[i]);
      SortKeeps(part, ItemLe(byBytes));
      SumKept(Sort(part, ItemLe(byBytes)), part, f);
    }
    AllConserved(items, ItemKeyOf(devs), keys, f, groups, g);
    SortKeeps(groups, TopLe(byBytes));
    SumKept(Sort(groups, TopLe(byBytes)), groups, g);
  }

  /** Before the cut the top list by device counts what the list by address does. */
  lemma {:induction false} TopConserved(devs: Registry, v4: string -> bool, items: seq<Item>, byBytes: bool, all: seq<TopGroup>)
    requires TopList(devs, v4, items, byBytes, all)
    ensures Sum(all, TOP_COUNT) == Sum(items, COUNT) && Sum(all, TOP_BYTES) == Sum(items, BYTES)
  {
    var keys, groups :| GroupedTop(devs, v4, items, byBytes, keys, groups) && all == Sort(groups, TopLe(byBytes));
    hide GroupedTop, NameOf;
    OneTopCounter(devs, v4, items, byBytes, keys, groups, COUNT, TOP_COUNT);
    OneTopCounter(devs, v4, items, byBytes, keys, groups, BYTES, TOP_BYTES);
  }

  /** The rows of a device in a top list: the most active first, by bytes or by count. */
  lemma {:induction false} ActiveFirst(items: seq<Item>, byBytes: bool, i: nat, j: nat)
    requires i < j < |items|
    ensures var s := Sort(items, ItemLe(byBytes));
            |s| == |items| && if byBytes then s[j].bytes < s[i].bytes || (s[j].bytes == s[i].bytes && s[j].count <= s[i].count)
                              else s[j].count <= s[i].count
  {
    StringLeIsOrder();
    hide StringLe;
    assert TotalOrder(ItemLe(byBytes));
    SortSorted(items, ItemLe(byBytes));
    SortKeeps(items, ItemLe(byBytes));
    assert |Sort(items, ItemLe(byBytes))| == |multiset(Sort(items, ItemLe(byBytes)))| == |multiset(items)| == |items|;
    hide Sort;
  }

  lemma TopLeIsOrder(byBytes: bool)
    ensures TotalOrder(TopLe(byBytes))
  {
    StringLeIsOrder();
    hide StringLe;
  }

  /** A group of a top list is named after its most active address and has exactly the
      addresses of the list with the key of that one. */
  lemma {:induction false} TopMembers(devs: Registry, v4: string -> bool, items: seq<Item>, byBytes: bool,
                                    all: seq<TopGroup>, g: TopGroup, a: string)
    requires TopList(devs, v4, items, byBytes, all) && g in all
    ensures g.addresses != [] && g.addr == g.addresses[0]
    ensures a in g.addresses <==> DeviceKey(devs, a) == DeviceKey(devs, g.addr) && exists x <- items :: x.addr == a
    ensures NameOf(devs, v4, g.addresses) != "" ==> g.name == NameOf(devs, v4, g.addresses)
  {
    var keys, groups :| GroupedTop(devs, v4, items, byBytes, keys, groups) && all == Sort(groups, TopLe(byBytes));
    SortKeeps(groups, TopLe(byBytes));
    SameElements(all, groups);
    var i :| 0 <= i < |groups| && groups[i] == g;
    var part := Select(items, ItemKeyOf(devs), keys[i]);
    var rows := Sort(part, ItemLe(byBytes));
    assert MergesTop(g, devs, v4, rows);
    SortKeeps(part, ItemLe(byBytes));
    SameElements(rows, part);
    SelectIn(items, ItemKeyOf(devs), keys[i]);
    hide Sort, Select, GroupedTop, NameOf, FirstOf;
    assert rows[0] in part && DeviceKey(devs, g.addr) == keys[i];
    InAddrs(rows, a);
    if x :| x in items && x.addr == a && DeviceKey(devs, a) == keys[i] {
      assert x in part;
    }
  }

  lemma InAddrs(items: seq<Item>, a: string)
    ensures a in Addrs(items) <==> exists x <- items :: x.addr == a
  {
    if x :| x in items && x.addr == a {
      var i :| 0 <= i < |items| && items[i] == x;
      assert Addrs(items)[i] == a;
    }
  }

  /** What the cut leaves out has no more bytes, or no higher count, than what it keeps. */
  lemma {:induction false} CutKeepsTheTop(devs: Registry, v4: string -> bool, items: seq<Item>, byBytes: bool,
                                        all: seq<TopGroup>, i: nat, j: nat)
    requires TopList(devs, v4, items, byBytes, all) && i < j < |all|
    ensures if byBytes then all[j].bytes < all[i].bytes || (all[j].bytes == all[i].bytes && all[j].count <= all[i].count)
            else all[j].count <= all[i].count
    ensures all[j].count == all[i].count && all[j].bytes == all[i].bytes ==> StringLe(all[i].addr, all[j].addr)
  {
    var keys, groups :| GroupedTop(devs, v4, items, byBytes, keys, groups) && all == Sort(groups, TopLe(byBytes));
    TopLeIsOrder(byBytes);
    SortSorted(groups, TopLe(byBytes));
  }
}
