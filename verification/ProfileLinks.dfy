/**
 The links to configuration profiles and the throttle of their downloads, in
 memory: two small maps against everything that was ever added or downloaded.
 A token is known by its hash; tokens are random, so no two are the same.
 */
module ProfileLinks {
  import opened Wrappers

  const MAX_PROFILE_LINKS: nat := 32
  const PROFILE_LINK_TTL := 900 // seconds
  const PROFILE_LINK_RATE: nat := 20
  const PROFILE_LINK_KEYS: nat := 256
  const PROFILE_LINK_WINDOW := 60 // seconds

  type Hash = nat
  type Options = string

  /** A client key (netutil.ClientKey). */
  type Client = nat

  datatype Link = Link(opts: Options, created: int, expires: int)

  datatype Hits = Hits(start: int, n: nat)

  // ---- all links ever added -------------------------------------------------------------

  datatype Added = Added(key: Hash, opts: Options, at: int)

  ghost predicate InOrder(adds: seq<Added>) {
    forall i, j :: 0 <= i < j < |adds| ==> adds[i].at < adds[j].at && adds[i].key != adds[j].key
  }

  function IndexOf(adds: seq<Added>, key: Hash): (i: Option<nat>)
    ensures i.Some? ==> i.value < |adds| && adds[i.value].key == key
  {
    if adds == [] then None
    else if adds[|adds| - 1].key == key then Some(|adds| - 1)
    else IndexOf(adds[..|adds| - 1], key)
  }

  /** A link is good until it expires or 32 later links were added. */
  function Good(adds: seq<Added>, key: Hash, now: int): Option<Options> {
    match IndexOf(adds, key)
    case None => None
    case Some(i) =>
      if |adds| - 32 <= i && now < adds[i].at + 900 then Some(adds[i].opts) else None
  }

  function LinkOf(a: Added): Link {
    Link(a.opts, a.at, a.at + PROFILE_LINK_TTL)
  }

  /** What the map of links holds: the links at the indexes `live`. */
  ghost predicate Holds(links: map<Hash, Link>, adds: seq<Added>, live: set<nat>) {
    && InOrder(adds)
    && |links| == |live|
    && HasAll(links, adds, live)
    && HasOnly(links, adds, live)
  }

  ghost predicate HasAll(links: map<Hash, Link>, adds: seq<Added>, live: set<nat>) {
    forall i :: i in live ==> i < |adds| && adds[i].key in links
  }

  ghost predicate HasOnly(links: map<Hash, Link>, adds: seq<Added>, live: set<nat>) {
    forall k :: k in links ==> IsLive(links[k], adds, live, k)
  }

  lemma Ordered(adds: seq<Added>, i: nat, j: nat)
    requires InOrder(adds) && i < |adds| && j < |adds|
    ensures i != j ==> adds[i].key != adds[j].key
    ensures i < j ==> adds[i].at < adds[j].at
  {
  }

  ghost predicate IsLive(l: Link, adds: seq<Added>, live: set<nat>, k: Hash) {
    var i := IndexOf(adds, k);
    i.Some? && i.value in live && l == LinkOf(adds[i.value])
  }

  ghost predicate Expired(a: Added, clock: int) {
    a.at + PROFILE_LINK_TTL <= clock
  }

  /** Only links of the last `max` are held, and of those all that have not
      expired. */
  ghost predicate Current(adds: seq<Added>, live: set<nat>, max: nat, clock: int) {
    && (forall i :: 0 <= i < |adds| ==> adds[i].at <= clock)
    && (forall i :: i in live ==> |adds| - max <= i < |adds|)
    && (forall i: nat :: |adds| - max <= i < |adds| && i !in live ==> Expired(adds[i], clock))
  }

  ghost predicate LinksOk(links: map<Hash, Link>, adds: seq<Added>, live: set<nat>, max: nat, clock: int) {
    Holds(links, adds, live) && Current(adds, live, max, clock)
  }

  ghost function Grown(live: set<nat>, adds: seq<Added>): set<nat> {
    live + {|adds|}
  }

  lemma {:induction false} IndexIs(adds: seq<Added>, i: nat)
    requires InOrder(adds) && i < |adds|
    ensures IndexOf(adds, adds[i].key) == Some(i)
    decreases |adds|
  {
    if i < |adds| - 1 {
      IndexIs(adds[..|adds| - 1], i);
    }
  }

  lemma Later(links: map<Hash, Link>, adds: seq<Added>, live: set<nat>, max: nat, clock: int, now: int)
    requires LinksOk(links, adds, live, max, clock) && clock <= now
    ensures LinksOk(links, adds, live, max, now)
  {
  }

  lemma BeforeNow(links: map<Hash, Link>, adds: seq<Added>, live: set<nat>, max: nat, clock: int, now: int)
    requires LinksOk(links, adds, live, max, clock) && clock < now
    ensures forall i :: 0 <= i < |adds| ==> adds[i].at < now
  {
  }

  lemma DropHolds(links: map<Hash, Link>, adds: seq<Added>, live: set<nat>, k: Hash)
    requires Holds(links, adds, live) && k in links
    ensures IsLive(links[k], adds, live, k)
    ensures Holds(links - {k}, adds, live - {IndexOf(adds, k).value})
  {
    hide IndexOf, InOrder, HasAll, HasOnly;
    ItIsLive(links, adds, live, k);
    var i := IndexOf(adds, k).value;
    assert (links - {k}).Keys == links.Keys - {k};
    DropHasAll(links, adds, live, i);
    DropHasOnly(links, adds, live, k);
  }

  lemma ItIsLive(links: map<Hash, Link>, adds: seq<Added>, live: set<nat>, k: Hash)
    requires HasOnly(links, adds, live) && k in links
    ensures IsLive(links[k], adds, live, k)
  {
  }

  lemma DropHasAll(links: map<Hash, Link>, adds: seq<Added>, live: set<nat>, i: nat)
    requires InOrder(adds) && HasAll(links, adds, live) && i < |adds|
    ensures HasAll(links - {adds[i].key}, adds, live - {i})
  {
    hide InOrder;
    forall j | j in live - {i} ensures adds[j].key in links - {adds[i].key} {
      Ordered(adds, i, j);
    }
  }

  lemma DropHasOnly(links: map<Hash, Link>, adds: seq<Added>, live: set<nat>, k: Hash)
    requires HasOnly(links, adds, live) && IndexOf(adds, k).Some?
    ensures HasOnly(links - {k}, adds, live - {IndexOf(adds, k).value})
  {
    hide IndexOf;
    var links', live' := links - {k}, live - {IndexOf(adds, k).value};
    forall h | h in links' ensures IsLive(links'[h], adds, live', h) {
      assert IsLive(links[h], adds, live, h);
      assert adds[IndexOf(adds, h).value].key == h;
    }
  }

  lemma DropExpired(links: map<Hash, Link>, adds: seq<Added>, live: set<nat>, max: nat, clock: int, k: Hash)
    requires LinksOk(links, adds, live, max, clock) && k in links && links[k].expires <= clock
    ensures IndexOf(adds, k).Some?
    ensures LinksOk(links - {k}, adds, live - {IndexOf(adds, k).value}, max, clock)
  {
    assert Holds(links, adds, live);
    DropHolds(links, adds, live, k);
    ItIsLive(links, adds, live, k);
    hide Holds;
    DropCurrent(adds, live, max, clock, IndexOf(adds, k).value);
  }

  lemma DropCurrent(adds: seq<Added>, live: set<nat>, max: nat, clock: int, i: nat)
    requires Current(adds, live, max, clock) && i < |adds| && Expired(adds[i], clock)
    ensures Current(adds, live - {i}, max, clock)
  {
  }

  /** Some number of a range is missing from a set with fewer numbers. */
  lemma {:induction false} SomeMissing(s: set<nat>, lo: nat, hi: nat)
    requires lo <= hi && |s| < hi - lo
    ensures exists i: nat :: lo <= i < hi && i !in s
  {
    if hi - 1 in s {
      SomeMissing(s - {hi - 1}, lo, hi - 1);
    }
  }

  lemma {:induction false} RangeCount(s: set<nat>, lo: nat, hi: nat)
    requires lo <= hi && forall i :: i in s ==> lo <= i < hi
    ensures |s| <= hi - lo
    decreases hi
  {
    if lo < hi {
      var s' := s - {hi - 1};
      RangeCount(s', lo, hi - 1);
      assert hi - 1 in s ==> s == s' + {hi - 1};
      assert hi - 1 !in s ==> s == s';
    } else {
      assert s == {};
    }
  }

  /** At most 32 links are held. */
  lemma {:induction false} AtMostMax(links: map<Hash, Link>, adds: seq<Added>, live: set<nat>, max: nat, clock: int)
    requires LinksOk(links, adds, live, max, clock)
    ensures |links| <= max
  {
    RangeCount(live, if |adds| < max then 0 else |adds| - max, |adds|);
  }

  ghost predicate NoneExpired(links: map<Hash, Link>, clock: int) {
    forall k :: k in links ==> clock < links[k].expires
  }

  lemma Unexpired(links: map<Hash, Link>, adds: seq<Added>, live: set<nat>, i: nat, clock: int)
    requires Holds(links, adds, live) && NoneExpired(links, clock) && i in live
    ensures !Expired(adds[i], clock) && links[adds[i].key] == LinkOf(adds[i])
  {
    IndexIs(adds, i);
    assert IsLive(links[adds[i].key], adds, live, adds[i].key);
  }

  /** A place of the last 32 without a link has expired, and so has the first of them. */
  lemma MissingExpired(links: map<Hash, Link>, adds: seq<Added>, live: set<nat>, max: nat, clock: int)
    requires LinksOk(links, adds, live, max, clock) && NoneExpired(links, clock) && |links| < max <= |adds|
    ensures Expired(adds[|adds| - max], clock)
  {
    var lo := |adds| - max;
    assert |live| < max && InOrder(adds) && Current(adds, live, max, clock);
    hide Holds, InOrder, NoneExpired, Current;
    SomeMissing(live, lo, |adds|);
    var i: nat :| lo <= i < |adds| && i !in live;
    OlderExpired(adds, live, max, clock, lo, i);
  }

  lemma OlderExpired(adds: seq<Added>, live: set<nat>, max: nat, clock: int, lo: nat, i: nat)
    requires InOrder(adds) && Current(adds, live, max, clock) && |adds| - max <= lo <= i < |adds| && i !in live
    ensures Expired(adds[lo], clock)
  {
    if lo < i {
      Ordered(adds, lo, i);
    }
    assert Expired(adds[i], clock);
  }

  /** With fewer than 32 unexpired links the oldest of the last 32 is not one of
      them: the missing one is no younger and has expired. */
  lemma {:induction false} RoomLeft(links: map<Hash, Link>, adds: seq<Added>, live: set<nat>, max: nat, clock: int)
    requires LinksOk(links, adds, live, max, clock) && NoneExpired(links, clock) && |links| < max
    ensures LinksOk(links, adds, live, max - 1, clock)
  {
    var lo := |adds| - max;
    assert Holds(links, adds, live);
    if lo >= 0 {
      MissingExpired(links, adds, live, max, clock);
      if lo in live {
        Unexpired(links, adds, live, lo, clock);
      }
      hide Holds, NoneExpired;
    }
  }

  /** With 32 links they are the last 32, and the one created first goes. */
  lemma {:induction false} OldestGoes(links: map<Hash, Link>, adds: seq<Added>, live: set<nat>, max: nat, clock: int, k: Hash)
    requires LinksOk(links, adds, live, max, clock) && NoneExpired(links, clock) && |links| >= max > 0
    requires k in links && forall h :: h in links ==> links[k].created <= links[h].created
    ensures IndexOf(adds, k).Some?
    ensures LinksOk(links - {k}, adds, live - {IndexOf(adds, k).value}, max - 1, clock)
  {
    hide IndexOf, InOrder, HasAll, HasOnly;
    OldestIsLive(adds, live, max, clock);
    OldestIs(links, adds, live, |adds| - max, k);
    DropHolds(links, adds, live, k);
    WithoutOldest(adds, live, max, clock);
  }

  lemma CreatedAt(links: map<Hash, Link>, adds: seq<Added>, live: set<nat>, k: Hash)
    requires Holds(links, adds, live) && k in links
    ensures IndexOf(adds, k).Some? && IndexOf(adds, k).value in live
    ensures links[k].created == adds[IndexOf(adds, k).value].at
  {
    ItIsLive(links, adds, live, k);
  }

  lemma OldestIs(links: map<Hash, Link>, adds: seq<Added>, live: set<nat>, lo: nat, k: Hash)
    requires Holds(links, adds, live) && lo in live && forall i :: i in live ==> lo <= i
    requires k in links && forall h :: h in links ==> links[k].created <= links[h].created
    ensures IndexOf(adds, k) == Some(lo)
  {
    hide IndexOf, InOrder;
    HasIt(links, adds, live, lo);
    var h := adds[lo].key;
    CreatedAt(links, adds, live, k);
    CreatedAt(links, adds, live, h);
    IndexIs(adds, lo);
    assert links[k].created <= links[h].created;
    Ordered(adds, lo, IndexOf(adds, k).value);
  }

  lemma HasIt(links: map<Hash, Link>, adds: seq<Added>, live: set<nat>, i: nat)
    requires HasAll(links, adds, live) && i in live
    ensures i < |adds| && adds[i].key in links
  {
  }

  lemma WithoutOldest(adds: seq<Added>, live: set<nat>, max: nat, clock: int)
    requires Current(adds, live, max, clock) && |adds| >= max > 0
    ensures Current(adds, live - {|adds| - max}, max - 1, clock)
  {
  }

  lemma OldestIsLive(adds: seq<Added>, live: set<nat>, max: nat, clock: int)
    requires Current(adds, live, max, clock) && |live| >= max > 0
    ensures |adds| >= max && |adds| - max in live && forall i :: i in live ==> |adds| - max <= i
  {
    if |adds| < max {
      RangeCount(live, 0, |adds|);
    } else if |adds| - max !in live {
      RangeCount(live, |adds| - max + 1, |adds|);
    }
  }

  ghost predicate IsNew(adds: seq<Added>, a: Added) {
    forall i :: 0 <= i < |adds| ==> adds[i].at < a.at && adds[i].key != a.key
  }

  lemma Appended(links: map<Hash, Link>, adds: seq<Added>, live: set<nat>, max: nat, clock: int, a: Added)
    requires max > 0 && LinksOk(links, adds, live, max - 1, clock) && clock <= a.at
    requires IsNew(adds, a)
    ensures LinksOk(links[a.key := LinkOf(a)], adds + [a], Grown(live, adds), max, a.at)
  {
    hide IndexOf, InOrder, HasOnly, HasAll, Current;
    AppendedSize(links, adds, live, a);
    AppendedInOrder(adds, a);
    AppendedHas(links, adds, live, a);
    AppendedCurrent(adds, live, max, clock, a);
  }

  lemma AppendedSize(links: map<Hash, Link>, adds: seq<Added>, live: set<nat>, a: Added)
    requires HasOnly(links, adds, live) && HasAll(links, adds, live) && IsNew(adds, a) && |links| == |live|
    ensures |links[a.key := LinkOf(a)]| == |Grown(live, adds)|
  {
    hide IndexOf;
    assert a.key in links ==> IsLive(links[a.key], adds, live, a.key);
    assert links[a.key := LinkOf(a)].Keys == links.Keys + {a.key};
    assert |adds| !in live;
  }

  lemma AppendedInOrder(adds: seq<Added>, a: Added)
    requires InOrder(adds) && IsNew(adds, a)
    ensures InOrder(adds + [a])
  {
  }

  lemma AppendedHas(links: map<Hash, Link>, adds: seq<Added>, live: set<nat>, a: Added)
    requires HasAll(links, adds, live) && HasOnly(links, adds, live) && InOrder(adds + [a])
    ensures HasAll(links[a.key := LinkOf(a)], adds + [a], Grown(live, adds))
    ensures HasOnly(links[a.key := LinkOf(a)], adds + [a], Grown(live, adds))
  {
    hide IndexOf, InOrder;
    var links', adds', live' := links[a.key := LinkOf(a)], adds + [a], Grown(live, adds);
    forall h | h in links' ensures IsLive(links'[h], adds', live', h) {
      if h == a.key {
        IndexIs(adds', |adds|);
      } else {
        assert IsLive(links[h], adds, live, h);
        IndexIs(adds', IndexOf(adds, h).value);
      }
    }
  }

  lemma AppendedCurrent(adds: seq<Added>, live: set<nat>, max: nat, clock: int, a: Added)
    requires max > 0 && Current(adds, live, max - 1, clock) && clock <= a.at
    ensures Current(adds + [a], Grown(live, adds), max, a.at)
  {
    var adds', live' := adds + [a], Grown(live, adds);
    forall i: nat | |adds'| - max <= i < |adds'| && i !in live' ensures Expired(adds'[i], a.at) {
      assert adds'[i] == adds[i] && Expired(adds[i], clock);
    }
  }

  lemma GoodIsHeld(links: map<Hash, Link>, adds: seq<Added>, live: set<nat>, clock: int, k: Hash)
    requires LinksOk(links, adds, live, MAX_PROFILE_LINKS, clock)
    ensures k !in links ==> Good(adds, k, clock) == None
    ensures k in links ==> Good(adds, k, clock) == if clock < links[k].expires then Some(links[k].opts) else None
  {
    var i := IndexOf(adds, k);
    if k in links {
      assert IsLive(links[k], adds, live, k);
    } else if i.Some? {
      assert i.value !in live;
    }
  }

  // ---- all downloads ever allowed ------------------------------------------------------------

  /** The downloads a client key was allowed in one of its windows. */
  datatype Period = Period(start: int, times: seq<int>)

  ghost predicate Throttled(log: seq<Period>) {
    && (forall i :: 0 <= i < |log| ==> |log[i].times| <= PROFILE_LINK_RATE)
    && (forall i, k :: 0 <= i < |log| && 0 <= k < |log[i].times| ==>
          log[i].start <= log[i].times[k] < log[i].start + PROFILE_LINK_WINDOW)
    && (forall i :: 0 < i < |log| ==> log[i - 1].start + PROFILE_LINK_WINDOW <= log[i].start)
  }

  function CountIn(times: seq<int>, from: int): (n: nat)
    ensures n <= |times|
  {
    if times == [] then 0
    else CountIn(times[..|times| - 1], from)
         + (if from <= times[|times| - 1] < from + 60 then 1 else 0)
  }

  /** How many downloads were allowed in the minute from `from` on. */
  function AllowedIn(log: seq<Period>, from: int): nat {
    if log == [] then 0 else AllowedIn(log[..|log| - 1], from) + CountIn(log[|log| - 1].times, from)
  }

  /** The times of all downloads that were allowed. */
  function Times(log: seq<Period>): seq<int> {
    if log == [] then [] else Times(log[..|log| - 1]) + log[|log| - 1].times
  }

  lemma {:induction false} CountConcat(a: seq<int>, b: seq<int>, from: int)
    ensures CountIn(a + b, from) == CountIn(a, from) + CountIn(b, from)
  {
    if b == [] {
      assert a + b == a;
    } else {
      CountConcat(a, b[..|b| - 1], from);
      assert (a + b)[..|a + b| - 1] == a + b[..|b| - 1];
    }
  }

  lemma {:induction false} AllowedIs(log: seq<Period>, from: int)
    ensures AllowedIn(log, from) == CountIn(Times(log), from)
  {
    if log != [] {
      AllowedIs(log[..|log| - 1], from);
      CountConcat(Times(log[..|log| - 1]), log[|log| - 1].times, from);
    }
  }

  /** Which of these times are in the minute from `from` on. */
  ghost function InMinute(times: seq<int>, from: int): set<nat> {
    set i: nat | i < |times| && from <= times[i] < from + 60
  }

  lemma {:induction false} CountIs(times: seq<int>, from: int)
    ensures CountIn(times, from) == |InMinute(times, from)|
  {
    if times != [] {
      var n := |times| - 1;
      CountIs(times[..n], from);
      assert InMinute(times, from) == InMinute(times[..n], from) + if from <= times[n] < from + 60 then {n} else {};
    }
  }

  lemma {:induction false} CountOutside(times: seq<int>, from: int)
    requires forall k :: 0 <= k < |times| ==> times[k] < from || times[k] >= from + PROFILE_LINK_WINDOW
    ensures CountIn(times, from) == 0
  {
    if times != [] {
      CountOutside(times[..|times| - 1], from);
    }
  }

  lemma {:induction false} StartsIncrease(log: seq<Period>, i: nat)
    requires Throttled(log) && i < |log| - 1
    ensures log[i].start + PROFILE_LINK_WINDOW <= log[|log| - 1].start
    decreases |log|
  {
    if i < |log| - 2 {
      StartsIncrease(log[..|log| - 1], i);
    }
  }

  lemma {:induction false} NoneIn(log: seq<Period>, from: int)
    requires Throttled(log)
    requires log != [] ==> log[|log| - 1].start + PROFILE_LINK_WINDOW <= from
    ensures AllowedIn(log, from) == 0
  {
    if log != [] {
      var before := log[..|log| - 1];
      CountOutside(log[|log| - 1].times, from);
      if before != [] {
        StartsIncrease(log, |log| - 2);
      }
      NoneIn(before, from);
    }
  }

  lemma OnePeriod(log: seq<Period>, from: int)
    requires Throttled(log)
    requires log != [] ==> log[|log| - 1].start < from
    ensures AllowedIn(log, from) <= PROFILE_LINK_RATE
  {
    if log != [] {
      var before := log[..|log| - 1];
      if before != [] {
        StartsIncrease(log, |log| - 2);
      }
      NoneIn(before, from);
    }
  }

  lemma {:induction false} FortyAllowed(log: seq<Period>, from: int)
    requires Throttled(log)
    ensures AllowedIn(log, from) <= 40
  {
    if log != [] {
      var before, last := log[..|log| - 1], log[|log| - 1];
      if last.start >= from + PROFILE_LINK_WINDOW {
        CountOutside(last.times, from);
        FortyAllowed(before, from);
      } else {
        if before != [] {
          StartsIncrease(log, |log| - 2);
        }
        OnePeriod(before, from);
      }
    }
  }

  /** No client key is allowed more than 40 downloads in any minute. */
  lemma {:induction false} AtMostForty(log: seq<Period>, from: int)
    requires Throttled(log)
    ensures |InMinute(Times(log), from)| <= 40
  {
    FortyAllowed(log, from);
    AllowedIs(log, from);
    CountIs(Times(log), from);
  }

  /** The counter of a client key stands for its last period; a key that is not
      tracked has no open one. */
  ghost predicate Tracks(h: Option<Hits>, log: seq<Period>, clock: int) {
    && Throttled(log)
    && match h
       case None => log != [] ==> log[|log| - 1].start + PROFILE_LINK_WINDOW <= clock
       case Some(h) =>
         && log != [] && log[|log| - 1].start == h.start <= clock
         && |log[|log| - 1].times| == if h.n < PROFILE_LINK_RATE then h.n else PROFILE_LINK_RATE
  }

  function HitsOf(hits: map<Client, Hits>, c: Client): Option<Hits> {
    if c in hits then Some(hits[c]) else None
  }

  function LogOf(logs: map<Client, seq<Period>>, c: Client): seq<Period> {
    if c in logs then logs[c] else []
  }

  function WithTime(log: seq<Period>, now: int): seq<Period>
    requires log != []
  {
    log[..|log| - 1] + [log[|log| - 1].(times := log[|log| - 1].times + [now])]
  }

  ghost predicate AllTracked(hits: map<Client, Hits>, logs: map<Client, seq<Period>>, clock: int) {
    forall c :: Tracks(HitsOf(hits, c), LogOf(logs, c), clock)
  }

  lemma TrackedLater(hits: map<Client, Hits>, logs: map<Client, seq<Period>>, clock: int, now: int)
    requires AllTracked(hits, logs, clock) && clock <= now
    ensures AllTracked(hits, logs, now)
  {
    forall c ensures Tracks(HitsOf(hits, c), LogOf(logs, c), now) {
      assert Tracks(HitsOf(hits, c), LogOf(logs, c), clock);
    }
  }

  lemma Forgotten(hits: map<Client, Hits>, logs: map<Client, seq<Period>>, now: int, c: Client)
    requires AllTracked(hits, logs, now) && c in hits && now - hits[c].start >= PROFILE_LINK_WINDOW
    ensures AllTracked(hits - {c}, logs, now)
  {
    forall d ensures Tracks(HitsOf(hits - {c}, d), LogOf(logs, d), now) {
      assert Tracks(HitsOf(hits, d), LogOf(logs, d), now);
    }
  }

  /** A new window of a client key whose last one has passed. */
  lemma Started(hits: map<Client, Hits>, logs: map<Client, seq<Period>>, now: int, c: Client)
    requires AllTracked(hits, logs, now)
    requires c in hits ==> now - hits[c].start >= PROFILE_LINK_WINDOW
    ensures AllTracked(hits[c := Hits(now, 0)], logs[c := LogOf(logs, c) + [Period(now, [])]], now)
    ensures Times(LogOf(logs, c) + [Period(now, [])]) == Times(LogOf(logs, c))
  {
    var log := LogOf(logs, c);
    assert Tracks(HitsOf(hits, c), log, now);
    PeriodAdded(log, now);
    Retracked(hits, logs, now, c, Hits(now, 0), log + [Period(now, [])]);
    assert (log + [Period(now, [])])[..|log|] == log;
  }

  lemma Retracked(hits: map<Client, Hits>, logs: map<Client, seq<Period>>, now: int, c: Client, h: Hits, log: seq<Period>)
    requires AllTracked(hits, logs, now) && Tracks(Some(h), log, now)
    ensures AllTracked(hits[c := h], logs[c := log], now)
  {
    hide Tracks;
    var hits', logs' := hits[c := h], logs[c := log];
    forall d ensures Tracks(HitsOf(hits', d), LogOf(logs', d), now) {
      assert Tracks(HitsOf(hits, d), LogOf(logs, d), now);
    }
  }

  lemma PeriodAdded(log: seq<Period>, now: int)
    requires Throttled(log) && (log != [] ==> log[|log| - 1].start + PROFILE_LINK_WINDOW <= now)
    ensures Tracks(Some(Hits(now, 0)), log + [Period(now, [])], now)
  {
  }

  /** One more download in the open window; only the first 20 are allowed. */
  lemma Counted(hits: map<Client, Hits>, logs: map<Client, seq<Period>>, now: int, c: Client)
    requires AllTracked(hits, logs, now) && c in hits && now - hits[c].start < PROFILE_LINK_WINDOW
    ensures LogOf(logs, c) != []
    ensures var h := hits[c];
            AllTracked(hits[c := h.(n := h.n + 1)],
                       if h.n < PROFILE_LINK_RATE then logs[c := WithTime(LogOf(logs, c), now)] else logs, now)
    ensures Times(WithTime(LogOf(logs, c), now)) == Times(LogOf(logs, c)) + [now]
  {
    var h, log := hits[c], LogOf(logs, c);
    assert Tracks(HitsOf(hits, c), log, now);
    assert log != [];
    hide AllTracked, Tracks, Times, WithTime;
    TimeAdded(h, log, now);
    Retracked(hits, logs, now, c, h.(n := h.n + 1), if h.n < PROFILE_LINK_RATE then WithTime(log, now) else log);
    if h.n >= PROFILE_LINK_RATE {
      SameLog(logs, c);
    }
    WithTimeAdds(log, now);
  }

  lemma SameLog(logs: map<Client, seq<Period>>, c: Client)
    requires LogOf(logs, c) != []
    ensures logs[c := LogOf(logs, c)] == logs
  {
  }

  lemma TimeAdded(h: Hits, log: seq<Period>, now: int)
    requires Tracks(Some(h), log, now) && now < h.start + PROFILE_LINK_WINDOW
    ensures Tracks(Some(h.(n := h.n + 1)), if h.n < PROFILE_LINK_RATE then WithTime(log, now) else log, now)
  {
  }

  lemma WithTimeAdds(log: seq<Period>, now: int)
    requires log != []
    ensures Times(WithTime(log, now)) == Times(log) + [now]
  {
    var next := WithTime(log, now);
    assert next[..|next| - 1] == log[..|log| - 1];
  }

  // ---- the code ------------------------------------------------------------------------------------

  class Store {
    var links: map<Hash, Link>
    var hits: map<Client, Hits>
    ghost var clock: int
    ghost var adds: seq<Added>
    ghost var live: set<nat>
    ghost var logs: map<Client, seq<Period>>

    /** The links are the good ones of all that were added, and the counters
        stand for all downloads that were allowed. */
    ghost predicate Valid()
      reads this
    {
      && LinksOk(links, adds, live, MAX_PROFILE_LINKS, clock)
      && |hits| <= PROFILE_LINK_KEYS
      && AllTracked(hits, logs, clock)
    }

    constructor (now: int)
      ensures Valid() && clock == now && adds == [] && logs == map[]
    {
      links, hits := map[], map[];
      clock, adds, live, logs := now, [], {}, map[];
    }

    /** Stores a link under the hash of its new token; returns its expiry. */
    method Add(key: Hash, opts: Options, now: int) returns (expires: int)
      requires Valid() && now > clock
      requires forall i :: 0 <= i < |adds| ==> adds[i].key != key
      modifies `links, `live, `adds, `clock
      ensures Valid() && clock == now && adds == old(adds) + [Added(key, opts, now)]
      ensures expires == now + 900 && |links| <= 32
    {
      ghost var a, all := Added(key, opts, now), adds;
      BeforeNow(links, adds, live, MAX_PROFILE_LINKS, clock, now);
      assert IsNew(all, a);
      hide LinksOk, AllTracked, NoneExpired, IsNew, Grown;
      MakeRoom(now);
      Appended(links, all, live, MAX_PROFILE_LINKS, now, a);
      links := links[key := Link(opts, now, now + PROFILE_LINK_TTL)];
      live, adds := Grown(live, all), all + [a];
      AtMostMax(links, adds, live, MAX_PROFILE_LINKS, now);
      return now + PROFILE_LINK_TTL;
    }

    method MakeRoom(now: int)
      requires Valid() && now > clock
      modifies `links, `live, `clock
      ensures clock == now && LinksOk(links, adds, live, MAX_PROFILE_LINKS - 1, now)
      ensures |hits| <= PROFILE_LINK_KEYS && AllTracked(hits, logs, now)
    {
      hide LinksOk, AllTracked, NoneExpired;
      Later(links, adds, live, MAX_PROFILE_LINKS, clock, now);
      TrackedLater(hits, logs, clock, now);
      clock := now;
      Expire(now);
      Evict(now);
    }

    /** Deletes the expired links. */
    method Expire(now: int)
      requires LinksOk(links, adds, live, MAX_PROFILE_LINKS, now)
      modifies `links, `live
      ensures LinksOk(links, adds, live, MAX_PROFILE_LINKS, now)
      ensures NoneExpired(links, now)
    {
      hide LinksOk;
      var keys := links.Keys;
      while keys != {}
        invariant LinksOk(links, adds, live, MAX_PROFILE_LINKS, now)
        invariant forall k :: k in links && k !in keys ==> now < links[k].expires
        decreases |keys|
      {
        var k :| k in keys;
        keys := keys - {k};
        if k in links && now >= links[k].expires {
          DropExpired(links, adds, live, MAX_PROFILE_LINKS, now, k);
          links, live := links - {k}, live - {IndexOf(adds, k).value};
        }
      }
    }

    /** Makes room: deletes the oldest link while there are 32. */
    method Evict(now: int)
      requires LinksOk(links, adds, live, MAX_PROFILE_LINKS, now) && NoneExpired(links, now)
      modifies `links, `live
      ensures LinksOk(links, adds, live, MAX_PROFILE_LINKS - 1, now)
    {
      hide LinksOk;
      if |links| < MAX_PROFILE_LINKS {
        RoomLeft(links, adds, live, MAX_PROFILE_LINKS, now);
      }
      while |links| >= MAX_PROFILE_LINKS
        invariant NoneExpired(links, now)
        invariant LinksOk(links, adds, live, if |links| >= MAX_PROFILE_LINKS then MAX_PROFILE_LINKS else MAX_PROFILE_LINKS - 1, now)
        decreases |links|
      {
        var oldest := Oldest(links);
        AtMostMax(links, adds, live, MAX_PROFILE_LINKS, now);
        OldestGoes(links, adds, live, MAX_PROFILE_LINKS, now, oldest);
        assert (links - {oldest}).Keys == links.Keys - {oldest};
        links, live := links - {oldest}, live - {IndexOf(adds, oldest).value};
      }
    }

    /** The options of a valid link; an expired one is deleted. */
    method Get(key: Hash, now: int) returns (r: Option<Options>)
      requires Valid() && now >= clock
      modifies `links, `live, `clock
      ensures Valid() && clock == now
      ensures r == Good(adds, key, now)
    {
      hide LinksOk, AllTracked, Good;
      Later(links, adds, live, MAX_PROFILE_LINKS, clock, now);
      TrackedLater(hits, logs, clock, now);
      GoodIsHeld(links, adds, live, now, key);
      clock := now;
      if key !in links {
        return None;
      }
      var l := links[key];
      if now >= l.expires {
        DropExpired(links, adds, live, MAX_PROFILE_LINKS, now, key);
        links, live := links - {key}, live - {IndexOf(adds, key).value};
        return None;
      }
      return Some(l.opts);
    }

    /** Counts a download of a client key: at most 20 in its window, at most 256
        keys tracked. The log grows by exactly the downloads allowed. */
    method Allow(c: Client, now: int) returns (ok: bool)
      requires Valid() && now >= clock
      modifies `hits, `logs, `clock
      ensures Valid() && clock == now
      ensures forall d :: d != c ==> LogOf(logs, d) == LogOf(old(logs), d)
      ensures Times(LogOf(logs, c)) == Times(LogOf(old(logs), c)) + (if ok then [now] else [])
      ensures !ok <==> if c in old(hits) then now < old(hits)[c].start + 60 && old(hits)[c].n >= 20
                       else |old(hits)| >= 256
                            && forall d :: d in old(hits) ==> now - old(hits)[d].start < 60
    {
      hide LinksOk, AllTracked, Times, WithTime;
      Later(links, adds, live, MAX_PROFILE_LINKS, clock, now);
      TrackedLater(hits, logs, clock, now);
      clock := now;
      if c in hits && now - hits[c].start >= PROFILE_LINK_WINDOW {
        Started(hits, logs, now, c);
        logs := logs[c := LogOf(logs, c) + [Period(now, [])]];
        hits := hits[c := Hits(now, 0)];
      }
      if c !in hits {
        if |hits| >= PROFILE_LINK_KEYS {
          Forget(now);
          assert (forall d :: d in old(hits) ==> now - old(hits)[d].start < PROFILE_LINK_WINDOW) ==> hits == old(hits);
          if |hits| >= PROFILE_LINK_KEYS {
            return false;
          }
        }
        Started(hits, logs, now, c);
        logs := logs[c := LogOf(logs, c) + [Period(now, [])]];
        hits := hits[c := Hits(now, 0)];
      }
      Counted(hits, logs, now, c);
      var h := hits[c];
      if h.n < PROFILE_LINK_RATE {
        logs := logs[c := WithTime(LogOf(logs, c), now)];
      }
      hits := hits[c := h.(n := h.n + 1)];
      return hits[c].n <= PROFILE_LINK_RATE;
    }

    /** Deletes the client keys whose window has passed. */
    method Forget(now: int)
      requires AllTracked(hits, logs, now)
      modifies `hits
      ensures AllTracked(hits, logs, now)
      ensures |hits| <= |old(hits)|
      ensures hits == map c | c in old(hits) && now - old(hits)[c].start < PROFILE_LINK_WINDOW :: old(hits)[c]
      ensures |hits| == |old(hits)| ==> hits == old(hits)
    {
      hide AllTracked;
      var keys := hits.Keys;
      while keys != {}
        invariant AllTracked(hits, logs, now)
        invariant keys <= old(hits).Keys
        invariant |hits| <= |old(hits)| && (|hits| == |old(hits)| ==> hits == old(hits))
        invariant forall c :: c in hits <==> c in old(hits) && (c in keys || now - old(hits)[c].start < PROFILE_LINK_WINDOW)
        invariant forall c :: c in hits ==> hits[c] == old(hits)[c]
        decreases |keys|
      {
        var k :| k in keys;
        keys := keys - {k};
        if now - hits[k].start >= PROFILE_LINK_WINDOW {
          Forgotten(hits, logs, now, k);
          assert (hits - {k}).Keys == hits.Keys - {k};
          hits := hits - {k};
        }
      }
    }
  }

  /** The key of the link created first. */
  method Oldest(links: map<Hash, Link>) returns (oldest: Hash)
    requires links != map[]
    ensures oldest in links && forall k :: k in links ==> links[oldest].created <= links[k].created
  {
    var keys := links.Keys;
    var first: Option<Hash> := None;
    while keys != {}
      invariant keys <= links.Keys
      invariant first.None? ==> keys == links.Keys
      invariant first.Some? ==> first.value in links
      invariant first.Some? ==> forall k :: k in links && k !in keys ==> links[first.value].created <= links[k].created
      decreases |keys|
    {
      var k :| k in keys;
      keys := keys - {k};
      if first.None? || links[k].created < links[first.value].created {
        first := Some(k);
      }
    }
    return first.value;
  }
}
