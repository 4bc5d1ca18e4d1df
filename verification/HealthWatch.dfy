/**
 The debounced health and storage messages: a few fields per check stand for
 the whole history of its evaluations.
 */
module HealthWatch {
  import opened Sorting
  import opened Wrappers

  datatype Check = Check(name: string, status: string, message: string, hint: string)

  datatype Message = Problem(check: Check) | Recovered(name: string)

  /** One entry of a check's history: an evaluation that listed it, or one that
      did not. */
  datatype Event = Seen(check: Check) | Gone

  predicate IsProblem(status: string) {
    status == "warn" || status == "fail"
  }

  // ---- what a history says --------------------------------------------------------------

  function Last(trace: seq<Event>): Event
    requires trace != []
  {
    trace[|trace| - 1]
  }

  function Before(trace: seq<Event>): seq<Event>
    requires trace != []
  {
    trace[..|trace| - 1]
  }

  predicate SaidBefore(trace: seq<Event>)
    requires trace != []
  {
    && Last(trace).Seen?
    && Before(trace) != []
    && Last(Before(trace)).Seen?
    && Last(Before(trace)).check.status == Last(trace).check.status
  }

  /** How often in a row the last status was seen. */
  function Repeats(trace: seq<Event>): nat {
    if trace == [] || Last(trace).Gone? then 0
    else if SaidBefore(trace) then Repeats(Before(trace)) + 1
    else 1
  }

  /** The message sent at the last event of a history: a problem when this and
      the previous evaluation say it and the last message was not that problem,
      a recovery when the check is ok or gone and the last message was a
      problem. */
  function Says(trace: seq<Event>, name: string): Option<Message>
    requires trace != []
    decreases |trace|, 0
  {
    match Last(trace)
    case Gone => if Told(Before(trace), name) != "" then Some(Recovered(name)) else None
    case Seen(c) =>
      if c.status == "ok" then
        if Told(Before(trace), name) != "" then Some(Recovered(name)) else None
      else if IsProblem(c.status) && SaidBefore(trace) && Told(Before(trace), name) != c.status then Some(Problem(c))
      else None
  }

  /** The problem of the last message, "" when there is none or it was a
      recovery. */
  function Told(trace: seq<Event>, name: string): string
    decreases |trace|, 1
  {
    if trace == [] then ""
    else
      match Says(trace, name)
      case Some(Problem(c)) => c.status
      case Some(Recovered(_)) => ""
      case None => Told(Before(trace), name)
  }

  /** Whenever a check is ok or gone its last message is not a problem. */
  lemma {:induction false} OkIsNoProblem(trace: seq<Event>, name: string)
    requires trace == [] || Last(trace).Gone? || Last(trace).check.status == "ok"
    ensures Told(trace, name) == ""
  {
  }

  /** A recovery only follows a reported problem: the message before it is one,
      and no message is sent in between. */
  lemma {:induction false} ToldWasSent(trace: seq<Event>, name: string)
    requires Told(trace, name) != ""
    ensures exists k :: 0 < k <= |trace| && SentAt(trace, name, k, Told(trace, name))
  {
    match Says(trace, name)
    case Some(m) =>
      assert trace[..|trace|] == trace;
      assert SentAt(trace, name, |trace|, Told(trace, name));
    case None =>
      var before := Before(trace);
      ToldWasSent(before, name);
      var k :| 0 < k <= |before| && SentAt(before, name, k, Told(before, name));
      assert before[..k] == trace[..k];
      forall j | k < j <= |trace| ensures Says(trace[..j], name) == None {
        if j == |trace| {
          assert trace[..j] == trace;
        } else {
          assert before[..j] == trace[..j];
        }
      }
      assert SentAt(trace, name, k, Told(trace, name));
  }

  ghost predicate SentAt(trace: seq<Event>, name: string, k: nat, status: string)
    requires 0 < k <= |trace|
  {
    && Says(trace[..k], name).Some? && Says(trace[..k], name).value.Problem?
    && Says(trace[..k], name).value.check.status == status
    && forall j :: k < j <= |trace| ==> Says(trace[..j], name) == None
  }

  lemma {:induction false} RecoveryFollowsProblem(trace: seq<Event>, name: string)
    requires trace != [] && Says(trace, name) == Some(Recovered(name))
    ensures exists k :: 0 < k < |trace| && SentAt(Before(trace), name, k, Told(Before(trace), name))
    ensures IsProblem(Told(Before(trace), name))
  {
    ToldWasSent(Before(trace), name);
    ToldIsProblem(Before(trace), name);
  }

  lemma {:induction false} ToldIsProblem(trace: seq<Event>, name: string)
    ensures Told(trace, name) == "" || IsProblem(Told(trace, name))
  {
    if trace != [] {
      ToldIsProblem(Before(trace), name);
    }
  }

  /** A problem seen twice in a row has been reported. */
  lemma {:induction false} TwiceIsTold(trace: seq<Event>, name: string)
    requires trace != [] && SaidBefore(trace) && IsProblem(Last(trace).check.status)
    ensures Told(trace, name) == Last(trace).check.status
  {
  }

  /** The remembered problem is the one of the last message, in both directions. */
  lemma {:induction false} SentIsTold(trace: seq<Event>, name: string, k: nat, status: string)
    requires 0 < k <= |trace| && SentAt(trace, name, k, status)
    ensures Told(trace, name) == status
  {
    if k == |trace| {
      assert trace[..k] == trace;
    } else {
      var before := Before(trace);
      assert before[..k] == trace[..k] && trace[..|trace|] == trace;
      forall j | k < j <= |before| ensures Says(before[..j], name) == None {
        assert before[..j] == trace[..j];
      }
      SentIsTold(before, name, k, status);
    }
  }

  /** The last message of the history is this problem. */
  ghost predicate LastSaid(trace: seq<Event>, name: string, status: string) {
    exists k :: 0 < k <= |trace| && SentAt(trace, name, k, status)
  }

  lemma LastSaidIsTold(trace: seq<Event>, name: string, status: string)
    ensures LastSaid(trace, name, status) <==> Told(trace, name) == status && status != ""
  {
    if Told(trace, name) == status && status != "" {
      ToldWasSent(trace, name);
    }
    if k :| 0 < k <= |trace| && SentAt(trace, name, k, status) {
      SentIsTold(trace, name, k, status);
      assert status == "warn" || status == "fail";
    }
  }

  /** When a message is sent: a problem exactly when the last two evaluations list the
      check as warn, or both as fail, and the last message is not that problem; a recovery
      exactly when the check is ok or not listed and the last message is a problem. */
  lemma {:induction false} SaidExactly(trace: seq<Event>, name: string)
    requires trace != []
    ensures var n := |trace|; var said := Says(trace, name);
            ((exists c :: said == Some(Problem(c)))
       <==> && n >= 2 && trace[n - 1].Seen? && trace[n - 2].Seen?
            && trace[n - 2].check.status == trace[n - 1].check.status
            && (trace[n - 1].check.status == "warn" || trace[n - 1].check.status == "fail")
            && !LastSaid(trace[..n - 1], name, trace[n - 1].check.status))
    ensures forall c :: Says(trace, name) == Some(Problem(c)) ==> trace[|trace| - 1] == Seen(c)
    ensures var last := trace[|trace| - 1];
            ((exists other :: Says(trace, name) == Some(Recovered(other)))
       <==> && (last.Gone? || last.check.status == "ok")
            && (LastSaid(trace[..|trace| - 1], name, "warn") || LastSaid(trace[..|trace| - 1], name, "fail")))
    ensures forall other :: Says(trace, name) == Some(Recovered(other)) ==> other == name
  {
    var before, last := Before(trace), Last(trace);
    ToldIsProblem(before, name);
    LastSaidIsTold(before, name, "warn");
    LastSaidIsTold(before, name, "fail");
    if last.Seen? {
      LastSaidIsTold(before, name, last.check.status);
    }
    hide Told, LastSaid;
    var said := Says(trace, name);
    assert said.Some? && said.value.Problem? ==> said == Some(Problem(last.check));
    assert said.Some? && said.value.Recovered? ==> said == Some(Recovered(name));
  }

  // ---- the history of a check ---------------------------------------------------------------

  function SeenIn(checks: seq<Check>, name: string): seq<Event> {
    if checks == [] then []
    else
      var c := checks[|checks| - 1];
      SeenIn(checks[..|checks| - 1], name) + (if c.name == name then [Seen(c)] else [])
  }

  function EventsOf(checks: seq<Check>, name: string): seq<Event> {
    if SeenIn(checks, name) == [] then [Gone] else SeenIn(checks, name)
  }

  function Trace(history: seq<seq<Check>>, name: string): seq<Event> {
    if history == [] then []
    else Trace(history[..|history| - 1], name) + EventsOf(history[|history| - 1], name)
  }

  /** An evaluation that lists no name twice is one event of every check. */
  lemma {:induction false} OneEventEach(checks: seq<Check>, name: string)
    requires forall i, j :: 0 <= i < j < |checks| ==> checks[i].name != checks[j].name
    ensures |EventsOf(checks, name)| == 1
    ensures forall i :: 0 <= i < |checks| && checks[i].name == name ==> EventsOf(checks, name) == [Seen(checks[i])]
  {
    SeenOnce(checks, name);
  }

  lemma {:induction false} SeenOnce(checks: seq<Check>, name: string)
    requires forall i, j :: 0 <= i < j < |checks| ==> checks[i].name != checks[j].name
    ensures (forall i :: 0 <= i < |checks| ==> checks[i].name != name) ==> SeenIn(checks, name) == []
    ensures forall i :: 0 <= i < |checks| && checks[i].name == name ==> SeenIn(checks, name) == [Seen(checks[i])]
  {
    if checks != [] {
      var before, c := checks[..|checks| - 1], checks[|checks| - 1];
      SeenOnce(before, name);
      assert forall i :: 0 <= i < |before| ==> before[i] == checks[i];
      if c.name == name {
        assert forall i :: 0 <= i < |before| ==> before[i].name != name;
      }
    }
  }

  /** The messages about the checks of an evaluation, in their order. */
  function Spoken(history: seq<seq<Check>>, checks: seq<Check>): seq<Message> {
    if checks == [] then []
    else
      var c := checks[|checks| - 1];
      var said := Says(Trace(history, c.name) + SeenIn(checks, c.name), c.name);
      Spoken(history, checks[..|checks| - 1]) + (if said.Some? then [said.value] else [])
  }

  function Recoveries(names: seq<string>): seq<Message> {
    if names == [] then [] else Recoveries(names[..|names| - 1]) + [Recovered(names[|names| - 1])]
  }

  lemma {:induction false} RecoveriesAre(names: seq<string>)
    ensures |Recoveries(names)| == |names| && forall i :: 0 <= i < |names| ==> Recoveries(names)[i] == Recovered(names[i])
  {
    if names != [] {
      RecoveriesAre(names[..|names| - 1]);
    }
  }

  // ---- the code ---------------------------------------------------------------------------------

  /** The last status, how often in a row, and the problem reported last. */
  datatype Watch = Watch(status: string, count: nat, notified: string)

  ghost predicate StandsFor(w: Option<Watch>, trace: seq<Event>, name: string) {
    w == if trace == [] || Last(trace).Gone? then None
         else Some(Watch(Last(trace).check.status, Repeats(trace), Told(trace, name)))
  }

  function Get(m: map<string, Watch>, name: string): Option<Watch> {
    if name in m then Some(m[name]) else None
  }

  /** What one evaluation of a check makes of its entry, and the message it causes. */
  function Noted(w: Option<Watch>, c: Check): (Watch, Option<Message>) {
    var w0 := if w.Some? then w.value else Watch("", 0, "");
    var count := if c.status == w0.status then w0.count + 1 else 1;
    if c.status == "ok" then
      (Watch(c.status, count, ""), if w0.notified != "" then Some(Recovered(c.name)) else None)
    else if IsProblem(c.status) && count >= 2 && w0.notified != c.status then
      (Watch(c.status, count, c.status), Some(Problem(c)))
    else (Watch(c.status, count, w0.notified), None)
  }

  lemma SeenStep(w: Option<Watch>, trace: seq<Event>, c: Check)
    requires StandsFor(w, trace, c.name)
    ensures Says(trace + [Seen(c)], c.name) == Noted(w, c).1
    ensures StandsFor(Some(Noted(w, c).0), trace + [Seen(c)], c.name)
  {
    var next := trace + [Seen(c)];
    assert Before(next) == trace && Last(next) == Seen(c);
    if trace != [] && Last(trace).Seen? {
      assert Repeats(trace) >= 1;
    } else {
      OkIsNoProblem(trace, c.name);
    }
  }

  /** The entries after the history and the checks of an evaluation seen so far. */
  ghost predicate Follow(checks: map<string, Watch>, history: seq<seq<Check>>, list: seq<Check>) {
    forall n :: StandsFor(Get(checks, n), Trace(history, n) + SeenIn(list, n), n)
  }

  ghost predicate SeenNames(seen: set<string>, list: seq<Check>) {
    forall n :: n in seen <==> SeenIn(list, n) != []
  }

  lemma SeenInNext(list: seq<Check>, c: Check, n: string)
    ensures SeenIn(list + [c], n) == SeenIn(list, n) + if c.name == n then [Seen(c)] else []
  {
    assert (list + [c])[..|list|] == list;
  }

  lemma FollowNext(checks: map<string, Watch>, history: seq<seq<Check>>, list: seq<Check>, c: Check)
    requires Follow(checks, history, list)
    ensures Follow(checks[c.name := Noted(Get(checks, c.name), c).0], history, list + [c])
    ensures Spoken(history, list + [c])
         == Spoken(history, list) + (var m := Noted(Get(checks, c.name), c).1; if m.Some? then [m.value] else [])
  {
    var next := checks[c.name := Noted(Get(checks, c.name), c).0];
    var trace := Trace(history, c.name) + SeenIn(list, c.name);
    SeenStep(Get(checks, c.name), trace, c);
    SeenInNext(list, c, c.name);
    assert trace + [Seen(c)] == Trace(history, c.name) + SeenIn(list + [c], c.name);
    assert (list + [c])[..|list|] == list;
    hide StandsFor, Says, Trace, SeenIn;
    forall n ensures StandsFor(Get(next, n), Trace(history, n) + SeenIn(list + [c], n), n) {
      SeenInNext(list, c, n);
      if n != c.name {
        assert Get(next, n) == Get(checks, n) && SeenIn(list, n) + [] == SeenIn(list, n);
      }
    }
  }

  lemma SeenNext(seen: set<string>, list: seq<Check>, c: Check)
    requires SeenNames(seen, list)
    ensures SeenNames(seen + {c.name}, list + [c])
  {
    forall n ensures n in seen + {c.name} <==> SeenIn(list + [c], n) != [] {
      SeenInNext(list, c, n);
    }
  }

  lemma NothingSeen(checks: map<string, Watch>, history: seq<seq<Check>>)
    requires forall n :: StandsFor(Get(checks, n), Trace(history, n), n)
    ensures Follow(checks, history, []) && SeenNames({}, []) && Spoken(history, []) == []
  {
    hide StandsFor, Trace;
    forall n ensures Trace(history, n) + SeenIn([], n) == Trace(history, n) {}
  }

  class HealthWatch {
    var checks: map<string, Watch>
    ghost var history: seq<seq<Check>>

    ghost predicate Valid()
      reads this
    {
      forall name :: StandsFor(Get(checks, name), Trace(history, name), name)
    }

    constructor ()
      ensures Valid() && history == []
    {
      checks := map[];
      history := [];
    }

    /** One evaluation of the health checks and the messages it causes: first
        those about the checks it lists, in their order, then the recoveries of
        the reported checks it no longer lists, by name. */
    method Observe(list: seq<Check>) returns (out: seq<Message>, ghost gone: seq<string>)
      requires Valid()
      modifies this
      ensures Valid() && history == old(history) + [list]
      ensures var said := Spoken(old(history), list);
              |out| == |said| + |gone| && out[..|said|] == said && forall i :: 0 <= i < |gone| ==> out[|said| + i] == Recovered(gone[i])
      ensures Sorted(gone, StringLe) && Distinct(gone)
      ensures forall n :: n in gone <==> SeenIn(list, n) == [] && Told(Trace(old(history), n), n) != ""
    {
      hide StandsFor, Says, Told, Trace, SeenIn, Follow, SeenNames, Spoken, Noted;
      out := [];
      var seen := {};
      assert list[..0] == [];
      NothingSeen(checks, history);
      for i := 0 to |list|
        invariant history == old(history)
        invariant Follow(checks, history, list[..i]) && SeenNames(seen, list[..i])
        invariant out == Spoken(history, list[..i])
      {
        assert list[..i + 1] == list[..i] + [list[i]];
        FollowNext(checks, history, list[..i], list[i]);
        SeenNext(seen, list[..i], list[i]);
        seen := seen + {list[i].name};
        var m := Note(list[i]);
        if m.Some? {
          out := out + [m.value];
        }
      }
      assert list[..|list|] == list;
      ghost var all := checks;
      var absent := Forget(seen);
      gone := Sort(absent, StringLe);
      RecoveriesAre(gone);
      out := out + Recoveries(Sort(absent, StringLe));
      ghost var was := history;
      history := history + [list];
      Evaluated(was, list, all, checks, seen, absent);
    }

    /** Counts the status of a check and says what is to be reported. */
    method Note(c: Check) returns (m: Option<Message>)
      modifies `checks
      ensures checks == old(checks)[c.name := Noted(Get(old(checks), c.name), c).0]
      ensures m == Noted(Get(old(checks), c.name), c).1
    {
      m := None;
      var w := if c.name in checks then checks[c.name] else Watch("", 0, "");
      if c.status == w.status {
        w := w.(count := w.count + 1);
      } else {
        w := w.(status := c.status, count := 1);
      }
      if c.status == "ok" {
        if w.notified != "" {
          w := w.(notified := "");
          m := Some(Recovered(c.name));
        }
      } else if (c.status == "warn" || c.status == "fail") && w.count >= 2 && w.notified != c.status {
        w := w.(notified := c.status);
        m := Some(Problem(c));
      }
      checks := checks[c.name := w];
    }

    /** Deletes the checks that were not seen; returns the reported ones. */
    method Forget(seen: set<string>) returns (absent: seq<string>)
      modifies `checks
      ensures forall n :: Get(checks, n) == if n in seen then Get(old(checks), n) else None
      ensures forall n :: n in absent <==> n in old(checks) && n !in seen && old(checks)[n].notified != ""
      ensures Distinct(absent)
    {
      var names := checks.Keys;
      absent := [];
      while names != {}
        invariant names <= old(checks).Keys
        invariant forall n :: n in checks <==> n in old(checks) && (n in names || n in seen)
        invariant forall n :: n in checks ==> checks[n] == old(checks)[n]
        invariant forall n :: n in absent <==> n in old(checks) && n !in names && n !in seen && old(checks)[n].notified != ""
        invariant forall i, j :: 0 <= i < j < |absent| ==> absent[i] != absent[j]
        decreases |names|
      {
        var n :| n in names;
        names := names - {n};
        if n !in seen {
          if checks[n].notified != "" {
            absent := absent + [n];
          }
          checks := checks - {n};
        }
      }
    }
  }

  /** Once the checks that are gone were forgotten. */
  lemma Evaluated(was: seq<seq<Check>>, list: seq<Check>, all: map<string, Watch>, checks: map<string, Watch>,
                  seen: set<string>, absent: seq<string>)
    requires Follow(all, was, list) && SeenNames(seen, list)
    requires forall n :: Get(checks, n) == if n in seen then Get(all, n) else None
    requires forall n :: n in absent <==> n in all && n !in seen && all[n].notified != ""
    requires Distinct(absent)
    ensures var gone := Sort(absent, StringLe);
            && Sorted(gone, StringLe) && Distinct(gone)
            && forall n :: n in gone <==> SeenIn(list, n) == [] && Told(Trace(was, n), n) != ""
    ensures forall n :: StandsFor(Get(checks, n), Trace(was + [list], n), n)
  {
    hide StandsFor, Told, Trace, SeenIn, StringLe, Sort, Sorted, Distinct;
    StringLeIsOrder();
    SortOfDistinct(absent, StringLe);
    forall n
      ensures n in absent <==> SeenIn(list, n) == [] && Told(Trace(was, n), n) != ""
      ensures StandsFor(Get(checks, n), Trace(was + [list], n), n)
    {
      GoneOrSeen(was, list, n, all);
    }
  }

  lemma GoneOrSeen(was: seq<seq<Check>>, list: seq<Check>, n: string, all: map<string, Watch>)
    requires StandsFor(Get(all, n), Trace(was, n) + SeenIn(list, n), n)
    ensures Trace(was + [list], n) == Trace(was, n) + EventsOf(list, n)
    ensures SeenIn(list, n) == [] ==> (Told(Trace(was, n), n) != "" <==> n in all && all[n].notified != "")
    ensures SeenIn(list, n) == [] ==> StandsFor(None, Trace(was + [list], n), n)
    ensures SeenIn(list, n) != [] ==> StandsFor(Get(all, n), Trace(was + [list], n), n)
  {
    assert (was + [list])[..|was|] == was;
    if SeenIn(list, n) == [] {
      assert Trace(was, n) + [] == Trace(was, n);
      if n !in all {
        OkIsNoProblem(Trace(was, n), n);
      }
    }
  }

  // ---- the cache store ---------------------------------------------------------------------------

  datatype StoreMessage = Online | Offline

  datatype StoreEvent = StoreEvent(online: bool, now: int)

  const STORE_OFFLINE_DELAY := 120 // seconds

  /** When the store went offline: the first observation of the offline run the
      history ends with. */
  function OfflineSince(events: seq<StoreEvent>): Option<int> {
    if events == [] || events[|events| - 1].online then None
    else
      match OfflineSince(events[..|events| - 1])
      case Some(t) => Some(t)
      case None => Some(events[|events| - 1].now)
  }

  /** Some observation of that run came after the delay. */
  function LongOffline(events: seq<StoreEvent>): bool {
    events != [] && !events[|events| - 1].online
    && (LongOffline(events[..|events| - 1])
        || events[|events| - 1].now - OfflineSince(events).value >= STORE_OFFLINE_DELAY)
  }

  /** The history ends with an offline run that begins at place k. */
  predicate RunFrom(events: seq<StoreEvent>, k: nat) {
    k < |events| && (forall j :: k <= j < |events| ==> !events[j].online) && (k > 0 ==> events[k - 1].online)
  }

  /** The store is offline since the first observation of the offline run. */
  lemma {:induction false} OfflineSinceMeans(events: seq<StoreEvent>, k: nat)
    requires RunFrom(events, k)
    ensures OfflineSince(events) == Some(events[k].now)
  {
    var before := events[..|events| - 1];
    if k < |before| {
      assert forall j :: k <= j < |before| ==> before[j] == events[j];
      assert k > 0 ==> before[k - 1] == events[k - 1];
      OfflineSinceMeans(before, k);
    } else if k > 0 {
      assert before[|before| - 1] == events[k - 1];
    }
  }

  /** The run is reported exactly when one of its observations is two minutes or more after
      its first one. */
  lemma {:induction false} LongOfflineMeans(events: seq<StoreEvent>, k: nat)
    requires RunFrom(events, k)
    ensures LongOffline(events) <==> exists j :: k <= j < |events| && events[j].now - events[k].now >= 120
  {
    var before := events[..|events| - 1];
    OfflineSinceMeans(events, k);
    if k < |before| {
      assert forall j :: k <= j < |before| ==> before[j] == events[j];
      assert k > 0 ==> before[k - 1] == events[k - 1];
      LongOfflineMeans(before, k);
    } else if k > 0 {
      assert before[|before| - 1] == events[k - 1];
    }
  }

  /** An online history ends with no such run. */
  lemma OnlineIsNotOffline(events: seq<StoreEvent>)
    requires events == [] || events[|events| - 1].online
    ensures OfflineSince(events) == None && !LongOffline(events)
  {
  }

  class StoreWatch {
    var offlineSince: Option<int>
    var notified: bool
    ghost var history: seq<StoreEvent>

    /** notified says whether the run the history ends with was reported. */
    ghost predicate Valid()
      reads this
    {
      offlineSince == OfflineSince(history) && notified == LongOffline(history)
    }

    constructor ()
      ensures Valid() && history == []
    {
      offlineSince, notified, history := None, false, [];
    }

    /** Offline is sent once in an offline run, when it has lasted for the delay;
        online once it ends, only if offline was sent. */
    method Observe(online: bool, now: int) returns (m: Option<StoreMessage>)
      requires Valid()
      modifies this
      ensures Valid() && history == old(history) + [StoreEvent(online, now)]
      ensures m == if online && LongOffline(old(history)) then Some(Online)
                   else if !online && LongOffline(history) && !LongOffline(old(history)) then Some(Offline)
                   else None
    {
      ghost var was := history;
      history := history + [StoreEvent(online, now)];
      assert history[..|history| - 1] == was;
      if online {
        offlineSince := None;
        if !notified {
          return None;
        }
        notified := false;
        return Some(Online);
      }
      if offlineSince.None? {
        offlineSince := Some(now);
      }
      if notified || now - offlineSince.value < STORE_OFFLINE_DELAY {
        return None;
      }
      notified := true;
      return Some(Offline);
    }
  }
}
