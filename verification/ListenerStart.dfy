/**
 Binding the listeners at a start and writing the result back for the next one:
 saved roles are bound completely or fall back to the values of the host, and
 three files in the data directory say what was asked for and what was bound.
 */
module ListenerStart {
  import opened ListenerRules
  import opened Wrappers

  /** A socket asked of the system: UDP or TCP on an address. */
  datatype Socket = Socket(udp: bool, addr: Listener)

  /** The other sockets of the host, as the system answers: whether a socket can
      be opened while PiCache holds others. A socket cannot be opened twice. */
  datatype World = World(canOpen: (Socket, set<Socket>) -> bool)

  ghost predicate ValidWorld(w: World) {
    forall s, held :: w.canOpen(s, held) ==> s !in held
  }

  datatype Config = Config(values: Set, locked: set<Role>, runAs: bool)

  /** A listeners file: missing, not readable as one, or a set of roles. */
  datatype File = Absent | Broken | Roles(s: Set)

  datatype Files = Files(next: File, current: File, failed: File)

  /** What ReadListenersFile gives: a set that breaks the rules is as broken. */
  function Read(f: File): File {
    if f.Roles? && !ValidFile(f.s) then Broken else f
  }

  /** The saved set of a start: listeners.next.json, else listeners.json; a broken
      next set gives way to the current one. */
  function Candidate(cfg: Config, files: Files): Option<Set> {
    if cfg.runAs then None
    else if Read(files.next).Roles? then Some(files.next.s)
    else if Read(files.current).Roles? then Some(files.current.s)
    else None
  }

  function FromNext(cfg: Config, files: Files): bool {
    !cfg.runAs && Read(files.next).Roles?
  }

  function SocketsOf(r: Role, addrs: seq<Listener>): seq<Socket> {
    if addrs == [] then []
    else
      var a := addrs[|addrs| - 1];
      SocketsOf(r, addrs[..|addrs| - 1])
      + (match r
         case Dns => [Socket(true, a), Socket(false, a)]
         case Ntp => [Socket(true, a)]
         case _ => [Socket(false, a)])
  }

  function ToSet(ss: seq<Socket>): set<Socket> {
    set s | s in ss
  }

  // ---- what a start does -----------------------------------------------------------------

  /** All of the sockets open one after the other. */
  predicate AllOpen(w: World, held: set<Socket>, ss: seq<Socket>) {
    ss == [] || (AllOpen(w, held, ss[..|ss| - 1]) && w.canOpen(ss[|ss| - 1], held + ToSet(ss[..|ss| - 1])))
  }

  /** The ones that open, the others are left out. */
  function Opened(w: World, held: set<Socket>, ss: seq<Socket>): seq<Socket> {
    if ss == [] then []
    else
      var before := Opened(w, held, ss[..|ss| - 1]);
      if w.canOpen(ss[|ss| - 1], held + ToSet(before)) then before + [ss[|ss| - 1]] else before
  }

  /** The sockets bound for each role, all sockets held, and the saved roles that
      fell back. */
  datatype Outcome = Outcome(bound: map<Role, seq<Socket>>, held: set<Socket>, fellBack: set<Role>)

  function Saved(cfg: Config, candidate: Option<Set>, r: Role): Option<seq<Listener>> {
    if candidate.Some? && r in candidate.value && r !in cfg.locked then Some(candidate.value[r]) else None
  }

  predicate SavedBinds(w: World, cfg: Config, candidate: Option<Set>, held: set<Socket>, r: Role) {
    var saved := Saved(cfg, candidate, r);
    saved.Some? && AllOpen(w, held, SocketsOf(r, saved.value))
  }

  function RoleSockets(w: World, cfg: Config, candidate: Option<Set>, held: set<Socket>, r: Role): seq<Socket> {
    if SavedBinds(w, cfg, candidate, held, r) then SocketsOf(r, Saved(cfg, candidate, r).value)
    else
      var values := SocketsOf(r, Get(cfg.values, r));
      if r.Dns? then values else Opened(w, held, values)
  }

  function BindRole(w: World, cfg: Config, candidate: Option<Set>, o: Outcome, r: Role): Outcome {
    var ss := RoleSockets(w, cfg, candidate, o.held, r);
    var fails := Saved(cfg, candidate, r).Some? && !SavedBinds(w, cfg, candidate, o.held, r);
    Outcome(o.bound[r := ss], o.held + ToSet(ss), if fails then o.fellBack + {r} else o.fellBack)
  }

  function BindRoles(w: World, cfg: Config, candidate: Option<Set>, roles: seq<Role>, o: Outcome): Outcome {
    if roles == [] then o
    else BindRole(w, cfg, candidate, BindRoles(w, cfg, candidate, roles[..|roles| - 1], o), roles[|roles| - 1])
  }

  const NOTHING: Outcome := Outcome(map[], {}, {})

  /** The addresses of DNS cannot be bound: neither the saved ones nor the values
      of the host. */
  predicate NoDns(w: World, cfg: Config, candidate: Option<Set>) {
    && !SavedBinds(w, cfg, candidate, {}, Dns)
    && !AllOpen(w, {}, SocketsOf(Dns, Get(cfg.values, Dns)))
  }

  function UpToWeb(w: World, cfg: Config, candidate: Option<Set>): Outcome {
    BindRoles(w, cfg, candidate, [Dns, Cache, Sni, Web, WebTls], NOTHING)
  }

  predicate NoWeb(w: World, cfg: Config, candidate: Option<Set>) {
    var o := UpToWeb(w, cfg, candidate);
    Web in o.bound && WebTls in o.bound && o.bound[Web] == [] && o.bound[WebTls] == []
  }

  /** The start ends with an error. */
  predicate Exits(w: World, cfg: Config, candidate: Option<Set>) {
    NoDns(w, cfg, candidate) || NoWeb(w, cfg, candidate)
  }

  function StartResult(w: World, cfg: Config, candidate: Option<Set>): Outcome {
    BindRoles(w, cfg, candidate, ROLES, NOTHING)
  }

  /** The saved roles that were bound. */
  function BoundRoles(cfg: Config, s: Set, fellBack: set<Role>): Set {
    map r | r in s && r !in fellBack && r !in cfg.locked :: s[r]
  }

  /** The files after a start. */
  ghost function FilesAfter(cfg: Config, files: Files, candidate: Option<Set>, fellBack: set<Role>): Files {
    if cfg.runAs then files
    else if candidate.None? then files.(failed := Absent)
    else
      Files(if FromNext(cfg, files) then Absent else files.next,
            Roles(BoundRoles(cfg, candidate.value, fellBack)),
            if fellBack == {} then Absent else Roles(candidate.value))
  }

  // ---- the code -------------------------------------------------------------------------------

  lemma {:induction false} NotHeld(w: World, held: set<Socket>, ss: seq<Socket>)
    requires ValidWorld(w) && AllOpen(w, held, ss)
    ensures ToSet(ss) * held == {}
  {
    if ss != [] {
      NotHeld(w, held, ss[..|ss| - 1]);
    }
  }

  lemma EmptyToSet()
    ensures ToSet([]) == {}
  {
  }

  lemma NotAll(w: World, held: set<Socket>, ss: seq<Socket>, i: nat)
    requires i < |ss| && !w.canOpen(ss[i], held + ToSet(ss[..i]))
    ensures !AllOpen(w, held, ss)
  {
    assert ss[..i + 1][..i] == ss[..i];
    if AllOpen(w, held, ss) {
      AllOpenPrefix(w, held, ss, i + 1);
      assert false;
    }
  }

  lemma ToSetAppend(ss: seq<Socket>, s: Socket)
    ensures ToSet(ss + [s]) == ToSet(ss) + {s}
  {
  }

  lemma {:induction false} AllOpenPrefix(w: World, held: set<Socket>, ss: seq<Socket>, i: nat)
    requires i <= |ss| && AllOpen(w, held, ss)
    ensures AllOpen(w, held, ss[..i])
    decreases |ss|
  {
    if i == |ss| {
      assert ss[..i] == ss;
    } else {
      AllOpenPrefix(w, held, ss[..|ss| - 1], i);
      assert ss[..|ss| - 1][..i] == ss[..i];
    }
  }

  lemma BindNext(w: World, cfg: Config, candidate: Option<Set>, i: nat)
    requires i < |ROLES|
    ensures BindRoles(w, cfg, candidate, ROLES[..i + 1], NOTHING)
         == BindRole(w, cfg, candidate, BindRoles(w, cfg, candidate, ROLES[..i], NOTHING), ROLES[i])
    ensures i > 0 ==> !ROLES[i].Dns?
  {
    hide BindRole;
    assert ROLES[..i + 1][..i] == ROLES[..i];
    assert |ROLES[..i + 1]| == i + 1 && ROLES[..i + 1][i] == ROLES[i];
  }

  lemma BindFirst(w: World, cfg: Config, candidate: Option<Set>)
    ensures BindRoles(w, cfg, candidate, ROLES[..1], NOTHING) == BindRole(w, cfg, candidate, NOTHING, Dns)
  {
    BindNext(w, cfg, candidate, 0);
    assert ROLES[..0] == [];
  }

  class App {
    const world: World
    const cfg: Config
    var files: Files
    var held: set<Socket>
    var bound: map<Role, seq<Socket>>
    var failed: set<Role>
    var savedFailed: set<Role>
    var candidate: Option<Set>
    var fromNext: bool

    constructor (world: World, cfg: Config, files: Files)
      ensures this.world == world && this.cfg == cfg && this.files == files
      ensures held == {} && bound == map[] && savedFailed == {} && candidate == None && !fromNext
    {
      this.world, this.cfg, this.files := world, cfg, files;
      held, bound, failed, savedFailed, candidate, fromNext := {}, map[], {}, {}, None, false;
    }

    /** Opens all of the sockets, or closes the ones it opened. */
    method OpenAll(ss: seq<Socket>) returns (ok: bool)
      requires ValidWorld(world)
      modifies `held
      ensures ok == AllOpen(world, old(held), ss)
      ensures held == if ok then old(held) + ToSet(ss) else old(held)
    {
      hide ToSet;
      ghost var was := held;
      EmptyToSet();
      for i := 0 to |ss|
        invariant AllOpen(world, was, ss[..i])
        invariant held == was + ToSet(ss[..i])
      {
        assert ss[..i + 1] == ss[..i] + [ss[i]];
        ToSetAppend(ss[..i], ss[i]);
        if !world.canOpen(ss[i], held) {
          NotHeld(world, was, ss[..i]);
          held := held - ToSet(ss[..i]); // close what was opened
          NotAll(world, was, ss, i);
          return false;
        }
        held := held + {ss[i]};
      }
      assert ss[..|ss|] == ss;
      return true;
    }

    /** Opens the sockets that can be opened; failures are recorded. */
    method OpenSome(r: Role, ss: seq<Socket>) returns (got: seq<Socket>)
      modifies `held, `failed
      ensures got == Opened(world, old(held), ss)
      ensures held == old(held) + ToSet(got)
      ensures failed == if got == ss then old(failed) else old(failed) + {r}
    {
      hide ToSet;
      ghost var was := held;
      got := [];
      EmptyToSet();
      var fails := false;
      for i := 0 to |ss|
        invariant got == Opened(world, was, ss[..i])
        invariant held == was + ToSet(got) && failed == old(failed)
        invariant fails <==> got != ss[..i]
        invariant |got| <= i && (fails ==> |got| < i)
      {
        assert ss[..i + 1] == ss[..i] + [ss[i]];
        ToSetAppend(got, ss[i]);
        if world.canOpen(ss[i], held) {
          got, held := got + [ss[i]], held + {ss[i]};
        } else {
          fails := true;
        }
      }
      assert ss[..|ss|] == ss;
      if fails {
        failed := failed + {r};
      }
    }

    /** A listener that fails softly: the saved addresses, all of them, else the
        values of the host, as many as can be bound. */
    method BindSoft(r: Role)
      requires ValidWorld(world) && !r.Dns?
      modifies `held, `bound, `failed, `savedFailed
      ensures Outcome(bound, held, savedFailed)
           == BindRole(world, cfg, candidate, Outcome(old(bound), old(held), old(savedFailed)), r)
    {
      var saved := Saved(cfg, candidate, r);
      if saved.Some? {
        var ok := OpenAll(SocketsOf(r, saved.value));
        if ok {
          bound := bound[r := SocketsOf(r, saved.value)];
          return;
        }
        savedFailed, failed := savedFailed + {r}, failed + {r};
      }
      var got := OpenSome(r, SocketsOf(r, Get(cfg.values, r)));
      bound := bound[r := got];
    }

    /** DNS: the saved addresses first, then the values; its failure is fatal. */
    method BindDns() returns (ok: bool)
      requires ValidWorld(world) && held == {} && bound == map[] && savedFailed == {}
      modifies `held, `bound, `failed, `savedFailed
      ensures ok <==> !NoDns(world, cfg, candidate)
      ensures ok ==> Outcome(bound, held, savedFailed) == BindRole(world, cfg, candidate, NOTHING, Dns)
    {
      var saved := Saved(cfg, candidate, Dns);
      if saved.Some? {
        ok := OpenAll(SocketsOf(Dns, saved.value));
        if ok {
          bound := bound[Dns := SocketsOf(Dns, saved.value)];
          return;
        }
        savedFailed, failed := savedFailed + {Dns}, failed + {Dns};
      }
      ok := OpenAll(SocketsOf(Dns, Get(cfg.values, Dns)));
      bound := bound[Dns := SocketsOf(Dns, Get(cfg.values, Dns))];
    }

    /** Reads the saved set of this start. */
    method LoadSavedListeners()
      requires candidate == None && !fromNext
      modifies `candidate, `fromNext
      ensures candidate == Candidate(cfg, files) && fromNext == FromNext(cfg, files)
      ensures cfg.runAs ==> candidate == None
      ensures !cfg.runAs && IsSet(files.next) ==> candidate == Some(files.next.s) && fromNext
      ensures !cfg.runAs && !IsSet(files.next) ==> !fromNext && candidate == if IsSet(files.current) then Some(files.current.s) else None
    {
      if cfg.runAs {
        return;
      }
      for i := 0 to 2
        invariant candidate == None && !fromNext
        invariant i > 0 ==> !Read(files.next).Roles?
        invariant i > 1 ==> !Read(files.current).Roles?
      {
        var f := Read(if i == 0 then files.next else files.current);
        if f.Broken? {
          if i == 0 {
            continue; // the current set may still be good
          }
          return;
        }
        if f.Roles? {
          candidate, fromNext := Some(f.s), i == 0;
          return;
        }
      }
    }

    /** Binds the listeners of the candidate, role by role. */
    method BindListeners() returns (ok: bool)
      requires ValidWorld(world) && held == {} && bound == map[] && savedFailed == {}
      modifies `held, `bound, `failed, `savedFailed
      ensures ok <==> !Exits(world, cfg, candidate)
      ensures ok ==> Outcome(bound, held, savedFailed) == StartResult(world, cfg, candidate)
    {
      hide BindRole, BindRoles, NoDns;
      ok := BindDns();
      if !ok {
        return;
      }
      BindFirst(world, cfg, candidate);
      for i := 1 to 5
        invariant Outcome(bound, held, savedFailed) == BindRoles(world, cfg, candidate, ROLES[..i], NOTHING)
      {
        BindNext(world, cfg, candidate, i);
        BindSoft(ROLES[i]);
      }
      assert ROLES[..5] == [Dns, Cache, Sni, Web, WebTls];
      BoundOf(world, cfg, candidate, ROLES[..5], Web);
      BoundOf(world, cfg, candidate, ROLES[..5], WebTls);
      if |bound[Web]| == 0 && |bound[WebTls]| == 0 {
        return false;
      }
      for i := 5 to 8
        invariant Outcome(bound, held, savedFailed) == BindRoles(world, cfg, candidate, ROLES[..i], NOTHING)
      {
        BindNext(world, cfg, candidate, i);
        BindSoft(ROLES[i]);
      }
      assert ROLES[..8] == ROLES;
      return true;
    }

    /** Writes the result of a start back. */
    method FinishListenerFiles()
      requires fromNext == FromNext(cfg, files)
      modifies `files
      ensures files == FilesAfter(cfg, old(files), candidate, savedFailed)
    {
      if cfg.runAs {
        return;
      }
      if candidate.None? {
        files := files.(failed := Absent);
        return;
      }
      var kept: Set := map[];
      var todo := candidate.value.Keys;
      while todo != {}
        invariant todo <= candidate.value.Keys
        invariant kept == map r | r in candidate.value && r !in todo && r !in savedFailed && r !in cfg.locked :: candidate.value[r]
        decreases |todo|
      {
        var r :| r in todo;
        todo := todo - {r};
        if r !in savedFailed && r !in cfg.locked {
          kept := kept[r := candidate.value[r]];
        }
      }
      assert kept == BoundRoles(cfg, candidate.value, savedFailed);
      files := files.(current := Roles(kept));
      if fromNext {
        files := files.(next := Absent);
      }
      if savedFailed == {} {
        files := files.(failed := Absent);
        return;
      }
      files := files.(failed := Roles(candidate.value));
    }
  }

  // ---- what a start means -------------------------------------------------------------------------

  /** A listeners file that holds a set by the rules. */
  predicate IsSet(f: File) {
    f.Roles? && ValidFile(f.s)
  }

  /** The roles of a set that the start bound. */
  ghost predicate Kept(cfg: Config, s: Set, fellBack: set<Role>, t: Set) {
    && (forall r :: r in t <==> r in s && r !in fellBack && r !in cfg.locked)
    && forall r <- t :: t[r] == s[r]
  }

  /** The files after a start, by the files before it: the next set goes first and is
      gone once it was tried; a set that is only the current one leaves the next file
      as it is; without a set nothing but the failed file changes. */
  lemma {:induction false} FilesOfStart(cfg: Config, files: Files, fellBack: set<Role>)
    ensures var after := FilesAfter(cfg, files, Candidate(cfg, files), fellBack);
            if cfg.runAs then after == files
            else if !IsSet(files.next) && !IsSet(files.current) then after == Files(files.next, files.current, Absent)
            else
              var s := if IsSet(files.next) then files.next.s else files.current.s;
              && after.next == (if IsSet(files.next) then Absent else files.next)
              && after.current.Roles? && Kept(cfg, s, fellBack, after.current.s)
              && after.failed == if fellBack == {} then Absent else Roles(s)
  {
  }

  lemma {:induction false} BoundOf(w: World, cfg: Config, candidate: Option<Set>, roles: seq<Role>, r: Role)
    ensures r in roles ==> r in BindRoles(w, cfg, candidate, roles, NOTHING).bound
    ensures r !in roles ==> r !in BindRoles(w, cfg, candidate, roles, NOTHING).bound
                            && r !in BindRoles(w, cfg, candidate, roles, NOTHING).fellBack
    decreases |roles|
  {
    if roles != [] {
      BoundOf(w, cfg, candidate, roles[..|roles| - 1], r);
      assert roles == roles[..|roles| - 1] + [roles[|roles| - 1]];
    }
  }

  ghost predicate Distinct(roles: seq<Role>) {
    forall i, j :: 0 <= i < j < |roles| ==> roles[i] != roles[j]
  }

  /** The sockets of a role: UDP for DNS and NTP, TCP for all but NTP, on each of its
      addresses. */
  lemma {:induction false} SocketsMean(r: Role, addrs: seq<Listener>)
    ensures forall s :: s in SocketsOf(r, addrs) <==> s.addr in addrs && (if s.udp then r == Dns || r == Ntp else r != Ntp)
  {
    if addrs != [] {
      var n := |addrs| - 1;
      SocketsMean(r, addrs[..n]);
      assert addrs == addrs[..n] + [addrs[n]];
    }
  }

  /** Of values that are opened one after the other, each one is bound exactly when it
      can be opened beside those before it that were. */
  lemma {:induction false} OpenedMeans(w: World, held: set<Socket>, ss: seq<Socket>, i: nat)
    requires i < |ss| && forall j, k :: 0 <= j < k < |ss| ==> ss[j] != ss[k]
    ensures ss[i] in Opened(w, held, ss) <==> w.canOpen(ss[i], held + ToSet(Opened(w, held, ss[..i])))
    decreases |ss|
  {
    var n := |ss| - 1;
    OpenedFrom(w, held, ss[..n]);
    if i < n {
      OpenedMeans(w, held, ss[..n], i);
      assert ss[..n][..i] == ss[..i];
    } else {
      assert ss[n] !in ss[..n];
    }
  }

  /** A saved role that no flag or variable locks ends with all of its saved addresses
      bound, or none of them is kept: then, and for any other role, what is bound for it
      are values of the host. */
  lemma {:induction false} AllOrNone(w: World, cfg: Config, candidate: Option<Set>, roles: seq<Role>, r: Role)
    requires Distinct(roles) && r in roles
    ensures var o := BindRoles(w, cfg, candidate, roles, NOTHING);
            && r in o.bound
            && if candidate.Some? && r in candidate.value && r !in cfg.locked then
                 if r in o.fellBack then FromValues(cfg, r, o.bound[r]) else o.bound[r] == SocketsOf(r, candidate.value[r])
               else r !in o.fellBack && FromValues(cfg, r, o.bound[r])
    decreases |roles|
  {
    var before, last := roles[..|roles| - 1], roles[|roles| - 1];
    assert roles == before + [last];
    if last == r {
      assert r !in before;
      BoundOf(w, cfg, candidate, before, r);
      OpenedFrom(w, BindRoles(w, cfg, candidate, before, NOTHING).held, SocketsOf(r, Get(cfg.values, r)));
    } else {
      AllOrNone(w, cfg, candidate, before, r);
    }
  }

  ghost predicate FromValues(cfg: Config, r: Role, ss: seq<Socket>) {
    forall s :: s in ss ==> s in SocketsOf(r, Get(cfg.values, r))
  }

  lemma {:induction false} OpenedFrom(w: World, held: set<Socket>, ss: seq<Socket>)
    ensures forall s :: s in Opened(w, held, ss) ==> s in ss
  {
    if ss != [] {
      OpenedFrom(w, held, ss[..|ss| - 1]);
    }
  }

  // ---- the next start -----------------------------------------------------------------------------------

  lemma {:induction false} SameAgain(w: World, cfg: Config, s: Set, roles: seq<Role>, fellBack: set<Role>)
    requires Distinct(roles)
    requires forall r :: r in roles ==> (r in fellBack <==> r in BindRoles(w, cfg, Some(s), roles, NOTHING).fellBack)
    ensures BindRoles(w, cfg, Some(BoundRoles(cfg, s, fellBack)), roles, NOTHING)
         == BindRoles(w, cfg, Some(s), roles, NOTHING).(fellBack := {})
    decreases |roles|
  {
    if roles != [] {
      var before, r := roles[..|roles| - 1], roles[|roles| - 1];
      var o := BindRoles(w, cfg, Some(s), before, NOTHING);
      BoundOf(w, cfg, Some(s), before, r);
      assert r !in before;
      forall q | q in before ensures q in fellBack <==> q in o.fellBack {
        assert q in roles && q != r;
      }
      SameAgain(w, cfg, s, before, fellBack);
      assert r in roles;
      var kept := BoundRoles(cfg, s, fellBack);
      assert r !in fellBack ==> Saved(cfg, Some(kept), r) == Saved(cfg, Some(s), r);
    }
  }

  /** A second start against the same sockets of the host binds the same sockets
      and no role falls back, when the set written back keeps the rules of a
      file. */
  lemma {:induction false} SecondStartBindsTheSame(w: World, cfg: Config, files: Files)
    requires Candidate(cfg, files).Some?
    requires !Exits(w, cfg, Candidate(cfg, files))
    requires ValidFile(BoundRoles(cfg, Candidate(cfg, files).value, StartResult(w, cfg, Candidate(cfg, files)).fellBack))
    ensures var c := Candidate(cfg, files);
            var first := StartResult(w, cfg, c);
            var c2 := Candidate(cfg, FilesAfter(cfg, files, c, first.fellBack));
            && !Exits(w, cfg, c2)
            && StartResult(w, cfg, c2) == first.(fellBack := {})
  {
    hide BindRole, BindRoles, ValidFile;
    var s := Candidate(cfg, files).value;
    var first := StartResult(w, cfg, Some(s));
    var kept := BoundRoles(cfg, s, first.fellBack);
    assert Candidate(cfg, FilesAfter(cfg, files, Some(s), first.fellBack)) == Some(kept);
    SameAgain(w, cfg, s, ROLES, first.fellBack);
    SameEarly(w, cfg, s, first.fellBack);
    DnsStays(w, cfg, s, first.fellBack);
  }

  lemma SameEarly(w: World, cfg: Config, s: Set, fellBack: set<Role>)
    requires fellBack == StartResult(w, cfg, Some(s)).fellBack
    ensures NoWeb(w, cfg, Some(BoundRoles(cfg, s, fellBack))) == NoWeb(w, cfg, Some(s))
  {
    hide BindRole, BindRoles;
    FellBackEarly(w, cfg, Some(s), fellBack);
    SameAgain(w, cfg, s, [Dns, Cache, Sni, Web, WebTls], fellBack);
  }

  lemma DnsStays(w: World, cfg: Config, s: Set, fellBack: set<Role>)
    requires fellBack == StartResult(w, cfg, Some(s)).fellBack
    ensures NoDns(w, cfg, Some(BoundRoles(cfg, s, fellBack))) == NoDns(w, cfg, Some(s))
  {
    hide BindRole, BindRoles;
    DnsFellBack(w, cfg, Some(s), fellBack);
    var kept := BoundRoles(cfg, s, fellBack);
    assert Dns !in fellBack ==> Saved(cfg, Some(kept), Dns) == Saved(cfg, Some(s), Dns);
  }

  lemma {:induction false} Prefix(w: World, cfg: Config, c: Option<Set>, roles: seq<Role>, i: nat, r: Role)
    requires Distinct(roles) && i <= |roles| && r in roles[..i]
    ensures r in BindRoles(w, cfg, c, roles[..i], NOTHING).fellBack <==> r in BindRoles(w, cfg, c, roles, NOTHING).fellBack
    decreases |roles|
  {
    if i == |roles| {
      assert roles[..i] == roles;
    } else {
      assert roles[..|roles| - 1][..i] == roles[..i];
      assert roles[|roles| - 1] != r by {
        var k :| 0 <= k < i && roles[..i][k] == r;
        assert roles[k] == r;
      }
      Prefix(w, cfg, c, roles[..|roles| - 1], i, r);
    }
  }

  lemma FellBackEarly(w: World, cfg: Config, c: Option<Set>, fellBack: set<Role>)
    requires fellBack == StartResult(w, cfg, c).fellBack
    ensures forall r :: r in [Dns, Cache, Sni, Web, WebTls] ==>
              (r in fellBack <==> r in UpToWeb(w, cfg, c).fellBack)
  {
    assert ROLES[..5] == [Dns, Cache, Sni, Web, WebTls];
    assert Distinct(ROLES);
    hide BindRoles, Distinct;
    forall r | r in ROLES[..5] ensures r in fellBack <==> r in UpToWeb(w, cfg, c).fellBack {
      Prefix(w, cfg, c, ROLES, 5, r);
    }
  }

  lemma DnsFellBack(w: World, cfg: Config, c: Option<Set>, fellBack: set<Role>)
    requires fellBack == StartResult(w, cfg, c).fellBack
    ensures Dns in fellBack <==> Saved(cfg, c, Dns).Some? && !SavedBinds(w, cfg, c, {}, Dns)
  {
    assert ROLES[..1] == [Dns];
    Prefix(w, cfg, c, ROLES, 1, Dns);
    BindFirst(w, cfg, c);
  }

  /** The set written back breaks the rules exactly when it switches the web UI
      off and its https role did not stay. */
  lemma {:induction false} WrittenBackValid(cfg: Config, s: Set, fellBack: set<Role>)
    requires ValidFile(s)
    ensures var kept := BoundRoles(cfg, s, fellBack);
            ValidFile(kept) <==> !(Web in kept && kept[Web] == [] && WebTls !in kept)
  {
    var kept := BoundRoles(cfg, s, fellBack);
    assert WebTls in s && Web in s && s[Web] == [] ==> s[WebTls] != [];
    if Web in kept && kept[Web] == [] {
      assert s[Web] == [] && CanDisable(Web, s);
    }
  }

  // ---- "never a reason to exit" -----------------------------------------------------------------------------

  /** Saved addresses for DNS alone are never a reason to exit: a start without
      them exits for want of DNS whenever one with them does. */
  lemma {:induction false} SavedDnsIsNoReason(w: World, cfg: Config, candidate: Option<Set>)
    ensures NoDns(w, cfg, candidate) ==> NoDns(w, cfg, None)
  {
  }

  /** A role ends with no sockets exactly when its saved set is [] or does not
      bind while none of the values of the host does. */
  lemma {:induction false} NoSockets(w: World, cfg: Config, candidate: Option<Set>, held: set<Socket>, r: Role)
    requires r == Web || r == WebTls
    ensures RoleSockets(w, cfg, candidate, held, r) == []
       <==> (if SavedBinds(w, cfg, candidate, held, r) then Saved(cfg, candidate, r) == Some([])
             else Opened(w, held, SocketsOf(r, Get(cfg.values, r))) == [])
  {
    var saved := Saved(cfg, candidate, r);
    if saved.Some? && saved.value != [] {
      var ss := SocketsOf(r, saved.value);
      assert ss == SocketsOf(r, saved.value[..|saved.value| - 1]) + [Socket(false, saved.value[|saved.value| - 1])];
    }
  }

  /** The files are a reason to exit exactly when that is so of both web roles,
      after DNS, cache and SNI are bound. */
  lemma {:induction false} ExitsForWantOfWeb(w: World, cfg: Config, candidate: Option<Set>)
    ensures var o3 := BindRoles(w, cfg, candidate, [Dns, Cache, Sni], NOTHING);
            var o4 := BindRole(w, cfg, candidate, o3, Web);
            NoWeb(w, cfg, candidate) <==> (&& RoleSockets(w, cfg, candidate, o3.held, Web) == []
                                           && RoleSockets(w, cfg, candidate, o4.held, WebTls) == [])
  {
    hide BindRoles;
    BindNext(w, cfg, candidate, 3);
    BindNext(w, cfg, candidate, 4);
    assert ROLES[..3] == [Dns, Cache, Sni] && ROLES[..5] == [Dns, Cache, Sni, Web, WebTls];
  }

  /** A host where another program listens on port 9000. */
  predicate Opens(s: Socket, held: set<Socket>) {
    s.addr.Every? && s.addr.port != 9000 && forall h :: h in held ==> h.udp != s.udp || (h != s && !Overlap(h.addr, s.addr))
  }

  const BUSY_HOST: World := World(Opens)
  const VALUES: Set := map[Dns := [Every(53)], Cache := [Every(80)], Web := [Every(8080)]]
  const CONFIG: Config := Config(VALUES, {}, false)
  const SAVED: Set := map[Cache := [Every(8080)], Web := [Every(9000)]]

  /** A set that the check accepts makes this start exit, which would not exit
      without it: the saved cache address takes the port that the web UI falls
      back to. The comment of the code says a value from the files never does. */
  lemma {:induction false} FilesCanBeAReason()
    ensures ValidWorld(BUSY_HOST)
    ensures Acceptable(SAVED, Host(VALUES, {}, {}), None)
    ensures Exits(BUSY_HOST, CONFIG, Some(SAVED)) && !Exits(BUSY_HOST, CONFIG, None)
  {
    SavedIsAcceptable();
    ExitsWithSaved();
    RunsWithoutSaved();
  }

  const WEB_OFF: Set := map[Web := [], WebTls := [Every(9000)]]

  /** Another one on the same host, where no saved address is in the way of a value: the
      web UI is switched off and its https role cannot be bound. */
  lemma WebOffCanBeAReason()
    ensures Acceptable(WEB_OFF, Host(VALUES, {}, {}), None)
    ensures Exits(BUSY_HOST, CONFIG, Some(WEB_OFF)) && !Exits(BUSY_HOST, CONFIG, None)
  {
    WebOffIsAcceptable();
    ExitsWithWebOff();
    RunsWithoutSaved();
  }

  lemma WebOffIsAcceptable()
    ensures Acceptable(WEB_OFF, Host(VALUES, {}, {}), None)
  {
    WebOffRoles();
    WebOffApart(TCP_ROLES);
    WebOffApart(UDP_ROLES);
    assert ValidFile(WEB_OFF) && OnThisHost(WEB_OFF, {});
    assert WebListeners(WEB_OFF, VALUES) == [Every(9000)];
    assert ServesLocally(WebListeners(WEB_OFF, VALUES)[0]);
    hide ValidFile, OnThisHost, NoClash;
  }

  function WebOffPort(r: Role): nat {
    if r.Dns? then 53 else if r.Cache? then 80 else 9000
  }

  lemma WebOffRoles()
    ensures forall r :: Get(EffectiveSet(WEB_OFF, VALUES), r)
                        == if r.Dns? || r.Cache? || r.WebTls? then [Every(WebOffPort(r))] else []
  {
  }

  lemma WebOffApart(roles: seq<Role>)
    requires roles == TCP_ROLES || roles == UDP_ROLES
    ensures NoClash(EffectiveSet(WEB_OFF, VALUES), roles)
  {
    WebOffRoles();
    hide Get, EffectiveSet;
  }

  lemma ExitsWithWebOff()
    ensures Exits(BUSY_HOST, CONFIG, Some(WEB_OFF))
  {
    var c := Some(WEB_OFF);
    var o3 := BindRoles(BUSY_HOST, CONFIG, c, [Dns, Cache, Sni], NOTHING);
    assert Saved(CONFIG, c, Web) == Some([]) && Saved(CONFIG, c, WebTls) == Some([Every(9000)]) && Get(VALUES, WebTls) == [];
    NothingSaved(c, o3.held, Web);
    assert Opened(BUSY_HOST, {}, []) == [] && SocketsOf(WebTls, []) == [];
    hide BindRole, BindRoles, Saved, Get, NoWeb, RoleSockets, SavedBinds, AllOpen;
    NoSockets(BUSY_HOST, CONFIG, c, o3.held, Web);
    var held := BindRole(BUSY_HOST, CONFIG, c, o3, Web).held;
    assert !Opens(Socket(false, Every(9000)), held);
    OneSaved(c, held, WebTls, 9000);
    NoSockets(BUSY_HOST, CONFIG, c, held, WebTls);
    ExitsForWantOfWeb(BUSY_HOST, CONFIG, c);
    ExitsIs(c);
  }

  lemma NothingSaved(c: Option<Set>, held: set<Socket>, r: Role)
    requires Saved(CONFIG, c, r) == Some([])
    ensures SavedBinds(BUSY_HOST, CONFIG, c, held, r)
  {
  }

  lemma SavedIsAcceptable()
    ensures Acceptable(SAVED, Host(VALUES, {}, {}), None)
  {
    SavedRoles();
    SavedApart(TCP_ROLES);
    SavedApart(UDP_ROLES);
    assert ValidFile(SAVED) && OnThisHost(SAVED, {});
    assert WebListeners(SAVED, VALUES) == [Every(9000)];
    assert ServesLocally(WebListeners(SAVED, VALUES)[0]);
    hide ValidFile, OnThisHost, NoClash;
  }

  function SavedPort(r: Role): nat {
    if r.Dns? then 53 else if r.Cache? then 8080 else 9000
  }

  lemma SavedRoles()
    ensures forall r :: Get(EffectiveSet(SAVED, VALUES), r)
                        == if r.Dns? || r.Cache? || r.Web? then [Every(SavedPort(r))] else []
  {
  }

  lemma SavedApart(roles: seq<Role>)
    requires roles == TCP_ROLES || roles == UDP_ROLES
    ensures NoClash(EffectiveSet(SAVED, VALUES), roles)
  {
    SavedRoles();
    hide Get, EffectiveSet;
  }

  /** A role with one saved address: bound when it can be, else the value of the
      host if that can. */
  lemma OneSaved(c: Option<Set>, held: set<Socket>, r: Role, port: nat)
    requires !r.Dns? && !r.Ntp? && Saved(CONFIG, c, r) == Some([Every(port)])
    ensures var s := Socket(false, Every(port));
            && (SavedBinds(BUSY_HOST, CONFIG, c, held, r) <==> Opens(s, held))
            && (Opens(s, held) ==> RoleSockets(BUSY_HOST, CONFIG, c, held, r) == [s])
  {
    OneAddress(r, port);
    OpenOne(BUSY_HOST, held, Socket(false, Every(port)));
  }

  lemma OneValue(c: Option<Set>, held: set<Socket>, r: Role, port: nat)
    requires !r.Dns? && !r.Ntp? && !SavedBinds(BUSY_HOST, CONFIG, c, held, r) && Get(VALUES, r) == [Every(port)]
    ensures var s := Socket(false, Every(port));
            RoleSockets(BUSY_HOST, CONFIG, c, held, r) == if Opens(s, held) then [s] else []
  {
    OneAddress(r, port);
    OpenOne(BUSY_HOST, held, Socket(false, Every(port)));
  }

  lemma NoValue(c: Option<Set>, held: set<Socket>, r: Role)
    requires !r.Dns? && Saved(CONFIG, c, r) == None && Get(VALUES, r) == []
    ensures RoleSockets(BUSY_HOST, CONFIG, c, held, r) == []
  {
  }

  lemma OneAddress(r: Role, port: nat)
    requires !r.Dns? && !r.Ntp?
    ensures SocketsOf(r, [Every(port)]) == [Socket(false, Every(port))]
  {
    assert [Every(port)][..0] == [];
  }

  lemma OpenOne(w: World, held: set<Socket>, s: Socket)
    ensures AllOpen(w, held, [s]) <==> w.canOpen(s, held)
    ensures Opened(w, held, [s]) == if w.canOpen(s, held) then [s] else []
  {
    EmptyToSet();
    assert [s][..0] == [] && held + {} == held;
  }

  const UDP53: Socket := Socket(true, Every(53))
  const TCP53: Socket := Socket(false, Every(53))

  lemma DnsBinds(c: Option<Set>)
    requires Saved(CONFIG, c, Dns) == None
    ensures RoleSockets(BUSY_HOST, CONFIG, c, {}, Dns) == [UDP53, TCP53] && !NoDns(BUSY_HOST, CONFIG, c)
    ensures ToSet([UDP53, TCP53]) == {UDP53, TCP53}
  {
    assert Get(VALUES, Dns) == [Every(53)];
    DnsSockets();
    OpensDns();
    hide SocketsOf, AllOpen, Opened, ToSet, Opens, Saved, Get;
  }

  lemma DnsSockets()
    ensures SocketsOf(Dns, [Every(53)]) == [UDP53, TCP53]
  {
    assert [Every(53)][..0] == [] && SocketsOf(Dns, []) == [];
  }

  lemma OpensDns()
    ensures AllOpen(BUSY_HOST, {}, [UDP53, TCP53]) && ToSet([UDP53, TCP53]) == {UDP53, TCP53}
  {
    assert [UDP53, TCP53][..1] == [UDP53];
    EmptyToSet();
    ToSetAppend([], UDP53);
    assert [] + [UDP53] == [UDP53];
    OpenOne(BUSY_HOST, {}, UDP53);
    hide ToSet;
    ToSetAppend([UDP53], TCP53);
    assert [UDP53] + [TCP53] == [UDP53, TCP53];
  }

  ghost predicate CacheOn(c: Option<Set>, port: nat) {
    (c == Some(SAVED) && port == 8080) || (c == None && port == 80)
  }

  lemma CacheBinds(c: Option<Set>, port: nat, held: set<Socket>)
    requires CacheOn(c, port) && held == {UDP53, TCP53}
    ensures RoleSockets(BUSY_HOST, CONFIG, c, held, Cache) == [Socket(false, Every(port))]
  {
    assert Opens(Socket(false, Every(port)), held);
    hide RoleSockets, SavedBinds, Opens;
    if c == None {
      NotSaved(c, held, Cache);
      OneValue(c, held, Cache, port);
    } else {
      OneSaved(c, held, Cache, port);
    }
  }

  lemma NotSaved(c: Option<Set>, held: set<Socket>, r: Role)
    requires Saved(CONFIG, c, r) == None
    ensures !SavedBinds(BUSY_HOST, CONFIG, c, held, r)
  {
  }

  lemma RoleHeld(c: Option<Set>, o: Outcome, r: Role)
    ensures BindRole(BUSY_HOST, CONFIG, c, o, r).held == o.held + ToSet(RoleSockets(BUSY_HOST, CONFIG, c, o.held, r))
  {
  }

  lemma ThreeSteps(c: Option<Set>)
    ensures var o1 := BindRole(BUSY_HOST, CONFIG, c, NOTHING, Dns);
            var o2 := BindRole(BUSY_HOST, CONFIG, c, o1, Cache);
            BindRoles(BUSY_HOST, CONFIG, c, [Dns, Cache, Sni], NOTHING) == BindRole(BUSY_HOST, CONFIG, c, o2, Sni)
  {
    hide BindRole, BindRoles;
    BindFirst(BUSY_HOST, CONFIG, c);
    BindNext(BUSY_HOST, CONFIG, c, 1);
    BindNext(BUSY_HOST, CONFIG, c, 2);
    assert ROLES[..3] == [Dns, Cache, Sni];
    assert ROLES[1] == Cache && ROLES[2] == Sni;
  }

  lemma DnsStep(c: Option<Set>)
    requires Saved(CONFIG, c, Dns) == None
    ensures !NoDns(BUSY_HOST, CONFIG, c) && BindRole(BUSY_HOST, CONFIG, c, NOTHING, Dns).held == {UDP53, TCP53}
  {
    hide BindRole, RoleSockets, NoDns, ToSet;
    DnsBinds(c);
    RoleHeld(c, NOTHING, Dns);
  }

  lemma CacheStep(c: Option<Set>, port: nat, o: Outcome)
    requires CacheOn(c, port) && o.held == {UDP53, TCP53}
    ensures BindRole(BUSY_HOST, CONFIG, c, o, Cache).held == {UDP53, TCP53, Socket(false, Every(port))}
  {
    var s := Socket(false, Every(port));
    hide BindRole, RoleSockets, CacheOn, ToSet;
    CacheBinds(c, port, o.held);
    RoleHeld(c, o, Cache);
    EmptyToSet();
    ToSetAppend([], s);
    assert [] + [s] == [s];
  }

  lemma SniStep(c: Option<Set>, o: Outcome)
    requires Saved(CONFIG, c, Sni) == None
    ensures BindRole(BUSY_HOST, CONFIG, c, o, Sni).held == o.held
  {
    NoValue(c, o.held, Sni);
    EmptyToSet();
    hide BindRole, RoleSockets, Saved, ToSet;
    RoleHeld(c, o, Sni);
  }

  /** The sockets held once DNS, cache and SNI are bound. */
  lemma ThreeBound(c: Option<Set>, port: nat)
    requires CacheOn(c, port)
    ensures !NoDns(BUSY_HOST, CONFIG, c)
    ensures BindRoles(BUSY_HOST, CONFIG, c, [Dns, Cache, Sni], NOTHING).held == {UDP53, TCP53, Socket(false, Every(port))}
  {
    assert Saved(CONFIG, c, Sni) == None && Saved(CONFIG, c, Dns) == None;
    hide *;
    DnsStep(c);
    var o1 := BindRole(BUSY_HOST, CONFIG, c, NOTHING, Dns);
    CacheStep(c, port, o1);
    SniStep(c, BindRole(BUSY_HOST, CONFIG, c, o1, Cache));
    ThreeSteps(c);
  }

  lemma ExitsWithSaved()
    ensures Exits(BUSY_HOST, CONFIG, Some(SAVED))
  {
    var c := Some(SAVED);
    var held := BindRoles(BUSY_HOST, CONFIG, c, [Dns, Cache, Sni], NOTHING).held;
    hide *;
    ThreeBound(c, 8080) by { CacheIsOn(); }
    OnlyBusyPorts(held);
    WebSaved(c, held);
    NoValue(c, BindRole(BUSY_HOST, CONFIG, c, BindRoles(BUSY_HOST, CONFIG, c, [Dns, Cache, Sni], NOTHING), Web).held, WebTls)
      by { NoWebTls(c); }
    ExitsForWantOfWeb(BUSY_HOST, CONFIG, c);
    ExitsIs(c);
  }

  lemma RunsWithoutSaved()
    ensures !Exits(BUSY_HOST, CONFIG, None)
  {
    var held := BindRoles(BUSY_HOST, CONFIG, None, [Dns, Cache, Sni], NOTHING).held;
    hide *;
    ThreeBound(None, 80) by { CacheIsOn(); }
    PortIsFree(held);
    WebValue(held);
    ExitsForWantOfWeb(BUSY_HOST, CONFIG, None);
    ExitsIs(None);
  }

  lemma CacheIsOn()
    ensures CacheOn(Some(SAVED), 8080) && CacheOn(None, 80)
  {
  }

  lemma ExitsIs(c: Option<Set>)
    ensures Exits(BUSY_HOST, CONFIG, c) <==> NoDns(BUSY_HOST, CONFIG, c) || NoWeb(BUSY_HOST, CONFIG, c)
  {
    hide NoDns, NoWeb;
  }

  lemma NoWebTls(c: Option<Set>)
    requires c == Some(SAVED)
    ensures Saved(CONFIG, c, WebTls) == None && Get(VALUES, WebTls) == []
  {
  }

  lemma OnlyBusyPorts(held: set<Socket>)
    requires held == {UDP53, TCP53, Socket(false, Every(8080))}
    ensures !Opens(Socket(false, Every(9000)), held) && !Opens(Socket(false, Every(8080)), held)
  {
    assert Socket(false, Every(8080)) in held;
  }

  lemma PortIsFree(held: set<Socket>)
    requires held == {UDP53, TCP53, Socket(false, Every(80))}
    ensures Opens(Socket(false, Every(8080)), held)
  {
  }

  lemma WebSaved(c: Option<Set>, held: set<Socket>)
    requires c == Some(SAVED)
    requires !Opens(Socket(false, Every(9000)), held) && !Opens(Socket(false, Every(8080)), held)
    ensures RoleSockets(BUSY_HOST, CONFIG, c, held, Web) == []
  {
    assert Saved(CONFIG, c, Web) == Some([Every(9000)]) && Get(VALUES, Web) == [Every(8080)];
    hide *;
    OneSaved(c, held, Web, 9000);
    OneValue(c, held, Web, 8080);
  }

  lemma WebValue(held: set<Socket>)
    requires Opens(Socket(false, Every(8080)), held)
    ensures RoleSockets(BUSY_HOST, CONFIG, None, held, Web) != []
  {
    assert Saved(CONFIG, None, Web) == None && Get(VALUES, Web) == [Every(8080)];
    hide *;
    NotSaved(None, held, Web);
    OneValue(None, held, Web, 8080);
  }
}
