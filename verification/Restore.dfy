/**
 A staged restore, applied and rolled back file by file while the process may
 die between any two steps, over any sequence of starts. The question is where
 the database is that a restore replaces.
*/
module Restore {
  import opened Wrappers

  type Bytes = seq<nat>

  /** The files of the data directory that a start renames or removes. */
  datatype Name = Db | Wal | Shm | Staged | Before | Work | Failed(stamp: nat) | InstanceId

  type Dir = map<Name, Bytes>

  /** What SQLite makes of a database file and the log beside it. */
  datatype Sqlite = Sqlite(fold: (Bytes, Bytes) -> Bytes)

  /** The content of picache.db as SQLite reads it; None when the file is missing
      or empty. */
  function Live(q: Sqlite, d: Dir): Option<Bytes> {
    if Db !in d || d[Db] == [] then None
    else if Wal in d then Some(q.fold(d[Db], d[Wal]))
    else Some(d[Db])
  }

  function Without(d: Dir, n: Name): Dir {
    map m | m in d && m != n :: d[m]
  }

  /** A rename, which replaces what the new name held. */
  function Moved(d: Dir, a: Name, b: Name): Dir {
    if a in d then Without(d, a)[b := d[a]] else d
  }

  // ---- what is outside of the code -----------------------------------------------------

  /** The renames that can fail, and the removal of the staged file of a partial
      restore. */
  datatype Step = SetAside | KeepOld | SwapIn | PutBack | RollAside | RollBack | Unlink

  /** What a build leaves in picache.db and its log, and whether it succeeds. */
  datatype Built = Built(db: Bytes, wal: Option<Bytes>, ok: bool)

  /** How the outside answers in one start: whether the staged file selects
      sections, whether it is accepted, what opening the live database leaves of
      its two files, the staged file with the accounts carried over or the merged
      database, the steps that fail, and the builds. */
  datatype Answers = Answers(
    partial: bool, accepts: bool,
    db: Option<Bytes>, wal: Option<Bytes>, carried: Bytes, merged: Bytes,
    stamp: nat, stampOfRollback: nat, fails: set<Step>,
    first: Built, second: Built)

  function Set(d: Dir, n: Name, content: Option<Bytes>): Dir {
    if content.Some? then d[n := content.value] else Without(d, n)
  }

  /** The directory once the checks have opened the live database. */
  function Looked(d: Dir, c: Answers): Dir {
    Set(Set(d, Db, c.db), Wal, c.wal)
  }

  /** SQLite may fold the log into the database but changes nothing in it, and
      checks that passed have folded it. */
  ghost predicate Possible(q: Sqlite, d: Dir, c: Answers) {
    && Live(q, Looked(d, c)) == Live(q, d)
    && (c.accepts ==> c.wal == None)
  }

  // ---- the steps of a start -----------------------------------------------------------------

  /** The directory between two steps, with a record of what happened: the content
      that picache.db had when the latest restore was accepted, until that restore
      is refused or rolled back; whether the staged file is one that no start has
      accepted yet; and whether PiCache is up. */
  datatype State = State(dir: Dir, pre: Option<Bytes>, untried: bool, up: bool)

  function On(s: State, d: Dir): State {
    s.(dir := d)
  }

  function Last(s: State, t: seq<State>): State {
    if t == [] then s else t[|t| - 1]
  }

  function Accept(q: Sqlite, s: State): State {
    s.(pre := if s.untried || s.pre.None? then Live(q, s.dir) else s.pre, untried := false)
  }

  /** The record when picache.db is, still or again, the database that the restore
      was to replace. */
  function Release(q: Sqlite, s: State): State {
    if s.pre == Live(q, s.dir) then s.(pre := None) else s
  }

  /** The staged file is set aside. */
  function Refuse(q: Sqlite, s: State, c: Answers): State {
    Release(q, On(s, if SetAside in c.fails then Without(s.dir, Staged) else Moved(s.dir, Staged, Failed(c.stamp))))
  }

  /** The swap of a full restore. */
  function SwapTrail(s: State, c: Answers): seq<State> {
    var s1 := On(s, Without(s.dir, Before));
    if Db in s1.dir && KeepOld in c.fails then [s1]
    else
      var s2 := On(s1, Moved(s1.dir, Db, Before));
      var s3 := On(s2, Without(s2.dir, Wal));
      var s4 := On(s3, Without(s3.dir, Shm));
      if SwapIn in c.fails then [s1, s2, s3, s4]
      else [s1, s2, s3, s4, On(s4, Moved(s4.dir, Staged, Db))]
  }

  function MergedInPlaceTrail(s: State, c: Answers): seq<State> {
    var s1 := On(s, Without(s.dir, Wal));
    var s2 := On(s1, Without(s1.dir, Shm));
    if SwapIn in c.fails then
      [s1, s2] + (if PutBack in c.fails then [] else [On(s2, Moved(s2.dir, Before, Db))])
    else
      var s3 := On(s2, Moved(s2.dir, Work, Db));
      [s1, s2, s3] + (if Unlink in c.fails then [] else [On(s3, Without(s3.dir, Staged))])
  }

  /** The swap of a partial restore. */
  function MergedTrail(s: State, c: Answers): seq<State> {
    var s1 := On(s, Without(s.dir, Before));
    if KeepOld in c.fails then [s1, On(s1, Without(s1.dir, Work))]
    else
      var s2 := On(s1, Moved(s1.dir, Db, Before));
      [s1, s2] + MergedInPlaceTrail(s2, c)
  }

  predicate SwapFails(c: Answers) {
    KeepOld in c.fails || SwapIn in c.fails
  }

  predicate MergeFails(c: Answers) {
    SwapFails(c) || Unlink in c.fails
  }

  /** A restore that was accepted ends with an error. */
  predicate Fails(c: Answers) {
    if c.partial then MergeFails(c) else SwapFails(c)
  }

  predicate Accepts(q: Sqlite, s: State, c: Answers) {
    Staged in s.dir && Live(q, s.dir).Some? && c.accepts
  }

  function PartialTrail(q: Sqlite, s: State, c: Answers): seq<State> {
    var ready := Accept(q, On(s, s.dir[Work := c.merged]));
    var t := MergedTrail(ready, c);
    [ready] + t + (if MergeFails(c) then [Refuse(q, Last(ready, t), c)] else [])
  }

  function FullTrail(q: Sqlite, s: State, c: Answers): seq<State> {
    var ready := Accept(q, On(s, s.dir[Staged := c.carried]));
    [ready] + SwapTrail(ready, c)
  }

  /** The states that applying the staged file goes through. */
  function ApplyTrail(q: Sqlite, s: State, c: Answers): seq<State> {
    if Staged !in s.dir then []
    else
      var s1 := On(s, Looked(s.dir, c));
      [s1]
      + if !Accepts(q, s, c) then [Refuse(q, s1, c)]
        else if c.partial then PartialTrail(q, s1, c)
        else FullTrail(q, s1, c)
  }

  predicate Restored(q: Sqlite, s: State, c: Answers) {
    Accepts(q, s, c) && !Fails(c)
  }

  /** A start that ends before the database is opened. */
  predicate Stops(q: Sqlite, s: State, c: Answers) {
    Accepts(q, s, c) && !c.partial && Fails(c)
  }

  /** A missing or empty picache.db of an existing installation is not opened. */
  predicate Opens(q: Sqlite, d: Dir) {
    Live(q, d).Some? || InstanceId !in d
  }

  function BuildTrail(q: Sqlite, s: State, b: Built): seq<State> {
    if !Opens(q, s.dir) then []
    else [s.(dir := Set(s.dir[Db := b.db][InstanceId := []], Wal, b.wal), up := b.ok)]
  }

  function PutBackTrail(q: Sqlite, s: State, fails: bool): seq<State> {
    var s1 := On(s, Without(s.dir, Wal));
    var s2 := On(s1, Without(s1.dir, Shm));
    if fails then [s1, s2] else [s1, s2, Release(q, On(s2, Moved(s2.dir, Before, Db)))]
  }

  function RollbackTrail(q: Sqlite, s: State, c: Answers): seq<State> {
    if Before !in s.dir then []
    else if RollAside in c.fails || Db !in s.dir then PutBackTrail(q, s, RollBack in c.fails)
    else
      var s1 := On(s, Moved(s.dir, Db, Failed(c.stampOfRollback)));
      [s1] + PutBackTrail(q, s1, RollBack in c.fails)
  }

  predicate BuildFails(q: Sqlite, s: State, b: Built) {
    !Opens(q, s.dir) || !b.ok
  }

  predicate RolledBack(s: State, c: Answers) {
    Before in s.dir && RollBack !in c.fails
  }

  /** The states of a start up to serving or exiting. */
  function StartTrail(q: Sqlite, s: State, c: Answers): seq<State> {
    var t := ApplyTrail(q, s, c);
    if Stops(q, s, c) then t
    else
      var applied := Last(s, t);
      var b := BuildTrail(q, applied, c.first);
      var built := Last(applied, b);
      if !BuildFails(q, applied, c.first) || !Restored(q, s, c) then t + b
      else
        var r := RollbackTrail(q, built, c);
        if !RolledBack(built, c) then t + b + r
        else t + b + r + BuildTrail(q, Last(built, r), c.second)
  }

  // ---- runs ------------------------------------------------------------------------------------

  /** A start that dies after some of its steps or gets to its end, a write of the
      running service, and a backup staged for the next start. */
  datatype Event = Start(c: Answers, steps: nat) | Write(db: Bytes, wal: Option<Bytes>) | Stage(content: Bytes)

  function Stopped(s: State): State {
    s.(up := false)
  }

  function After(q: Sqlite, s: State, e: Event): State {
    match e
    case Start(c, steps) =>
      var t := StartTrail(q, Stopped(s), c);
      if steps == 0 then Stopped(s) else if steps > |t| then Last(Stopped(s), t) else t[steps - 1]
    case Write(db, wal) =>
      if s.up then On(s, Set(s.dir[Db := db], Wal, wal)) else s
    case Stage(content) =>
      Release(q, On(s, s.dir[Staged := content])).(untried := true)
  }

  function Run(q: Sqlite, s: State, es: seq<Event>): State {
    if es == [] then s else After(q, Run(q, s, es[..|es| - 1]), es[|es| - 1])
  }

  /** A staged file that a start has already put in place is still there. */
  predicate Again(q: Sqlite, s: State) {
    Staged in s.dir && !s.untried && s.pre.Some? && Live(q, s.dir).Some? && Live(q, s.dir) != s.pre
  }

  ghost predicate Allowed(q: Sqlite, s: State, es: seq<Event>) {
    es == [] || (Allowed(q, s, es[..|es| - 1])
                 && (es[|es| - 1].Start? ==> Possible(q, Run(q, s, es[..|es| - 1]).dir, es[|es| - 1].c)))
  }

  predicate NeverAgain(q: Sqlite, s: State, es: seq<Event>) {
    es == [] || (NeverAgain(q, s, es[..|es| - 1])
                 && (es[|es| - 1].Start? ==> !Again(q, Run(q, s, es[..|es| - 1]))))
  }

  predicate Begin(s: State) {
    s.pre == None && s.untried && !s.up
  }

  predicate BeforeHolds(s: State) {
    s.pre.None? || (Before in s.dir && s.dir[Before] == s.pre.value)
  }

  /** The database that a restore replaces is in picache.db or in
      picache.db.before-restore. */
  predicate Kept(q: Sqlite, s: State) {
    BeforeHolds(s) || Live(q, s.dir) == s.pre
  }

  predicate Inv(q: Sqlite, s: State) {
    && (BeforeHolds(s) || (!s.up && Live(q, s.dir) == s.pre && Staged in s.dir && !s.untried))
    && (s.pre.Some? ==> s.pre.value != [])
    && (s.up && Staged in s.dir ==> s.untried)
  }

  predicate All(q: Sqlite, t: seq<State>) {
    forall s <- t :: Inv(q, s)
  }

  // ---- the record holds at every step --------------------------------------------------------------

  lemma LookedKeeps(q: Sqlite, s: State, c: Answers)
    requires Inv(q, s) && Possible(q, s.dir, c)
    ensures Inv(q, On(s, Looked(s.dir, c))) && (Again(q, On(s, Looked(s.dir, c))) <==> Again(q, s))
    ensures c.accepts ==> Wal !in Looked(s.dir, c)
  {
  }

  lemma RefuseKeeps(q: Sqlite, s: State, c: Answers)
    requires Inv(q, s)
    ensures Inv(q, Refuse(q, s, c)) && BeforeHolds(Refuse(q, s, c)) && Staged !in Refuse(q, s, c).dir
    ensures Live(q, Refuse(q, s, c).dir) == Live(q, s.dir)
  {
  }

  /** A restore about to be swapped in: picache.db is what it replaces. */
  ghost predicate Ready(q: Sqlite, s: State) {
    && Staged in s.dir && !s.untried && !s.up && Wal !in s.dir
    && Db in s.dir && s.pre == Some(s.dir[Db]) && s.dir[Db] != []
  }

  lemma AcceptIsReady(q: Sqlite, s: State, c: Answers)
    requires Inv(q, s) && !s.up && Accepts(q, s, c) && Possible(q, s.dir, c) && !Again(q, s)
    ensures Ready(q, Accept(q, On(s, Looked(s.dir, c)[Work := c.merged])))
    ensures Ready(q, Accept(q, On(s, Looked(s.dir, c)[Staged := c.carried])))
    ensures Live(q, s.dir) == Some(Looked(s.dir, c)[Db])
  {
  }

  lemma ReadyKeeps(q: Sqlite, s: State)
    requires Ready(q, s)
    ensures Inv(q, s) && !Again(q, s)
  {
  }

  /** The database has been moved out of the way and its log removed. */
  ghost predicate Away(s: State) {
    && s.pre.Some? && Before in s.dir && s.dir[Before] == s.pre.value && s.pre.value != []
    && !s.up && !s.untried && Staged in s.dir && Db !in s.dir && Wal !in s.dir
  }

  lemma MovesAway(q: Sqlite, s: State)
    requires Ready(q, s)
    ensures var s1 := On(s, Without(s.dir, Before));
            && Ready(q, s1) && Away(On(s1, Moved(s1.dir, Db, Before)))
            && (Work in s.dir ==> Work in Moved(s1.dir, Db, Before))
  {
  }

  lemma AwayKeeps(q: Sqlite, s: State, n: Name)
    requires Away(s)
    ensures Inv(q, s) && !Again(q, s) && (n == Wal || n == Shm ==> Away(On(s, Without(s.dir, n))))
  {
  }

  lemma PutInPlace(q: Sqlite, s: State, n: Name)
    requires Away(s) && n in s.dir && (n == Staged || n == Work)
    ensures var d := Moved(s.dir, n, Db);
            && Inv(q, On(s, d)) && BeforeHolds(On(s, d)) && Db in d && d[Db] == s.dir[n] && Wal !in d
            && (n == Staged ==> Staged !in d) && Staged !in Without(d, Staged) && Inv(q, On(s, Without(d, Staged)))
  {
  }

  lemma PutBackIsReady(q: Sqlite, s: State)
    requires Away(s)
    ensures Ready(q, On(s, Moved(s.dir, Before, Db)))
  {
  }

  lemma SwapKeeps(q: Sqlite, s: State, c: Answers)
    requires Ready(q, s)
    ensures var t := SwapTrail(s, c);
            && All(q, t) && !Last(s, t).up && Untouched(q, t)
            && (!SwapFails(c) ==> BeforeHolds(Last(s, t)) && Last(s, t).pre == s.pre && Staged !in Last(s, t).dir)
  {
    var s1 := On(s, Without(s.dir, Before));
    var s2 := On(s1, Moved(s1.dir, Db, Before));
    var s3 := On(s2, Without(s2.dir, Wal));
    var s4 := On(s3, Without(s3.dir, Shm));
    MovesAway(q, s);
    ReadyKeeps(q, s1);
    AwayKeeps(q, s2, Wal);
    AwayKeeps(q, s3, Shm);
    AwayKeeps(q, s4, Shm);
    PutInPlace(q, s4, Staged);
    hide Inv, Again, Ready, Away, Without, Moved;
  }

  ghost predicate Untouched(q: Sqlite, t: seq<State>) {
    forall s <- t :: !Again(q, s)
  }

  lemma MergedKeeps(q: Sqlite, s: State, c: Answers)
    requires Ready(q, s) && Work in s.dir
    ensures var t := MergedTrail(s, c);
            && All(q, t) && !Last(s, t).up
            && (!MergeFails(c) ==> BeforeHolds(Last(s, t)) && Last(s, t).pre == s.pre && Staged !in Last(s, t).dir)
  {
    var s1 := On(s, Without(s.dir, Before));
    var s2 := On(s1, Moved(s1.dir, Db, Before));
    var s3 := On(s2, Without(s2.dir, Wal));
    var s4 := On(s3, Without(s3.dir, Shm));
    MovesAway(q, s);
    ReadyKeeps(q, s1);
    ReadyKeeps(q, On(s1, Without(s1.dir, Work)));
    AwayKeeps(q, s2, Wal);
    AwayKeeps(q, s3, Shm);
    AwayKeeps(q, s4, Shm);
    PutBackIsReady(q, s4);
    ReadyKeeps(q, On(s4, Moved(s4.dir, Before, Db)));
    PutInPlace(q, s4, Work);
    hide Inv, Again, Ready, Away;
  }

  lemma AllAppend(q: Sqlite, t: seq<State>, u: seq<State>)
    ensures All(q, t + u) <==> All(q, t) && All(q, u)
    ensures Untouched(q, t + u) <==> Untouched(q, t) && Untouched(q, u)
  {
    hide Inv, Again;
  }

  lemma LastAppend(s: State, t: seq<State>, u: seq<State>)
    ensures Last(s, t + u) == Last(Last(s, t), u)
  {
  }

  /** Applying the staged file keeps the record; after it, either it stopped the
      start or the replaced database is in the backup file. */
  lemma ApplyKeeps(q: Sqlite, s: State, c: Answers)
    requires Inv(q, s) && !s.up && Possible(q, s.dir, c) && !Again(q, s)
    ensures Applied(q, s, c, ApplyTrail(q, s, c))
  {
    var s1 := On(s, Looked(s.dir, c));
    if Accepts(q, s, c) {
      if c.partial {
        PartialApplied(q, s, c);
      } else {
        FullApplied(q, s, c);
      }
    } else if Staged in s.dir {
      LookedKeeps(q, s, c);
      RefuseKeeps(q, s1, c);
    }
  }

  ghost predicate Applied(q: Sqlite, s: State, c: Answers, t: seq<State>) {
    && All(q, t) && !Last(s, t).up
    && (!Stops(q, s, c) ==> BeforeHolds(Last(s, t)) && Staged !in Last(s, t).dir)
    && (Restored(q, s, c) ==> Last(s, t).pre == Live(q, s.dir))
    && (!c.partial ==> Untouched(q, t))
  }

  lemma FullApplied(q: Sqlite, s: State, c: Answers)
    requires Inv(q, s) && !s.up && Accepts(q, s, c) && Possible(q, s.dir, c) && !Again(q, s) && !c.partial
    ensures Applied(q, s, c, ApplyTrail(q, s, c))
  {
    var s1 := On(s, Looked(s.dir, c));
    LookedKeeps(q, s, c);
    AcceptIsReady(q, s, c);
    var f := Accept(q, On(s1, s1.dir[Staged := c.carried]));
    var t := SwapTrail(f, c);
    assert f.pre == Live(q, s.dir) && ApplyTrail(q, s, c) == [s1, f] + t;
    hide Inv, Again, Ready, Accept, SwapTrail, Looked, BeforeHolds, Possible, ApplyTrail;
    ReadyKeeps(q, f);
    SwapKeeps(q, f, c);
    assert All(q, [s1, f]) && Untouched(q, [s1, f]);
    AllAppend(q, [s1, f], t);
    LastAppend(s, [s1, f], t);
  }

  lemma PartialApplied(q: Sqlite, s: State, c: Answers)
    requires Inv(q, s) && !s.up && Accepts(q, s, c) && Possible(q, s.dir, c) && !Again(q, s) && c.partial
    ensures Applied(q, s, c, ApplyTrail(q, s, c))
  {
    var s1 := On(s, Looked(s.dir, c));
    LookedKeeps(q, s, c);
    AcceptIsReady(q, s, c);
    var m := Accept(q, On(s1, s1.dir[Work := c.merged]));
    assert m.pre == Live(q, s.dir) && Work in m.dir && ApplyTrail(q, s, c) == [s1] + PartialTrail(q, s1, c);
    hide *;
    PartialKeeps(q, s1, c);
    IsApplied(q, s, s1, PartialTrail(q, s1, c), c);
  }

  lemma IsApplied(q: Sqlite, s: State, s1: State, t: seq<State>, c: Answers)
    requires Inv(q, s1) && All(q, t) && !Last(s1, t).up && c.partial
    requires BeforeHolds(Last(s1, t)) && Staged !in Last(s1, t).dir
    requires !MergeFails(c) ==> Last(s1, t).pre == Live(q, s.dir)
    ensures Applied(q, s, c, [s1] + t)
  {
    LastAppend(s, [s1], t);
  }

  lemma PartialKeeps(q: Sqlite, s: State, c: Answers)
    requires Ready(q, Accept(q, On(s, s.dir[Work := c.merged])))
    ensures var t := PartialTrail(q, s, c);
            && All(q, t) && !Last(s, t).up && BeforeHolds(Last(s, t)) && Staged !in Last(s, t).dir
            && (!MergeFails(c) ==> Last(s, t).pre == Accept(q, On(s, s.dir[Work := c.merged])).pre)
  {
    var m := Accept(q, On(s, s.dir[Work := c.merged]));
    var t := MergedTrail(m, c);
    var l := Last(m, t);
    var r := Refuse(q, l, c);
    assert Work in m.dir;
    assert PartialTrail(q, s, c) == [m] + t + if MergeFails(c) then [r] else [];
    hide Inv, Ready, Accept, MergedTrail, PartialTrail, BeforeHolds, Refuse;
    ReadyKeeps(q, m);
    MergedKeeps(q, m, c);
    assert All(q, [m]);
    AllAppend(q, [m], t);
    LastAppend(s, [m], t);
    if MergeFails(c) {
      LastInv(q, m, t);
      RefuseKeeps(q, l, c);
      RefusedIsDown(q, l, c);
      AllAppend(q, [m] + t, [r]);
    }
  }

  lemma RefusedIsDown(q: Sqlite, s: State, c: Answers)
    ensures Refuse(q, s, c).up == s.up
  {
  }

  lemma LastInv(q: Sqlite, s: State, t: seq<State>)
    requires Inv(q, s) && All(q, t)
    ensures Inv(q, Last(s, t))
  {
  }

  lemma BuildKeeps(q: Sqlite, s: State, b: Built)
    requires Inv(q, s) && BeforeHolds(s) && !s.up && Staged !in s.dir
    ensures var t := BuildTrail(q, s, b);
            && All(q, t) && Untouched(q, t) && BeforeHolds(Last(s, t)) && Staged !in Last(s, t).dir && Last(s, t).pre == s.pre
            && (BuildFails(q, s, b) ==> !Last(s, t).up)
  {
  }

  /** A rollback puts the replaced database back, or leaves it in the backup file. */
  lemma RollbackKeeps(q: Sqlite, s: State, c: Answers)
    requires Inv(q, s) && BeforeHolds(s) && s.pre.Some? && !s.up && Staged !in s.dir
    ensures Before in s.dir
    ensures var t := RollbackTrail(q, s, c);
            && All(q, t) && Untouched(q, t) && Staged !in Last(s, t).dir && BeforeHolds(Last(s, t)) && !Last(s, t).up
            && (RolledBack(s, c) ==> Live(q, Last(s, t).dir) == s.pre && Last(s, t).pre == None)
  {
    PutBackKeeps(q, s, RollBack in c.fails);
    if RollAside !in c.fails && Db in s.dir {
      var s1 := On(s, Moved(s.dir, Db, Failed(c.stampOfRollback)));
      assert Inv(q, s1) && !Again(q, s1) && BeforeHolds(s1) && Staged !in s1.dir;
      hide Inv, Again, BeforeHolds, PutBackTrail;
      PutBackKeeps(q, s1, RollBack in c.fails);
      AllAppend(q, [s1], PutBackTrail(q, s1, RollBack in c.fails));
      LastAppend(s, [s1], PutBackTrail(q, s1, RollBack in c.fails));
    }
  }

  lemma PutBackKeeps(q: Sqlite, s: State, fails: bool)
    requires Inv(q, s) && BeforeHolds(s) && s.pre.Some? && !s.up && Staged !in s.dir
    ensures var t := PutBackTrail(q, s, fails);
            && All(q, t) && Untouched(q, t) && Staged !in Last(s, t).dir && BeforeHolds(Last(s, t)) && !Last(s, t).up
            && (!fails ==> Live(q, Last(s, t).dir) == s.pre && Last(s, t).pre == None)
  {
    var s1 := On(s, Without(s.dir, Wal));
    var s2 := On(s1, Without(s1.dir, Shm));
    assert Inv(q, s1) && !Again(q, s1) && Inv(q, s2) && !Again(q, s2) && BeforeHolds(s2) && Wal !in s2.dir && Staged !in s2.dir;
    var s3 := Release(q, On(s2, Moved(s2.dir, Before, Db)));
    assert Live(q, s3.dir) == s.pre && s3.pre == None && Staged !in s3.dir;
    assert Inv(q, s3) && !Again(q, s3) && BeforeHolds(s3);
    hide Inv, Again, Live, Without, Moved, Release;
  }

  lemma {:induction false} StartKeeps(q: Sqlite, s: State, c: Answers)
    requires Inv(q, s) && !s.up && Possible(q, s.dir, c) && !Again(q, s)
    ensures All(q, StartTrail(q, s, c)) && (!c.partial ==> Untouched(q, StartTrail(q, s, c)))
    ensures Continues(q, StartTrail(q, s, c), ApplyTrail(q, s, c))
  {
    var t := ApplyTrail(q, s, c);
    var applied := Last(s, t);
    ApplyKeeps(q, s, c);
    LastInv(q, s, t);
    if !Stops(q, s, c) {
      LivePresent(q, s, c);
      hide Inv, Again, Possible, ApplyTrail, BeforeHolds, Live, BuildTrail, RollbackTrail;
      OpenedKeeps(q, s, applied, c, t);
    }
  }

  /** t goes on after the states u with states that have no staged file put in place
      before. */
  ghost predicate Continues(q: Sqlite, t: seq<State>, u: seq<State>) {
    |u| <= |t| && t[..|u|] == u && Untouched(q, t[|u|..])
  }

  lemma ContinuesWith(q: Sqlite, u: seq<State>, more: seq<State>)
    requires Untouched(q, more)
    ensures Continues(q, u + more, u)
  {
    assert (u + more)[|u|..] == more;
  }

  lemma LivePresent(q: Sqlite, s: State, c: Answers)
    ensures Restored(q, s, c) ==> Live(q, s.dir).Some?
  {
  }

  /** The states after the staged file was dealt with. */
  function OpenTrail(q: Sqlite, s: State, applied: State, c: Answers): seq<State> {
    var b := BuildTrail(q, applied, c.first);
    var built := Last(applied, b);
    if !BuildFails(q, applied, c.first) || !Restored(q, s, c) then b
    else
      var r := RollbackTrail(q, built, c);
      if !RolledBack(built, c) then b + r else b + r + BuildTrail(q, Last(built, r), c.second)
  }

  lemma OpenTrailKeeps(q: Sqlite, s: State, applied: State, c: Answers)
    requires Inv(q, applied) && BeforeHolds(applied) && !applied.up && Staged !in applied.dir
    requires Restored(q, s, c) ==> applied.pre.Some?
    ensures All(q, OpenTrail(q, s, applied, c)) && Untouched(q, OpenTrail(q, s, applied, c))
  {
    var b := BuildTrail(q, applied, c.first);
    var built := Last(applied, b);
    BuildKeeps(q, applied, c.first);
    LastInv(q, applied, b);
    if BuildFails(q, applied, c.first) && Restored(q, s, c) {
      hide Inv, Again, BeforeHolds, Live, BuildTrail, RollbackTrail, Restored;
      var r := RollbackTrail(q, built, c);
      RollbackKeeps(q, built, c);
      LastInv(q, built, r);
      AllAppend(q, b, r);
      if RolledBack(built, c) {
        var put := Last(built, r);
        BuildKeeps(q, put, c.second);
        AllAppend(q, b + r, BuildTrail(q, put, c.second));
      }
    }
  }

  lemma OpenedKeeps(q: Sqlite, s: State, applied: State, c: Answers, t: seq<State>)
    requires Inv(q, applied) && BeforeHolds(applied) && !applied.up && Staged !in applied.dir && applied == Last(s, t)
    requires t == ApplyTrail(q, s, c) && !Stops(q, s, c) && All(q, t) && (!c.partial ==> Untouched(q, t))
    requires Restored(q, s, c) ==> applied.pre.Some?
    ensures All(q, StartTrail(q, s, c)) && (!c.partial ==> Untouched(q, StartTrail(q, s, c)))
    ensures Continues(q, StartTrail(q, s, c), t)
  {
    var more := OpenTrail(q, s, applied, c);
    OpenTrailKeeps(q, s, applied, c);
    StartIs(q, s, c);
    hide Inv, Again, BeforeHolds, OpenTrail, StartTrail, ApplyTrail, Restored, Stops;
    AllAppend(q, t, more);
    ContinuesWith(q, t, more);
  }

  lemma StartIs(q: Sqlite, s: State, c: Answers)
    requires !Stops(q, s, c)
    ensures var t := ApplyTrail(q, s, c); StartTrail(q, s, c) == t + OpenTrail(q, s, Last(s, t), c)
  {
    hide ApplyTrail, BuildTrail, RollbackTrail, Stops, Restored, BuildFails, RolledBack;
    var t := ApplyTrail(q, s, c);
    var applied := Last(s, t);
    var b := BuildTrail(q, applied, c.first);
    var r := RollbackTrail(q, Last(applied, b), c);
    var e := BuildTrail(q, Last(Last(applied, b), r), c.second);
    assert t + b + r == t + (b + r) && t + b + r + e == t + (b + r + e);
  }

  lemma AfterKeeps(q: Sqlite, s: State, e: Event)
    requires Inv(q, s) && (e.Start? ==> Possible(q, s.dir, e.c) && !Again(q, s))
    ensures Inv(q, After(q, s, e))
    ensures (e.Start? ==> !e.c.partial) && !Again(q, s) ==> !Again(q, After(q, s, e))
  {
    if e.Start? {
      var s0 := Stopped(s);
      assert Inv(q, s0) && (Again(q, s) <==> Again(q, s0));
      StartKeeps(q, s0, e.c);
      hide Inv, Again, StartTrail, Possible;
    }
  }

  /** A partial start that was swapped in and dies before it removes the staged file,
      with a merge that changed something. */
  predicate DiesSwapped(q: Sqlite, s: State, e: Event) {
    && e.Start? && e.c.partial && Accepts(q, s, e.c) && !SwapFails(e.c)
    && e.steps == 7 && e.c.merged != [] && Some(e.c.merged) != Live(q, s.dir)
  }

  /** Among the states of applying a staged file only that one has a staged file put in
      place before. */
  lemma OnlySeventh(q: Sqlite, s: State, c: Answers, i: nat)
    requires Inv(q, s) && !s.up && Possible(q, s.dir, c) && !Again(q, s) && i < |ApplyTrail(q, s, c)|
    ensures Again(q, ApplyTrail(q, s, c)[i]) <==> DiesSwapped(q, s, Start(c, i + 1))
  {
    ApplyKeeps(q, s, c);
    if !c.partial || !Accepts(q, s, c) {
      assert Again(q, ApplyTrail(q, s, c)[i]) ==> ApplyTrail(q, s, c)[i] in ApplyTrail(q, s, c);
      if !Accepts(q, s, c) && Staged in s.dir {
        LookedKeeps(q, s, c);
        RefuseKeeps(q, On(s, Looked(s.dir, c)), c);
      }
      hide Inv, Live, Refuse, Looked, FullTrail, PartialTrail;
    } else {
      SeventhOfPartial(q, s, c, i);
    }
  }

  lemma SeventhOfPartial(q: Sqlite, s: State, c: Answers, i: nat)
    requires Inv(q, s) && !s.up && Possible(q, s.dir, c) && !Again(q, s) && c.partial && Accepts(q, s, c)
    requires i < |ApplyTrail(q, s, c)|
    ensures Again(q, ApplyTrail(q, s, c)[i]) <==> DiesSwapped(q, s, Start(c, i + 1))
  {
    hide *;
    var s1, m := Accepting(q, s, c);
    var t := MergedTrail(m, c);
    MergedSize(m, c);
    PlaceIn(s1, m, t, if MergeFails(c) then [Refuse(q, Last(m, t), c)] else [], i);
    SeventhIs(q, s, c, i);
    if i == 1 {
      ReadyKeeps(q, m);
    } else if 2 <= i < 2 + |t| {
      MergedStates(q, m, c, i - 2);
    } else if i >= 2 + |t| {
      EndRefused(q, m, c);
    }
  }

  /** The first two states of an accepted partial restore, and the rest. */
  lemma Accepting(q: Sqlite, s: State, c: Answers) returns (s1: State, m: State)
    requires Inv(q, s) && !s.up && Possible(q, s.dir, c) && !Again(q, s) && c.partial && Accepts(q, s, c)
    ensures !Again(q, s1) && Ready(q, m) && m.pre == Live(q, s.dir) && Work in m.dir && m.dir[Work] == c.merged
    ensures ApplyTrail(q, s, c)
         == [s1] + ([m] + MergedTrail(m, c) + (if MergeFails(c) then [Refuse(q, Last(m, MergedTrail(m, c)), c)] else []))
  {
    s1 := On(s, Looked(s.dir, c));
    LookedKeeps(q, s, c);
    AcceptIsReady(q, s, c);
    m := Accept(q, On(s1, s1.dir[Work := c.merged]));
    hide Inv, Again, Ready, MergedTrail, Looked;
  }

  lemma SeventhIs(q: Sqlite, s: State, c: Answers, i: nat)
    requires c.partial && Accepts(q, s, c)
    ensures DiesSwapped(q, s, Start(c, i + 1)) <==> !SwapFails(c) && i == 6 && c.merged != [] && Some(c.merged) != Live(q, s.dir)
  {
    hide Accepts, Live;
  }

  lemma PlaceIn(s1: State, m: State, t: seq<State>, end: seq<State>, i: nat)
    requires i < |[s1] + ([m] + t + end)| && |end| <= 1
    ensures var x := ([s1] + ([m] + t + end))[i];
            x == if i == 0 then s1 else if i == 1 then m else if i < 2 + |t| then t[i - 2] else end[0]
  {
  }

  /** The refusal at the end of a partial restore that failed. */
  lemma EndRefused(q: Sqlite, m: State, c: Answers)
    requires Ready(q, m) && Work in m.dir
    ensures !Again(q, Refuse(q, Last(m, MergedTrail(m, c)), c))
    ensures !SwapFails(c) ==> |MergedTrail(m, c)| >= 5
  {
    var t := MergedTrail(m, c);
    MergedSize(m, c);
    ReadyKeeps(q, m);
    MergedKeeps(q, m, c);
    hide MergedTrail, Ready, Inv, Refuse;
    LastInv(q, m, t);
    RefuseKeeps(q, Last(m, t), c);
  }

  lemma MergedSize(s: State, c: Answers)
    ensures |MergedTrail(s, c)| == if KeepOld in c.fails then 2 else if SwapIn in c.fails then if PutBack in c.fails then 4 else 5
                                   else if Unlink in c.fails then 5 else 6
  {
    hide Without, Moved;
  }

  lemma MergedStates(q: Sqlite, s: State, c: Answers, i: nat)
    requires Ready(q, s) && Work in s.dir && i < |MergedTrail(s, c)|
    ensures Again(q, MergedTrail(s, c)[i])
       <==> i == 4 && !SwapFails(c) && s.dir[Work] != [] && Some(s.dir[Work]) != s.pre
  {
    var s1 := On(s, Without(s.dir, Before));
    var s2 := On(s1, Moved(s1.dir, Db, Before));
    var s3 := On(s2, Without(s2.dir, Wal));
    var s4 := On(s3, Without(s3.dir, Shm));
    MovesAway(q, s);
    ReadyKeeps(q, s1);
    ReadyKeeps(q, On(s1, Without(s1.dir, Work)));
    AwayKeeps(q, s2, Wal);
    AwayKeeps(q, s3, Shm);
    AwayKeeps(q, s4, Shm);
    PutBackIsReady(q, s4);
    ReadyKeeps(q, On(s4, Moved(s4.dir, Before, Db)));
    SwappedAgain(q, s4, Work);
    WorkStays(s);
    hide Inv, Again, Ready, Away, Without, Moved, Live;
  }

  lemma WorkStays(s: State)
    requires Work in s.dir
    ensures var d := Without(Without(Moved(Without(s.dir, Before), Db, Before), Wal), Shm); Work in d && d[Work] == s.dir[Work]
  {
  }

  lemma SwappedAgain(q: Sqlite, s: State, n: Name)
    requires Away(s) && n in s.dir && n == Work
    ensures var d := Moved(s.dir, n, Db);
            && (Again(q, On(s, d)) <==> s.dir[n] != [] && Some(s.dir[n]) != s.pre)
            && !Again(q, On(s, Without(d, Staged)))
  {
  }

  lemma InStart(q: Sqlite, s: State, c: Answers, i: nat)
    requires Inv(q, s) && !s.up && Possible(q, s.dir, c) && !Again(q, s) && i < |StartTrail(q, s, c)|
    ensures Again(q, StartTrail(q, s, c)[i]) <==> DiesSwapped(q, s, Start(c, i + 1))
  {
    hide *;
    StartKeeps(q, s, c);
    ContinuesAt(q, StartTrail(q, s, c), ApplyTrail(q, s, c), i);
    if i < |ApplyTrail(q, s, c)| {
      OnlySeventh(q, s, c, i);
    } else {
      NotSeventh(q, s, c, i);
    }
  }

  lemma ContinuesAt(q: Sqlite, all: seq<State>, t: seq<State>, i: nat)
    requires Continues(q, all, t) && i < |all|
    ensures if i < |t| then all[i] == t[i] else !Again(q, all[i])
  {
    if i < |t| {
      assert all[i] == all[..|t|][i];
    } else {
      assert all[i] == all[|t|..][i - |t|];
      assert all[i] in all[|t|..];
    }
  }

  lemma NotSeventh(q: Sqlite, s: State, c: Answers, i: nat)
    requires i >= |ApplyTrail(q, s, c)|
    ensures !DiesSwapped(q, s, Start(c, i + 1))
  {
    SevenSteps(q, s, c);
    hide ApplyTrail, Live, Accepts;
  }

  /** When an event leads to a state with a staged file put in place before: exactly when
      a partial start dies right after its swap and the merge changed something. */
  lemma {:induction false} AgainExactly(q: Sqlite, s: State, e: Event)
    requires Inv(q, s) && !Again(q, s) && (e.Start? ==> Possible(q, s.dir, e.c))
    ensures Again(q, After(q, s, e)) <==> DiesSwapped(q, Stopped(s), e)
  {
    if e.Start? {
      StoppedIs(q, s, e);
      hide *;
      StartAgain(q, Stopped(s), e.c, e.steps);
    } else {
      AfterKeeps(q, s, e);
      hide Inv, Again, After;
    }
  }

  lemma StoppedIs(q: Sqlite, s: State, e: Event)
    requires Inv(q, s) && !Again(q, s) && e.Start?
    ensures Inv(q, Stopped(s)) && !Again(q, Stopped(s)) && Stopped(s).dir == s.dir && !Stopped(s).up
    ensures After(q, s, e) == After(q, Stopped(s), Start(e.c, e.steps)) && e == Start(e.c, e.steps)
  {
    hide StartTrail;
  }

  lemma StartAgain(q: Sqlite, s: State, c: Answers, steps: nat)
    requires Inv(q, s) && !Again(q, s) && !s.up && Possible(q, s.dir, c)
    ensures Again(q, After(q, s, Start(c, steps))) <==> DiesSwapped(q, s, Start(c, steps))
  {
    hide *;
    var all := StartTrail(q, s, c);
    StepsIn(q, s, c, steps);
    if steps == 0 || all == [] {
      NoSteps(q, s, c, steps);
    } else {
      var i := if steps > |all| then |all| - 1 else steps - 1;
      InStart(q, s, c, i);
      LastStep(q, s, c, i, steps);
    }
  }

  lemma NoSteps(q: Sqlite, s: State, c: Answers, steps: nat)
    requires steps == 0 || StartTrail(q, s, c) == []
    ensures !DiesSwapped(q, s, Start(c, steps))
  {
    SevenSteps(q, s, c);
    MoreThanApplied(q, s, c);
    hide ApplyTrail, StartTrail, Live, Accepts;
  }

  lemma LastStep(q: Sqlite, s: State, c: Answers, i: nat, steps: nat)
    requires steps > 0 && StartTrail(q, s, c) != []
    requires i == if steps > |StartTrail(q, s, c)| then |StartTrail(q, s, c)| - 1 else steps - 1
    ensures DiesSwapped(q, s, Start(c, steps)) <==> DiesSwapped(q, s, Start(c, i + 1))
  {
    SevenSteps(q, s, c);
    MoreThanApplied(q, s, c);
    hide ApplyTrail, StartTrail, Live, Accepts;
  }

  lemma MoreThanApplied(q: Sqlite, s: State, c: Answers)
    ensures |StartTrail(q, s, c)| >= |ApplyTrail(q, s, c)|
  {
    hide ApplyTrail, BuildTrail, RollbackTrail, Stops, Restored, BuildFails;
  }

  lemma StepsIn(q: Sqlite, s: State, c: Answers, steps: nat)
    requires !s.up
    ensures var all := StartTrail(q, s, c);
            After(q, s, Start(c, steps))
            == if steps == 0 || all == [] then s else all[if steps > |all| then |all| - 1 else steps - 1]
  {
    hide StartTrail;
  }

  lemma SevenSteps(q: Sqlite, s: State, c: Answers)
    ensures DiesSwapped(q, s, Start(c, 7)) ==> |ApplyTrail(q, s, c)| >= 8
  {
    var s1 := On(s, Looked(s.dir, c));
    MergedSize(Accept(q, On(s1, s1.dir[Work := c.merged])), c);
    hide MergedTrail, Looked, Accept, Live;
  }

  /** Over every run of starts that die anywhere or complete, of writes and of
      staged restores, the database that the latest accepted restore replaces is in
      picache.db or in picache.db.before-restore, as long as no start finds a
      staged file that was put in place before. */
  lemma {:induction false} NothingLost(q: Sqlite, s: State, es: seq<Event>)
    requires Begin(s) && Allowed(q, s, es) && NeverAgain(q, s, es)
    ensures Inv(q, Run(q, s, es)) && Kept(q, Run(q, s, es))
  {
    if es != [] {
      NothingLost(q, s, es[..|es| - 1]);
      AfterKeeps(q, Run(q, s, es[..|es| - 1]), es[|es| - 1]);
    }
  }

  ghost predicate NoneDies(q: Sqlite, s: State, es: seq<Event>) {
    forall i :: 0 <= i < |es| ==> !DiesSwapped(q, Stopped(Run(q, s, es[..i])), es[i])
  }

  /** The same by the events alone: as long as no partial start dies right after its
      swap. */
  lemma {:induction false} NothingLostUnlessDies(q: Sqlite, s: State, es: seq<Event>)
    requires Begin(s) && Allowed(q, s, es) && NoneDies(q, s, es)
    ensures NeverAgain(q, s, es) && !Again(q, Run(q, s, es)) && Kept(q, Run(q, s, es))
  {
    if es != [] {
      var before, e := es[..|es| - 1], es[|es| - 1];
      assert forall i :: 0 <= i < |before| ==> before[..i] == es[..i];
      assert !DiesSwapped(q, Stopped(Run(q, s, before)), e);
      hide DiesSwapped, After, Inv, Again, Kept, Possible;
      NothingLostUnlessDies(q, s, before);
      NothingLost(q, s, before);
      AgainExactly(q, Run(q, s, before), e);
      assert NeverAgain(q, s, es);
      NothingLost(q, s, es);
    }
  }

  /** Full restores never leave such a file: the last rename of the swap consumes
      it. So their runs lose nothing. */
  lemma {:induction false} FullRestoresLoseNothing(q: Sqlite, s: State, es: seq<Event>)
    requires Begin(s) && Allowed(q, s, es) && forall e <- es :: e.Start? ==> !e.c.partial
    ensures NeverAgain(q, s, es) && !Again(q, Run(q, s, es)) && Kept(q, Run(q, s, es))
  {
    if es != [] {
      var before := es[..|es| - 1];
      FullRestoresLoseNothing(q, s, before);
      NothingLost(q, s, before);
      AfterKeeps(q, Run(q, s, before), es[|es| - 1]);
      assert es[|es| - 1] in es;
      assert NeverAgain(q, s, es);
      NothingLost(q, s, es);
    }
  }

  /** The condition is exact: a start that accepts the staged file passes through a
      state without the replaced database exactly when that file was put in place
      before. */
  lemma {:induction false} AgainLoses(q: Sqlite, s: State, c: Answers)
    requires Inv(q, s) && !s.up && Possible(q, s.dir, c) && Accepts(q, s, c)
    ensures Again(q, s) <==> exists x <- ApplyTrail(q, s, c) :: !Kept(q, x)
  {
    if Again(q, s) {
      AgainRemoves(q, s, c);
    } else {
      ApplyKeeps(q, s, c);
      assert forall x <- ApplyTrail(q, s, c) :: Inv(q, x);
      hide ApplyTrail;
    }
  }

  lemma AgainRemoves(q: Sqlite, s: State, c: Answers)
    requires Possible(q, s.dir, c) && Accepts(q, s, c) && Again(q, s)
    ensures |ApplyTrail(q, s, c)| > 2 && !Kept(q, ApplyTrail(q, s, c)[2])
  {
    var s1 := On(s, Looked(s.dir, c));
    var s2 := Accept(q, On(s1, if c.partial then s1.dir[Work := c.merged] else s1.dir[Staged := c.carried]));
    var s3 := On(s2, Without(s2.dir, Before));
    assert s2.pre == s.pre && Live(q, s2.dir) == Live(q, s.dir);
    assert Live(q, s3.dir) == Live(q, s2.dir);
    assert !Kept(q, s3);
    hide Kept, Live, Looked, Possible, Again;
    assert ApplyTrail(q, s, c)[2] == s3;
  }

  // ---- what a restore leaves --------------------------------------------------------------------

  /** picache.db reads the same and the backup file is the same. */
  predicate SameData(q: Sqlite, d: Dir, e: Dir) {
    && Live(q, e) == Live(q, d)
    && (Before in d <==> Before in e) && (Before in d ==> e[Before] == d[Before])
  }

  /** A staged file that is refused leaves the content of picache.db and the backup
      file at every step as they were, and is kept under its own name. */
  lemma {:induction false} RefusedChangesNothing(q: Sqlite, s: State, c: Answers)
    requires Possible(q, s.dir, c) && Staged in s.dir && (Live(q, s.dir).None? || !c.accepts)
    ensures |ApplyTrail(q, s, c)| == 2
    ensures forall x <- ApplyTrail(q, s, c) :: SameData(q, s.dir, x.dir)
    ensures var x := Last(s, ApplyTrail(q, s, c));
            && Staged !in x.dir
            && (if SetAside !in c.fails then Failed(c.stamp) in x.dir && x.dir[Failed(c.stamp)] == s.dir[Staged]
                else Failed(c.stamp) in x.dir <==> Failed(c.stamp) in s.dir)
  {
    var s1 := On(s, Looked(s.dir, c));
    assert SameData(q, s.dir, s1.dir) && Staged in s1.dir && s1.dir[Staged] == s.dir[Staged];
    assert Failed(c.stamp) in s1.dir <==> Failed(c.stamp) in s.dir;
    hide Looked, Live, Possible, Refuse;
    SetAsideKeeps(q, s1, c);
  }

  lemma SetAsideKeeps(q: Sqlite, s: State, c: Answers)
    requires Staged in s.dir
    ensures var d := Refuse(q, s, c).dir;
            && SameData(q, s.dir, d) && Staged !in d
            && (if SetAside !in c.fails then Failed(c.stamp) in d && d[Failed(c.stamp)] == s.dir[Staged]
                else Failed(c.stamp) in d <==> Failed(c.stamp) in s.dir)
  {
  }

  /** The start accepts the staged file and nothing fails while it is put in place. */
  predicate PutInPlaceBy(q: Sqlite, s: State, c: Answers) {
    && Staged in s.dir && Live(q, s.dir).Some? && c.accepts
    && KeepOld !in c.fails && SwapIn !in c.fails && (c.partial ==> Unlink !in c.fails)
  }

  /** A restore that is applied leaves the restored database in picache.db, the
      replaced one in the backup file, and nothing staged. */
  lemma {:induction false} RestoredSwaps(q: Sqlite, s: State, c: Answers)
    requires Possible(q, s.dir, c) && PutInPlaceBy(q, s, c)
    ensures var d := Last(s, ApplyTrail(q, s, c)).dir;
            && Db in d && Wal !in d && d[Db] == (if c.partial then c.merged else c.carried)
            && Before in d && Some(d[Before]) == Live(q, s.dir) && Staged !in d && Shm !in d
  {
    var s1 := On(s, Looked(s.dir, c));
    var m := Accept(q, On(s1, s1.dir[Work := c.merged]));
    var f := Accept(q, On(s1, s1.dir[Staged := c.carried]));
    ReadyToSwap(q, s, c);
    TrailOfSwap(q, s, c);
    hide *;
    if c.partial {
      MergedContents(m, c);
      LastAppend(s, [s1, m], MergedTrail(m, c));
      LastOf(s, s1, m);
    } else {
      SwapContents(f, c);
      LastAppend(s, [s1, f], SwapTrail(f, c));
      LastOf(s, s1, f);
    }
  }

  lemma ReadyToSwap(q: Sqlite, s: State, c: Answers)
    requires Possible(q, s.dir, c) && PutInPlaceBy(q, s, c)
    ensures var d := Looked(s.dir, c); var s1 := On(s, d);
            && Db in d && Staged in d && Some(d[Db]) == Live(q, s.dir)
            && Accept(q, On(s1, d[Work := c.merged])).dir == d[Work := c.merged]
            && Accept(q, On(s1, d[Staged := c.carried])).dir == d[Staged := c.carried]
  {
  }

  lemma TrailOfSwap(q: Sqlite, s: State, c: Answers)
    requires PutInPlaceBy(q, s, c)
    ensures var s1 := On(s, Looked(s.dir, c));
            var m := Accept(q, On(s1, s1.dir[Work := c.merged])); var f := Accept(q, On(s1, s1.dir[Staged := c.carried]));
            ApplyTrail(q, s, c) == [s1] + [if c.partial then m else f] + (if c.partial then MergedTrail(m, c) else SwapTrail(f, c))
    ensures !SwapFails(c) && (c.partial ==> !MergeFails(c))
  {
    hide Looked, Accept, MergedTrail, SwapTrail, Live;
  }

  lemma LastOf(s: State, x: State, y: State)
    ensures Last(s, [x, y]) == y && [x] + [y] == [x, y]
  {
  }

  lemma SwapContents(s: State, c: Answers)
    requires Db in s.dir && Staged in s.dir && !SwapFails(c)
    ensures var d := Last(s, SwapTrail(s, c)).dir;
            && Db in d && Wal !in d && d[Db] == s.dir[Staged]
            && Before in d && d[Before] == s.dir[Db] && Staged !in d && Shm !in d
  {
  }

  lemma MergedContents(s: State, c: Answers)
    requires Db in s.dir && Work in s.dir && !MergeFails(c)
    ensures var d := Last(s, MergedTrail(s, c)).dir;
            && Db in d && Wal !in d && d[Db] == s.dir[Work]
            && Before in d && d[Before] == s.dir[Db] && Staged !in d && Shm !in d
  {
    var s1 := On(s, Without(s.dir, Before));
    var s2 := On(s1, Moved(s1.dir, Db, Before));
    var s4 := On(s2, Without(Without(s2.dir, Wal), Shm));
    assert Before in s4.dir && s4.dir[Before] == s.dir[Db] && Work in s4.dir && s4.dir[Work] == s.dir[Work] && Wal !in s4.dir;
  }

  /** The build opened the database and left this. */
  predicate Leaves(s: State, x: State, b: Built) {
    && Db in x.dir && x.dir[Db] == b.db && x.up == b.ok
    && (b.wal.Some? ==> Wal in x.dir && x.dir[Wal] == b.wal.value) && (b.wal.None? ==> Wal !in x.dir)
    && InstanceId in x.dir
    && (forall n <- s.dir :: n != Db && n != Wal && n != InstanceId ==> n in x.dir && x.dir[n] == s.dir[n])
    && (forall n <- x.dir :: n != Db && n != Wal && n != InstanceId ==> n in s.dir)
  }

  lemma BuildLeaves(q: Sqlite, s: State, b: Built)
    requires Live(q, s.dir).Some? || InstanceId !in s.dir
    ensures |BuildTrail(q, s, b)| == 1 && Leaves(s, BuildTrail(q, s, b)[0], b)
    ensures BuildFails(q, s, b) <==> !b.ok
  {
  }

  /** When a restored database cannot be started the database from before the start is
      put back and started in its place: whatever the failed build left, the state before
      the last one reads as before the start, and the last one is what the second build
      leaves. */
  lemma {:induction false} RollbackPutsBack(q: Sqlite, s: State, c: Answers)
    requires Inv(q, s) && !s.up && !Again(q, s) && Possible(q, s.dir, c) && PutInPlaceBy(q, s, c)
    requires !c.first.ok && RollBack !in c.fails
    ensures var t := StartTrail(q, s, c);
            && |t| > 2 && Live(q, t[|t| - 2].dir) == Live(q, s.dir) && Leaves(t[|t| - 2], t[|t| - 1], c.second)
  {
    var t := ApplyTrail(q, s, c);
    var applied := Last(s, t);
    var b := BuildTrail(q, applied, c.first);
    var built := Last(applied, b);
    var r := RollbackTrail(q, built, c);
    assert Restored(q, s, c) && !Stops(q, s, c) && BuildFails(q, applied, c.first) && Live(q, s.dir).Some?;
    ApplyKeeps(q, s, c);
    LastInv(q, s, t);
    BuildKeeps(q, applied, c.first);
    LastInv(q, applied, b);
    RollbackKeeps(q, built, c);
    RollbackIsLong(q, built, c);
    BuildLeaves(q, Last(built, r), c.second);
    assert RolledBack(built, c);
    hide *;
    EndsWith(q, s, c, t, b, r);
  }

  lemma RollbackIsLong(q: Sqlite, s: State, c: Answers)
    requires RolledBack(s, c)
    ensures |RollbackTrail(q, s, c)| > 2
  {
  }

  lemma EndsWith(q: Sqlite, s: State, c: Answers, t: seq<State>, b: seq<State>, r: seq<State>)
    requires t == ApplyTrail(q, s, c) && b == BuildTrail(q, Last(s, t), c.first) && r == RollbackTrail(q, Last(Last(s, t), b), c)
    requires !Stops(q, s, c) && Restored(q, s, c) && BuildFails(q, Last(s, t), c.first) && RolledBack(Last(Last(s, t), b), c)
    requires |r| > 2 && |BuildTrail(q, Last(Last(Last(s, t), b), r), c.second)| == 1
    ensures var all := StartTrail(q, s, c); var put := Last(Last(Last(s, t), b), r);
            && |all| > 2 && all[|all| - 2] == put && all[|all| - 1] == BuildTrail(q, put, c.second)[0]
  {
    hide ApplyTrail, BuildTrail, RollbackTrail, Stops, Restored, BuildFails, RolledBack;
    var e := BuildTrail(q, Last(Last(Last(s, t), b), r), c.second);
    assert StartTrail(q, s, c) == t + b + r + e;
  }

  /** The rollback keeps the database that could not be started under another name. */
  lemma {:induction false} RollbackSetsAside(q: Sqlite, s: State, c: Answers)
    requires Before in s.dir && Db in s.dir && RollAside !in c.fails
    ensures var d := Last(s, RollbackTrail(q, s, c)).dir; var aside := Failed(c.stampOfRollback);
            && aside in d && d[aside] == s.dir[Db] && Wal !in d && Shm !in d
            && (if RollBack in c.fails then Db !in d && Before in d && d[Before] == s.dir[Before]
                else Db in d && d[Db] == s.dir[Before] && Before !in d)
  {
    var d := Without(Without(Moved(s.dir, Db, Failed(c.stampOfRollback)), Wal), Shm);
    assert Before in d && d[Before] == s.dir[Before] && Db !in d && Wal !in d && Shm !in d;
    assert Failed(c.stampOfRollback) in d && d[Failed(c.stampOfRollback)] == s.dir[Db];
  }

  /** When it cannot be kept the backup file is still put back, and without a backup
      file nothing is done. */
  lemma {:induction false} RollbackWithout(q: Sqlite, s: State, c: Answers)
    requires Before !in s.dir || Db !in s.dir || RollAside in c.fails
    ensures var t := RollbackTrail(q, s, c); var d := Last(s, t).dir;
            if Before !in s.dir then t == []
            else
              && (Failed(c.stampOfRollback) in d <==> Failed(c.stampOfRollback) in s.dir) && Wal !in d && Shm !in d
              && (if RollBack in c.fails then Before in d && d[Before] == s.dir[Before]
                  else Db in d && d[Db] == s.dir[Before] && Before !in d)
  {
    var d := Without(Without(s.dir, Wal), Shm);
    assert Before in s.dir ==> Before in d && d[Before] == s.dir[Before];
    assert Failed(c.stampOfRollback) in d <==> Failed(c.stampOfRollback) in s.dir;
  }

  /** A full restore that is accepted and then fails ends the start before any build. */
  lemma {:induction false} FailedFullStops(q: Sqlite, s: State, c: Answers)
    requires Staged in s.dir && Live(q, s.dir).Some? && c.accepts && !c.partial && (KeepOld in c.fails || SwapIn in c.fails)
    ensures StartTrail(q, s, c) == ApplyTrail(q, s, c) && !PutInPlaceBy(q, s, c)
  {
    hide ApplyTrail, BuildTrail, RollbackTrail;
  }

  /** A first build that opens what it finds and succeeds, or fails without a restored
      database, is the end of the start. */
  lemma {:induction false} FirstBuildEnds(q: Sqlite, s: State, c: Answers)
    requires Staged in s.dir && Live(q, s.dir).Some? && c.accepts ==> c.partial || (KeepOld !in c.fails && SwapIn !in c.fails)
    requires c.first.ok || !PutInPlaceBy(q, s, c)
    ensures Staged !in s.dir ==> ApplyTrail(q, s, c) == []
    ensures var applied := Last(s, ApplyTrail(q, s, c)); var t := StartTrail(q, s, c);
            if Live(q, applied.dir).Some? || InstanceId !in applied.dir then t != [] && Leaves(applied, t[|t| - 1], c.first)
            else t == ApplyTrail(q, s, c) || PutInPlaceBy(q, s, c)
  {
    var t := ApplyTrail(q, s, c);
    var applied := Last(s, t);
    assert !Stops(q, s, c) && (Restored(q, s, c) <==> PutInPlaceBy(q, s, c));
    if Live(q, applied.dir).Some? || InstanceId !in applied.dir {
      BuildLeaves(q, applied, c.first);
    } else {
      assert BuildTrail(q, applied, c.first) == [] && BuildFails(q, applied, c.first);
    }
    hide ApplyTrail, BuildTrail, RollbackTrail, Stops, Restored, BuildFails, RolledBack, PutInPlaceBy, Live, Leaves;
    assert t + [] == t;
  }

  /** Why the check refuses when picache.db is missing: the swap removes the old
      backup first, which then holds the only copy. */
  lemma {:induction false} MissingMustBeRefused(q: Sqlite, s: State, c: Answers)
    requires Live(q, s.dir) == None && s.pre.Some? && BeforeHolds(s) && Possible(q, s.dir, c)
    ensures !Kept(q, SwapTrail(s, c)[0])
    ensures forall x <- ApplyTrail(q, s, c) :: BeforeHolds(x)
  {
    var s1 := On(s, Looked(s.dir, c));
    assert BeforeHolds(s1);
    RefusedHolds(q, s1, c);
    hide FullTrail, PartialTrail, Refuse, Looked;
  }

  lemma RefusedHolds(q: Sqlite, s: State, c: Answers)
    requires BeforeHolds(s)
    ensures BeforeHolds(Refuse(q, s, c))
  {
  }

  /** A partial restore that dies between the swap and the removal of the staged
      file leaves a staged file that was put in place, unless it changed nothing. */
  lemma {:induction false} PartialDies(q: Sqlite, s: State, c: Answers)
    requires Begin(s) && Possible(q, s.dir, c) && Restored(q, s, c) && c.partial && c.merged != []
    ensures |ApplyTrail(q, s, c)| == 8
    ensures var x := ApplyTrail(q, s, c)[6];
            && x.pre == Live(q, s.dir) && Live(q, x.dir) == Some(c.merged) && Staged in x.dir && !x.up
            && (Again(q, x) <==> Some(c.merged) != Live(q, s.dir))
  {
    var d := Looked(s.dir, c);
    assert Wal !in d && Db in d && Some(d[Db]) == Live(q, s.dir) && Staged in d;
    var m := Accept(q, On(On(s, d), d[Work := c.merged]));
    assert m.pre == Live(q, s.dir) && !m.untried && !m.up;
    MergedFifth(m, c);
    hide Looked, Accept, MergedTrail;
  }

  /** The state between the swap of a partial restore and the removal of the staged
      file. */
  lemma MergedFifth(s: State, c: Answers)
    requires Db in s.dir && Work in s.dir && Staged in s.dir && !MergeFails(c)
    ensures |MergedTrail(s, c)| == 6
    ensures var x := MergedTrail(s, c)[4];
            && Db in x.dir && x.dir[Db] == s.dir[Work] && Wal !in x.dir && Staged in x.dir
            && x.pre == s.pre && x.untried == s.untried && x.up == s.up
  {
    var d := Without(Moved(Without(s.dir, Before), Db, Before), Wal);
    assert Work in d && d[Work] == s.dir[Work] && Staged in d;
  }

  /** When the removal itself fails, the swap stays and yet counts as refused: a failed
      build of the merged database is then not rolled back. */
  lemma RefusedAfterSwap(q: Sqlite, s: State, c: Answers)
    requires Possible(q, s.dir, c) && Accepts(q, s, c) && c.partial && !SwapFails(c) && Unlink in c.fails
    ensures !Restored(q, s, c) && !Stops(q, s, c)
    ensures var d := Last(s, ApplyTrail(q, s, c)).dir;
            && Db in d && Wal !in d && d[Db] == c.merged && Before in d && Some(d[Before]) == Live(q, s.dir) && Staged !in d
  {
    var d := Looked(s.dir, c);
    var s1 := On(s, d);
    assert Wal !in d && Db in d && Some(d[Db]) == Live(q, s.dir) && Staged in d;
    var m := Accept(q, On(s1, d[Work := c.merged]));
    var t := MergedTrail(m, c);
    assert ApplyTrail(q, s, c) == [s1] + PartialTrail(q, s1, c);
    assert PartialTrail(q, s1, c) == [m] + t + [Refuse(q, Last(m, t), c)];
    assert m.dir == d[Work := c.merged];
    hide Looked, Accept, MergedTrail, PartialTrail, Live, ApplyTrail, Refuse, Possible;
    MergedStays(m, c);
    LastAppend(s, [s1], PartialTrail(q, s1, c));
    LastAppend(s1, [m] + t, [Refuse(q, Last(m, t), c)]);
    RefuseLeaves(q, Last(m, t), c);
  }

  lemma MergedStays(s: State, c: Answers)
    requires Db in s.dir && Work in s.dir && Staged in s.dir && !SwapFails(c) && Unlink in c.fails
    ensures var d := Last(s, MergedTrail(s, c)).dir;
            && Db in d && Wal !in d && d[Db] == s.dir[Work] && Before in d && d[Before] == s.dir[Db] && Staged in d
  {
    var s2 := Moved(Without(s.dir, Before), Db, Before);
    var d := Without(Without(s2, Wal), Shm);
    assert Before in d && d[Before] == s.dir[Db] && Work in d && d[Work] == s.dir[Work] && Wal !in d && Staged in d;
  }

  lemma RefuseLeaves(q: Sqlite, s: State, c: Answers)
    ensures var d := Refuse(q, s, c).dir;
            && Staged !in d && (forall n :: n == Db || n == Before || n == Wal || n == InstanceId ==> (n in d <==> n in s.dir))
            && (Db in d ==> d[Db] == s.dir[Db]) && (Before in d ==> d[Before] == s.dir[Before])
  {
  }

  /** What a failed swap of a partial restore leaves in picache.db: the replaced
      database, nothing, or the merged one. */
  lemma MergeLeaves(q: Sqlite, s: State, c: Answers)
    requires Db in s.dir && Wal !in s.dir && s.dir[Db] != [] && Work in s.dir && Staged in s.dir && MergeFails(c)
    ensures var d := Last(s, MergedTrail(s, c)).dir;
            && Live(q, d) == (if PutsBack(c) then Some(s.dir[Db])
                              else if SwapFails(c) || s.dir[Work] == [] then None else Some(s.dir[Work]))
            && (!PutsBack(c) ==> Before in d && d[Before] == s.dir[Db])
  {
    if !SwapFails(c) {
      MergedStays(s, c);
    } else if KeepOld !in c.fails {
      var d := Without(Without(Moved(Without(s.dir, Before), Db, Before), Wal), Shm);
      assert Db !in d && Wal !in d && Before in d && d[Before] == s.dir[Db];
      hide Moved, Without;
      assert Last(s, MergedTrail(s, c)).dir == if PutBack in c.fails then d else Moved(d, Before, Db);
      MovesBack(d);
    }
  }

  lemma MovesBack(d: Dir)
    requires Db !in d && Wal !in d && Before in d
    ensures var e := Moved(d, Before, Db); Db in e && e[Db] == d[Before] && Wal !in e
  {
  }

  lemma IdStaysMerged(s: State, c: Answers)
    requires InstanceId in s.dir
    ensures InstanceId in Last(s, MergedTrail(s, c)).dir
  {
    hide Without, Moved;
    var d1 := Without(s.dir, Before);
    var d2 := Moved(d1, Db, Before);
    var d3 := Without(d2, Wal);
    var d4 := Without(d3, Shm);
    OthersStay(s.dir, Before, InstanceId);
    OthersStay(d1, Db, InstanceId);
    OthersStay(d1, Work, InstanceId);
    OthersStay(d2, Wal, InstanceId);
    OthersStay(d3, Shm, InstanceId);
    OthersStay(d4, Before, InstanceId);
    OthersStay(d4, Work, InstanceId);
    OthersStay(Moved(d4, Work, Db), Staged, InstanceId);
  }

  /** The rename of the database failed, or the last one did and it was renamed back. */
  predicate PutsBack(c: Answers) {
    KeepOld in c.fails || (SwapIn in c.fails && PutBack !in c.fails)
  }

  /** What picache.db and the backup file are after an accepted partial restore that
      ends refused. */
  lemma RefusedLeaves(q: Sqlite, s: State, c: Answers)
    requires Possible(q, s.dir, c) && Accepts(q, s, c) && c.partial && MergeFails(c)
    ensures var d := Last(s, ApplyTrail(q, s, c)).dir;
            && Live(q, d) == (if PutsBack(c) then Live(q, s.dir)
                              else if SwapFails(c) || c.merged == [] then None else Some(c.merged))
            && (!PutsBack(c) ==> Before in d && Some(d[Before]) == Live(q, s.dir))
            && Live(q, s.dir) != Some([]) && (InstanceId in s.dir ==> InstanceId in d)
  {
    var d := Looked(s.dir, c);
    var s1 := On(s, d);
    assert Wal !in d && Db in d && d[Db] != [] && Some(d[Db]) == Live(q, s.dir) && Staged in d;
    assert InstanceId in s.dir ==> InstanceId in d;
    var m := Accept(q, On(s1, d[Work := c.merged]));
    var t := MergedTrail(m, c);
    assert ApplyTrail(q, s, c) == [s1] + PartialTrail(q, s1, c);
    assert PartialTrail(q, s1, c) == [m] + t + [Refuse(q, Last(m, t), c)];
    assert m.dir == d[Work := c.merged];
    hide Looked, Accept, MergedTrail, PartialTrail, Live, ApplyTrail, Refuse, Possible, SwapFails, MergeFails, PutsBack;
    MergeLeaves(q, m, c);
    if InstanceId in s.dir {
      IdStaysMerged(m, c);
    }
    LastAppend(s, [s1], PartialTrail(q, s1, c));
    LastAppend(s1, [m] + t, [Refuse(q, Last(m, t), c)]);
    RefuseLeaves(q, Last(m, t), c);
    RefuseReads(q, Last(m, t), c);
  }

  lemma RefuseReads(q: Sqlite, s: State, c: Answers)
    ensures Live(q, Refuse(q, s, c).dir) == Live(q, s.dir)
  {
  }

  /** When a restore that was accepted and then fails leaves picache.db as it was:
      exactly when it was not renamed or was renamed back, or a merge that is in place
      changed nothing. Otherwise the backup file holds the replaced database. */
  lemma {:induction false} RefusedExactly(q: Sqlite, s: State, c: Answers)
    requires Possible(q, s.dir, c) && Accepts(q, s, c) && !Restored(q, s, c)
    ensures var d := Last(s, ApplyTrail(q, s, c)).dir;
            && (Live(q, d) == Live(q, s.dir)
                <==> || KeepOld in c.fails
                     || (c.partial && SwapIn in c.fails && PutBack !in c.fails)
                     || (!SwapFails(c) && Some(c.merged) == Live(q, s.dir)))
            && (Live(q, d) != Live(q, s.dir) ==> Before in d && Some(d[Before]) == Live(q, s.dir))
  {
    if c.partial {
      RefusedLeaves(q, s, c);
    } else {
      StoppedLeaves(q, s, c);
    }
    assert Live(q, s.dir).Some?;
    hide ApplyTrail, Live, Last, Possible;
  }

  /** A full restore that stops the start. */
  lemma StoppedLeaves(q: Sqlite, s: State, c: Answers)
    requires Possible(q, s.dir, c) && Stops(q, s, c)
    ensures var d := Last(s, ApplyTrail(q, s, c)).dir;
            && Live(q, d) == (if KeepOld in c.fails then Live(q, s.dir) else None)
            && (KeepOld !in c.fails ==> Before in d && Some(d[Before]) == Live(q, s.dir))
  {
    var s1 := On(s, Looked(s.dir, c));
    assert Wal !in s1.dir && Db in s1.dir && s1.dir[Db] != [] && Some(s1.dir[Db]) == Live(q, s.dir);
    var f := Accept(q, On(s1, s1.dir[Staged := c.carried]));
    assert f.dir == s1.dir[Staged := c.carried];
    assert ApplyTrail(q, s, c) == [s1, f] + SwapTrail(f, c);
    hide Looked, Accept, SwapTrail, ApplyTrail, Possible;
    SwapLeaves(q, f, c);
    LastAppend(s, [s1, f], SwapTrail(f, c));
  }

  lemma SwapLeaves(q: Sqlite, s: State, c: Answers)
    requires Db in s.dir && Wal !in s.dir && s.dir[Db] != [] && SwapFails(c)
    ensures var d := Last(s, SwapTrail(s, c)).dir;
            && (KeepOld in c.fails ==> Db in d && Wal !in d && d[Db] == s.dir[Db])
            && (KeepOld !in c.fails ==> Db !in d && Before in d && d[Before] == s.dir[Db])
  {
  }

  /** The next start that applies it again keeps the merged database as the backup:
      the one that the restore replaced is in neither file. */
  lemma AppliedTwice(q: Sqlite, s: State, c: Answers, again: Answers)
    requires Begin(s) && Possible(q, s.dir, c) && Restored(q, s, c) && c.partial && c.merged != []
    requires |ApplyTrail(q, s, c)| == 8
    requires var x := ApplyTrail(q, s, c)[6]; Possible(q, x.dir, again) && Restored(q, x, again)
    ensures var x := ApplyTrail(q, s, c)[6];
            var d := Last(x, ApplyTrail(q, x, again)).dir;
            && Db in d && d[Db] == (if again.partial then again.merged else again.carried)
            && Before in d && d[Before] == c.merged
  {
    PartialDies(q, s, c);
    var x := ApplyTrail(q, s, c)[6];
    hide *;
    RestoredSwaps(q, x, again);
  }

  const PLAIN: Sqlite := Sqlite((file, log) => file)
  const OWN: Bytes := [1]
  const MERGED: Bytes := [2]

  function Merging(db: Bytes): Answers {
    Answers(true, true, Some(db), None, [], MERGED, 0, 0, {}, Built(MERGED, None, true), Built([], None, false))
  }

  const FOUND: State := State(map[Db := OWN, Staged := [3], InstanceId := []], None, true, false)

  lemma DiesAt(q: Sqlite, s: State, c: Answers, steps: nat)
    requires !s.up && 0 < steps <= |ApplyTrail(q, s, c)|
    ensures After(q, s, Start(c, steps)) == ApplyTrail(q, s, c)[steps - 1]
  {
    hide ApplyTrail, BuildTrail, RollbackTrail;
  }

  lemma EightSteps(q: Sqlite, s: State, c: Answers)
    requires Restored(q, s, c) && c.partial
    ensures |ApplyTrail(q, s, c)| == 8 && ApplyTrail(q, s, c)[7] == Last(s, ApplyTrail(q, s, c))
  {
    hide Live, Looked, Without, Moved, Accept;
  }

  lemma FirstStart()
    ensures Possible(PLAIN, FOUND.dir, Merging(OWN)) && Restored(PLAIN, FOUND, Merging(OWN))
    ensures Live(PLAIN, FOUND.dir) == Some(OWN) && Begin(FOUND)
  {
  }

  lemma SecondStart(x: State)
    requires Live(PLAIN, x.dir) == Some(MERGED) && Staged in x.dir
    ensures Possible(PLAIN, x.dir, Merging(MERGED)) && Restored(PLAIN, x, Merging(MERGED))
  {
  }

  /** Two starts, the first one dying before it removes the staged file of a partial
      restore: neither file holds the database that was replaced. */
  lemma TwoStarts(q: Sqlite, s: State, c: Answers, again: Answers)
    requires Begin(s) && Possible(q, s.dir, c) && Restored(q, s, c) && c.partial && c.merged != []
    requires again.partial && var first := After(q, s, Start(c, 7)); Possible(q, first.dir, again) && Restored(q, first, again)
    ensures var second := After(q, After(q, s, Start(c, 7)), Start(again, 8)).dir;
            && Db in second && second[Db] == again.merged
            && Before in second && second[Before] == c.merged
  {
    PartialDies(q, s, c);
    hide *;
    assert !s.up by { NotUp(s); }
    DiesAt(q, s, c, 7);
    var x := ApplyTrail(q, s, c)[6];
    AppliedTwice(q, s, c, again);
    EightSteps(q, x, again);
    DiesAt(q, x, again, 8);
  }

  lemma NotUp(s: State)
    requires Begin(s)
    ensures !s.up
  {
  }

  /** A start goes no further when its restore was refused and its build then finds
      no database of an existing installation. */
  lemma RefusedBuild(q: Sqlite, s: State, c: Answers)
    requires !Restored(q, s, c) && !Stops(q, s, c) && !Opens(q, Last(s, ApplyTrail(q, s, c)).dir)
    ensures StartTrail(q, s, c) == ApplyTrail(q, s, c)
  {
    hide ApplyTrail, RollbackTrail, Opens, Restored, Stops;
  }

  /** When the last rename of a partial restore and the rename back both fail, the restore
      counts as refused too; picache.db is missing and the build is refused, while the
      backup file holds the database. */
  lemma {:induction false} RefusedAndMissing()
    ensures var c := Merging(OWN).(fails := {SwapIn, PutBack});
            var x := Last(FOUND, ApplyTrail(PLAIN, FOUND, c));
            && Possible(PLAIN, FOUND.dir, c) && Accepts(PLAIN, FOUND, c)
            && !Restored(PLAIN, FOUND, c) && !Stops(PLAIN, FOUND, c)
            && Live(PLAIN, x.dir) == None && Before in x.dir && x.dir[Before] == OWN
            && !Opens(PLAIN, x.dir) && StartTrail(PLAIN, FOUND, c) == ApplyTrail(PLAIN, FOUND, c)
  {
    var c := Merging(OWN).(fails := {SwapIn, PutBack});
    FirstStart();
    RefusedLeaves(PLAIN, FOUND, c);
    hide ApplyTrail, StartTrail, Looked;
    RefusedBuild(PLAIN, FOUND, c);
  }

  /** Such starts exist. */
  lemma {:induction false} PartialTwice()
    ensures var first := After(PLAIN, FOUND, Start(Merging(OWN), 7));
            var second := After(PLAIN, first, Start(Merging(MERGED), 8)).dir;
            && Begin(FOUND) && Live(PLAIN, FOUND.dir) == Some(OWN)
            && Possible(PLAIN, FOUND.dir, Merging(OWN)) && Possible(PLAIN, first.dir, Merging(MERGED))
            && Db in second && second[Db] == MERGED && Before in second && second[Before] == MERGED
  {
    FirstStart();
    PartialDies(PLAIN, FOUND, Merging(OWN));
    DiesAt(PLAIN, FOUND, Merging(OWN), 7);
    SecondStart(After(PLAIN, FOUND, Start(Merging(OWN), 7)));
    TwoStarts(PLAIN, FOUND, Merging(OWN), Merging(MERGED));
    hide After, Possible, Begin, Live;
  }

  // ---- the code ---------------------------------------------------------------------------------

  lemma OthersStay(d: Dir, n: Name, m: Name)
    ensures m != n && m in d ==> m in Without(d, n)
    ensures m != n && m in d ==> forall to :: m in Moved(d, n, to)
    ensures n in d ==> forall to :: to in Moved(d, n, to)
  {
  }

  lemma StagedStays(s: State, c: Answers)
    requires Staged in s.dir && MergeFails(c)
    ensures Staged in Last(s, MergedTrail(s, c)).dir
  {
    hide Without, Moved;
    var d1 := Without(s.dir, Before);
    var d2 := Moved(d1, Db, Before);
    var d3 := Without(d2, Wal);
    OthersStay(s.dir, Before, Staged);
    OthersStay(d1, Work, Staged);
    OthersStay(d1, Db, Staged);
    OthersStay(d2, Wal, Staged);
    OthersStay(d3, Shm, Staged);
    OthersStay(Without(d3, Shm), Before, Staged);
    OthersStay(Without(d3, Shm), Work, Staged);
  }

  /** The steps of the swap after the database has been moved away. */
  function InPlaceTrail(s: State, from: Name, ok: bool): seq<State> {
    var s1 := On(s, Without(s.dir, Wal));
    var s2 := On(s1, Without(s1.dir, Shm));
    if ok then [s1, s2, On(s2, Moved(s2.dir, from, Db))] else [s1, s2]
  }

  /** The parts of a start, one after the other. */
  lemma RunGoes(q: Sqlite, s: State, c: Answers)
    ensures var t := ApplyTrail(q, s, c); var applied := Last(s, t);
            var b := BuildTrail(q, applied, c.first); var built := Last(applied, b);
            var r := RollbackTrail(q, built, c); var put := Last(built, r);
            var e := BuildTrail(q, put, c.second);
            && (StartTrail(q, s, c)
                == if Stops(q, s, c) then t
                   else if !BuildFails(q, applied, c.first) || !Restored(q, s, c) then t + b
                   else if !RolledBack(built, c) then t + b + r else t + b + r + e)
            && [] + t == t && Last(s, t + b) == built && Last(s, t + b + r) == put && Last(s, t + b + r + e) == Last(put, e)
  {
    hide ApplyTrail, BuildTrail, RollbackTrail, BuildFails, RolledBack, Restored, Stops, Last;
    var t := ApplyTrail(q, s, c);
    var b := BuildTrail(q, Last(s, t), c.first);
    var r := RollbackTrail(q, Last(Last(s, t), b), c);
    Lasts(s, t, b, r, BuildTrail(q, Last(Last(Last(s, t), b), r), c.second));
  }

  lemma Lasts(s: State, t: seq<State>, b: seq<State>, r: seq<State>, e: seq<State>)
    ensures [] + t == t && Last(s, t + b) == Last(Last(s, t), b) && Last(s, t + b + r) == Last(Last(Last(s, t), b), r)
    ensures Last(s, t + b + r + e) == Last(Last(Last(Last(s, t), b), r), e)
  {
    LastAppend(s, t, b);
    LastAppend(s, t + b, r);
    LastAppend(s, t + b + r, e);
    hide Last;
  }

  class App {
    const q: Sqlite
    var dir: Dir
    /** The record of this start: the state now, and every state since it began. */
    ghost var now: State
    ghost var trail: seq<State>

    constructor (q: Sqlite, s: State)
      requires !s.up
      ensures this.q == q && now == s && dir == s.dir && trail == []
    {
      this.q := q;
      dir, now, trail := s.dir, s, [];
    }

    /** The start went through these states since it was at s. */
    twostate predicate Went(s: State, t: seq<State>)
      reads this
    {
      trail == old(trail) + t && now == Last(s, t) && dir == now.dir
    }

    method Remove(n: Name)
      requires now.dir == dir
      modifies this
      ensures Went(old(now), [On(old(now), Without(old(dir), n))])
      ensures now.up == old(now).up
    {
      dir := Without(dir, n);
      now := On(now, dir);
      trail := trail + [now];
    }

    method Rename(a: Name, b: Name, fails: bool) returns (ok: bool)
      requires now.dir == dir
      modifies this
      ensures ok <==> !fails && a in old(dir)
      ensures if ok then Went(old(now), [On(old(now), Moved(old(dir), a, b))])
              else now == old(now) && dir == old(dir) && trail == old(trail)
      ensures now.up == old(now).up
    {
      ok := !fails && a in dir;
      if ok {
        dir := Moved(dir, a, b);
        now := On(now, dir);
        trail := trail + [now];
      }
    }

    method SetAsideStaged(c: Answers)
      requires now.dir == dir && Staged in dir
      modifies this
      ensures Went(old(now), [Refuse(q, old(now), c)])
      ensures now.up == old(now).up
    {
      dir := if SetAside in c.fails then Without(dir, Staged) else Moved(dir, Staged, Failed(c.stamp));
      now := Refuse(q, now, c);
      trail := trail + [now];
    }

    /** Removes the log and renames the new database into place. */
    method PutInPlace(from: Name, fails: bool) returns (ok: bool)
      requires now.dir == dir && from in dir && from != Wal && from != Shm
      modifies this
      ensures Went(old(now), InPlaceTrail(old(now), from, ok)) && (ok <==> !fails)
      ensures now.up == old(now).up
    {
      hide Without, Moved;
      OthersStay(dir, Wal, from);
      Remove(Wal);
      OthersStay(dir, Shm, from);
      Remove(Shm);
      ok := Rename(from, Db, fails);
    }

    method SwapFull(c: Answers) returns (ok: bool)
      requires now.dir == dir && Staged in dir && Db in dir
      modifies this
      ensures Went(old(now), SwapTrail(old(now), c)) && (ok <==> !SwapFails(c))
      ensures now.up == old(now).up
    {
      hide Without, Moved;
      OthersStay(dir, Before, Db);
      OthersStay(dir, Before, Staged);
      Remove(Before);
      OthersStay(dir, Db, Staged);
      if Db in dir {
        ok := Rename(Db, Before, KeepOld in c.fails);
        if !ok {
          return false;
        }
      }
      ok := PutInPlace(Staged, SwapIn in c.fails);
    }

    method MergedInPlace(c: Answers) returns (ok: bool)
      requires now.dir == dir && Work in dir && Before in dir
      modifies this
      ensures Went(old(now), MergedInPlaceTrail(old(now), c)) && (ok <==> SwapIn !in c.fails && Unlink !in c.fails)
      ensures now.up == old(now).up
    {
      hide Without, Moved;
      OthersStay(dir, Wal, Before);
      OthersStay(Without(dir, Wal), Shm, Before);
      ok := PutInPlace(Work, SwapIn in c.fails);
      if !ok {
        var back := Rename(Before, Db, PutBack in c.fails);
        return false;
      }
      if Unlink in c.fails {
        return false;
      }
      Remove(Staged);
    }

    /** The swap of a partial restore; a failure leads to the refusal. */
    method SwapMerged(c: Answers) returns (ok: bool)
      requires now.dir == dir && Work in dir && Db in dir
      modifies this
      ensures Went(old(now), MergedTrail(old(now), c)) && (ok <==> !MergeFails(c))
      ensures now.up == old(now).up
    {
      hide Without, Moved, MergedInPlaceTrail;
      OthersStay(dir, Before, Db);
      OthersStay(dir, Before, Work);
      Remove(Before);
      OthersStay(dir, Db, Work);
      ok := Rename(Db, Before, KeepOld in c.fails);
      if !ok {
        Remove(Work);
        return false;
      }
      ok := MergedInPlace(c);
    }

    method ReadAndCheck(c: Answers) returns (accepted: bool)
      requires now.dir == dir && Staged in dir && Possible(q, dir, c)
      modifies this
      ensures Went(old(now), [On(old(now), Looked(old(dir), c))])
      ensures accepted <==> Accepts(q, old(now), c)
      ensures Staged in dir && (accepted ==> Db in dir)
      ensures now.up == old(now).up
    {
      accepted := Live(q, dir).Some? && c.accepts;
      dir := Looked(dir, c);
      now := On(now, dir);
      trail := trail + [now];
    }

    /** The new database is complete: the staged file with the accounts carried
        over, or the merged copy. */
    method Prepared(n: Name, content: Bytes)
      requires now.dir == dir
      modifies this
      ensures Went(old(now), [Accept(q, On(old(now), old(dir)[n := content]))]) && dir == old(dir)[n := content]
      ensures now.up == old(now).up
    {
      dir := dir[n := content];
      now := Accept(q, On(now, dir));
      trail := trail + [now];
    }

    method ApplyPartial(c: Answers) returns (restored: bool)
      requires now.dir == dir && Staged in dir && Db in dir
      modifies this
      ensures Went(old(now), PartialTrail(q, old(now), c)) && (restored <==> !MergeFails(c))
      ensures now.up == old(now).up
    {
      hide MergedTrail, Refuse, Accept;
      Prepared(Work, c.merged);
      ghost var ready := now;
      restored := SwapMerged(c);
      if !restored {
        StagedStays(ready, c);
        SetAsideStaged(c);
      }
    }

    method ApplyFull(c: Answers) returns (restored: bool)
      requires now.dir == dir && Staged in dir && Db in dir
      modifies this
      ensures Went(old(now), FullTrail(q, old(now), c)) && (restored <==> !SwapFails(c))
      ensures now.up == old(now).up
    {
      hide SwapTrail, Accept;
      Prepared(Staged, c.carried);
      restored := SwapFull(c);
    }

    method ApplyStagedRestore(c: Answers) returns (restored: bool, err: bool)
      requires now.dir == dir && Possible(q, dir, c)
      modifies this
      ensures Went(old(now), ApplyTrail(q, old(now), c))
      ensures (restored <==> Restored(q, old(now), c)) && (err <==> Stops(q, old(now), c))
      ensures now.up == old(now).up
    {
      hide FullTrail, PartialTrail, Refuse, Looked, Possible, Live;
      if Staged !in dir {
        return false, false;
      }
      var accepted := ReadAndCheck(c);
      if !accepted {
        SetAsideStaged(c);
        return false, false;
      }
      if c.partial {
        restored := ApplyPartial(c);
        return restored, false;
      }
      restored := ApplyFull(c);
      err := !restored;
    }

    /** Opens the database; an existing installation without one is refused. */
    method Build(b: Built) returns (ok: bool)
      requires now.dir == dir
      modifies this
      ensures Went(old(now), BuildTrail(q, old(now), b)) && (ok <==> !BuildFails(q, old(now), b))
      ensures if Live(q, old(dir)).None? && InstanceId in old(dir) then !ok && now == old(now)
              else ok == b.ok && Leaves(old(now), now, b)
    {
      if Live(q, dir).None? && InstanceId in dir {
        return false;
      }
      dir := Set(dir[Db := b.db][InstanceId := []], Wal, b.wal);
      now := now.(dir := dir, up := b.ok);
      trail := trail + [now];
      ok := b.ok;
    }

    method PutBackup(fails: bool) returns (ok: bool)
      requires now.dir == dir && Before in dir
      modifies this
      ensures ok <==> !fails
      ensures if ok then Went(old(now), [Release(q, On(old(now), Moved(old(dir), Before, Db)))])
              else now == old(now) && dir == old(dir) && trail == old(trail)
      ensures now.up == old(now).up
    {
      ok := !fails;
      if ok {
        dir := Moved(dir, Before, Db);
        now := Release(q, On(now, dir));
        trail := trail + [now];
      }
    }

    method RemoveLogAndPutBack(fails: bool) returns (ok: bool)
      requires now.dir == dir && Before in dir
      modifies this
      ensures Went(old(now), PutBackTrail(q, old(now), fails)) && (ok <==> !fails)
      ensures now.up == old(now).up
    {
      hide Without, Moved, Release;
      OthersStay(dir, Wal, Before);
      Remove(Wal);
      OthersStay(dir, Shm, Before);
      Remove(Shm);
      ok := PutBackup(fails);
    }

    method RollbackRestore(c: Answers) returns (ok: bool)
      requires now.dir == dir
      modifies this
      ensures Went(old(now), RollbackTrail(q, old(now), c)) && (ok <==> RolledBack(old(now), c))
      ensures now.up == old(now).up
    {
      hide Without, Moved, PutBackTrail;
      if Before !in dir {
        return false;
      }
      OthersStay(dir, Db, Before);
      var aside := Rename(Db, Failed(c.stampOfRollback), RollAside in c.fails);
      ok := RemoveLogAndPutBack(RollBack in c.fails);
    }

    /** A start, up to serving (ok) or exiting. */
    method Run(c: Answers) returns (ok: bool)
      requires now.dir == dir && !now.up && Possible(q, dir, c) && trail == []
      modifies this
      ensures trail == StartTrail(q, old(now), c) && now == Last(old(now), trail) && dir == now.dir
      ensures ok <==> now.up
    {
      hide ApplyTrail, BuildTrail, RollbackTrail, StartTrail, Possible, BuildFails, RolledBack, Restored, Stops, Last, Live, Leaves;
      RunGoes(q, now, c);
      var restored, err := ApplyStagedRestore(c);
      if err {
        return false;
      }
      ok := Build(c.first);
      if !ok && restored {
        var back := RollbackRestore(c);
        if back {
          ok := Build(c.second);
        }
      }
    }
  }
}