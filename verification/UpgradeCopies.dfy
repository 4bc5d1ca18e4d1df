/**
 The copies of picache.db made before an upgrade: when one is made, which version
 it is named after, and which copies are kept, over any sequence of starts of
 different versions that refuse, die at any step or complete.
*/
module UpgradeCopies {
  import opened Wrappers

  /** The schema version of every component of a database. */
  type Schema = map<string, nat>

  /** What a start writes once every migration succeeded. */
  datatype Record = Record(version: string, schema: Schema)

  /** picache.db: its schema, whether it has one, the version that recorded itself
      ("" when none did), the record of the schema, and everything else. */
  datatype Database = Database(had: bool, schema: Schema, binary: string, record: Option<Record>, data: nat)

  /** The name of a pre-upgrade copy, or another name that the pattern of the
      pre-upgrade copies matches too. */
  datatype FileName = Copy(owner: string, time: nat) | Other(text: string)

  datatype File = File(db: Database, mod: int, readable: bool)

  type Files = map<FileName, File>

  const DEV := "dev"
  const KEEP := 3

  const SCHEMA_V017: Schema := map["app" := 1, "auth" := 3, "clients" := 4, "dhcp" := 2, "dns" := 4, "filter" := 3,
    "notify" := 1, "parental" := 2, "proxy" := 1, "services" := 1, "settings" := 7, "storage" := 1]

  /** The versions there are: the number of a release (major and minor), the schema
      that a version migrates to, and the versions from 1.0.0 on, whose code this
      is. */
  datatype Versions = Versions(number: string -> Option<(nat, nat)>, steps: string -> Schema, modern: string -> bool)

  ghost predicate ValidVersions(w: Versions) {
    && (forall v :: w.number(v) == Some((0, 17)) ==> w.steps(v) == SCHEMA_V017)
    && (forall v :: "app" in w.steps(v))
    && !w.modern("")
  }

  /** A version opens a schema unless a component that it knows is newer. */
  predicate Opens(w: Versions, v: string, schema: Schema) {
    forall c :: c in schema && c in w.steps(v) ==> schema[c] <= w.steps(v)[c]
  }

  // ---- the name of a copy -----------------------------------------------------------------

  predicate SafeByte(c: char) {
    'a' <= c <= 'z' || 'A' <= c <= 'Z' || '0' <= c <= '9' || c == '.' || c == '-' || c == '_'
  }

  /** The bytes of a file name: ASCII letters and digits, '.', '-' and '_'. */
  lemma SafeBytes(c: char)
    ensures SafeByte(c) <==> c in "ABCDEFGHIJKLMNOPQRSTUVWXYZ" || c in "abcdefghijklmnopqrstuvwxyz" || c in "0123456789" || c in ".-_"
  {
    InRow("ABCDEFGHIJKLMNOPQRSTUVWXYZ", 'A', c);
    InRow("abcdefghijklmnopqrstuvwxyz", 'a', c);
    InRow("0123456789", '0', c);
    assert ".-_"[0] == '.' && ".-_"[1] == '-' && ".-_"[2] == '_';
  }

  /** A character is in a row of consecutive ones exactly when it is between its ends. */
  lemma InRow(row: string, first: char, c: char)
    requires |row| <= 26 && first as int < 100
    requires forall i :: 0 <= i < |row| ==> row[i] as int == first as int + i
    ensures c in row <==> first as int <= c as int < first as int + |row|
  {
    if first as int <= c as int < first as int + |row| {
      assert row[c as int - first as int] == c;
    }
  }

  function Sanitize(s: string): (r: string)
    ensures |r| == |s|
  {
    seq(|s|, i requires 0 <= i < |s| => if SafeByte(s[i]) then s[i] else '_')
  }

  /** The names of releases are used as they are. */
  lemma SanitizeKeeps(s: string)
    ensures Sanitize(s) == s <==> forall i :: 0 <= i < |s| ==> SafeByte(s[i])
  {
  }

  predicate OpenedBySchema(schema: Schema) {
    forall c :: c in schema && c in SCHEMA_V017 ==> schema[c] <= SCHEMA_V017[c]
  }

  predicate OpenedBy(w: Versions, v: string, schema: Schema) {
    w.number(v) == Some((0, 17)) && OpenedBySchema(schema)
  }

  /** Another version recorded the schema that the database has now. */
  predicate RecordIsCurrent(d: Database) {
    d.record.Some? && d.record.value.version != "" && d.record.value.schema == d.schema
  }

  /** The version that a copy of the database is named after. */
  function Owner(w: Versions, d: Database): string {
    if !RecordIsCurrent(d) || d.record.value.version == d.binary || OpenedBy(w, d.binary, d.schema) then d.binary
    else d.record.value.version
  }

  // ---- the copies of the directory ---------------------------------------------------------

  /** The schema of a copy; None when it cannot be read or is empty. */
  function CopySchema(f: File): Option<Schema> {
    if f.readable && f.db.schema != map[] then Some(f.db.schema) else None
  }

  predicate HasCopy(files: Files, schema: Schema) {
    exists n :: n in files && CopySchema(files[n]) == Some(schema)
  }

  predicate NamedCopy(files: Files, v: string, schema: Schema, n: FileName) {
    n in files && n.Copy? && n.owner == Sanitize(v) && CopySchema(files[n]) == Some(schema)
  }

  /** The names of the copies, the newest first; those of one time in any order. */
  ghost predicate NewestFirst(files: Files, order: seq<FileName>) {
    && (forall i :: 0 <= i < |order| ==> order[i] in files)
    && (forall n :: n in files ==> n in order)
    && (forall i, j :: 0 <= i < j < |order| ==> order[i] != order[j])
    && (forall i, j :: 0 <= i < j < |order| && order[i] in files && order[j] in files ==> files[order[i]].mod >= files[order[j]].mod)
  }

  function SchemaAt(files: Files, order: seq<FileName>, i: nat): Option<Schema>
    requires i < |order|
  {
    if order[i] in files then CopySchema(files[order[i]]) else None
  }

  /** A copy is kept when it is one of the newest, or the newest of its schema. */
  predicate Stays(files: Files, order: seq<FileName>, keep: nat, i: nat)
    requires i < |order|
  {
    || i < keep
    || (SchemaAt(files, order, i).Some? && forall j :: 0 <= j < i ==> SchemaAt(files, order, j) != SchemaAt(files, order, i))
  }

  /** The files left when the first n copies of the order have been looked at. */
  function Pruned(files: Files, order: seq<FileName>, keep: nat, n: nat): Files
    requires n <= |order|
  {
    map f | f in files && (forall i :: 0 <= i < n && order[i] == f ==> Stays(files, order, keep, i)) :: files[f]
  }

  /** A copy of the same schema that is at least as new, if the copy itself is gone. */
  lemma {:induction false} NewestStays(files: Files, order: seq<FileName>, keep: nat, n: nat, f: FileName)
    requires NewestFirst(files, order) && n <= |order| && f in files && CopySchema(files[f]).Some?
    ensures exists g :: g in Pruned(files, order, keep, n) && CopySchema(files[g]) == CopySchema(files[f])
                        && files[g].mod >= files[f].mod
  {
    var i :| 0 <= i < |order| && order[i] == f;
    var k := FirstOf(files, order, CopySchema(files[f]), i);
    var g := order[k];
    assert Stays(files, order, keep, k);
    assert g in Pruned(files, order, keep, n);
  }

  /** The copies before place i of the order. */
  ghost function Firsts(order: seq<FileName>, i: nat): set<FileName>
    requires i <= |order|
  {
    set j | 0 <= j < i :: order[j]
  }

  lemma {:induction false} FirstsCount(order: seq<FileName>, i: nat)
    requires i <= |order| && forall j, k :: 0 <= j < k < |order| ==> order[j] != order[k]
    ensures |Firsts(order, i)| == i
  {
    if i > 0 {
      FirstsCount(order, i - 1);
      assert Firsts(order, i) == Firsts(order, i - 1) + {order[i - 1]};
    }
  }

  /** The copies that are newer than f. */
  ghost function Newer(files: Files, f: FileName): set<FileName>
    requires f in files
  {
    set g | g in files && files[g].mod > files[f].mod
  }

  lemma NewerAreFirst(files: Files, order: seq<FileName>, i: nat)
    requires NewestFirst(files, order) && i < |order|
    requires forall f, g :: f in files && g in files && files[f].mod == files[g].mod ==> f == g
    ensures Newer(files, order[i]) == Firsts(order, i)
  {
    forall g ensures g in Newer(files, order[i]) <==> g in Firsts(order, i) {
      if g in files {
        var k :| 0 <= k < |order| && order[k] == g;
        assert k > i ==> files[order[i]].mod >= files[g].mod;
        assert k < i ==> files[g].mod >= files[order[i]].mod;
      }
    }
  }

  /** What pruning keeps, in times: a copy stays exactly when fewer than `keep` copies
      are newer, or its schema can be read and no newer copy has the same one. */
  lemma {:induction false} PrunedMeans(files: Files, order: seq<FileName>, keep: nat, f: FileName)
    requires NewestFirst(files, order) && f in files
    requires forall g, h :: g in files && h in files && files[g].mod == files[h].mod ==> g == h
    ensures f in Pruned(files, order, keep, |order|)
            <==> || |Newer(files, f)| < keep
                 || (CopySchema(files[f]).Some? && forall g <- Newer(files, f) :: CopySchema(files[g]) != CopySchema(files[f]))
  {
    var i :| 0 <= i < |order| && order[i] == f;
    NewerAreFirst(files, order, i);
    FirstsCount(order, i);
    assert f in Pruned(files, order, keep, |order|) <==> Stays(files, order, keep, i);
    hide NewestFirst, Pruned, Newer;
    assert forall j :: 0 <= j < i ==> order[j] in Firsts(order, i);
    InOrder(files, order);
    hide CopySchema;
  }

  lemma InOrder(files: Files, order: seq<FileName>)
    requires NewestFirst(files, order)
    ensures forall i :: 0 <= i < |order| ==> SchemaAt(files, order, i) == CopySchema(files[order[i]])
  {
  }

  lemma {:induction false} FirstOf(files: Files, order: seq<FileName>, schema: Option<Schema>, i: nat) returns (k: nat)
    requires i < |order| && SchemaAt(files, order, i) == schema
    ensures k <= i && SchemaAt(files, order, k) == schema
    ensures forall j :: 0 <= j < k ==> SchemaAt(files, order, j) != schema
    decreases i
  {
    k := i;
    if j :| 0 <= j < i && SchemaAt(files, order, j) == schema {
      k := FirstOf(files, order, schema, j);
    }
  }

  // ---- the steps of a start ------------------------------------------------------------------

  datatype State = State(db: Database, files: Files)

  /** How the outside answers in one start of a version: the second of the copy and
      its modification time, whether it could be written, the order of the copies
      when they are pruned, the schema after the app migration, the database after
      each later migration, and whether the record of the schema is written. */
  datatype Answers = Answers(version: string, time: nat, mod: int, written: bool, order: seq<FileName>,
                             app: Schema, later: seq<Database>, records: bool)

  predicate Refuses(w: Versions, d: Database, v: string) {
    d.had && !Opens(w, v, d.schema)
  }

  /** The database was recorded by another version. */
  predicate Upgrades(d: Database, v: string) {
    d.had && d.binary != "" && d.binary != v && v != DEV
  }

  predicate CopyExists(w: Versions, s: State, v: string) {
    Owner(w, s.db) == v && s.db.schema != map[] && exists n <- s.files :: NamedCopy(s.files, v, s.db.schema, n)
  }

  predicate MakesCopy(w: Versions, s: State, v: string) {
    Upgrades(s.db, v) && !CopyExists(w, s, v)
  }

  function CopyName(w: Versions, s: State, a: Answers): FileName {
    Copy(Sanitize(Owner(w, s.db)), a.time)
  }

  /** The copy fails when it cannot be written or its name is taken. */
  predicate CopyFails(w: Versions, s: State, a: Answers) {
    MakesCopy(w, s, a.version) && (!a.written || CopyName(w, s, a) in s.files)
  }

  function WithCopy(w: Versions, s: State, a: Answers): Files {
    s.files[CopyName(w, s, a) := File(s.db, a.mod, true)]
  }

  function PruneTrail(db: Database, files: Files, order: seq<FileName>): seq<State> {
    seq(|order|, i requires 0 <= i < |order| => State(db, Pruned(files, order, KEEP, i + 1)))
  }

  function CopyTrail(w: Versions, s: State, a: Answers): seq<State> {
    if !MakesCopy(w, s, a.version) then []
    else [State(s.db, WithCopy(w, s, a))] + PruneTrail(s.db, WithCopy(w, s, a), a.order)
  }

  function Last(s: State, t: seq<State>): State {
    if t == [] then s else t[|t| - 1]
  }

  function Migrated(d: Database, a: Answers): Database {
    d.(had := true, schema := a.app)
  }

  function Recorded(d: Database, a: Answers): Database {
    Migrated(d, a).(binary := a.version)
  }

  function LaterTrail(files: Files, a: Answers): seq<State> {
    seq(|a.later|, i requires 0 <= i < |a.later| => State(a.later[i], files))
  }

  function WithRecord(s: State, v: string): State {
    s.(db := s.db.(record := Some(Record(v, s.db.schema))))
  }

  /** The later migrations, and the record of the schema. */
  function MigrateTrail(s: State, a: Answers): seq<State> {
    var later := LaterTrail(s.files, a);
    later + (if a.records then [WithRecord(Last(s, later), a.version)] else [])
  }

  /** From the record of the version on. */
  function RestTrail(s: State, a: Answers, files: Files): seq<State> {
    var recorded := State(Recorded(s.db, a), files);
    [recorded] + MigrateTrail(recorded, a)
  }

  /** The states of a start, each one a place where it may die. */
  function StartTrail(w: Versions, s: State, a: Answers): seq<State> {
    if Refuses(w, s.db, a.version) || CopyFails(w, s, a) then []
    else
      var t := CopyTrail(w, s, a);
      var files := Last(s, t).files;
      t + [State(Migrated(s.db, a), files)] + RestTrail(s, a, files)
  }

  /** Migrations of a version: its components step up, to its own steps at most. */
  predicate Advances(w: Versions, v: string, x: Schema, y: Schema) {
    && (forall c :: c in x ==> c in y && x[c] <= y[c])
    && (forall c :: c in y ==> (c in x && y[c] == x[c]) || (c in w.steps(v) && y[c] <= w.steps(v)[c]))
  }

  /** A later migration changes no record. */
  predicate Steps(w: Versions, v: string, d: Database, e: Database) {
    e.had && e.binary == d.binary && e.record == d.record && Advances(w, v, d.schema, e.schema)
  }

  function Before(s: State, a: Answers, i: nat): Database
    requires i < |a.later|
  {
    if i == 0 then Recorded(s.db, a) else a.later[i - 1]
  }

  ghost predicate Possible(w: Versions, s: State, a: Answers) {
    && w.modern(a.version)
    && (MakesCopy(w, s, a.version) ==> NewestFirst(WithCopy(w, s, a), a.order))
    && Advances(w, a.version, s.db.schema, a.app)
    && (forall c :: c in a.app && c != "app" ==> c in s.db.schema && a.app[c] == s.db.schema[c])
    && "app" in a.app && "app" in w.steps(a.version) && a.app["app"] >= w.steps(a.version)["app"]
    && (forall i :: 0 <= i < |a.later| ==> Steps(w, a.version, Before(s, a, i), a.later[i]))
  }

  // ---- runs -----------------------------------------------------------------------------------

  /** A start that dies after some of its steps or gets to its end; a start of a
      version before 1.0.0, which records itself and, when it opens the database,
      may migrate it; a write of the running service; and a copy put back in place of
      the database. */
  datatype Event =
    | Start(a: Answers, steps: nat)
    | OldStart(version: string, db: Database)
    | Write(data: nat)
    | PutBack(name: FileName)

  function After(w: Versions, s: State, e: Event): State {
    match e
    case Start(a, steps) =>
      var t := StartTrail(w, s, a);
      if steps == 0 then s else if steps > |t| then Last(s, t) else t[steps - 1]
    case OldStart(_, db) => s.(db := db)
    case Write(data) => s.(db := s.db.(data := data))
    case PutBack(name) => if name in s.files then s.(db := s.files[name].db) else s
  }

  function Run(w: Versions, s: State, es: seq<Event>): State {
    if es == [] then s else After(w, Run(w, s, es[..|es| - 1]), es[|es| - 1])
  }

  ghost predicate PossibleEvent(w: Versions, s: State, e: Event) {
    match e
    case Start(a, _) => Possible(w, s, a)
    case OldStart(v, db) =>
      && !w.modern(v) && v != "" && "app" in s.db.schema
      && db.binary == v && db.record == s.db.record && db.had == s.db.had
      && (db.schema == s.db.schema || (Opens(w, v, s.db.schema) && Advances(w, v, s.db.schema, db.schema)))
    case Write(_) => true
    case PutBack(_) => true
  }

  ghost predicate PossibleRun(w: Versions, s: State, es: seq<Event>) {
    es == [] || (PossibleRun(w, s, es[..|es| - 1]) && PossibleEvent(w, Run(w, s, es[..|es| - 1]), es[|es| - 1]))
  }

  /** A version from 1.0.0 on is recorded that does not open the schema. */
  predicate Half(w: Versions, d: Database) {
    d.binary != "" && w.modern(d.binary) && !Opens(w, d.binary, d.schema)
  }

  predicate Inv(w: Versions, d: Database) {
    && (d.binary != "" ==> d.schema != map[] && "app" in d.schema)
    && (d.schema != map[] ==> d.had)
    && (d.record.Some? && d.record.value.version != "" ==> Opens(w, d.record.value.version, d.record.value.schema))
  }

  predicate InvAll(w: Versions, s: State) {
    Inv(w, s.db) && forall n <- s.files :: Inv(w, s.files[n].db)
  }

  // ---- every change of the schema has its copy ---------------------------------------------------

  lemma PruneKeepsCopies(files: Files, order: seq<FileName>, keep: nat, n: nat, schema: Schema)
    requires NewestFirst(files, order) && n <= |order| && HasCopy(files, schema)
    ensures HasCopy(Pruned(files, order, keep, n), schema)
  {
    var f :| f in files && CopySchema(files[f]) == Some(schema);
    NewestStays(files, order, keep, n, f);
  }

  /** Copies of this schema are in the directory at every step. */
  predicate Throughout(t: seq<State>, schema: Schema) {
    forall x <- t :: HasCopy(x.files, schema)
  }

  lemma CopyTrailKeeps(w: Versions, s: State, a: Answers, schema: Schema)
    requires Possible(w, s, a) && !CopyFails(w, s, a) && HasCopy(s.files, schema)
    ensures Throughout(CopyTrail(w, s, a), schema) && HasCopy(Last(s, CopyTrail(w, s, a)).files, schema)
  {
    if MakesCopy(w, s, a.version) {
      var files := WithCopy(w, s, a);
      var n :| n in s.files && CopySchema(s.files[n]) == Some(schema);
      assert n in files && CopySchema(files[n]) == Some(schema);
      PrunedTrailKeeps(s.db, files, a.order, schema);
      hide Possible, MakesCopy, CopyFails, HasCopy, WithCopy, PruneTrail;
    }
  }

  lemma PrunedTrailKeeps(db: Database, files: Files, order: seq<FileName>, schema: Schema)
    requires NewestFirst(files, order) && HasCopy(files, schema)
    ensures Throughout(PruneTrail(db, files, order), schema)
  {
    forall i | 0 <= i < |order| ensures HasCopy(PruneTrail(db, files, order)[i].files, schema) {
      PruneKeepsCopies(files, order, KEEP, i + 1, schema);
    }
  }

  lemma RestFiles(s: State, a: Answers, files: Files)
    ensures forall x <- RestTrail(s, a, files) :: x.files == files
  {
    assert forall x <- LaterTrail(files, a) :: x.files == files;
  }

  /** Once a copy of a schema exists, one exists at every step of every start. */
  lemma StartKeepsCopies(w: Versions, s: State, a: Answers, schema: Schema)
    requires Possible(w, s, a) && HasCopy(s.files, schema)
    ensures Throughout(StartTrail(w, s, a), schema)
  {
    if !(Refuses(w, s.db, a.version) || CopyFails(w, s, a)) {
      CopyTrailKeeps(w, s, a, schema);
      hide Possible, CopyTrail, CopyFails, HasCopy, RestTrail;
      RestFiles(s, a, Last(s, CopyTrail(w, s, a)).files);
    }
  }

  /** Some copy that can be read has this schema. */
  predicate CopyHolds(files: Files, schema: Schema) {
    exists n <- files :: files[n].readable && files[n].db.schema == schema
  }

  lemma HasCopyHolds(files: Files, schema: Schema)
    requires HasCopy(files, schema)
    ensures CopyHolds(files, schema)
  {
  }

  lemma {:induction false} FreshCopy(w: Versions, s: State, a: Answers)
    requires Possible(w, s, a) && !CopyFails(w, s, a) && MakesCopy(w, s, a.version) && s.db.schema != map[]
    ensures HasCopy(WithCopy(w, s, a), s.db.schema)
    ensures WithCopy(w, s, a)[CopyName(w, s, a)].db == s.db
    ensures Throughout(CopyTrail(w, s, a), s.db.schema) && HasCopy(Last(s, CopyTrail(w, s, a)).files, s.db.schema)
  {
    var files := WithCopy(w, s, a);
    assert CopySchema(files[CopyName(w, s, a)]) == Some(s.db.schema);
    assert HasCopy(files, s.db.schema);
    PrunedTrailKeeps(s.db, files, a.order, s.db.schema);
    hide Possible, CopyFails, MakesCopy, HasCopy, WithCopy, PruneTrail;
  }

  /** Once the copy is dealt with, one of the schema is there. */
  lemma CopiedBefore(w: Versions, s: State, a: Answers)
    requires Possible(w, s, a) && !CopyFails(w, s, a) && s.db.schema != map[]
    requires s.db.had && s.db.binary != "" && s.db.binary != a.version && a.version != DEV
    ensures HasCopy(Last(s, CopyTrail(w, s, a)).files, s.db.schema)
  {
    if MakesCopy(w, s, a.version) {
      FreshCopy(w, s, a);
    } else {
      var n :| n in s.files && NamedCopy(s.files, a.version, s.db.schema, n);
    }
  }

  /** A start of a release on a database that another version recorded changes the schema
      only when a copy that can be read has the schema before, wherever it dies. */
  lemma {:induction false} CopyBeforeChange(w: Versions, s: State, a: Answers)
    requires Possible(w, s, a) && Inv(w, s.db)
    requires s.db.had && s.db.binary != "" && s.db.binary != a.version && a.version != DEV
    ensures forall x <- StartTrail(w, s, a) :: x.db.schema != s.db.schema ==> CopyHolds(x.files, s.db.schema)
    ensures forall x <- StartTrail(w, s, a) :: x.db.schema != s.db.schema ==> HasCopy(x.files, s.db.schema)
  {
    if !(Refuses(w, s.db, a.version) || CopyFails(w, s, a)) {
      CopiedBefore(w, s, a);
      RestFiles(s, a, Last(s, CopyTrail(w, s, a)).files);
      CopyLeavesDatabase(w, s, a);
      hide Possible, CopyTrail, CopyFails, HasCopy, RestTrail, Inv, CopyHolds;
    }
    hide StartTrail, HasCopy, CopyHolds, Possible;
    forall x | x in StartTrail(w, s, a) && HasCopy(x.files, s.db.schema) ensures CopyHolds(x.files, s.db.schema) {
      HasCopyHolds(x.files, s.db.schema);
    }
  }

  /** A readable copy of the database's schema that is named after the version. */
  predicate HasNamed(files: Files, v: string, schema: Schema) {
    schema != map[] && exists n <- files :: n.Copy? && n.owner == Sanitize(v) && files[n].readable && files[n].db.schema == schema
  }

  /** When a start makes a copy: a release, on a database with a schema that another
      version recorded, unless it owns the schema itself and a copy named after it is
      there. The copy then comes first, under the owner's name, with all that the database
      holds; otherwise the files stay as they are at every step. */
  lemma {:induction false} CopiesExactly(w: Versions, s: State, a: Answers)
    requires !Refuses(w, s.db, a.version) && a.written && forall n <- s.files :: n.Copy? ==> n.time != a.time
    ensures var t := StartTrail(w, s, a);
            if && s.db.had && s.db.binary != "" && s.db.binary != a.version && a.version != "dev"
               && !(Owner(w, s.db) == a.version && HasNamed(s.files, a.version, s.db.schema))
            then t != [] && t[0].db == s.db && t[0].files == s.files[Copy(Sanitize(Owner(w, s.db)), a.time) := File(s.db, a.mod, true)]
            else forall x <- t :: x.files == s.files
  {
    NamedMeans(s.files, a.version, s.db.schema);
    RestFiles(s, a, Last(s, CopyTrail(w, s, a)).files);
    hide Owner, Sanitize, RestTrail, Refuses, HasNamed, NamedCopy, PruneTrail;
  }

  lemma NamedMeans(files: Files, v: string, schema: Schema)
    ensures HasNamed(files, v, schema) <==> schema != map[] && exists n <- files :: NamedCopy(files, v, schema, n)
  {
    hide Sanitize;
    if n :| n in files && n.Copy? && n.owner == Sanitize(v) && files[n].readable && files[n].db.schema == schema {
      assert schema != map[] ==> NamedCopy(files, v, schema, n);
    }
  }

  /** The schema that the migrations of a start lead to. */
  function SchemaAfter(a: Answers): Schema {
    if a.later == [] then a.app else a.later[|a.later| - 1].schema
  }

  /** How a start ends when its copy can be written: on a newer schema nothing changes;
      otherwise the database has the schema of the migrations and its version recorded,
      and the record of that schema once they all succeeded. */
  lemma {:induction false} StartEnds(w: Versions, s: State, a: Answers)
    requires Possible(w, s, a) && a.written && forall n <- s.files :: n.Copy? ==> n.time != a.time
    ensures var t := StartTrail(w, s, a);
            if s.db.had && exists c <- s.db.schema :: c in w.steps(a.version) && s.db.schema[c] > w.steps(a.version)[c] then t == []
            else
              && t != [] && var d := t[|t| - 1].db;
                 && d.had && d.binary == a.version && d.schema == SchemaAfter(a)
                 && d.record == if a.records then Some(Record(a.version, d.schema)) else s.db.record
  {
    assert Refuses(w, s.db, a.version)
      <==> s.db.had && exists c <- s.db.schema :: c in w.steps(a.version) && s.db.schema[c] > w.steps(a.version)[c];
    assert !CopyFails(w, s, a) by { hide MakesCopy; }
    hide CopyTrail, CopyFails, Refuses, Steps, Advances, NewestFirst, MakesCopy;
    if !Refuses(w, s.db, a.version) {
      var files := Last(s, CopyTrail(w, s, a)).files;
      LaterKeepsRecord(w, s, a, |a.later|);
      RestEnds(s, a, files);
    }
  }

  lemma {:induction false} LaterKeepsRecord(w: Versions, s: State, a: Answers, i: nat)
    requires Possible(w, s, a) && i <= |a.later|
    ensures var d := if i == 0 then Recorded(s.db, a) else a.later[i - 1]; d.had && d.binary == a.version && d.record == s.db.record
  {
    hide Possible, Advances;
    if i > 0 {
      LaterKeepsRecord(w, s, a, i - 1);
      PossibleStep(w, s, a, i - 1);
    }
  }

  lemma RestEnds(s: State, a: Answers, files: Files)
    ensures var t := RestTrail(s, a, files);
            var d := if a.later == [] then Recorded(s.db, a) else a.later[|a.later| - 1];
            t != [] && t[|t| - 1].db == if a.records then d.(record := Some(Record(a.version, d.schema))) else d
  {
  }

  lemma InTrail(w: Versions, s: State, a: Answers, steps: nat)
    ensures var x := After(w, s, Start(a, steps)); x == s || x in StartTrail(w, s, a)
  {
    hide StartTrail;
  }

  /** No event of a run removes the last copy of a schema. */
  lemma AfterKeepsCopies(w: Versions, s: State, e: Event, schema: Schema)
    requires PossibleEvent(w, s, e) && HasCopy(s.files, schema)
    ensures HasCopy(After(w, s, e).files, schema)
  {
    if e.Start? {
      StartKeepsCopies(w, s, e.a, schema);
      hide StartTrail, HasCopy, Possible;
      InTrail(w, s, e.a, e.steps);
    }
  }

  lemma {:induction false} RunKeepsCopies(w: Versions, s: State, es: seq<Event>, i: nat, schema: Schema)
    requires i <= |es| && PossibleRun(w, s, es) && HasCopy(Run(w, s, es[..i]).files, schema)
    ensures HasCopy(Run(w, s, es).files, schema)
    decreases |es|
  {
    if i == |es| {
      assert es[..i] == es;
    } else {
      var before := es[..|es| - 1];
      assert before[..i] == es[..i];
      RunKeepsCopies(w, s, before, i, schema);
      AfterKeepsCopies(w, Run(w, s, before), es[|es| - 1], schema);
    }
  }

  lemma {:induction false} PrefixPossible(w: Versions, s: State, es: seq<Event>, i: nat)
    requires i < |es| && PossibleRun(w, s, es)
    ensures PossibleRun(w, s, es[..i]) && PossibleEvent(w, Run(w, s, es[..i]), es[i])
    ensures Run(w, s, es[..i + 1]) == After(w, Run(w, s, es[..i]), es[i])
    decreases |es|
  {
    assert es[..i + 1][..i] == es[..i];
    if i < |es| - 1 {
      var before := es[..|es| - 1];
      assert before[..i] == es[..i] && before[..i + 1] == es[..i + 1];
      PrefixPossible(w, s, before, i);
    } else {
      assert es[..i + 1] == es;
    }
  }

  // ---- what every start keeps ---------------------------------------------------------------------

  lemma AdvancesOpens(w: Versions, v: string, x: Schema, y: Schema)
    requires Opens(w, v, x) && Advances(w, v, x, y)
    ensures Opens(w, v, y)
  {
  }

  lemma PrunedInv(w: Versions, db: Database, files: Files, order: seq<FileName>)
    requires Inv(w, db) && forall n <- files :: Inv(w, files[n].db)
    ensures forall x <- PruneTrail(db, files, order) :: InvAll(w, x) && x.db == db
  {
    hide Inv;
  }

  lemma CopyTrailInv(w: Versions, s: State, a: Answers)
    requires InvAll(w, s)
    ensures forall x <- CopyTrail(w, s, a) :: InvAll(w, x) && x.db == s.db
    ensures InvAll(w, Last(s, CopyTrail(w, s, a)))
  {
    hide Inv, PruneTrail, MakesCopy;
    if MakesCopy(w, s, a.version) {
      PrunedInv(w, s.db, WithCopy(w, s, a), a.order);
    }
  }

  /** After each later migration the database is recorded by the version, and the
      version opens it. */
  predicate Ours(w: Versions, v: string, d: Database) {
    d.had && d.binary == v && "app" in d.schema && Opens(w, v, d.schema)
  }

  lemma StepKeepsOurs(w: Versions, v: string, d: Database, e: Database)
    requires Ours(w, v, d) && Inv(w, d) && Steps(w, v, d, e)
    ensures Ours(w, v, e) && Inv(w, e)
  {
    AdvancesOpens(w, v, d.schema, e.schema);
    hide Opens;
  }

  lemma FirstIsOurs(w: Versions, s: State, a: Answers)
    requires Possible(w, s, a) && Inv(w, s.db) && Opens(w, a.version, s.db.schema)
    ensures Ours(w, a.version, Recorded(s.db, a)) && Inv(w, Recorded(s.db, a)) && Inv(w, Migrated(s.db, a))
  {
    AdvancesOpens(w, a.version, s.db.schema, a.app);
    hide Opens, Advances;
  }

  lemma PossibleStep(w: Versions, s: State, a: Answers, i: nat)
    requires Possible(w, s, a) && i < |a.later|
    ensures Steps(w, a.version, Before(s, a, i), a.later[i])
  {
    hide Steps, Advances, Before;
  }

  lemma {:induction false} LaterIsOurs(w: Versions, s: State, a: Answers, i: nat)
    requires Possible(w, s, a) && i <= |a.later| && Inv(w, s.db) && Opens(w, a.version, s.db.schema)
    ensures var d := if i == 0 then Recorded(s.db, a) else a.later[i - 1];
            Ours(w, a.version, d) && Inv(w, d)
  {
    hide Possible, Ours, Inv, Steps, Opens;
    if i == 0 {
      FirstIsOurs(w, s, a);
    } else {
      LaterIsOurs(w, s, a, i - 1);
      PossibleStep(w, s, a, i - 1);
      StepKeepsOurs(w, a.version, Before(s, a, i - 1), a.later[i - 1]);
    }
  }

  lemma LaterStateInv(w: Versions, s: State, a: Answers, files: Files, x: State)
    requires Possible(w, s, a) && Inv(w, s.db) && Opens(w, a.version, s.db.schema)
    requires forall n <- files :: Inv(w, files[n].db)
    requires x in LaterTrail(files, a) || x == State(Recorded(s.db, a), files)
    ensures InvAll(w, x) && Ours(w, a.version, x.db)
  {
    hide Possible, Ours, Inv, Opens, LaterTrail, Recorded, WithRecord;
    var i := LaterAt(s, a, files, x);
    LaterIsOurs(w, s, a, i);
  }

  /** The database after the record of the version or a later migration. */
  lemma LaterAt(s: State, a: Answers, files: Files, x: State) returns (i: nat)
    requires x in LaterTrail(files, a) || x == State(Recorded(s.db, a), files)
    ensures i <= |a.later| && x == State(if i == 0 then Recorded(s.db, a) else a.later[i - 1], files)
  {
    var t := LaterTrail(files, a);
    i := 0;
    if x in t {
      var k :| 0 <= k < |t| && t[k] == x;
      i := k + 1;
    }
  }

  lemma LaterTrailInv(w: Versions, s: State, a: Answers, files: Files)
    requires Possible(w, s, a) && Inv(w, s.db) && Opens(w, a.version, s.db.schema)
    requires forall n <- files :: Inv(w, files[n].db)
    ensures var t := LaterTrail(files, a);
            var recorded := State(Recorded(s.db, a), files);
            && (forall x <- [recorded] + t :: InvAll(w, x) && Ours(w, a.version, x.db))
            && Last(recorded, t) in [recorded] + t && InvAll(w, State(Migrated(s.db, a), files))
  {
    var t := LaterTrail(files, a);
    var recorded := State(Recorded(s.db, a), files);
    FirstIsOurs(w, s, a);
    hide Possible, Ours, Inv, Opens, Recorded, LaterTrail;
    forall x | x in [recorded] + t ensures InvAll(w, x) && Ours(w, a.version, x.db) {
      LaterStateInv(w, s, a, files, x);
    }
    hide InvAll;
  }

  lemma RecordInv(w: Versions, s: State, v: string)
    requires InvAll(w, s) && Ours(w, v, s.db)
    ensures InvAll(w, WithRecord(s, v)) && Ours(w, v, WithRecord(s, v).db)
  {
    hide Opens;
  }

  lemma RestInv(w: Versions, s: State, a: Answers, files: Files)
    requires Possible(w, s, a) && Inv(w, s.db) && Opens(w, a.version, s.db.schema)
    requires forall n <- files :: Inv(w, files[n].db)
    ensures forall x <- RestTrail(s, a, files) :: InvAll(w, x) && Ours(w, a.version, x.db)
    ensures InvAll(w, State(Migrated(s.db, a), files))
  {
    var recorded := State(Recorded(s.db, a), files);
    hide Possible, Inv, Ours, Opens, LaterTrail, WithRecord, Recorded;
    LaterTrailInv(w, s, a, files);
    RecordInv(w, Last(recorded, LaterTrail(files, a)), a.version);
    hide InvAll;
  }

  /** The invariant at every step of a start. */
  lemma StartKeepsInv(w: Versions, s: State, a: Answers)
    requires Possible(w, s, a) && InvAll(w, s)
    ensures forall x <- StartTrail(w, s, a) :: InvAll(w, x)
  {
    if !(Refuses(w, s.db, a.version) || CopyFails(w, s, a)) {
      assert Opens(w, a.version, s.db.schema);
      hide Possible, Inv, Opens, Ours, CopyTrail, RestTrail, CopyFails;
      CopyTrailInv(w, s, a);
      RestInv(w, s, a, Last(s, CopyTrail(w, s, a)).files);
      hide InvAll;
    }
  }

  // ---- the version that a copy is named after opens it -------------------------------------------

  /** Exactly when the version that a copy is named after opens it: when the record
      of the schema is current, or the recorded version opens it. */
  lemma {:induction false} OwnerOpens(w: Versions, d: Database)
    requires ValidVersions(w) && Inv(w, d)
    ensures Opens(w, Owner(w, d), d.schema) <==> RecordIsCurrent(d) || Opens(w, d.binary, d.schema)
  {
  }

  /** A database that 0.17 recorded last is copied under that name unless the record of
      another version is current and 0.17 does not open the schema. */
  lemma {:induction false} LastBeforeOne(w: Versions, d: Database)
    requires ValidVersions(w) && w.number(d.binary) == Some((0, 17))
    ensures Owner(w, d) == d.binary
            <==> !RecordIsCurrent(d) || d.record.value.version == d.binary || Opens(w, d.binary, d.schema)
  {
  }

  /** A database without a half-made step, and its copies named after their owners. */
  predicate Sound(w: Versions, s: State) {
    && InvAll(w, s) && !Half(w, s.db)
    && forall n <- s.files :: !Half(w, s.files[n].db) && (n.Copy? ==> n.owner == Sanitize(Owner(w, s.files[n].db)))
  }

  /** The app migration goes beyond the version recorded, one from 1.0.0 on. */
  predicate Beyond(w: Versions, d: Database, a: Answers) {
    && d.binary != "" && w.modern(d.binary)
    && "app" in a.app && "app" in w.steps(d.binary) && a.app["app"] > w.steps(d.binary)["app"]
  }

  /** A start that dies after such an app migration and before it records its own
      version. */
  predicate DiesBetween(w: Versions, s: State, e: Event) {
    && e.Start? && !Refuses(w, s.db, e.a.version) && !CopyFails(w, s, e.a)
    && e.steps == |CopyTrail(w, s, e.a)| + 1 && Beyond(w, s.db, e.a)
  }

  predicate GoodFiles(w: Versions, files: Files) {
    forall n <- files :: !Half(w, files[n].db) && (n.Copy? ==> n.owner == Sanitize(Owner(w, files[n].db)))
  }

  lemma CopyTrailNames(w: Versions, s: State, a: Answers)
    requires Sound(w, s)
    ensures forall x <- CopyTrail(w, s, a) :: GoodFiles(w, x.files)
    ensures GoodFiles(w, Last(s, CopyTrail(w, s, a)).files)
  {
    hide InvAll, MakesCopy, Half, Owner;
    if MakesCopy(w, s, a.version) {
      assert GoodFiles(w, WithCopy(w, s, a));
      PruneNames(w, s.db, WithCopy(w, s, a), a.order);
    }
  }

  lemma PruneNames(w: Versions, db: Database, files: Files, order: seq<FileName>)
    requires GoodFiles(w, files)
    ensures forall x <- PruneTrail(db, files, order) :: GoodFiles(w, x.files)
  {
    hide Half, Owner;
  }

  lemma StartNames(w: Versions, s: State, a: Answers)
    requires Sound(w, s)
    ensures forall x <- StartTrail(w, s, a) :: GoodFiles(w, x.files)
  {
    CopyTrailNames(w, s, a);
    var files := Last(s, CopyTrail(w, s, a)).files;
    RestFiles(s, a, files);
    hide GoodFiles, Sound, CopyTrail, RestTrail, CopyFails, Refuses;
  }

  lemma OursIsWhole(w: Versions, v: string, d: Database)
    requires Ours(w, v, d)
    ensures !Half(w, d)
  {
  }

  lemma MigratedHalf(w: Versions, s: State, a: Answers)
    requires Possible(w, s, a) && Inv(w, s.db) && !Half(w, s.db) && Opens(w, a.version, s.db.schema) && ValidVersions(w)
    ensures Half(w, Migrated(s.db, a)) <==> Beyond(w, s.db, a)
  {
  }

  /** No event leaves such a database but a start that dies between its app
      migration and the record of its version. */
  lemma AfterSound(w: Versions, s: State, e: Event)
    requires ValidVersions(w) && Sound(w, s) && PossibleEvent(w, s, e) && !DiesBetween(w, s, e)
    ensures Sound(w, After(w, s, e))
  {
    match e
    case Start(a, steps) =>
      StartSound(w, s, a, steps);
    case OldStart(_, db) =>
      OldSound(w, s, e);
    case Write(_) =>
      assert Owner(w, After(w, s, e).db) == Owner(w, s.db);
    case PutBack(_) =>
  }

  lemma OldSound(w: Versions, s: State, e: Event)
    requires ValidVersions(w) && Sound(w, s) && PossibleEvent(w, s, e) && e.OldStart?
    ensures Sound(w, After(w, s, e))
  {
  }

  /** The database stays as it is until the app migration, and is the starting
      version's own from the record of the version on. */
  lemma TrailAt(w: Versions, s: State, a: Answers, k: nat)
    requires Possible(w, s, a) && InvAll(w, s) && k < |StartTrail(w, s, a)|
    ensures var x := StartTrail(w, s, a)[k]; var n := |CopyTrail(w, s, a)|;
            && (k < n ==> x.db == s.db) && (k == n ==> x.db == Migrated(s.db, a)) && (k > n ==> Ours(w, a.version, x.db))
  {
    Accepted(w, s, a);
    var t := CopyTrail(w, s, a);
    var m := State(Migrated(s.db, a), Last(s, t).files);
    var rest := RestTrail(s, a, m.files);
    assert StartTrail(w, s, a) == t + [m] + rest;
    assert Inv(w, s.db);
    hide *;
    CopyTrailInv(w, s, a);
    assert forall n <- m.files :: Inv(w, m.files[n].db) by { FilesInv(w, Last(s, t)); }
    RestInv(w, s, a, m.files);
    PartOf(t, m, rest, k);
  }

  lemma FilesInv(w: Versions, s: State)
    requires InvAll(w, s)
    ensures forall n <- s.files :: Inv(w, s.files[n].db)
  {
  }

  lemma PartOf(t: seq<State>, m: State, rest: seq<State>, k: nat)
    requires k < |t + [m] + rest|
    ensures var x := (t + [m] + rest)[k];
            (k < |t| ==> x in t) && (k == |t| ==> x == m) && (k > |t| ==> x in rest)
  {
    if k > |t| {
      assert (t + [m] + rest)[k] == rest[k - |t| - 1];
    }
  }

  lemma Accepted(w: Versions, s: State, a: Answers)
    requires InvAll(w, s) && StartTrail(w, s, a) != []
    ensures Opens(w, a.version, s.db.schema) && !Refuses(w, s.db, a.version) && !CopyFails(w, s, a)
    ensures |StartTrail(w, s, a)| > |CopyTrail(w, s, a)| + 1
  {
    hide CopyTrail, CopyFails;
  }

  lemma WholeAt(w: Versions, s: State, a: Answers, k: nat)
    requires ValidVersions(w) && InvAll(w, s) && !Half(w, s.db) && Possible(w, s, a) && k < |StartTrail(w, s, a)|
    requires k == |CopyTrail(w, s, a)| ==> !Beyond(w, s.db, a)
    ensures !Half(w, StartTrail(w, s, a)[k].db)
  {
    TrailAt(w, s, a, k);
    Accepted(w, s, a);
    var x := StartTrail(w, s, a)[k];
    hide StartTrail, CopyTrail, Half, Possible, Opens, Ours, Migrated;
    if k == |CopyTrail(w, s, a)| {
      MigratedHalf(w, s, a);
    } else if k > |CopyTrail(w, s, a)| {
      OursIsWhole(w, a.version, x.db);
    }
  }

  lemma SoundAt(w: Versions, s: State, a: Answers, k: nat)
    requires ValidVersions(w) && Sound(w, s) && Possible(w, s, a) && k < |StartTrail(w, s, a)|
    requires k == |CopyTrail(w, s, a)| ==> !Beyond(w, s.db, a)
    ensures Sound(w, StartTrail(w, s, a)[k])
  {
    var x := StartTrail(w, s, a)[k];
    assert x in StartTrail(w, s, a);
    StartKeepsInv(w, s, a);
    StartNames(w, s, a);
    assert InvAll(w, s) && !Half(w, s.db);
    hide StartTrail, InvAll, Half, Owner, Beyond, Possible, CopyTrail;
    WholeAt(w, s, a, k);
  }

  lemma DiesAt(w: Versions, s: State, a: Answers, steps: nat)
    requires steps > 0 && StartTrail(w, s, a) != []
    ensures var t := StartTrail(w, s, a); After(w, s, Start(a, steps)) == t[if steps > |t| then |t| - 1 else steps - 1]
  {
    hide StartTrail;
  }

  lemma StartSound(w: Versions, s: State, a: Answers, steps: nat)
    requires ValidVersions(w) && Sound(w, s) && Possible(w, s, a) && !DiesBetween(w, s, Start(a, steps))
    ensures Sound(w, After(w, s, Start(a, steps)))
  {
    var t := StartTrail(w, s, a);
    if steps == 0 || t == [] {
      assert After(w, s, Start(a, steps)) == s by { hide StartTrail; }
    } else {
      assert InvAll(w, s);
      hide StartTrail, Sound, InvAll, Beyond, Possible, CopyTrail, CopyFails, Refuses, After;
      Accepted(w, s, a);
      DiesAt(w, s, a, steps);
      SoundAt(w, s, a, if steps > |t| then |t| - 1 else steps - 1);
    }
  }

  /** An event leaves a database that the version recorded in it does not open
      exactly when it is such a death. */
  lemma {:induction false} HalfExactly(w: Versions, s: State, e: Event)
    requires ValidVersions(w) && Sound(w, s) && PossibleEvent(w, s, e)
    ensures Half(w, After(w, s, e).db) <==> DiesBetween(w, s, e)
  {
    if DiesBetween(w, s, e) {
      NotRefused(w, s, e.a);
      assert StartTrail(w, s, e.a) != [] by { hide CopyTrail, CopyFails, RestTrail; }
      Accepted(w, s, e.a);
      var k := e.steps - 1;
      TrailAt(w, s, e.a, k);
      MigratedHalf(w, s, e.a);
      hide StartTrail, CopyTrail, CopyFails, Half, Beyond, Possible, Migrated;
    } else {
      AfterSound(w, s, e);
    }
  }

  lemma NotRefused(w: Versions, s: State, a: Answers)
    requires InvAll(w, s) && !Refuses(w, s.db, a.version)
    ensures Opens(w, a.version, s.db.schema)
  {
  }

  /** While all versions have the same app migrations, no start dies that way. */
  ghost predicate AppStays(w: Versions) {
    forall v, u :: "app" in w.steps(v) && "app" in w.steps(u) ==> w.steps(v)["app"] == w.steps(u)["app"]
  }

  lemma {:induction false} AppStaysNeverBetween(w: Versions, s: State, e: Event)
    requires ValidVersions(w) && AppStays(w) && Sound(w, s) && PossibleEvent(w, s, e)
    ensures !DiesBetween(w, s, e)
  {
    hide CopyTrail, CopyFails;
  }

  ghost predicate NoneBetween(w: Versions, s: State, es: seq<Event>) {
    forall i :: 0 <= i < |es| ==> !DiesBetween(w, Run(w, s, es[..i]), es[i])
  }

  lemma {:induction false} RunSound(w: Versions, s: State, es: seq<Event>)
    requires ValidVersions(w) && Sound(w, s) && PossibleRun(w, s, es) && NoneBetween(w, s, es)
    ensures Sound(w, Run(w, s, es))
  {
    if es != [] {
      var before := es[..|es| - 1];
      hide Sound, DiesBetween, After, PossibleEvent;
      forall i | 0 <= i < |before| ensures !DiesBetween(w, Run(w, s, before[..i]), before[i]) {
        assert before[..i] == es[..i];
      }
      RunSound(w, s, before);
      AfterSound(w, Run(w, s, before), es[|es| - 1]);
    }
  }

  /** Over every run: each copy is named after the version that owned its database,
      and that version opens it exactly when the last version recorded in it is from
      1.0.0 on, or opens it, or the record of its schema is current. */
  lemma {:induction false} CopiesOpenByName(w: Versions, s: State, es: seq<Event>, n: FileName)
    requires ValidVersions(w) && Sound(w, s) && PossibleRun(w, s, es) && NoneBetween(w, s, es)
    requires n.Copy? && n in Run(w, s, es).files && Run(w, s, es).files[n].db.binary != ""
    ensures var d := Run(w, s, es).files[n].db;
            && n.owner == Sanitize(Owner(w, d))
            && (Opens(w, Owner(w, d), d.schema) <==> w.modern(d.binary) || Opens(w, d.binary, d.schema) || RecordIsCurrent(d))
  {
    RunSound(w, s, es);
    OwnerOpens(w, Run(w, s, es).files[n].db);
    hide Run, Owner, Opens, Inv, RecordIsCurrent;
    var x := Run(w, s, es);
    assert n in x.files && Inv(w, x.files[n].db) && !Half(w, x.files[n].db);
  }

  /** Over every run: after a start by another version than the recorded one that
      changed the schema, a copy with the schema before is there for good. */
  lemma {:induction false} EveryChangeHasItsCopy(w: Versions, s: State, es: seq<Event>, i: nat)
    requires InvAll(w, s) && PossibleRun(w, s, es)
    requires i < |es| && es[i].Start? && es[i].a.version != DEV
    requires var d := Run(w, s, es[..i]).db; d.had && d.binary != "" && d.binary != es[i].a.version
    requires Run(w, s, es[..i + 1]).db.schema != Run(w, s, es[..i]).db.schema
    ensures CopyHolds(Run(w, s, es).files, Run(w, s, es[..i]).db.schema)
  {
    var x := Run(w, s, es[..i]);
    PrefixPossible(w, s, es, i);
    RunInv(w, s, es[..i]);
    var a := es[i].a;
    CopyBeforeChange(w, x, a);
    InTrail(w, x, a, es[i].steps);
    RunKeepsCopies(w, s, es, i + 1, x.db.schema) by {
      hide StartTrail, Possible, HasCopy, CopyHolds, Inv;
    }
    HasCopyHolds(Run(w, s, es).files, x.db.schema);
  }

  lemma {:induction false} RunInv(w: Versions, s: State, es: seq<Event>)
    requires InvAll(w, s) && PossibleRun(w, s, es)
    ensures InvAll(w, Run(w, s, es))
  {
    if es != [] {
      RunInv(w, s, es[..|es| - 1]);
      AfterInv(w, Run(w, s, es[..|es| - 1]), es[|es| - 1]);
    }
  }

  lemma AfterInv(w: Versions, s: State, e: Event)
    requires InvAll(w, s) && PossibleEvent(w, s, e)
    ensures InvAll(w, After(w, s, e))
  {
    if e.Start? {
      StartKeepsInv(w, s, e.a);
      InTrail(w, s, e.a, e.steps);
      hide StartTrail, Inv, Possible;
    }
  }

  /** A development build copies nothing, whatever it migrates. */
  lemma {:induction false} DevCopiesNothing(w: Versions, s: State, a: Answers)
    requires a.version == DEV
    ensures forall x <- StartTrail(w, s, a) :: x.files == s.files
  {
    RestFiles(s, a, s.files);
    hide RestTrail;
  }

  // ---- where the name is wrong ------------------------------------------------------------------

  const OLD := "v0.9.0"
  const ONE := "v1.0.0"
  const TWO := "v2.0.0"

  function ExampleSteps(v: string): Schema {
    if v == TWO then map["app" := 2, "settings" := 9]
    else if v == ONE then map["app" := 1, "settings" := 8]
    else map["app" := 1, "settings" := 7]
  }

  const EXAMPLE: Versions := Versions(v => None, ExampleSteps, v => v == ONE || v == TWO)

  lemma ExampleIsValid()
    ensures ValidVersions(EXAMPLE) && OLD != ONE && OLD != TWO && ONE != TWO && ONE != DEV && TWO != DEV
  {
    assert OLD[1] != ONE[1] && OLD[1] != TWO[1] && ONE[1] != TWO[1];
    assert |DEV| == 3 && |ONE| == 6;
  }

  /** Recorded by 1.0.0, with the first of its migrations done. */
  const MIDWAY: Database :=
    Database(true, map["app" := 1, "settings" := 8], ONE, Some(Record(OLD, map["app" := 1, "settings" := 7])), 0)

  /** A version before 1.0.0 that is started in the middle of an upgrade records
      itself; the next copy is named after it, and it does not open the copy. */
  lemma {:induction false} OldVersionMisleads()
    ensures var s := State(MIDWAY, map[]);
            var e := OldStart(OLD, MIDWAY.(binary := OLD));
            var d := After(EXAMPLE, s, e).db;
            && Sound(EXAMPLE, s) && PossibleEvent(EXAMPLE, s, e)
            && Upgrades(d, ONE) && Owner(EXAMPLE, d) == OLD && !Opens(EXAMPLE, OLD, d.schema)
  {
    ExampleIsValid();
    assert MIDWAY.record.value.schema["settings"] == 7;
    assert ExampleSteps(OLD)["settings"] == 7;
  }

  const COMPLETE: Database :=
    Database(true, map["app" := 1, "settings" := 8], ONE, Some(Record(ONE, map["app" := 1, "settings" := 8])), 0)

  function ToTwo(order: seq<FileName>): Answers {
    Answers(TWO, 0, 0, true, order, map["app" := 2, "settings" := 8], [], false)
  }

  /** A start of 2.0.0 that dies between its second app migration and the record of
      its version: the next copy is named after 1.0.0, which does not open it. */
  lemma {:induction false} DeathMisleads()
    ensures var s := State(COMPLETE, map[]);
            var a := ToTwo([Copy(ONE, 0)]);
            var e := Start(a, |CopyTrail(EXAMPLE, s, a)| + 1);
            var d := After(EXAMPLE, s, e).db;
            && Sound(EXAMPLE, s) && PossibleEvent(EXAMPLE, s, e)
            && d == Migrated(COMPLETE, a)
            && Upgrades(d, TWO) && Owner(EXAMPLE, d) == ONE && !Opens(EXAMPLE, ONE, d.schema)
  {
    var s := State(COMPLETE, map[]);
    var a := ToTwo([Copy(ONE, 0)]);
    var e := Start(a, |CopyTrail(EXAMPLE, s, a)| + 1);
    ExampleIsValid();
    MisledIsPossible();
    assert Beyond(EXAMPLE, s.db, a);
    hide CopyTrail, Possible;
    Accepted(EXAMPLE, s, a) by { assert StartTrail(EXAMPLE, s, a) != []; }
    TrailAt(EXAMPLE, s, a, e.steps - 1);
    hide StartTrail;
  }

  lemma MisledIsPossible()
    ensures var s := State(COMPLETE, map[]);
            var a := ToTwo([Copy(ONE, 0)]);
            && Possible(EXAMPLE, s, a) && Sound(EXAMPLE, s)
            && !Refuses(EXAMPLE, s.db, TWO) && !CopyFails(EXAMPLE, s, a)
  {
    ExampleIsValid();
    var s := State(COMPLETE, map[]);
    var a := ToTwo([Copy(ONE, 0)]);
    MisledSteps();
    MisledCopies(s, a);
    hide Possible, Sound, CopyFails, WithCopy, NewestFirst, Advances, MakesCopy, Refuses, Opens;
    PossibleBy(EXAMPLE, s, a);
  }

  lemma PossibleBy(w: Versions, s: State, a: Answers)
    requires w.modern(a.version) && NewestFirst(WithCopy(w, s, a), a.order) && Advances(w, a.version, s.db.schema, a.app)
    requires forall c :: c in a.app && c != "app" ==> c in s.db.schema && a.app[c] == s.db.schema[c]
    requires "app" in a.app && "app" in w.steps(a.version) && a.app["app"] >= w.steps(a.version)["app"] && a.later == []
    ensures Possible(w, s, a)
  {
    hide NewestFirst, WithCopy, Advances, MakesCopy;
  }

  lemma MisledSteps()
    ensures var s := State(COMPLETE, map[]); var a := ToTwo([Copy(ONE, 0)]);
            && Advances(EXAMPLE, TWO, COMPLETE.schema, a.app) && Sound(EXAMPLE, s)
            && Opens(EXAMPLE, TWO, COMPLETE.schema)
  {
    ExampleIsValid();
    assert "app" in COMPLETE.schema;
  }

  lemma MisledCopies(s: State, a: Answers)
    requires s == State(COMPLETE, map[]) && a == ToTwo([Copy(ONE, 0)])
    ensures NewestFirst(WithCopy(EXAMPLE, s, a), a.order) && !CopyFails(EXAMPLE, s, a)
  {
    assert Owner(EXAMPLE, s.db) == ONE;
    SanitizeKeeps(ONE);
  }

  // ---- the code ------------------------------------------------------------------------------------

  /** The components looked at have no newer schema than these steps. */
  predicate NoneNewer(schema: Schema, steps: Schema, seen: set<string>) {
    forall c :: c in seen && c in schema && c in steps ==> schema[c] <= steps[c]
  }

  method SomeNewer(schema: Schema, steps: Schema) returns (newer: bool)
    ensures newer <==> !NoneNewer(schema, steps, schema.Keys)
  {
    var todo := schema.Keys;
    while todo != {}
      invariant todo <= schema.Keys && NoneNewer(schema, steps, schema.Keys - todo)
      decreases |todo|
    {
      var c :| c in todo;
      if c in steps && schema[c] > steps[c] {
        return true;
      }
      todo := todo - {c};
    }
    return false;
  }

  method OpensBefore(w: Versions, v: string, schema: Schema) returns (ok: bool)
    ensures ok <==> OpenedBy(w, v, schema)
  {
    if w.number(v) != Some((0, 17)) {
      return false;
    }
    var newer := SomeNewer(schema, SCHEMA_V017);
    return !newer;
  }

  method CopyVersion(w: Versions, d: Database) returns (owner: string, schemaOf: string)
    ensures owner == Owner(w, d)
    ensures schemaOf == if RecordIsCurrent(d) then d.record.value.version else ""
  {
    if d.record.None? || d.record.value.version == "" {
      return d.binary, "";
    }
    if d.schema != d.record.value.schema {
      return d.binary, "";
    }
    var opens := OpensBefore(w, d.binary, d.schema);
    if d.record.value.version == d.binary || opens {
      return d.binary, d.record.value.version;
    }
    return d.record.value.version, d.record.value.version;
  }

  class Installation {
    const w: Versions
    var db: Database
    var files: Files
    /** The states since the start began. */
    ghost var trail: seq<State>

    constructor (w: Versions, s: State)
      ensures this.w == w && db == s.db && files == s.files && trail == []
    {
      this.w := w;
      db, files, trail := s.db, s.files, [];
    }

    ghost function Now(): State
      reads this
    {
      State(db, files)
    }

    /** The start went through these states. */
    twostate predicate Went(t: seq<State>)
      reads this
    {
      trail == old(trail) + t && Now() == Last(old(Now()), t)
    }

    method RefuseNewerSchema(v: string) returns (refused: bool)
      ensures refused <==> !Opens(w, v, db.schema)
    {
      refused := SomeNewer(db.schema, w.steps(v));
    }

    /** A copy of this schema that is named after the version. */
    method CopyOfSchema(v: string) returns (found: Option<FileName>)
      ensures found.Some? ==> db.schema != map[] && NamedCopy(files, v, db.schema, found.value)
      ensures found.None? ==> db.schema == map[] || forall n :: !NamedCopy(files, v, db.schema, n)
    {
      if db.schema == map[] {
        return None;
      }
      var todo := files.Keys;
      while todo != {}
        invariant todo <= files.Keys && forall n <- files.Keys - todo :: !NamedCopy(files, v, db.schema, n)
        decreases |todo|
      {
        var n :| n in todo;
        if n.Copy? && n.owner == Sanitize(v) {
          if CopySchema(files[n]) == Some(db.schema) {
            return Some(n);
          }
        }
        todo := todo - {n};
      }
      return None;
    }

    /** Removes all but the newest copies and the newest one of every schema. */
    method PruneBackups(order: seq<FileName>)
      requires NewestFirst(files, order)
      modifies this
      ensures trail == old(trail) + PruneTrail(db, old(files), order)
      ensures db == old(db) && files == Pruned(old(files), order, 3, |order|)
    {
      ghost var all := files;
      var seen: set<Schema> := {};
      var i := 0;
      hide NewestFirst, PruneTrail, Pruned, SeenUpTo, Seen, Looked, SoFar;
      PruneStarts(db, all, order);
      while i < |order|
        invariant i <= |order| && db == old(db)
        invariant files == Pruned(all, order, KEEP, i) && SeenUpTo(all, order, i, seen)
        invariant trail == old(trail) + SoFar(db, all, order, i)
      {
        PruneStep(all, order, KEEP, i, seen);
        SoFarNext(db, all, order, i);
        seen := KeepOrRemove(order[i], i < KEEP, seen);
        i := i + 1;
      }
      SoFarAll(db, all, order);
    }

    method KeepOrRemove(n: FileName, newest: bool, seen: set<Schema>) returns (now: set<Schema>)
      requires n in files
      modifies this
      ensures db == old(db)
      ensures files == Looked(old(files), n, newest, seen) && now == Seen(old(files), n, newest, seen)
      ensures trail == old(trail) + [Now()]
    {
      now := seen;
      var schema := CopySchema(files[n]);
      if newest || (schema.Some? && schema.value !in seen) {
        if schema.Some? {
          now := seen + {schema.value};
        }
      } else {
        files := Without(files, n);
      }
      trail := trail + [Now()];
    }

    /** The version the copy is named after, and whether none is made because that
        is the starting version and one exists. */
    method OwnerOrExisting(v: string) returns (owner: string, present: bool)
      ensures owner == Owner(w, db) && (present <==> CopyExists(w, Now(), v))
    {
      var schemaOf;
      owner, schemaOf := CopyVersion(w, db);
      present := false;
      if owner == v {
        var existing := CopyOfSchema(owner);
        present := existing.Some?;
      }
    }

    method WriteAndPrune(a: Answers)
      requires MakesCopy(w, Now(), a.version) && Possible(w, Now(), a)
      modifies this
      ensures Went(CopyTrail(w, old(Now()), a))
    {
      hide MakesCopy, Possible, NewestFirst, Pruned, PruneTrail, Owner, Sanitize, CopyTrail;
      ghost var s := Now();
      PrunedEnds(w, s, a);
      files := files[Copy(Sanitize(Owner(w, db)), a.time) := File(db, a.mod, true)];
      trail := trail + [Now()];
      assert files == WithCopy(w, s, a);
      PruneBackups(a.order);
    }

    method CopyBeforeUpgrade(a: Answers) returns (ok: bool)
      requires Upgrades(db, a.version) && Possible(w, Now(), a)
      modifies this
      ensures ok <==> !CopyFails(w, old(Now()), a)
      ensures if ok then Went(CopyTrail(w, old(Now()), a)) else Went([])
    {
      hide Owner, CopyExists, Possible, PruneTrail, WithCopy, Upgrades;
      var owner, present := OwnerOrExisting(a.version);
      if present {
        return true;
      }
      if !a.written || Copy(Sanitize(owner), a.time) in files {
        return false;
      }
      WriteAndPrune(a);
      return true;
    }

    /** Refuses a newer schema, copies the database of another version, migrates the
        app schema and records the version. */
    method PreUpgradeBackup(a: Answers) returns (ok: bool)
      requires Possible(w, Now(), a)
      modifies this
      ensures ok <==> !Refuses(w, old(db), a.version) && !CopyFails(w, old(Now()), a)
      ensures ok && old(db.had) && old(db.binary) != "" && old(db.binary) != a.version && a.version != DEV && old(db.schema) != map[]
              ==> CopyHolds(files, old(db.schema))
      ensures var t := CopyTrail(w, old(Now()), a); var files := Last(old(Now()), t).files;
              if ok then Went(t + [State(Migrated(old(db), a), files), State(Recorded(old(db), a), files)]) else Went([])
    {
      hide Possible, CopyFails, CopyTrail, Opens, CopyHolds;
      if db.had {
        var refused := RefuseNewerSchema(a.version);
        if refused {
          return false;
        }
      }
      ghost var s := Now();
      OnlyUpgradesCopy(w, s, a);
      CopyLeavesDatabase(w, s, a);
      HeldAfterCopy(w, s, a);
      if Upgrades(db, a.version) {
        ok := CopyBeforeUpgrade(a);
        if !ok {
          return false;
        }
      }
      assert files == Last(s, CopyTrail(w, s, a)).files && db == s.db;
      db := Migrated(db, a);
      trail := trail + [Now()];
      if db.binary != a.version {
        db := db.(binary := a.version);
      }
      trail := trail + [Now()];
      return true;
    }

    /** A start: the copy, the later migrations, and the record of the schema once
        they all succeeded. */
    method Start(a: Answers)
      requires Possible(w, Now(), a)
      modifies this
      ensures Went(StartTrail(w, old(Now()), a))
    {
      hide Possible, CopyFails, CopyTrail, Refuses, Migrated, Recorded;
      ghost var s := Now();
      var ok := PreUpgradeBackup(a);
      if !ok {
        return;
      }
      MigrateAndRecord(a);
      ghost var t := CopyTrail(w, s, a);
      ghost var files := Last(s, t).files;
      assert t + [State(Migrated(s.db, a), files), State(Recorded(s.db, a), files)] + MigrateTrail(State(Recorded(s.db, a), files), a)
          == t + [State(Migrated(s.db, a), files)] + ([State(Recorded(s.db, a), files)] + MigrateTrail(State(Recorded(s.db, a), files), a));
    }

    method MigrateAndRecord(a: Answers)
      modifies this
      ensures Went(MigrateTrail(old(Now()), a))
    {
      ghost var s := Now();
      var i := 0;
      while i < |a.later|
        invariant i <= |a.later| && files == s.files
        invariant trail == old(trail) + LaterTrail(s.files, a)[..i]
        invariant Now() == Last(s, LaterTrail(s.files, a)[..i])
      {
        db := a.later[i];
        trail := trail + [Now()];
        i := i + 1;
      }
      assert LaterTrail(s.files, a)[..i] == LaterTrail(s.files, a);
      if a.records {
        db := db.(record := Some(Record(a.version, db.schema)));
        trail := trail + [Now()];
      }
    }
  }

  lemma HeldAfterCopy(w: Versions, s: State, a: Answers)
    requires Possible(w, s, a)
    ensures !CopyFails(w, s, a) && s.db.schema != map[] && s.db.had && s.db.binary != "" && s.db.binary != a.version && a.version != DEV
            ==> CopyHolds(Last(s, CopyTrail(w, s, a)).files, s.db.schema)
  {
    hide Possible, CopyFails, CopyTrail, HasCopy, CopyHolds;
    if !CopyFails(w, s, a) && s.db.schema != map[] && s.db.had && s.db.binary != "" && s.db.binary != a.version && a.version != DEV {
      CopiedBefore(w, s, a);
      HasCopyHolds(Last(s, CopyTrail(w, s, a)).files, s.db.schema);
    }
  }

  lemma CopyLeavesDatabase(w: Versions, s: State, a: Answers)
    ensures forall x <- CopyTrail(w, s, a) :: x.db == s.db
    ensures Last(s, CopyTrail(w, s, a)).db == s.db
  {
    assert forall x <- PruneTrail(s.db, WithCopy(w, s, a), a.order) :: x.db == s.db;
  }

  lemma OnlyUpgradesCopy(w: Versions, s: State, a: Answers)
    ensures !Upgrades(s.db, a.version) ==> CopyTrail(w, s, a) == [] && !CopyFails(w, s, a)
  {
  }

  lemma PrunedEnds(w: Versions, s: State, a: Answers)
    requires Possible(w, s, a) && MakesCopy(w, s, a.version)
    ensures var files := WithCopy(w, s, a); var t := PruneTrail(s.db, files, a.order);
            && NewestFirst(files, a.order)
            && |a.order| > 0 && t != [] && t[|t| - 1] == State(s.db, Pruned(files, a.order, KEEP, |a.order|))
            && CopyTrail(w, s, a) == [State(s.db, files)] + t
  {
    assert CopyName(w, s, a) in WithCopy(w, s, a);
  }

  function Without(files: Files, n: FileName): Files {
    map m | m in files && m != n :: files[m]
  }

  predicate StaysNow(files: Files, n: FileName, newest: bool, seen: set<Schema>)
    requires n in files
  {
    newest || (CopySchema(files[n]).Some? && CopySchema(files[n]).value !in seen)
  }

  function Looked(files: Files, n: FileName, newest: bool, seen: set<Schema>): Files
    requires n in files
  {
    if StaysNow(files, n, newest, seen) then files else Without(files, n)
  }

  function Seen(files: Files, n: FileName, newest: bool, seen: set<Schema>): set<Schema>
    requires n in files
  {
    if StaysNow(files, n, newest, seen) && CopySchema(files[n]).Some? then seen + {CopySchema(files[n]).value} else seen
  }

  lemma PruneStep(files: Files, order: seq<FileName>, keep: nat, i: nat, seen: set<Schema>)
    requires NewestFirst(files, order) && i < |order| && SeenUpTo(files, order, i, seen)
    ensures var before := Pruned(files, order, keep, i); var n := order[i];
            && n in before
            && Pruned(files, order, keep, i + 1) == Looked(before, n, i < keep, seen)
            && SeenUpTo(files, order, i + 1, Seen(before, n, i < keep, seen))
  {
    StillThere(files, order, keep, i);
    SeenNext(files, order, keep, i, seen);
    PrunedNext(files, order, keep, i);
    hide NewestFirst, Pruned, Stays, SeenUpTo, SchemaAt, CopySchema;
  }

  /** The schemas of the copies that were looked at. */
  ghost predicate SeenUpTo(files: Files, order: seq<FileName>, i: nat, seen: set<Schema>)
    requires i <= |order|
  {
    forall schema :: schema in seen <==> exists j :: 0 <= j < i && SchemaAt(files, order, j) == Some(schema)
  }

  lemma SeenNone(files: Files, order: seq<FileName>)
    ensures SeenUpTo(files, order, 0, {})
  {
  }

  lemma SeenNext(files: Files, order: seq<FileName>, keep: nat, i: nat, seen: set<Schema>)
    requires i < |order| && SeenUpTo(files, order, i, seen)
    ensures var schema := SchemaAt(files, order, i);
            && (Stays(files, order, keep, i) <==> i < keep || (schema.Some? && schema.value !in seen))
            && (schema.Some? ==> SeenUpTo(files, order, i + 1, seen + {schema.value}))
            && (schema.None? || schema.value in seen ==> SeenUpTo(files, order, i + 1, seen))
  {
    var schema := SchemaAt(files, order, i);
    if schema.Some? && schema.value in seen {
      assert seen + {schema.value} == seen;
    }
    forall x | x in seen + (if schema.Some? then {schema.value} else {})
      ensures exists j :: 0 <= j < i + 1 && SchemaAt(files, order, j) == Some(x)
    {
      if x in seen {
        var j :| 0 <= j < i && SchemaAt(files, order, j) == Some(x);
      } else {
        assert SchemaAt(files, order, i) == Some(x);
      }
    }
  }

  /** The states of pruning when i copies have been looked at. */
  ghost function SoFar(db: Database, files: Files, order: seq<FileName>, i: nat): seq<State>
    requires i <= |order|
  {
    PruneTrail(db, files, order)[..i]
  }

  lemma PruneStarts(db: Database, files: Files, order: seq<FileName>)
    ensures SoFar(db, files, order, 0) == [] && Pruned(files, order, KEEP, 0) == files && SeenUpTo(files, order, 0, {})
  {
    PrunedNone(files, order, KEEP);
    SeenNone(files, order);
  }

  lemma SoFarAll(db: Database, files: Files, order: seq<FileName>)
    ensures SoFar(db, files, order, |order|) == PruneTrail(db, files, order)
  {
  }

  lemma PrunedNone(files: Files, order: seq<FileName>, keep: nat)
    ensures Pruned(files, order, keep, 0) == files
  {
  }

  lemma StillThere(files: Files, order: seq<FileName>, keep: nat, i: nat)
    requires NewestFirst(files, order) && i < |order|
    ensures order[i] in Pruned(files, order, keep, i) && Pruned(files, order, keep, i)[order[i]] == files[order[i]]
    ensures SchemaAt(files, order, i) == CopySchema(files[order[i]])
  {
  }

  lemma PrunedNext(files: Files, order: seq<FileName>, keep: nat, i: nat)
    requires NewestFirst(files, order) && i < |order|
    ensures var before := Pruned(files, order, keep, i);
            Pruned(files, order, keep, i + 1) == if Stays(files, order, keep, i) then before else Without(before, order[i])
  {
  }

  lemma SoFarNext(db: Database, files: Files, order: seq<FileName>, i: nat)
    requires i < |order|
    ensures SoFar(db, files, order, i + 1)
         == SoFar(db, files, order, i) + [State(db, Pruned(files, order, KEEP, i + 1))]
  {
  }
}
