/**
 Salvage of a table of a damaged database: rowids in chunks, a chunk that
 cannot be read probed row by row, and an account of what was lost. Any read of
 the source may fail or hide rows; a truthful read that succeeds hides none.
 */
module Salvage {
  import opened Wrappers

  const SALVAGE_CHUNK := 1000
  const FAILED_WINDOWS_MAX := 1000
  const MAX_INT64 := 0x7FFF_FFFF_FFFF_FFFF
  const TWO64 := 0x1_0000_0000_0000_0000

  /** Addition of two int64. */
  function Add64(a: int, b: int): int {
    if a + b > MAX_INT64 then a + b - TWO64
    else if a + b < -MAX_INT64 - 1 then a + b + TWO64
    else a + b
  }

  /** The sum that fits into int64 and differs by a multiple of 2^64. */
  lemma Add64Wraps(a: int, b: int)
    requires -0x8000_0000_0000_0000 <= a <= 0x7FFF_FFFF_FFFF_FFFF && -0x8000_0000_0000_0000 <= b <= 0x7FFF_FFFF_FFFF_FFFF
    ensures -0x8000_0000_0000_0000 <= Add64(a, b) <= 0x7FFF_FFFF_FFFF_FFFF
    ensures exists k :: Add64(a, b) == a + b + k * 0x1_0000_0000_0000_0000
  {
    assert Add64(a, b) == a + b + (if a + b > MAX_INT64 then -1 else if a + b < -MAX_INT64 - 1 then 1 else 0) * 0x1_0000_0000_0000_0000;
  }

  ghost predicate Increasing(ids: seq<int>) {
    forall i, j :: 0 <= i < j < |ids| ==> ids[i] < ids[j]
  }

  ghost function Beyond(rows: set<int>, last: int): set<int> {
    set id | id in rows && id > last
  }

  // ---- the damaged source --------------------------------------------------------------

  /** Rows that SELECT … WHERE rowid > last ORDER BY rowid LIMIT 1000 may return. */
  ghost predicate MayReturn(rows: set<int>, last: int, got: seq<int>) {
    && Increasing(got)
    && |got| <= SALVAGE_CHUNK
    && forall i :: 0 <= i < |got| ==> got[i] in rows && got[i] > last
  }

  /** It returns the first rows beyond last. */
  ghost predicate Complete(rows: set<int>, last: int, got: seq<int>) {
    && (got == [] ==> Beyond(rows, last) == {})
    && (got != [] ==> forall id :: id in rows && last < id <= got[|got| - 1] ==> id in got)
  }

  // ---- inserting ---------------------------------------------------------------------------

  /** Which rows the new schema takes, and whether the transaction commits. */
  datatype Destination = Destination(takes: int -> bool, commits: seq<int> -> bool)

  /** The rows copied and lost of one transaction: together all of them. */
  method InsertRows(dst: Destination, rows: seq<int>, allOrNothing: bool) returns (copied: nat, lost: nat)
    ensures copied + lost == |rows|
    ensures allOrNothing ==> copied == if dst.commits(rows) && TakesAll(dst, rows) then |rows| else 0
    ensures !allOrNothing ==> copied == CopiedOf(dst, rows)
    ensures !dst.commits(rows) ==> copied == 0
  {
    copied, lost := 0, 0;
    for i := 0 to |rows|
      invariant copied + lost == i
      invariant allOrNothing ==> lost == 0
      invariant copied == |Taken(dst, rows[..i])|
      invariant allOrNothing ==> forall k :: 0 <= k < i ==> dst.takes(rows[k])
    {
      assert rows[..i + 1][..i] == rows[..i];
      if dst.takes(rows[i]) {
        copied := copied + 1;
      } else if allOrNothing {
        return 0, |rows|;
      } else {
        lost := lost + 1;
      }
    }
    assert rows[..|rows|] == rows;
    if !dst.commits(rows) {
      return 0, |rows|;
    }
  }

  predicate TakesAll(dst: Destination, rows: seq<int>) {
    forall i :: 0 <= i < |rows| ==> dst.takes(rows[i])
  }

  /** The rows that the new schema takes. */
  function Taken(dst: Destination, rows: seq<int>): seq<int> {
    if rows == [] then []
    else Taken(dst, rows[..|rows| - 1]) + (if dst.takes(rows[|rows| - 1]) then [rows[|rows| - 1]] else [])
  }

  /** The rows of a transaction that are in the table afterwards. */
  function CopiedOf(dst: Destination, rows: seq<int>): nat {
    if dst.commits(rows) then |Taken(dst, rows)| else 0
  }

  ghost function TakenAt(dst: Destination, rows: seq<int>): set<nat> {
    set i: nat | i < |rows| && dst.takes(rows[i])
  }

  /** As many as there are places of rows that the new schema takes. */
  lemma {:induction false} TakenCount(dst: Destination, rows: seq<int>)
    ensures |Taken(dst, rows)| == |TakenAt(dst, rows)|
  {
    if rows != [] {
      var n := |rows| - 1;
      TakenCount(dst, rows[..n]);
      assert TakenAt(dst, rows) == TakenAt(dst, rows[..n]) + if dst.takes(rows[n]) then {n} else {};
    }
  }

  // ---- the scan -----------------------------------------------------------------------------

  datatype TableResult = TableResult(copied: nat, lost: nat, incomplete: bool, unknown: bool)

  /** What the reads of a run answer: the largest rowid (None: unreadable or an
      empty table), and each chunk and row when it is read the n-th time. */
  datatype Answers = Answers(max: Option<int>, maxFails: bool, chunk: (nat, int) -> Option<seq<int>>, row: (nat, int) -> Option<bool>)

  /** The answers a file with these rows can give. */
  ghost predicate Possible(a: Answers, rows: set<int>) {
    && (a.maxFails ==> a.max.None?)
    && (forall n, last :: a.chunk(n, last).Some? ==> MayReturn(rows, last, a.chunk(n, last).value))
    && (forall n, id :: a.row(n, id) == Some(true) ==> id in rows)
  }

  /** Reads that succeed hide nothing. */
  ghost predicate Truthful(a: Answers, rows: set<int>) {
    && (forall n, last :: a.chunk(n, last).Some? ==> Complete(rows, last, a.chunk(n, last).value))
    && (forall n, id :: a.row(n, id) == Some(false) ==> id !in rows)
    && (a.max.Some? ==> forall id :: id in rows ==> id <= a.max.value)
  }

  /** What the scan has done: `read` are the rows inserted, in order, `failed`
      the rowids whose probe failed. */
  ghost predicate Scanned(rows: set<int>, last: int, read: seq<int>, failed: seq<int>) {
    && Increasing(read) && Increasing(failed)
    && (forall i :: 0 <= i < |read| ==> 0 < read[i] <= last && read[i] in rows)
    && (forall i :: 0 <= i < |failed| ==> 0 < failed[i] <= last && failed[i] !in read)
  }

  ghost predicate Accounted(rows: set<int>, last: int, read: seq<int>, failed: seq<int>) {
    forall id :: id in rows && 0 < id <= last ==> id in read || id in failed
  }

  lemma ChunkScanned(rows: set<int>, last: int, read: seq<int>, failed: seq<int>, got: seq<int>)
    requires Scanned(rows, last, read, failed) && MayReturn(rows, last, got) && got != [] && last >= 0
    ensures Scanned(rows, got[|got| - 1], read + got, failed)
    ensures Beyond(rows, got[|got| - 1]) < Beyond(rows, last)
  {
    var all, end := read + got, got[|got| - 1];
    forall i, j | 0 <= i < j < |all| ensures all[i] < all[j] {
      if i < |read| <= j {
        assert read[i] <= last < got[j - |read|];
      }
    }
    forall i | 0 <= i < |failed| ensures failed[i] !in all {}
    assert end in Beyond(rows, last) && end !in Beyond(rows, end);
  }

  lemma RowScanned(rows: set<int>, last: int, read: seq<int>, failed: seq<int>, id: int, answer: Option<bool>)
    requires Scanned(rows, last, read, failed) && id == last + 1 && last >= 0
    requires answer == Some(true) ==> id in rows
    ensures answer == Some(true) ==> Scanned(rows, id, read + [id], failed)
    ensures answer == Some(false) ==> Scanned(rows, id, read, failed)
    ensures answer == None ==> Scanned(rows, id, read, failed + [id])
  {
    forall k | k in read + [id] ensures k in read || k == id {}
    if answer == Some(true) {
      forall i | 0 <= i < |failed| ensures failed[i] !in read + [id] {}
    } else if answer == None {
      forall i | 0 <= i < |failed + [id]| ensures (failed + [id])[i] !in read {}
    }
  }

  lemma RowAccounted(rows: set<int>, last: int, read: seq<int>, failed: seq<int>, id: int, answer: Option<bool>)
    requires Accounted(rows, last, read, failed) && id == last + 1
    requires answer == Some(false) ==> id !in rows
    ensures answer == Some(true) ==> Accounted(rows, id, read + [id], failed)
    ensures answer == Some(false) ==> Accounted(rows, id, read, failed)
    ensures answer == None ==> Accounted(rows, id, read, failed + [id])
  {
    forall k | k in rows && 0 < k <= id
      ensures k <= last || k == id
      ensures k <= last ==> k in read + [id] || k in failed
      ensures k <= last ==> k in read || k in failed + [id]
    {
    }
    assert id in read + [id] && id in failed + [id];
  }

  lemma NothingBeyond(rows: set<int>, last: int)
    ensures Beyond(rows, last) == {} ==> forall id :: id in rows ==> id <= last
  {
    forall id | id in rows && id > last ensures id in Beyond(rows, last) {}
  }

  lemma BeyondShrinks(rows: set<int>, last: int, last': int)
    requires last <= last'
    ensures Beyond(rows, last') <= Beyond(rows, last)
  {
  }

  // ---- the run of the scan, in int64 ------------------------------------------------------

  /** Where the scan is: before the chunk beyond `last`, after so many windows that
      failed one after the other; before the probe of a rowid of a window that ends at
      `end`; or at its end, which may leave rows of an unknown number behind. */
  datatype Place = AtChunk(last: int, windows: nat) | Probing(id: int, end: int, windows: nat) | Ended(unknown: bool)

  /** The place, the number of reads, the rowids inserted in their order, and the
      rowids whose probe failed. */
  datatype Scan = Scan(place: Place, n: nat, read: seq<int>, failed: seq<int>)

  const BEGIN: Scan := Scan(AtChunk(0, 0), 0, [], [])

  /** A window that failed is the last one. */
  predicate LastWindow(a: Answers, last: int, windows: nat) {
    if a.max.Some? then last >= a.max.value else windows >= FAILED_WINDOWS_MAX
  }

  function Step(a: Answers, s: Scan): Scan {
    match s.place
    case AtChunk(last, windows) =>
      var chunk := a.chunk(s.n, last);
      if chunk.None? then Scan(Probing(Add64(last, 1), Add64(last, SALVAGE_CHUNK), windows), s.n + 1, s.read, s.failed)
      else if chunk.value == [] then s.(place := Ended(false), n := s.n + 1)
      else Scan(AtChunk(chunk.value[|chunk.value| - 1], 0), s.n + 1, s.read + chunk.value, s.failed)
    case Probing(id, end, windows) =>
      if id <= end then
        var row := a.row(s.n, id);
        Scan(Probing(Add64(id, 1), end, windows), s.n + 1,
             if row == Some(true) then s.read + [id] else s.read, if row.None? then s.failed + [id] else s.failed)
      else if LastWindow(a, end, windows + 1) then s.(place := Ended(a.max.None?))
      else s.(place := AtChunk(end, windows + 1))
    case Ended(_) => s
  }

  /** The scan after k steps. */
  function After(a: Answers, k: nat): Scan {
    if k == 0 then BEGIN else Step(a, After(a, k - 1))
  }

  /** The scan ends. */
  ghost predicate Ends(a: Answers) {
    exists k :: After(a, k).place.Ended?
  }

  /** No rowid is inserted twice. */
  ghost predicate Once(ids: seq<int>) {
    forall i, j :: 0 <= i < j < |ids| ==> ids[i] != ids[j]
  }

  ghost predicate NeverTwice(a: Answers) {
    forall k :: Once(After(a, k).read)
  }

  /** The last rowid whose window stays below the end of int64. */
  const LAST_START := MAX_INT64 - SALVAGE_CHUNK - 1

  /** A window that starts at `last` after so many others does no harm: it stays in
      int64, or it runs over its end without a probe and is the last one. */
  predicate Harmless(a: Answers, last: int, windows: nat) {
    || last <= LAST_START
    || (a.max.None? && windows == FAILED_WINDOWS_MAX - 1 && MAX_INT64 - SALVAGE_CHUNK < last < MAX_INT64)
  }

  /** No window of this run that failed does harm. */
  ghost predicate NoLateWindow(a: Answers) {
    forall k :: Fails(a, After(a, k)) ==> Harmless(a, After(a, k).place.last, After(a, k).place.windows)
  }

  predicate Fails(a: Answers, s: Scan) {
    s.place.AtChunk? && a.chunk(s.n, s.place.last).None?
  }

  // ---- what holds after every step -----------------------------------------------------------

  /** Every row was inserted at most once, in order, and no failed probe is a row
      that was inserted. */
  ghost predicate Clean(rows: set<int>, read: seq<int>, failed: seq<int>) {
    && Increasing(read) && Increasing(failed)
    && (forall i :: 0 <= i < |read| ==> 0 < read[i] && read[i] in rows)
    && (forall i :: 0 <= i < |failed| ==> 0 < failed[i] && failed[i] !in read)
  }

  ghost predicate Covered(rows: set<int>, read: seq<int>, failed: seq<int>) {
    forall id :: id in rows && id > 0 ==> id in read || id in failed
  }

  /** The place of a run without a late window. */
  ghost predicate Placed(a: Answers, rows: set<int>, s: Scan) {
    match s.place
    case AtChunk(last, windows) =>
      && last >= 0 && Scanned(rows, last, s.read, s.failed)
      && if a.max.Some? then windows > 0 ==> last < a.max.value else windows < FAILED_WINDOWS_MAX
    case Probing(id, end, windows) =>
      && id > 0 && Scanned(rows, id - 1, s.read, s.failed)
      && (id <= end + 1 ==> 0 < end < MAX_INT64)
      && (id > end + 1 ==> LastWindow(a, end, windows + 1) && a.max.None?)
      && (a.max.None? ==> windows < FAILED_WINDOWS_MAX)
    case Ended(unknown) =>
      Clean(rows, s.read, s.failed) && (unknown ==> a.max.None?)
  }

  lemma ChunkStep(a: Answers, rows: set<int>, s: Scan)
    requires Possible(a, rows) && s.place.AtChunk? && Placed(a, rows, s)
    requires Fails(a, s) ==> Harmless(a, s.place.last, s.place.windows)
    ensures Placed(a, rows, Step(a, s))
  {
    var last := s.place.last;
    var chunk := a.chunk(s.n, last);
    if chunk.Some? && chunk.value != [] {
      ChunkScanned(rows, last, s.read, s.failed, chunk.value);
    }
  }

  lemma ProbeStep(a: Answers, rows: set<int>, s: Scan)
    requires Possible(a, rows) && s.place.Probing? && s.place.id <= s.place.end && Placed(a, rows, s)
    ensures Placed(a, rows, Step(a, s))
  {
    var id := s.place.id;
    var row := a.row(s.n, id);
    RowScanned(rows, id - 1, s.read, s.failed, id, row);
  }

  lemma CloseStep(a: Answers, rows: set<int>, s: Scan)
    requires Possible(a, rows) && s.place.Probing? && s.place.id > s.place.end && Placed(a, rows, s)
    ensures Placed(a, rows, Step(a, s))
  {
  }

  /** After every step of a run without a late window. */
  lemma {:induction false} RunPlaced(a: Answers, rows: set<int>, k: nat)
    requires Possible(a, rows) && NoLateWindow(a)
    ensures Placed(a, rows, After(a, k))
  {
    if k > 0 {
      RunPlaced(a, rows, k - 1);
      var s := After(a, k - 1);
      hide Placed, Possible, Step;
      match s.place
      case AtChunk(_, _) => ChunkStep(a, rows, s);
      case Probing(id, end, _) =>
        if id <= end {
          ProbeStep(a, rows, s);
        } else {
          CloseStep(a, rows, s);
        }
      case Ended(_) => EndedStep(a, s);
    }
  }

  lemma EndedStep(a: Answers, s: Scan)
    requires s.place.Ended?
    ensures Step(a, s) == s
  {
  }

  // ---- nothing is left out ---------------------------------------------------------------------

  ghost predicate InInt64(rows: set<int>) {
    forall id :: id in rows ==> -MAX_INT64 - 1 <= id <= MAX_INT64
  }

  /** What a truthful run has accounted for at its place, also after a window that ran
      over the end of int64 and led back to before the first row. */
  ghost predicate AccountedAt(rows: set<int>, s: Scan) {
    match s.place
    case AtChunk(last, _) => -MAX_INT64 - 1 <= last <= MAX_INT64 && Accounted(rows, last, s.read, s.failed)
    case Probing(id, end, _) =>
      && -MAX_INT64 - 1 <= id <= MAX_INT64 && -MAX_INT64 - 1 <= end <= MAX_INT64
      && Accounted(rows, id - 1, s.read, s.failed) && (id <= end + 1 || end < 0)
    case Ended(unknown) => unknown || Covered(rows, s.read, s.failed)
  }

  lemma ChunkAccounted(rows: set<int>, last: int, read: seq<int>, failed: seq<int>, got: seq<int>)
    requires Accounted(rows, last, read, failed) && Complete(rows, last, got)
    ensures got == [] ==> Covered(rows, read, failed)
    ensures got != [] ==> Accounted(rows, got[|got| - 1], read + got, failed)
  {
    NothingBeyond(rows, last);
  }

  lemma NoneBefore(rows: set<int>, last: int, read: seq<int>, failed: seq<int>)
    requires last <= 0
    ensures Accounted(rows, last, read, failed)
  {
  }

  lemma ReadAccounted(a: Answers, rows: set<int>, s: Scan)
    requires Possible(a, rows) && Truthful(a, rows) && InInt64(rows) && s.place.AtChunk? && AccountedAt(rows, s)
    ensures AccountedAt(rows, Step(a, s))
  {
    var chunk := a.chunk(s.n, s.place.last);
    if chunk.Some? {
      ChunkAccounted(rows, s.place.last, s.read, s.failed, chunk.value);
    } else {
      NoneBefore(rows, -MAX_INT64 - 2, s.read, s.failed);
    }
    hide Accounted, Covered;
  }

  lemma ProbeAccounted(a: Answers, rows: set<int>, s: Scan)
    requires Truthful(a, rows) && s.place.Probing? && s.place.id <= s.place.end && AccountedAt(rows, s)
    ensures AccountedAt(rows, Step(a, s))
  {
    var id := s.place.id;
    var row := a.row(s.n, id);
    var t := Step(a, s);
    RowAccounted(rows, id - 1, s.read, s.failed, id, row);
    NoneBefore(rows, -MAX_INT64 - 2, t.read, t.failed);
    hide Accounted;
    if row.Some? && !row.value {
      assert row == Some(false);
    }
  }

  lemma CloseAccounted(a: Answers, rows: set<int>, s: Scan)
    requires Truthful(a, rows) && s.place.Probing? && s.place.id > s.place.end && AccountedAt(rows, s)
    ensures AccountedAt(rows, Step(a, s))
  {
  }

  /** With truthful reads every row up to the place is read or has a failed probe after
      every step of any run, late windows or not. */
  lemma {:induction false} RunAccounted(a: Answers, rows: set<int>, k: nat)
    requires Possible(a, rows) && Truthful(a, rows) && InInt64(rows)
    ensures AccountedAt(rows, After(a, k))
  {
    if k > 0 {
      RunAccounted(a, rows, k - 1);
      var s := After(a, k - 1);
      hide AccountedAt, Possible, Truthful, InInt64, Step;
      match s.place
      case AtChunk(_, _) => ReadAccounted(a, rows, s);
      case Probing(id, end, _) =>
        if id <= end {
          ProbeAccounted(a, rows, s);
        } else {
          CloseAccounted(a, rows, s);
        }
      case Ended(_) => EndedStep(a, s);
    }
  }

  // ---- such runs end and insert nothing twice ------------------------------------------------

  lemma WindowEnds(a: Answers, rows: set<int>, k: nat) returns (j: nat)
    requires Possible(a, rows) && NoLateWindow(a) && After(a, k).place.Probing?
    ensures After(a, j).place.Probing? && After(a, j).place.end == After(a, k).place.end
    ensures After(a, j).place.windows == After(a, k).place.windows && After(a, j).place.id > After(a, j).place.end
    decreases After(a, k).place.end - After(a, k).place.id
  {
    RunPlaced(a, rows, k);
    j := k;
    if After(a, k).place.id <= After(a, k).place.end {
      assert After(a, k + 1) == Step(a, After(a, k));
      j := WindowEnds(a, rows, k + 1);
    }
  }

  /** What is left to do before a chunk: rows beyond `last`, and how far a failed
      window is from ending the scan. */
  function Left(a: Answers, place: Place): int
    requires place.AtChunk?
  {
    if a.max.Some? then a.max.value - place.last else FAILED_WINDOWS_MAX - place.windows
  }

  /** A readable chunk leaves fewer rows beyond `last`. */
  lemma ChunkAdvances(a: Answers, rows: set<int>, k: nat)
    requires Possible(a, rows) && NoLateWindow(a) && After(a, k).place.AtChunk? && !Fails(a, After(a, k))
    ensures var s, t := After(a, k), After(a, k + 1);
            t.place.Ended? || (t.place.AtChunk? && Beyond(rows, t.place.last) < Beyond(rows, s.place.last))
  {
    var s := After(a, k);
    RunPlaced(a, rows, k);
    assert After(a, k + 1) == Step(a, s);
    var chunk := a.chunk(s.n, s.place.last);
    if chunk.value != [] {
      ChunkScanned(rows, s.place.last, s.read, s.failed, chunk.value);
    }
  }

  /** t is before a chunk with less left than s, or the end. */
  ghost predicate Nearer(a: Answers, rows: set<int>, s: Scan, t: Scan)
    requires s.place.AtChunk?
  {
    || t.place.Ended?
    || (t.place.AtChunk? && Beyond(rows, t.place.last) <= Beyond(rows, s.place.last)
        && 0 <= Left(a, t.place) < Left(a, s.place))
  }

  /** p stands behind the window after s. */
  predicate Behind(s: Scan, p: Scan) {
    && s.place.AtChunk? && p.place.Probing? && p.place.id > p.place.end && p.place.windows == s.place.windows
    && p.place.end == Add64(s.place.last, SALVAGE_CHUNK)
  }

  lemma CloseNearer(a: Answers, rows: set<int>, s: Scan, p: Scan)
    requires Behind(s, p) && Placed(a, rows, s) && Placed(a, rows, Step(a, p)) && Harmless(a, s.place.last, s.place.windows)
    ensures Nearer(a, rows, s, Step(a, p))
  {
    hide Scanned, Clean;
    if Step(a, p).place.AtChunk? {
      BeyondShrinks(rows, s.place.last, p.place.end);
      hide Beyond;
    }
  }

  lemma WindowPasses(a: Answers, rows: set<int>, k: nat) returns (m: nat)
    requires Possible(a, rows) && NoLateWindow(a) && Fails(a, After(a, k))
    ensures Behind(After(a, k), After(a, m))
  {
    hide NoLateWindow, Possible;
    assert After(a, k + 1) == Step(a, After(a, k));
    m := WindowEnds(a, rows, k + 1);
    hide After;
  }

  /** A failed window brings the scan nearer to the largest rowid or leaves fewer
      windows. */
  lemma WindowAdvances(a: Answers, rows: set<int>, k: nat) returns (j: nat)
    requires Possible(a, rows) && NoLateWindow(a) && Fails(a, After(a, k))
    ensures After(a, k).place.AtChunk? && Nearer(a, rows, After(a, k), After(a, j))
  {
    var s := After(a, k);
    assert s.place.AtChunk? && Harmless(a, s.place.last, s.place.windows);
    hide *;
    var m := WindowPasses(a, rows, k);
    j := m + 1;
    RunPlaced(a, rows, k);
    RunPlaced(a, rows, j);
    Proceeds(a, m);
    CloseNearer(a, rows, s, After(a, m));
  }

  lemma ScanEnds(a: Answers, rows: set<int>, k: nat) returns (j: nat)
    requires Possible(a, rows) && NoLateWindow(a) && After(a, k).place.AtChunk?
    ensures After(a, j).place.Ended?
    decreases Beyond(rows, After(a, k).place.last), if Left(a, After(a, k).place) >= 0 then Left(a, After(a, k).place) + 1 else 0
  {
    hide After, Possible, NoLateWindow, Beyond;
    if Fails(a, After(a, k)) {
      j := WindowAdvances(a, rows, k);
    } else {
      ChunkAdvances(a, rows, k);
      j := k + 1;
    }
    if !After(a, j).place.Ended? {
      j := ScanEnds(a, rows, j);
    }
  }

  /** A run without a late window ends, and inserts no rowid twice. */
  lemma RunGood(a: Answers, rows: set<int>)
    requires Possible(a, rows) && NoLateWindow(a)
    ensures Ends(a) && NeverTwice(a)
  {
    var k := ScanEnds(a, rows, 0);
    forall k ensures Once(After(a, k).read) {
      RunPlaced(a, rows, k);
    }
  }

  // ---- which tables are safe -----------------------------------------------------------------

  lemma {:induction false} StartsLow(a: Answers, rows: set<int>, k: nat)
    requires Possible(a, rows) && a.max.Some? && a.max.value <= LAST_START
    requires forall id :: id in rows ==> id <= LAST_START
    ensures After(a, k).place.AtChunk? ==> After(a, k).place.last <= LAST_START
  {
    if k > 0 {
      StartsLow(a, rows, k - 1);
    }
  }

  /** The rowids that a run of 1000 failed windows does not take over the end of
      int64, or only with the last window. */
  predicate FarFromEnd(id: int) {
    id <= MAX_INT64 - (FAILED_WINDOWS_MAX - 1) * SALVAGE_CHUNK - 1 && id != MAX_INT64 - FAILED_WINDOWS_MAX * SALVAGE_CHUNK
  }

  /** The failed windows follow each other from a row, or from 0. */
  ghost predicate Follows(rows: set<int>, last: int, windows: nat) {
    exists r :: StartsAt(rows, r) && last == r + SALVAGE_CHUNK * windows
  }

  predicate StartsAt(rows: set<int>, r: int) {
    r >= 0 && (r == 0 || r in rows)
  }

  lemma {:induction false} StartsFollow(a: Answers, rows: set<int>, k: nat)
    requires Possible(a, rows) && a.max.None? && forall id :: id in rows ==> FarFromEnd(id)
    ensures match After(a, k).place
            case AtChunk(last, windows) => windows < FAILED_WINDOWS_MAX && Follows(rows, last, windows)
            case Probing(_, end, windows) => windows < FAILED_WINDOWS_MAX
              && exists last :: Follows(rows, last, windows) && end == Add64(last, SALVAGE_CHUNK)
            case Ended(_) => true
  {
    if k == 0 {
      assert StartsAt(rows, 0);
    } else {
      StartsFollow(a, rows, k - 1);
      var s := After(a, k - 1);
      match s.place
      case AtChunk(last, windows) =>
        var chunk := a.chunk(s.n, last);
        if chunk.Some? && chunk.value != [] {
          assert StartsAt(rows, chunk.value[|chunk.value| - 1]);
        }
      case Probing(id, end, windows) =>
        var last :| Follows(rows, last, windows) && end == Add64(last, SALVAGE_CHUNK);
        if id > end && windows + 1 < FAILED_WINDOWS_MAX {
          var r :| StartsAt(rows, r) && last == r + SALVAGE_CHUNK * windows;
          assert end == r + SALVAGE_CHUNK * (windows + 1);
        }
      case Ended(_) =>
    }
  }

  lemma KnownIsSafe(a: Answers, rows: set<int>)
    requires Possible(a, rows) && a.max.Some? && a.max.value <= LAST_START
    requires forall id :: id in rows ==> id <= LAST_START
    ensures NoLateWindow(a)
  {
    forall k | Fails(a, After(a, k)) ensures Harmless(a, After(a, k).place.last, After(a, k).place.windows) {
      StartsLow(a, rows, k);
    }
  }

  lemma UnknownIsSafe(a: Answers, rows: set<int>)
    requires Possible(a, rows) && a.max.None? && forall id :: id in rows ==> FarFromEnd(id)
    ensures NoLateWindow(a)
  {
    forall k | Fails(a, After(a, k)) ensures Harmless(a, After(a, k).place.last, After(a, k).place.windows) {
      StartsFollow(a, rows, k);
    }
  }

  // ---- and which are not -------------------------------------------------------------------------

  ghost predicate IsNext(rows: set<int>, last: int, m: int) {
    m in rows && m > last && forall id :: id in rows && id > last ==> m <= id
  }

  lemma {:induction false} HasNext(rows: set<int>, last: int, id: int)
    requires id in rows && id > last
    ensures exists m :: IsNext(rows, last, m)
    decreases id - last
  {
    if x :| x in rows && last < x < id {
      HasNext(rows, last, x);
    } else {
      assert IsNext(rows, last, id);
    }
  }

  /** The first n rows beyond `last`. */
  ghost function FirstRows(rows: set<int>, last: int, n: nat): seq<int>
    decreases n
  {
    if n > 0 && exists m :: IsNext(rows, last, m) then
      var m :| IsNext(rows, last, m);
      [m] + FirstRows(rows, m, n - 1)
    else []
  }

  lemma NextThenRest(rows: set<int>, last: int, m: int, rest: seq<int>)
    requires IsNext(rows, last, m) && Increasing(rest) && forall i :: 0 <= i < |rest| ==> rest[i] in rows && rest[i] > m
    ensures var got := [m] + rest;
            && Increasing(got) && forall i :: 0 <= i < |got| ==> got[i] in rows && got[i] > last
    ensures rest == [] || Complete(rows, m, rest) ==> Complete(rows, last, [m] + rest)
  {
    var got := [m] + rest;
    if rest != [] {
      assert got[|got| - 1] == rest[|rest| - 1];
    }
    if rest == [] || Complete(rows, m, rest) {
      forall id | id in rows && last < id <= got[|got| - 1] ensures id in got {
        assert m <= id;
        assert id > m ==> id in rest;
      }
    }
  }

  lemma {:induction false} FirstRowsAre(rows: set<int>, last: int, n: nat)
    ensures var got := FirstRows(rows, last, n);
            && Increasing(got) && |got| <= n && (forall i :: 0 <= i < |got| ==> got[i] in rows && got[i] > last)
            && (n > 0 ==> Complete(rows, last, got)) && (n == 0 ==> got == []) && (n > 0 && Beyond(rows, last) != {} ==> got != [])
    decreases n
  {
    if n > 0 && exists m :: IsNext(rows, last, m) {
      var m :| IsNext(rows, last, m) && FirstRows(rows, last, n) == [m] + FirstRows(rows, m, n - 1);
      FirstRowsAre(rows, m, n - 1);
      var rest := FirstRows(rows, m, n - 1);
      hide FirstRows;
      NextThenRest(rows, last, m, rest);
    } else if n > 0 {
      forall id | id in Beyond(rows, last) ensures false {
        HasNext(rows, last, id);
      }
      assert Beyond(rows, last) == {};
    }
  }

  ghost function UpTo(rows: set<int>, r: int): set<int> {
    set id | id in rows && id <= r
  }

  /** A file that is read up to the row r, a thousand rows at a time, and not at all
      from there on. */
  ghost function Stubborn(rows: set<int>, r: int, max: Option<int>): Answers {
    Answers(max, max.None?,
            (n: nat, last: int) => if last >= r then None else Some(FirstRows(UpTo(rows, r), last, SALVAGE_CHUNK)),
            (n: nat, id: int) => None)
  }

  lemma StubbornIsTruthful(rows: set<int>, r: int, max: Option<int>)
    requires r in rows && (max.Some? ==> forall id :: id in rows ==> id <= max.value)
    ensures Possible(Stubborn(rows, r, max), rows) && Truthful(Stubborn(rows, r, max), rows)
  {
    var a := Stubborn(rows, r, max);
    forall n: nat, last | a.chunk(n, last).Some?
      ensures MayReturn(rows, last, a.chunk(n, last).value) && Complete(rows, last, a.chunk(n, last).value)
    {
      ChunkIs(rows, r, max, n, last);
    }
  }

  lemma ChunkIs(rows: set<int>, r: int, max: Option<int>, n: nat, last: int)
    requires r in rows && last < r
    ensures var got := Stubborn(rows, r, max).chunk(n, last);
            && got.Some? && got.value != [] && MayReturn(rows, last, got.value) && Complete(rows, last, got.value)
            && got.value[|got.value| - 1] <= r
  {
    FirstRowsAre(UpTo(rows, r), last, SALVAGE_CHUNK);
    assert r in Beyond(UpTo(rows, r), last);
    hide FirstRows;
  }

  lemma ReadStep(rows: set<int>, r: int, max: Option<int>, k: nat) returns (got: seq<int>)
    requires r in rows
    requires var s := After(Stubborn(rows, r, max), k); s.place.AtChunk? && s.place.last < r
    ensures var s, t := After(Stubborn(rows, r, max), k), After(Stubborn(rows, r, max), k + 1);
            && got != [] && s.place.last < got[|got| - 1] <= r
            && t.place == AtChunk(got[|got| - 1], 0) && t.read == s.read + got
  {
    var a := Stubborn(rows, r, max);
    var s := After(a, k);
    assert After(a, k + 1) == Step(a, s);
    ChunkIs(rows, r, max, s.n, s.place.last);
    got := a.chunk(s.n, s.place.last).value;
  }

  ghost predicate ReadsMore(before: Scan, after: Scan, r: int) {
    exists more :: after.read == before.read + more && r in more
  }

  lemma MoreAndMore(s: Scan, t: Scan, u: Scan, got: seq<int>, r: int)
    requires t.read == s.read + got && ReadsMore(t, u, r)
    ensures ReadsMore(s, u, r)
  {
    var more :| u.read == t.read + more && r in more;
    assert u.read == s.read + (got + more) && r in got + more;
  }

  /** From any place before r the row r is read and inserted. */
  lemma ReadsTo(rows: set<int>, r: int, max: Option<int>, k: nat) returns (j: nat)
    requires r in rows
    requires var s := After(Stubborn(rows, r, max), k); s.place.AtChunk? && s.place.last < r
    ensures After(Stubborn(rows, r, max), j).place == AtChunk(r, 0)
    ensures ReadsMore(After(Stubborn(rows, r, max), k), After(Stubborn(rows, r, max), j), r)
    decreases r - After(Stubborn(rows, r, max), k).place.last
  {
    var a := Stubborn(rows, r, max);
    var got := ReadStep(rows, r, max, k);
    hide *;
    if got[|got| - 1] == r {
      j := k + 1;
      ItsMore(After(a, k), After(a, j), got, r);
    } else {
      j := ReadsTo(rows, r, max, k + 1);
      MoreAndMore(After(a, k), After(a, k + 1), After(a, j), got, r);
    }
  }

  lemma ItsMore(s: Scan, t: Scan, got: seq<int>, r: int)
    requires t.read == s.read + got && r in got
    ensures ReadsMore(s, t, r)
  {
  }

  /** No probe reads a row, so a window that does not end with int64 is walked
      through. */
  lemma ProbesFail(a: Answers, k: nat) returns (j: nat)
    requires After(a, k).place.Probing? && After(a, k).place.end < MAX_INT64 && forall n, id :: a.row(n, id).None?
    ensures var s, t := After(a, k), After(a, j);
            && t.place.Probing? && t.place.end == s.place.end && t.place.windows == s.place.windows
            && t.place.id > t.place.end && t.read == s.read
    decreases After(a, k).place.end - After(a, k).place.id
  {
    j := k;
    if After(a, k).place.id <= After(a, k).place.end {
      assert After(a, k + 1) == Step(a, After(a, k));
      j := ProbesFail(a, k + 1);
    }
  }

  lemma WindowFails(a: Answers, k: nat) returns (j: nat)
    requires Fails(a, After(a, k)) && forall n, id :: a.row(n, id).None?
    requires Add64(After(a, k).place.last, SALVAGE_CHUNK) < MAX_INT64
    ensures var s := After(a, k); var end := Add64(s.place.last, SALVAGE_CHUNK);
            && After(a, j).read == s.read
            && (!LastWindow(a, end, s.place.windows + 1) ==> After(a, j).place == AtChunk(end, s.place.windows + 1))
  {
    assert After(a, k + 1) == Step(a, After(a, k));
    var m := ProbesFail(a, k + 1);
    j := m + 1;
    assert After(a, j) == Step(a, After(a, m));
  }

  lemma {:induction false} StaysEnded(a: Answers, k: nat, j: nat)
    requires k <= j && After(a, k).place.Ended?
    ensures After(a, j).place.Ended?
    decreases j
  {
    if k < j {
      StaysEnded(a, k, j - 1);
    }
  }

  lemma {:induction false} ProbesForever(a: Answers, k: nat, j: nat)
    requires k <= j && After(a, k).place.Probing? && After(a, k).place.end == MAX_INT64 && After(a, k).place.id <= MAX_INT64
    ensures After(a, j).place.Probing? && After(a, j).place.end == MAX_INT64 && After(a, j).place.id <= MAX_INT64
    decreases j
  {
    if k < j {
      ProbesForever(a, k, j - 1);
    }
  }

  /** A window that ends with int64 is probed without an end: the next rowid after the
      last one is the least. */
  lemma NeverEnds(a: Answers, k: nat)
    requires Fails(a, After(a, k)) && After(a, k).place.last == MAX_INT64 - SALVAGE_CHUNK
    ensures !Ends(a)
  {
    assert After(a, k + 1) == Step(a, After(a, k));
    forall j ensures !After(a, j).place.Ended? {
      if k + 1 <= j {
        ProbesForever(a, k + 1, j);
      } else if After(a, j).place.Ended? {
        StaysEnded(a, j, k);
        assert false;
      }
    }
  }

  /** A window beyond that leads back to before the first row: r is inserted again. */
  lemma InsertsAgain(rows: set<int>, r: int, max: Option<int>, k: nat)
    requires r in rows && r > 0
    requires var a := Stubborn(rows, r, max); var s := After(a, k);
             && Fails(a, s) && r in s.read && MAX_INT64 - SALVAGE_CHUNK < s.place.last <= MAX_INT64
             && !LastWindow(a, Add64(s.place.last, SALVAGE_CHUNK), s.place.windows + 1)
    ensures !NeverTwice(Stubborn(rows, r, max))
  {
    var a := Stubborn(rows, r, max);
    var m := WindowFails(a, k);
    assert r in After(a, m).read && After(a, m).place.AtChunk? && After(a, m).place.last < r;
    hide After, Stubborn, ReadsMore, Once;
    var j := ReadsTo(rows, r, max, m);
    ReadAgain(After(a, m), After(a, j), r);
  }

  lemma ReadAgain(s: Scan, t: Scan, r: int)
    requires r in s.read && ReadsMore(s, t, r)
    ensures !Once(t.read)
  {
    var more :| t.read == s.read + more && r in more;
    var x :| 0 <= x < |s.read| && s.read[x] == r;
    var y :| 0 <= y < |more| && more[y] == r;
    assert t.read[x] == t.read[|s.read| + y];
  }

  /** An oracle for a table with this largest rowid, which may be unreadable, whose
      reads tell the truth when they succeed. */
  ghost predicate Oracle(a: Answers, rows: set<int>, max: Option<int>) {
    a.max == max && Possible(a, rows) && Truthful(a, rows)
  }

  lemma LargeIsNotSafe(rows: set<int>, max: int)
    requires InInt64(rows) && max in rows && max >= MAX_INT64 - SALVAGE_CHUNK
    requires forall id :: id in rows ==> id <= max
    ensures var a := Stubborn(rows, max, Some(max)); Oracle(a, rows, Some(max)) && !(Ends(a) && NeverTwice(a))
  {
    var a := Stubborn(rows, max, Some(max));
    StubbornIsTruthful(rows, max, Some(max));
    var k := ReadsTo(rows, max, Some(max), 0);
    assert max in After(a, k).read by { InReads(After(a, 0), After(a, k), max); }
    if max == MAX_INT64 - SALVAGE_CHUNK {
      NeverEnds(a, k);
    } else {
      InsertsAgain(rows, max, Some(max), k);
    }
  }

  lemma InReads(s: Scan, t: Scan, r: int)
    requires ReadsMore(s, t, r)
    ensures r in t.read
  {
  }

  /** For every table whose largest rowid is known: the scan ends and inserts no rowid
      twice, whatever reads fail, exactly when that rowid is more than a window away
      from the end of int64. */
  lemma KnownExactly(rows: set<int>, max: int)
    requires InInt64(rows) && max in rows && forall id :: id in rows ==> id <= max
    ensures (forall a :: Oracle(a, rows, Some(max)) ==> Ends(a) && NeverTwice(a)) <==> max < 0x7FFF_FFFF_FFFF_FFFF - 1000
  {
    if max < MAX_INT64 - SALVAGE_CHUNK {
      forall a | Oracle(a, rows, Some(max)) ensures Ends(a) && NeverTwice(a) {
        KnownIsSafe(a, rows);
        RunGood(a, rows);
      }
    } else {
      LargeIsNotSafe(rows, max);
    }
  }

  /** Failed windows from r on, as long as they stay in int64. */
  lemma WalksTo(rows: set<int>, r: int, k: nat, w: nat, windows: nat) returns (j: nat)
    requires r in rows && r > 0 && w <= windows < FAILED_WINDOWS_MAX
    requires r + SALVAGE_CHUNK * windows <= MAX_INT64 && (windows > w ==> r + SALVAGE_CHUNK * (windows - 1) <= LAST_START)
    requires After(Stubborn(rows, r, None), k).place == AtChunk(r + SALVAGE_CHUNK * w, w)
    ensures After(Stubborn(rows, r, None), j).place == AtChunk(r + SALVAGE_CHUNK * windows, windows)
    ensures After(Stubborn(rows, r, None), j).read == After(Stubborn(rows, r, None), k).read
    decreases windows - w
  {
    var a := Stubborn(rows, r, None);
    j := k;
    if w < windows {
      assert SALVAGE_CHUNK * w <= SALVAGE_CHUNK * (windows - 1);
      var m := WindowFails(a, k);
      assert After(a, m).place == AtChunk(r + SALVAGE_CHUNK * (w + 1), w + 1);
      j := WalksTo(rows, r, m, w + 1, windows);
    }
  }

  /** The window after which the scan, walking from r, has run over the end. */
  function LateWindow(r: int): (w: nat)
    requires 0 < r <= MAX_INT64 && !FarFromEnd(r)
    ensures w < FAILED_WINDOWS_MAX && MAX_INT64 - SALVAGE_CHUNK <= r + SALVAGE_CHUNK * w <= MAX_INT64
    ensures w > 0 ==> r + SALVAGE_CHUNK * (w - 1) <= LAST_START
    ensures r + SALVAGE_CHUNK * w > MAX_INT64 - SALVAGE_CHUNK ==> w + 1 < FAILED_WINDOWS_MAX
  {
    if r >= MAX_INT64 - SALVAGE_CHUNK then 0
    else (MAX_INT64 - SALVAGE_CHUNK - r + SALVAGE_CHUNK - 1) / SALVAGE_CHUNK
  }

  lemma NearIsNotSafe(rows: set<int>, r: int)
    requires InInt64(rows) && r in rows && !FarFromEnd(r)
    ensures var a := Stubborn(rows, r, None); Oracle(a, rows, None) && !(Ends(a) && NeverTwice(a))
  {
    var a := Stubborn(rows, r, None);
    StubbornIsTruthful(rows, r, None);
    var k := ReadsTo(rows, r, None, 0);
    assert r in After(a, k).read by { InReads(After(a, 0), After(a, k), r); }
    var w := LateWindow(r);
    var j := WalksTo(rows, r, k, 0, w);
    hide After, Ends, NeverTwice, ReadsMore, Oracle, Truthful, Possible;
    LateIsBad(rows, r, j, w);
  }

  lemma LateIsBad(rows: set<int>, r: int, k: nat, w: nat)
    requires r in rows && 0 < r
    requires MAX_INT64 - SALVAGE_CHUNK <= r + SALVAGE_CHUNK * w <= MAX_INT64
    requires r + SALVAGE_CHUNK * w > MAX_INT64 - SALVAGE_CHUNK ==> w + 1 < FAILED_WINDOWS_MAX
    requires var s := After(Stubborn(rows, r, None), k); s.place == AtChunk(r + SALVAGE_CHUNK * w, w) && r in s.read
    ensures var a := Stubborn(rows, r, None); !(Ends(a) && NeverTwice(a))
  {
    var a := Stubborn(rows, r, None);
    assert Fails(a, After(a, k));
    hide After, Ends, NeverTwice, Stubborn;
    if r + SALVAGE_CHUNK * w == MAX_INT64 - SALVAGE_CHUNK {
      NeverEnds(a, k);
    } else {
      assert a.max.None? by { MaxIs(rows, r, None); }
      InsertsAgain(rows, r, None, k);
    }
  }

  lemma MaxIs(rows: set<int>, r: int, max: Option<int>)
    ensures Stubborn(rows, r, max).max == max
  {
  }

  /** For every table whose largest rowid cannot be read: the scan ends and inserts no
      rowid twice, whatever reads fail, exactly when every rowid is so far from the end
      of int64 that 1000 windows cannot do harm. */
  lemma UnknownExactly(rows: set<int>)
    requires InInt64(rows)
    ensures (forall a :: Oracle(a, rows, None) ==> Ends(a) && NeverTwice(a))
       <==> forall id <- rows :: id <= 0x7FFF_FFFF_FFFF_FFFF - 999_001 && id != 0x7FFF_FFFF_FFFF_FFFF - 1_000_000
  {
    if forall id :: id in rows ==> FarFromEnd(id) {
      forall a | Oracle(a, rows, None) ensures Ends(a) && NeverTwice(a) {
        UnknownIsSafe(a, rows);
        RunGood(a, rows);
      }
    } else {
      var r :| r in rows && !FarFromEnd(r);
      NearIsNotSafe(rows, r);
    }
  }

  /** A concrete run: a table of one row just before the end of int64, read, then a
      failed window, then the row again. */
  lemma InsertedTwice()
    ensures var r := MAX_INT64 - 1;
            var a := Stubborn({r}, r, Some(r));
            Oracle(a, {r}, Some(r)) && After(a, 4).read == [r, r]
  {
    var r := MAX_INT64 - 1;
    var a := Stubborn({r}, r, Some(r));
    StubbornIsTruthful({r}, r, Some(r));
    var got := ReadStep({r}, r, Some(r), 0);
    OneRow({r}, r, Some(r), 0, 0);
    assert After(a, 1).place == AtChunk(r, 0) && After(a, 1).read == [r];
    assert After(a, 2) == Step(a, After(a, 1));
    assert After(a, 3) == Step(a, After(a, 2));
    var end := r + SALVAGE_CHUNK - TWO64;
    assert After(a, 3).place == AtChunk(end, 1) && After(a, 3).read == [r];
    OneRow({r}, r, Some(r), After(a, 3).n, end);
    assert After(a, 4) == Step(a, After(a, 3));
  }

  lemma OneRow(rows: set<int>, r: int, max: Option<int>, n: nat, last: int)
    requires rows == {r} && last < r
    ensures Stubborn(rows, r, max).chunk(n, last) == Some([r])
  {
    ChunkIs(rows, r, max, n, last);
    var got := Stubborn(rows, r, max).chunk(n, last).value;
    forall i | 0 <= i < |got| ensures got[i] == r {
    }
    assert |got| == 1;
    assert got == [r];
  }

  // ---- the code --------------------------------------------------------------------------------

  /** The rows that a step reads. */
  function NewRows(s: Scan, t: Scan): seq<int> {
    if |s.read| <= |t.read| then t.read[|s.read|..] else []
  }

  /** How many rows the transactions of the first k steps left in the table. */
  function Copied(a: Answers, dst: Destination, k: nat): nat {
    if k == 0 then 0 else Copied(a, dst, k - 1) + CopiedOf(dst, NewRows(After(a, k - 1), After(a, k)))
  }

  /** What the account says after k steps: the rows copied are those in the table, the
      rows lost are the others that were read and, when the largest rowid is known, the
      failed probes. */
  predicate Counts(a: Answers, dst: Destination, res: TableResult, k: nat) {
    && res.copied == Copied(a, dst, k)
    && res.copied + res.lost == |After(a, k).read| + (if a.max.Some? then |After(a, k).failed| else 0)
  }

  /** A destination that takes and commits everything: all rows read are copied. */
  lemma {:induction false} AllCopied(a: Answers, dst: Destination, k: nat)
    requires (forall r :: dst.takes(r)) && forall rows :: dst.commits(rows)
    ensures Copied(a, dst, k) == |After(a, k).read|
  {
    if k > 0 {
      AllCopied(a, dst, k - 1);
      var s, t := After(a, k - 1), After(a, k);
      AllTaken(dst, NewRows(s, t));
      assert |t.read| == |s.read| + |NewRows(s, t)|;
    }
  }

  /** A destination that commits nothing: none is copied. */
  lemma {:induction false} NoneCopied(a: Answers, dst: Destination, k: nat)
    requires forall rows :: !dst.commits(rows)
    ensures Copied(a, dst, k) == 0
  {
    if k > 0 {
      NoneCopied(a, dst, k - 1);
      hide After, NewRows;
    }
  }

  lemma {:induction false} AllTaken(dst: Destination, rows: seq<int>)
    requires forall r :: dst.takes(r)
    ensures |Taken(dst, rows)| == |rows|
  {
    if rows != [] {
      AllTaken(dst, rows[..|rows| - 1]);
    }
  }

  lemma CountsChunk(a: Answers, dst: Destination, res: TableResult, k: nat, got: seq<int>, copied: nat, lost: nat)
    requires Counts(a, dst, res, k) && After(a, k).place.AtChunk? && a.chunk(After(a, k).n, After(a, k).place.last) == Some(got)
    requires copied == CopiedOf(dst, got) && copied + lost == |got|
    ensures Counts(a, dst, res.(copied := res.copied + copied, lost := res.lost + lost), k + 1)
  {
    var s := After(a, k);
    Proceeds(a, k);
    assert NewRows(s, Step(a, s)) == got;
    hide After, Taken, CopiedOf;
  }

  lemma CountsProbe(a: Answers, dst: Destination, res: TableResult, k: nat, got: seq<int>, copied: nat, lost: nat)
    requires var s := After(a, k); && Counts(a, dst, res, k) && s.place.Probing? && s.place.id <= s.place.end
                                   && a.row(s.n, s.place.id).Some? && got == if a.row(s.n, s.place.id).value then [s.place.id] else []
    requires copied == CopiedOf(dst, got) && copied + lost == |got|
    ensures Counts(a, dst, res.(copied := res.copied + copied, lost := res.lost + lost), k + 1)
  {
    var s := After(a, k);
    Proceeds(a, k);
    assert NewRows(s, Step(a, s)) == got;
    hide After, Taken, CopiedOf;
  }

  /** A step that reads no row: a failed probe, a failed chunk, or the end of a window. */
  lemma CountsSame(a: Answers, dst: Destination, res: TableResult, k: nat)
    requires Counts(a, dst, res, k) && After(a, k + 1).read == After(a, k).read
    ensures var more := |After(a, k + 1).failed| - |After(a, k).failed|;
            more >= 0 ==> Counts(a, dst, res.(lost := res.lost + if a.max.Some? then more else 0), k + 1)
  {
    assert NewRows(After(a, k), After(a, k + 1)) == [];
    assert Taken(dst, []) == [];
    hide After, Taken;
  }

  /** Probes the rowids of a window one by one. */
  method ProbeWindow(a: Answers, dst: Destination, last: int, before: TableResult, n0: nat, ghost k0: nat, ghost finish: nat)
    returns (res: TableResult, count: nat, ghost k: nat)
    requires var s := After(a, k0); s.n == n0 && Counts(a, dst, before, k0) && s.place.Probing?
                                    && s.place.id == Add64(last, 1) && s.place.end == Add64(last, SALVAGE_CHUNK)
    requires After(a, finish).place.Ended?
    ensures var s, t := After(a, k0), After(a, k);
            && t.place.Probing? && t.place.end == s.place.end && t.place.windows == s.place.windows
            && t.place.id > t.place.end && t.n == count && Counts(a, dst, res, k)
    ensures k0 <= k && res.incomplete == before.incomplete && res.unknown == before.unknown
  {
    hide After, Counts, CopiedOf;
    res, count, k := before, n0, k0;
    ghost var windows := After(a, k0).place.windows;
    var end := Add64(last, SALVAGE_CHUNK);
    var id := Add64(last, 1);
    while id <= end
      invariant k0 <= k && res.incomplete == before.incomplete && res.unknown == before.unknown
      invariant After(a, k).place == Probing(id, end, windows) && After(a, k).n == count && Counts(a, dst, res, k)
      decreases finish - k
    {
      Proceeds(a, k);
      Unfinished(a, k, finish);
      var row := a.row(count, id);
      if row.None? {
        CountsSame(a, dst, res, k);
        if a.max.Some? {
          res := res.(lost := res.lost + 1);
        }
      } else {
        var got := if row.value then [id] else [];
        var copied, lost := InsertRows(dst, got, false);
        CountsProbe(a, dst, res, k, got, copied, lost);
        res := res.(copied := res.copied + copied, lost := res.lost + lost);
      }
      count, k := count + 1, k + 1;
      id := Add64(id, 1);
    }
  }

  /** The window after `last`, and whether it is the last one. */
  method CopyWindow(a: Answers, dst: Destination, last: int, windows: nat, before: TableResult, n0: nat,
                    ghost k0: nat, ghost finish: nat)
    returns (res: TableResult, next: int, count: nat, done: bool, ghost k: nat)
    requires var s := After(a, k0); s.place == AtChunk(last, windows) && Fails(a, s) && s.n == n0 && Counts(a, dst, before, k0)
    requires After(a, finish).place.Ended?
    requires !before.unknown && (before.incomplete ==> a.max.None?)
    ensures After(a, k).place == if done then Ended(res.unknown) else AtChunk(next, windows + 1)
    ensures k0 < k && After(a, k).n == count && Counts(a, dst, res, k)
    ensures if done then res.incomplete == res.unknown == a.max.None?
            else res.incomplete == before.incomplete && !res.unknown
  {
    hide After, Counts;
    Proceeds(a, k0);
    CountsSame(a, dst, before, k0);
    res, count, k := ProbeWindow(a, dst, last, before, n0 + 1, k0 + 1, finish);
    Proceeds(a, k);
    CountsSame(a, dst, res, k);
    k := k + 1;
    next := Add64(last, SALVAGE_CHUNK);
    var maxKnown := a.max.Some?;
    done := (maxKnown && next >= a.max.value) || (!maxKnown && windows + 1 >= FAILED_WINDOWS_MAX);
    if done {
      SameCounts(a, dst, res, res.(incomplete := !maxKnown, unknown := !maxKnown), k);
      res := res.(incomplete := !maxKnown, unknown := !maxKnown);
    }
  }

  lemma SameCounts(a: Answers, dst: Destination, res: TableResult, next: TableResult, k: nat)
    requires Counts(a, dst, res, k) && next.copied == res.copied && next.lost == res.lost
    ensures Counts(a, dst, next, k)
  {
    hide After, Copied;
  }

  method ScanRows(a: Answers, dst: Destination, ghost finish: nat) returns (res: TableResult, ghost k: nat)
    requires After(a, finish).place.Ended? && (a.maxFails ==> a.max.None?)
    ensures After(a, k).place == Ended(res.unknown) && Counts(a, dst, res, k)
    ensures a.max.Some? ==> !res.unknown
    ensures res.incomplete == (a.maxFails || res.unknown)
  {
    Started(a);
    hide After, Counts, CopiedOf;
    res, k := TableResult(0, 0, a.maxFails, false), 0;
    var last, failedWindows, n := 0, 0, 0;
    assert Counts(a, dst, res, 0) by { NothingCounted(a, dst, res); }
    while true
      invariant After(a, k).place == AtChunk(last, failedWindows) && After(a, k).n == n
      invariant Counts(a, dst, res, k)
      invariant !res.unknown && res.incomplete == a.maxFails
      decreases finish - k
    {
      Unfinished(a, k, finish);
      var chunk := a.chunk(n, last);
      if chunk.Some? {
        Proceeds(a, k);
        var got := chunk.value;
        n := n + 1;
        if |got| == 0 {
          CountsSame(a, dst, res, k);
          k := k + 1;
          return;
        }
        failedWindows := 0;
        last := got[|got| - 1];
        var copied, lost := InsertRows(dst, got, false);
        CountsChunk(a, dst, res, k, got, copied, lost);
        res, k := res.(copied := res.copied + copied, lost := res.lost + lost), k + 1;
        continue;
      }
      var done;
      ghost var was := k;
      res, last, n, done, k := CopyWindow(a, dst, last, failedWindows, res, n, k, finish);
      failedWindows := failedWindows + 1;
      if done {
        return;
      }
      Unfinished(a, k, finish);
    }
  }

  lemma NothingCounted(a: Answers, dst: Destination, res: TableResult)
    requires res.copied == res.lost == 0
    ensures Counts(a, dst, res, 0)
  {
  }

  /** Copies a rowid table: the scan of its run, with an account of the rows copied and
      lost. With truthful reads every row from 1 on is read or counted as lost, unless
      the loss is marked unknown; without a late window no row is inserted twice. */
  method CopyRows(ghost rows: set<int>, a: Answers, dst: Destination) returns (res: TableResult, ghost k: nat)
    requires Possible(a, rows) && InInt64(rows) && Ends(a)
    ensures After(a, k).place == Ended(res.unknown)
    ensures NoLateWindow(a) ==> Clean(rows, After(a, k).read, After(a, k).failed)
    ensures Counts(a, dst, res, k)
    ensures Truthful(a, rows) && !res.unknown ==> Covered(rows, After(a, k).read, After(a, k).failed)
    ensures a.max.Some? ==> !res.unknown
    ensures res.incomplete == (a.maxFails || res.unknown)
  {
    hide Truthful, Clean, Covered, Counts, InInt64;
    Started(a);
    ghost var finish :| After(a, finish).place.Ended?;
    res, k := ScanRows(a, dst, finish);
    Finished(a, rows, k);
  }

  lemma Started(a: Answers)
    ensures After(a, 0) == BEGIN
  {
  }

  lemma Proceeds(a: Answers, k: nat)
    ensures After(a, k + 1) == Step(a, After(a, k))
  {
  }

  /** A scan that has not ended is before its end. */
  lemma Unfinished(a: Answers, k: nat, finish: nat)
    requires !After(a, k).place.Ended? && After(a, finish).place.Ended?
    ensures k < finish
  {
    if finish <= k {
      StaysEnded(a, finish, k);
    }
  }

  lemma Finished(a: Answers, rows: set<int>, k: nat)
    requires Possible(a, rows) && InInt64(rows) && After(a, k).place.Ended?
    ensures NoLateWindow(a) ==> Clean(rows, After(a, k).read, After(a, k).failed)
    ensures Truthful(a, rows) && !After(a, k).place.unknown ==> Covered(rows, After(a, k).read, After(a, k).failed)
  {
    if NoLateWindow(a) {
      RunPlaced(a, rows, k);
    }
    if Truthful(a, rows) {
      RunAccounted(a, rows, k);
    }
  }

  // ---- the account ------------------------------------------------------------------------------

  lemma {:induction false} Elements(xs: seq<int>)
    ensures |set x | x in xs :: x| <= |xs|
  {
    if xs != [] {
      var before := xs[..|xs| - 1];
      Elements(before);
      var last := xs[|xs| - 1];
      assert xs == before + [last];
      var all, most := set x | x in xs :: x, set x | x in before :: x;
      forall x | x in all ensures x in most + {last} {}
      forall x | x in most + {last} ensures x in all {
        assert x in before + [last];
      }
      assert all == most + {last};
    }
  }

  lemma SubsetSize(a: set<int>, b: set<int>)
    requires a <= b
    ensures |a| <= |b|
  {
    assert b == a + (b - a);
  }

  /** Rows that were each read or counted as lost are all in the account. */
  lemma {:induction false} CountCovers(rows: set<int>, read: seq<int>, failed: seq<int>)
    requires Covered(rows, read, failed)
    ensures |Beyond(rows, 0)| <= |read| + |failed|
  {
    var r, f := set x | x in read :: x, set x | x in failed :: x;
    Elements(read);
    Elements(failed);
    SubsetSize(Beyond(rows, 0), r + f);
    assert |r + f| <= |r| + |f|;
  }

  /** A table WITHOUT ROWID is copied all or nothing; `all` are its rows, None
      when they cannot be read, `count` their number when that can be read. */
  method CopyWithoutRowid(all: Option<seq<int>>, count: Option<nat>, dst: Destination) returns (res: TableResult)
    ensures all.Some? ==> res.copied + res.lost == |all.value| && !res.incomplete && !res.unknown
    ensures all.Some? ==> res.copied == if dst.commits(all.value) && TakesAll(dst, all.value) then |all.value| else 0
    ensures all.None? ==> res.copied == 0 && res.incomplete && res.unknown == count.None?
    ensures all.None? && count.Some? ==> res.lost == count.value
  {
    res := TableResult(0, 0, false, false);
    if all.None? {
      res := res.(incomplete := true);
      if count.None? {
        return res.(unknown := true);
      }
      return res.(lost := count.value);
    }
    var copied, lost := InsertRows(dst, all.value, true);
    res := res.(copied := copied, lost := lost);
  }

  /** Copies a table and corrects the account by the source's own number of rows, if
      there is one: what the scan missed is lost too. */
  method CopyTable(ghost rows: set<int>, a: Answers, dst: Destination, count: Option<nat>) returns (res: TableResult, ghost k: nat)
    requires Possible(a, rows) && InInt64(rows) && Ends(a)
    ensures After(a, k).place == Ended(res.unknown) && res.copied == Copied(a, dst, k)
    ensures var scanned := |After(a, k).read| + if a.max.Some? then |After(a, k).failed| else 0;
            res.copied + res.lost == if count.Some? && !res.unknown && count.value > scanned then count.value else scanned
    ensures count.Some? && !res.unknown ==> res.copied + res.lost >= count.value
    ensures res.incomplete == (a.maxFails || res.unknown || count.None?)
    ensures a.max.Some? ==> !res.unknown
    ensures a.max.Some? && Truthful(a, rows) ==> res.copied + res.lost >= |Beyond(rows, 0)|
    ensures a.max.None? && Truthful(a, rows) && count == Some(|rows|) && !res.unknown ==>
              res.copied + res.lost >= |Beyond(rows, 0)|
  {
    res, k := CopyRows(rows, a, dst);
    if a.max.Some? && Truthful(a, rows) {
      CountCovers(rows, After(a, k).read, After(a, k).failed);
    }
    SubsetSize(Beyond(rows, 0), rows);
    if count.None? {
      res := res.(incomplete := true);
    } else if count.value > res.copied + res.lost && !res.unknown {
      res := res.(lost := count.value - res.copied);
    }
  }
}
