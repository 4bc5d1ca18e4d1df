/**
 The names of scheduled backups and their retention: a name ends in a time
 stamp of fixed width (year to second, UTC), so that the order of the names is
 the order of the times, and all but the newest are deleted.
 */
module Retention {
  import opened Sorting
  import opened Wrappers

  // ---- calendar time -----------------------------------------------------------------

  /** A second of UTC; years have four digits. */
  datatype Civil = Civil(year: nat, month: nat, day: nat, hour: nat, minute: nat, second: nat)

  predicate Leap(year: nat) {
    year % 4 == 0 && (year % 100 != 0 || year % 400 == 0)
  }

  function DaysIn(year: nat, month: nat): nat {
    if month == 2 then (if Leap(year) then 29 else 28)
    else if month == 4 || month == 6 || month == 9 || month == 11 then 30
    else 31
  }

  predicate Valid(c: Civil) {
    && c.year <= 9999
    && 1 <= c.month <= 12
    && 1 <= c.day <= DaysIn(c.year, c.month)
    && c.hour < 24 && c.minute < 60 && c.second < 60
  }

  function DaysBeforeYear(year: nat): nat {
    if year == 0 then 0 else DaysBeforeYear(year - 1) + (if Leap(year - 1) then 366 else 365)
  }

  function DaysBeforeMonth(year: nat, month: nat): nat {
    if month <= 1 then 0 else DaysBeforeMonth(year, month - 1) + DaysIn(year, month - 1)
  }

  /** Seconds since the start of year 0. */
  function Seconds(c: Civil): int {
    (((DaysBeforeYear(c.year) + DaysBeforeMonth(c.year, c.month) + c.day) * 24 + c.hour) * 60 + c.minute) * 60 + c.second
  }

  predicate Earlier(a: Civil, b: Civil) {
    || a.year < b.year
    || (a.year == b.year && (|| a.month < b.month
                             || (a.month == b.month && (|| a.day < b.day
                                                        || (a.day == b.day && EarlierInDay(a, b))))))
  }

  predicate EarlierInDay(a: Civil, b: Civil) {
    || a.hour < b.hour
    || (a.hour == b.hour && (a.minute < b.minute || (a.minute == b.minute && a.second < b.second)))
  }

  lemma {:induction false} YearsIncrease(y: nat, z: nat)
    requires y < z
    ensures DaysBeforeYear(y) + (if Leap(y) then 366 else 365) <= DaysBeforeYear(z)
    decreases z
  {
    if y < z - 1 {
      YearsIncrease(y, z - 1);
    }
  }

  lemma {:induction false} MonthsIncrease(year: nat, m: nat, n: nat)
    requires 1 <= m < n
    ensures DaysBeforeMonth(year, m) + DaysIn(year, m) <= DaysBeforeMonth(year, n)
    decreases n
  {
    if m < n - 1 {
      MonthsIncrease(year, m, n - 1);
    }
  }

  lemma YearFits(year: nat, month: nat)
    requires 1 <= month <= 12
    ensures DaysBeforeMonth(year, month) + DaysIn(year, month) <= if Leap(year) then 366 else 365
  {
    if month < 12 {
      MonthsIncrease(year, month, 12);
    }
    TwelveMonths(year);
  }

  lemma TwelveMonths(year: nat)
    ensures DaysBeforeMonth(year, 12) == if Leap(year) then 335 else 334
  {
    assert DaysBeforeMonth(year, 2) == 31;
    assert DaysBeforeMonth(year, 3) == 31 + DaysIn(year, 2);
    assert DaysBeforeMonth(year, 4) == 62 + DaysIn(year, 2);
    assert DaysBeforeMonth(year, 5) == 92 + DaysIn(year, 2);
    assert DaysBeforeMonth(year, 6) == 123 + DaysIn(year, 2);
    assert DaysBeforeMonth(year, 7) == 153 + DaysIn(year, 2);
    assert DaysBeforeMonth(year, 8) == 184 + DaysIn(year, 2);
    assert DaysBeforeMonth(year, 9) == 215 + DaysIn(year, 2);
    assert DaysBeforeMonth(year, 10) == 245 + DaysIn(year, 2);
    assert DaysBeforeMonth(year, 11) == 276 + DaysIn(year, 2);
  }

  function DayNumber(c: Civil): nat {
    DaysBeforeYear(c.year) + DaysBeforeMonth(c.year, c.month) + c.day
  }

  lemma DaysInOrder(a: Civil, b: Civil)
    requires Valid(a) && Valid(b)
    requires a.year < b.year || (a.year == b.year && a.month < b.month)
    ensures DayNumber(a) < DayNumber(b)
  {
    YearFits(a.year, a.month);
    if a.year < b.year {
      YearsIncrease(a.year, b.year);
    } else {
      MonthsIncrease(a.year, a.month, b.month);
    }
  }

  /** The date after that of c, by the lengths of the months in the Gregorian calendar. */
  function DayAfter(c: Civil): Civil {
    var leap := (c.year % 4 == 0 && c.year % 100 != 0) || c.year % 400 == 0;
    var last := match c.month case 2 => (if leap then 29 else 28) case 4 => 30 case 6 => 30 case 9 => 30 case 11 => 30 case _ => 31;
    if c.day < last then c.(day := c.day + 1)
    else if c.month < 12 then c.(month := c.month + 1, day := 1)
    else c.(year := c.year + 1, month := 1, day := 1)
  }

  /** Each date is 86400 seconds after the one before, and the time of day is its hours,
      minutes and seconds. */
  lemma {:induction false} DayAfterIs(c: Civil)
    requires Valid(c)
    ensures Seconds(DayAfter(c)) == Seconds(c) + 86_400
    ensures c.year < 9999 || c.month < 12 || c.day < 31 ==> Valid(DayAfter(c))
    ensures Seconds(c) == Seconds(c.(hour := 0, minute := 0, second := 0)) + 3600 * c.hour + 60 * c.minute + c.second
  {
    NextDay(c);
    hide DaysBeforeYear, DaysBeforeMonth, DayAfter;
    assert Seconds(c) == ((DayNumber(c) * 24 + c.hour) * 60 + c.minute) * 60 + c.second;
  }

  lemma NextDay(c: Civil)
    requires Valid(c)
    ensures var d := DayAfter(c);
            && DayNumber(d) == DayNumber(c) + 1 && d.hour == c.hour && d.minute == c.minute && d.second == c.second
            && (c.year < 9999 || c.month < 12 || c.day < 31 ==> Valid(d))
  {
    TwelveMonths(c.year);
    assert DaysBeforeMonth(c.year + 1, 1) == 0;
    if c.month < 12 {
      assert DaysBeforeMonth(c.year, c.month + 1) == DaysBeforeMonth(c.year, c.month) + DaysIn(c.year, c.month);
    } else {
      assert DaysBeforeMonth(c.year, c.month) == DaysBeforeMonth(c.year, 12);
    }
    assert DaysBeforeYear(c.year + 1) == DaysBeforeYear(c.year) + (if Leap(c.year) then 366 else 365);
  }

  lemma EarlierSeconds(a: Civil, b: Civil)
    requires Valid(a) && Valid(b) && Earlier(a, b)
    ensures Seconds(a) < Seconds(b)
  {
    if a.year < b.year || (a.year == b.year && a.month < b.month) {
      DaysInOrder(a, b);
    }
  }

  /** The order of the fields is the order of time. */
  lemma {:induction false} FieldsAreTime(a: Civil, b: Civil)
    requires Valid(a) && Valid(b)
    ensures Earlier(a, b) <==> Seconds(a) < Seconds(b)
    ensures Seconds(a) == Seconds(b) ==> a == b
  {
    if Earlier(a, b) {
      EarlierSeconds(a, b);
    } else if a != b {
      EarlierSeconds(b, a);
    }
  }

  // ---- digits -------------------------------------------------------------------------------

  function Digit(n: nat): char
    requires n < 10
  {
    "0123456789"[n]
  }

  function Pow10(w: nat): nat {
    if w == 0 then 1 else 10 * Pow10(w - 1)
  }

  /** n in w digits. */
  function Digits(n: nat, w: nat): (s: string)
    ensures |s| == w
  {
    if w == 0 then "" else Digits(n / 10, w - 1) + [Digit(n % 10)]
  }

  lemma DigitOrder(m: nat, n: nat)
    requires m < 10 && n < 10
    ensures Digit(m) <= Digit(n) <==> m <= n
    ensures Digit(m) == Digit(n) <==> m == n
  {
  }

  /** Texts of one length compare by their first parts, then by the rest. */
  lemma {:induction false} ConcatOrder(a: string, b: string, x: string, y: string)
    requires |a| == |b|
    ensures StringLe(a + x, b + y) <==> (StringLe(a, b) && a != b) || (a == b && StringLe(x, y))
  {
    if a == "" {
      assert a + x == x && b + y == y;
    } else {
      assert (a + x)[1..] == a[1..] + x && (b + y)[1..] == b[1..] + y;
      ConcatOrder(a[1..], b[1..], x, y);
      assert a == [a[0]] + a[1..] && b == [b[0]] + b[1..];
      assert a[0] == b[0] ==> (a == b <==> a[1..] == b[1..]);
    }
  }

  lemma ByTens(m: nat, n: nat)
    ensures m <= n <==> m / 10 < n / 10 || (m / 10 == n / 10 && m % 10 <= n % 10)
    ensures m == n <==> m / 10 == n / 10 && m % 10 == n % 10
  {
  }

  lemma OneDigit(m: nat, n: nat)
    requires m < 10 && n < 10
    ensures StringLe([Digit(m)], [Digit(n)]) <==> m <= n
    ensures [Digit(m)] == [Digit(n)] <==> m == n
  {
    DigitOrder(m, n);
    assert [Digit(m)][0] == Digit(m) && [Digit(n)][0] == Digit(n);
  }

  lemma {:induction false} DigitsOrder(m: nat, n: nat, w: nat)
    requires m < Pow10(w) && n < Pow10(w)
    ensures StringLe(Digits(m, w), Digits(n, w)) <==> m <= n
    ensures Digits(m, w) == Digits(n, w) <==> m == n
    decreases w
  {
    hide StringLe, Digit;
    if w > 0 {
      DigitsOrder(m / 10, n / 10, w - 1);
      OneDigit(m % 10, n % 10);
      ByTens(m, n);
      var a, b, x, y := Digits(m / 10, w - 1), Digits(n / 10, w - 1), [Digit(m % 10)], [Digit(n % 10)];
      ConcatOrder(a, b, x, y);
      LastDigit(a, x, b, y);
    } else {
      StringLeTotal("", "");
    }
  }

  lemma LastDigit(a: string, x: string, b: string, y: string)
    requires |a| == |b|
    ensures a + x == b + y <==> a == b && x == y
  {
    if a + x == b + y {
      assert (a + x)[..|a|] == a && (b + y)[..|b|] == b;
      assert (a + x)[|a|..] == x && (b + y)[|b|..] == y;
    }
  }

  // ---- stamps -----------------------------------------------------------------------------------

  /** The layout 20060102T150405Z. */
  function Stamp(c: Civil): (s: string) {
    Digits(c.year, 4) + (Digits(c.month, 2) + (Digits(c.day, 2) + ("T" + (Digits(c.hour, 2) + (Digits(c.minute, 2) + (Digits(c.second, 2) + "Z"))))))
  }

  lemma FieldOrder(m: nat, n: nat, w: nat, x: string, y: string)
    requires m < Pow10(w) && n < Pow10(w)
    ensures StringLe(Digits(m, w) + x, Digits(n, w) + y) <==> m < n || (m == n && StringLe(x, y))
    ensures Digits(m, w) + x == Digits(n, w) + y <==> m == n && x == y
  {
    DigitsOrder(m, n, w);
    ConcatOrder(Digits(m, w), Digits(n, w), x, y);
    LastDigit(Digits(m, w), x, Digits(n, w), y);
  }

  /** The text order of stamps is the order of time. */
  lemma {:induction false} StampOrder(a: Civil, b: Civil)
    requires Valid(a) && Valid(b)
    ensures StringLe(Stamp(a), Stamp(b)) <==> Seconds(a) <= Seconds(b)
    ensures Stamp(a) == Stamp(b) <==> a == b
  {
    assert Pow10(2) == 100 && Pow10(4) == 10000;
    hide Digits, StringLe, Seconds, Earlier, DaysIn, Leap;
    var sa, sb := Digits(a.second, 2) + "Z", Digits(b.second, 2) + "Z";
    FieldOrder(a.second, b.second, 2, "Z", "Z");
    var ma, mb := Digits(a.minute, 2) + sa, Digits(b.minute, 2) + sb;
    FieldOrder(a.minute, b.minute, 2, sa, sb);
    var ha, hb := Digits(a.hour, 2) + ma, Digits(b.hour, 2) + mb;
    FieldOrder(a.hour, b.hour, 2, ma, mb);
    ConcatOrder("T", "T", ha, hb);
    LastDigit("T", ha, "T", hb);
    DateOrder(a, b, "T" + ha, "T" + hb);
    FieldsAreTime(a, b);
  }

  lemma DateOrder(a: Civil, b: Civil, x: string, y: string)
    requires Valid(a) && Valid(b)
    ensures var s, t := Digits(a.year, 4) + (Digits(a.month, 2) + (Digits(a.day, 2) + x)),
                        Digits(b.year, 4) + (Digits(b.month, 2) + (Digits(b.day, 2) + y));
            && (StringLe(s, t) <==> || a.year < b.year
                                    || (a.year == b.year && (|| a.month < b.month
                                                             || (a.month == b.month && (a.day < b.day || (a.day == b.day && StringLe(x, y)))))))
            && (s == t <==> a.year == b.year && a.month == b.month && a.day == b.day && x == y)
  {
    assert Pow10(2) == 100 && Pow10(4) == 10000;
    var da, db := Digits(a.day, 2) + x, Digits(b.day, 2) + y;
    FieldOrder(a.day, b.day, 2, x, y);
    FieldOrder(a.month, b.month, 2, da, db);
    FieldOrder(a.year, b.year, 4, Digits(a.month, 2) + da, Digits(b.month, 2) + db);
  }

  // ---- the directory --------------------------------------------------------------------------------

  const MAX_BACKUP_ENTRIES := 10_000
  const BATCH := 256

  /** The name of this installation's backup of a second. */
  function NameOf(instance: string, c: Civil): string {
    "picache-backup-" + instance + "-" + (Stamp(c) + ".db")
  }

  lemma {:induction false} NameOrder(instance: string, a: Civil, b: Civil)
    requires Valid(a) && Valid(b)
    ensures StringLe(NameOf(instance, a), NameOf(instance, b)) <==> Seconds(a) <= Seconds(b)
    ensures NameOf(instance, a) == NameOf(instance, b) <==> a == b
  {
    var prefix := "picache-backup-" + instance + "-";
    ConcatOrder(prefix, prefix, Stamp(a) + ".db", Stamp(b) + ".db");
    LastDigit(prefix, Stamp(a) + ".db", prefix, Stamp(b) + ".db");
    ConcatOrder(Stamp(a), Stamp(b), ".db", ".db");
    LastDigit(Stamp(a), ".db", Stamp(b), ".db");
    StampOrder(a, b);
  }

  /** An entry of the directory: one of this installation's backups (a regular
      file with a name of theirs) or anything else. */
  datatype Entry = Backup(stamp: Civil) | Other(name: string)

  /** A directory lists every entry once. */
  ghost predicate Directory(dir: seq<Entry>) {
    && (forall i :: 0 <= i < |dir| && dir[i].Backup? ==> Valid(dir[i].stamp))
    && (forall i, j :: 0 <= i < j < |dir| ==> dir[i] != dir[j])
  }

  /** The names read of a directory: batches of at most 256 until 10000 are read. */
  method Scan(dir: seq<Entry>) returns (seen: seq<Entry>)
    ensures seen <= dir
    ensures |dir| <= 10_000 ==> seen == dir
    ensures |seen| < 10_256
  {
    seen := [];
    while |seen| < MAX_BACKUP_ENTRIES
      invariant seen <= dir && |seen| < MAX_BACKUP_ENTRIES + BATCH
      decreases |dir| - |seen|
    {
      if |seen| == |dir| {
        return;
      }
      var next := if |seen| + BATCH <= |dir| then |seen| + BATCH else |dir|;
      seen := dir[..next];
    }
  }

  function Newer(instance: string): (Civil, Civil) -> bool {
    (a, b) => StringLe(NameOf(instance, b), NameOf(instance, a))
  }

  function Stamped(dir: seq<Entry>): seq<Civil> {
    if dir == [] then []
    else Stamped(dir[..|dir| - 1]) + (if dir[|dir| - 1].Backup? then [dir[|dir| - 1].stamp] else [])
  }

  lemma {:induction false} StampedIn(dir: seq<Entry>, c: Civil)
    ensures c in Stamped(dir) <==> Backup(c) in dir
  {
    if dir != [] {
      StampedIn(dir[..|dir| - 1], c);
      assert dir == dir[..|dir| - 1] + [dir[|dir| - 1]];
    }
  }

  lemma {:induction false} StampedDistinct(dir: seq<Entry>)
    requires Directory(dir)
    ensures Distinct(Stamped(dir)) && forall i :: 0 <= i < |Stamped(dir)| ==> Valid(Stamped(dir)[i])
  {
    if dir != [] {
      var before, e := dir[..|dir| - 1], dir[|dir| - 1];
      StampedDistinct(before);
      if e.Backup? {
        StampedIn(before, e.stamp);
        assert e !in before;
      }
    }
  }

  /** Newest first: strictly falling times. */
  ghost predicate NewestFirst(cs: seq<Civil>) {
    forall i, j :: 0 <= i < j < |cs| ==> Seconds(cs[i]) > Seconds(cs[j])
  }

  /** This installation's backups, newest first, sorted by their names. */
  method List(instance: string, dir: seq<Entry>) returns (files: seq<Civil>)
    requires Directory(dir)
    ensures NewestFirst(files)
    ensures forall c :: c in files ==> Backup(c) in dir && Valid(c)
    ensures |dir| <= 10_000 ==> forall c :: Backup(c) in dir ==> c in files
  {
    var seen := Scan(dir);
    var found := [];
    for i := 0 to |seen|
      invariant found == Stamped(seen[..i])
    {
      assert seen[..i + 1][..i] == seen[..i];
      if seen[i].Backup? {
        found := found + [seen[i].stamp];
      }
    }
    assert seen[..|seen|] == seen;
    files := Sort(found, Newer(instance));
    assert Directory(seen);
    StampedDistinct(seen);
    NewerSorts(instance, found);
    forall c ensures c in found <==> Backup(c) in seen { StampedIn(seen, c); }
  }

  lemma NewerIsOrder(instance: string)
    ensures TotalOrder(Newer(instance))
  {
    StringLeIsOrder();
  }

  lemma NewerSorts(instance: string, found: seq<Civil>)
    requires Distinct(found) && forall i :: 0 <= i < |found| ==> Valid(found[i])
    ensures NewestFirst(Sort(found, Newer(instance)))
    ensures forall c :: c in Sort(found, Newer(instance)) <==> c in found
  {
    var files := Sort(found, Newer(instance));
    NewerIsOrder(instance);
    SortOfDistinct(found, Newer(instance));
    hide Valid, Stamp, NameOf, Seconds;
    forall i, j | 0 <= i < j < |files| ensures Seconds(files[i]) > Seconds(files[j]) {
      assert files[i] in found && files[j] in found;
      NewerMeans(instance, files[i], files[j]);
    }
  }

  lemma NewerMeans(instance: string, a: Civil, b: Civil)
    requires Valid(a) && Valid(b)
    ensures Newer(instance)(a, b) && a != b ==> Seconds(a) > Seconds(b)
  {
    NameOrder(instance, b, a);
    FieldsAreTime(a, b);
  }

  // ---- retention ------------------------------------------------------------------------------------------

  /** The backups of the directory with a later stamp. */
  ghost function Later(dir: set<Entry>, c: Civil): set<Civil> {
    set e | e in dir && e.Backup? && Seconds(e.stamp) > Seconds(c) :: e.stamp
  }

  lemma {:induction false} LaterAre(dir: set<Entry>, files: seq<Civil>, i: nat)
    requires NewestFirst(files) && i < |files|
    requires forall c :: c in files <==> Backup(c) in dir
    ensures |Later(dir, files[i])| == i
  {
    hide Seconds;
    var later := Firsts(files, i);
    InFirsts(files, i, files[i]);
    forall c ensures c in later <==> c in Later(dir, files[i]) {
      InFirsts(files, i, c);
      if c in Later(dir, files[i]) {
        assert Backup(c) in dir;
        var k :| 0 <= k < |files| && files[k] == c;
        assert k < i;
      }
      if c in later {
        var k :| 0 <= k < i && files[k] == c;
        assert c in files && Backup(c) in dir;
      }
    }
    assert later == Later(dir, files[i]);
  }

  ghost function Firsts(files: seq<Civil>, i: nat): set<Civil>
    requires i <= |files|
  {
    if i == 0 then {} else Firsts(files, i - 1) + {files[i - 1]}
  }

  lemma {:induction false} InFirsts(files: seq<Civil>, i: nat, c: Civil)
    requires NewestFirst(files) && i <= |files|
    ensures c in Firsts(files, i) <==> exists k :: 0 <= k < i && files[k] == c
    ensures |Firsts(files, i)| == i
  {
    hide Seconds;
    if i > 0 {
      InFirsts(files, i - 1, c);
      InFirsts(files, i - 1, files[i - 1]);
    }
  }

  /** The data of a directory that prune deletes from. */
  class Folder {
    const instance: string
    var entries: seq<Entry>

    constructor (instance: string, entries: seq<Entry>)
      ensures this.instance == instance && this.entries == entries
    {
      this.instance, this.entries := instance, entries;
    }

    method Remove(c: Civil)
      modifies this
      ensures entries == Removed(old(entries), c)
    {
      entries := Removed(entries, c);
    }

    /** Deletes this installation's backups beyond the keep newest, and nothing
        else: a backup stays exactly when fewer than keep of them carry a later
        stamp. */
    method Prune(keep: nat) returns (n: nat)
      requires Directory(entries)
      modifies this
      ensures forall e :: e in entries ==> e in old(entries)
      ensures forall e :: e in old(entries) && e.Other? ==> e in entries
      ensures |old(entries)| <= 10_000 ==>
                forall e :: e in old(entries) && e.Backup? ==>
                  (e in entries <==> |Later(ToSet(old(entries)), e.stamp)| < keep)
    {
      var files := List(instance, entries);
      n := 0;
      var first := if keep < |files| then keep else |files|;
      for i := first to |files|
        invariant forall e :: e in entries <==> e in old(entries) && !Dropped(files[first..i], e)
      {
        Remove(files[i]);
        n := n + 1;
        assert files[first..i + 1] == files[first..i] + [files[i]];
      }
      assert files[first..|files|] == files[first..];
      if |old(entries)| <= MAX_BACKUP_ENTRIES {
        forall e | e in old(entries) && e.Backup?
          ensures e in entries <==> |Later(ToSet(old(entries)), e.stamp)| < keep
        {
          KeptOrDropped(old(entries), files, keep, e.stamp);
        }
      }
    }
  }

  predicate Dropped(files: seq<Civil>, e: Entry) {
    e.Backup? && e.stamp in files
  }

  lemma KeptOrDropped(dir: seq<Entry>, files: seq<Civil>, keep: nat, c: Civil)
    requires NewestFirst(files) && forall c :: c in files <==> Backup(c) in dir
    requires c in files
    ensures var first := if keep < |files| then keep else |files|;
            c in files[first..] <==> |Later(ToSet(dir), c)| >= keep
  {
    var first := if keep < |files| then keep else |files|;
    var i :| 0 <= i < |files| && files[i] == c;
    LaterAre(ToSet(dir), files, i);
    InTail(files, first, i);
  }

  function ToSet(dir: seq<Entry>): set<Entry> {
    set e | e in dir
  }

  function Removed(dir: seq<Entry>, c: Civil): (r: seq<Entry>)
    ensures forall e :: e in r <==> e in dir && e != Backup(c)
  {
    if dir == [] then []
    else
      assert dir == [dir[0]] + dir[1..];
      if dir[0] == Backup(c) then Removed(dir[1..], c) else [dir[0]] + Removed(dir[1..], c)
  }

  lemma InTail(files: seq<Civil>, first: nat, i: nat)
    requires NewestFirst(files) && first <= |files| && i < |files|
    ensures files[i] in files[first..] <==> i >= first
  {
    if i >= first {
      assert files[first..][i - first] == files[i];
    }
  }
}
