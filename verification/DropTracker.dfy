/**
 The recent drops of a log sink: three fields per sink stand for the whole
 history of its cumulative dropped counts.
 */
module DropTracker {

  const DROP_WINDOW := 600 // seconds

  datatype Observation = Observation(dropped: int, now: int)

  /** The count grew: when, from and to what. */
  datatype Growth = Growth(at: int, from: int, to: int)

  // ---- what a history says ------------------------------------------------------------

  /** The highest count seen, 0 before any. */
  function Highest(growths: seq<Growth>): int {
    if growths == [] then 0 else growths[|growths| - 1].to
  }

  function Growths(history: seq<Observation>): seq<Growth> {
    if history == [] then []
    else
      var before, o := Growths(history[..|history| - 1]), history[|history| - 1];
      if o.dropped > Highest(before) then before + [Growth(o.now, Highest(before), o.dropped)] else before
  }

  /** The count of an observation is higher than all before it, and more than 0. */
  ghost predicate IsHigher(history: seq<Observation>, k: nat) {
    k < |history| && history[k].dropped > 0 && forall j :: 0 <= j < k ==> history[j].dropped < history[k].dropped
  }

  predicate GrewAt(growths: seq<Growth>, o: Observation) {
    exists i :: 0 <= i < |growths| && growths[i].at == o.now && growths[i].to == o.dropped
  }

  ghost predicate Exceeds(history: seq<Observation>, g: Growth) {
    exists k: nat :: IsHigher(history, k) && history[k].now == g.at && history[k].dropped == g.to
  }

  /** h is the highest count of the history, 0 when there is none above it. */
  ghost predicate IsHighest(history: seq<Observation>, h: int) {
    h >= 0 && (forall o <- history :: o.dropped <= h) && (h == 0 || exists o <- history :: o.dropped == h)
  }

  lemma {:induction false} HighestIs(history: seq<Observation>)
    ensures IsHighest(history, Highest(Growths(history)))
  {
    if history != [] {
      var n := |history| - 1;
      HighestIs(history[..n]);
      assert history == history[..n] + [history[n]];
      assert history[n] in history;
    }
  }

  /** The last observation is higher than all before it exactly when it is above the
      highest count. */
  lemma LastHigher(before: seq<Observation>, o: Observation, h: int)
    requires IsHighest(before, h)
    ensures IsHigher(before + [o], |before|) <==> o.dropped > h
  {
    var history := before + [o];
    assert forall j :: 0 <= j < |before| ==> history[j] == before[j] && before[j] in before;
    if o.dropped <= h && h > 0 {
      var p :| p in before && p.dropped == h;
      var j :| 0 <= j < |before| && before[j] == p;
      assert history[j].dropped >= o.dropped;
    }
  }

  lemma SameHigher(before: seq<Observation>, o: Observation, k: nat)
    requires k < |before|
    ensures IsHigher(before + [o], k) <==> IsHigher(before, k)
  {
    var history := before + [o];
    assert forall j :: 0 <= j < |before| ==> history[j] == before[j];
  }

  /** The count grows exactly at the observations that are higher than all before them. */
  lemma {:induction false} GrowthsMean(history: seq<Observation>)
    ensures forall g <- Growths(history) :: Exceeds(history, g)
    ensures forall k: nat :: IsHigher(history, k) ==> GrewAt(Growths(history), history[k])
  {
    if history != [] {
      var n := |history| - 1;
      var before, o := history[..n], history[n];
      GrowthsMean(before);
      HighestIs(before);
      LastHigher(before, o, Highest(Growths(before)));
      assert history == before + [o];
      hide IsHigher, Highest, IsHighest;
      var was := Growths(before);
      forall g | g in Growths(history) ensures Exceeds(history, g) {
        if g in was {
          StillExceeds(before, o, g);
        } else {
          assert IsHigher(history, n) && history[n].now == g.at && history[n].dropped == g.to;
        }
      }
      forall k: nat | IsHigher(history, k) ensures GrewAt(Growths(history), history[k]) {
        HigherIn(history, k);
        if k < n {
          SameHigher(before, o, k);
          var i :| 0 <= i < |was| && was[i].at == before[k].now && was[i].to == before[k].dropped;
          assert Growths(history)[i] == was[i];
        } else {
          assert Growths(history)[|was|] == Growth(o.now, Highest(was), o.dropped);
        }
      }
    }
  }

  lemma StillExceeds(before: seq<Observation>, o: Observation, g: Growth)
    requires Exceeds(before, g)
    ensures Exceeds(before + [o], g)
  {
    var k: nat :| IsHigher(before, k) && before[k].now == g.at && before[k].dropped == g.to;
    SameHigher(before, o, k);
    assert (before + [o])[k] == before[k];
  }

  lemma HigherIn(history: seq<Observation>, k: nat)
    requires IsHigher(history, k)
    ensures k < |history|
  {
  }

  /** Where the latest episode starts. */
  function EpisodeStart(growths: seq<Growth>): (start: nat)
    ensures growths != [] ==> start < |growths|
  {
    var n := |growths|;
    if n <= 1 then 0
    else if growths[n - 1].at - growths[n - 2].at > DROP_WINDOW then n - 1
    else EpisodeStart(growths[..n - 1])
  }

  /** The latest episode is the longest run of growths at the end with no gap of
      more than the window. */
  lemma {:induction false} EpisodeIsMaximal(growths: seq<Growth>)
    requires growths != []
    ensures var start := EpisodeStart(growths);
            && (forall i :: start < i < |growths| ==> growths[i].at - growths[i - 1].at <= 600)
            && (start > 0 ==> growths[start].at - growths[start - 1].at > 600)
  {
    var n := |growths|;
    if n > 1 && growths[n - 1].at - growths[n - 2].at <= DROP_WINDOW {
      EpisodeIsMaximal(growths[..n - 1]);
    }
  }

  function Total(growths: seq<Growth>): int {
    if growths == [] then 0 else growths[0].to - growths[0].from + Total(growths[1..])
  }

  ghost predicate Chained(growths: seq<Growth>) {
    && (forall i :: 0 <= i < |growths| ==> growths[i].from < growths[i].to)
    && (forall i :: 0 < i < |growths| ==> growths[i].from == growths[i - 1].to)
  }

  lemma {:induction false} GrowthsChained(history: seq<Observation>)
    ensures Chained(Growths(history))
  {
    if history != [] {
      GrowthsChained(history[..|history| - 1]);
    }
  }

  lemma {:induction false} TotalFrom(growths: seq<Growth>, start: nat)
    requires start < |growths| && Chained(growths)
    ensures Total(growths[start..]) == growths[|growths| - 1].to - growths[start].from
    decreases |growths| - start
  {
    assert growths[start..][1..] == growths[start + 1..];
    if start + 1 < |growths| {
      TotalFrom(growths, start + 1);
    }
  }

  /** What the sink dropped in its latest episode, while the last growth is in
      the window. */
  function Recent(history: seq<Observation>, now: int): int {
    var growths := Growths(history);
    if growths == [] || now - growths[|growths| - 1].at > 600 then 0
    else Total(growths[EpisodeStart(growths)..])
  }

  // ---- the code ---------------------------------------------------------------------------

  datatype Mark = Mark(count: int, base: int, grown: bool, grew: int)

  ghost predicate StandsFor(m: Mark, growths: seq<Growth>) {
    if growths == [] then m == Mark(0, 0, false, 0)
    else m == Mark(Highest(growths), growths[EpisodeStart(growths)].from, true, growths[|growths| - 1].at)
  }

  lemma MarkGrows(m: Mark, growths: seq<Growth>, g: Growth)
    requires StandsFor(m, growths) && g.from == m.count
    ensures StandsFor(Mark(g.to, if !m.grown || g.at - m.grew > DROP_WINDOW then m.count else m.base, true, g.at), growths + [g])
  {
    var next := growths + [g];
    assert next[..|growths|] == growths;
    if growths != [] && g.at - m.grew <= DROP_WINDOW {
      assert EpisodeStart(next) == EpisodeStart(growths);
    }
  }

  lemma {:induction false} EpisodeTotal(m: Mark, history: seq<Observation>)
    requires StandsFor(m, Growths(history)) && m.grown
    ensures m.count - m.base == Total(Growths(history)[EpisodeStart(Growths(history))..])
  {
    GrowthsChained(history);
    TotalFrom(Growths(history), EpisodeStart(Growths(history)));
  }

  class DropTracker {
    var seen: map<string, Mark>
    ghost var histories: map<string, seq<Observation>>

    static function HistoryOf(histories: map<string, seq<Observation>>, key: string): seq<Observation> {
      if key in histories then histories[key] else []
    }

    static function MarkOf(seen: map<string, Mark>, key: string): Mark {
      if key in seen then seen[key] else Mark(0, 0, false, 0)
    }

    ghost predicate Valid()
      reads this
    {
      forall key :: StandsFor(MarkOf(seen, key), Growths(HistoryOf(histories, key)))
    }

    constructor ()
      ensures Valid() && histories == map[]
    {
      seen, histories := map[], map[];
    }

    /** Observes the dropped count of a sink: what it dropped in its latest
        episode. */
    method RecentDrops(kind: string, target: string, dropped: int, now: int) returns (recent: int)
      requires Valid()
      modifies this
      ensures Valid()
      ensures var key := kind + " " + target;
              && histories == old(histories)[key := (if key in old(histories) then old(histories)[key] else []) + [Observation(dropped, now)]]
              && recent == Recent(histories[key], now)
    {
      hide StandsFor, Growths, Recent, EpisodeStart, Total;
      var key := kind + " " + target;
      ghost var before := HistoryOf(histories, key);
      var m := MarkOf(seen, key);
      MarkNext(m, before, Observation(dropped, now));
      if dropped > m.count {
        if !m.grown || now - m.grew > DROP_WINDOW {
          m := m.(base := m.count); // a new episode
        }
        m := m.(count := dropped, grown := true, grew := now);
        seen := seen[key := m];
      }
      ghost var was := histories;
      histories := histories[key := before + [Observation(dropped, now)]];
      forall k ensures StandsFor(MarkOf(seen, k), Growths(HistoryOf(histories, k))) {
        if k != key {
          assert HistoryOf(histories, k) == HistoryOf(was, k);
        }
      }
      RecentIs(m, histories[key], now);
      if !m.grown || now - m.grew > DROP_WINDOW {
        return 0;
      }
      return m.count - m.base;
    }
  }

  /** The entry after one more observation. */
  lemma MarkNext(m: Mark, before: seq<Observation>, o: Observation)
    requires StandsFor(m, Growths(before))
    ensures StandsFor(if o.dropped <= m.count then m
                      else Mark(o.dropped, if !m.grown || o.now - m.grew > DROP_WINDOW then m.count else m.base, true, o.now),
                      Growths(before + [o]))
  {
    assert (before + [o])[..|before|] == before;
    if o.dropped > m.count {
      MarkGrows(m, Growths(before), Growth(o.now, m.count, o.dropped));
    }
  }

  lemma RecentIs(m: Mark, history: seq<Observation>, now: int)
    requires StandsFor(m, Growths(history))
    ensures Recent(history, now) == if !m.grown || now - m.grew > DROP_WINDOW then 0 else m.count - m.base
  {
    if m.grown {
      EpisodeTotal(m, history);
    }
  }
}
