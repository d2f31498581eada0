/** What the consecutive-miss check on its small tail window says about the whole block table. */
module MissWindow {
  import opened Domain
  import opened Tables
  import opened Evaluator

  /** First height of the window of `n` blocks that ends at `latest`. */
  function WindowStart(latest: int, n: int): int {
    if latest - (n - 1) > 0 then latest - (n - 1) else 1
  }

  /** The blocks the consecutive-miss check gets to see. */
  function TailWindow(rows: map<int, Block>, latest: int, threshold: int): seq<Block> {
    Rows(rows, WindowStart(latest, if threshold > 1 then threshold else 1), latest)
  }

  predicate MissedAt(rows: map<int, Block>, h: int) { h in rows && rows[h].signed == 0 }

  /** Length of the run of missed heights that ends at h. */
  function MissRun(rows: map<int, Block>, h: int): nat
    decreases if h > 0 then h else 0
  {
    if h <= 0 || !MissedAt(rows, h) then 0 else 1 + MissRun(rows, h - 1)
  }

  lemma {:induction false} RowsLength(rows: map<int, Block>, from: int, last: int)
    ensures |Rows(rows, from, last)| <= if from > last then 0 else last - from + 1
    ensures from <= last ==> (|Rows(rows, from, last)| == last - from + 1 <==> forall h :: from <= h <= last ==> h in rows)
    decreases last - from + 1
  {
    if from <= last {
      RowsLength(rows, from, last - 1);
      if forall h :: from <= h <= last ==> h in rows {
        assert forall h :: from <= h <= last - 1 ==> h in rows;
      }
    }
  }

  lemma {:induction false} StreakSnoc(below: seq<Block>, b: Block)
    ensures TrailingMisses(below) <= |below|
    ensures TrailingMisses(below + [b]) == |below| + 1 <==> TrailingMisses(below) == |below| && b.signed == 0
  {
    assert (below + [b])[..|below|] == below;
  }

  lemma {:induction false} AllMissed(rows: map<int, Block>, from: int, last: int)
    requires forall h :: from <= h <= last ==> h in rows
    ensures TrailingMisses(Rows(rows, from, last)) == |Rows(rows, from, last)| <==> forall h :: from <= h <= last ==> MissedAt(rows, h)
    decreases last - from + 1
  {
    if from <= last {
      AllMissed(rows, from, last - 1);
      var all := Rows(rows, from, last);
      var below := Rows(rows, from, last - 1);
      assert last in rows && all == below + [rows[last]];
      hide TrailingMisses, Rows;
      StreakSnoc(below, rows[last]);
      assert (forall h :: from <= h <= last ==> MissedAt(rows, h))
        <==> MissedAt(rows, last) && forall h :: from <= h <= last - 1 ==> MissedAt(rows, h);
    }
  }

  /**
   * On any table, gaps included, the check is breached exactly when each of the last `threshold`
   * heights is stored as a miss. A block outside the active set or a missing row prevents it.
   */
  lemma BreachIff(rows: map<int, Block>, latest: int, threshold: int)
    requires threshold > 0
    ensures TrailingMisses(SliceLast(TailWindow(rows, latest, threshold), threshold)) >= threshold
            <==> latest >= threshold && forall h :: latest - threshold < h <= latest ==> MissedAt(rows, h)
  {
    var from := WindowStart(latest, threshold);
    var window := TailWindow(rows, latest, threshold);
    RowsLength(rows, from, latest);
    assert SliceLast(window, threshold) == window;
    if latest >= threshold {
      if forall h :: from <= h <= latest ==> h in rows {
        AllMissed(rows, from, latest);
      } else {
        var h :| from <= h <= latest && h !in rows;
        assert !MissedAt(rows, h);
      }
    }
  }

  /** What the check does on any table, in terms of the last `threshold` heights alone. */
  lemma MissEventsIff(cfg: AlertConfig, rows: map<int, Block>, latest: int, open: seq<Alert>, now: int, id: nat)
    requires cfg.missThreshold > 0
    ensures
      var n := cfg.missThreshold;
      var events := CheckConsecutiveMiss(cfg, SliceLast(TailWindow(rows, latest, n), n), open, now, id);
      var existing := LastOfKind(open, ConsecutiveMiss);
      var allMissed := latest >= n && forall h :: latest - n < h <= latest ==> MissedAt(rows, h);
      && |events| <= 1
      && ((exists e <- events :: e.Open?) <==> cfg.missEnabled && allMissed && existing.None?)
      && ((exists e <- events :: e.Close?) <==> cfg.missEnabled && !allMissed && existing.Some?)
      && ((exists e <- events :: e.Repeat?) <==>
          cfg.missEnabled && allMissed && existing.Some? && cfg.missRepeat && MissRepeatDue(cfg, existing.value, now))
      && (forall e <- events :: !e.Open? ==> e.alert == existing.value)
  {
    BreachIff(rows, latest, cfg.missThreshold);
    hide TrailingMisses, SliceLast, TailWindow, MissedAt;
    var n := cfg.missThreshold;
    var events := CheckConsecutiveMiss(cfg, SliceLast(TailWindow(rows, latest, n), n), open, now, id);
    assert events != [] ==> events[0] in events;
  }

  /** The percentage check in terms of the heights of its window: misses per hundred heights that count. */
  lemma PercentEventsIff(cfg: AlertConfig, rows: map<int, Block>, from: int, last: int, open: seq<Alert>, now: int, id: nat)
    ensures
      var events := CheckPercentageMiss(cfg, Stats(rows, from, last), open, now, id);
      var existing := LastOfKind(open, PercentageMiss);
      var total, missed := |Counted(rows, from, last)|, |Missed(rows, from, last)|;
      var breached := missed as real * 100.0 >= cfg.percentThreshold * total as real;
      && |events| <= 1
      && ((exists e <- events :: e.Open?) <==> cfg.percentEnabled && total > 0 && breached && existing.None?)
      && ((exists e <- events :: e.Close?) <==> cfg.percentEnabled && total > 0 && !breached && existing.Some?)
      && ((exists e <- events :: e.Repeat?) <==>
          && cfg.percentEnabled && total > 0 && breached && existing.Some? && cfg.percentRepeat
          && missed as real * 100.0 >= cfg.percentThreshold * Escalation(existing.value.repeatCount + 1) * total as real)
  {
    StatsCount(rows, from, last);
    hide *;
    PercentEventsOfStats(cfg, Stats(rows, from, last), open, now, id);
  }

  lemma PercentEventsOfStats(cfg: AlertConfig, stats: WindowStats, open: seq<Alert>, now: int, id: nat)
    ensures
      var events := CheckPercentageMiss(cfg, stats, open, now, id);
      var existing := LastOfKind(open, PercentageMiss);
      var breached := stats.missed as real * 100.0 >= cfg.percentThreshold * stats.total as real;
      && |events| <= 1
      && ((exists e <- events :: e.Open?) <==> cfg.percentEnabled && stats.total > 0 && breached && existing.None?)
      && ((exists e <- events :: e.Close?) <==> cfg.percentEnabled && stats.total > 0 && !breached && existing.Some?)
      && ((exists e <- events :: e.Repeat?) <==>
          && cfg.percentEnabled && stats.total > 0 && breached && existing.Some? && cfg.percentRepeat
          && stats.missed as real * 100.0 >= cfg.percentThreshold * Escalation(existing.value.repeatCount + 1) * stats.total as real)
  {
    hide Escalation, Ratio, LastOfKind;
    var existing := LastOfKind(open, PercentageMiss);
    if stats.total > 0 {
      RatioAtLeastIff(stats, cfg.percentThreshold);
      if existing.Some? {
        RatioAtLeastIff(stats, cfg.percentThreshold * Escalation(existing.value.repeatCount + 1));
      }
    }
    var events := CheckPercentageMiss(cfg, stats, open, now, id);
    assert events != [] ==> events[0] in events;
  }

  lemma RatioAtLeastIff(stats: WindowStats, x: real)
    requires stats.total > 0
    ensures Ratio(stats) >= x <==> stats.missed as real * 100.0 >= x * stats.total as real
  {
    var m, t := stats.missed as real, stats.total as real;
    assert Ratio(stats) * t == m * 100.0;
  }

  /** The table holds exactly the heights from seed to latest. */
  ghost predicate Contiguous(rows: map<int, Block>, seed: int, latest: int) {
    1 <= seed <= latest && forall h :: h in rows <==> seed <= h <= latest
  }

  lemma {:induction false} TrailingRun(rows: map<int, Block>, seed: int, latest: int, from: int, last: int)
    requires Contiguous(rows, seed, latest) && 1 <= from && last <= latest
    ensures TrailingMisses(Rows(rows, from, last)) == Min(if from <= last then last - from + 1 else 0, MissRun(rows, last))
    decreases last - from + 1
  {
    if from <= last {
      TrailingRun(rows, seed, latest, from, last - 1);
      var all := Rows(rows, from, last);
      if last in rows {
        assert all[..|all| - 1] == Rows(rows, from, last - 1);
      } else {
        assert last < seed;
        BelowSeed(rows, seed, latest, from, last);
      }
    }
  }

  lemma {:induction false} BelowSeed(rows: map<int, Block>, seed: int, latest: int, from: int, last: int)
    requires Contiguous(rows, seed, latest) && last < seed
    ensures Rows(rows, from, last) == []
    decreases last - from + 1
  {
    if from <= last {
      BelowSeed(rows, seed, latest, from, last - 1);
    }
  }

  function Min(a: int, b: int): int { if a <= b then a else b }

  /** On a contiguous table the counted streak is the true one, cut off at the threshold. */
  lemma StreakOnContiguous(rows: map<int, Block>, seed: int, latest: int, threshold: int)
    requires threshold > 0 && Contiguous(rows, seed, latest)
    ensures TrailingMisses(SliceLast(TailWindow(rows, latest, threshold), threshold)) == Min(threshold, MissRun(rows, latest))
  {
    var from := WindowStart(latest, threshold);
    RowsLength(rows, from, latest);
    assert SliceLast(TailWindow(rows, latest, threshold), threshold) == Rows(rows, from, latest);
    TrailingRun(rows, seed, latest, from, latest);
    MissRunBounded(rows, latest);
  }

  lemma {:induction false} MissRunBounded(rows: map<int, Block>, h: int)
    ensures MissRun(rows, h) <= if h > 0 then h else 0
    decreases if h > 0 then h else 0
  {
    if h > 0 {
      MissRunBounded(rows, h - 1);
    }
  }

  lemma {:induction false} RowsSplit(rows: map<int, Block>, from: int, mid: int, last: int)
    requires from <= mid + 1 && mid <= last
    ensures Rows(rows, from, last) == Rows(rows, from, mid) + Rows(rows, mid + 1, last)
    decreases last - mid
  {
    if mid < last {
      RowsSplit(rows, from, mid, last - 1);
    }
  }

  /** Fetching only the tail decides like fetching everything: on a contiguous table both leave the same last blocks. */
  lemma WindowIsTail(rows: map<int, Block>, seed: int, latest: int, threshold: int)
    requires threshold > 0 && Contiguous(rows, seed, latest)
    ensures SliceLast(TailWindow(rows, latest, threshold), threshold) == SliceLast(Rows(rows, 1, latest), threshold)
  {
    var from := WindowStart(latest, threshold);
    RowsSplit(rows, 1, from - 1, latest);
    RowsLength(rows, from, latest);
    if from <= seed {
      BelowSeed(rows, seed, latest, 1, from - 1);
      assert Rows(rows, 1, latest) == Rows(rows, from, latest);
    } else {
      assert |Rows(rows, from, latest)| == threshold;
      assert SliceLast(Rows(rows, 1, latest), threshold) == Rows(rows, from, latest);
    }
  }
}
