/** How fast a backlog of blocks is worked off, and what can stop it. */
module CatchUp {
  import opened Domain
  import opened Tables
  import opened Attribution
  import opened Worker
  import opened Ingestion

  function Min(a: int, b: int): int { if a <= b then a else b }

  // ---- what one slice yields ----------------------------------------------

  predicate Keeps(s: Slice, h: int) { FateOf(s, h).Keep? && FateOf(s, h).commit.height == h }

  /** Everything below `stop` is kept and `stop` halts: the slice yields exactly the heights up to there. */
  lemma {:induction false} FullSlice(s: Slice, h: int, last: int, stop: int, cache: Cache)
    requires h <= stop && (forall x :: h <= x < stop ==> Keeps(s, x)) && FateOf(s, stop).Halt?
    ensures
      var blocks := Collect(s, h, last, cache).blocks;
      && |blocks| == (if h <= Min(last, stop - 1) then Min(last, stop - 1) - h + 1 else 0)
      && (forall i :: 0 <= i < |blocks| ==> blocks[i].height == h + i)
    decreases last - h + 1
  {
    if h <= last && h < stop {
      assert Keeps(s, h);
      var c := FateOf(s, h).commit;
      var verdict := Judge(c, s.who);
      var after := if verdict.Settled? then cache else Resolve(cache, s.lookup(c.height)).1;
      FullSlice(s, h + 1, last, stop, after);
      var rest := Collect(s, h + 1, last, after).blocks;
      var blocks := Collect(s, h, last, cache).blocks;
      assert blocks[0].height == h && blocks[1..] == rest;
      forall i | 0 <= i < |blocks| ensures blocks[i].height == h + i {
        if i > 0 { assert blocks[i] == rest[i - 1]; }
      }
    }
  }

  /** A slice yields something exactly when some height is kept before the first one that halts it. */
  lemma {:induction false} SliceAdvancesIff(s: Slice, h: int, last: int, cache: Cache)
    ensures Collect(s, h, last, cache).blocks != []
            <==> exists x :: h <= x <= last && FateOf(s, x).Keep? && forall y :: h <= y < x ==> !FateOf(s, y).Halt?
    decreases last - h + 1
  {
    if h <= last {
      if FateOf(s, h).Skip? {
        SliceAdvancesIff(s, h + 1, last, cache);
        if x :| h <= x <= last && FateOf(s, x).Keep? && forall y :: h <= y < x ==> !FateOf(s, y).Halt? {
          assert h + 1 <= x;
        }
        if x :| h + 1 <= x <= last && FateOf(s, x).Keep? && forall y :: h + 1 <= y < x ==> !FateOf(s, y).Halt? {
          assert forall y :: h <= y < x ==> !FateOf(s, y).Halt?;
        }
      } else if FateOf(s, h).Keep? {
        assert forall y :: h <= y < h ==> !FateOf(s, y).Halt?;
      }
    }
  }

  // ---- one poll -----------------------------------------------------------

  /** Nothing after the storing step touches the block table. */
  lemma {:induction false} BlocksSettled(cfg: Config, s: Store, input: PollInput, ph: Phase)
    requires Rank(ph) <= 2
    ensures Complete(cfg, s, input, ph).tables.blocks == s.tables.blocks
    decreases Rank(ph), Todo(ph)
  {
    if !ph.Done? {
      var (s', ph') := Advance(cfg, s, input, ph);
      BlocksSettled(cfg, s', input, ph');
    }
  }

  /** The tip stays at `tip`, still being finalised, and every height from `d` up to it can be had. */
  ghost predicate SteadyTip(input: PollInput, d: int, tip: int) {
    && input.alertsReadable && input.heightReadable && (input.appendOk || input.insertOk)
    && input.tip.Some? && input.tip.value.height == tip
    && (forall h :: d < h < tip ==>
          && input.commit(h).Fetched? && input.commit(h).convertible
          && input.commit(h).commit.height == h && input.commit(h).commit.canonical != Some(false))
    && input.commit(tip).Fetched? && input.commit(tip).commit.canonical == Some(false)
  }

  lemma SteadyBatch(cfg: Config, p: Plan, input: PollInput, d: int, from: int, tip: int)
    requires MaxBlocks(cfg) > 0 && SteadyTip(input, d, tip)
    requires p.dbHeight == Some(from) && d <= from < tip && p.tip == input.tip.value
    ensures
      var batch := CollectedBy(cfg, p, input).blocks;
      && |batch| == Min(tip - 1, from + MaxBlocks(cfg)) - from
      && (forall i :: 0 <= i < |batch| ==> batch[i].height == from + 1 + i)
  {
    hide Collect;
    var slice := SliceOf(cfg, p, input);
    forall x | from + 1 <= x < tip ensures Keeps(slice, x) {
      assert input.commit(x).Fetched?;
    }
    FullSlice(slice, from + 1, LastHeight(cfg, p), tip, Cache(None, LastKnownActive(p)));
  }

  /** One poll stores the next MaxBlocks heights, or all that are left below the tip. */
  lemma PollAdvances(cfg: Config, s: Store, input: PollInput, d: int, from: int, tip: int)
    requires MaxBlocks(cfg) > 0 && SteadyTip(input, d, tip)
    requires Latest(s.tables.blocks) == Some(from) && d <= from < tip
    ensures Latest(Complete(cfg, s, input, Start).tables.blocks) == Some(Min(tip - 1, from + MaxBlocks(cfg)))
  {
    hide Complete, CollectedBy, Latest, UpToJudging, UnclosedPage, WithBlocks, InsertableNow, StatusAt, NewestOngoing,
      OngoingStarts, MaxBlocks;
    var p := ComesToJudging(cfg, s, input);
    var batch := CollectedBy(cfg, p, input).blocks;
    SteadyBatch(cfg, p, input, d, from, tip);
    TopOf(s.tables.blocks, batch, from);
    StoresBatch(cfg, s, input, p);
    BlocksSettled(cfg, UpToJudging(cfg, s, input, p), input, Judging(p, batch));
  }

  /** What is fetched is stored when either statement goes through. */
  lemma StoresBatch(cfg: Config, s: Store, input: PollInput, p: Plan)
    requires (input.appendOk || input.insertOk) && InsertableNow(s.tables.blocks, CollectedBy(cfg, p, input).blocks)
    ensures UpToJudging(cfg, s, input, p).tables.blocks == WithBlocks(s.tables.blocks, CollectedBy(cfg, p, input).blocks)
  {
    hide CollectedBy, InsertableNow, RecordedBy, OriginWith;
  }

  /**
   * Whether a poll makes progress, gaps allowed or not: with its reads answered and one of its statements
   * going through, it stores something if and only if some height of its slice is kept before the first
   * one that halts it.
   */
  lemma PollStoresIff(cfg: Config, s: Store, input: PollInput, p: Plan)
    requires input.alertsReadable && input.heightReadable && input.tip.Some? && (input.appendOk || input.insertOk)
    requires p == PlanFor(cfg, s.tables, input, UnclosedPage(s.tables.alerts, s.nextId))
    requires InsertableNow(s.tables.blocks, CollectedBy(cfg, p, input).blocks)
    ensures
      var slice := SliceOf(cfg, p, input);
      Complete(cfg, s, input, Start).tables.blocks != s.tables.blocks
      <==> exists x :: FirstHeight(p) <= x <= LastHeight(cfg, p) && FateOf(slice, x).Keep?
                       && forall y :: FirstHeight(p) <= y < x ==> !FateOf(slice, y).Halt?
  {
    hide Complete, Collect, UpToJudging, UnclosedPage, WithBlocks, InsertableNow, FateOf, SliceOf, FirstHeight, LastHeight;
    SliceAdvancesIff(SliceOf(cfg, p, input), FirstHeight(p), LastHeight(cfg, p), Cache(None, LastKnownActive(p)));
    var batch := CollectedBy(cfg, p, input).blocks;
    GrowsIff(s.tables.blocks, batch);
    var q := ComesToJudging(cfg, s, input);
    StoresBatch(cfg, s, input, p);
    BlocksSettled(cfg, UpToJudging(cfg, s, input, p), input, Judging(p, batch));
  }

  lemma GrowsIff(rows: map<int, Block>, batch: seq<Block>)
    requires InsertableNow(rows, batch)
    ensures WithBlocks(rows, batch) != rows <==> batch != []
  {
    if batch != [] {
      assert batch[0] in batch && batch[0].height in WithBlocks(rows, batch);
    }
  }

  lemma TopOf(rows: map<int, Block>, batch: seq<Block>, from: int)
    requires Latest(rows) == Some(from) && forall i :: 0 <= i < |batch| ==> batch[i].height == from + 1 + i
    ensures Latest(WithBlocks(rows, batch)) == Some(from + |batch|) && InsertableNow(rows, batch)
  {
    var rows' := WithBlocks(rows, batch);
    if batch == [] {
      assert rows' == rows;
    } else {
      assert batch[|batch| - 1] in batch && from + |batch| in rows';
      assert forall h :: h in rows' ==> h <= from + |batch|;
    }
  }

  // ---- where a poll starts and stops --------------------------------------

  function Max(a: int, b: int): int { if a >= b then a else b }

  /** The height a poll starts from: above the newest stored block, or on an empty table one below the tip, but at least 1. */
  ghost predicate StartsAt(rows: map<int, Block>, tip: int, first: int) {
    if rows == map[] then first == Max(tip - 1, 1)
    else first - 1 in rows && forall h <- rows :: h < first
  }

  /** The commit can be had, turned into a block, and is not called provisional. */
  predicate Final(answer: CommitAnswer) {
    answer.Fetched? && answer.convertible && answer.commit.canonical != Some(false)
  }

  /** A provisional commit ends the poll's slice, and so does one that cannot be had unless gaps are allowed. */
  predicate Ends(answer: CommitAnswer, allowGaps: bool) {
    if answer.Fetched? && answer.commit.canonical == Some(false) then true else Failed(answer) && !allowGaps
  }

  lemma EndsIff(s: Slice, h: int)
    ensures Final(s.commit(h)) <==> FateOf(s, h).Keep?
    ensures Ends(s.commit(h), s.allowGaps) <==> FateOf(s, h).Halt?
  {
  }

  lemma {:induction false} SliceHeights(s: Slice, h: int, last: int, cache: Cache, x: int)
    requires Honest(s.commit)
    ensures x in Heights(Collect(s, h, last, cache).blocks)
            <==> h <= x <= last && Final(s.commit(x)) && forall y :: h <= y < x ==> !Ends(s.commit(y), s.allowGaps)
    decreases last - h + 1
  {
    hide Final, Ends, MadeFrom;
    EndsIff(s, h);
    if h <= last && !FateOf(s, h).Halt? {
      var after := if FateOf(s, h).Keep? && Judge(FateOf(s, h).commit, s.who).Doubtful? then Resolve(cache, s.lookup(h)).1 else cache;
      SliceHeights(s, h + 1, last, after, x);
      var rest := Collect(s, h + 1, last, after).blocks;
      hide Judge, Resolve;
      if FateOf(s, h).Keep? {
        var b := Collect(s, h, last, cache).blocks[0];
        assert Collect(s, h, last, cache).blocks == [b] + rest && b.height == h;
        HeightsCons(b, rest);
      }
      assert (forall y :: h <= y < x ==> !Ends(s.commit(y), s.allowGaps))
        <==> (h < x ==> !Ends(s.commit(h), s.allowGaps)) && forall y :: h + 1 <= y < x ==> !Ends(s.commit(y), s.allowGaps);
    }
  }

  /** Whatever a poll cannot read, its block table ends up as before or with the whole batch on top. */
  lemma PollStores(cfg: Config, s: Store, input: PollInput) returns (batch: seq<Block>)
    ensures
      var rows := Complete(cfg, s, input, Start).tables.blocks;
      && batch == (if input.tip.Some? then CollectedBy(cfg, PlanFor(cfg, s.tables, input, UnclosedPage(s.tables.alerts, s.nextId)), input).blocks else [])
      && (rows == s.tables.blocks || (InsertableNow(s.tables.blocks, batch) && rows == WithBlocks(s.tables.blocks, batch)))
  {
    hide Complete, Advance, CollectedBy, PlanFor, UnclosedPage, InsertableNow, RecordedBy, OriginWith;
    var open := UnclosedPage(s.tables.alerts, s.nextId);
    batch := [];
    if input.tip.Some? {
      batch := CollectedBy(cfg, PlanFor(cfg, s.tables, input, open), input).blocks;
    }
    if input.alertsReadable && input.heightReadable && input.tip.Some? {
      var p := ComesToJudging(cfg, s, input);
      BlocksSettled(cfg, UpToJudging(cfg, s, input, p), input, Judging(p, batch));
    } else {
      StartUnfolds(cfg, s, input);
      ObservingUnfolds(cfg, s, input, open);
      if input.alertsReadable {
        var next := WithEndpoints(cfg, s, input, open, []);
        BlocksSettled(cfg, next.0, input, next.1);
      }
    }
  }

  /** What a poll collects lies above all that is stored, in ascending order. */
  lemma BatchAbove(cfg: Config, p: Plan, input: PollInput, rows: map<int, Block>)
    requires Honest(input.commit) && p.dbHeight == Latest(rows)
    ensures
      var batch := CollectedBy(cfg, p, input).blocks;
      InsertableNow(rows, batch) && Ingestion.Ascending(batch) && forall h <- rows, b <- batch :: h < b.height
  {
    var batch := CollectedBy(cfg, p, input).blocks;
    CollectedSlice(SliceOf(cfg, p, input), FirstHeight(p), LastHeight(cfg, p), Cache(None, LastKnownActive(p)));
    hide CollectedBy, MadeFrom, Covers, LastHeight, SliceOf;
    assert forall b <- batch :: FirstHeight(p) <= b.height;
    forall h, b | h in rows && b in batch ensures h < b.height {
      assert p.dbHeight.Some?;
    }
  }

  /**
   * Exactly what a poll stores whose reads are answered and one of whose statements goes through: each height
   * from where it starts up to the tip, but no more than the limit, 100 if none is configured, whose commit is
   * final and that lies below the first one to end the slice.
   */
  lemma StoresExactly(cfg: Config, s: Store, input: PollInput, first: int, h: int)
    requires Honest(input.commit) && input.alertsReadable && input.heightReadable && input.tip.Some? && (input.appendOk || input.insertOk)
    requires StartsAt(s.tables.blocks, input.tip.value.height, first)
    ensures
      var rows := Complete(cfg, s, input, Start).tables.blocks;
      h in rows.Keys - s.tables.blocks.Keys
      <==> && first <= h <= input.tip.value.height && h < first + cfg.maxBlocksPerPoll.GetOr(100)
           && Final(input.commit(h)) && forall y :: first <= y < h ==> !Ends(input.commit(y), cfg.allowBlockGaps)
  {
    hide Complete, UpToJudging, UnclosedPage, InsertableNow, StatusAt, NewestOngoing;
    var p := ComesToJudging(cfg, s, input);
    assert FirstHeight(p) == first;
    var slice, batch := SliceOf(cfg, p, input), CollectedBy(cfg, p, input).blocks;
    SliceHeights(slice, first, LastHeight(cfg, p), Cache(None, LastKnownActive(p)), h);
    BatchAbove(cfg, p, input, s.tables.blocks);
    hide Collect, Final, Ends, Latest;
    StoresBatch(cfg, s, input, p);
    BlocksSettled(cfg, UpToJudging(cfg, s, input, p), input, Judging(p, batch));
    assert WithBlocks(s.tables.blocks, batch).Keys - s.tables.blocks.Keys == Heights(batch);
  }

  /** An empty table is seeded with the newest settled block, one below a tip that is still being finalised. */
  lemma SeedsBelowTip(cfg: Config, s: Store, input: PollInput, tip: int)
    requires MaxBlocks(cfg) > 0 && s.tables.blocks == map[] && SteadyTip(input, tip - 2, tip) && Honest(input.commit)
    ensures Complete(cfg, s, input, Start).tables.blocks.Keys == if tip > 1 then {tip - 1} else {}
  {
    hide Complete;
    var rows := Complete(cfg, s, input, Start).tables.blocks;
    forall h ensures h in rows <==> tip > 1 && h == tip - 1 {
      StoresExactly(cfg, s, input, Max(tip - 1, 1), h);
    }
  }

  // ---- polls in a row -----------------------------------------------------

  function Polls(cfg: Config, s: Store, inputs: seq<PollInput>): Store {
    if inputs == [] then s
    else Complete(cfg, Polls(cfg, s, inputs[..|inputs| - 1]), inputs[|inputs| - 1], Start)
  }

  lemma OneMore(k: nat, m: int)
    requires m > 0
    ensures k * m >= 0 && (k + 1) * m == k * m + m
  {
  }

  /**
   * Catching up in closed form: with the tip fixed and all below it fetchable, the latest stored
   * height after k polls is k slices further, or one below the tip.
   */
  lemma {:induction false} BacklogAfter(cfg: Config, s: Store, inputs: seq<PollInput>, d: int, tip: int)
    requires MaxBlocks(cfg) > 0 && Latest(s.tables.blocks) == Some(d) && d < tip
    requires forall input <- inputs :: SteadyTip(input, d, tip)
    ensures Latest(Polls(cfg, s, inputs).tables.blocks) == Some(Min(tip - 1, d + |inputs| * MaxBlocks(cfg)))
  {
    hide Complete, SteadyTip, Latest;
    if inputs != [] {
      var before := inputs[..|inputs| - 1];
      BacklogAfter(cfg, s, before, d, tip);
      var from := Min(tip - 1, d + |before| * MaxBlocks(cfg));
      OneMore(|before|, MaxBlocks(cfg));
      PollAdvances(cfg, Polls(cfg, s, before), inputs[|inputs| - 1], d, from, tip);
    }
  }

  lemma MulGrows(a: int, b: int, m: int)
    requires a <= b && m > 0
    ensures a * m <= b * m
  {
    assert (b - a) * m >= 0;
  }

  lemma CeilingIff(k: nat, m: int, n: nat)
    requires m > 0
    ensures k * m >= n <==> k >= (n + m - 1) / m
  {
    var x := n + m - 1;
    var q, r := x / m, x % m;
    assert x == q * m + r;
    if k >= q {
      MulGrows(q, k, m);
    } else {
      MulGrows(k, q - 1, m);
      assert (q - 1) * m == q * m - m;
    }
  }

  /** So the backlog is gone after exactly ceil(backlog / MaxBlocks) polls, and not before. */
  lemma BacklogClearsIff(cfg: Config, s: Store, inputs: seq<PollInput>, d: int, tip: int)
    requires MaxBlocks(cfg) > 0 && Latest(s.tables.blocks) == Some(d) && d < tip
    requires forall input <- inputs :: SteadyTip(input, d, tip)
    ensures Latest(Polls(cfg, s, inputs).tables.blocks) == Some(tip - 1)
            <==> |inputs| >= (tip - 1 - d + MaxBlocks(cfg) - 1) / MaxBlocks(cfg)
  {
    BacklogAfter(cfg, s, inputs, d, tip);
    CeilingIff(|inputs|, MaxBlocks(cfg), tip - 1 - d);
  }

  // ---- a wall of unfetchable heights --------------------------------------

  /** None of the m heights above d can be had, ever. */
  ghost predicate Walled(input: PollInput, d: int, m: int) {
    forall h :: d < h <= d + m ==> Failed(input.commit(h))
  }

  ghost predicate WallPhase(rows: map<int, Block>, ph: Phase) {
    match ph
    case EndingPeriod(p) => p.dbHeight == Latest(rows)
    case StartingPeriod(p) => p.dbHeight == Latest(rows)
    case Fetching(p) => p.dbHeight == Latest(rows)
    case Appending(_, _) => false
    case Inserting(_, _) => false
    case _ => true
  }

  ghost predicate WallInv(w: World, rows: map<int, Block>, d: int, m: int) {
    && OnePoll(w) && w.store.tables.blocks == rows && MaxBlocks(w.cfg) <= m
    && (forall it <- w.polls :: Walled(it.input, d, m) && WallPhase(rows, it.phase))
  }

  lemma WallYieldsNothing(cfg: Config, p: Plan, input: PollInput, d: int, m: int)
    requires p.dbHeight == Some(d) && MaxBlocks(cfg) <= m && Walled(input, d, m)
    ensures CollectedBy(cfg, p, input).blocks == []
  {
    var slice := SliceOf(cfg, p, input);
    SliceAdvancesIff(slice, FirstHeight(p), LastHeight(cfg, p), Cache(None, LastKnownActive(p)));
    forall x | d < x <= d + m ensures !FateOf(slice, x).Keep? {
      assert Failed(input.commit(x));
    }
  }

  lemma WallStep(w: World, a: Action, rows: map<int, Block>, d: int, m: int)
    requires Latest(rows) == Some(d) && WallInv(w, rows, d, m)
    requires (a.Tick? ==> Walled(a.input, d, m)) && (a.Restart? ==> MaxBlocks(a.cfg) <= m)
    ensures WallInv(Next(w, a), rows, d, m)
  {
    if a.Resume? && a.i < |w.polls| {
      var it := w.polls[a.i];
      assert it in w.polls && a.i == 0;
      if it.phase.Fetching? {
        WallYieldsNothing(w.cfg, it.phase.plan, it.input, d, m);
      }
    }
  }

  /**
   * As many unfetchable heights in a row as a poll takes at once stop ingestion for good, even with
   * gaps allowed: over any run the block table stays what it is.
   */
  lemma {:induction false} WallStopsIngestion(w: World, actions: seq<Action>, d: int, m: int)
    requires Latest(w.store.tables.blocks) == Some(d) && WallInv(w, w.store.tables.blocks, d, m)
    requires forall a <- actions :: (a.Tick? ==> Walled(a.input, d, m)) && (a.Restart? ==> MaxBlocks(a.cfg) <= m)
    ensures WallInv(Run(w, actions), w.store.tables.blocks, d, m)
    ensures Run(w, actions).store.tables.blocks == w.store.tables.blocks
  {
    if actions != [] {
      WallStopsIngestion(w, actions[..|actions| - 1], d, m);
      WallStep(Run(w, actions[..|actions| - 1]), actions[|actions| - 1], w.store.tables.blocks, d, m);
    }
  }
}
