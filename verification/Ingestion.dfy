/** What every run keeps true of the block table: one gap-free interval that only grows at its top. */
module Ingestion {
  import opened Domain
  import opened Tables
  import opened Attribution
  import opened Worker

  /** An RPC node answers a request for a height with the commit of that height. */
  ghost predicate Honest(commit: int -> CommitAnswer) {
    forall h :: commit(h).Fetched? ==> commit(h).commit.height == h
  }

  ghost predicate HonestActions(actions: seq<Action>) {
    forall a <- actions :: a.Tick? ==> Honest(a.input.commit)
  }

  ghost predicate GapsOff(w: World, actions: seq<Action>) {
    !w.cfg.allowBlockGaps && forall a <- actions :: a.Restart? ==> !a.cfg.allowBlockGaps
  }

  predicate Failed(answer: CommitAnswer) { answer.Unfetched? || !answer.convertible }

  /** The block records that commit, which the node did not call provisional, and its label follows the validator's entry. */
  ghost predicate MadeFrom(b: Block, o: Origin) {
    && o.answer.Fetched?
    && o.answer.commit.canonical != Some(false)
    && b.height == o.answer.commit.height && b.time == o.answer.commit.time && b.hash == o.answer.commit.hash
    && Labelled(b, o.answer.commit, o.valconsHex, o.signer)
  }

  function SliceOrigin(s: Slice, h: int): Origin { Origin(s.commit(h), s.who.valconsHex, s.who.signer) }

  ghost predicate Covers(heights: set<int>, skipped: map<int, CommitAnswer>, from: int, last: int) {
    forall h :: from <= h <= last ==> h in heights || h in skipped
  }

  function Heights(blocks: seq<Block>): set<int> { set b | b in blocks :: b.height }

  // ---- one slice ----------------------------------------------------------

  ghost predicate Ascending(blocks: seq<Block>) {
    forall i, j :: 0 <= i < j < |blocks| ==> blocks[i].height < blocks[j].height
  }

  ghost predicate MadeWithin(s: Slice, blocks: seq<Block>, h: int, last: int) {
    forall b <- blocks :: h <= b.height <= last && MadeFrom(b, SliceOrigin(s, b.height))
  }

  ghost predicate SliceOk(s: Slice, c: Collected, h: int, last: int) {
    && Ascending(c.blocks)
    && MadeWithin(s, c.blocks, h, last)
    && (c.blocks != [] ==> Covers(Heights(c.blocks), c.skipped, h, c.blocks[|c.blocks| - 1].height))
    && (forall x <- c.skipped :: c.skipped[x] == s.commit(x) && Failed(c.skipped[x]) && s.allowGaps)
  }

  lemma AscendingCons(b: Block, rest: seq<Block>)
    requires Ascending(rest) && forall x <- rest :: b.height < x.height
    ensures Ascending([b] + rest)
  {
    var all := [b] + rest;
    forall i, j | 0 <= i < j < |all| ensures all[i].height < all[j].height {
      if i > 0 {
        assert all[i] == rest[i - 1];
      }
      assert all[j] == rest[j - 1] && rest[j - 1] in rest;
    }
  }

  lemma CoversCons(heights: set<int>, skipped: map<int, CommitAnswer>, h: int, last: int)
    requires Covers(heights, skipped, h + 1, last) || last <= h
    ensures Covers({h} + heights, skipped, h, last)
  {
  }

  lemma HeightsCons(b: Block, rest: seq<Block>)
    ensures Heights([b] + rest) == {b.height} + Heights(rest)
  {
    assert forall x :: x in [b] + rest <==> x == b || x in rest;
  }

  lemma SliceCons(s: Slice, b: Block, rest: Collected, c: Collected, h: int, last: int)
    requires SliceOk(s, rest, h + 1, last)
    requires b.height == h <= last && MadeFrom(b, SliceOrigin(s, h))
    requires c.blocks == [b] + rest.blocks && c.skipped == rest.skipped
    ensures SliceOk(s, c, h, last)
  {
    HeightsCons(b, rest.blocks);
    MadeCons(s, b, rest.blocks, h, last);
    AscendingCons(b, rest.blocks);
    hide Ascending, MadeWithin, Heights, Covers;
    var top := c.blocks[|c.blocks| - 1].height;
    assert top == if rest.blocks == [] then h else rest.blocks[|rest.blocks| - 1].height;
    CoversCons(Heights(rest.blocks), rest.skipped, h, top);
  }

  lemma MadeCons(s: Slice, b: Block, rest: seq<Block>, h: int, last: int)
    requires MadeWithin(s, rest, h + 1, last) && b.height == h <= last && MadeFrom(b, SliceOrigin(s, h))
    ensures MadeWithin(s, [b] + rest, h, last)
    ensures forall x <- rest :: b.height < x.height
  {
    assert forall x :: x in [b] + rest <==> x == b || x in rest;
  }

  lemma SliceSkip(s: Slice, rest: Collected, h: int, last: int)
    requires SliceOk(s, rest, h + 1, last) && FateOf(s, h).Skip?
    ensures SliceOk(s, rest.(skipped := map[h := s.commit(h)] + rest.skipped), h, last)
  {
  }

  /** What a slice yields: ascending blocks made from their own heights' answers, with only failures left out between them. */
  lemma {:induction false} CollectedSlice(s: Slice, h: int, last: int, cache: Cache)
    requires Honest(s.commit)
    ensures SliceOk(s, Collect(s, h, last, cache), h, last)
    decreases last - h + 1
  {
    if h <= last && !FateOf(s, h).Halt? {
      var c := Collect(s, h, last, cache);
      if FateOf(s, h).Skip? {
        CollectedSlice(s, h + 1, last, cache);
        SliceSkip(s, Collect(s, h + 1, last, cache), h, last);
      } else {
        var commit := FateOf(s, h).commit;
        var verdict := Judge(commit, s.who);
        var (active, memo) := Resolve(cache, s.lookup(commit.height));
        var after := if verdict.Settled? then cache else memo;
        CollectedSlice(s, h + 1, last, after);
        var b := ToBlock(commit, if verdict.Settled? then verdict else Presence(active));
        JudgeLabels(commit, s.who);
        assert MadeFrom(b, SliceOrigin(s, h));
        SliceCons(s, b, Collect(s, h + 1, last, after), c, h, last);
      }
    }
  }

  // ---- the invariant ------------------------------------------------------

  /** Every height between two stored ones is stored, or its failed answer was skipped over. */
  ghost predicate NoUnexplainedGap(rows: map<int, Block>, skipped: map<int, CommitAnswer>) {
    forall a, b :: a in rows && b in rows && a <= b ==> Covers(rows.Keys, skipped, a, b)
  }

  ghost predicate Sourced(rows: map<int, Block>, origin: map<int, Origin>, skipped: map<int, CommitAnswer>) {
    && origin.Keys == rows.Keys
    && (forall h <- rows :: rows[h].height == h && MadeFrom(rows[h], origin[h]))
    && (forall h <- skipped :: Failed(skipped[h]))
  }

  ghost predicate StoreOk(s: Store) {
    NoUnexplainedGap(s.tables.blocks, s.history.skipped) && Sourced(s.tables.blocks, s.history.origin, s.history.skipped)
  }

  /** A batch on its way into the table continues it. */
  ghost predicate BatchOk(cfg: Config, s: Store, p: Plan, input: PollInput, batch: seq<Block>) {
    && batch != []
    && Ascending(batch)
    && (forall b <- batch :: FirstHeight(p) <= b.height && MadeFrom(b, OriginOf(cfg, input, b.height)))
    && Covers(Heights(batch), s.history.skipped, FirstHeight(p), batch[|batch| - 1].height)
  }

  ghost predicate PhaseOk(cfg: Config, s: Store, input: PollInput, ph: Phase) {
    match ph
    case EndingPeriod(p) => p.dbHeight == Latest(s.tables.blocks)
    case StartingPeriod(p) => p.dbHeight == Latest(s.tables.blocks)
    case Fetching(p) => p.dbHeight == Latest(s.tables.blocks)
    case Appending(p, batch) => p.dbHeight == Latest(s.tables.blocks) && BatchOk(cfg, s, p, input, batch)
    case Inserting(p, batch) => p.dbHeight == Latest(s.tables.blocks) && BatchOk(cfg, s, p, input, batch)
    case _ => true
  }

  ghost predicate Inv(w: World) {
    && OnePoll(w)
    && StoreOk(w.store)
    && (forall it <- w.polls :: Honest(it.input.commit) && PhaseOk(w.cfg, w.store, it.input, it.phase))
  }

  /** New rows go on top of the old ones, and no old row changes. */
  ghost predicate GrowsOnTop(old_: map<int, Block>, new_: map<int, Block>) {
    && (forall h <- old_ :: h in new_ && new_[h] == old_[h])
    && (forall h <- new_, x <- old_ :: h !in old_ ==> x < h)
  }

  lemma BatchFits(cfg: Config, s: Store, p: Plan, input: PollInput, batch: seq<Block>)
    requires p.dbHeight == Latest(s.tables.blocks) && BatchOk(cfg, s, p, input, batch)
    ensures Insertable(s.tables.blocks, batch)
    ensures forall x <- s.tables.blocks, b <- batch :: x < b.height
  {
    forall x, b | x in s.tables.blocks && b in batch ensures x < b.height {
      assert p.dbHeight.Some?;
    }
  }

  lemma StoredSourced(cfg: Config, s: Store, input: PollInput, batch: seq<Block>)
    requires Sourced(s.tables.blocks, s.history.origin, s.history.skipped) && Insertable(s.tables.blocks, batch)
    requires forall b <- batch :: MadeFrom(b, OriginOf(cfg, input, b.height))
    ensures
      var t := Stored(cfg, s, batch, input);
      Sourced(t.tables.blocks, t.history.origin, t.history.skipped)
  {
    var rows := s.tables.blocks;
    var rows' := WithBlocks(rows, batch);
    hide MadeFrom, Failed, WithBlocks;
    forall h | h in rows' ensures rows'[h].height == h && MadeFrom(rows'[h], OriginWith(cfg, s.history.origin, batch, input)[h]) {
      if h in Heights(batch) {
        NewRow(cfg, rows, input, batch, h);
      } else {
        assert forall b <- batch :: b.height != h;
      }
    }
  }

  lemma NewRow(cfg: Config, rows: map<int, Block>, input: PollInput, batch: seq<Block>, h: int)
    requires Insertable(rows, batch) && h in Heights(batch)
    requires forall b <- batch :: MadeFrom(b, OriginOf(cfg, input, b.height))
    ensures h in WithBlocks(rows, batch) && WithBlocks(rows, batch)[h].height == h && MadeFrom(WithBlocks(rows, batch)[h], OriginOf(cfg, input, h))
  {
    hide MadeFrom;
    var k :| 0 <= k < |batch| && batch[k].height == h;
    WithBlocksAt(rows, batch, k);
    assert batch[k] in batch;
  }

  lemma CoversOnTop(rows: map<int, Block>, new_: set<int>, skipped: map<int, CommitAnswer>, first: int, top: int)
    requires forall a, b :: a in rows && b in rows && a <= b ==> Covers(rows.Keys, skipped, a, b)
    requires rows != map[] ==> first == Latest(rows).value + 1
    requires Covers(new_, skipped, first, top) && forall b <- new_ :: first <= b <= top
    ensures forall a, b :: a in rows.Keys + new_ && b in rows.Keys + new_ && a <= b ==> Covers(rows.Keys + new_, skipped, a, b)
  {
    forall a, b, h | a in rows.Keys + new_ && b in rows.Keys + new_ && a <= h <= b ensures h in rows.Keys + new_ || h in skipped {
      if h >= first {
        assert h <= top;
      } else {
        assert a in rows;
        assert Covers(rows.Keys, skipped, a, Latest(rows).value);
      }
    }
  }

  lemma StoredCovers(cfg: Config, s: Store, p: Plan, input: PollInput, batch: seq<Block>)
    requires NoUnexplainedGap(s.tables.blocks, s.history.skipped)
    requires p.dbHeight == Latest(s.tables.blocks) && BatchOk(cfg, s, p, input, batch)
    ensures NoUnexplainedGap(Stored(cfg, s, batch, input).tables.blocks, s.history.skipped)
  {
    var top := batch[|batch| - 1].height;
    assert forall i :: 0 <= i < |batch| ==> FirstHeight(p) <= batch[i].height <= top;
    CoversOnTop(s.tables.blocks, Heights(batch), s.history.skipped, FirstHeight(p), top);
    assert WithBlocks(s.tables.blocks, batch).Keys == s.tables.blocks.Keys + Heights(batch);
  }

  lemma StoringKeeps(cfg: Config, s: Store, p: Plan, input: PollInput, batch: seq<Block>)
    requires StoreOk(s) && p.dbHeight == Latest(s.tables.blocks) && BatchOk(cfg, s, p, input, batch)
    ensures StoreOk(Stored(cfg, s, batch, input)) && Stored(cfg, s, batch, input).history.skipped == s.history.skipped
    ensures GrowsOnTop(s.tables.blocks, Stored(cfg, s, batch, input).tables.blocks)
  {
    BatchFits(cfg, s, p, input, batch);
    StoredSourced(cfg, s, input, batch);
    StoredCovers(cfg, s, p, input, batch);
  }

  lemma FetchingKeeps(cfg: Config, s: Store, input: PollInput, p: Plan)
    requires StoreOk(s) && Honest(input.commit) && p.dbHeight == Latest(s.tables.blocks)
    ensures
      var next := Advance(cfg, s, input, Fetching(p));
      && StoreOk(next.0) && PhaseOk(cfg, next.0, input, next.1)
      && next.0.tables == s.tables
      && (!cfg.allowBlockGaps ==> next.0.history.skipped == s.history.skipped)
  {
    hide Labelled, Judge, Resolve;
    var slice := SliceOf(cfg, p, input);
    var c := CollectedBy(cfg, p, input);
    CollectedSlice(slice, FirstHeight(p), LastHeight(cfg, p), Cache(None, LastKnownActive(p)));
    var next := Advance(cfg, s, input, Fetching(p));
    var skipped := next.0.history.skipped;
    assert skipped == s.history.skipped + c.skipped;
    if !cfg.allowBlockGaps {
      assert c.skipped == map[] by { assert forall x :: x !in c.skipped; }
    }
    forall a, b | a in s.tables.blocks && b in s.tables.blocks && a <= b ensures Covers(s.tables.blocks.Keys, skipped, a, b) {
      assert Covers(s.tables.blocks.Keys, s.history.skipped, a, b);
    }
  }

  lemma WritesOrNot(cfg: Config, s: Store, input: PollInput, ph: Phase, p: Plan, batch: seq<Block>)
    requires ph == Appending(p, batch) || ph == Inserting(p, batch)
    ensures
      var next := Advance(cfg, s, input, ph);
      || (next == (s, Inserting(p, batch)) && ph.Appending?)
      || (next.1 == Judging(p, batch) && (next.0 == s || next.0 == Stored(cfg, s, batch, input)))
  {
    hide InsertableNow, Stored;
  }

  lemma WritingKeeps(cfg: Config, s: Store, input: PollInput, ph: Phase, p: Plan, batch: seq<Block>)
    requires StoreOk(s) && PhaseOk(cfg, s, input, ph) && (ph == Appending(p, batch) || ph == Inserting(p, batch))
    ensures
      var next := Advance(cfg, s, input, ph);
      && StoreOk(next.0) && PhaseOk(cfg, next.0, input, next.1)
      && GrowsOnTop(s.tables.blocks, next.0.tables.blocks)
      && next.0.history.skipped == s.history.skipped
  {
    hide StoreOk, BatchOk, Stored, Advance;
    StoringKeeps(cfg, s, p, input, batch);
    assert GrowsOnTop(s.tables.blocks, s.tables.blocks);
    hide GrowsOnTop;
    WritesOrNot(cfg, s, input, ph, p, batch);
  }

  /** The phases that neither fetch nor store leave the block table alone. */
  lemma RestKeeps(cfg: Config, s: Store, input: PollInput, ph: Phase)
    requires StoreOk(s) && PhaseOk(cfg, s, input, ph) && !ph.Fetching? && !ph.Appending? && !ph.Inserting?
    ensures
      var next := Advance(cfg, s, input, ph);
      && StoreOk(next.0) && PhaseOk(cfg, next.0, input, next.1)
      && GrowsOnTop(s.tables.blocks, next.0.tables.blocks)
      && next.0.history.skipped == s.history.skipped
  {
    assert GrowsOnTop(s.tables.blocks, s.tables.blocks);
    hide NoUnexplainedGap, Sourced, BatchOk, GrowsOnTop, UnclosedPage, Applied, ChainEvents, Ending;
    var next := Advance(cfg, s, input, ph);
    assert next.0.tables.blocks == s.tables.blocks;
    assert next.0.history.origin == s.history.origin && next.0.history.skipped == s.history.skipped;
  }

  lemma AdvanceKeeps(cfg: Config, s: Store, input: PollInput, ph: Phase)
    requires StoreOk(s) && Honest(input.commit) && PhaseOk(cfg, s, input, ph)
    ensures
      var next := Advance(cfg, s, input, ph);
      && StoreOk(next.0) && PhaseOk(cfg, next.0, input, next.1)
      && GrowsOnTop(s.tables.blocks, next.0.tables.blocks)
      && (!cfg.allowBlockGaps ==> next.0.history.skipped == s.history.skipped)
  {
    match ph
    case Fetching(p) => FetchingKeeps(cfg, s, input, p);
    case Appending(p, batch) => WritingKeeps(cfg, s, input, ph, p, batch);
    case Inserting(p, batch) => WritingKeeps(cfg, s, input, ph, p, batch);
    case _ => RestKeeps(cfg, s, input, ph);
  }

  lemma StepKeeps(w: World, a: Action)
    requires Inv(w) && (a.Tick? ==> Honest(a.input.commit))
    ensures Inv(Next(w, a)) && GrowsOnTop(w.store.tables.blocks, Next(w, a).store.tables.blocks)
    ensures !w.cfg.allowBlockGaps ==> Next(w, a).store.history.skipped == w.store.history.skipped
  {
    if a.Resume? && a.i < |w.polls| {
      var it := w.polls[a.i];
      assert it in w.polls && a.i == 0;
      AdvanceKeeps(w.cfg, w.store, it.input, it.phase);
    }
  }

  // ---- over whole runs ----------------------------------------------------

  lemma {:induction false} RunKeeps(w: World, actions: seq<Action>)
    requires Inv(w) && HonestActions(actions)
    ensures Inv(Run(w, actions))
    ensures GrowsOnTop(w.store.tables.blocks, Run(w, actions).store.tables.blocks)
    ensures GapsOff(w, actions) ==>
              !Run(w, actions).cfg.allowBlockGaps && Run(w, actions).store.history.skipped == w.store.history.skipped
  {
    if actions != [] {
      var before := actions[..|actions| - 1];
      RunKeeps(w, before);
      StepKeeps(Run(w, before), actions[|actions| - 1]);
    }
  }

  lemma {:induction false} RunSplit(w: World, xs: seq<Action>, ys: seq<Action>)
    ensures Run(w, xs + ys) == Run(Run(w, xs), ys)
  {
    if ys == [] {
      assert xs + ys == xs;
    } else {
      RunSplit(w, xs, ys[..|ys| - 1]);
      assert (xs + ys)[..|xs + ys| - 1] == xs + ys[..|ys| - 1];
    }
  }

  /** In every reachable state each stored block was made from a commit no node called provisional. */
  lemma {:induction false} NoProvisionalBlock(cfg: Config, actions: seq<Action>, h: int)
    requires HonestActions(actions)
    requires h in Run(Booted(cfg, EMPTY), actions).store.tables.blocks
    ensures
      var s := Run(Booted(cfg, EMPTY), actions).store;
      && h in s.history.origin && s.history.origin[h].answer.Fetched?
      && s.history.origin[h].answer.commit.canonical != Some(false)
      && s.history.origin[h].answer.commit.height == h && s.tables.blocks[h].hash == s.history.origin[h].answer.commit.hash
  {
    RunKeeps(Booted(cfg, EMPTY), actions);
  }

  /** Some poll of the run was given that answer for height h. */
  ghost predicate Polled(actions: seq<Action>, h: int, o: Origin) {
    exists a <- actions :: a.Tick? && a.input.commit(h) == o.answer
  }

  /** The run's first configuration or one it restarts with tracks the validator of these addresses. */
  ghost predicate Tracked(cfg: Config, actions: seq<Action>, o: Origin) {
    || (cfg.valconsHex == o.valconsHex && cfg.signer == o.signer)
    || (exists a <- actions :: a.Restart? && a.cfg.valconsHex == o.valconsHex && a.cfg.signer == o.signer)
  }

  ghost predicate FromPolls(cfg: Config, w: World, actions: seq<Action>) {
    && (w.cfg == cfg || Restart(w.cfg) in actions)
    && (forall it <- w.polls :: Tick(it.input) in actions)
    && (forall h <- w.store.history.origin ::
          Polled(actions, h, w.store.history.origin[h]) && Tracked(cfg, actions, w.store.history.origin[h]))
  }

  lemma OriginsLast(cfg: Config, before: seq<Action>, a: Action, h: int, o: Origin)
    requires Polled(before, h, o) && Tracked(cfg, before, o)
    ensures Polled(before + [a], h, o) && Tracked(cfg, before + [a], o)
  {
    assert forall x <- before :: x in before + [a];
  }

  lemma OriginsAdvance(cfg: Config, s: Store, input: PollInput, ph: Phase, h: int)
    requires h in Advance(cfg, s, input, ph).0.history.origin
    ensures
      var now := Advance(cfg, s, input, ph).0.history.origin[h];
      (h in s.history.origin && now == s.history.origin[h]) || now == Origin(input.commit(h), cfg.valconsHex, cfg.signer)
  {
    hide UnclosedPage, CollectedBy, InsertableNow, Applied, ChainEvents, Ending;
  }

  lemma OriginNext(cfg: Config, before: seq<Action>, w: World, a: Action, h: int)
    requires FromPolls(cfg, w, before) && h in Next(w, a).store.history.origin
    ensures
      var o := Next(w, a).store.history.origin[h];
      Polled(before + [a], h, o) && Tracked(cfg, before + [a], o)
  {
    hide Advance, Polled, Tracked;
    var actions, o := before + [a], Next(w, a).store.history.origin[h];
    if h in w.store.history.origin && o == w.store.history.origin[h] {
      OriginsLast(cfg, before, a, h, o);
    } else {
      var it := w.polls[a.i];
      OriginsAdvance(w.cfg, w.store, it.input, it.phase, h);
      assert it in w.polls && Tick(it.input) in before;
      OriginIs(cfg, actions, w.cfg, it.input, h);
    }
  }

  lemma OriginIs(cfg: Config, actions: seq<Action>, now: Config, input: PollInput, h: int)
    requires Tick(input) in actions && (now == cfg || Restart(now) in actions)
    ensures
      var o := Origin(input.commit(h), now.valconsHex, now.signer);
      Polled(actions, h, o) && Tracked(cfg, actions, o)
  {
    assert Tick(input).input.commit(h) == input.commit(h);
    assert now == cfg || Restart(now).cfg == now;
  }

  lemma {:induction false} OriginsPolled(cfg: Config, actions: seq<Action>)
    ensures FromPolls(cfg, Run(Booted(cfg, EMPTY), actions), actions)
  {
    if actions != [] {
      var before, a := actions[..|actions| - 1], actions[|actions| - 1];
      OriginsPolled(cfg, before);
      assert actions == before + [a];
      hide *;
      var w := Run(Booted(cfg, EMPTY), before);
      FromPollsNext(cfg, before, w, a);
    }
  }

  lemma FromPollsNext(cfg: Config, before: seq<Action>, w: World, a: Action)
    requires FromPolls(cfg, w, before)
    ensures FromPolls(cfg, Next(w, a), before + [a])
  {
    hide Advance, Polled, Tracked;
    forall h | h in Next(w, a).store.history.origin
      ensures Polled(before + [a], h, Next(w, a).store.history.origin[h]) && Tracked(cfg, before + [a], Next(w, a).store.history.origin[h])
    {
      OriginNext(cfg, before, w, a, h);
    }
    forall it | it in Next(w, a).polls ensures Tick(it.input) in before + [a] {
      assert it in w.polls || a == Tick(it.input) || (a.Resume? && a.i < |w.polls| && it.input == w.polls[a.i].input && w.polls[a.i] in w.polls);
    }
  }

  /**
   * Whose vote decides: in every reachable state each stored row carries the label of a configured
   * validator's own entry in a final commit that some poll of the run was given for its height.
   */
  lemma {:induction false} StoredLabels(cfg: Config, actions: seq<Action>, h: int)
    requires HonestActions(actions)
    requires h in Run(Booted(cfg, EMPTY), actions).store.tables.blocks
    ensures
      var s := Run(Booted(cfg, EMPTY), actions).store;
      && h in s.history.origin && s.history.origin[h].answer.Fetched?
      && Polled(actions, h, s.history.origin[h]) && Tracked(cfg, actions, s.history.origin[h])
      && Labelled(s.tables.blocks[h], s.history.origin[h].answer.commit, s.history.origin[h].valconsHex, s.history.origin[h].signer)
  {
    hide Labelled;
    RunKeeps(Booted(cfg, EMPTY), actions);
    OriginsPolled(cfg, actions);
  }

  /** With gaps never allowed, the stored heights of every reachable state are one interval. */
  lemma {:induction false} OneInterval(cfg: Config, actions: seq<Action>, a: int, b: int, h: int)
    requires HonestActions(actions) && GapsOff(Booted(cfg, EMPTY), actions)
    requires
      var rows := Run(Booted(cfg, EMPTY), actions).store.tables.blocks;
      a in rows && b in rows && a <= h <= b
    ensures h in Run(Booted(cfg, EMPTY), actions).store.tables.blocks
  {
    RunKeeps(Booted(cfg, EMPTY), actions);
    var s := Run(Booted(cfg, EMPTY), actions).store;
    assert Covers(s.tables.blocks.Keys, s.history.skipped, a, b);
  }

  /** With gaps allowed at times, a height missing between two stored ones is one whose fetch or conversion failed. */
  lemma {:induction false} GapsWereFailures(cfg: Config, actions: seq<Action>, a: int, b: int, h: int)
    requires HonestActions(actions)
    requires
      var rows := Run(Booted(cfg, EMPTY), actions).store.tables.blocks;
      a in rows && b in rows && a <= h <= b && h !in rows
    ensures
      var skipped := Run(Booted(cfg, EMPTY), actions).store.history.skipped;
      h in skipped && Failed(skipped[h])
  {
    RunKeeps(Booted(cfg, EMPTY), actions);
    var s := Run(Booted(cfg, EMPTY), actions).store;
    assert Covers(s.tables.blocks.Keys, s.history.skipped, a, b);
  }

  /**
   * From any reachable state on, no stored row ever changes or goes, new rows only come above the
   * newest one, and so the seed stays and the latest height never falls.
   */
  lemma {:induction false} TableOnlyGrows(cfg: Config, xs: seq<Action>, ys: seq<Action>)
    requires HonestActions(xs) && HonestActions(ys)
    ensures
      var before := Run(Booted(cfg, EMPTY), xs).store.tables.blocks;
      var after := Run(Booted(cfg, EMPTY), xs + ys).store.tables.blocks;
      && GrowsOnTop(before, after)
      && (before != map[] ==> after != map[] && Latest(after).value >= Latest(before).value)
  {
    var w := Booted(cfg, EMPTY);
    RunKeeps(w, xs);
    RunSplit(w, xs, ys);
    RunKeeps(Run(w, xs), ys);
    if Run(w, xs).store.tables.blocks != map[] {
      GrowthKeepsLatest(Run(w, xs).store.tables.blocks, Run(w, xs + ys).store.tables.blocks);
    }
  }

  lemma GrowthKeepsLatest(before: map<int, Block>, after: map<int, Block>)
    requires GrowsOnTop(before, after) && before != map[]
    ensures after != map[] && Latest(after).value >= Latest(before).value
  {
    assert Latest(before).value in after;
  }

  /** The primary key never has to reject a batch: no stored height is ever fetched for storing again. */
  lemma {:induction false} BatchesAreNew(cfg: Config, actions: seq<Action>, it: Instance)
    requires HonestActions(actions)
    requires it in Run(Booted(cfg, EMPTY), actions).polls && (it.phase.Appending? || it.phase.Inserting?)
    ensures Insertable(Run(Booted(cfg, EMPTY), actions).store.tables.blocks, it.phase.blocks)
  {
    RunKeeps(Booted(cfg, EMPTY), actions);
    BatchFits(Run(Booted(cfg, EMPTY), actions).cfg, Run(Booted(cfg, EMPTY), actions).store, it.phase.plan, it.input, it.phase.blocks);
  }
}
