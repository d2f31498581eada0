/** When a poll believes the active set it fetched at startup, and what labels its blocks otherwise. */
module Labels {
  import opened Domain
  import opened Tables
  import opened Attribution
  import opened Worker
  import opened Ingestion
  import CatchUp

  // ---- one slice ----------------------------------------------------------

  /** A Cosmos commit without an entry of the tracked validator. */
  ghost predicate Unheard(o: Origin) {
    && o.answer.Fetched? && o.answer.commit.votes.Signatures?
    && !HasEntry(o.answer.commit, o.valconsHex, o.signer)
  }

  ghost function UnheardHeights(s: Slice, blocks: seq<Block>): set<int> {
    set b | b in blocks && Unheard(SliceOrigin(s, b.height)) :: b.height
  }

  /** What the validator endpoint says about a height; a failed answer falls back to the last known status, or to active. */
  function Told(current: Option<bool>, l: Lookup): bool {
    match l
    case Unavailable => current.Some? ==> current.value
    case Validator(jailed, bondStatus) => !jailed && bondStatus == "BOND_STATUS_BONDED"
  }

  /** After this answer the slice asks no more: it failed, nothing was known, or it is what is known already. */
  predicate Settles(current: Option<bool>, l: Lookup) {
    l.Unavailable? || current == None || current == Some(Told(current, l))
  }

  /** The height asked about for the label of `h`: its own, unless the answer for a lower one settled. */
  ghost predicate AskedAbout(lookup: int -> Lookup, current: Option<bool>, unheard: set<int>, h: int, x: int) {
    && x in unheard && x <= h
    && (x == h || Settles(current, lookup(x)))
    && (forall y <- unheard :: y < x ==> !Settles(current, lookup(y)))
  }

  /** The heights asked about. */
  ghost function Asked(lookup: int -> Lookup, current: Option<bool>, unheard: set<int>): set<int> {
    set x | x in unheard && AskedAbout(lookup, current, unheard, x, x)
  }

  ghost predicate LabelIs(b: Block, active: bool) { b.signed == if active then 0 else -1 }

  ghost predicate LabelAsked(lookup: int -> Lookup, current: Option<bool>, unheard: set<int>, b: Block) {
    b.height in unheard ==>
      exists x :: AskedAbout(lookup, current, unheard, b.height, x) && LabelIs(b, Told(current, lookup(x)))
  }

  /** Every height without an entry is labelled by the answer for the height asked about, after as many lookups as that takes. */
  ghost predicate LabelledByAsking(s: Slice, c: Collected, current: Option<bool>) {
    var unheard := UnheardHeights(s, c.blocks);
    && c.lookups == |Asked(s.lookup, current, unheard)|
    && (forall b <- c.blocks :: LabelAsked(s.lookup, current, unheard, b))
  }

  /** Every height without an entry has that label, and no lookup is made. */
  ghost predicate AllLabelled(s: Slice, c: Collected, active: bool) {
    c.lookups == 0 && forall b <- c.blocks :: Unheard(SliceOrigin(s, b.height)) ==> LabelIs(b, active)
  }

  lemma UnheardCons(s: Slice, b: Block, rest: seq<Block>)
    ensures UnheardHeights(s, [b] + rest)
            == (if Unheard(SliceOrigin(s, b.height)) then {b.height} else {}) + UnheardHeights(s, rest)
  {
    assert forall x :: x in [b] + rest <==> x == b || x in rest;
  }

  lemma {:induction false} WithoutAsking(s: Slice, cache: Cache, active: bool, h: int, last: int)
    requires Honest(s.commit)
    requires if Trusts(s.who) then active else cache.value == Some(active)
    ensures AllLabelled(s, Collect(s, h, last, cache), active)
    decreases last - h + 1
  {
    if h <= last && !FateOf(s, h).Halt? {
      hide Labelled, HasEntry;
      WithoutAsking(s, cache, active, h + 1, last);
      if FateOf(s, h).Keep? {
        JudgeLabels(FateOf(s, h).commit, s.who);
        hide Judge;
        var rest := Collect(s, h + 1, last, cache);
        var b := Collect(s, h, last, cache).blocks[0];
        assert Collect(s, h, last, cache) == rest.(blocks := [b] + rest.blocks);
      }
    }
  }

  lemma AskingOnce(s: Slice, current: Option<bool>, b: Block, rest: Collected)
    requires Unheard(SliceOrigin(s, b.height)) && forall x <- rest.blocks :: b.height < x.height
    requires Settles(current, s.lookup(b.height)) && LabelIs(b, Told(current, s.lookup(b.height)))
    requires AllLabelled(s, rest, Told(current, s.lookup(b.height)))
    ensures LabelledByAsking(s, Collected([b] + rest.blocks, rest.skipped, 1), current)
  {
    var unheard := UnheardHeights(s, [b] + rest.blocks);
    UnheardCons(s, b, rest.blocks);
    assert Asked(s.lookup, current, unheard) == {b.height};
    forall x | x in [b] + rest.blocks && x.height in unheard
      ensures AskedAbout(s.lookup, current, unheard, x.height, b.height) && LabelIs(x, Told(current, s.lookup(b.height)))
    {
    }
  }

  lemma AskedUnder(lookup: int -> Lookup, current: Option<bool>, below: set<int>, h: int, y: int, x: int)
    requires !Settles(current, lookup(h)) && (forall z <- below :: h < z) && x in below
    ensures AskedAbout(lookup, current, {h} + below, y, x) <==> AskedAbout(lookup, current, below, y, x)
  {
    hide Settles;
    if AskedAbout(lookup, current, {h} + below, y, x) {
      assert forall z <- below :: z in {h} + below;
    }
  }

  lemma AskedFirst(lookup: int -> Lookup, current: Option<bool>, below: set<int>, h: int)
    requires !Settles(current, lookup(h)) && forall x <- below :: h < x
    ensures |Asked(lookup, current, {h} + below)| == |Asked(lookup, current, below)| + 1
    ensures forall b: Block :: b.height == h && LabelIs(b, Told(current, lookup(h))) ==> LabelAsked(lookup, current, {h} + below, b)
  {
    assert AskedAbout(lookup, current, {h} + below, h, h);
    hide Settles, Told, LabelIs, AskedAbout;
    forall x | x in below ensures AskedAbout(lookup, current, {h} + below, x, x) <==> AskedAbout(lookup, current, below, x, x) {
      AskedUnder(lookup, current, below, h, x, x);
    }
    assert Asked(lookup, current, {h} + below) == {h} + Asked(lookup, current, below);
    assert h !in Asked(lookup, current, below);
  }

  lemma AskedLater(lookup: int -> Lookup, current: Option<bool>, below: set<int>, h: int, b: Block)
    requires !Settles(current, lookup(h)) && (forall x <- below :: h < x) && h < b.height
    requires LabelAsked(lookup, current, below, b)
    ensures LabelAsked(lookup, current, {h} + below, b)
  {
    if b.height in below {
      var x :| AskedAbout(lookup, current, below, b.height, x) && LabelIs(b, Told(current, lookup(x)));
      AskedUnder(lookup, current, below, h, b.height, x);
    }
  }

  lemma AskingAgain(s: Slice, current: Option<bool>, b: Block, rest: Collected)
    requires Unheard(SliceOrigin(s, b.height)) && forall x <- rest.blocks :: b.height < x.height
    requires !Settles(current, s.lookup(b.height)) && LabelIs(b, Told(current, s.lookup(b.height)))
    requires LabelledByAsking(s, rest, current)
    ensures LabelledByAsking(s, Collected([b] + rest.blocks, rest.skipped, rest.lookups + 1), current)
  {
    hide Unheard, LabelAsked, AskedAbout, Asked, LabelIs, Told, Settles;
    var all, below := [b] + rest.blocks, UnheardHeights(s, rest.blocks);
    assert forall x <- below :: b.height < x;
    hide UnheardHeights;
    UnheardCons(s, b, rest.blocks);
    AskedFirst(s.lookup, current, below, b.height);
    forall y | y in all ensures LabelAsked(s.lookup, current, {b.height} + below, y) {
      if y != b {
        AskedLater(s.lookup, current, below, b.height, y);
      }
    }
  }

  lemma NotAsking(s: Slice, current: Option<bool>, b: Block, rest: Collected)
    requires !Unheard(SliceOrigin(s, b.height)) && forall x <- rest.blocks :: b.height < x.height
    requires LabelledByAsking(s, rest, current)
    ensures LabelledByAsking(s, rest.(blocks := [b] + rest.blocks), current)
  {
    var below := UnheardHeights(s, rest.blocks);
    UnheardCons(s, b, rest.blocks);
    assert UnheardHeights(s, [b] + rest.blocks) == below;
    assert b.height !in below;
    assert LabelAsked(s.lookup, current, below, b);
    hide UnheardHeights, Unheard, LabelAsked, Asked;
  }

  /** The block of a kept height, and how the rest of the slice goes on. */
  lemma KeptHeight(s: Slice, current: Option<bool>, h: int, last: int) returns (b: Block, after: Cache)
    requires Honest(s.commit) && !Trusts(s.who) && h <= last && FateOf(s, h).Keep?
    ensures
      var all, rest, l := Collect(s, h, last, Cache(None, current)), Collect(s, h + 1, last, after), s.lookup(h);
      && b.height == h
      && if Unheard(SliceOrigin(s, h))
         then all == Collected([b] + rest.blocks, rest.skipped, rest.lookups + 1)
              && LabelIs(b, Told(current, l)) && after == Cache(if Settles(current, l) then Some(Told(current, l)) else None, current)
         else all == rest.(blocks := [b] + rest.blocks) && after == Cache(None, current)
    ensures forall x <- Collect(s, h + 1, last, after).blocks :: h < x.height
  {
    hide Labelled, HasEntry;
    var c := FateOf(s, h).commit;
    JudgeLabels(c, s.who);
    hide Judge;
    after := if Judge(c, s.who).Settled? then Cache(None, current) else Resolve(Cache(None, current), s.lookup(h)).1;
    b := Collect(s, h, last, Cache(None, current)).blocks[0];
    RestAbove(s, h, last, after);
  }

  lemma RestAbove(s: Slice, h: int, last: int, after: Cache)
    requires Honest(s.commit)
    ensures forall x <- Collect(s, h + 1, last, after).blocks :: h < x.height
  {
    hide Collect, MadeFrom, Covers;
    CollectedSlice(s, h + 1, last, after);
  }

  lemma NothingAsked(s: Slice, current: Option<bool>)
    ensures LabelledByAsking(s, NOTHING, current)
  {
    assert UnheardHeights(s, []) == {};
    assert Asked(s.lookup, current, {}) == {};
  }

  lemma {:induction false} ByAsking(s: Slice, current: Option<bool>, h: int, last: int)
    requires Honest(s.commit) && !Trusts(s.who)
    ensures LabelledByAsking(s, Collect(s, h, last, Cache(None, current)), current)
    decreases last - h + 1
  {
    if h > last || FateOf(s, h).Halt? {
      NothingAsked(s, current);
    } else if FateOf(s, h).Skip? {
      ByAsking(s, current, h + 1, last);
      assert Collect(s, h, last, Cache(None, current)).blocks == Collect(s, h + 1, last, Cache(None, current)).blocks;
    } else {
      ByAsking(s, current, h + 1, last);
      var b, after := KeptHeight(s, current, h, last);
      hide *;
      var rest := Collect(s, h + 1, last, after);
      if !Unheard(SliceOrigin(s, h)) {
        NotAsking(s, current, b, rest);
      } else if Settles(current, s.lookup(h)) {
        WithoutAsking(s, after, Told(current, s.lookup(h)), h + 1, last);
        AskingOnce(s, current, b, rest);
      } else {
        AskingAgain(s, current, b, rest);
      }
    }
  }

  // ---- a whole poll -------------------------------------------------------

  /** The API calls the validator inactive; or it says nothing, and an inactivity period is known to be going on. */
  ghost predicate KnownOut(cfg: Config, t: TableSet, input: PollInput) {
    if cfg.chainType == Bft && input.validator.Validator?
    then input.validator.jailed || input.validator.bondStatus != "BOND_STATUS_BONDED"
    else input.inactivityReadable && exists h :: h in t.periods && t.periods[h].endHeight == None
  }

  /** The set fetched at startup holds the validator, and it is not known to have left since. */
  ghost predicate BelievesSet(cfg: Config, t: TableSet, input: PollInput) {
    cfg.activeSet.Some? && cfg.valconsHex.GetOr("") in cfg.activeSet.value && !KnownOut(cfg, t, input)
  }

  /** The validator's status as far as a poll knows it. */
  ghost function LastStatus(cfg: Config, t: TableSet, input: PollInput): Option<bool> {
    if KnownOut(cfg, t, input) then Some(false)
    else if cfg.chainType == Bft && input.validator.Validator? then Some(true)
    else None
  }

  lemma KnowsStatus(cfg: Config, t: TableSet, input: PollInput, open: seq<Alert>)
    requires input.tip.Some?
    ensures
      var p := PlanFor(cfg, t, input, open);
      && LastKnownActive(p) == LastStatus(cfg, t, input)
      && (Trusts(SliceOf(cfg, p, input).who) <==> BelievesSet(cfg, t, input))
  {
    var starts := OngoingStarts(t.periods);
    assert (forall h :: h !in starts) ==> starts == {};
    assert forall h :: h in t.periods && t.periods[h].endHeight == None ==> h in starts;
  }

  ghost function UnheardOf(cfg: Config, input: PollInput, heights: set<int>): set<int> {
    set h | h in heights && Unheard(OriginOf(cfg, input, h))
  }

  /** The label of a height without an entry: a miss on the word of the startup set, otherwise the answer for the height asked about. */
  ghost predicate UnheardLabel(cfg: Config, t: TableSet, input: PollInput, unheard: set<int>, b: Block) {
    if BelievesSet(cfg, t, input) then b.signed == 0
    else LabelAsked(input.lookup, LastStatus(cfg, t, input), unheard, b)
  }

  /**
   * What a poll makes of its heights without an entry: misses without a single lookup if the startup
   * set holds the validator and it is not known to be out; otherwise what the lookups say.
   */
  lemma PollLabels(cfg: Config, t: TableSet, input: PollInput, open: seq<Alert>)
    requires Honest(input.commit) && input.tip.Some?
    ensures
      var c := CollectedBy(cfg, PlanFor(cfg, t, input, open), input);
      var unheard := UnheardOf(cfg, input, Heights(c.blocks));
      && c.lookups == (if BelievesSet(cfg, t, input) then 0 else |Asked(input.lookup, LastStatus(cfg, t, input), unheard)|)
      && (forall b <- c.blocks :: b.height in unheard ==> UnheardLabel(cfg, t, input, unheard, b))
  {
    var p := PlanFor(cfg, t, input, open);
    var slice := SliceOf(cfg, p, input);
    KnowsStatus(cfg, t, input, open);
    var first, last, current := FirstHeight(p), LastHeight(cfg, p), LastKnownActive(p);
    if BelievesSet(cfg, t, input) {
      WithoutAsking(slice, Cache(None, current), true, first, last);
    } else {
      ByAsking(slice, current, first, last);
    }
    var c := CollectedBy(cfg, p, input);
    assert forall h :: SliceOrigin(slice, h) == OriginOf(cfg, input, h);
    hide Unheard;
    assert UnheardHeights(slice, c.blocks) == UnheardOf(cfg, input, Heights(c.blocks));
  }

  /**
   * The same on the table, whatever it held before: each row a poll adds is labelled by the validator's
   * own entry in the commit of its height, and without one as the poll's knowledge of the validator says.
   */
  lemma NewRowLabels(cfg: Config, s: Store, input: PollInput, h: int)
    requires Honest(input.commit)
    requires h in Complete(cfg, s, input, Start).tables.blocks && h !in s.tables.blocks
    ensures
      var rows := Complete(cfg, s, input, Start).tables.blocks;
      var unheard := UnheardOf(cfg, input, rows.Keys - s.tables.blocks.Keys);
      && input.commit(h).Fetched? && rows[h].height == h
      && Labelled(rows[h], input.commit(h).commit, cfg.valconsHex, cfg.signer)
      && (h in unheard ==> UnheardLabel(cfg, s.tables, input, unheard, rows[h]))
  {
    hide Complete, Labelled, UnheardLabel, CollectedBy, UnclosedPage, UnheardOf;
    var rows := Complete(cfg, s, input, Start).tables.blocks;
    var batch := CatchUp.PollStores(cfg, s, input);
    var open := UnclosedPage(s.tables.alerts, s.nextId);
    var p := PlanFor(cfg, s.tables, input, open);
    PollLabels(cfg, s.tables, input, open);
    BatchMade(cfg, p, input);
    var k :| 0 <= k < |batch| && batch[k].height == h;
    WithBlocksAt(s.tables.blocks, batch, k);
    assert batch[k] in batch;
    assert rows.Keys - s.tables.blocks.Keys == Heights(batch);
  }

  lemma BatchMade(cfg: Config, p: Plan, input: PollInput)
    requires Honest(input.commit)
    ensures forall b <- CollectedBy(cfg, p, input).blocks :: MadeFrom(b, OriginOf(cfg, input, b.height))
  {
    var slice := SliceOf(cfg, p, input);
    CollectedSlice(slice, FirstHeight(p), LastHeight(cfg, p), Cache(None, LastKnownActive(p)));
    assert forall h :: SliceOrigin(slice, h) == OriginOf(cfg, input, h);
  }
}
