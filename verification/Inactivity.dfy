/** The inactivity periods over whole runs, and what keeps a tombstoned alert open. */
module Inactivity {
  import opened Domain
  import opened Tables
  import opened Evaluator
  import opened Worker
  import OA = OpenAlerts
  import Incidents
  import MissWindow

  // ---- at most one period is ongoing --------------------------------------

  ghost predicate OneOngoing(periods: map<int, Period>) {
    forall a, b :: a in OngoingStarts(periods) && b in OngoingStarts(periods) ==> a == b
  }

  ghost predicate Heads(periods: map<int, Period>) {
    forall h <- periods :: periods[h].height == h
  }

  /** A period is only started in a poll whose ending of the previous one went through. */
  ghost predicate PeriodWritesOk(input: PollInput) { input.startOk ==> input.endOk }

  ghost predicate PhaseOk(periods: map<int, Period>, lastTip: int, input: PollInput, ph: Phase) {
    match ph
    case EndingPeriod(p) =>
      && p.tip.height == lastTip && p.status.Some? && p.status.value.height == lastTip
      && p.ongoing == NewestOngoing(periods) && p.ongoing.Some?
    case StartingPeriod(p) =>
      && p.tip.height == lastTip && p.status.Some? && p.status.value.height == lastTip
      && (input.startOk ==> OngoingStarts(periods) == {})
    case _ => true
  }

  ghost predicate Inv(w: World) {
    && OnePoll(w)
    && Heads(w.store.tables.periods) && OneOngoing(w.store.tables.periods)
    && (forall it <- w.polls ::
          PeriodWritesOk(it.input) && PhaseOk(w.store.tables.periods, w.store.history.lastTip, it.input, it.phase))
  }

  lemma EndingLeavesNone(periods: map<int, Period>, end: int, time: int)
    requires Heads(periods) && OneOngoing(periods) && NewestOngoing(periods).Some?
    ensures OngoingStarts(Ending(periods, NewestOngoing(periods).value.height, end, time)) == {}
    ensures Heads(Ending(periods, NewestOngoing(periods).value.height, end, time))
  {
    var p := NewestOngoing(periods).value;
    assert p.height in OngoingStarts(periods);
    var after := Ending(periods, p.height, end, time);
    assert forall h :: h in OngoingStarts(after) ==> h in OngoingStarts(periods) && h != p.height;
    assert OngoingStarts(after) == {};
  }

  lemma AdvanceKeeps(cfg: Config, s: Store, input: PollInput, ph: Phase)
    requires Heads(s.tables.periods) && OneOngoing(s.tables.periods) && PeriodWritesOk(input)
    requires PhaseOk(s.tables.periods, s.history.lastTip, input, ph)
    ensures
      var next := Advance(cfg, s, input, ph);
      && Heads(next.0.tables.periods) && OneOngoing(next.0.tables.periods)
      && PhaseOk(next.0.tables.periods, next.0.history.lastTip, input, next.1)
  {
    hide UnclosedPage, CollectedBy, WithBlocks, OriginWith, InsertableNow, Applied, ChainEvents;
    match ph
    case EndingPeriod(p) =>
      EndingLeavesNone(s.tables.periods, p.status.value.height, p.status.value.time);
    case StartingPeriod(p) =>
      if input.startOk {
        var after := Advance(cfg, s, input, ph).0.tables.periods;
        assert forall h :: h in OngoingStarts(after) ==> h == p.status.value.height || h in OngoingStarts(s.tables.periods);
      }
    case _ =>
  }

  lemma StepKeeps(w: World, a: Action)
    requires Inv(w) && (a.Tick? ==> PeriodWritesOk(a.input))
    ensures Inv(Next(w, a))
  {
    if a.Resume? && a.i < |w.polls| {
      var it := w.polls[a.i];
      assert it in w.polls && a.i == 0;
      AdvanceKeeps(w.cfg, w.store, it.input, it.phase);
    }
  }

  // ---- periods in order ---------------------------------------------------

  /**
   * Sorted by start, the periods do not overlap: each ends between its own start and the next one's,
   * only the last may be ongoing, and nothing lies beyond the last tip seen.
   */
  ghost predicate Ordered(periods: map<int, Period>, lastTip: int) {
    && (forall a, b :: a in periods && b in periods && a < b ==>
          periods[a].endHeight.Some? && a <= periods[a].endHeight.value <= b)
    && (forall h :: h in periods ==>
          && h <= lastTip
          && (periods[h].endHeight.Some? ==> h <= periods[h].endHeight.value <= lastTip))
  }

  /** The tip a poll observes is no lower than the one observed before. */
  predicate TipRises(w: World, a: Action) {
    (a.Resume? && a.i < |w.polls| && w.polls[a.i].phase.Observing? && w.polls[a.i].input.tip.Some?) ==>
      w.polls[a.i].input.tip.value.height >= w.store.history.lastTip
  }

  ghost predicate RisingStep(w: World, a: Action) {
    TipRises(w, a) && (a.Tick? ==> PeriodWritesOk(a.input))
  }

  ghost predicate Rising(w: World, actions: seq<Action>) {
    forall n :: 0 <= n < |actions| ==> RisingStep(Run(w, actions[..n]), actions[n])
  }

  ghost predicate OrderInv(w: World) {
    Inv(w) && Ordered(w.store.tables.periods, w.store.history.lastTip)
  }

  /** A period that insert-or-replace overwrites had length zero. */
  lemma ReplacesOnlyEmpty(periods: map<int, Period>, lastTip: int)
    requires Ordered(periods, lastTip) && OngoingStarts(periods) == {} && lastTip in periods
    ensures periods[lastTip].endHeight == Some(lastTip)
  {
    assert lastTip !in OngoingStarts(periods);
  }

  lemma OrderAdvance(cfg: Config, s: Store, input: PollInput, ph: Phase)
    requires Ordered(s.tables.periods, s.history.lastTip) && Heads(s.tables.periods)
    requires PhaseOk(s.tables.periods, s.history.lastTip, input, ph)
    requires ph.Observing? && input.tip.Some? ==> input.tip.value.height >= s.history.lastTip
    ensures
      var next := Advance(cfg, s, input, ph).0;
      Ordered(next.tables.periods, next.history.lastTip)
  {
    if ph.EndingPeriod? {
      assert ph.plan.ongoing.value.height in OngoingStarts(s.tables.periods);
    }
    if OngoingStarts(s.tables.periods) == {} {
      assert forall h :: h in s.tables.periods ==> h !in OngoingStarts(s.tables.periods);
    }
    hide UnclosedPage, PlanFor, CollectedBy, WithBlocks, OriginWith, InsertableNow, Applied, ChainEvents, Ending, Heads, OngoingStarts;
    match ph
    case EndingPeriod(p) =>
      EndingKeepsOrderIff(s.tables.periods, s.history.lastTip, s.history.lastTip, p.status.value.time);
    case StartingPeriod(p) =>
      if input.startOk {
        StartingKeepsOrderIff(s.tables.periods, s.history.lastTip, p.status.value);
      }
    case _ =>
  }

  lemma OrderStep(w: World, a: Action)
    requires OrderInv(w) && RisingStep(w, a)
    ensures OrderInv(Next(w, a))
  {
    StepKeeps(w, a);
    hide Advance, PhaseOk, Ordered, Heads;
    if a.Resume? && a.i < |w.polls| {
      var it := w.polls[a.i];
      assert it in w.polls && a.i == 0;
      OrderAdvance(w.cfg, w.store, it.input, it.phase);
    }
  }

  lemma {:induction false} OrderRun(cfg: Config, actions: seq<Action>)
    requires Rising(Booted(cfg, EMPTY), actions)
    ensures OrderInv(Run(Booted(cfg, EMPTY), actions))
  {
    if actions == [] {
      assert OngoingStarts(EMPTY.tables.periods) == {};
    } else {
      var before := actions[..|actions| - 1];
      forall n | 0 <= n < |before| ensures RisingStep(Run(Booted(cfg, EMPTY), before[..n]), before[n]) {
        assert before[..n] == actions[..n];
      }
      OrderRun(cfg, before);
      OrderStep(Run(Booted(cfg, EMPTY), before), actions[|actions| - 1]);
    }
  }

  /** The poll is about to start a period where one is stored already. */
  predicate Overwrites(it: Instance, periods: map<int, Period>) {
    && it.phase.StartingPeriod? && it.input.startOk
    && it.phase.plan.status.Some? && it.phase.plan.status.value.height in periods
  }

  /**
   * With tips that never fall, and no period started in a poll that failed to end the previous one,
   * the periods of every reachable state are in order; and a start about to be written where one is
   * stored already overwrites a period of length zero.
   */
  lemma {:induction false} PeriodsInOrder(cfg: Config, actions: seq<Action>)
    requires Rising(Booted(cfg, EMPTY), actions)
    ensures
      var w := Run(Booted(cfg, EMPTY), actions);
      var periods := w.store.tables.periods;
      && Ordered(periods, w.store.history.lastTip)
      && OneOngoing(periods)
      && (forall it <- w.polls :: Overwrites(it, periods) ==>
            periods[it.phase.plan.status.value.height].endHeight == Some(it.phase.plan.status.value.height))
  {
    OrderRun(cfg, actions);
    var w := Run(Booted(cfg, EMPTY), actions);
    forall it | it in w.polls && Overwrites(it, w.store.tables.periods)
      ensures w.store.tables.periods[it.phase.plan.status.value.height].endHeight == Some(it.phase.plan.status.value.height)
    {
      ReplacesOnlyEmpty(w.store.tables.periods, w.store.history.lastTip);
    }
  }

  function Max(a: int, b: int): int { if a >= b then a else b }

  /** Ending the ongoing period at a tip keeps the order exactly when the tip is not below the period's start. */
  lemma EndingKeepsOrderIff(periods: map<int, Period>, lastTip: int, tip: int, time: int)
    requires Ordered(periods, lastTip) && Heads(periods) && NewestOngoing(periods).Some?
    ensures
      var start := NewestOngoing(periods).value.height;
      Ordered(Ending(periods, start, tip, time), Max(lastTip, tip)) <==> start <= tip
  {
    var p := NewestOngoing(periods).value;
    assert p.height in OngoingStarts(periods) && periods[p.height] == p;
    var after := Ending(periods, p.height, tip, time);
    assert p.height in after && after[p.height].endHeight == Some(tip);
    assert forall b :: b in periods && b > p.height ==> periods[p.height].endHeight.Some?;
  }

  /** With none ongoing, starting a period at a tip keeps the order exactly when no other period ends above the tip. */
  lemma StartingKeepsOrderIff(periods: map<int, Period>, lastTip: int, s: Status)
    requires Ordered(periods, lastTip) && OngoingStarts(periods) == {}
    ensures Ordered(periods[s.height := NewPeriod(s)], Max(lastTip, s.height))
            <==> forall h :: h in periods && h != s.height ==> periods[h].endHeight.Some? && periods[h].endHeight.value <= s.height
  {
    assert forall h :: h in periods ==> h !in OngoingStarts(periods);
    var after := periods[s.height := NewPeriod(s)];
    if Ordered(after, Max(lastTip, s.height)) {
      forall h | h in periods && h != s.height ensures periods[h].endHeight.Some? && periods[h].endHeight.value <= s.height {
        assert h in after && s.height in after && after[h] == periods[h];
      }
    }
  }

  // ---- what a poll's events are about -------------------------------------

  // What the status check emits for each of its kinds.

  lemma {:induction false} ClosesOf(kinds: seq<AlertKind>, wanted: Option<AlertKind>, open: seq<Alert>, now: int, kind: AlertKind)
    ensures kind in kinds && Some(kind) != wanted && LastOfKind(open, kind).Some? ==>
              Close(LastOfKind(open, kind).value, now) in StatusCloses(kinds, wanted, open, now)
    ensures Some(kind) == wanted || LastOfKind(open, kind).None? ==>
              forall e <- StatusCloses(kinds, wanted, open, now) :: e.alert.key.kind != kind
  {
    if kinds != [] {
      ClosesOf(kinds[..|kinds| - 1], wanted, open, now, kind);
      assert kinds == kinds[..|kinds| - 1] + [kinds[|kinds| - 1]];
    }
  }

  lemma ChainKinds(cfg: AlertConfig, tip: Tip, recent: seq<Block>, stats: WindowStats, open: seq<Alert>, now: int, id: nat, e: AlertEvent)
    requires e in CheckStalled(cfg, tip, open, now, id) + CheckConsecutiveMiss(cfg, recent, open, now, id + 1)
                  + CheckPercentageMiss(cfg, stats, open, now, id + 2)
    ensures !IsStatusKind(e.alert.key.kind)
  {
    var a, b, c := CheckStalled(cfg, tip, open, now, id), CheckConsecutiveMiss(cfg, recent, open, now, id + 1),
                   CheckPercentageMiss(cfg, stats, open, now, id + 2);
    assert e in a || e in b || e in c;
    assert e in a ==> e.alert.key.kind == Stalled;
    assert e in b ==> e.alert.key.kind == ConsecutiveMiss;
    assert e in c ==> e.alert.key.kind == PercentageMiss;
  }

  lemma EndpointKinds(cfg: Config, s: Store, input: PollInput, open: seq<Alert>, id: nat, keys: set<Key>)
    requires ConfigOk(cfg) && OA.AlertsOk(s.tables.alerts, s.nextId, keys) && OA.ExactPage(open, s.tables.alerts) && id >= s.nextId
    ensures forall e <- EndpointsEvaluated(cfg.alerts, Checks(cfg, input), s.downSince, open, input.endpointsAt, id) :: IsDownKind(e.alert.key.kind)
  {
    OA.EndpointsFit(cfg, s.downSince, input, open, s.tables.alerts, id, s.nextId, keys);
    var configured := ConfiguredKeys(Checks(cfg, input));
    assert forall c <- Checks(cfg, input) :: c.endpoint in cfg.endpoints;
    forall k | k in configured + OA.OrphanedKeys(open, configured) ensures IsDownKind(k.kind) {
    }
  }

  /** A poll's reads all answer, and its writes all succeed. */
  ghost predicate AllOk(input: PollInput) {
    && input.alertsReadable && input.heightReadable && input.tip.Some? && input.inactivityReadable
    && input.endOk && input.startOk && input.tailReadable && input.statsReadable
    && Incidents.AlertWritesOk(input)
  }

  /** The periods once the worker has recorded a status. */
  function Recorded(periods: map<int, Period>, s: Status): map<int, Period> {
    RecordedBy(periods, s, NewestOngoing(periods), true, true)
  }

  /** Exactly one period is ongoing, for the status's reason, or none if the validator is active. */
  ghost predicate Reflects(periods: map<int, Period>, s: Status) {
    if s.active then OngoingStarts(periods) == {}
    else exists h :: OngoingStarts(periods) == {h} && periods[h].jailed == s.jailed && periods[h].permanent == s.permanent
  }

  lemma RecordingReflects(periods: map<int, Period>, s: Status)
    requires Heads(periods) && OneOngoing(periods)
    ensures Reflects(Recorded(periods, s), s)
  {
    var ongoing := NewestOngoing(periods);
    var after := Recorded(periods, s);
    if EndsPeriod(s, ongoing) {
      EndingLeavesNone(periods, s.height, s.time);
    }
    if StartsPeriod(s, ongoing) {
      assert OngoingStarts(after) == {s.height};
    } else if !s.active {
      var h :| h in OngoingStarts(periods) && periods[h] == ongoing.value;
      assert OngoingStarts(after) == {h};
    }
  }

  lemma FromPending(s: Store, events: seq<AlertEvent>, keys: set<Key>)
    requires OA.PhaseOk(s, Pending(events, 0), keys)
    ensures OA.EventsOk(s, events, 0, keys)
  {
    if events == [] {
      assert events[0..] == [];
    }
  }

  lemma {:induction false} InvRun(cfg: Config, actions: seq<Action>)
    requires forall a <- actions :: a.Tick? ==> PeriodWritesOk(a.input)
    ensures Inv(Run(Booted(cfg, EMPTY), actions))
  {
    if actions == [] {
      assert OngoingStarts(EMPTY.tables.periods) == {};
    } else {
      InvRun(cfg, actions[..|actions| - 1]);
      StepKeeps(Run(Booted(cfg, EMPTY), actions[..|actions| - 1]), actions[|actions| - 1]);
    }
  }

  /**
   * Recording keeps at most one period ongoing exactly when it does not start a new one over an
   * ending that failed. (Starting at the very height of the one that should have ended replaces it.)
   */
  lemma RecordingKeepsOneIff(periods: map<int, Period>, s: Status, endOk: bool, startOk: bool)
    requires Heads(periods) && OneOngoing(periods)
    ensures
      var ongoing := NewestOngoing(periods);
      OneOngoing(RecordedBy(periods, s, ongoing, endOk, startOk))
      <==> !(ongoing.Some? && StartsPeriod(s, ongoing) && startOk && !endOk && ongoing.value.height != s.height)
  {
    var ongoing := NewestOngoing(periods);
    var after := RecordedBy(periods, s, ongoing, endOk, startOk);
    if ongoing.Some? {
      var h := ongoing.value.height;
      assert h in OngoingStarts(periods) && forall x :: x in OngoingStarts(periods) ==> x == h;
      if StartsPeriod(s, ongoing) && startOk {
        assert s.height in OngoingStarts(after);
        assert h != s.height ==> (h in OngoingStarts(after) <==> !endOk);
        forall x | x in OngoingStarts(after) && x != s.height ensures x == h {
          assert x in OngoingStarts(periods);
        }
      } else {
        assert forall x :: x in OngoingStarts(after) ==> x in OngoingStarts(periods);
      }
    } else {
      assert forall x :: x in OngoingStarts(after) ==> x in OngoingStarts(periods) || x == s.height;
    }
  }

  // ---- tombstoned for good ------------------------------------------------

  /** Jailed for good: flagged as tombstoned, or jailed until the year 9999 or later. */
  predicate ForGood(info: Option<SigningInfo>) {
    info.Some? && (info.value.tombstoned == Some(true) || (info.value.jailedUntil.Some? && info.value.jailedUntil.value >= 253_370_764_800_000))
  }

  /** Whenever the REST API answers about the validator it says jailed, and the signing info answers that it is for good. */
  predicate StaysTombstoned(input: PollInput) {
    input.validator.Unavailable? || (input.validator.jailed && ForGood(input.signingInfo))
  }

  predicate NotReturning(status: Option<Status>) {
    status.Some? ==> WantedKind(status.value) == Some(Tombstoned)
  }

  lemma NotReturningIff(chain: ChainType, tip: Tip, input: PollInput)
    ensures NotReturning(StatusAt(chain, tip, input.validator, input.signingInfo)) <==> chain != Bft || StaysTombstoned(input)
  {
  }

  ghost predicate LeavesOpen(ph: Phase, row: nat) {
    match ph
    case EndingPeriod(p) => NotReturning(p.status)
    case StartingPeriod(p) => NotReturning(p.status)
    case Fetching(p) => NotReturning(p.status)
    case Appending(p, _) => NotReturning(p.status)
    case Inserting(p, _) => NotReturning(p.status)
    case Judging(p, _) => NotReturning(p.status)
    case Applying(events, _) => forall e <- events :: e.Close? ==> e.alert.id != row
    case Dispatching(events, _) => forall e <- events :: e.Close? ==> e.alert.id != row
    case _ => true
  }

  ghost predicate TombInv(w: World, keys: set<Key>, row: nat) {
    && OA.Inv(w, keys)
    && row in w.store.tables.alerts && Unclosed(w.store.tables.alerts[row])
    && w.store.tables.alerts[row].key == Key(Tombstoned, None)
    && (forall it <- w.polls :: StaysTombstoned(it.input) && LeavesOpen(it.phase, row))
  }

  lemma ClosesOnlyItsOwn(cfg: AlertConfig, tail: seq<Block>, stats: WindowStats, open: seq<Alert>, status: Option<Status>,
                         tip: Tip, now: int, id: nat)
    requires NotReturning(status)
    ensures forall e <- Evaluated(cfg, tail, stats, open, status, tip, now, id) :: e.Close? ==> e.alert.key.kind != Tombstoned
  {
    var recent := SliceLast(tail, cfg.missThreshold);
    var d := CheckValidatorStatus(cfg, status, open, now, id + 3);
    if status.Some? {
      ClosesOf(STATUS_KINDS, WantedKind(status.value), open, now, Tombstoned);
    }
    assert forall e <- d :: e.Close? ==> e.alert.key.kind != Tombstoned;
    forall e | e in Evaluated(cfg, tail, stats, open, status, tip, now, id) && e.Close? ensures e.alert.key.kind != Tombstoned {
      var before := CheckStalled(cfg, tip, open, now, id) + CheckConsecutiveMiss(cfg, recent, open, now, id + 1)
                    + CheckPercentageMiss(cfg, stats, open, now, id + 2);
      if e in before {
        ChainKinds(cfg, tip, recent, stats, open, now, id, e);
      } else {
        assert e in d;
      }
    }
  }

  lemma JudgedLeavesOpen(cfg: Config, s: Store, input: PollInput, open: seq<Alert>, chainEvents: seq<AlertEvent>, keys: set<Key>, row: nat)
    requires ConfigOk(cfg) && OA.KeysFor(cfg, keys) && OA.AlertsOk(s.tables.alerts, s.nextId, keys) && OA.ExactPage(open, s.tables.alerts)
    requires OA.Batch(chainEvents, s.tables.alerts, s.nextId, s.nextId + CHECKS, OA.CHAIN_KEYS)
    requires row in s.tables.alerts && s.tables.alerts[row].key == Key(Tombstoned, None)
    requires forall e <- chainEvents :: e.Close? ==> e.alert.key.kind != Tombstoned
    ensures LeavesOpen(WithEndpoints(cfg, s, input, open, chainEvents).1, row)
  {
    hide EndpointsEvaluated;
    var more := EndpointsEvaluated(cfg.alerts, Checks(cfg, input), s.downSince, open, input.endpointsAt, s.nextId + CHECKS);
    EndpointKinds(cfg, s, input, open, s.nextId + CHECKS, keys);
    OA.EndpointsFit(cfg, s.downSince, input, open, s.tables.alerts, s.nextId + CHECKS, s.nextId, keys);
    forall e | e in chainEvents + more && e.Close? ensures e.alert.id != row {
      assert e in chainEvents || e in more;
      assert s.tables.alerts[e.alert.id] == e.alert;
    }
  }

  lemma TombAdvance(cfg: Config, s: Store, input: PollInput, ph: Phase, keys: set<Key>, row: nat)
    requires ConfigOk(cfg) && OA.KeysFor(cfg, keys) && OA.AlertsOk(s.tables.alerts, s.nextId, keys) && OA.PhaseOk(s, ph, keys)
    requires row in s.tables.alerts && s.tables.alerts[row].key == Key(Tombstoned, None)
    requires StaysTombstoned(input) && LeavesOpen(ph, row)
    ensures LeavesOpen(Advance(cfg, s, input, ph).1, row)
  {
    match ph
    case Judging(p, blocks) =>
      if input.tailReadable && input.statsReadable {
        var end := WindowEnd(p, blocks);
        var tail := MissWindow.TailWindow(s.tables.blocks, end, cfg.alerts.missThreshold);
        var stats := Stats(s.tables.blocks, MissWindow.WindowStart(end, cfg.signingWindow), end);
        OA.EvaluatedFits(cfg.alerts, tail, stats, p.open, p.status, p.tip, input.evaluatedAt, s.nextId, s.tables.alerts, keys);
        ClosesOnlyItsOwn(cfg.alerts, tail, stats, p.open, p.status, p.tip, input.evaluatedAt, s.nextId);
      }
      JudgedLeavesOpen(cfg, s, input, p.open, ChainEvents(cfg, s, input, p, blocks), keys, row);
    case JudgingEndpoints(open) => JudgedLeavesOpen(cfg, s, input, open, [], keys, row);
    case _ =>
  }

  lemma TombRow(cfg: Config, s: Store, input: PollInput, ph: Phase, keys: set<Key>, row: nat)
    requires OA.AlertsOk(s.tables.alerts, s.nextId, keys) && OA.PhaseOk(s, ph, keys) && LeavesOpen(ph, row)
    requires row in s.tables.alerts && Unclosed(s.tables.alerts[row]) && s.tables.alerts[row].key == Key(Tombstoned, None)
    ensures
      var alerts := Advance(cfg, s, input, ph).0.tables.alerts;
      row in alerts && Unclosed(alerts[row]) && alerts[row].key == Key(Tombstoned, None)
  {
    hide UnclosedPage, PlanFor, Ending, CollectedBy, WithBlocks, OriginWith, InsertableNow, ChainEvents;
    if ph.Applying? && ph.k < |ph.events| {
      var e := ph.events[ph.k];
      assert ph.events[ph.k..][0] == e && e in ph.events[ph.k..] && e in ph.events;
    }
  }

  lemma TombStep(w: World, a: Action, keys: set<Key>, row: nat)
    requires TombInv(w, keys, row) && |keys| <= ALERT_PAGE && (a.Tick? ==> StaysTombstoned(a.input))
    requires a.Restart? ==> ConfigOk(a.cfg) && OA.KeysFor(a.cfg, keys)
    ensures TombInv(Next(w, a), keys, row)
  {
    OA.StepKeeps(w, a, keys);
    hide Advance;
    if a.Resume? && a.i < |w.polls| {
      var it := w.polls[a.i];
      assert it in w.polls && a.i == 0;
      TombAdvance(w.cfg, w.store, it.input, it.phase, keys, row);
      TombRow(w.cfg, w.store, it.input, it.phase, keys, row);
    }
  }

  /**
   * Once open, a tombstoned alert stays open: over any run in which every signing-info fetch answers
   * that the validator is tombstoned, whatever else fails and however often the process restarts.
   */
  lemma {:induction false} TombstonedNeverCloses(w: World, actions: seq<Action>, keys: set<Key>, row: nat)
    requires TombInv(w, keys, row) && |keys| <= ALERT_PAGE && OA.ConfigsOk(actions, keys)
    requires forall a <- actions :: a.Tick? ==> StaysTombstoned(a.input)
    ensures TombInv(Run(w, actions), keys, row)
    ensures row in Run(w, actions).store.tables.alerts && Unclosed(Run(w, actions).store.tables.alerts[row])
  {
    if actions != [] {
      TombstonedNeverCloses(w, actions[..|actions| - 1], keys, row);
      TombStep(Run(w, actions[..|actions| - 1]), actions[|actions| - 1], keys, row);
    }
  }
}
