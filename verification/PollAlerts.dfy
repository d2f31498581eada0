/** What one poll makes of the alerts and the periods, said from its input and the tables alone. */
module PollAlerts {
  import opened Domain
  import opened Tables
  import opened Evaluator
  import opened Worker
  import opened AlertRules
  import CatchUp
  import DownTimers
  import Incidents
  import Inactivity
  import Ingestion
  import MissWindow
  import OA = OpenAlerts

  // ---- a whole poll -------------------------------------------------------

  /** Everything a poll reads for its chain checks answers. Its writes may fail. */
  predicate ReadsOk(input: PollInput) {
    && input.alertsReadable && input.heightReadable && input.tip.Some?
    && input.tailReadable && input.statsReadable
  }

  ghost function Events(entries: seq<Entry>): seq<AlertEvent> { seq(|entries|, i requires 0 <= i < |entries| => entries[i].event) }

  /** What a poll sends: the events logged since. */
  ghost function Sent(before: Store, after: Store): seq<AlertEvent> {
    if before.history.log <= after.history.log then Events(after.history.log[|before.history.log|..]) else []
  }

  lemma {:induction false} LogsAll(cfg: Config, s: Store, input: PollInput, events: seq<AlertEvent>, k: nat) returns (sent: seq<Entry>)
    requires k <= |events|
    ensures
      var after := Complete(cfg, s, input, Pending(events, k));
      && after.history.log == s.history.log + sent && Events(sent) == events[k..]
      && after.downSince == s.downSince && after.tables.blocks == s.tables.blocks && after.tables.periods == s.tables.periods
    decreases |events| - k
  {
    if k == |events| {
      assert Complete(cfg, s, input, Done) == s;
      sent := [];
      assert s.history.log + [] == s.history.log;
    } else {
      AppliesAsMachine(cfg, s, input, events, k);
      hide Complete, Applied;
      var s' := s.(tables := s.tables.(alerts := Applied(s.tables.alerts, input, events[k], k)),
                   history := s.history.(log := s.history.log + [Entry(events[k], input.evaluatedAt)]));
      var rest := LogsAll(cfg, s', input, events, k + 1);
      sent := [Entry(events[k], input.evaluatedAt)] + rest;
      assert s.history.log + [Entry(events[k], input.evaluatedAt)] + rest == s.history.log + sent;
      EventsCons(Entry(events[k], input.evaluatedAt), rest);
      assert events[k..] == [events[k]] + events[k + 1..];
    }
  }

  lemma EventsCons(x: Entry, rest: seq<Entry>)
    ensures Events([x] + rest) == [x.event] + Events(rest)
  {
  }

  lemma LoggedIsSent(before: Store, after: Store, sent: seq<Entry>)
    requires after.history.log == before.history.log + sent
    ensures Sent(before, after) == Events(sent)
  {
    assert after.history.log[|before.history.log|..] == sent;
  }

  /**
   * What is sent can be applied one event after the other, under ids no row has yet for those to open,
   * and if the writes succeed the table is left as the events say.
   */
  ghost predicate SendsWell(cfg: Config, s: Store, input: PollInput, keys: set<Key>, after: Store) {
    var sent, ids := Sent(s, after), s.nextId + CHECKS + |cfg.endpoints|;
    && s.history.log <= after.history.log
    && OA.DistinctKeys(sent)
    && OA.AlertsOk(s.tables.alerts, ids, keys) && (forall e <- sent :: OA.Fits(e, s.tables.alerts, 0, ids))
    && (Incidents.AlertWritesOk(input) ==> Written(sent, 0, s.tables.alerts, after.tables.alerts, input.appliedAt))
  }

  /** What is sent from the endpoint checks on, when the chain checks have made these events. */
  lemma EndpointsSend(cfg: Config, s: Store, input: PollInput, open: seq<Alert>, chain: seq<AlertEvent>, keys: set<Key>)
    requires ConfigOk(cfg) && OA.KeysFor(cfg, keys) && |keys| <= ALERT_PAGE
    requires OA.AlertsOk(s.tables.alerts, s.nextId, keys) && OA.ExactPage(open, s.tables.alerts)
    requires OA.Batch(chain, s.tables.alerts, s.nextId, s.nextId + CHECKS, OA.CHAIN_KEYS)
    ensures
      var next := WithEndpoints(cfg, s, input, open, chain);
      var after := Complete(cfg, next.0, input, next.1);
      && Sent(s, after) == chain + EndpointsEvaluated(cfg.alerts, Checks(cfg, input), s.downSince, open, input.endpointsAt, s.nextId + CHECKS)
      && SendsWell(cfg, s, input, keys, after)
      && after.tables.blocks == s.tables.blocks && after.tables.periods == s.tables.periods
      && after.downSince == TimersAfter(Checks(cfg, input), s.downSince, input.endpointsAt)
  {
    hide EndpointsEvaluated, TimersAfter, OA.AlertsOk, OA.ExactPage, OA.KeysFor, ConfigOk, Complete, Checks;
    OA.JudgedFits(cfg, s, input, open, chain, keys);
    hide OA.Batch;
    var next := WithEndpoints(cfg, s, input, open, chain);
    var events := chain + EndpointsEvaluated(cfg.alerts, Checks(cfg, input), s.downSince, open, input.endpointsAt, s.nextId + CHECKS);
    var sent := LogsAll(cfg, next.0, input, events, 0);
    assert events[0..] == events;
    LoggedIsSent(s, Complete(cfg, next.0, input, next.1), sent);
    Inactivity.FromPending(next.0, events, keys);
    EventsApart(next.0, events, keys);
    if Incidents.AlertWritesOk(input) {
      WritesAll(cfg, next.0, input, events, 0, keys);
    }
  }

  lemma EventsApart(s: Store, events: seq<AlertEvent>, keys: set<Key>)
    requires OA.EventsOk(s, events, 0, keys)
    ensures OA.DistinctKeys(events) && forall e <- events :: OA.Fits(e, s.tables.alerts, 0, s.nextId)
  {
    assert events[0..] == events;
  }

  lemma UpToJudgingKeeps(cfg: Config, s: Store, input: PollInput, p: Plan)
    ensures
      var s1 := UpToJudging(cfg, s, input, p);
      s1.tables.alerts == s.tables.alerts && s1.nextId == s.nextId && s1.downSince == s.downSince && s1.history.log == s.history.log
  {
    hide CollectedBy, InsertableNow, RecordedBy, WithBlocks, OriginWith;
  }

  /** A poll that can read what it needs sends the events of its chain checks, then those of its endpoint checks. */
  lemma Sends(cfg: Config, s: Store, input: PollInput, keys: set<Key>) returns (p: Plan, s1: Store)
    requires ConfigOk(cfg) && OA.KeysFor(cfg, keys) && |keys| <= ALERT_PAGE && OA.AlertsOk(s.tables.alerts, s.nextId, keys)
    requires input.alertsReadable && input.heightReadable && input.tip.Some?
    ensures p == PlanFor(cfg, s.tables, input, UnclosedPage(s.tables.alerts, s.nextId)) && OA.ExactPage(p.open, s.tables.alerts)
    ensures s1 == UpToJudging(cfg, s, input, p)
    ensures s1.tables.alerts == s.tables.alerts && s1.nextId == s.nextId && s1.downSince == s.downSince
    ensures
      var after := Complete(cfg, s, input, Start);
      && Sent(s, after) == ChainEvents(cfg, s1, input, p, CollectedBy(cfg, p, input).blocks)
                           + EndpointsEvaluated(cfg.alerts, Checks(cfg, input), s.downSince, p.open, input.endpointsAt, s.nextId + CHECKS)
      && SendsWell(cfg, s, input, keys, after)
      && after.tables.blocks == s1.tables.blocks && after.tables.periods == s1.tables.periods
      && after.downSince == TimersAfter(Checks(cfg, input), s.downSince, input.endpointsAt)
  {
    hide Complete, UpToJudging, CollectedBy, StatusAt, UnclosedPage, NewestOngoing, Latest, WithEndpoints, ChainEvents,
      EndpointsEvaluated, TimersAfter,
      ConfigOk, OA.KeysFor, OA.AlertsOk, OA.ExactPage, OA.Batch, Sent, SendsWell;
    OA.PageIsExact(s.tables.alerts, s.nextId, keys);
    p := ComesToJudging(cfg, s, input);
    s1 := UpToJudging(cfg, s, input, p);
    UpToJudgingKeeps(cfg, s, input, p);
    var blocks := CollectedBy(cfg, p, input).blocks;
    JudgingUnfolds(cfg, s1, input, p, blocks);
    OA.ChainEventsFit(cfg, s1, input, p, blocks, keys);
    EndpointsSend(cfg, s1, input, p.open, ChainEvents(cfg, s1, input, p, blocks), keys);
    SentSame(cfg, s, s1, input, keys, Complete(cfg, s, input, Start));
  }

  lemma SentSame(cfg: Config, s: Store, s1: Store, input: PollInput, keys: set<Key>, after: Store)
    requires s.history.log == s1.history.log && s.tables.alerts == s1.tables.alerts && s.nextId == s1.nextId
    ensures Sent(s, after) == Sent(s1, after) && (SendsWell(cfg, s, input, keys, after) <==> SendsWell(cfg, s1, input, keys, after))
  {
  }

  ghost predicate Greatest(heights: set<int>, h: int) { h in heights && forall x <- heights :: x <= h }

  ghost function Collected(cfg: Config, s: Store, input: PollInput): set<int>
    requires input.tip.Some?
  {
    Ingestion.Heights(CollectedBy(cfg, PlanFor(cfg, s.tables, input, UnclosedPage(s.tables.alerts, s.nextId)), input).blocks)
  }

  /** Where the alert windows of a poll end: at the newest block it collected, else at the newest stored one, else at the tip. */
  ghost predicate WindowEndsAt(cfg: Config, s: Store, input: PollInput, end: int)
    requires input.tip.Some?
  {
    if Collected(cfg, s, input) != {} then Greatest(Collected(cfg, s, input), end)
    else if s.tables.blocks.Keys != {} then Greatest(s.tables.blocks.Keys, end)
    else end == input.tip.value.height
  }

  lemma WindowEnds(cfg: Config, s: Store, input: PollInput, p: Plan)
    requires ReadsOk(input) && Ingestion.Honest(input.commit)
    requires p == PlanFor(cfg, s.tables, input, UnclosedPage(s.tables.alerts, s.nextId))
    ensures
      var end := WindowEnd(p, CollectedBy(cfg, p, input).blocks);
      var rows := UpToJudging(cfg, s, input, p).tables.blocks;
      && WindowEndsAt(cfg, s, input, end)
      && (input.appendOk || input.insertOk ==> if rows.Keys != {} then Greatest(rows.Keys, end) else end == input.tip.value.height)
  {
    var blocks := CollectedBy(cfg, p, input).blocks;
    BatchOnTop(cfg, p, input, s.tables.blocks);
    if input.appendOk || input.insertOk {
      CatchUp.StoresBatch(cfg, s, input, p);
    }
    hide UnclosedPage, StatusAt, UpToJudging, CollectedBy, InsertableNow;
    assert blocks == [] ==> Ingestion.Heights(blocks) == {};
    assert WithBlocks(s.tables.blocks, blocks).Keys == s.tables.blocks.Keys + Ingestion.Heights(blocks);
  }

  lemma BatchOnTop(cfg: Config, p: Plan, input: PollInput, rows: map<int, Block>)
    requires Ingestion.Honest(input.commit) && p.dbHeight == Latest(rows)
    ensures
      var blocks := CollectedBy(cfg, p, input).blocks;
      && (blocks != [] ==> Greatest(Ingestion.Heights(blocks), blocks[|blocks| - 1].height))
      && InsertableNow(rows, blocks)
      && (forall h <- rows, b <- blocks :: h < b.height)
  {
    hide CollectedBy, InsertableNow;
    CatchUp.BatchAbove(cfg, p, input, rows);
    var blocks := CollectedBy(cfg, p, input).blocks;
    if blocks != [] {
      LastIsGreatest(blocks);
    }
  }

  lemma LastIsGreatest(blocks: seq<Block>)
    requires Ingestion.Ascending(blocks) && blocks != []
    ensures Greatest(Ingestion.Heights(blocks), blocks[|blocks| - 1].height)
  {
    assert blocks[|blocks| - 1] in blocks;
  }

  /** Whom the events of the four checks and of the endpoint checks are about. */
  lemma Kinds(cfg: AlertConfig, recent: seq<Block>, stats: WindowStats, open: seq<Alert>, status: Option<Status>, tip: Tip, now: int, id: nat)
    ensures forall e <- CheckStalled(cfg, tip, open, now, id) :: e.alert.key.kind == Stalled
    ensures forall e <- CheckConsecutiveMiss(cfg, recent, open, now, id + 1) :: e.alert.key.kind == ConsecutiveMiss
    ensures forall e <- CheckPercentageMiss(cfg, stats, open, now, id + 2) :: e.alert.key.kind == PercentageMiss
    ensures forall e <- CheckValidatorStatus(cfg, status, open, now, id + 3) :: IsStatusKind(e.alert.key.kind)
  {
    hide TrailingMisses, Ratio;
    if status.Some? {
      var wanted := WantedKind(status.value);
      forall kind | !IsStatusKind(kind) ensures forall e <- StatusCloses(STATUS_KINDS, wanted, open, now) :: e.alert.key.kind != kind {
        NotInKinds(STATUS_KINDS, wanted, open, now, kind);
      }
    }
  }

  lemma {:induction false} NotInKinds(kinds: seq<AlertKind>, wanted: Option<AlertKind>, open: seq<Alert>, now: int, kind: AlertKind)
    requires kind !in kinds
    ensures forall e <- StatusCloses(kinds, wanted, open, now) :: e.alert.key.kind != kind
  {
    if kinds != [] {
      NotInKinds(kinds[..|kinds| - 1], wanted, open, now, kind);
    }
  }

  /** Each part of a sequence of events decides alone about a key none of the others is about. */
  lemma PartFollows(parts: seq<seq<AlertEvent>>, k: nat, key: Key, open: Option<Alert>, wanted: Option<bool>, due: bool, now: int)
    requires |parts| == 5 && k < 5 && Follows(parts[k], key, open, wanted, due, now)
    requires forall j :: 0 <= j < 5 && j != k ==> forall e <- parts[j] :: e.alert.key != key
    ensures Follows(parts[0] + parts[1] + parts[2] + parts[3] + parts[4], key, open, wanted, due, now)
  {
    var a, b, c, d, m := parts[0], parts[1], parts[2], parts[3], parts[4];
    var before, after: seq<AlertEvent>;
    match k
    case 0 => before, after := [], b + c + d + m;
    case 1 => before, after := a, c + d + m;
    case 2 => before, after := a + b, d + m;
    case 3 => before, after := a + b + c, m;
    case 4 => before, after := a + b + c + d, [];
    assert a + b + c + d + m == before + parts[k] + after;
    hide Follows;
    FollowsThrough(before, parts[k], after, key, open, wanted, due, now);
  }

  /** The notifications of one poll about the six chain alerts, from its input and the tables alone. */
  ghost predicate ChainNotices(cfg: Config, input: PollInput, before: map<nat, Alert>, rows: map<int, Block>, end: int, sent: seq<AlertEvent>)
    requires input.tip.Some?
  {
    var now, a := input.evaluatedAt, cfg.alerts;
    var missed, share := OpenRow(before, Key(ConsecutiveMiss, None)), OpenRow(before, Key(PercentageMiss, None));
    && Follows(sent, Key(Stalled, None), OpenRow(before, Key(Stalled, None)), StalledWanted(a, input.tip.value, now), false, now)
    && Follows(sent, Key(ConsecutiveMiss, None), missed, MissWanted(a, rows, end), MissDue(a, missed, now), now)
    && Follows(sent, Key(PercentageMiss, None), share, PercentWanted(a, rows, end, cfg.signingWindow),
               PercentDue(a, rows, end, cfg.signingWindow, share), now)
    && (forall kind :: IsStatusKind(kind) ==>
          Follows(sent, Key(kind, None), OpenRow(before, Key(kind, None)), StatusWanted(cfg, input, kind), false, now))
  }

  /** The four checks over what the evaluator is given, and the endpoint checks. */
  ghost function Parts(cfg: Config, s: Store, input: PollInput, p: Plan, blocks: seq<Block>, more: seq<AlertEvent>): seq<seq<AlertEvent>> {
    var a, end, now := cfg.alerts, WindowEnd(p, blocks), input.evaluatedAt;
    var recent := SliceLast(MissWindow.TailWindow(s.tables.blocks, end, a.missThreshold), a.missThreshold);
    var stats := Stats(s.tables.blocks, MissWindow.WindowStart(end, cfg.signingWindow), end);
    [CheckStalled(a, p.tip, p.open, now, s.nextId), CheckConsecutiveMiss(a, recent, p.open, now, s.nextId + 1),
     CheckPercentageMiss(a, stats, p.open, now, s.nextId + 2), CheckValidatorStatus(a, p.status, p.open, now, s.nextId + 3), more]
  }

  predicate KindOf(part: int, kind: AlertKind) {
    match part
    case 0 => kind == Stalled
    case 1 => kind == ConsecutiveMiss
    case 2 => kind == PercentageMiss
    case 3 => IsStatusKind(kind)
    case _ => IsDownKind(kind)
  }

  ghost predicate About(events: seq<AlertEvent>, part: int) {
    forall e <- events :: KindOf(part, e.alert.key.kind)
  }

  lemma PartsAre(cfg: Config, s: Store, input: PollInput, p: Plan, blocks: seq<Block>, more: seq<AlertEvent>)
    requires input.tailReadable && input.statsReadable && forall e <- more :: IsDownKind(e.alert.key.kind)
    ensures
      var parts := Parts(cfg, s, input, p, blocks, more);
      && |parts| == 5 && (forall j :: 0 <= j < 5 ==> About(parts[j], j))
      && ChainEvents(cfg, s, input, p, blocks) + more == parts[0] + parts[1] + parts[2] + parts[3] + parts[4]
  {
    var a, end, now := cfg.alerts, WindowEnd(p, blocks), input.evaluatedAt;
    var recent := SliceLast(MissWindow.TailWindow(s.tables.blocks, end, a.missThreshold), a.missThreshold);
    var stats := Stats(s.tables.blocks, MissWindow.WindowStart(end, cfg.signingWindow), end);
    hide CheckStalled, CheckConsecutiveMiss, CheckPercentageMiss, CheckValidatorStatus, WindowEnd, Stats, SliceLast, MissWindow.TailWindow;
    Kinds(a, recent, stats, p.open, p.status, p.tip, now, s.nextId);
    var parts := Parts(cfg, s, input, p, blocks, more);
    assert About(parts[0], 0) && About(parts[1], 1) && About(parts[2], 2) && About(parts[3], 3) && About(parts[4], 4);
  }

  lemma NotAbout(events: seq<AlertEvent>, j: int, k: int, key: Key)
    requires About(events, j) && KindOf(k, key.kind) && 0 <= j < 5 && 0 <= k < 5 && j != k
    ensures forall e <- events :: e.alert.key != key
  {
  }

  /** A part that steers a key of its own kind steers it for the whole poll. */
  lemma PartDecides(cfg: Config, s: Store, input: PollInput, p: Plan, blocks: seq<Block>, more: seq<AlertEvent>,
                    k: nat, key: Key, open: Option<Alert>, wanted: Option<bool>, due: bool, now: int)
    requires input.tailReadable && input.statsReadable && (forall e <- more :: IsDownKind(e.alert.key.kind)) && k < 5
    requires Follows(Parts(cfg, s, input, p, blocks, more)[k], key, open, wanted, due, now)
    requires KindOf(k, key.kind)
    ensures Follows(ChainEvents(cfg, s, input, p, blocks) + more, key, open, wanted, due, now)
  {
    PartsAre(cfg, s, input, p, blocks, more);
    hide Parts, ChainEvents, Follows;
    var parts := Parts(cfg, s, input, p, blocks, more);
    forall j | 0 <= j < 5 && j != k ensures forall e: AlertEvent :: e in parts[j] ==> e.alert.key != key {
      NotAbout(parts[j], j, k, key);
    }
    hide About, KindOf;
    PartFollows(parts, k, key, open, wanted, due, now);
  }

  lemma StalledNotices(cfg: Config, s: Store, input: PollInput, p: Plan, blocks: seq<Block>, more: seq<AlertEvent>, keys: set<Key>)
    requires ConfigOk(cfg) && ReadsOk(input) && p.tip == input.tip.value
    requires OA.AlertsOk(s.tables.alerts, s.nextId, keys) && OA.ExactPage(p.open, s.tables.alerts)
    requires forall e <- more :: IsDownKind(e.alert.key.kind)
    ensures Follows(ChainEvents(cfg, s, input, p, blocks) + more, Key(Stalled, None), OpenRow(s.tables.alerts, Key(Stalled, None)),
                    StalledWanted(cfg.alerts, input.tip.value, input.evaluatedAt), false, input.evaluatedAt)
  {
    hide Follows, Holds, OpenRow, CheckStalled, CheckConsecutiveMiss, CheckPercentageMiss, CheckValidatorStatus, StatusAt,
      ChainEvents, WindowEnd,
      OA.AlertsOk, OA.ExactPage, Stats, SliceLast, MissWindow.TailWindow, StalledWanted, MissWanted, MissDue, PercentWanted, PercentDue, StatusWanted;
    var row := OpenRow(s.tables.alerts, Key(Stalled, None));
    PageHolds(s.tables.alerts, s.nextId, keys, p.open, Stalled);
    StalledFollows(cfg.alerts, p.tip, p.open, input.evaluatedAt, s.nextId, row);
    PartDecides(cfg, s, input, p, blocks, more, 0, Key(Stalled, None), row, StalledWanted(cfg.alerts, p.tip, input.evaluatedAt),
                false, input.evaluatedAt);
  }

  lemma MissNotices(cfg: Config, s: Store, input: PollInput, p: Plan, blocks: seq<Block>, more: seq<AlertEvent>, keys: set<Key>)
    requires ConfigOk(cfg) && ReadsOk(input) && p.tip == input.tip.value
    requires OA.AlertsOk(s.tables.alerts, s.nextId, keys) && OA.ExactPage(p.open, s.tables.alerts)
    requires forall e <- more :: IsDownKind(e.alert.key.kind)
    ensures
      var row := OpenRow(s.tables.alerts, Key(ConsecutiveMiss, None));
      Follows(ChainEvents(cfg, s, input, p, blocks) + more, Key(ConsecutiveMiss, None), row,
              MissWanted(cfg.alerts, s.tables.blocks, WindowEnd(p, blocks)), MissDue(cfg.alerts, row, input.evaluatedAt), input.evaluatedAt)
  {
    hide Follows, Holds, OpenRow, CheckStalled, CheckConsecutiveMiss, CheckPercentageMiss, CheckValidatorStatus, StatusAt,
      ChainEvents, WindowEnd,
      OA.AlertsOk, OA.ExactPage, Stats, SliceLast, MissWindow.TailWindow, StalledWanted, MissWanted, MissDue, PercentWanted, PercentDue, StatusWanted;
    var row, wanted := OpenRow(s.tables.alerts, Key(ConsecutiveMiss, None)), MissWanted(cfg.alerts, s.tables.blocks, WindowEnd(p, blocks));
    PageHolds(s.tables.alerts, s.nextId, keys, p.open, ConsecutiveMiss);
    MissFollows(cfg.alerts, s.tables.blocks, WindowEnd(p, blocks), p.open, input.evaluatedAt, s.nextId + 1, row);
    PartDecides(cfg, s, input, p, blocks, more, 1, Key(ConsecutiveMiss, None), row, wanted, MissDue(cfg.alerts, row,
                input.evaluatedAt), input.evaluatedAt);
  }

  lemma PercentNotices(cfg: Config, s: Store, input: PollInput, p: Plan, blocks: seq<Block>, more: seq<AlertEvent>, keys: set<Key>)
    requires ConfigOk(cfg) && ReadsOk(input) && p.tip == input.tip.value
    requires OA.AlertsOk(s.tables.alerts, s.nextId, keys) && OA.ExactPage(p.open, s.tables.alerts)
    requires forall e <- more :: IsDownKind(e.alert.key.kind)
    ensures
      var row, end, n := OpenRow(s.tables.alerts, Key(PercentageMiss, None)), WindowEnd(p, blocks), cfg.signingWindow;
      Follows(ChainEvents(cfg, s, input, p, blocks) + more, Key(PercentageMiss, None), row,
              PercentWanted(cfg.alerts, s.tables.blocks, end, n), PercentDue(cfg.alerts, s.tables.blocks, end, n, row), input.evaluatedAt)
  {
    hide Follows, Holds, OpenRow, CheckStalled, CheckConsecutiveMiss, CheckPercentageMiss, CheckValidatorStatus, StatusAt,
      ChainEvents, WindowEnd,
      OA.AlertsOk, OA.ExactPage, Stats, SliceLast, MissWindow.TailWindow, StalledWanted, MissWanted, MissDue, PercentWanted, PercentDue, StatusWanted;
    var row, end, n := OpenRow(s.tables.alerts, Key(PercentageMiss, None)), WindowEnd(p, blocks), cfg.signingWindow;
    PageHolds(s.tables.alerts, s.nextId, keys, p.open, PercentageMiss);
    PercentFollows(cfg.alerts, s.tables.blocks, end, n, p.open, input.evaluatedAt, s.nextId + 2, row);
    PartDecides(cfg, s, input, p, blocks, more, 2, Key(PercentageMiss, None), row,
                PercentWanted(cfg.alerts, s.tables.blocks, end, n), PercentDue(cfg.alerts, s.tables.blocks, end, n, row),
                              input.evaluatedAt);
  }

  lemma StatusNotices(cfg: Config, s: Store, input: PollInput, p: Plan, blocks: seq<Block>, more: seq<AlertEvent>, keys: set<Key>, kind: AlertKind)
    requires ConfigOk(cfg) && ReadsOk(input) && p.tip == input.tip.value
    requires OA.AlertsOk(s.tables.alerts, s.nextId, keys) && OA.ExactPage(p.open, s.tables.alerts)
    requires forall e <- more :: IsDownKind(e.alert.key.kind)
    requires p.status == StatusAt(cfg.chainType, p.tip, input.validator, input.signingInfo) && IsStatusKind(kind)
    ensures Follows(ChainEvents(cfg, s, input, p, blocks) + more, Key(kind, None), OpenRow(s.tables.alerts, Key(kind, None)),
                    StatusWanted(cfg, input, kind), false, input.evaluatedAt)
  {
    hide Follows, Holds, OpenRow, CheckStalled, CheckConsecutiveMiss, CheckPercentageMiss, CheckValidatorStatus, StatusAt,
      ChainEvents, WindowEnd,
      OA.AlertsOk, OA.ExactPage, Stats, SliceLast, MissWindow.TailWindow, StalledWanted, MissWanted, MissDue, PercentWanted, PercentDue, StatusWanted;
    var row := OpenRow(s.tables.alerts, Key(kind, None));
    PageHolds(s.tables.alerts, s.nextId, keys, p.open, kind);
    StatusFollows(cfg, p.tip, input, p.open, input.evaluatedAt, s.nextId + 3, kind, row);
    PartDecides(cfg, s, input, p, blocks, more, 3, Key(kind, None), row, StatusWanted(cfg, input, kind), false, input.evaluatedAt);
  }

  // ---- the period table ---------------------------------------------------

  ghost predicate NewestStart(periods: map<int, Period>, h: int) {
    h in periods && periods[h].endHeight == None && forall x :: x in periods && periods[x].endHeight == None ==> x <= h
  }

  /** The newest period going on has the reason the API gives now. */
  ghost predicate SameReasonAs(periods: map<int, Period>, v: Lookup, forGood: bool)
    requires v.Validator?
  {
    exists h :: NewestStart(periods, h) && periods[h].jailed == v.jailed && periods[h].permanent == forGood
  }

  /**
   * What a poll makes of the period table. A status that is unknown, or a table that cannot be read, changes
   * nothing. Otherwise the newest period going on ends at the tip if the validator is back or out for
   * another reason, and one starts at the tip if it is out and none with this reason goes on.
   */
  ghost predicate PeriodsFollow(cfg: Config, input: PollInput, before: map<int, Period>, after: map<int, Period>)
    requires input.tip.Some?
  {
    if cfg.chainType != Bft || input.validator.Unavailable? || !input.inactivityReadable then after == before
    else
      var v, tip, info := input.validator, input.tip.value, input.signingInfo;
      var forGood := v.jailed && Inactivity.ForGood(info);
      var out := v.jailed || v.bondStatus != "BOND_STATUS_BONDED";
      var same := SameReasonAs(before, v, forGood);
      var starts := out && !same && input.startOk;
      && after.Keys == before.Keys + (if starts then {tip.height} else {})
      && (forall h <- after :: after[h] ==
            if starts && h == tip.height
            then Period(tip.height, tip.time, v.jailed, forGood, v.bondStatus,
                        if v.jailed && info.Some? then info.value.jailedUntil else None, None, None)
            else if !(out && same) && input.endOk && NewestStart(before, h)
            then before[h].(endHeight := Some(tip.height), endTime := Some(tip.time))
            else before[h])
  }

  lemma NewestIs(periods: map<int, Period>)
    requires Inactivity.Heads(periods)
    ensures
      var p := NewestOngoing(periods);
      && (p.None? <==> forall h :: !NewestStart(periods, h))
      && (forall h :: NewestStart(periods, h) ==> p == Some(periods[h]) && periods[h].height == h)
      && (p.Some? ==> NewestStart(periods, p.value.height) && periods[p.value.height] == p.value)
  {
    var starts := OngoingStarts(periods);
    assert forall h :: h in starts <==> h in periods && periods[h].endHeight == None;
    if NewestOngoing(periods).Some? {
      var h :| h in starts && NewestOngoing(periods).value == periods[h] && forall x <- starts :: x <= h;
      assert NewestStart(periods, h);
    }
  }

  lemma RecordingFollows(cfg: Config, s: Store, input: PollInput, open: seq<Alert>)
    requires input.tip.Some? && Inactivity.Heads(s.tables.periods)
    ensures PeriodsFollow(cfg, input, s.tables.periods, RecordedIn(s, input, PlanFor(cfg, s.tables, input, open)).tables.periods)
  {
    var p := PlanFor(cfg, s.tables, input, open);
    if p.status.Some? && p.periodsRead {
      var v, info := input.validator, input.signingInfo;
      assert p.status.value == Status(p.tip.height, p.tip.time, !v.jailed && v.bondStatus == "BOND_STATUS_BONDED", v.jailed,
                                      v.jailed && Inactivity.ForGood(info), v.bondStatus, if v.jailed && info.Some? then info.value.jailedUntil else None);
      hide StatusAt, Inactivity.ForGood, NewestOngoing, Latest;
      RecordedFollows(cfg, input, s.tables.periods, p.status.value);
    }
  }

  lemma RecordedFollows(cfg: Config, input: PollInput, periods: map<int, Period>, st: Status)
    requires input.tip.Some? && cfg.chainType == Bft && input.validator.Validator? && input.inactivityReadable && Inactivity.Heads(periods)
    requires
      var v, tip, info := input.validator, input.tip.value, input.signingInfo;
      st == Status(tip.height, tip.time, !v.jailed && v.bondStatus == "BOND_STATUS_BONDED", v.jailed, v.jailed && Inactivity.ForGood(info), v.bondStatus,
                   if v.jailed && info.Some? then info.value.jailedUntil else None)
    ensures PeriodsFollow(cfg, input, periods, RecordedBy(periods, st, NewestOngoing(periods), input.endOk, input.startOk))
  {
    NewestIs(periods);
    hide NewestOngoing, NewestStart, Inactivity.Heads, Inactivity.ForGood;
    var ongoing := NewestOngoing(periods);
    assert SameReasonAs(periods, input.validator, st.permanent) <==> SameReason(ongoing, st);
    hide SameReasonAs, SameReason;
    var ends := EndsPeriod(st, ongoing) && input.endOk;
    var ended := if ends then Ending(periods, ongoing.value.height, st.height, st.time) else periods;
    assert ended.Keys == periods.Keys;
    forall h | h in periods
      ensures ended[h] == if ends && NewestStart(periods, h) then periods[h].(endHeight := Some(st.height), endTime := Some(st.time)) else periods[h]
    {
    }
    hide Ending;
  }

  /** Each stored period is stored under its own start, over every run. */
  lemma {:induction false} HeadsRun(cfg: Config, actions: seq<Action>)
    ensures Inactivity.Heads(Run(Booted(cfg, EMPTY), actions).store.tables.periods)
  {
    if actions != [] {
      var w, a := Run(Booted(cfg, EMPTY), actions[..|actions| - 1]), actions[|actions| - 1];
      HeadsRun(cfg, actions[..|actions| - 1]);
      if a.Resume? && a.i < |w.polls| {
        HeadsAdvance(w.cfg, w.store, w.polls[a.i].input, w.polls[a.i].phase);
      }
    }
  }

  lemma HeadsAdvance(cfg: Config, s: Store, input: PollInput, ph: Phase)
    requires Inactivity.Heads(s.tables.periods)
    ensures Inactivity.Heads(Advance(cfg, s, input, ph).0.tables.periods)
  {
    hide UnclosedPage, CollectedBy, WithBlocks, OriginWith, InsertableNow, Applied, ChainEvents, StatusAt;
  }

  // ---- the theorems -------------------------------------------------------

  /**
   * What a poll of any reachable state says about the six chain alerts, from its input and the tables. The
   * windows end at the newest block it collected, else at the newest stored one, else at the tip; when its
   * blocks go into the table, that is the newest stored height, or the tip while there is none.
   */
  lemma {:induction false} PollNotices(cfg: Config, actions: seq<Action>, input: PollInput, keys: set<Key>) returns (end: int)
    requires ConfigOk(cfg) && OA.KeysFor(cfg, keys) && OA.ConfigsOk(actions, keys) && |keys| <= ALERT_PAGE
    requires ReadsOk(input) && Ingestion.Honest(input.commit)
    ensures
      var w := Run(Booted(cfg, EMPTY), actions);
      var after := Complete(w.cfg, w.store, input, Start);
      && WindowEndsAt(w.cfg, w.store, input, end)
      && (input.appendOk || input.insertOk ==>
            if after.tables.blocks.Keys != {} then Greatest(after.tables.blocks.Keys, end) else end == input.tip.value.height)
      && w.store.history.log <= after.history.log
      && ChainNotices(w.cfg, input, w.store.tables.alerts, after.tables.blocks, end, Sent(w.store, after))
      && OA.DistinctKeys(Sent(w.store, after))
  {
    OA.RunKeeps(Booted(cfg, EMPTY), actions, keys);
    var w := Run(Booted(cfg, EMPTY), actions);
    end := StoreNotices(w.cfg, w.store, input, keys);
  }

  lemma StoreNotices(cfg: Config, s: Store, input: PollInput, keys: set<Key>) returns (end: int)
    requires ConfigOk(cfg) && OA.KeysFor(cfg, keys) && |keys| <= ALERT_PAGE && OA.AlertsOk(s.tables.alerts, s.nextId, keys)
    requires ReadsOk(input)
    ensures
      var after := Complete(cfg, s, input, Start);
      && (Ingestion.Honest(input.commit) ==> WindowEndsAt(cfg, s, input, end))
      && (Ingestion.Honest(input.commit) && (input.appendOk || input.insertOk) ==>
            if after.tables.blocks.Keys != {} then Greatest(after.tables.blocks.Keys, end) else end == input.tip.value.height)
      && s.history.log <= after.history.log
      && ChainNotices(cfg, input, s.tables.alerts, after.tables.blocks, end, Sent(s, after))
      && OA.DistinctKeys(Sent(s, after))
  {
    hide Complete, UpToJudging, CollectedBy, UnclosedPage, StatusAt, ChainEvents, EndpointsEvaluated, TimersAfter, WindowEndsAt,
      WindowEnd, ChainNotices,
      ConfigOk, OA.KeysFor, OA.AlertsOk, OA.ExactPage, OA.DistinctKeys, Sent, Greatest, Ingestion.Honest;
    var p, s1 := Sends(cfg, s, input, keys);
    var blocks := CollectedBy(cfg, p, input).blocks;
    end := WindowEnd(p, blocks);
    if Ingestion.Honest(input.commit) {
      WindowEnds(cfg, s, input, p);
    }
    var more := EndpointsEvaluated(cfg.alerts, Checks(cfg, input), s.downSince, p.open, input.endpointsAt, s.nextId + CHECKS);
    Inactivity.EndpointKinds(cfg, s, input, p.open, s.nextId + CHECKS, keys);
    EvaluatedNotices(cfg, s1, input, p, blocks, more, keys);
  }

  lemma EvaluatedNotices(cfg: Config, s: Store, input: PollInput, p: Plan, blocks: seq<Block>, more: seq<AlertEvent>, keys: set<Key>)
    requires ConfigOk(cfg) && ReadsOk(input) && p.tip == input.tip.value
    requires p.status == StatusAt(cfg.chainType, p.tip, input.validator, input.signingInfo)
    requires OA.AlertsOk(s.tables.alerts, s.nextId, keys) && OA.ExactPage(p.open, s.tables.alerts)
    requires forall e <- more :: IsDownKind(e.alert.key.kind)
    ensures ChainNotices(cfg, input, s.tables.alerts, s.tables.blocks, WindowEnd(p, blocks), ChainEvents(cfg, s, input, p, blocks) + more)
  {
    hide Follows, StatusAt, ChainEvents, WindowEnd, OA.AlertsOk, OA.ExactPage, StalledWanted, MissWanted, MissDue, PercentWanted,
      PercentDue, StatusWanted, ConfigOk;
    StalledNotices(cfg, s, input, p, blocks, more, keys);
    MissNotices(cfg, s, input, p, blocks, more, keys);
    PercentNotices(cfg, s, input, p, blocks, more, keys);
    forall kind | IsStatusKind(kind)
      ensures Follows(ChainEvents(cfg, s, input, p, blocks) + more, Key(kind, None), OpenRow(s.tables.alerts, Key(kind, None)),
                      StatusWanted(cfg, input, kind), false, input.evaluatedAt)
    {
      StatusNotices(cfg, s, input, p, blocks, more, keys, kind);
    }
  }

  /** A poll that at least reads its open alerts sends, after what its chain checks say, what the endpoint checks say. */
  lemma SendsAnyway(cfg: Config, s: Store, input: PollInput, keys: set<Key>) returns (open: seq<Alert>, chain: seq<AlertEvent>)
    requires ConfigOk(cfg) && OA.KeysFor(cfg, keys) && |keys| <= ALERT_PAGE && OA.AlertsOk(s.tables.alerts, s.nextId, keys)
    requires input.alertsReadable
    ensures OA.ExactPage(open, s.tables.alerts)
    ensures OA.Batch(chain, s.tables.alerts, s.nextId, s.nextId + CHECKS, OA.CHAIN_KEYS)
    ensures !ReadsOk(input) ==> chain == []
    ensures
      var after := Complete(cfg, s, input, Start);
      && Sent(s, after) == chain + EndpointsEvaluated(cfg.alerts, Checks(cfg, input), s.downSince, open, input.endpointsAt, s.nextId + CHECKS)
      && SendsWell(cfg, s, input, keys, after)
      && after.downSince == TimersAfter(Checks(cfg, input), s.downSince, input.endpointsAt)
  {
    hide Complete, CollectedBy, UnclosedPage, UpToJudging, EndpointsEvaluated, TimersAfter, Evaluated, PlanFor, WithEndpoints,
      ConfigOk, OA.KeysFor, OA.AlertsOk, OA.ExactPage, OA.Batch, Sent, SendsWell;
    if input.heightReadable && input.tip.Some? {
      var p, s1 := Sends(cfg, s, input, keys);
      open, chain := p.open, ChainEvents(cfg, s1, input, p, CollectedBy(cfg, p, input).blocks);
      OA.ChainEventsFit(cfg, s1, input, p, CollectedBy(cfg, p, input).blocks, keys);
    } else {
      OA.PageIsExact(s.tables.alerts, s.nextId, keys);
      open, chain := UnclosedPage(s.tables.alerts, s.nextId), [];
      StartUnfolds(cfg, s, input);
      ObservingUnfolds(cfg, s, input, open);
      OA.EmptyBatch(s.tables.alerts, s.nextId, OA.CHAIN_KEYS);
      OA.BatchWeaken([], s.tables.alerts, s.nextId, s.nextId, OA.CHAIN_KEYS, s.nextId, s.nextId + CHECKS, OA.CHAIN_KEYS);
      EndpointsSend(cfg, s, input, open, [], keys);
    }
  }

  lemma NotDown(chain: seq<AlertEvent>, alerts: map<nat, Alert>, lo: nat, hi: nat)
    requires OA.Batch(chain, alerts, lo, hi, OA.CHAIN_KEYS)
    ensures forall e <- chain :: !IsDownKind(e.alert.key.kind)
  {
    hide OA.Fits, OA.DistinctKeys, OA.DistinctIds;
  }

  lemma StoreEndpointNotices(cfg: Config, s: Store, input: PollInput, keys: set<Key>, k: Key)
    requires ConfigOk(cfg) && OA.KeysFor(cfg, keys) && |keys| <= ALERT_PAGE && OA.AlertsOk(s.tables.alerts, s.nextId, keys)
    requires input.alertsReadable && IsDownKind(k.kind)
    ensures
      var after := Complete(cfg, s, input, Start);
      && SendsWell(cfg, s, input, keys, after)
      && Follows(Sent(s, after), k, OpenRow(s.tables.alerts, k), EndpointWanted(cfg, input, s.downSince, k), false, input.endpointsAt)
      && DownTimers.At(after.downSince, k) == TimerAfter(cfg, input, s.downSince, k)
      && (!ReadsOk(input) ==> forall e <- Sent(s, after) :: IsDownKind(e.alert.key.kind))
  {
    var open, chain := SendsAnyway(cfg, s, input, keys);
    hide Complete, EndpointsEvaluated, TimersAfter, Follows, OpenRow, EndpointWanted, TimerAfter, OA.AlertsOk, OA.ExactPage,
      OA.KeysFor, ConfigOk, Sent, SendsWell;
    NotDown(chain, s.tables.alerts, s.nextId, s.nextId + CHECKS);
    hide OA.Batch, ReadsOk;
    var more := EndpointsEvaluated(cfg.alerts, Checks(cfg, input), s.downSince, open, input.endpointsAt, s.nextId + CHECKS);
    EndpointFollows(cfg, s, input, open, keys, k);
    Inactivity.EndpointKinds(cfg, s, input, open, s.nextId + CHECKS, keys);
    FollowsThrough(chain, more, [], k, OpenRow(s.tables.alerts, k), EndpointWanted(cfg, input, s.downSince, k), false, input.endpointsAt);
    assert chain + more + [] == chain + more;
  }

  /**
   * What a poll of any reachable state says about each endpoint alert, and which timer it leaves, even when
   * the chain cannot be read: from the endpoint's health, its timer and the grace period alone. About the
   * chain it then says nothing.
   */
  lemma {:induction false} EndpointNotices(cfg: Config, actions: seq<Action>, input: PollInput, keys: set<Key>, k: Key)
    requires ConfigOk(cfg) && OA.KeysFor(cfg, keys) && OA.ConfigsOk(actions, keys) && |keys| <= ALERT_PAGE
    requires input.alertsReadable && IsDownKind(k.kind)
    ensures
      var w := Run(Booted(cfg, EMPTY), actions);
      var after := Complete(w.cfg, w.store, input, Start);
      && Follows(Sent(w.store, after), k, OpenRow(w.store.tables.alerts, k), EndpointWanted(w.cfg, input, w.store.downSince, k), false, input.endpointsAt)
      && DownTimers.At(after.downSince, k) == TimerAfter(w.cfg, input, w.store.downSince, k)
      && (!ReadsOk(input) ==> forall e <- Sent(w.store, after) :: IsDownKind(e.alert.key.kind))
  {
    OA.RunKeeps(Booted(cfg, EMPTY), actions, keys);
    var w := Run(Booted(cfg, EMPTY), actions);
    hide Complete, Run, Follows, OpenRow, EndpointWanted, TimerAfter, Sent, SendsWell;
    StoreEndpointNotices(w.cfg, w.store, input, keys, k);
  }

  /** What a poll of any reachable state makes of the period table, whichever of its writes fail. */
  lemma {:induction false} PollPeriods(cfg: Config, actions: seq<Action>, input: PollInput, keys: set<Key>)
    requires ConfigOk(cfg) && OA.KeysFor(cfg, keys) && OA.ConfigsOk(actions, keys) && |keys| <= ALERT_PAGE
    requires input.alertsReadable && input.heightReadable && input.tip.Some?
    ensures
      var w := Run(Booted(cfg, EMPTY), actions);
      PeriodsFollow(w.cfg, input, w.store.tables.periods, Complete(w.cfg, w.store, input, Start).tables.periods)
  {
    OA.RunKeeps(Booted(cfg, EMPTY), actions, keys);
    HeadsRun(cfg, actions);
    var w := Run(Booted(cfg, EMPTY), actions);
    var s := w.store;
    hide Complete, Run, PeriodsFollow, UnclosedPage, CollectedBy, InsertableNow, WithBlocks, OriginWith, ChainEvents,
      EndpointsEvaluated, TimersAfter,
      OA.AlertsOk, OA.ExactPage, OA.KeysFor, ConfigOk, OA.DistinctKeys, Sent, StatusAt, RecordedBy;
    var p, s1 := Sends(w.cfg, s, input, keys);
    RecordingFollows(w.cfg, s, input, p.open);
  }

  /** Whether an alert is open after the poll: as wanted, or as before if nothing is to be done about it. */
  ghost predicate LeftOpen(key: Key, before: map<nat, Alert>, after: map<nat, Alert>, wanted: Option<bool>) {
    (exists id :: OpenAt(after, id, key)) <==> wanted.GetOr(exists id :: OpenAt(before, id, key))
  }

  ghost predicate ChainAlertsLeft(cfg: Config, input: PollInput, before: map<nat, Alert>, after: map<nat, Alert>, rows: map<int, Block>, end: int)
    requires input.tip.Some?
  {
    && LeftOpen(Key(Stalled, None), before, after, StalledWanted(cfg.alerts, input.tip.value, input.evaluatedAt))
    && LeftOpen(Key(ConsecutiveMiss, None), before, after, MissWanted(cfg.alerts, rows, end))
    && LeftOpen(Key(PercentageMiss, None), before, after, PercentWanted(cfg.alerts, rows, end, cfg.signingWindow))
    && (forall kind :: IsStatusKind(kind) ==> LeftOpen(Key(kind, None), before, after, StatusWanted(cfg, input, kind)))
  }

  lemma LeftAsWanted(cfg: Config, s: Store, input: PollInput, keys: set<Key>, after: Store, key: Key, wanted: Option<bool>, due: bool, now: int)
    requires SendsWell(cfg, s, input, keys, after) && Incidents.AlertWritesOk(input)
    requires Follows(Sent(s, after), key, OpenRow(s.tables.alerts, key), wanted, due, now)
    ensures LeftOpen(key, s.tables.alerts, after.tables.alerts, wanted)
  {
    hide Follows, Written, OA.Fits, OA.AlertsOk, OA.DistinctKeys;
    OpenAfter(Sent(s, after), s.tables.alerts, after.tables.alerts, input.appliedAt, s.nextId + CHECKS + |cfg.endpoints|, keys,
              key, wanted, due, now);
  }

  /**
   * What the poll leaves in the alert table when its alert writes succeed: each event's row as the event
   * says and all other rows as before, so that each chain alert is open exactly if it is wanted, or was
   * open with nothing to be done about it.
   */
  lemma {:induction false} PollLeaves(cfg: Config, actions: seq<Action>, input: PollInput, keys: set<Key>) returns (end: int)
    requires ConfigOk(cfg) && OA.KeysFor(cfg, keys) && OA.ConfigsOk(actions, keys) && |keys| <= ALERT_PAGE
    requires ReadsOk(input) && Ingestion.Honest(input.commit) && Incidents.AlertWritesOk(input)
    ensures
      var w := Run(Booted(cfg, EMPTY), actions);
      var after := Complete(w.cfg, w.store, input, Start);
      && WindowEndsAt(w.cfg, w.store, input, end)
      && Written(Sent(w.store, after), 0, w.store.tables.alerts, after.tables.alerts, input.appliedAt)
      && ChainAlertsLeft(w.cfg, input, w.store.tables.alerts, after.tables.alerts, after.tables.blocks, end)
  {
    OA.RunKeeps(Booted(cfg, EMPTY), actions, keys);
    var w := Run(Booted(cfg, EMPTY), actions);
    hide Complete, Run;
    end := StoreLeaves(w.cfg, w.store, input, keys);
  }

  lemma StoreLeaves(cfg: Config, s: Store, input: PollInput, keys: set<Key>) returns (end: int)
    requires ConfigOk(cfg) && OA.KeysFor(cfg, keys) && |keys| <= ALERT_PAGE && OA.AlertsOk(s.tables.alerts, s.nextId, keys)
    requires ReadsOk(input) && Incidents.AlertWritesOk(input)
    ensures
      var after := Complete(cfg, s, input, Start);
      && (Ingestion.Honest(input.commit) ==> WindowEndsAt(cfg, s, input, end))
      && Written(Sent(s, after), 0, s.tables.alerts, after.tables.alerts, input.appliedAt)
      && ChainAlertsLeft(cfg, input, s.tables.alerts, after.tables.alerts, after.tables.blocks, end)
  {
    end := StoreNotices(cfg, s, input, keys);
    var after, now := Complete(cfg, s, input, Start), input.evaluatedAt;
    var open, chain := SendsAnyway(cfg, s, input, keys);
    hide Complete, Sent, Follows, OpenRow, LeftOpen, StalledWanted, MissWanted, MissDue, PercentWanted, PercentDue, StatusWanted,
      WindowEndsAt,
      EndpointsEvaluated, OA.Batch, OA.AlertsOk, OA.ExactPage, Written;
    var missed, share := OpenRow(s.tables.alerts, Key(ConsecutiveMiss, None)), OpenRow(s.tables.alerts, Key(PercentageMiss, None));
    assert Written(Sent(s, after), 0, s.tables.alerts, after.tables.alerts, input.appliedAt);
    hide SendsWell;
    LeftAsWanted(cfg, s, input, keys, after, Key(Stalled, None), StalledWanted(cfg.alerts, input.tip.value, now), false, now);
    LeftAsWanted(cfg, s, input, keys, after, Key(ConsecutiveMiss, None), MissWanted(cfg.alerts, after.tables.blocks, end),
                 MissDue(cfg.alerts, missed, now), now);
    LeftAsWanted(cfg, s, input, keys, after, Key(PercentageMiss, None), PercentWanted(cfg.alerts, after.tables.blocks, end, cfg.signingWindow),
                 PercentDue(cfg.alerts, after.tables.blocks, end, cfg.signingWindow, share), now);
    forall kind | IsStatusKind(kind) ensures LeftOpen(Key(kind, None), s.tables.alerts, after.tables.alerts, StatusWanted(cfg, input, kind)) {
      LeftAsWanted(cfg, s, input, keys, after, Key(kind, None), StatusWanted(cfg, input, kind), false, now);
    }
  }

  // ---- alerts and periods together ----------------------------------------

  ghost predicate AlertOpen(t: TableSet, kind: AlertKind) { exists id :: OpenAt(t.alerts, id, Key(kind, None)) }

  ghost predicate PeriodOpen(t: TableSet) { exists h :: h in t.periods && t.periods[h].endHeight == None }

  /** With the check on and its writes done, a poll that hears about the validator leaves open the status alert wanted, and no other. */
  lemma StatusAlertsLeft(cfg: Config, s: Store, input: PollInput, keys: set<Key>)
    requires ConfigOk(cfg) && OA.KeysFor(cfg, keys) && |keys| <= ALERT_PAGE && OA.AlertsOk(s.tables.alerts, s.nextId, keys)
    requires ReadsOk(input) && Incidents.AlertWritesOk(input)
    ensures
      var t := Complete(cfg, s, input, Start).tables;
      forall kind :: IsStatusKind(kind) ==> (AlertOpen(t, kind) <==> StatusWanted(cfg, input, kind).GetOr(AlertOpen(s.tables, kind)))
  {
    hide Complete, OpenAt, StalledWanted, MissWanted, PercentWanted, StatusWanted, Sent, Written, WindowEndsAt, ConfigOk, OA.KeysFor, OA.AlertsOk;
    var end := StoreLeaves(cfg, s, input, keys);
  }

  lemma StatusWantedIs(cfg: Config, input: PollInput, kind: AlertKind)
    requires input.tip.Some? && IsStatusKind(kind)
    ensures
      var status := StatusAt(cfg.chainType, input.tip.value, input.validator, input.signingInfo);
      StatusWanted(cfg, input, kind) == if cfg.alerts.alertIfInactive && status.Some? then Some(WantedKind(status.value) == Some(kind)) else None
  {
  }

  lemma ReflectedReason(periods: map<int, Period>, s: Status)
    requires Inactivity.Reflects(periods, s)
    ensures forall kind :: WantedKind(s) == Some(kind) <==>
              exists h <- OngoingStarts(periods) :: Reason(periods[h].jailed, periods[h].permanent) == kind
  {
    if !s.active {
      var h :| OngoingStarts(periods) == {h} && periods[h].jailed == s.jailed && periods[h].permanent == s.permanent;
      assert h in OngoingStarts(periods);
    }
  }

  /** The poll's periods are those its recording leaves. */
  lemma PeriodsRecorded(cfg: Config, s: Store, input: PollInput, keys: set<Key>)
    requires ConfigOk(cfg) && OA.KeysFor(cfg, keys) && |keys| <= ALERT_PAGE && OA.AlertsOk(s.tables.alerts, s.nextId, keys)
    requires Inactivity.AllOk(input) && StatusAt(cfg.chainType, input.tip.value, input.validator, input.signingInfo).Some?
    ensures Complete(cfg, s, input, Start).tables.periods
            == Inactivity.Recorded(s.tables.periods, StatusAt(cfg.chainType, input.tip.value, input.validator, input.signingInfo).value)
  {
    hide Complete, CollectedBy, InsertableNow, WithBlocks, OriginWith, ChainEvents, EndpointsEvaluated, TimersAfter, UnclosedPage, StatusAt,
      OA.AlertsOk, OA.ExactPage, OA.KeysFor, ConfigOk, SendsWell, Sent, RecordedBy;
    var p, s1 := Sends(cfg, s, input, keys);
  }

  /**
   * After a poll that reaches its evaluation with a known status, with its reads answered, its writes
   * done and `alertIfInactive` on, the two tables agree: an alert of a status kind is open exactly when
   * a period is ongoing, and it is the kind that period's reason calls for.
   */
  lemma TablesAgree(cfg: Config, s: Store, input: PollInput, keys: set<Key>)
    requires ConfigOk(cfg) && OA.KeysFor(cfg, keys) && |keys| <= ALERT_PAGE && cfg.alerts.alertIfInactive
    requires OA.AlertsOk(s.tables.alerts, s.nextId, keys)
    requires Inactivity.Heads(s.tables.periods) && Inactivity.OneOngoing(s.tables.periods)
    requires Inactivity.AllOk(input) && StatusAt(cfg.chainType, input.tip.value, input.validator, input.signingInfo).Some?
    ensures
      var t := Complete(cfg, s, input, Start).tables;
      var status := StatusAt(cfg.chainType, input.tip.value, input.validator, input.signingInfo).value;
      && Inactivity.Reflects(t.periods, status)
      && (forall kind :: IsStatusKind(kind) ==>
            (AlertOpen(t, kind) <==> exists h <- OngoingStarts(t.periods) :: Reason(t.periods[h].jailed, t.periods[h].permanent) == kind))
  {
    hide Complete, StatusAt, AlertOpen, Inactivity.Heads, Inactivity.OneOngoing, ConfigOk, OA.KeysFor, OA.AlertsOk, StatusWanted;
    var t := Complete(cfg, s, input, Start).tables;
    var status := StatusAt(cfg.chainType, input.tip.value, input.validator, input.signingInfo).value;
    PeriodsRecorded(cfg, s, input, keys);
    Inactivity.RecordingReflects(s.tables.periods, status);
    ReflectedReason(t.periods, status);
    StatusAlertsLeft(cfg, s, input, keys);
    hide Inactivity.Reflects, Inactivity.Recorded, WantedKind;
    forall kind | IsStatusKind(kind) ensures AlertOpen(t, kind) <==> WantedKind(status) == Some(kind) {
      StatusWantedIs(cfg, input, kind);
    }
  }

  /** The same for every state a run can reach, whatever failed in it, if no period was started over a failed ending. */
  lemma {:induction false} ReachableTablesAgree(cfg: Config, actions: seq<Action>, input: PollInput, keys: set<Key>)
    requires ConfigOk(cfg) && OA.KeysFor(cfg, keys) && OA.ConfigsOk(actions, keys) && |keys| <= ALERT_PAGE
    requires forall a <- actions :: a.Tick? ==> Inactivity.PeriodWritesOk(a.input)
    requires Inactivity.AllOk(input)
    ensures
      var w := Run(Booted(cfg, EMPTY), actions);
      var status := StatusAt(w.cfg.chainType, input.tip.value, input.validator, input.signingInfo);
      var t := Complete(w.cfg, w.store, input, Start).tables;
      w.cfg.alerts.alertIfInactive && status.Some? ==>
        && Inactivity.Reflects(t.periods, status.value)
        && (forall kind :: IsStatusKind(kind) ==>
              (AlertOpen(t, kind) <==> exists h <- OngoingStarts(t.periods) :: Reason(t.periods[h].jailed, t.periods[h].permanent) == kind))
  {
    hide Complete, AlertOpen, StatusAt, Inactivity.Reflects;
    Inactivity.InvRun(cfg, actions);
    OA.RunKeeps(Booted(cfg, EMPTY), actions, keys);
    var w := Run(Booted(cfg, EMPTY), actions);
    if w.cfg.alerts.alertIfInactive && StatusAt(w.cfg.chainType, input.tip.value, input.validator, input.signingInfo).Some? {
      TablesAgree(w.cfg, w.store, input, keys);
    }
  }

  /**
   * After a poll of any reachable state that gets an answer about the validator and whose writes succeed, the
   * tables say what the API says: nothing is open for a validator that is neither jailed nor unbonded, and
   * otherwise a period and the one alert of the reason.
   */
  lemma {:induction false} TablesFollowApi(cfg: Config, actions: seq<Action>, input: PollInput, keys: set<Key>)
    requires ConfigOk(cfg) && OA.KeysFor(cfg, keys) && OA.ConfigsOk(actions, keys) && |keys| <= ALERT_PAGE
    requires forall a <- actions :: a.Tick? ==> Inactivity.PeriodWritesOk(a.input)
    requires Inactivity.AllOk(input) && input.validator.Validator?
    ensures
      var w := Run(Booted(cfg, EMPTY), actions);
      var t := Complete(w.cfg, w.store, input, Start).tables;
      var v, forGood := input.validator, Inactivity.ForGood(input.signingInfo);
      w.cfg.chainType == Bft && w.cfg.alerts.alertIfInactive ==>
        && (PeriodOpen(t) <==> v.jailed || v.bondStatus != "BOND_STATUS_BONDED")
        && (AlertOpen(t, Inactive) <==> !v.jailed && v.bondStatus != "BOND_STATUS_BONDED")
        && (AlertOpen(t, Jailed) <==> v.jailed && !forGood)
        && (AlertOpen(t, Tombstoned) <==> v.jailed && forGood)
  {
    hide Complete, Run, Advance, AlertOpen, PeriodOpen, OA.KeysFor, OA.ConfigsOk, ConfigOk;
    var w := Run(Booted(cfg, EMPTY), actions);
    ReachableTablesAgree(cfg, actions, input, keys);
    var status := StatusAt(w.cfg.chainType, input.tip.value, input.validator, input.signingInfo);
    if status.Some? && w.cfg.alerts.alertIfInactive {
      PeriodOpenIff(Complete(w.cfg, w.store, input, Start).tables, status.value);
    }
    OA.RunKeeps(Booted(cfg, EMPTY), actions, keys);
    StatusAlertsLeft(w.cfg, w.store, input, keys);
    assert IsStatusKind(Inactive) && IsStatusKind(Jailed) && IsStatusKind(Tombstoned);
  }

  lemma PeriodOpenIff(t: TableSet, s: Status)
    requires Inactivity.Reflects(t.periods, s)
    ensures PeriodOpen(t) <==> !s.active
  {
    assert forall h :: h in t.periods && t.periods[h].endHeight == None ==> h in OngoingStarts(t.periods);
    if !s.active {
      var h :| OngoingStarts(t.periods) == {h};
      assert h in OngoingStarts(t.periods);
    }
  }

  /**
   * The exact condition, poll by poll: from any reachable state, a poll whose reads answer and whose
   * writes succeed closes an open tombstoned alert if and only if the status check is on and the REST
   * API answers about a Cosmos validator without saying, in the signing info too, that it is jailed for good.
   */
  lemma {:induction false} TombstonedClosesIff(cfg: Config, actions: seq<Action>, input: PollInput, keys: set<Key>)
    requires ConfigOk(cfg) && OA.KeysFor(cfg, keys) && OA.ConfigsOk(actions, keys) && |keys| <= ALERT_PAGE
    requires ReadsOk(input) && Incidents.AlertWritesOk(input) && AlertOpen(Run(Booted(cfg, EMPTY), actions).store.tables, Tombstoned)
    ensures
      var w, v := Run(Booted(cfg, EMPTY), actions), input.validator;
      !AlertOpen(Complete(w.cfg, w.store, input, Start).tables, Tombstoned)
      <==> && w.cfg.alerts.alertIfInactive && w.cfg.chainType == Bft
           && v.Validator? && !(v.jailed && Inactivity.ForGood(input.signingInfo))
  {
    OA.RunKeeps(Booted(cfg, EMPTY), actions, keys);
    var w := Run(Booted(cfg, EMPTY), actions);
    hide Complete, Run, AlertOpen, OA.KeysFor, ConfigOk;
    StatusAlertsLeft(w.cfg, w.store, input, keys);
    assert IsStatusKind(Tombstoned);
  }

  /**
   * So a single signing-info fetch that fails is enough: the poll that makes it closes the alert of a
   * tombstoned validator and leaves one that calls it merely jailed.
   */
  lemma {:induction false} FailedSigningInfoCloses(cfg: Config, actions: seq<Action>, input: PollInput, keys: set<Key>)
    requires ConfigOk(cfg) && OA.KeysFor(cfg, keys) && OA.ConfigsOk(actions, keys) && |keys| <= ALERT_PAGE
    requires
      var w := Run(Booted(cfg, EMPTY), actions);
      w.cfg.alerts.alertIfInactive && w.cfg.chainType == Bft && AlertOpen(w.store.tables, Tombstoned)
    requires ReadsOk(input) && Incidents.AlertWritesOk(input)
    requires input.validator.Validator? && input.validator.jailed && input.signingInfo.None?
    ensures
      var w := Run(Booted(cfg, EMPTY), actions);
      var t := Complete(w.cfg, w.store, input, Start).tables;
      !AlertOpen(t, Tombstoned) && AlertOpen(t, Jailed)
  {
    OA.RunKeeps(Booted(cfg, EMPTY), actions, keys);
    var w := Run(Booted(cfg, EMPTY), actions);
    hide Complete, Run, AlertOpen, OA.KeysFor, ConfigOk;
    StatusAlertsLeft(w.cfg, w.store, input, keys);
    assert IsStatusKind(Tombstoned) && IsStatusKind(Jailed);
  }
}
