/**
 * The chain worker as a state machine. A poll is suspended at each of its database statements, so a
 * timer tick, an exception or a restart of the process can fall between any two of them.
 */
module Worker {
  import opened Domain
  import opened Tables
  import opened Attribution
  import opened Evaluator
  import opened MissWindow

  /** Everything the outside world will answer one poll: nodes, REST API, clock, and the fate of each statement. */
  datatype PollInput = PollInput(
    alertsReadable: bool,
    heightReadable: bool,
    tip: Option<Tip>,
    validator: Lookup,
    signingInfo: Option<SigningInfo>,
    inactivityReadable: bool,
    endOk: bool,
    startOk: bool,
    commit: int -> CommitAnswer,
    lookup: int -> Lookup,
    appendOk: bool,
    insertOk: bool,
    tailReadable: bool,
    statsReadable: bool,
    health: Endpoint -> Option<bool>,
    evaluatedAt: int,
    endpointsAt: int,
    eventReadOk: nat -> bool,
    eventOk: nat -> bool,
    appliedAt: nat -> int)

  // ---- what a poll works out ----------------------------------------------

  /** 9999-01-01T00:00:00Z in milliseconds: a jail end this far off means jailed forever. */
  const END_OF_TIME := 253_370_764_800_000

  function StatusAt(chain: ChainType, tip: Tip, validator: Lookup, info: Option<SigningInfo>): Option<Status> {
    if chain != Bft || validator.Unavailable? then None
    else
      var known := validator.jailed && info.Some?;
      var until := if known then info.value.jailedUntil else None;
      var permanent := known && (info.value.tombstoned == Some(true) || (until.Some? && until.value >= END_OF_TIME));
      Some(Status(tip.height, tip.time, IsActive(validator), validator.jailed, permanent, validator.bondStatus, until))
  }

  /** What a poll knows once it has read its tables and asked about the tip. */
  datatype Plan = Plan(open: seq<Alert>, dbHeight: Option<int>, tip: Tip, status: Option<Status>,
                       periodsRead: bool, ongoing: Option<Period>)

  predicate SameReason(ongoing: Option<Period>, s: Status) {
    ongoing.Some? && ongoing.value.jailed == s.jailed && ongoing.value.permanent == s.permanent
  }

  predicate EndsPeriod(s: Status, ongoing: Option<Period>) {
    ongoing.Some? && (s.active || !SameReason(ongoing, s))
  }

  predicate StartsPeriod(s: Status, ongoing: Option<Period>) {
    !s.active && !SameReason(ongoing, s)
  }

  function NewPeriod(s: Status): Period {
    Period(s.height, s.time, s.jailed, s.permanent, s.bondStatus, s.jailedUntil, None, None)
  }

  /** The period table after a poll's recording; `endOk` and `startOk` say which of its two writes succeed. */
  function RecordedBy(periods: map<int, Period>, s: Status, ongoing: Option<Period>, endOk: bool, startOk: bool): map<int, Period> {
    var ended := if EndsPeriod(s, ongoing) && endOk then Ending(periods, ongoing.value.height, s.height, s.time) else periods;
    if StartsPeriod(s, ongoing) && startOk then ended[s.height := NewPeriod(s)] else ended
  }

  function LastKnownActive(p: Plan): Option<bool> {
    if p.status.Some? then Some(p.status.value.active)
    else if p.periodsRead && p.ongoing.Some? then Some(false)
    else None
  }

  function FirstHeight(p: Plan): int {
    if p.dbHeight.Some? then p.dbHeight.value + 1
    else if p.tip.height - 1 > 1 then p.tip.height - 1 else 1
  }

  function LastHeight(cfg: Config, p: Plan): int {
    var full := FirstHeight(p) + MaxBlocks(cfg) - 1;
    if p.tip.height < full then p.tip.height else full
  }

  function SliceOf(cfg: Config, p: Plan, input: PollInput): Slice {
    var trusted := if LastKnownActive(p) == Some(false) then None else cfg.activeSet;
    Slice(Member(cfg.valconsHex, cfg.signer, trusted), cfg.allowBlockGaps, input.commit, input.lookup)
  }

  function CollectedBy(cfg: Config, p: Plan, input: PollInput): Collected {
    Collect(SliceOf(cfg, p, input), FirstHeight(p), LastHeight(cfg, p), Cache(None, LastKnownActive(p)))
  }

  /** The height the alert windows end at. */
  function WindowEnd(p: Plan, blocks: seq<Block>): int {
    if blocks != [] then blocks[|blocks| - 1].height else p.dbHeight.GetOr(p.tip.height)
  }

  function Checks(cfg: Config, input: PollInput): (cs: seq<EndpointCheck>)
    ensures |cs| == |cfg.endpoints|
  {
    seq(|cfg.endpoints|, i requires 0 <= i < |cfg.endpoints| =>
      EndpointCheck(cfg.endpoints[i], input.health(cfg.endpoints[i])))
  }

  // ---- the suspended poll -------------------------------------------------

  datatype Phase =
    | Start
    | Observing(open: seq<Alert>)
    | EndingPeriod(plan: Plan)
    | StartingPeriod(plan: Plan)
    | Fetching(plan: Plan)
    | Appending(plan: Plan, blocks: seq<Block>)
    | Inserting(plan: Plan, blocks: seq<Block>)
    | Judging(plan: Plan, blocks: seq<Block>)
    | JudgingEndpoints(open: seq<Alert>)
    | Applying(events: seq<AlertEvent>, k: nat)
    | Dispatching(events: seq<AlertEvent>, k: nat)
    | Done

  /** A dispatched notification and the time its check ran. */
  datatype Entry = Entry(event: AlertEvent, at: int)

  /** The answer a block was made from, and the addresses its validator was looked for under. */
  datatype Origin = Origin(answer: CommitAnswer, valconsHex: Option<string>, signer: string)

  /**
   * What happened so far, kept for the statements only: where each block came from, the failed answers
   * that were skipped over, the notifications, the last tip seen, and the endpoint evaluations of this process.
   */
  datatype History = History(origin: map<int, Origin>, skipped: map<int, CommitAnswer>, log: seq<Entry>,
                             lastTip: int, rounds: seq<Round>)

  /** Tables, the evaluator's timers, the supply of fresh alert ids, and the history. */
  datatype Store = Store(tables: TableSet, downSince: map<Key, int>, nextId: nat, history: History)

  function AfterEnding(p: Plan): Phase {
    if p.status.Some? && p.periodsRead && StartsPeriod(p.status.value, p.ongoing) then StartingPeriod(p) else Fetching(p)
  }

  function AfterObserving(p: Plan): Phase {
    if p.status.Some? && p.periodsRead && EndsPeriod(p.status.value, p.ongoing) then EndingPeriod(p) else AfterEnding(p)
  }

  function PlanFor(cfg: Config, t: TableSet, input: PollInput, open: seq<Alert>): Plan
    requires input.tip.Some?
  {
    Plan(open, Latest(t.blocks), input.tip.value,
         StatusAt(cfg.chainType, input.tip.value, input.validator, input.signingInfo),
         input.inactivityReadable,
         if input.inactivityReadable then NewestOngoing(t.periods) else None)
  }

  function OriginOf(cfg: Config, input: PollInput, h: int): Origin {
    Origin(input.commit(h), cfg.valconsHex, cfg.signer)
  }

  function OriginWith(cfg: Config, origin: map<int, Origin>, blocks: seq<Block>, input: PollInput): map<int, Origin> {
    origin + map h | h in (set b | b in blocks :: b.height) :: OriginOf(cfg, input, h)
  }

  function Stored(cfg: Config, s: Store, blocks: seq<Block>, input: PollInput): Store {
    s.(tables := s.tables.(blocks := WithBlocks(s.tables.blocks, blocks)),
       history := s.history.(origin := OriginWith(cfg, s.history.origin, blocks, input)))
  }

  function ChainEvents(cfg: Config, s: Store, input: PollInput, p: Plan, blocks: seq<Block>): seq<AlertEvent> {
    if !input.tailReadable || !input.statsReadable then []
    else
      var end := WindowEnd(p, blocks);
      Evaluated(cfg.alerts,
                TailWindow(s.tables.blocks, end, cfg.alerts.missThreshold),
                Stats(s.tables.blocks, WindowStart(end, cfg.signingWindow), end),
                p.open, p.status, p.tip, input.evaluatedAt, s.nextId)
  }

  /** The endpoint check that ends every evaluation; its events follow the chain's. */
  function WithEndpoints(cfg: Config, s: Store, input: PollInput, open: seq<Alert>, chainEvents: seq<AlertEvent>): (Store, Phase) {
    var checks := Checks(cfg, input);
    var events := chainEvents + EndpointsEvaluated(cfg.alerts, checks, s.downSince, open, input.endpointsAt, s.nextId + CHECKS);
    (s.(downSince := TimersAfter(checks, s.downSince, input.endpointsAt), nextId := s.nextId + CHECKS + |checks|,
        history := s.history.(rounds := s.history.rounds + [Round(checks, input.endpointsAt)])),
     Pending(events, 0))
  }

  function Pending(events: seq<AlertEvent>, k: nat): Phase {
    if k < |events| then Applying(events, k) else Done
  }

  function Applied(alerts: map<nat, Alert>, input: PollInput, e: AlertEvent, k: nat): map<nat, Alert> {
    match e
    case Open(a) =>
      if input.eventReadOk(k) && a.id !in alerts && input.eventOk(k) then alerts[a.id := a] else alerts
    case Repeat(a) =>
      if input.eventOk(k) then Touching(alerts, a.id, input.appliedAt(k), a.repeatCount + 1) else alerts
    case Close(a, at) =>
      if input.eventOk(k) then Closing(alerts, a.id, at) else alerts
  }

  /** Resumes a suspended poll up to its next database statement. */
  function Advance(cfg: Config, s: Store, input: PollInput, ph: Phase): (Store, Phase) {
    var t := s.tables;
    match ph
    case Start =>
      (s, if input.alertsReadable then Observing(UnclosedPage(t.alerts, s.nextId)) else Done)
    case Observing(open) =>
      if !input.heightReadable || input.tip.None? then (s, JudgingEndpoints(open))
      else (s.(history := s.history.(lastTip := input.tip.value.height)), AfterObserving(PlanFor(cfg, t, input, open)))
    case EndingPeriod(p) =>
      if !input.endOk || p.ongoing.None? || p.status.None? then (s, AfterEnding(p))
      else
        var st := p.status.value;
        (s.(tables := t.(periods := Ending(t.periods, p.ongoing.value.height, st.height, st.time))), AfterEnding(p))
    case StartingPeriod(p) =>
      if !input.startOk || p.status.None? then (s, Fetching(p))
      else (s.(tables := t.(periods := t.periods[p.status.value.height := NewPeriod(p.status.value)])), Fetching(p))
    case Fetching(p) =>
      var c := CollectedBy(cfg, p, input);
      (s.(history := s.history.(skipped := s.history.skipped + c.skipped)),
       if c.blocks != [] then Appending(p, c.blocks) else Judging(p, []))
    case Appending(p, blocks) =>
      if input.appendOk && InsertableNow(t.blocks, blocks) then (Stored(cfg, s, blocks, input), Judging(p, blocks))
      else (s, Inserting(p, blocks))
    case Inserting(p, blocks) =>
      if input.insertOk && InsertableNow(t.blocks, blocks) then (Stored(cfg, s, blocks, input), Judging(p, blocks))
      else (s, Judging(p, blocks))
    case Judging(p, blocks) =>
      WithEndpoints(cfg, s, input, p.open, ChainEvents(cfg, s, input, p, blocks))
    case JudgingEndpoints(open) =>
      WithEndpoints(cfg, s, input, open, [])
    case Applying(events, k) =>
      if k < |events|
      then (s.(tables := t.(alerts := Applied(t.alerts, input, events[k], k))), Dispatching(events, k))
      else (s, Done)
    case Dispatching(events, k) =>
      if k < |events|
      then (s.(history := s.history.(log := s.history.log + [Entry(events[k], input.evaluatedAt)])), Pending(events, k + 1))
      else (s, Done)
    case Done => (s, Done)
  }

  function Rank(ph: Phase): nat {
    match ph
    case Start => 9
    case Observing(_) => 8
    case EndingPeriod(_) => 7
    case StartingPeriod(_) => 6
    case Fetching(_) => 5
    case Appending(_, _) => 4
    case Inserting(_, _) => 3
    case Judging(_, _) => 2
    case JudgingEndpoints(_) => 2
    case Applying(_, _) => 1
    case Dispatching(_, _) => 1
    case Done => 0
  }

  function Todo(ph: Phase): nat {
    match ph
    case Applying(events, k) => if k < |events| then 2 * (|events| - k) else 0
    case Dispatching(events, k) => if k < |events| then 2 * (|events| - k) - 1 else 0
    case _ => 0
  }

  /** The store when a poll that nothing interrupts is through. */
  function Complete(cfg: Config, s: Store, input: PollInput, ph: Phase): Store
    decreases Rank(ph), Todo(ph)
  {
    if ph.Done? then s
    else
      AdvanceDescends(cfg, s, input, ph);
      hide Advance;
      var next := Advance(cfg, s, input, ph);
      Complete(cfg, next.0, input, next.1)
  }

  lemma AdvanceDescends(cfg: Config, s: Store, input: PollInput, ph: Phase)
    requires !ph.Done?
    ensures
      var next := Advance(cfg, s, input, ph).1;
      Rank(next) < Rank(ph) || (Rank(next) == Rank(ph) && Todo(next) < Todo(ph))
  {
    hide UnclosedPage, StatusAt, CollectedBy, InsertableNow, WithBlocks, OriginWith, Applied, ChainEvents, Ending, EndpointsEvaluated, TimersAfter;
  }

  lemma OneStep(cfg: Config, s: Store, input: PollInput, ph: Phase)
    ensures
      var next := Advance(cfg, s, input, ph);
      Complete(cfg, s, input, ph) == if ph.Done? then s else Complete(cfg, next.0, input, next.1)
  {
    hide Advance;
  }

  // ---- stretches of the machine in one go ---------------------------------

  /** The store once the poll has recorded the validator's status. */
  function RecordedIn(s: Store, input: PollInput, p: Plan): Store {
    if p.status.Some? && p.periodsRead
    then s.(tables := s.tables.(periods := RecordedBy(s.tables.periods, p.status.value, p.ongoing, input.endOk, input.startOk)))
    else s
  }

  lemma RecordsAsMachine(cfg: Config, s: Store, input: PollInput, p: Plan)
    ensures
      Complete(cfg, s, input, AfterObserving(p)) ==
      Complete(cfg, RecordedIn(s, input, p), input, Fetching(p))
  {
    var ph1 := AfterObserving(p);
    var (s2, ph2) := if ph1.EndingPeriod? then Advance(cfg, s, input, ph1) else (s, ph1);
    assert Complete(cfg, s, input, ph1) == Complete(cfg, s2, input, ph2) && ph2 == AfterEnding(p);
    var (s3, ph3) := if ph2.StartingPeriod? then Advance(cfg, s2, input, ph2) else (s2, ph2);
    assert Complete(cfg, s2, input, ph2) == Complete(cfg, s3, input, ph3) && ph3 == Fetching(p);
  }

  function IngestedBy(cfg: Config, s: Store, blocks: seq<Block>, input: PollInput): Store {
    if blocks != [] && (input.appendOk || input.insertOk) && InsertableNow(s.tables.blocks, blocks) then Stored(cfg, s, blocks, input) else s
  }

  /** The store once the poll has fetched its slice and stored what it can. */
  function Ingested(cfg: Config, s: Store, input: PollInput, p: Plan): Store {
    var c := CollectedBy(cfg, p, input);
    IngestedBy(cfg, s.(history := s.history.(skipped := s.history.skipped + c.skipped)), c.blocks, input)
  }

  lemma IngestsAsMachine(cfg: Config, s: Store, input: PollInput, p: Plan)
    ensures Complete(cfg, s, input, Fetching(p)) == Complete(cfg, Ingested(cfg, s, input, p), input, Judging(p, CollectedBy(cfg, p, input).blocks))
  {
    var c := CollectedBy(cfg, p, input);
    var (s1, ph1) := Advance(cfg, s, input, Fetching(p));
    assert Complete(cfg, s, input, Fetching(p)) == Complete(cfg, s1, input, ph1);
    if c.blocks != [] {
      var (s2, ph2) := Advance(cfg, s1, input, ph1);
      assert Complete(cfg, s1, input, ph1) == Complete(cfg, s2, input, ph2);
      if ph2.Inserting? {
        var (s3, ph3) := Advance(cfg, s2, input, ph2);
        assert Complete(cfg, s2, input, ph2) == Complete(cfg, s3, input, ph3);
      }
    }
  }

  lemma AppliesAsMachine(cfg: Config, s: Store, input: PollInput, events: seq<AlertEvent>, k: nat)
    requires k < |events|
    ensures
      var s' := s.(tables := s.tables.(alerts := Applied(s.tables.alerts, input, events[k], k)),
                   history := s.history.(log := s.history.log + [Entry(events[k], input.evaluatedAt)]));
      Complete(cfg, s, input, Pending(events, k)) == Complete(cfg, s', input, Pending(events, k + 1))
  {
    var (s1, ph1) := Advance(cfg, s, input, Applying(events, k));
    var (s2, ph2) := Advance(cfg, s1, input, ph1);
    assert Complete(cfg, s, input, Applying(events, k)) == Complete(cfg, s1, input, ph1) == Complete(cfg, s2, input, ph2);
  }

  lemma StartUnfolds(cfg: Config, s: Store, input: PollInput)
    ensures Complete(cfg, s, input, Start) ==
            if input.alertsReadable then Complete(cfg, s, input, Observing(UnclosedPage(s.tables.alerts, s.nextId))) else s
  {
    assert Complete(cfg, s, input, Done) == s;
  }

  lemma ObservingUnfolds(cfg: Config, s: Store, input: PollInput, open: seq<Alert>)
    ensures Complete(cfg, s, input, Observing(open)) ==
            if !input.heightReadable || input.tip.None?
            then
              var next := WithEndpoints(cfg, s, input, open, []);
              Complete(cfg, next.0, input, next.1)
            else Complete(cfg, s.(history := s.history.(lastTip := input.tip.value.height)), input,
                          AfterObserving(PlanFor(cfg, s.tables, input, open)))
  {
    assert Complete(cfg, s, input, JudgingEndpoints(open)) ==
      var next := WithEndpoints(cfg, s, input, open, []);
      Complete(cfg, next.0, input, next.1);
  }

  lemma JudgingUnfolds(cfg: Config, s: Store, input: PollInput, p: Plan, blocks: seq<Block>)
    ensures
      var next := WithEndpoints(cfg, s, input, p.open, ChainEvents(cfg, s, input, p, blocks));
      Complete(cfg, s, input, Judging(p, blocks)) == Complete(cfg, next.0, input, next.1)
  {
  }

  /** The store of a poll that sees a tip, by the time its checks run. */
  function UpToJudging(cfg: Config, s: Store, input: PollInput, p: Plan): Store {
    Ingested(cfg, RecordedIn(s.(history := s.history.(lastTip := p.tip.height)), input, p), input, p)
  }

  lemma ComesToJudging(cfg: Config, s: Store, input: PollInput) returns (p: Plan)
    requires input.alertsReadable && input.heightReadable && input.tip.Some?
    ensures p == PlanFor(cfg, s.tables, input, UnclosedPage(s.tables.alerts, s.nextId))
    ensures Complete(cfg, s, input, Start)
            == Complete(cfg, UpToJudging(cfg, s, input, p), input, Judging(p, CollectedBy(cfg, p, input).blocks))
  {
    hide Complete, Advance, RecordedIn, Ingested, UnclosedPage;
    var open := UnclosedPage(s.tables.alerts, s.nextId);
    p := PlanFor(cfg, s.tables, input, open);
    var seen := s.(history := s.history.(lastTip := p.tip.height));
    StartUnfolds(cfg, s, input);
    ObservingUnfolds(cfg, s, input, open);
    RecordsAsMachine(cfg, seen, input, p);
    IngestsAsMachine(cfg, RecordedIn(seen, input, p), input, p);
  }

  // ---- the process --------------------------------------------------------

  datatype Instance = Instance(input: PollInput, phase: Phase)

  /** The worker process: its guard flag and the polls that are suspended somewhere. */
  datatype World = World(cfg: Config, store: Store, polling: bool, polls: seq<Instance>)

  datatype Action =
    | Tick(input: PollInput)
    | Resume(i: nat)
    | Throw(i: nat)
    | Restart(cfg: Config)

  function Without<T>(s: seq<T>, i: nat): seq<T>
    requires i < |s|
  {
    s[..i] + s[i + 1..]
  }

  /** A fresh process over the tables of an earlier one, or over empty ones. */
  function Booted(cfg: Config, s: Store): World {
    World(cfg, s.(downSince := map[], history := s.history.(rounds := [])), false, [])
  }

  function Next(w: World, a: Action): World {
    match a
    case Tick(input) =>
      if w.polling then w
      else w.(polling := true, polls := w.polls + [Instance(input, Start)])
    case Resume(i) =>
      if i >= |w.polls| then w
      else
        var it := w.polls[i];
        var next := Advance(w.cfg, w.store, it.input, it.phase);
        if next.1.Done? then w.(store := next.0, polling := false, polls := Without(w.polls, i))
        else w.(store := next.0, polls := w.polls[i := Instance(it.input, next.1)])
    case Throw(i) =>
      if i >= |w.polls| then w
      else w.(polling := false, polls := Without(w.polls, i))
    case Restart(cfg) =>
      Booted(cfg, w.store)
  }

  function Run(w: World, actions: seq<Action>): World {
    if actions == [] then w
    else Next(Run(w, actions[..|actions| - 1]), actions[|actions| - 1])
  }

  const EMPTY := Store(TableSet(map[], map[], map[]), map[], 0, History(map[], map[], [], 0, []))

  // ---- at most one poll ---------------------------------------------------

  ghost predicate OnePoll(w: World) {
    |w.polls| == if w.polling then 1 else 0
  }

  /** Polls never overlap, whatever ticks, exceptions and restarts fall between their statements. */
  lemma {:induction false} PollsNeverOverlap(w: World, actions: seq<Action>)
    requires OnePoll(w)
    ensures OnePoll(Run(w, actions)) && |Run(w, actions).polls| <= 1
  {
    if actions != [] {
      PollsNeverOverlap(w, actions[..|actions| - 1]);
    }
  }

  /** n resumptions of the same suspended poll. */
  function Resumes(n: nat): seq<Action> { seq(n, _ => Resume(0)) }

  /**
   * Left alone, a poll ends, and leaves what running it to the end in one go would leave: ticks that
   * arrive meanwhile are dropped by the guard.
   */
  lemma {:induction false} PollEnds(w: World, input: PollInput, ph: Phase) returns (n: nat)
    requires w.polling && w.polls == [Instance(input, ph)] && !ph.Done?
    ensures Run(w, Resumes(n)) == w.(store := Complete(w.cfg, w.store, input, ph), polling := false, polls := [])
    decreases Rank(ph), Todo(ph)
  {
    AdvanceDescends(w.cfg, w.store, input, ph);
    OneStep(w.cfg, w.store, input, ph);
    hide Advance;
    var next := Advance(w.cfg, w.store, input, ph);
    var w' := Next(w, Resume(0));
    if next.1.Done? {
      assert Complete(w.cfg, next.0, input, next.1) == next.0;
      n := 1;
      RunFirst(w, Resumes(1));
      assert Resumes(1)[1..] == [];
      assert Without(w.polls, 0) == [];
    } else {
      assert w.polls[0 := Instance(input, next.1)] == [Instance(input, next.1)];
      var m := PollEnds(w', input, next.1);
      n := m + 1;
      RunFirst(w, Resumes(n));
      assert Resumes(n)[1..] == Resumes(m);
    }
  }

  lemma {:induction false} RunFirst(w: World, actions: seq<Action>)
    requires actions != []
    ensures Run(w, actions) == Run(Next(w, actions[0]), actions[1..])
  {
    if |actions| == 1 {
      assert actions[..0] == [] && actions[1..] == [];
    } else {
      var before := actions[..|actions| - 1];
      RunFirst(w, before);
      assert before[1..] == actions[1..][..|actions| - 2];
    }
  }
}
