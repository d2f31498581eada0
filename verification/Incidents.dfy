/** What the notifications sent over a whole run look like: incidents, their repeats, and how far those are apart. */
module Incidents {
  import opened Domain
  import opened Tables
  import opened Evaluator
  import opened Worker
  import opened OpenAlerts
  import Attribution
  import MissWindow

  // ---- the grammar of one key's notifications -----------------------------

  datatype Incident = Idle | Running(repeats: nat) | Broken

  /** open starts an incident, repeats count 1, 2, 3, ... inside it, close ends it; anything else is out of order. */
  function After(inc: Incident, e: AlertEvent): Incident {
    match e
    case Open(_) => if inc.Idle? then Running(0) else Broken
    case Repeat(a) => if inc.Running? && a.repeatCount + 1 == inc.repeats + 1 then Running(a.repeatCount + 1) else Broken
    case Close(_, _) => if inc.Running? then Idle else Broken
  }

  function Replay(log: seq<Entry>, key: Key): Incident {
    if log == [] then Idle
    else
      var last := log[|log| - 1].event;
      var before := Replay(log[..|log| - 1], key);
      if last.alert.key == key then After(before, last) else before
  }

  /** What the alert table says about a key. */
  ghost function RowIncident(alerts: map<nat, Alert>, key: Key): Incident {
    if exists i :: i in alerts && Unclosed(alerts[i]) && alerts[i].key == key
    then
      var i :| i in alerts && Unclosed(alerts[i]) && alerts[i].key == key;
      Running(alerts[i].repeatCount)
    else Idle
  }

  /** The notifications sent, and the one a poll is about to send for a write it has done. */
  function SentOrPending(w: World): seq<Entry> {
    w.store.history.log + if |w.polls| == 1 then Unsent(w.polls[0]) else []
  }

  function Unsent(it: Instance): seq<Entry> {
    if it.phase.Dispatching? && it.phase.k < |it.phase.events|
    then [Entry(it.phase.events[it.phase.k], it.input.evaluatedAt)] else []
  }

  ghost predicate AlertWritesOk(input: PollInput) {
    forall k: nat :: input.eventReadOk(k) && input.eventOk(k)
  }

  /** The polls under way will have their alert writes succeed. */
  ghost predicate Willing(w: World) {
    forall it <- w.polls :: AlertWritesOk(it.input)
  }

  ghost predicate WritesOk(actions: seq<Action>) {
    forall a <- actions :: a.Tick? ==> AlertWritesOk(a.input)
  }

  /** The action ends the poll, which is not by itself a loss. */
  predicate CutsShort(w: World, a: Action) {
    |w.polls| == 1 && (a.Restart? || (a.Throw? && a.i == 0))
  }

  /** No exception or restart comes between an alert's write and its notification. */
  predicate LosesNothing(w: World, a: Action) {
    CutsShort(w, a) ==> !w.polls[0].phase.Dispatching?
  }

  ghost predicate Clean(w: World, actions: seq<Action>) {
    forall n :: 0 <= n < |actions| ==> LosesNothing(Run(w, actions[..n]), actions[n])
  }

  ghost predicate InStep(w: World) {
    forall key :: Replay(SentOrPending(w), key) == RowIncident(w.store.tables.alerts, key)
  }

  ghost predicate IncInv(w: World, keys: set<Key>) {
    && Inv(w, keys)
    && InStep(w)
    && Willing(w)
  }

  lemma RowIs(alerts: map<nat, Alert>, nextId: nat, keys: set<Key>, i: nat)
    requires AlertsOk(alerts, nextId, keys) && i in alerts && Unclosed(alerts[i])
    ensures RowIncident(alerts, alerts[i].key) == Running(alerts[i].repeatCount)
  {
    var key := alerts[i].key;
    var j :| j in alerts && Unclosed(alerts[j]) && alerts[j].key == key && RowIncident(alerts, key) == Running(alerts[j].repeatCount);
    assert j == i;
  }

  /** A write that succeeds moves its key's row exactly as the notification moves the incident, and no other. */
  lemma AppliedMatches(alerts: map<nat, Alert>, nextId: nat, keys: set<Key>, input: PollInput, e: AlertEvent, k: nat, key: Key)
    requires AlertsOk(alerts, nextId, keys) && Fits(e, alerts, 0, nextId) && AlertWritesOk(input)
    requires AlertsOk(Applied(alerts, input, e, k), nextId, keys)
    ensures RowIncident(Applied(alerts, input, e, k), key)
            == if e.alert.key == key then After(RowIncident(alerts, key), e) else RowIncident(alerts, key)
  {
    var alerts' := Applied(alerts, input, e, k);
    assert input.eventReadOk(k) && input.eventOk(k);
    var id := e.alert.id;
    assert forall i :: i in alerts && i != id ==> i in alerts' && alerts'[i] == alerts[i];
    assert forall i :: i in alerts' && i != id ==> i in alerts;
    if e.alert.key == key {
      if e.Open? {
        RowIs(alerts', nextId, keys, id);
        assert RowIncident(alerts, key) == Idle;
      } else {
        RowIs(alerts, nextId, keys, id);
        if e.Repeat? {
          RowIs(alerts', nextId, keys, id);
        } else {
          assert forall i :: i in alerts' && Unclosed(alerts'[i]) ==> i != id && alerts'[i].key != key;
        }
      }
    } else if i :| i in alerts && Unclosed(alerts[i]) && alerts[i].key == key {
      assert i != id;
      RowIs(alerts, nextId, keys, i);
      RowIs(alerts', nextId, keys, i);
    } else {
      assert forall i :: i in alerts' && Unclosed(alerts'[i]) ==> alerts'[i].key != key by {
        forall i | i in alerts' && Unclosed(alerts'[i]) ensures alerts'[i].key != key {
          if i != id { assert alerts'[i] == alerts[i]; }
        }
      }
      assert RowIncident(alerts', key) == Idle;
    }
  }

  lemma ReplaySnoc(log: seq<Entry>, x: Entry, key: Key)
    ensures Replay(log + [x], key) == if x.event.alert.key == key then After(Replay(log, key), x.event) else Replay(log, key)
  {
    assert (log + [x])[..|log|] == log;
  }

  lemma ApplyingStep(w: World, keys: set<Key>)
    requires IncInv(w, keys) && |keys| <= ALERT_PAGE && |w.polls| == 1 && w.polls[0].phase.Applying?
    ensures InStep(Next(w, Resume(0)))
  {
    var it := w.polls[0];
    assert it in w.polls;
    var events, k := it.phase.events, it.phase.k;
    if k < |events| {
      var alerts := w.store.tables.alerts;
      AppliedKeeps(alerts, w.store.nextId, keys, it.input, events, k);
      assert events[k..][0] == events[k] && events[k] in events[k..];
      var x := Entry(events[k], it.input.evaluatedAt);
      var log := w.store.history.log;
      assert SentOrPending(w) == log;
      assert SentOrPending(Next(w, Resume(0))) == log + [x];
      forall key ensures Replay(log + [x], key) == RowIncident(Applied(alerts, it.input, events[k], k), key) {
        ReplaySnoc(log, x, key);
        AppliedMatches(alerts, w.store.nextId, keys, it.input, events[k], k, key);
      }
    } else {
      assert SentOrPending(Next(w, Resume(0))) == SentOrPending(w);
    }
  }

  lemma QuietAdvance(cfg: Config, s: Store, it: Instance)
    requires !it.phase.Applying?
    ensures
      var next := Advance(cfg, s, it.input, it.phase);
      && next.0.history.log + Unsent(it.(phase := next.1)) == s.history.log + Unsent(it)
      && next.0.tables.alerts == s.tables.alerts
  {
    hide UnclosedPage, PlanFor, Ending, CollectedBy, InsertableNow, ChainEvents;
  }

  /** A step that writes no alert leaves what was sent as it was, or cuts off the one notification it loses. */
  lemma QuietStep(w: World, a: Action)
    requires OnePoll(w)
    requires a.Resume? && a.i < |w.polls| ==> !w.polls[a.i].phase.Applying?
    ensures Next(w, a).store.tables.alerts == w.store.tables.alerts
    ensures SentOrPending(Next(w, a)) == if CutsShort(w, a) then w.store.history.log else SentOrPending(w)
  {
    hide Advance;
    if a.Resume? && a.i < |w.polls| {
      assert a.i == 0;
      QuietAdvance(w.cfg, w.store, w.polls[0]);
    }
  }

  lemma WillingStep(w: World, a: Action)
    requires Willing(w) && (a.Tick? ==> AlertWritesOk(a.input))
    ensures Willing(Next(w, a))
  {
    hide Advance, AlertWritesOk;
    if a.Resume? && a.i < |w.polls| {
      assert w.polls[a.i] in w.polls;
    }
  }

  lemma IncStep(w: World, a: Action, keys: set<Key>)
    requires IncInv(w, keys) && |keys| <= ALERT_PAGE && LosesNothing(w, a)
    requires a.Tick? ==> AlertWritesOk(a.input)
    requires a.Restart? ==> ConfigOk(a.cfg) && KeysFor(a.cfg, keys)
    ensures IncInv(Next(w, a), keys)
  {
    StepKeeps(w, a, keys);
    WillingStep(w, a);
    assert OnePoll(w) && |w.polls| <= 1;
    hide Next, Inv, Willing;
    if a.Resume? && a.i < |w.polls| && w.polls[a.i].phase.Applying? {
      ApplyingStep(w, keys);
    } else {
      QuietStep(w, a);
      assert CutsShort(w, a) ==> SentOrPending(w) == w.store.history.log;
    }
  }

  /**
   * The exact loss: from a state in which notifications and rows agree, an exception or a restart keeps
   * them in agreement if and only if it does not fall between a write and its notification.
   */
  lemma AgreementKeptIff(w: World, a: Action, keys: set<Key>)
    requires IncInv(w, keys) && (a.Throw? || a.Restart?)
    ensures InStep(Next(w, a)) <==> LosesNothing(w, a)
  {
    QuietStep(w, a);
    if CutsShort(w, a) && w.polls[0].phase.Dispatching? {
      assert w.polls[0] in w.polls;
      var x := Unsent(w.polls[0])[0];
      var log, key := w.store.history.log, x.event.alert.key;
      assert SentOrPending(w) == log + [x];
      ReplaySnoc(log, x, key);
      assert After(Replay(log, key), x.event) == RowIncident(w.store.tables.alerts, key) != Replay(log, key);
    }
  }

  lemma NothingSentYet(cfg: Config)
    ensures InStep(Booted(cfg, EMPTY))
  {
    forall key ensures Replay(SentOrPending(Booted(cfg, EMPTY)), key) == RowIncident(EMPTY.tables.alerts, key) {
      assert forall i :: i !in EMPTY.tables.alerts;
    }
  }

  lemma {:induction false} WillingRun(w: World, actions: seq<Action>)
    requires Willing(w) && WritesOk(actions)
    ensures Willing(Run(w, actions))
  {
    hide Next, AlertWritesOk;
    if actions != [] {
      WillingRun(w, actions[..|actions| - 1]);
      WillingStep(Run(w, actions[..|actions| - 1]), actions[|actions| - 1]);
    }
  }

  lemma {:induction false} IncRun(cfg: Config, actions: seq<Action>, keys: set<Key>)
    requires ConfigOk(cfg) && KeysFor(cfg, keys) && ConfigsOk(actions, keys) && |keys| <= ALERT_PAGE
    requires WritesOk(actions) && Clean(Booted(cfg, EMPTY), actions)
    ensures IncInv(Run(Booted(cfg, EMPTY), actions), keys)
  {
    hide Next, LosesNothing, InStep;
    if actions == [] {
      NothingSentYet(cfg);
    } else {
      var before := actions[..|actions| - 1];
      forall n | 0 <= n < |before| ensures LosesNothing(Run(Booted(cfg, EMPTY), before[..n]), before[n]) {
        assert before[..n] == actions[..n];
      }
      IncRun(cfg, before, keys);
      IncStep(Run(Booted(cfg, EMPTY), before), actions[|actions| - 1], keys);
    }
  }

  /** Over whole runs: notifications and rows agree in every state if and only if no notification is lost. */
  lemma {:induction false} AlwaysInStepIff(cfg: Config, actions: seq<Action>, keys: set<Key>)
    requires ConfigOk(cfg) && KeysFor(cfg, keys) && ConfigsOk(actions, keys) && |keys| <= ALERT_PAGE && WritesOk(actions)
    ensures
      (forall n :: 0 <= n <= |actions| ==> InStep(Run(Booted(cfg, EMPTY), actions[..n])))
      <==> Clean(Booted(cfg, EMPTY), actions)
  {
    hide Next, LosesNothing, InStep, CutsShort, Inv;
    var w := Booted(cfg, EMPTY);
    if Clean(w, actions) {
      forall n | 0 <= n <= |actions| ensures InStep(Run(w, actions[..n])) {
        forall m | 0 <= m < n ensures LosesNothing(Run(w, actions[..n][..m]), actions[..n][m]) {
          assert actions[..n][..m] == actions[..m];
        }
        IncRun(cfg, actions[..n], keys);
      }
    }
    if forall n :: 0 <= n <= |actions| ==> InStep(Run(w, actions[..n])) {
      forall n | 0 <= n < |actions| ensures LosesNothing(Run(w, actions[..n]), actions[n]) {
        WillingRun(w, actions[..n]);
        BootedKeeps(cfg, actions[..n], keys);
        assert actions[..n + 1][..n] == actions[..n];
        assert InStep(Run(w, actions[..n + 1]));
        LossShows(Run(w, actions[..n]), actions[n], keys);
      }
    }
  }

  lemma {:induction false} BootedKeeps(cfg: Config, actions: seq<Action>, keys: set<Key>)
    requires ConfigOk(cfg) && KeysFor(cfg, keys) && ConfigsOk(actions, keys) && |keys| <= ALERT_PAGE
    ensures Inv(Run(Booted(cfg, EMPTY), actions), keys)
  {
    RunKeeps(Booted(cfg, EMPTY), actions, keys);
  }

  lemma LossShows(w: World, a: Action, keys: set<Key>)
    requires IncInv(w, keys) && InStep(Next(w, a))
    ensures LosesNothing(w, a)
  {
    hide Next, InStep, Inv;
    if CutsShort(w, a) {
      AgreementKeptIff(w, a, keys);
    }
  }

  lemma BrokenStays(log: seq<Entry>, more: seq<Entry>, key: Key)
    requires |more| <= 1 && Replay(log + more, key) != Broken
    ensures Replay(log, key) != Broken
  {
    if more == [] {
      assert log + more == log;
    } else {
      assert log + more == log + [more[0]];
      ReplaySnoc(log, more[0], key);
    }
  }

  /**
   * While alert writes succeed and no exception or restart swallows a notification whose write is
   * done, the notifications sent for each type and subject over the whole run form
   * (open repeat* close)*, the repeats of an incident counting 1, 2, 3, ...; and while no
   * notification is pending the incident is running exactly when the table has its row unclosed.
   */
  lemma {:induction false} NotificationsFormIncidents(cfg: Config, actions: seq<Action>, keys: set<Key>, key: Key)
    requires ConfigOk(cfg) && KeysFor(cfg, keys) && ConfigsOk(actions, keys) && |keys| <= ALERT_PAGE
    requires WritesOk(actions) && Clean(Booted(cfg, EMPTY), actions)
    ensures
      var w := Run(Booted(cfg, EMPTY), actions);
      && Replay(w.store.history.log, key) != Broken
      && (SentOrPending(w) == w.store.history.log ==> Replay(w.store.history.log, key) == RowIncident(w.store.tables.alerts, key))
  {
    hide Run;
    IncRun(cfg, actions, keys);
    var w := Run(Booted(cfg, EMPTY), actions);
    var log := w.store.history.log;
    var more := SentOrPending(w)[|log|..];
    assert SentOrPending(w) == log + more;
    BrokenStays(log, more, key);
  }

  // A run that loses a notification.

  lemma ResumeFirst(w: World, it: Instance, rest: seq<Action>)
    requires w.polls == [it] && !Advance(w.cfg, w.store, it.input, it.phase).1.Done?
    ensures
      var next := Advance(w.cfg, w.store, it.input, it.phase);
      Run(w, [Resume(0)] + rest) == Run(w.(store := next.0, polls := [it.(phase := next.1)]), rest)
  {
    hide Advance;
    var next := Advance(w.cfg, w.store, it.input, it.phase);
    RunFirst(w, [Resume(0)] + rest);
    assert ([Resume(0)] + rest)[1..] == rest;
    assert w.polls[0 := Instance(it.input, next.1)] == [it.(phase := next.1)];
  }

  /** A first poll that sees a stalled chain, cannot ask about the validator and can fetch no commit. */
  ghost predicate SeesStall(cfg: Config, input: PollInput) {
    && cfg.alerts.stalledEnabled && !cfg.allowBlockGaps
    && input.alertsReadable && input.heightReadable && input.tip.Some? && input.validator.Unavailable?
    && (input.evaluatedAt - input.tip.value.time) as real > cfg.alerts.stalledThreshold * 1000.0
    && (forall h :: input.commit(h).Unfetched?)
    && input.tailReadable && input.statsReadable && AlertWritesOk(input)
  }

  /** The four stretches of that poll up to its first alert write. */
  lemma StallPhases(cfg: Config, input: PollInput) returns (s1: Store, s2: Store, s3: Store, p: Plan, events: seq<AlertEvent>)
    requires SeesStall(cfg, input)
    ensures Advance(cfg, EMPTY, input, Start) == (EMPTY, Observing([]))
    ensures Advance(cfg, EMPTY, input, Observing([])) == (s1, Fetching(p))
    ensures Advance(cfg, s1, input, Fetching(p)) == (s2, Judging(p, []))
    ensures Advance(cfg, s2, input, Judging(p, [])) == (s3, Applying(events, 0))
    ensures events != [] && events[0] == Open(NewAlert(0, Key(Stalled, None), input.evaluatedAt))
    ensures s3.tables.alerts == map[] && s3.history.log == []
  {
    hide TimersAfter, EndpointsEvaluated, CheckConsecutiveMiss, CheckPercentageMiss, CheckValidatorStatus;
    p := PlanFor(cfg, EMPTY.tables, input, []);
    s1 := Advance(cfg, EMPTY, input, Observing([])).0;
    var slice := SliceOf(cfg, p, input);
    assert input.commit(FirstHeight(p)).Unfetched?;
    assert CollectedBy(cfg, p, input) == Attribution.NOTHING;
    s2 := Advance(cfg, s1, input, Fetching(p)).0;
    var next := Advance(cfg, s2, input, Judging(p, []));
    s3 := next.0;
    var chain := ChainEvents(cfg, s2, input, p, []);
    var stalled := CheckStalled(cfg.alerts, p.tip, p.open, input.evaluatedAt, 0);
    assert stalled == [Open(NewAlert(0, Key(Stalled, None), input.evaluatedAt))];
    assert chain[0] == stalled[0];
    events := chain + EndpointsEvaluated(cfg.alerts, Checks(cfg, input), s2.downSince, p.open, input.endpointsAt, s2.nextId + CHECKS);
  }

  lemma {:induction false} StallApplies(cfg: Config, input: PollInput, rest: seq<Action>) returns (s: Store, events: seq<AlertEvent>)
    requires SeesStall(cfg, input)
    ensures
      var r := [Resume(0)];
      Run(Booted(cfg, EMPTY), [Tick(input)] + (r + (r + (r + (r + rest)))))
        == Run(World(cfg, s, true, [Instance(input, Applying(events, 0))]), rest)
    ensures events != [] && events[0] == Open(NewAlert(0, Key(Stalled, None), input.evaluatedAt))
    ensures s.tables.alerts == map[] && s.history.log == []
  {
    hide *;
    var r := [Resume(0)];
    var s1, s2, p;
    s1, s2, s, p, events := StallPhases(cfg, input);
    var w := World(cfg, EMPTY, true, [Instance(input, Start)]);
    var w1 := w.(polls := [Instance(input, Observing([]))]);
    var w2 := w.(store := s1, polls := [Instance(input, Fetching(p))]);
    var w3 := w.(store := s2, polls := [Instance(input, Judging(p, []))]);
    TickFirst(cfg, input, r + (r + (r + (r + rest))));
    ResumeFirst(w, w.polls[0], r + (r + (r + rest)));
    assert Run(w, r + (r + (r + (r + rest)))) == Run(w1, r + (r + (r + rest)));
    ResumeFirst(w1, w1.polls[0], r + (r + rest));
    assert Run(w1, r + (r + (r + rest))) == Run(w2, r + (r + rest));
    ResumeFirst(w2, w2.polls[0], r + rest);
    assert Run(w2, r + (r + rest)) == Run(w3, r + rest);
    ResumeFirst(w3, w3.polls[0], rest);
  }

  lemma {:induction false} TickFirst(cfg: Config, input: PollInput, rest: seq<Action>)
    ensures Run(Booted(cfg, EMPTY), [Tick(input)] + rest) == Run(World(cfg, EMPTY, true, [Instance(input, Start)]), rest)
  {
    hide Run;
    RunFirst(Booted(cfg, EMPTY), [Tick(input)] + rest);
    assert ([Tick(input)] + rest)[1..] == rest;
    assert [] + [Instance(input, Start)] == [Instance(input, Start)];
    assert Next(Booted(cfg, EMPTY), Tick(input)) == World(cfg, EMPTY, true, [Instance(input, Start)]);
  }

  /**
   * A restart between the write and the notification, in a run from empty tables: a first poll finds the
   * chain stalled, the alert's row is written, the process restarts; the row is open, and nothing was
   * ever sent about it.
   */
  lemma {:induction false} LostNotification(cfg: Config, input: PollInput)
    requires SeesStall(cfg, input)
    ensures
      var r := [Resume(0)];
      var w := Run(Booted(cfg, EMPTY), [Tick(input)] + (r + (r + (r + (r + (r + [Restart(cfg)]))))));
      var key := Key(Stalled, None);
      RowIncident(w.store.tables.alerts, key) == Running(0) && Replay(w.store.history.log, key) == Idle
  {
    var end := [Restart(cfg)];
    var s, events := StallApplies(cfg, input, [Resume(0)] + end);
    var it, a := Instance(input, Applying(events, 0)), events[0].alert;
    assert input.eventReadOk(0) && input.eventOk(0);
    var written := Advance(cfg, s, input, Applying(events, 0));
    assert written.1 == Dispatching(events, 0) && written.0.tables.alerts == map[0 := a] && written.0.history.log == [];
    assert Run(Booted(cfg, written.0), []) == Booted(cfg, written.0);
    hide Run, Advance;
    ResumeFirst(World(cfg, s, true, [it]), it, end);
    RunFirst(World(cfg, written.0, true, [it.(phase := written.1)]), end);
    assert 0 in written.0.tables.alerts && Unclosed(a) && a.key == Key(Stalled, None);
  }

  // ---- how often an incident repeats --------------------------------------

  const MAX_PERCENT_REPEATS := 13

  lemma {:induction false} EscalationGrows(m: nat, n: nat)
    requires m <= n
    ensures Escalation(m) <= Escalation(n)
  {
    if m < n {
      EscalationGrows(m, n - 1);
    }
  }

  lemma EscalationPast(n: nat)
    ensures Escalation(n) <= 200.0 ==> n <= MAX_PERCENT_REPEATS
  {
    assert Escalation(2) == 2.25 && Escalation(4) == 5.0625;
    assert Escalation(6) == 11.390625 && Escalation(8) == 25.62890625;
    assert Escalation(10) > 57.6 && Escalation(12) > 129.0 && Escalation(14) > 200.0;
    if n >= 14 {
      EscalationGrows(14, n);
    }
  }

  /** 1.5^14 is above 200, and no ratio is above 100 percent. */
  lemma FewPercentRepeats(cfg: AlertConfig, a: Alert, stats: WindowStats)
    requires cfg.percentThreshold > 0.5 && stats.missed <= stats.total && PercentRepeatDue(cfg, a, stats)
    ensures a.repeatCount < MAX_PERCENT_REPEATS
  {
    var m, t, e := stats.missed as real, stats.total as real, Escalation(a.repeatCount + 1);
    assert m / t <= 1.0;
    assert Ratio(stats) <= 100.0;
    assert 0.5 * e <= cfg.percentThreshold * e <= 100.0;
    EscalationPast(a.repeatCount + 1);
  }

  /** Every repeat among the events was due. */
  ghost predicate RepeatsDue(cfg: AlertConfig, events: seq<AlertEvent>, now: int) {
    forall e <- events :: e.Repeat? ==>
      || (e.alert.key.kind == ConsecutiveMiss && MissRepeatDue(cfg, e.alert, now))
      || (e.alert.key.kind == PercentageMiss && e.alert.repeatCount < MAX_PERCENT_REPEATS)
  }

  lemma {:induction false} OnlyCloses(kinds: seq<AlertKind>, wanted: Option<AlertKind>, open: seq<Alert>, now: int)
    ensures forall e <- StatusCloses(kinds, wanted, open, now) :: e.Close?
  {
    if kinds != [] {
      OnlyCloses(kinds[..|kinds| - 1], wanted, open, now);
    }
  }

  lemma {:induction false} NoEndpointRepeats(cfg: AlertConfig, checks: seq<EndpointCheck>, n: nat, since: map<Key, int>, open: seq<Alert>, now: int, id: nat)
    requires n <= |checks|
    ensures forall e <- EventsUpTo(cfg, checks, n, since, open, now, id) :: !e.Repeat?
  {
    if n > 0 {
      NoEndpointRepeats(cfg, checks, n - 1, since, open, now, id);
    }
  }

  lemma {:induction false} NoOrphanRepeats(open: seq<Alert>, n: nat, configured: set<Key>, now: int)
    requires n <= |open|
    ensures forall e <- Orphans(open, n, configured, now) :: !e.Repeat?
  {
    if n > 0 {
      NoOrphanRepeats(open, n - 1, configured, now);
    }
  }

  lemma EvaluatedRepeatsDue(cfg: AlertConfig, tail: seq<Block>, stats: WindowStats, open: seq<Alert>, status: Option<Status>,
                            tip: Tip, now: int, id: nat)
    requires cfg.percentThreshold > 0.5 && stats.missed <= stats.total
    ensures RepeatsDue(cfg, Evaluated(cfg, tail, stats, open, status, tip, now, id), now)
  {
    if status.Some? {
      OnlyCloses(STATUS_KINDS, WantedKind(status.value), open, now);
    }
    var percent := CheckPercentageMiss(cfg, stats, open, now, id + 2);
    forall e | e in percent && e.Repeat? ensures e.alert.key.kind == PercentageMiss && e.alert.repeatCount < MAX_PERCENT_REPEATS {
      FewPercentRepeats(cfg, e.alert, stats);
    }
  }

  ghost predicate PhaseRepeats(cfg: Config, input: PollInput, ph: Phase) {
    (ph.Applying? || ph.Dispatching?) ==> RepeatsDue(cfg.alerts, ph.events, input.evaluatedAt)
  }

  lemma JudgedRepeats(cfg: Config, s: Store, input: PollInput, open: seq<Alert>, chainEvents: seq<AlertEvent>)
    requires RepeatsDue(cfg.alerts, chainEvents, input.evaluatedAt)
    ensures PhaseRepeats(cfg, input, WithEndpoints(cfg, s, input, open, chainEvents).1)
  {
    var checks := Checks(cfg, input);
    NoEndpointRepeats(cfg.alerts, checks, |checks|, s.downSince, open, input.endpointsAt, s.nextId + CHECKS);
    NoOrphanRepeats(open, |open|, ConfiguredKeys(checks), input.endpointsAt);
  }

  lemma AdvanceRepeats(cfg: Config, s: Store, input: PollInput, ph: Phase)
    requires ConfigOk(cfg) && PhaseRepeats(cfg, input, ph)
    ensures PhaseRepeats(cfg, input, Advance(cfg, s, input, ph).1)
  {
    match ph
    case Judging(p, blocks) =>
      if input.tailReadable && input.statsReadable {
        var end := WindowEnd(p, blocks);
        EvaluatedRepeatsDue(cfg.alerts, MissWindow.TailWindow(s.tables.blocks, end, cfg.alerts.missThreshold),
                            Stats(s.tables.blocks, MissWindow.WindowStart(end, cfg.signingWindow), end),
                            p.open, p.status, p.tip, input.evaluatedAt, s.nextId);
      }
      JudgedRepeats(cfg, s, input, p.open, ChainEvents(cfg, s, input, p, blocks));
    case JudgingEndpoints(open) => JudgedRepeats(cfg, s, input, open, []);
    case _ =>
  }

  ghost predicate RepInv(w: World, keys: set<Key>) {
    && Inv(w, keys)
    && (forall it <- w.polls :: PhaseRepeats(w.cfg, it.input, it.phase))
    && CountsBounded(w.store.tables.alerts)
  }

  ghost predicate CountsBounded(alerts: map<nat, Alert>) {
    forall i <- alerts :: alerts[i].key.kind == PercentageMiss ==> alerts[i].repeatCount <= MAX_PERCENT_REPEATS
  }

  lemma AppliedBounded(cfg: AlertConfig, alerts: map<nat, Alert>, nextId: nat, input: PollInput, e: AlertEvent, k: nat)
    requires CountsBounded(alerts) && Fits(e, alerts, 0, nextId) && RepeatsDue(cfg, [e], input.evaluatedAt)
    ensures CountsBounded(Applied(alerts, input, e, k))
  {
    assert e in [e];
  }

  lemma AdvanceBounded(cfg: Config, s: Store, input: PollInput, ph: Phase, keys: set<Key>)
    requires CountsBounded(s.tables.alerts) && OpenAlerts.PhaseOk(s, ph, keys) && PhaseRepeats(cfg, input, ph)
    ensures CountsBounded(Advance(cfg, s, input, ph).0.tables.alerts)
  {
    if ph.Applying? && ph.k < |ph.events| {
      var e := ph.events[ph.k];
      assert ph.events[ph.k..][0] == e && e in ph.events[ph.k..];
      assert e in ph.events;
      assert RepeatsDue(cfg.alerts, [e], input.evaluatedAt);
      AppliedBounded(cfg.alerts, s.tables.alerts, s.nextId, input, e, ph.k);
    } else {
      assert Advance(cfg, s, input, ph).0.tables.alerts == s.tables.alerts;
    }
  }

  lemma RepStep(w: World, a: Action, keys: set<Key>)
    requires RepInv(w, keys) && |keys| <= ALERT_PAGE
    requires a.Restart? ==> ConfigOk(a.cfg) && KeysFor(a.cfg, keys)
    ensures RepInv(Next(w, a), keys)
  {
    assert a.Tick? ==> PhaseRepeats(w.cfg, a.input, Start);
    hide Advance, CountsBounded, PhaseRepeats;
    StepKeeps(w, a, keys);
    if a.Resume? && a.i < |w.polls| {
      var it := w.polls[a.i];
      assert it in w.polls && a.i == 0;
      AdvanceRepeats(w.cfg, w.store, it.input, it.phase);
      AdvanceBounded(w.cfg, w.store, it.input, it.phase, keys);
    }
  }

  lemma {:induction false} RepRun(w: World, actions: seq<Action>, keys: set<Key>)
    requires RepInv(w, keys) && |keys| <= ALERT_PAGE && ConfigsOk(actions, keys)
    ensures RepInv(Run(w, actions), keys)
  {
    if actions != [] {
      RepRun(w, actions[..|actions| - 1], keys);
      RepStep(Run(w, actions[..|actions| - 1]), actions[|actions| - 1], keys);
    }
  }

  // As many repeats are sent about an alert as its row counts, or fewer if some were lost.

  function RepeatsOf(log: seq<Entry>, id: nat): nat {
    if log == [] then 0
    else
      var last := log[|log| - 1].event;
      RepeatsOf(log[..|log| - 1], id) + if last.Repeat? && last.alert.id == id then 1 else 0
  }

  ghost predicate CountedInRows(log: seq<Entry>, alerts: map<nat, Alert>) {
    forall id: nat :: RepeatsOf(log, id) <= if id in alerts then alerts[id].repeatCount else 0
  }

  ghost predicate CountInv(w: World, keys: set<Key>) {
    Inv(w, keys) && Willing(w) && CountedInRows(SentOrPending(w), w.store.tables.alerts)
  }

  lemma RepeatsSnoc(log: seq<Entry>, x: Entry, id: nat)
    ensures RepeatsOf(log + [x], id) == RepeatsOf(log, id) + if x.event.Repeat? && x.event.alert.id == id then 1 else 0
  {
    assert (log + [x])[..|log|] == log;
  }

  lemma CountApplying(w: World, keys: set<Key>)
    requires CountInv(w, keys) && |w.polls| == 1 && w.polls[0].phase.Applying?
    ensures CountedInRows(SentOrPending(Next(w, Resume(0))), Next(w, Resume(0)).store.tables.alerts)
  {
    var it := w.polls[0];
    assert it in w.polls;
    var events, k, log := it.phase.events, it.phase.k, w.store.history.log;
    assert SentOrPending(w) == log;
    if k < |events| {
      assert events[k..][0] == events[k] && events[k] in events[k..];
      assert it.input.eventReadOk(k) && it.input.eventOk(k);
      var x := Entry(events[k], it.input.evaluatedAt);
      assert SentOrPending(Next(w, Resume(0))) == log + [x];
      var alerts' := Applied(w.store.tables.alerts, it.input, events[k], k);
      forall id: nat ensures RepeatsOf(log + [x], id) <= if id in alerts' then alerts'[id].repeatCount else 0 {
        RepeatsSnoc(log, x, id);
      }
    } else {
      assert SentOrPending(Next(w, Resume(0))) == log;
    }
  }

  lemma CountStep(w: World, a: Action, keys: set<Key>)
    requires CountInv(w, keys) && |keys| <= ALERT_PAGE && (a.Tick? ==> AlertWritesOk(a.input))
    requires a.Restart? ==> ConfigOk(a.cfg) && KeysFor(a.cfg, keys)
    ensures CountInv(Next(w, a), keys)
  {
    StepKeeps(w, a, keys);
    WillingStep(w, a);
    assert OnePoll(w) && |w.polls| <= 1;
    hide Advance, Inv, Willing, CountedInRows;
    if a.Resume? && a.i < |w.polls| && w.polls[a.i].phase.Applying? {
      CountApplying(w, keys);
    } else {
      QuietStep(w, a);
      if CutsShort(w, a) {
        FewerCounted(w.store.history.log, Unsent(w.polls[0]), w.store.tables.alerts);
      }
    }
  }

  lemma FewerCounted(log: seq<Entry>, more: seq<Entry>, alerts: map<nat, Alert>)
    requires |more| <= 1 && CountedInRows(log + more, alerts)
    ensures CountedInRows(log, alerts)
  {
    if more == [] {
      assert log + more == log;
    } else {
      assert log + more == log + [more[0]];
      forall id: nat ensures RepeatsOf(log, id) <= if id in alerts then alerts[id].repeatCount else 0 {
        RepeatsSnoc(log, more[0], id);
      }
    }
  }

  lemma {:induction false} CountRun(cfg: Config, actions: seq<Action>, keys: set<Key>)
    requires ConfigOk(cfg) && KeysFor(cfg, keys) && ConfigsOk(actions, keys) && |keys| <= ALERT_PAGE && WritesOk(actions)
    ensures CountInv(Run(Booted(cfg, EMPTY), actions), keys)
  {
    hide Next;
    if actions == [] {
      assert SentOrPending(Booted(cfg, EMPTY)) == [];
    } else {
      CountRun(cfg, actions[..|actions| - 1], keys);
      CountStep(Run(Booted(cfg, EMPTY), actions[..|actions| - 1]), actions[|actions| - 1], keys);
    }
  }

  /**
   * No incident of missed-block percentage repeats more than 13 times: the escalated threshold passes
   * 100 percent. The table's count never does, whatever fails; and while alert writes succeed no more
   * than 13 repeats are ever sent about an alert, exceptions and restarts anywhere. While moreover no
   * notification is lost, an incident's own count stays within the bound too.
   */
  lemma {:induction false} PercentRepeatsBounded(cfg: Config, actions: seq<Action>, keys: set<Key>)
    requires ConfigOk(cfg) && KeysFor(cfg, keys) && ConfigsOk(actions, keys) && |keys| <= ALERT_PAGE
    ensures
      var w := Run(Booted(cfg, EMPTY), actions);
      var key := Key(PercentageMiss, None);
      && (forall i <- w.store.tables.alerts ::
            w.store.tables.alerts[i].key == key ==> w.store.tables.alerts[i].repeatCount <= MAX_PERCENT_REPEATS)
      && (WritesOk(actions) ==>
            forall id :: 0 < RepeatsOf(w.store.history.log, id) ==>
              && id in w.store.tables.alerts
              && (w.store.tables.alerts[id].key == key ==> RepeatsOf(w.store.history.log, id) <= MAX_PERCENT_REPEATS))
      && (WritesOk(actions) && Clean(Booted(cfg, EMPTY), actions) ==>
            Replay(SentOrPending(w), key) == Idle
            || (Replay(SentOrPending(w), key).Running? && Replay(SentOrPending(w), key).repeats <= MAX_PERCENT_REPEATS))
  {
    hide Run, Clean, Replay;
    RepRun(Booted(cfg, EMPTY), actions, keys);
    var w := Run(Booted(cfg, EMPTY), actions);
    if WritesOk(actions) {
      CountRun(cfg, actions, keys);
      assert OnePoll(w) && |w.polls| <= 1;
      FewerCounted(w.store.history.log, if |w.polls| == 1 then Unsent(w.polls[0]) else [], w.store.tables.alerts);
      if Clean(Booted(cfg, EMPTY), actions) {
        IncRun(cfg, actions, keys);
      }
    }
  }

  // ---- how far apart consecutive-miss repeats are -------------------------

  predicate IsMissRepeat(x: Entry) { x.event.Repeat? && x.event.alert.key.kind == ConsecutiveMiss }

  /** Two repeats about the same alert were evaluated at least `gap` seconds apart. */
  ghost predicate Spaced(log: seq<Entry>, gap: real) {
    forall i, j :: 0 <= i < j < |log| && IsMissRepeat(log[i]) && IsMissRepeat(log[j]) && log[i].event.alert.id == log[j].event.alert.id
      ==> (log[j].at - log[i].at) as real / 1000.0 >= gap
  }

  /** The alert's row was last notified no earlier than any repeat about it was evaluated. */
  ghost predicate Stamped(log: seq<Entry>, alerts: map<nat, Alert>) {
    forall x <- log :: IsMissRepeat(x) ==>
      && x.event.alert.id in alerts && alerts[x.event.alert.id].key.kind == ConsecutiveMiss
      && x.at <= LastNotified(alerts[x.event.alert.id])
  }

  /** A poll's writes come after its evaluation. */
  ghost predicate ClockRuns(input: PollInput) {
    forall k: nat :: input.appliedAt(k) >= input.evaluatedAt
  }

  ghost predicate SpaceInv(w: World, keys: set<Key>, gap: real) {
    && Inv(w, keys) && Willing(w)
    && w.cfg.alerts.missRepeatInterval >= gap
    && (forall it <- w.polls :: PhaseRepeats(w.cfg, it.input, it.phase) && ClockRuns(it.input))
    && Spaced(SentOrPending(w), gap)
    && Stamped(SentOrPending(w), w.store.tables.alerts)
  }

  lemma SpacedSnoc(log: seq<Entry>, x: Entry, alerts: map<nat, Alert>, alerts': map<nat, Alert>, gap: real)
    requires Spaced(log, gap) && Stamped(log, alerts) && gap >= 0.0
    requires forall i <- alerts :: i in alerts' && alerts'[i].key == alerts[i].key && LastNotified(alerts'[i]) >= LastNotified(alerts[i])
    requires IsMissRepeat(x) ==>
               var id := x.event.alert.id;
               && id in alerts && alerts[id].key.kind == ConsecutiveMiss && (x.at - LastNotified(alerts[id])) as real / 1000.0 >= gap
               && LastNotified(alerts'[id]) >= x.at
    ensures Spaced(log + [x], gap) && Stamped(log + [x], alerts')
  {
    var all := log + [x];
    forall i, j | 0 <= i < j < |all| && IsMissRepeat(all[i]) && IsMissRepeat(all[j]) && all[i].event.alert.id == all[j].event.alert.id
      ensures (all[j].at - all[i].at) as real / 1000.0 >= gap
    {
      if j == |log| {
        assert all[i] == log[i] && log[i] in log;
        assert (all[j].at - all[i].at) as real >= (x.at - LastNotified(alerts[x.event.alert.id])) as real;
      }
    }
    forall y | y in all && IsMissRepeat(y)
      ensures
        && y.event.alert.id in alerts' && alerts'[y.event.alert.id].key.kind == ConsecutiveMiss
        && y.at <= LastNotified(alerts'[y.event.alert.id])
    {
      assert y in log || y == x;
    }
  }

  lemma SpaceApplying(w: World, keys: set<Key>, gap: real)
    requires SpaceInv(w, keys, gap) && gap >= 0.0 && |w.polls| == 1 && w.polls[0].phase.Applying?
    ensures Spaced(SentOrPending(Next(w, Resume(0))), gap)
    ensures Stamped(SentOrPending(Next(w, Resume(0))), Next(w, Resume(0)).store.tables.alerts)
  {
    var it := w.polls[0];
    assert it in w.polls;
    var events, k := it.phase.events, it.phase.k;
    var log, alerts := w.store.history.log, w.store.tables.alerts;
    assert SentOrPending(w) == log;
    if k < |events| {
      var e := events[k];
      assert events[k..][0] == e && e in events[k..] && e in events;
      assert it.input.eventOk(k) && it.input.eventReadOk(k) && it.input.appliedAt(k) >= it.input.evaluatedAt;
      var x := Entry(e, it.input.evaluatedAt);
      assert SentOrPending(Next(w, Resume(0))) == log + [x];
      var alerts' := Applied(alerts, it.input, e, k);
      if e.Repeat? && e.alert.key.kind == PercentageMiss {
        PercentTouch(alerts, alerts', log, x, gap, w.store.nextId, keys);
      } else {
        SpacedSnoc(log, x, alerts, alerts', gap);
      }
    } else {
      assert SentOrPending(Next(w, Resume(0))) == log;
    }
  }

  lemma PercentTouch(alerts: map<nat, Alert>, alerts': map<nat, Alert>, log: seq<Entry>, x: Entry, gap: real, nextId: nat, keys: set<Key>)
    requires Spaced(log, gap) && Stamped(log, alerts) && !IsMissRepeat(x)
    requires forall y <- log :: IsMissRepeat(y) ==> y.event.alert.id in alerts' && alerts'[y.event.alert.id] == alerts[y.event.alert.id]
    ensures Spaced(log + [x], gap) && Stamped(log + [x], alerts')
  {
    var all := log + [x];
    forall y | y in all && IsMissRepeat(y)
      ensures
        && y.event.alert.id in alerts' && alerts'[y.event.alert.id].key.kind == ConsecutiveMiss
        && y.at <= LastNotified(alerts'[y.event.alert.id])
    {
      assert y in log || y == x;
    }
  }

  lemma FewerSpaced(log: seq<Entry>, more: seq<Entry>, alerts: map<nat, Alert>, gap: real)
    requires Spaced(log + more, gap) && Stamped(log + more, alerts)
    ensures Spaced(log, gap) && Stamped(log, alerts)
  {
    var all := log + more;
    assert forall x <- log :: x in all;
    forall i, j | 0 <= i < j < |log| && IsMissRepeat(log[i]) && IsMissRepeat(log[j]) && log[i].event.alert.id == log[j].event.alert.id
      ensures (log[j].at - log[i].at) as real / 1000.0 >= gap
    {
      assert all[i] == log[i] && all[j] == log[j];
    }
  }

  lemma SpaceStep(w: World, a: Action, keys: set<Key>, gap: real)
    requires SpaceInv(w, keys, gap) && gap >= 0.0 && |keys| <= ALERT_PAGE
    requires a.Restart? ==> ConfigOk(a.cfg) && KeysFor(a.cfg, keys) && a.cfg.alerts.missRepeatInterval >= gap
    requires a.Tick? ==> ClockRuns(a.input) && AlertWritesOk(a.input)
    ensures SpaceInv(Next(w, a), keys, gap)
  {
    StepKeeps(w, a, keys);
    WillingStep(w, a);
    assert OnePoll(w) && |w.polls| <= 1;
    var applying := a.Resume? && a.i < |w.polls| && w.polls[a.i].phase.Applying?;
    if applying {
      SpaceApplying(w, keys, gap);
    }
    assert a.Tick? ==> PhaseRepeats(w.cfg, a.input, Start);
    hide Advance, Inv, Willing, Spaced, Stamped, PhaseRepeats, AlertWritesOk;
    if a.Resume? && a.i < |w.polls| {
      var it := w.polls[a.i];
      assert it in w.polls && a.i == 0;
      RepeatsGoOn(w, keys, it);
    }
    if !applying {
      QuietStep(w, a);
      if CutsShort(w, a) {
        FewerSpaced(w.store.history.log, Unsent(w.polls[0]), w.store.tables.alerts, gap);
      }
    }
  }

  lemma RepeatsGoOn(w: World, keys: set<Key>, it: Instance)
    requires Inv(w, keys) && it in w.polls && PhaseRepeats(w.cfg, it.input, it.phase)
    ensures PhaseRepeats(w.cfg, it.input, Advance(w.cfg, w.store, it.input, it.phase).1)
  {
    AdvanceRepeats(w.cfg, w.store, it.input, it.phase);
  }

  lemma {:induction false} SpaceRun(cfg: Config, actions: seq<Action>, keys: set<Key>, gap: real)
    requires ConfigOk(cfg) && KeysFor(cfg, keys) && ConfigsOk(actions, keys) && |keys| <= ALERT_PAGE
    requires WritesOk(actions) && gap >= 0.0 && cfg.alerts.missRepeatInterval >= gap
    requires forall a <- actions :: (a.Restart? ==> a.cfg.alerts.missRepeatInterval >= gap) && (a.Tick? ==> ClockRuns(a.input))
    ensures SpaceInv(Run(Booted(cfg, EMPTY), actions), keys, gap)
  {
    hide Next;
    if actions == [] {
      assert SentOrPending(Booted(cfg, EMPTY)) == [];
    } else {
      var before := actions[..|actions| - 1];
      SpaceRun(cfg, before, keys, gap);
      SpaceStep(Run(Booted(cfg, EMPTY), before), actions[|actions| - 1], keys, gap);
    }
  }

  /**
   * Any two consecutive-miss repeats about the same incident were evaluated at least the repeat
   * interval apart, wherever exceptions and restarts fall, as long as alert writes succeed and every
   * configuration asks for at least that much.
   */
  lemma {:induction false} MissRepeatsSpaced(cfg: Config, actions: seq<Action>, keys: set<Key>, gap: real)
    requires ConfigOk(cfg) && KeysFor(cfg, keys) && ConfigsOk(actions, keys) && |keys| <= ALERT_PAGE
    requires WritesOk(actions) && gap >= 0.0 && cfg.alerts.missRepeatInterval >= gap
    requires forall a <- actions :: (a.Restart? ==> a.cfg.alerts.missRepeatInterval >= gap) && (a.Tick? ==> ClockRuns(a.input))
    ensures Spaced(Run(Booted(cfg, EMPTY), actions).store.history.log, gap)
  {
    hide Run, Spaced, Stamped;
    SpaceRun(cfg, actions, keys, gap);
    var w := Run(Booted(cfg, EMPTY), actions);
    FewerSpaced(w.store.history.log, if |w.polls| == 1 then Unsent(w.polls[0]) else [], w.store.tables.alerts, gap);
  }
}
