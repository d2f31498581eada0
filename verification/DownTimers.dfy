/** What the evaluator's timer map remembers: where each endpoint's current outage began. */
module DownTimers {
  import opened Domain
  import opened Evaluator
  import opened Worker

  ghost predicate DistinctChecks(checks: seq<EndpointCheck>) {
    forall i, j :: 0 <= i < j < |checks| ==> EndpointKey(checks[i].endpoint) != EndpointKey(checks[j].endpoint)
  }

  /** Where among the first n checks an endpoint is, if anywhere. */
  function Position(checks: seq<EndpointCheck>, n: nat, k: Key): (r: Option<nat>)
    requires n <= |checks|
    ensures r.Some? ==> r.value < n && EndpointKey(checks[r.value].endpoint) == k
    ensures r.None? ==> forall i :: 0 <= i < n ==> EndpointKey(checks[i].endpoint) != k
  {
    if n == 0 then None
    else if EndpointKey(checks[n - 1].endpoint) == k then Some(n - 1)
    else Position(checks, n - 1, k)
  }

  /** What a round saw of an endpoint; absent if it is no longer configured. */
  function Seen(r: Round, k: Key): Option<Sight> {
    var p := Position(r.checks, |r.checks|, k);
    if p.Some? then Some(SightOf(r.checks[p.value])) else None
  }

  /** The rounds of one process, each starting from the timers the one before left. */
  function Timers(rounds: seq<Round>): map<Key, int> {
    if rounds == [] then map[]
    else
      var r := rounds[|rounds| - 1];
      TimersAfter(r.checks, Timers(rounds[..|rounds| - 1]), r.now)
  }

  // ---- one round, one key -------------------------------------------------

  lemma {:induction false} TimedOthers(checks: seq<EndpointCheck>, n: nat, m: nat, since: map<Key, int>, now: int, k: Key)
    requires m <= n <= |checks| && forall i :: m <= i < n ==> EndpointKey(checks[i].endpoint) != k
    ensures k in TimedUpTo(checks, n, since, now) <==> k in TimedUpTo(checks, m, since, now)
    ensures k in TimedUpTo(checks, m, since, now) ==> TimedUpTo(checks, n, since, now)[k] == TimedUpTo(checks, m, since, now)[k]
  {
    if m < n {
      TimedOthers(checks, n - 1, m, since, now, k);
    }
  }

  /** What a round does to one endpoint's timer. */
  function KeyTimed(seen: Option<Sight>, before: Option<int>, now: int): Option<int> {
    match seen
    case None => None
    case Some(Unseen) => before
    case Some(Up) => None
    case Some(Down) => if before.Some? then before else Some(now)
  }

  function At(m: map<Key, int>, k: Key): Option<int> { if k in m then Some(m[k]) else None }

  lemma RoundTimes(r: Round, since: map<Key, int>, k: Key)
    requires DistinctChecks(r.checks)
    ensures At(TimersAfter(r.checks, since, r.now), k) == KeyTimed(Seen(r, k), At(since, k), r.now)
    ensures Position(r.checks, |r.checks|, k).Some? ==>
              var p := Position(r.checks, |r.checks|, k).value;
              At(TimedUpTo(r.checks, p + 1, since, r.now), k) == KeyTimed(Seen(r, k), At(since, k), r.now)
  {
    var n := |r.checks|;
    var pos := Position(r.checks, n, k);
    if pos.Some? {
      var p := pos.value;
      TimedOthers(r.checks, p, 0, since, r.now, k);
      TimedOthers(r.checks, n, p + 1, since, r.now, k);
      assert r.checks[p] in r.checks && k in ConfiguredKeys(r.checks);
    } else {
      assert k !in ConfiguredKeys(r.checks);
    }
  }

  // ---- the streak ---------------------------------------------------------

  /** Recovery or removal ends an outage; a round that has not checked the endpoint does not. */
  predicate Breaks(r: Round, k: Key) { Seen(r, k).None? || Seen(r, k) == Some(Up) }

  predicate SeenDown(r: Round, k: Key) { Seen(r, k) == Some(Down) }

  /** Round i saw the endpoint down, nothing has broken the outage since, and no earlier round began it. */
  ghost predicate StreakStartsAt(rounds: seq<Round>, k: Key, i: int) {
    && 0 <= i < |rounds| && SeenDown(rounds[i], k)
    && (forall j :: i < j < |rounds| ==> !Breaks(rounds[j], k))
    && (forall j :: 0 <= j < i && SeenDown(rounds[j], k) ==> exists m :: j < m < i && Breaks(rounds[m], k))
  }

  /** Every outage seen so far is over. */
  ghost predicate AllBroken(rounds: seq<Round>, k: Key) {
    forall j :: 0 <= j < |rounds| && SeenDown(rounds[j], k) ==> exists m :: j < m < |rounds| && Breaks(rounds[m], k)
  }

  ghost predicate Remembers(rounds: seq<Round>, k: Key, t: Option<int>) {
    if t.Some? then exists i :: StreakStartsAt(rounds, k, i) && rounds[i].now == t.value else AllBroken(rounds, k)
  }

  lemma Extends(rounds: seq<Round>, r: Round, k: Key, i: int)
    requires StreakStartsAt(rounds, k, i) && !Breaks(r, k)
    ensures StreakStartsAt(rounds + [r], k, i)
  {
    var all := rounds + [r];
    forall j | 0 <= j < i && SeenDown(all[j], k) ensures exists m :: j < m < i && Breaks(all[m], k) {
      var m :| j < m < i && Breaks(rounds[m], k);
      assert Breaks(all[m], k);
    }
  }

  lemma StaysBroken(rounds: seq<Round>, r: Round, k: Key)
    requires AllBroken(rounds, k)
    ensures !SeenDown(r, k) ==> AllBroken(rounds + [r], k)
    ensures SeenDown(r, k) ==> StreakStartsAt(rounds + [r], k, |rounds|)
  {
    var all := rounds + [r];
    forall j | 0 <= j < |rounds| && SeenDown(all[j], k) ensures exists m :: j < m < |rounds| && Breaks(all[m], k) {
      assert SeenDown(rounds[j], k);
      var m :| j < m < |rounds| && Breaks(rounds[m], k);
      assert Breaks(all[m], k);
    }
  }

  lemma BrokenNow(rounds: seq<Round>, r: Round, k: Key)
    requires Breaks(r, k)
    ensures AllBroken(rounds + [r], k)
  {
    var all := rounds + [r];
    assert Breaks(all[|rounds|], k);
  }

  lemma {:induction false} TimersRemember(rounds: seq<Round>, k: Key)
    requires forall r <- rounds :: DistinctChecks(r.checks)
    ensures Remembers(rounds, k, At(Timers(rounds), k))
  {
    if rounds != [] {
      var before, r := rounds[..|rounds| - 1], rounds[|rounds| - 1];
      assert rounds == before + [r];
      TimersRemember(before, k);
      RoundTimes(r, Timers(before), k);
      var was := At(Timers(before), k);
      if Breaks(r, k) {
        BrokenNow(before, r, k);
      } else if was.Some? {
        var i :| StreakStartsAt(before, k, i) && before[i].now == was.value;
        Extends(before, r, k, i);
        assert rounds[i] == before[i];
      } else {
        StaysBroken(before, r, k);
        if SeenDown(r, k) {
          assert rounds[|before|].now == r.now;
        }
      }
    }
  }

  lemma OneStreak(rounds: seq<Round>, k: Key, i: int, j: int)
    requires StreakStartsAt(rounds, k, i) && StreakStartsAt(rounds, k, j)
    ensures i == j
  {
  }

  lemma StreakNotBroken(rounds: seq<Round>, k: Key, i: int)
    requires StreakStartsAt(rounds, k, i)
    ensures !AllBroken(rounds, k)
  {
    assert SeenDown(rounds[i], k);
  }

  /**
   * The timer map is exactly the history: an endpoint has a timer iff it is in an outage, and the
   * timer then holds the time of the first round that saw the endpoint down in that outage.
   */
  lemma {:induction false} TimerIsStreakStart(rounds: seq<Round>, k: Key, t: int)
    requires forall r <- rounds :: DistinctChecks(r.checks)
    ensures (k in Timers(rounds) && Timers(rounds)[k] == t) <==> exists i :: StreakStartsAt(rounds, k, i) && rounds[i].now == t
  {
    TimersRemember(rounds, k);
    if i :| StreakStartsAt(rounds, k, i) && rounds[i].now == t {
      var was := At(Timers(rounds), k);
      if was.Some? {
        var j :| StreakStartsAt(rounds, k, j) && rounds[j].now == was.value;
        OneStreak(rounds, k, i, j);
      } else {
        StreakNotBroken(rounds, k, i);
      }
    }
  }

  // ---- over whole runs ----------------------------------------------------

  ghost predicate TimersInv(w: World) {
    && ConfigOk(w.cfg)
    && TimersMatch(w.store)
  }

  ghost predicate TimersMatch(s: Store) {
    s.downSince == Timers(s.history.rounds) && forall r <- s.history.rounds :: DistinctChecks(r.checks)
  }

  lemma EndpointsMatch(cfg: Config, s: Store, input: PollInput, open: seq<Alert>, chainEvents: seq<AlertEvent>)
    requires ConfigOk(cfg) && TimersMatch(s)
    ensures TimersMatch(WithEndpoints(cfg, s, input, open, chainEvents).0)
  {
    var r := Round(Checks(cfg, input), input.endpointsAt);
    assert (s.history.rounds + [r])[..|s.history.rounds|] == s.history.rounds;
    assert forall i :: 0 <= i < |r.checks| ==> r.checks[i].endpoint == cfg.endpoints[i];
  }

  lemma TimersAdvance(cfg: Config, s: Store, input: PollInput, ph: Phase)
    requires ConfigOk(cfg) && TimersMatch(s)
    ensures TimersMatch(Advance(cfg, s, input, ph).0)
  {
    match ph
    case Judging(p, blocks) => EndpointsMatch(cfg, s, input, p.open, ChainEvents(cfg, s, input, p, blocks));
    case JudgingEndpoints(open) => EndpointsMatch(cfg, s, input, open, []);
    case _ =>
      assert Advance(cfg, s, input, ph).0.history.rounds == s.history.rounds;
      assert Advance(cfg, s, input, ph).0.downSince == s.downSince;
  }

  lemma TimersStep(w: World, a: Action)
    requires TimersInv(w) && (a.Restart? ==> ConfigOk(a.cfg))
    ensures TimersInv(Next(w, a))
  {
    hide Advance;
    if a.Resume? && a.i < |w.polls| {
      TimersAdvance(w.cfg, w.store, w.polls[a.i].input, w.polls[a.i].phase);
    }
  }

  lemma {:induction false} TimersRun(cfg: Config, actions: seq<Action>)
    requires ConfigOk(cfg) && forall a <- actions :: a.Restart? ==> ConfigOk(a.cfg)
    ensures TimersInv(Run(Booted(cfg, EMPTY), actions))
  {
    if actions != [] {
      TimersRun(cfg, actions[..|actions| - 1]);
      TimersStep(Run(Booted(cfg, EMPTY), actions[..|actions| - 1]), actions[|actions| - 1]);
    }
  }

  /** In every reachable state of the worker its timers are the outages seen since the process started. */
  lemma {:induction false} ReachableTimers(cfg: Config, actions: seq<Action>, k: Key, t: int)
    requires ConfigOk(cfg) && forall a <- actions :: a.Restart? ==> ConfigOk(a.cfg)
    ensures
      var s := Run(Booted(cfg, EMPTY), actions).store;
      (k in s.downSince && s.downSince[k] == t)
      <==> exists i :: StreakStartsAt(s.history.rounds, k, i) && s.history.rounds[i].now == t
  {
    TimersRun(cfg, actions);
    TimerIsStreakStart(Run(Booted(cfg, EMPTY), actions).store.history.rounds, k, t);
  }

  // ---- the events ---------------------------------------------------------

  lemma OwnKey(cfg: AlertConfig, c: EndpointCheck, since: map<Key, int>, open: seq<Alert>, now: int, id: nat, e: AlertEvent)
    requires e in EndpointEvents(cfg, c, since, open, now, id)
    ensures e.alert.key == EndpointKey(c.endpoint)
  {
  }

  lemma PositionSnoc(checks: seq<EndpointCheck>, n: nat, k: Key)
    requires 0 < n <= |checks| && DistinctChecks(checks)
    ensures Position(checks, n, k) == if EndpointKey(checks[n - 1].endpoint) == k then Some(n - 1) else Position(checks, n - 1, k)
    ensures EndpointKey(checks[n - 1].endpoint) == k ==> Position(checks, n - 1, k).None?
  {
    var q := Position(checks, n - 1, k);
  }

  lemma EventsSnoc(cfg: AlertConfig, checks: seq<EndpointCheck>, n: nat, since: map<Key, int>, open: seq<Alert>, now: int, id: nat,
                   e: AlertEvent)
    requires 0 < n <= |checks|
    ensures e in EventsUpTo(cfg, checks, n, since, open, now, id)
            <==> e in EventsUpTo(cfg, checks, n - 1, since, open, now, id)
                 || e in EndpointEvents(cfg, checks[n - 1], TimedUpTo(checks, n, since, now), open, now, id + n - 1)
  {
    hide EndpointEvents, TimedUpTo;
  }

  lemma {:induction false} EventsOfKey(cfg: AlertConfig, checks: seq<EndpointCheck>, n: nat, since: map<Key, int>,
                                       open: seq<Alert>, now: int, id: nat, k: Key, e: AlertEvent)
    requires n <= |checks| && DistinctChecks(checks)
    ensures
      var p := Position(checks, n, k);
      e in EventsUpTo(cfg, checks, n, since, open, now, id) && e.alert.key == k
      <==> p.Some? && e in EndpointEvents(cfg, checks[p.value], TimedUpTo(checks, p.value + 1, since, now), open, now, id + p.value)
  {
    hide EventsUpTo, EndpointEvents, TimedUpTo, Position, DistinctChecks;
    if n == 0 {
      NoEvents(cfg, checks, since, open, now, id, k);
    } else {
      PositionSnoc(checks, n, k);
      EventsOfKey(cfg, checks, n - 1, since, open, now, id, k, e);
      EventsSnoc(cfg, checks, n, since, open, now, id, e);
      var c := checks[n - 1];
      if e in EndpointEvents(cfg, c, TimedUpTo(checks, n, since, now), open, now, id + n - 1) {
        OwnKey(cfg, c, TimedUpTo(checks, n, since, now), open, now, id + n - 1, e);
      }
    }
  }

  lemma NoEvents(cfg: AlertConfig, checks: seq<EndpointCheck>, since: map<Key, int>, open: seq<Alert>, now: int, id: nat, k: Key)
    ensures EventsUpTo(cfg, checks, 0, since, open, now, id) == [] && Position(checks, 0, k) == None
  {
  }

  lemma {:induction false} OrphanEvents(open: seq<Alert>, n: nat, configured: set<Key>, now: int)
    requires n <= |open|
    ensures forall e <- Orphans(open, n, configured, now) :: e.Close? && e.alert.key !in configured && IsEndpointAlert(e.alert)
    ensures forall a <- open[..n] :: IsEndpointAlert(a) && a.key !in configured ==>
              exists e <- Orphans(open, n, configured, now) :: e.alert.key == a.key
  {
    if n > 0 {
      OrphanEvents(open, n - 1, configured, now);
      var a := open[n - 1];
      assert open[..n] == open[..n - 1] + [a];
      var before, all := Orphans(open, n - 1, configured, now), Orphans(open, n, configured, now);
      assert forall e <- before :: e in all;
      if IsEndpointAlert(a) && a.key !in configured {
        if LastOfKey(open[..n - 1], a.key).None? {
          var last := Close(LastOfKey(open, a.key).GetOr(a), now);
          assert all == before + [last] && last in all;
        } else {
          var b := LastOfKey(open[..n - 1], a.key).value;
          assert b in open[..n - 1];
        }
      }
      forall b | b in open[..n] && IsEndpointAlert(b) && b.key !in configured ensures exists e <- all :: e.alert.key == b.key {
        if b in open[..n - 1] {
          var e :| e in before && e.alert.key == b.key;
          assert e in all;
        }
      }
    }
  }

  lemma RoundEvents(cfg: AlertConfig, r: Round, since: map<Key, int>, open: seq<Alert>, id: nat, e: AlertEvent)
    ensures e in EndpointsEvaluated(cfg, r.checks, since, open, r.now, id)
            <==> e in EventsUpTo(cfg, r.checks, |r.checks|, since, open, r.now, id)
                 || e in Orphans(open, |open|, ConfiguredKeys(r.checks), r.now)
  {
  }

  lemma PositionIsConfigured(r: Round, k: Key)
    ensures k in ConfiguredKeys(r.checks) <==> Position(r.checks, |r.checks|, k).Some?
  {
    var p := Position(r.checks, |r.checks|, k);
    if p.Some? {
      assert r.checks[p.value] in r.checks;
    }
  }

  lemma OpensByTimer(cfg: AlertConfig, r: Round, since: map<Key, int>, open: seq<Alert>, id: nat, k: Key)
    requires DistinctChecks(r.checks)
    ensures
      (exists e <- EndpointsEvaluated(cfg, r.checks, since, open, r.now, id) :: e.Open? && e.alert.key == k)
      <==> && SeenDown(r, k) && LastOfKey(open, k).None?
           && k in TimersAfter(r.checks, since, r.now)
           && (r.now - TimersAfter(r.checks, since, r.now)[k]) as real >= AlertAfter(cfg)
  {
    hide EndpointsEvaluated, EventsUpTo, Orphans, TimersAfter;
    var events := EndpointsEvaluated(cfg, r.checks, since, open, r.now, id);
    var watched := EventsUpTo(cfg, r.checks, |r.checks|, since, open, r.now, id);
    OrphanEvents(open, |open|, ConfiguredKeys(r.checks), r.now);
    RoundTimes(r, since, k);
    var p := Position(r.checks, |r.checks|, k);
    forall e: AlertEvent | e.Open? && e.alert.key == k
      ensures e in events <==> p.Some? && e in EndpointEvents(cfg, r.checks[p.value], TimedUpTo(r.checks, p.value + 1, since, r.now), open, r.now, id + p.value)
    {
      RoundEvents(cfg, r, since, open, id, e);
      EventsOfKey(cfg, r.checks, |r.checks|, since, open, r.now, id, k, e);
    }
    if p.Some? {
      var opening := Open(NewAlert(id + p.value, k, r.now));
      assert opening.Open? && opening.alert.key == k;
    }
  }

  /**
   * An endpoint's alert opens in the last round exactly when that round saw it down, none is open,
   * and the outage, counted from its first round, has lasted the grace period.
   */
  lemma OpensIff(cfg: AlertConfig, rounds: seq<Round>, open: seq<Alert>, id: nat, k: Key)
    requires rounds != [] && forall r <- rounds :: DistinctChecks(r.checks)
    ensures
      var r := rounds[|rounds| - 1];
      var events := EndpointsEvaluated(cfg, r.checks, Timers(rounds[..|rounds| - 1]), open, r.now, id);
      (exists e <- events :: e.Open? && e.alert.key == k)
      <==> && SeenDown(r, k) && LastOfKey(open, k).None?
           && exists i :: StreakStartsAt(rounds, k, i) && (r.now - rounds[i].now) as real >= AlertAfter(cfg)
  {
    hide EndpointsEvaluated, TimersAfter;
    var r := rounds[|rounds| - 1];
    OpensByTimer(cfg, r, Timers(rounds[..|rounds| - 1]), open, id, k);
    var timers := Timers(rounds);
    if k in timers {
      TimerIsStreakStart(rounds, k, timers[k]);
    }
    if i :| StreakStartsAt(rounds, k, i) && (r.now - rounds[i].now) as real >= AlertAfter(cfg) {
      TimerIsStreakStart(rounds, k, rounds[i].now);
    }
  }

  lemma ClosesConfigured(cfg: AlertConfig, r: Round, since: map<Key, int>, open: seq<Alert>, id: nat, k: Key)
    requires DistinctChecks(r.checks) && Position(r.checks, |r.checks|, k).Some?
    ensures
      (exists e <- EndpointsEvaluated(cfg, r.checks, since, open, r.now, id) :: e.Close? && e.alert.key == k)
      <==> LastOfKey(open, k).Some? && Breaks(r, k)
  {
    hide EndpointsEvaluated, EventsUpTo, Orphans;
    var p := Position(r.checks, |r.checks|, k).value;
    PositionIsConfigured(r, k);
    OrphanEvents(open, |open|, ConfiguredKeys(r.checks), r.now);
    var events := EndpointsEvaluated(cfg, r.checks, since, open, r.now, id);
    forall e: AlertEvent | e.alert.key == k
      ensures e in events <==> e in EndpointEvents(cfg, r.checks[p], TimedUpTo(r.checks, p + 1, since, r.now), open, r.now, id + p)
    {
      RoundEvents(cfg, r, since, open, id, e);
      EventsOfKey(cfg, r.checks, |r.checks|, since, open, r.now, id, k, e);
    }
    if LastOfKey(open, k).Some? {
      var closing := Close(LastOfKey(open, k).value, r.now);
      assert closing.alert.key == k;
    }
  }

  lemma ClosesRemoved(cfg: AlertConfig, r: Round, since: map<Key, int>, open: seq<Alert>, id: nat, k: Key)
    requires DistinctChecks(r.checks) && Position(r.checks, |r.checks|, k).None?
    ensures
      (exists e <- EndpointsEvaluated(cfg, r.checks, since, open, r.now, id) :: e.Close? && e.alert.key == k)
      <==> LastOfKey(open, k).Some?
  {
    hide EndpointsEvaluated, EventsUpTo, Orphans;
    var orphans := Orphans(open, |open|, ConfiguredKeys(r.checks), r.now);
    PositionIsConfigured(r, k);
    OrphanEvents(open, |open|, ConfiguredKeys(r.checks), r.now);
    assert open[..|open|] == open;
    forall e: AlertEvent | e.alert.key == k
      ensures e in EndpointsEvaluated(cfg, r.checks, since, open, r.now, id) <==> e in orphans
    {
      RoundEvents(cfg, r, since, open, id, e);
      EventsOfKey(cfg, r.checks, |r.checks|, since, open, r.now, id, k, e);
    }
    if LastOfKey(open, k).Some? {
      var a := LastOfKey(open, k).value;
      var e :| e in orphans && e.alert.key == a.key;
    }
    forall e | e in orphans && e.alert.key == k ensures LastOfKey(open, k).Some? {
      OrphanIsOpen(open, |open|, ConfiguredKeys(r.checks), r.now, e);
    }
  }

  /** It closes exactly when it is open and the round saw the endpoint up, or no longer finds it configured. */
  lemma ClosesIff(cfg: AlertConfig, r: Round, since: map<Key, int>, open: seq<Alert>, id: nat, k: Key)
    requires DistinctChecks(r.checks)
    ensures
      (exists e <- EndpointsEvaluated(cfg, r.checks, since, open, r.now, id) :: e.Close? && e.alert.key == k)
      <==> LastOfKey(open, k).Some? && Breaks(r, k)
  {
    if Position(r.checks, |r.checks|, k).Some? {
      ClosesConfigured(cfg, r, since, open, id, k);
    } else {
      ClosesRemoved(cfg, r, since, open, id, k);
    }
  }

  lemma {:induction false} OrphanIsOpen(open: seq<Alert>, n: nat, configured: set<Key>, now: int, e: AlertEvent)
    requires n <= |open| && e in Orphans(open, n, configured, now)
    ensures e.alert in open && IsEndpointAlert(e.alert)
  {
    if n > 0 && e in Orphans(open, n - 1, configured, now) {
      OrphanIsOpen(open, n - 1, configured, now, e);
    }
  }
}
