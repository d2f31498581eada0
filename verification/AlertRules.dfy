/** What each alert check makes of its alert, said from the tables, the API's answers and the configuration alone. */
module AlertRules {
  import opened Domain
  import opened Tables
  import opened Evaluator
  import opened Worker
  import DownTimers
  import Incidents
  import Inactivity
  import MissWindow
  import OA = OpenAlerts

  // ---- one alert ----------------------------------------------------------

  predicate OpenAt(alerts: map<nat, Alert>, id: nat, key: Key) {
    id in alerts && alerts[id].closedAt == None && alerts[id].key == key
  }

  /** The unclosed row of a key, if there is one. */
  ghost function OpenRow(alerts: map<nat, Alert>, key: Key): (r: Option<Alert>)
    ensures r.Some? <==> exists i :: OpenAt(alerts, i, key)
    ensures r.Some? ==> exists i :: OpenAt(alerts, i, key) && r.value == alerts[i]
  {
    if i :| OpenAt(alerts, i, key) then Some(alerts[i]) else None
  }

  /**
   * The events steer the alert of a key: `wanted` says whether its condition holds, and is absent if nothing
   * is to be done about it; `due` whether an open one is to be repeated. Events of other keys do not matter.
   */
  ghost predicate Follows(events: seq<AlertEvent>, key: Key, open: Option<Alert>, wanted: Option<bool>, due: bool, now: int) {
    && ((exists e <- events :: e.Open? && e.alert.key == key) <==> wanted == Some(true) && open.None?)
    && ((exists e <- events :: e.Repeat? && e.alert.key == key) <==> wanted == Some(true) && open.Some? && due)
    && ((exists e <- events :: e.Close? && e.alert.key == key) <==> wanted == Some(false) && open.Some?)
    && (forall e <- events :: e.alert.key == key ==>
          match e
          case Open(a) => a == Alert(a.id, key, now, None, None, 0)
          case Repeat(a) => Some(a) == open
          case Close(a, at) => Some(a) == open && at == now)
  }

  lemma FollowsThrough(before: seq<AlertEvent>, events: seq<AlertEvent>, after: seq<AlertEvent>,
                       key: Key, open: Option<Alert>, wanted: Option<bool>, due: bool, now: int)
    requires Follows(events, key, open, wanted, due, now)
    requires forall e <- before + after :: e.alert.key != key
    ensures Follows(before + events + after, key, open, wanted, due, now)
  {
    var all := before + events + after;
    assert forall e <- events :: e in all;
    assert forall e <- all :: e in events || e in before + after;
  }

  predicate Holds(existing: Option<Alert>, open: seq<Alert>, kind: AlertKind) {
    LastOfKind(open, kind) == existing && (existing.Some? ==> existing.value.key == Key(kind, None))
  }

  /** What the evaluator finds in the page of open alerts is the unclosed row of the kind. */
  lemma PageHolds(alerts: map<nat, Alert>, nextId: nat, keys: set<Key>, open: seq<Alert>, kind: AlertKind)
    requires OA.AlertsOk(alerts, nextId, keys) && OA.ExactPage(open, alerts) && !IsDownKind(kind)
    ensures Holds(OpenRow(alerts, Key(kind, None)), open, kind)
  {
    var row, last := OpenRow(alerts, Key(kind, None)), LastOfKind(open, kind);
    if row.Some? {
      var i :| OpenAt(alerts, i, Key(kind, None)) && row.value == alerts[i];
      assert alerts[i] in open;
    }
    if last.Some? {
      assert OpenAt(alerts, last.value.id, last.value.key);
    }
  }

  // ---- the checks one by one ----------------------------------------------

  /** Exactly when the stalled check opens and closes; it never repeats. */
  lemma StalledEventsIff(cfg: AlertConfig, tip: Tip, open: seq<Alert>, now: int, id: nat)
    ensures
      var events := CheckStalled(cfg, tip, open, now, id);
      var existing := LastOfKind(open, Stalled);
      var late := (now - tip.time) as real > cfg.stalledThreshold * 1000.0;
      && |events| <= 1
      && ((exists e <- events :: e.Open?) <==> cfg.stalledEnabled && late && existing.None?)
      && ((exists e <- events :: e.Close?) <==> cfg.stalledEnabled && !late && existing.Some?)
      && (forall e <- events :: !e.Repeat? && if e.Open? then e.alert == Alert(id, Key(Stalled, None), now, None, None, 0)
                                              else Some(e.alert) == existing && e.closedAt == now)
  {
    hide LastOfKind;
    var events := CheckStalled(cfg, tip, open, now, id);
    assert events != [] ==> events[0] in events;
  }

  /** More than the threshold, in seconds, has passed since the tip's time. */
  function StalledWanted(cfg: AlertConfig, tip: Tip, now: int): Option<bool> {
    if cfg.stalledEnabled then Some((now - tip.time) as real > cfg.stalledThreshold * 1000.0) else None
  }

  lemma StalledFollows(cfg: AlertConfig, tip: Tip, open: seq<Alert>, now: int, id: nat, existing: Option<Alert>)
    requires Holds(existing, open, Stalled)
    ensures Follows(CheckStalled(cfg, tip, open, now, id), Key(Stalled, None), existing, StalledWanted(cfg, tip, now), false, now)
  {
    StalledEventsIff(cfg, tip, open, now, id);
    hide CheckStalled, LastOfKind;
  }

  /** Each of the last `threshold` heights up to `end` is stored as a miss. */
  ghost function MissWanted(cfg: AlertConfig, rows: map<int, Block>, end: int): Option<bool> {
    if cfg.missEnabled
    then Some(end >= cfg.missThreshold && forall h :: end - cfg.missThreshold < h <= end ==> h in rows && rows[h].signed == 0)
    else None
  }

  /** The repeat interval, in seconds, has passed since the last notification, or since the opening if there was none. */
  predicate MissDue(cfg: AlertConfig, existing: Option<Alert>, now: int) {
    && cfg.missRepeat && existing.Some?
    && (now - existing.value.lastNotifiedAt.GetOr(existing.value.openedAt)) as real >= cfg.missRepeatInterval * 1000.0
  }

  lemma MissFollows(cfg: AlertConfig, rows: map<int, Block>, end: int, open: seq<Alert>, now: int, id: nat, existing: Option<Alert>)
    requires cfg.missThreshold > 0 && Holds(existing, open, ConsecutiveMiss)
    ensures
      var recent := SliceLast(MissWindow.TailWindow(rows, end, cfg.missThreshold), cfg.missThreshold);
      Follows(CheckConsecutiveMiss(cfg, recent, open, now, id), Key(ConsecutiveMiss, None), existing,
              MissWanted(cfg, rows, end), MissDue(cfg, existing, now), now)
  {
    var recent := SliceLast(MissWindow.TailWindow(rows, end, cfg.missThreshold), cfg.missThreshold);
    MissWindow.BreachIff(rows, end, cfg.missThreshold);
    AllMissedIff(rows, end, cfg.missThreshold);
    MissOfStreak(cfg, recent, open, now, id, existing);
    hide Follows, Holds, CheckConsecutiveMiss, MissDue, TrailingMisses, SliceLast, MissWindow.TailWindow, MissWindow.MissedAt;
  }

  lemma AllMissedIff(rows: map<int, Block>, end: int, n: int)
    ensures (forall h :: end - n < h <= end ==> MissWindow.MissedAt(rows, h))
            <==> forall h :: end - n < h <= end ==> h in rows && rows[h].signed == 0
  {
    if forall h :: end - n < h <= end ==> MissWindow.MissedAt(rows, h) {
      forall h | end - n < h <= end ensures h in rows && rows[h].signed == 0 {
        assert MissWindow.MissedAt(rows, h);
      }
    }
  }

  lemma MissOfStreak(cfg: AlertConfig, recent: seq<Block>, open: seq<Alert>, now: int, id: nat, existing: Option<Alert>)
    requires Holds(existing, open, ConsecutiveMiss)
    ensures Follows(CheckConsecutiveMiss(cfg, recent, open, now, id), Key(ConsecutiveMiss, None), existing,
                    if cfg.missEnabled then Some(TrailingMisses(recent) >= cfg.missThreshold) else None, MissDue(cfg, existing, now), now)
  {
    hide LastOfKind, TrailingMisses;
    var events := CheckConsecutiveMiss(cfg, recent, open, now, id);
    assert events != [] ==> events[0] in events;
  }

  /** The stored heights among the last n up to `end` whose label is not -1. */
  ghost function CountedIn(rows: map<int, Block>, end: int, n: int): set<int> {
    set h | h in rows && 0 < h && end - n < h <= end && rows[h].signed != -1
  }

  ghost function MissedIn(rows: map<int, Block>, end: int, n: int): set<int> {
    set h | h in rows && 0 < h && end - n < h <= end && rows[h].signed == 0
  }

  /** At least `x` percent of the counted heights are missed. */
  ghost predicate MissedShare(rows: map<int, Block>, end: int, n: int, x: real) {
    |MissedIn(rows, end, n)| as real * 100.0 >= x * |CountedIn(rows, end, n)| as real
  }

  ghost function PercentWanted(cfg: AlertConfig, rows: map<int, Block>, end: int, n: int): Option<bool> {
    if cfg.percentEnabled && CountedIn(rows, end, n) != {} then Some(MissedShare(rows, end, n, cfg.percentThreshold)) else None
  }

  /** The threshold raised by half, n times over. */
  function Raised(threshold: real, n: nat): real {
    if n == 0 then threshold else Raised(threshold, n - 1) + Raised(threshold, n - 1) / 2.0
  }

  /** The share reaches the threshold raised by half for each repeat so far, and once more. */
  ghost predicate PercentDue(cfg: AlertConfig, rows: map<int, Block>, end: int, n: int, existing: Option<Alert>) {
    cfg.percentRepeat && existing.Some? && MissedShare(rows, end, n, Raised(cfg.percentThreshold, existing.value.repeatCount + 1))
  }

  lemma {:induction false} RaisedIs(threshold: real, n: nat)
    ensures Raised(threshold, n) == threshold * Escalation(n)
  {
    if n > 0 {
      RaisedIs(threshold, n - 1);
    }
  }

  lemma WindowIs(rows: map<int, Block>, end: int, n: int)
    requires n > 0
    ensures
      var stats := Stats(rows, MissWindow.WindowStart(end, n), end);
      && stats.total == |CountedIn(rows, end, n)| && stats.missed == |MissedIn(rows, end, n)|
      && (stats.total > 0 <==> CountedIn(rows, end, n) != {})
  {
    var from := MissWindow.WindowStart(end, n);
    StatsCount(rows, from, end);
    assert Counted(rows, from, end) == CountedIn(rows, end, n);
    assert Missed(rows, from, end) == MissedIn(rows, end, n);
  }

  lemma PercentFollows(cfg: AlertConfig, rows: map<int, Block>, end: int, n: int, open: seq<Alert>, now: int, id: nat, existing: Option<Alert>)
    requires n > 0 && Holds(existing, open, PercentageMiss)
    ensures
      Follows(CheckPercentageMiss(cfg, Stats(rows, MissWindow.WindowStart(end, n), end), open, now, id), Key(PercentageMiss, None), existing,
              PercentWanted(cfg, rows, end, n), PercentDue(cfg, rows, end, n, existing), now)
  {
    var stats := Stats(rows, MissWindow.WindowStart(end, n), end);
    PercentTerms(cfg, rows, end, n, existing);
    PercentOfStats(cfg, stats, open, now, id, existing);
    hide *;
    DueIfWanted(CheckPercentageMiss(cfg, stats, open, now, id), Key(PercentageMiss, None), existing, PercentWanted(cfg, rows, end, n),
                cfg.percentRepeat && existing.Some? && PercentRepeatDue(cfg, existing.value, stats), PercentDue(cfg, rows, end, n, existing), now);
  }

  lemma PercentTerms(cfg: AlertConfig, rows: map<int, Block>, end: int, n: int, existing: Option<Alert>)
    requires n > 0
    ensures
      var stats := Stats(rows, MissWindow.WindowStart(end, n), end);
      && PercentWanted(cfg, rows, end, n) == (if cfg.percentEnabled && stats.total > 0 then Some(Ratio(stats) >= cfg.percentThreshold) else None)
      && (stats.total > 0 ==>
            (PercentDue(cfg, rows, end, n, existing) <==> cfg.percentRepeat && existing.Some? && PercentRepeatDue(cfg, existing.value, stats)))
  {
    hide Stats, CountedIn, MissedIn, Ratio, MissedShare;
    WindowIs(rows, end, n);
    if CountedIn(rows, end, n) != {} {
      ShareIs(rows, end, n, cfg.percentThreshold);
      if existing.Some? {
        var k := existing.value.repeatCount + 1;
        RaisedIs(cfg.percentThreshold, k);
        ShareIs(rows, end, n, Raised(cfg.percentThreshold, k));
      }
    }
  }

  lemma ShareIs(rows: map<int, Block>, end: int, n: int, x: real)
    requires n > 0 && CountedIn(rows, end, n) != {}
    ensures
      var stats := Stats(rows, MissWindow.WindowStart(end, n), end);
      stats.total > 0 && (MissedShare(rows, end, n, x) <==> Ratio(stats) >= x)
  {
    hide Stats, CountedIn, MissedIn, Ratio;
    WindowIs(rows, end, n);
    MissWindow.RatioAtLeastIff(Stats(rows, MissWindow.WindowStart(end, n), end), x);
  }

  lemma PercentOfStats(cfg: AlertConfig, stats: WindowStats, open: seq<Alert>, now: int, id: nat, existing: Option<Alert>)
    requires Holds(existing, open, PercentageMiss)
    ensures
      Follows(CheckPercentageMiss(cfg, stats, open, now, id), Key(PercentageMiss, None), existing,
              if cfg.percentEnabled && stats.total > 0 then Some(Ratio(stats) >= cfg.percentThreshold) else None,
              cfg.percentRepeat && existing.Some? && PercentRepeatDue(cfg, existing.value, stats), now)
  {
    hide LastOfKind, Ratio, PercentRepeatDue;
    var events := CheckPercentageMiss(cfg, stats, open, now, id);
    assert events != [] ==> events[0] in events;
  }

  lemma DueIfWanted(events: seq<AlertEvent>, key: Key, open: Option<Alert>, wanted: Option<bool>, due: bool, due': bool, now: int)
    requires Follows(events, key, open, wanted, due, now)
    requires wanted == Some(true) && open.Some? ==> due == due'
    ensures Follows(events, key, open, wanted, due', now)
  {
  }

  /** What the REST API says about the validator, as far as the alerts of a status kind go. */
  function StatusWanted(cfg: Config, input: PollInput, kind: AlertKind): Option<bool> {
    if !cfg.alerts.alertIfInactive || cfg.chainType != Bft || input.validator.Unavailable? then None
    else
      var v := input.validator;
      match kind
      case Inactive => Some(!v.jailed && v.bondStatus != "BOND_STATUS_BONDED")
      case Jailed => Some(v.jailed && !Inactivity.ForGood(input.signingInfo))
      case Tombstoned => Some(v.jailed && Inactivity.ForGood(input.signingInfo))
      case _ => None
  }

  lemma {:induction false} OnlyCloses(kinds: seq<AlertKind>, wanted: Option<AlertKind>, open: seq<Alert>, now: int)
    ensures forall e <- StatusCloses(kinds, wanted, open, now) ::
              e.Close? && e.closedAt == now && LastOfKind(open, e.alert.key.kind) == Some(e.alert) && Some(e.alert.key.kind) != wanted
  {
    hide LastOfKind;
    if kinds != [] {
      OnlyCloses(kinds[..|kinds| - 1], wanted, open, now);
    }
  }

  lemma ClosesFollow(wanted: Option<AlertKind>, open: seq<Alert>, now: int, kind: AlertKind, existing: Option<Alert>)
    requires IsStatusKind(kind) && Holds(existing, open, kind)
    ensures Follows(StatusCloses(STATUS_KINDS, wanted, open, now), Key(kind, None), existing, if wanted == Some(kind) then None else Some(false), false, now)
  {
    OnlyCloses(STATUS_KINDS, wanted, open, now);
    Inactivity.ClosesOf(STATUS_KINDS, wanted, open, now, kind);
    assert kind in STATUS_KINDS by {
      assert STATUS_KINDS[0] == Inactive && STATUS_KINDS[1] == Jailed && STATUS_KINDS[2] == Tombstoned;
    }
    hide StatusCloses, LastOfKind;
  }

  /** An opening at the end of some closings. */
  lemma OpensAfter(closes: seq<AlertEvent>, opening: AlertEvent, key: Key, existing: Option<Alert>, wanted: Option<bool>, now: int)
    requires Follows(closes, key, existing, wanted, false, now)
    requires opening.Open? && opening.alert == NewAlert(opening.alert.id, opening.alert.key, now)
    ensures opening.alert.key != key ==> Follows(closes + [opening], key, existing, wanted, false, now)
    ensures opening.alert.key == key && wanted.None? && existing.None? ==> Follows(closes + [opening], key, existing, Some(true), false, now)
  {
    assert forall e: AlertEvent :: e in closes + [opening] <==> e in closes || e == opening;
    assert opening in closes + [opening];
  }

  lemma StatusFollows(cfg: Config, tip: Tip, input: PollInput, open: seq<Alert>, now: int, id: nat, kind: AlertKind, existing: Option<Alert>)
    requires IsStatusKind(kind) && Holds(existing, open, kind)
    ensures
      var status := StatusAt(cfg.chainType, tip, input.validator, input.signingInfo);
      Follows(CheckValidatorStatus(cfg.alerts, status, open, now, id), Key(kind, None), existing, StatusWanted(cfg, input, kind), false, now)
  {
    var status := StatusAt(cfg.chainType, tip, input.validator, input.signingInfo);
    var all := CheckValidatorStatus(cfg.alerts, status, open, now, id);
    if cfg.alerts.alertIfInactive && status.Some? {
      var wanted := WantedKind(status.value);
      assert StatusWanted(cfg, input, kind) == Some(wanted == Some(kind));
      var closes := StatusCloses(STATUS_KINDS, wanted, open, now);
      ClosesFollow(wanted, open, now, kind, existing);
      hide StatusAt, WantedKind, StatusCloses, LastOfKind, StatusWanted, STATUS_KINDS;
      if wanted.Some? && LastOfKind(open, wanted.value).None? {
        var opening := Open(NewAlert(id, Key(wanted.value, None), now));
        assert all == closes + [opening];
        hide Follows;
        OpensAfter(closes, opening, Key(kind, None), existing, if wanted == Some(kind) then None else Some(false), now);
      } else {
        assert all == closes;
      }
    }
  }

  // ---- the endpoints ------------------------------------------------------

  /** A configured endpoint that is to be watched, with that last known health. */
  ghost predicate Watched(cfg: Config, input: PollInput, k: Key, health: Option<bool>) {
    exists e <- cfg.endpoints :: Key(e.kind, Some(e.url)) == k && e.alertIfDown && input.health(e) == health
  }

  ghost predicate IsDown(cfg: Config, input: PollInput, k: Key) { Watched(cfg, input, k, Some(false)) }

  ghost predicate NeverChecked(cfg: Config, input: PollInput, k: Key) { Watched(cfg, input, k, None) }

  /**
   * Down for the grace period, by default 180 seconds: open. Down for less, or not checked yet: leave it.
   * Up, not watched, or not configured: close.
   */
  ghost function EndpointWanted(cfg: Config, input: PollInput, since: map<Key, int>, k: Key): Option<bool> {
    if IsDown(cfg, input, k) then
      var from := if k in since then since[k] else input.endpointsAt;
      if (input.endpointsAt - from) as real >= cfg.alerts.endpointDownAlertAfter.GetOr(180.0) * 1000.0 then Some(true) else None
    else if NeverChecked(cfg, input, k) then None
    else Some(false)
  }

  /** The timer of an endpoint after a poll: it starts with the first sight down and runs until one that is neither down nor unknown. */
  ghost function TimerAfter(cfg: Config, input: PollInput, since: map<Key, int>, k: Key): Option<int> {
    if IsDown(cfg, input, k) then Some(if k in since then since[k] else input.endpointsAt)
    else if NeverChecked(cfg, input, k) && k in since then Some(since[k])
    else None
  }

  lemma SeenIs(cfg: Config, input: PollInput, k: Key)
    requires DistinctEndpoints(cfg.endpoints)
    ensures
      var r := Round(Checks(cfg, input), input.endpointsAt);
      && DownTimers.DistinctChecks(r.checks)
      && (DownTimers.SeenDown(r, k) <==> IsDown(cfg, input, k))
      && (DownTimers.Breaks(r, k) <==> !IsDown(cfg, input, k) && !NeverChecked(cfg, input, k))
  {
    var checks := Checks(cfg, input);
    var pos := DownTimers.Position(checks, |checks|, k);
    assert forall i :: 0 <= i < |checks| ==> checks[i] == EndpointCheck(cfg.endpoints[i], input.health(cfg.endpoints[i]));
    if pos.Some? {
      assert cfg.endpoints[pos.value] in cfg.endpoints;
      forall e | e in cfg.endpoints && Key(e.kind, Some(e.url)) == k ensures e == cfg.endpoints[pos.value] {
        var i :| 0 <= i < |cfg.endpoints| && cfg.endpoints[i] == e;
        assert EndpointKey(cfg.endpoints[i]) == EndpointKey(cfg.endpoints[pos.value]);
      }
    } else {
      forall e | e in cfg.endpoints ensures Key(e.kind, Some(e.url)) != k {
        var i :| 0 <= i < |cfg.endpoints| && cfg.endpoints[i] == e;
        assert EndpointKey(checks[i].endpoint) != k;
      }
    }
  }

  lemma {:induction false} EndpointTimes(cfg: AlertConfig, checks: seq<EndpointCheck>, n: nat, since: map<Key, int>, open: seq<Alert>, now: int, id: nat)
    requires n <= |checks|
    ensures forall e <- EventsUpTo(cfg, checks, n, since, open, now, id) ::
              !e.Repeat? && if e.Open? then e.alert.openedAt == now else e.closedAt == now
  {
    hide LastOfKey, TimedUpTo;
    if n > 0 {
      EndpointTimes(cfg, checks, n - 1, since, open, now, id);
    }
  }

  lemma {:induction false} OrphanTimes(open: seq<Alert>, n: nat, configured: set<Key>, now: int)
    requires n <= |open|
    ensures forall e <- Orphans(open, n, configured, now) :: e.Close? && e.closedAt == now
  {
    hide LastOfKey;
    if n > 0 {
      OrphanTimes(open, n - 1, configured, now);
    }
  }

  lemma PageHoldsEndpoint(alerts: map<nat, Alert>, nextId: nat, keys: set<Key>, open: seq<Alert>, k: Key)
    requires OA.AlertsOk(alerts, nextId, keys) && OA.ExactPage(open, alerts) && IsDownKind(k.kind)
    ensures LastOfKey(open, k) == OpenRow(alerts, k)
  {
    var row, last := OpenRow(alerts, k), LastOfKey(open, k);
    if row.Some? {
      var i :| OpenAt(alerts, i, k) && row.value == alerts[i];
      assert alerts[i] in open && IsEndpointAlert(alerts[i]);
    }
    if last.Some? {
      assert OpenAt(alerts, last.value.id, last.value.key);
    }
  }

  /** The events of the endpoint checks steer each endpoint alert as the endpoint's health and timer call for. */
  lemma EndpointFollows(cfg: Config, s: Store, input: PollInput, open: seq<Alert>, keys: set<Key>, k: Key)
    requires ConfigOk(cfg) && OA.AlertsOk(s.tables.alerts, s.nextId, keys) && OA.ExactPage(open, s.tables.alerts) && IsDownKind(k.kind)
    ensures
      var events := EndpointsEvaluated(cfg.alerts, Checks(cfg, input), s.downSince, open, input.endpointsAt, s.nextId + CHECKS);
      && Follows(events, k, OpenRow(s.tables.alerts, k), EndpointWanted(cfg, input, s.downSince, k), false, input.endpointsAt)
      && DownTimers.At(TimersAfter(Checks(cfg, input), s.downSince, input.endpointsAt), k) == TimerAfter(cfg, input, s.downSince, k)
  {
    var r := Round(Checks(cfg, input), input.endpointsAt);
    var id, row := s.nextId + CHECKS, OpenRow(s.tables.alerts, k);
    var events := EndpointsEvaluated(cfg.alerts, r.checks, s.downSince, open, r.now, id);
    SeenIs(cfg, input, k);
    PageHoldsEndpoint(s.tables.alerts, s.nextId, keys, open, k);
    DownTimers.OpensByTimer(cfg.alerts, r, s.downSince, open, id, k);
    DownTimers.ClosesIff(cfg.alerts, r, s.downSince, open, id, k);
    DownTimers.RoundTimes(r, s.downSince, k);
    EndpointTimes(cfg.alerts, r.checks, |r.checks|, s.downSince, open, r.now, id);
    OrphanTimes(open, |open|, ConfiguredKeys(r.checks), r.now);
    OA.EndpointsFit(cfg, s.downSince, input, open, s.tables.alerts, id, s.nextId, keys);
    forall e | e in events && e.alert.key == k && !e.Open? ensures Some(e.alert) == row {
      IsOpenRow(s.tables.alerts, s.nextId, keys, e, id, id + |r.checks|);
    }
  }

  lemma IsOpenRow(alerts: map<nat, Alert>, nextId: nat, keys: set<Key>, e: AlertEvent, lo: nat, hi: nat)
    requires OA.AlertsOk(alerts, nextId, keys) && OA.Fits(e, alerts, lo, hi) && !e.Open?
    ensures OpenRow(alerts, e.alert.key) == Some(e.alert)
  {
    assert OpenAt(alerts, e.alert.id, e.alert.key);
  }

  // ---- what is left in the table ------------------------------------------

  /** What a written event leaves under its id: a new row, one more repeat, or the closing time; nothing else of the row changes. */
  ghost predicate LeftBy(e: AlertEvent, alerts: map<nat, Alert>, at: int) {
    e.alert.id in alerts && alerts[e.alert.id] ==
      match e
      case Open(a) => a
      case Repeat(a) => Alert(a.id, a.key, a.openedAt, None, Some(at), a.repeatCount + 1)
      case Close(a, closedAt) => Alert(a.id, a.key, a.openedAt, Some(closedAt), a.lastNotifiedAt, a.repeatCount)
  }

  predicate SameRow(before: map<nat, Alert>, after: map<nat, Alert>, id: nat) {
    (id in before <==> id in after) && (id in before ==> before[id] == after[id])
  }

  /** The rows under the ids of the events from k on are what those events leave, and all other rows are as before. */
  ghost predicate Written(events: seq<AlertEvent>, k: nat, before: map<nat, Alert>, after: map<nat, Alert>, at: nat -> int) {
    && (forall j: nat :: k <= j < |events| ==> LeftBy(events[j], after, at(j)))
    && (forall id: nat :: (forall j :: k <= j < |events| ==> events[j].alert.id != id) ==> SameRow(before, after, id))
  }

  lemma AppliedLeaves(alerts: map<nat, Alert>, nextId: nat, input: PollInput, e: AlertEvent, k: nat)
    requires OA.Fits(e, alerts, 0, nextId) && Incidents.AlertWritesOk(input)
    ensures LeftBy(e, Applied(alerts, input, e, k), input.appliedAt(k))
    ensures forall id: nat :: id != e.alert.id ==> SameRow(alerts, Applied(alerts, input, e, k), id)
  {
  }

  lemma {:induction false} WritesAll(cfg: Config, s: Store, input: PollInput, events: seq<AlertEvent>, k: nat, keys: set<Key>)
    requires OA.AlertsOk(s.tables.alerts, s.nextId, keys) && OA.EventsOk(s, events, k, keys) && Incidents.AlertWritesOk(input)
    ensures Written(events, k, s.tables.alerts, Complete(cfg, s, input, Pending(events, k)).tables.alerts, input.appliedAt)
    decreases |events| - k
  {
    if k < |events| {
      var e, alerts := events[k], s.tables.alerts;
      OA.AppliedKeeps(alerts, s.nextId, keys, input, events, k);
      assert events[k..][0] == e && e in events[k..];
      AppliesAsMachine(cfg, s, input, events, k);
      AppliedLeaves(alerts, s.nextId, input, e, k);
      var s' := s.(tables := s.tables.(alerts := Applied(alerts, input, e, k)),
                   history := s.history.(log := s.history.log + [Entry(e, input.evaluatedAt)]));
      forall j | k < j < |events| ensures events[j].alert.id != e.alert.id {
        assert events[k..][j - k] == events[j];
      }
      hide Applied, Complete, LeftBy, OA.AlertsOk, OA.Fits;
      WritesAll(cfg, s', input, events, k + 1, keys);
      WrittenCons(events, k, alerts, s'.tables.alerts, Complete(cfg, s, input, Pending(events, k)).tables.alerts, input.appliedAt);
    } else {
      assert Complete(cfg, s, input, Done) == s;
    }
  }

  lemma WrittenCons(events: seq<AlertEvent>, k: nat, before: map<nat, Alert>, next: map<nat, Alert>, after: map<nat, Alert>, at: nat -> int)
    requires k < |events| && Written(events, k + 1, next, after, at) && LeftBy(events[k], next, at(k))
    requires forall id: nat :: id != events[k].alert.id ==> SameRow(before, next, id)
    requires forall j :: k < j < |events| ==> events[j].alert.id != events[k].alert.id
    ensures Written(events, k, before, after, at)
  {
    assert SameRow(next, after, events[k].alert.id);
    forall id: nat | forall j :: k <= j < |events| ==> events[j].alert.id != id ensures SameRow(before, after, id) {
      assert id != events[k].alert.id;
      assert SameRow(before, next, id) && SameRow(next, after, id);
    }
  }

  /** A row an event is about is of that event's key before and after. */
  lemma EventRow(events: seq<AlertEvent>, before: map<nat, Alert>, after: map<nat, Alert>, at: nat -> int, nextId: nat, j: nat)
    requires j < |events| && Written(events, 0, before, after, at) && OA.Fits(events[j], before, 0, nextId)
    ensures
      var e := events[j];
      && e.alert.id in after && after[e.alert.id].key == e.alert.key && (after[e.alert.id].closedAt == None <==> !e.Close?)
      && (e.alert.id in before ==> before[e.alert.id].key == e.alert.key)
  {
    assert LeftBy(events[j], after, at(j));
  }

  /** Once the events are written, the alert of a key they steer is open if it is wanted, closed if not, and else as it was. */
  lemma OpenAfter(events: seq<AlertEvent>, before: map<nat, Alert>, after: map<nat, Alert>, at: nat -> int, nextId: nat, keys: set<Key>,
                  key: Key, wanted: Option<bool>, due: bool, now: int)
    requires OA.AlertsOk(before, nextId, keys) && Written(events, 0, before, after, at)
    requires OA.DistinctKeys(events) && forall e <- events :: OA.Fits(e, before, 0, nextId)
    requires Follows(events, key, OpenRow(before, key), wanted, due, now)
    ensures OpenRow(after, key).Some? <==> wanted.GetOr(OpenRow(before, key).Some?)
  {
    if j :| 0 <= j < |events| && events[j].alert.key == key {
      var e := events[j];
      assert e in events;
      EventRow(events, before, after, at, nextId, j);
      assert !e.Close? ==> OpenAt(after, e.alert.id, key);
      forall id: nat | e.Close? ensures !OpenAt(after, id, key) {
        if m :| 0 <= m < |events| && events[m].alert.id == id {
          assert events[m] in events;
          EventRow(events, before, after, at, nextId, m);
          assert m != j ==> events[m].alert.key != key;
        } else {
          assert SameRow(before, after, id);
          assert OpenAt(before, e.alert.id, key) && id != e.alert.id;
        }
      }
    } else {
      assert forall e <- events :: e.alert.key != key;
      forall id: nat ensures OpenAt(before, id, key) <==> OpenAt(after, id, key) {
        if m :| 0 <= m < |events| && events[m].alert.id == id {
          assert events[m] in events;
          EventRow(events, before, after, at, nextId, m);
        } else {
          assert SameRow(before, after, id);
        }
      }
    }
  }
}
