/** What every run keeps true of the alert table, even when any statement may fail: one unclosed row per key. */
module OpenAlerts {
  import opened Domain
  import opened Tables
  import opened Evaluator
  import MissWindow
  import opened Worker

  // ---- the table ----------------------------------------------------------

  predicate KeyOk(key: Key) {
    if IsDownKind(key.kind) then key.subject.Some? && key.subject.value != "" else key.subject.None?
  }

  ghost predicate UniqueOpen(alerts: map<nat, Alert>) {
    forall i, j :: i in alerts && j in alerts && i != j && Unclosed(alerts[i]) && Unclosed(alerts[j]) ==> alerts[i].key != alerts[j].key
  }

  ghost predicate RowsOk(alerts: map<nat, Alert>, nextId: nat, keys: set<Key>) {
    forall i <- alerts :: alerts[i].id == i && i < nextId && KeyOk(alerts[i].key) && alerts[i].key in keys
  }

  ghost predicate AlertsOk(alerts: map<nat, Alert>, nextId: nat, keys: set<Key>) {
    RowsOk(alerts, nextId, keys) && UniqueOpen(alerts)
  }

  const CHAIN_KEYS: set<Key> :=
    {Key(Stalled, None), Key(ConsecutiveMiss, None), Key(PercentageMiss, None),
     Key(Inactive, None), Key(Jailed, None), Key(Tombstoned, None)}

  /** `keys` has room for everything this configuration can raise an alert about. */
  ghost predicate KeysFor(cfg: Config, keys: set<Key>) {
    CHAIN_KEYS <= keys && forall e <- cfg.endpoints :: EndpointKey(e) in keys
  }

  // ---- the page of open alerts --------------------------------------------

  /** The list holds exactly the unclosed rows. */
  ghost predicate ExactPage(open: seq<Alert>, alerts: map<nat, Alert>) {
    && (forall a <- open :: a.id in alerts && alerts[a.id] == a && Unclosed(a))
    && (forall i <- alerts :: Unclosed(alerts[i]) ==> alerts[i] in open)
  }

  function KeySet(open: seq<Alert>): set<Key> { set a | a in open :: a.key }

  lemma NewKey(alerts: map<nat, Alert>, nextId: nat, keys: set<Key>, n: nat)
    requires AlertsOk(alerts, nextId, keys) && n in alerts && Unclosed(alerts[n])
    ensures alerts[n].key in keys && alerts[n].key !in KeySet(UnclosedBelow(alerts, n))
  {
    forall a | a in UnclosedBelow(alerts, n) ensures a.key != alerts[n].key {
      var i :| i < n && i in alerts && alerts[i] == a && Unclosed(a);
    }
  }

  lemma KeySetSnoc(open: seq<Alert>, a: Alert)
    ensures KeySet(open + [a]) == KeySet(open) + {a.key}
  {
    assert forall x :: x in open + [a] <==> x in open || x == a;
  }

  lemma {:induction false} OneRowPerKey(alerts: map<nat, Alert>, nextId: nat, keys: set<Key>, n: nat)
    requires AlertsOk(alerts, nextId, keys) && n <= nextId
    ensures |UnclosedBelow(alerts, n)| == |KeySet(UnclosedBelow(alerts, n))|
    ensures KeySet(UnclosedBelow(alerts, n)) <= keys
  {
    assert KeySet([]) == {};
    hide AlertsOk, RowsOk, UniqueOpen, KeySet;
    if n > 0 {
      OneRowPerKey(alerts, nextId, keys, n - 1);
      var below := UnclosedBelow(alerts, n - 1);
      if n - 1 in alerts && Unclosed(alerts[n - 1]) {
        NewKey(alerts, nextId, keys, n - 1);
        KeySetSnoc(below, alerts[n - 1]);
      } else {
        assert UnclosedBelow(alerts, n) == below;
      }
    }
  }

  lemma SubsetSize<T>(a: set<T>, b: set<T>)
    requires a <= b
    ensures |a| <= |b|
  {
    assert b == a + (b - a);
  }

  /** With at most one unclosed row per key, the open alerts fit the one page a poll reads. */
  lemma PageIsExact(alerts: map<nat, Alert>, nextId: nat, keys: set<Key>)
    requires AlertsOk(alerts, nextId, keys) && |keys| <= 500
    ensures ExactPage(UnclosedPage(alerts, nextId), alerts)
  {
    OneRowPerKey(alerts, nextId, keys, nextId);
    SubsetSize(KeySet(UnclosedBelow(alerts, nextId)), keys);
  }

  // ---- the events of one evaluation ---------------------------------------

  /** The event can be applied to the table as its check saw it; alerts to open have an id in [lo, hi). */
  ghost predicate Fits(e: AlertEvent, alerts: map<nat, Alert>, lo: nat, hi: nat) {
    if e.Open? then
      && lo <= e.alert.id < hi && e.alert.id !in alerts
      && e.alert == NewAlert(e.alert.id, e.alert.key, e.alert.openedAt)
      && KeyOk(e.alert.key)
      && (forall i <- alerts :: Unclosed(alerts[i]) ==> alerts[i].key != e.alert.key)
    else e.alert.id in alerts && alerts[e.alert.id] == e.alert && Unclosed(e.alert)
  }

  ghost predicate DistinctKeys(events: seq<AlertEvent>) {
    forall i, j :: 0 <= i < j < |events| ==> events[i].alert.key != events[j].alert.key
  }

  ghost predicate DistinctIds(events: seq<AlertEvent>) {
    forall i, j :: 0 <= i < j < |events| ==> events[i].alert.id != events[j].alert.id
  }

  ghost predicate Batch(events: seq<AlertEvent>, alerts: map<nat, Alert>, lo: nat, hi: nat, keys: set<Key>) {
    && (forall e <- events :: Fits(e, alerts, lo, hi) && e.alert.key in keys)
    && DistinctKeys(events)
    && DistinctIds(events)
  }

  lemma EmptyBatch(alerts: map<nat, Alert>, lo: nat, keys: set<Key>)
    ensures Batch([], alerts, lo, lo, keys)
  {
  }

  lemma BatchConcat(xs: seq<AlertEvent>, ys: seq<AlertEvent>, alerts: map<nat, Alert>, lo: nat, mid: nat, hi: nat,
                    kx: set<Key>, ky: set<Key>)
    requires Batch(xs, alerts, lo, mid, kx) && Batch(ys, alerts, mid, hi, ky) && lo <= mid <= hi && kx !! ky
    ensures Batch(xs + ys, alerts, lo, hi, kx + ky)
  {
    var all := xs + ys;
    forall i, j | 0 <= i < j < |all| ensures all[i].alert.key != all[j].alert.key && all[i].alert.id != all[j].alert.id {
      if j < |xs| {
      } else if i >= |xs| {
        assert all[i] == ys[i - |xs|] && all[j] == ys[j - |xs|];
      } else {
        var x, y := xs[i], ys[j - |xs|];
        assert x in xs && y in ys;
        assert x.alert.key in kx && y.alert.key in ky;
      }
    }
    forall e | e in all ensures Fits(e, alerts, lo, hi) && e.alert.key in kx + ky {
      assert e in xs || e in ys;
    }
  }

  lemma ToggleFits(kind: AlertKind, wanted: bool, open: seq<Alert>, now: int, id: nat, alerts: map<nat, Alert>, nextId: nat, keys: set<Key>)
    requires AlertsOk(alerts, nextId, keys) && ExactPage(open, alerts) && !IsDownKind(kind) && id >= nextId
    ensures Batch(Toggle(kind, wanted, open, now, id), alerts, id, id + 1, {Key(kind, None)})
  {
  }

  lemma LastCloseFits(kind: AlertKind, wanted: Option<AlertKind>, open: seq<Alert>, now: int,
                      alerts: map<nat, Alert>, nextId: nat, keys: set<Key>, id: nat)
    requires AlertsOk(alerts, nextId, keys) && ExactPage(open, alerts) && !IsDownKind(kind)
    ensures Batch(if LastOfKind(open, kind).Some? && Some(kind) != wanted then [Close(LastOfKind(open, kind).value, now)] else [],
                  alerts, id, id, if Some(kind) != wanted then {Key(kind, None)} else {})
  {
  }

  lemma ClosedKeysSnoc(before: seq<AlertKind>, kind: AlertKind, wanted: Option<AlertKind>)
    ensures (set k | k in before + [kind] && Some(k) != wanted :: Key(k, None))
            == (set k | k in before && Some(k) != wanted :: Key(k, None)) + (if Some(kind) != wanted then {Key(kind, None)} else {})
  {
  }

  lemma {:induction false} ClosesFit(kinds: seq<AlertKind>, wanted: Option<AlertKind>, open: seq<Alert>, now: int,
                                     alerts: map<nat, Alert>, nextId: nat, keys: set<Key>, id: nat)
    requires AlertsOk(alerts, nextId, keys) && ExactPage(open, alerts)
    requires forall k <- kinds :: !IsDownKind(k)
    requires forall i, j :: 0 <= i < j < |kinds| ==> kinds[i] != kinds[j]
    ensures Batch(StatusCloses(kinds, wanted, open, now), alerts, id, id, set k | k in kinds && Some(k) != wanted :: Key(k, None))
  {
    if kinds != [] {
      var kind, before := kinds[|kinds| - 1], kinds[..|kinds| - 1];
      ClosesFit(before, wanted, open, now, alerts, nextId, keys, id);
      assert kinds == before + [kind];
      hide Batch, AlertsOk, ExactPage, LastOfKind;
      LastCloseFits(kind, wanted, open, now, alerts, nextId, keys, id);
      ClosedKeysSnoc(before, kind, wanted);
      var last := if LastOfKind(open, kind).Some? && Some(kind) != wanted then [Close(LastOfKind(open, kind).value, now)] else [];
      var kx := set k | k in before && Some(k) != wanted :: Key(k, None);
      var ky := if Some(kind) != wanted then {Key(kind, None)} else {};
      BatchConcat(StatusCloses(before, wanted, open, now), last, alerts, id, id, id, kx, ky);
    } else {
      EmptyBatch(alerts, id, set k | k in kinds && Some(k) != wanted :: Key(k, None));
    }
  }

  const STATUS_KEYS: set<Key> := {Key(Inactive, None), Key(Jailed, None), Key(Tombstoned, None)}

  lemma StatusFits(cfg: AlertConfig, status: Option<Status>, open: seq<Alert>, now: int, id: nat,
                   alerts: map<nat, Alert>, nextId: nat, keys: set<Key>)
    requires AlertsOk(alerts, nextId, keys) && ExactPage(open, alerts) && id >= nextId
    ensures Batch(CheckValidatorStatus(cfg, status, open, now, id), alerts, id, id + 1, STATUS_KEYS)
  {
    if cfg.alertIfInactive && status.Some? {
      var wanted := WantedKind(status.value);
      ClosesFit(STATUS_KINDS, wanted, open, now, alerts, nextId, keys, id);
      var opens := if wanted.Some? && LastOfKind(open, wanted.value).None? then [Open(NewAlert(id, Key(wanted.value, None), now))] else [];
      var kx := set k | k in STATUS_KINDS && Some(k) != wanted :: Key(k, None);
      var ky := if wanted.Some? then {Key(wanted.value, None)} else {};
      BatchConcat(StatusCloses(STATUS_KINDS, wanted, open, now), opens, alerts, id, id, id + 1, kx, ky);
      assert kx + ky <= STATUS_KEYS;
    }
  }

  lemma MissesFit(cfg: AlertConfig, recent: seq<Block>, open: seq<Alert>, now: int, id: nat,
                  alerts: map<nat, Alert>, nextId: nat, keys: set<Key>)
    requires AlertsOk(alerts, nextId, keys) && ExactPage(open, alerts) && id >= nextId
    ensures Batch(CheckConsecutiveMiss(cfg, recent, open, now, id), alerts, id, id + 1, {Key(ConsecutiveMiss, None)})
  {
    ToggleFits(ConsecutiveMiss, TrailingMisses(recent) >= cfg.missThreshold, open, now, id, alerts, nextId, keys);
  }

  lemma PercentFits(cfg: AlertConfig, stats: WindowStats, open: seq<Alert>, now: int, id: nat,
                    alerts: map<nat, Alert>, nextId: nat, keys: set<Key>)
    requires AlertsOk(alerts, nextId, keys) && ExactPage(open, alerts) && id >= nextId
    ensures Batch(CheckPercentageMiss(cfg, stats, open, now, id), alerts, id, id + 1, {Key(PercentageMiss, None)})
  {
    ToggleFits(PercentageMiss, stats.total > 0 && Ratio(stats) >= cfg.percentThreshold, open, now, id, alerts, nextId, keys);
  }

  lemma EvaluatedFits(cfg: AlertConfig, tail: seq<Block>, stats: WindowStats, open: seq<Alert>, status: Option<Status>,
                      tip: Tip, now: int, id: nat, alerts: map<nat, Alert>, keys: set<Key>)
    requires AlertsOk(alerts, id, keys) && ExactPage(open, alerts)
    ensures Batch(Evaluated(cfg, tail, stats, open, status, tip, now, id), alerts, id, id + CHECKS, CHAIN_KEYS)
  {
    hide CheckConsecutiveMiss, CheckPercentageMiss, CheckValidatorStatus, Batch, AlertsOk, ExactPage;
    var recent := SliceLast(tail, cfg.missThreshold);
    var a := CheckStalled(cfg, tip, open, now, id);
    var b := CheckConsecutiveMiss(cfg, recent, open, now, id + 1);
    var c := CheckPercentageMiss(cfg, stats, open, now, id + 2);
    var d := CheckValidatorStatus(cfg, status, open, now, id + 3);
    StalledFits(cfg, tip, open, now, id, alerts, id, keys);
    MissesFit(cfg, recent, open, now, id + 1, alerts, id, keys);
    PercentFits(cfg, stats, open, now, id + 2, alerts, id, keys);
    StatusFits(cfg, status, open, now, id + 3, alerts, id, keys);
    var ka, kb, kc := {Key(Stalled, None)}, {Key(ConsecutiveMiss, None)}, {Key(PercentageMiss, None)};
    BatchConcat(a, b, alerts, id, id + 1, id + 2, ka, kb);
    BatchConcat(a + b, c, alerts, id, id + 2, id + 3, ka + kb, kc);
    BatchConcat(a + b + c, d, alerts, id, id + 3, id + 4, ka + kb + kc, STATUS_KEYS);
    assert ka + kb + kc + STATUS_KEYS == CHAIN_KEYS;
  }

  lemma StalledFits(cfg: AlertConfig, tip: Tip, open: seq<Alert>, now: int, id: nat,
                    alerts: map<nat, Alert>, nextId: nat, keys: set<Key>)
    requires AlertsOk(alerts, nextId, keys) && ExactPage(open, alerts) && id >= nextId
    ensures Batch(CheckStalled(cfg, tip, open, now, id), alerts, id, id + 1, {Key(Stalled, None)})
  {
    ToggleFits(Stalled, (now - tip.time) as real > cfg.stalledThreshold * 1000.0, open, now, id, alerts, nextId, keys);
  }

  lemma OneEndpointFits(cfg: AlertConfig, c: EndpointCheck, since: map<Key, int>, open: seq<Alert>, now: int, id: nat,
                        alerts: map<nat, Alert>, nextId: nat, keys: set<Key>)
    requires AlertsOk(alerts, nextId, keys) && ExactPage(open, alerts) && id >= nextId
    requires KeyOk(EndpointKey(c.endpoint)) && IsDownKind(c.endpoint.kind)
    ensures Batch(EndpointEvents(cfg, c, since, open, now, id), alerts, id, id + 1, {EndpointKey(c.endpoint)})
  {
  }

  lemma ConfiguredSnoc(checks: seq<EndpointCheck>, n: nat)
    requires 0 < n <= |checks|
    requires forall i, j :: 0 <= i < j < |checks| ==> EndpointKey(checks[i].endpoint) != EndpointKey(checks[j].endpoint)
    ensures ConfiguredKeys(checks[..n]) == ConfiguredKeys(checks[..n - 1]) + {EndpointKey(checks[n - 1].endpoint)}
    ensures EndpointKey(checks[n - 1].endpoint) !in ConfiguredKeys(checks[..n - 1])
  {
    assert checks[..n] == checks[..n - 1] + [checks[n - 1]];
  }

  lemma {:induction false} EndpointEventsFit(cfg: AlertConfig, checks: seq<EndpointCheck>, n: nat, since: map<Key, int>, open: seq<Alert>,
                                             now: int, id: nat, alerts: map<nat, Alert>, nextId: nat, keys: set<Key>)
    requires n <= |checks| && AlertsOk(alerts, nextId, keys) && ExactPage(open, alerts) && id >= nextId
    requires forall c <- checks :: KeyOk(EndpointKey(c.endpoint)) && IsDownKind(c.endpoint.kind)
    requires forall i, j :: 0 <= i < j < |checks| ==> EndpointKey(checks[i].endpoint) != EndpointKey(checks[j].endpoint)
    ensures Batch(EventsUpTo(cfg, checks, n, since, open, now, id), alerts, id, id + n, ConfiguredKeys(checks[..n]))
  {
    hide Batch, AlertsOk, ExactPage, EndpointEvents, ConfiguredKeys;
    if n > 0 {
      EndpointEventsFit(cfg, checks, n - 1, since, open, now, id, alerts, nextId, keys);
      var c := checks[n - 1];
      var k := EndpointKey(c.endpoint);
      var one := EndpointEvents(cfg, c, TimedUpTo(checks, n, since, now), open, now, id + n - 1);
      OneEndpointFits(cfg, c, TimedUpTo(checks, n, since, now), open, now, id + n - 1, alerts, nextId, keys);
      ConfiguredSnoc(checks, n);
      BatchConcat(EventsUpTo(cfg, checks, n - 1, since, open, now, id), one, alerts, id, id + n - 1, id + n,
                  ConfiguredKeys(checks[..n - 1]), {k});
    } else {
      EmptyBatch(alerts, id, ConfiguredKeys(checks[..n]));
    }
  }

  lemma OrphanFits(open: seq<Alert>, a: Alert, now: int, alerts: map<nat, Alert>, nextId: nat, keys: set<Key>, id: nat)
    requires AlertsOk(alerts, nextId, keys) && ExactPage(open, alerts) && a in open
    ensures Batch([Close(LastOfKey(open, a.key).GetOr(a), now)], alerts, id, id, {a.key})
  {
  }

  function OrphanedKeys(open: seq<Alert>, configured: set<Key>): set<Key> {
    set a | a in open && IsEndpointAlert(a) && a.key !in configured :: a.key
  }

  lemma OrphanedSnoc(before: seq<Alert>, a: Alert, configured: set<Key>)
    ensures OrphanedKeys(before + [a], configured)
            == OrphanedKeys(before, configured) + if IsEndpointAlert(a) && a.key !in configured then {a.key} else {}
    ensures a.key in OrphanedKeys(before, configured) ==> LastOfKey(before, a.key).Some?
  {
  }

  lemma {:induction false} OrphansFit(open: seq<Alert>, n: nat, configured: set<Key>, now: int, alerts: map<nat, Alert>,
                                      nextId: nat, keys: set<Key>, id: nat)
    requires n <= |open| && AlertsOk(alerts, nextId, keys) && ExactPage(open, alerts)
    ensures Batch(Orphans(open, n, configured, now), alerts, id, id, OrphanedKeys(open[..n], configured))
  {
    hide Batch, AlertsOk, ExactPage, OrphanedKeys, LastOfKey;
    if n == 0 {
      EmptyBatch(alerts, id, OrphanedKeys(open[..n], configured));
    } else {
      OrphansFit(open, n - 1, configured, now, alerts, nextId, keys, id);
      var a, before := open[n - 1], open[..n - 1];
      assert open[..n] == before + [a] && a in open;
      OrphanedSnoc(before, a, configured);
      var kx := OrphanedKeys(before, configured);
      if IsEndpointAlert(a) && LastOfKey(before, a.key).None? && a.key !in configured {
        OrphanFits(open, a, now, alerts, nextId, keys, id);
        BatchConcat(Orphans(open, n - 1, configured, now), [Close(LastOfKey(open, a.key).GetOr(a), now)],
                    alerts, id, id, id, kx, {a.key});
      } else {
        assert Orphans(open, n, configured, now) == Orphans(open, n - 1, configured, now);
        BatchWeaken(Orphans(open, n, configured, now), alerts, id, id, kx, id, id, OrphanedKeys(open[..n], configured));
      }
    }
  }

  // ---- the invariant ------------------------------------------------------

  ghost predicate EventsOk(s: Store, events: seq<AlertEvent>, k: nat, keys: set<Key>) {
    k <= |events| && Batch(events[k..], s.tables.alerts, 0, s.nextId, keys)
  }

  ghost predicate PhaseOk(s: Store, ph: Phase, keys: set<Key>) {
    match ph
    case Observing(open) => ExactPage(open, s.tables.alerts)
    case JudgingEndpoints(open) => ExactPage(open, s.tables.alerts)
    case EndingPeriod(p) => ExactPage(p.open, s.tables.alerts)
    case StartingPeriod(p) => ExactPage(p.open, s.tables.alerts)
    case Fetching(p) => ExactPage(p.open, s.tables.alerts)
    case Appending(p, _) => ExactPage(p.open, s.tables.alerts)
    case Inserting(p, _) => ExactPage(p.open, s.tables.alerts)
    case Judging(p, _) => ExactPage(p.open, s.tables.alerts)
    case Applying(events, k) => EventsOk(s, events, k, keys)
    case Dispatching(events, k) => k < |events| && EventsOk(s, events, k + 1, keys)
    case _ => true
  }

  ghost predicate Inv(w: World, keys: set<Key>) {
    && OnePoll(w)
    && ConfigOk(w.cfg) && KeysFor(w.cfg, keys)
    && AlertsOk(w.store.tables.alerts, w.store.nextId, keys)
    && (forall it <- w.polls :: PhaseOk(w.store, it.phase, keys))
  }

  lemma BatchWeaken(events: seq<AlertEvent>, alerts: map<nat, Alert>, lo: nat, hi: nat, keys: set<Key>, lo': nat, hi': nat, keys': set<Key>)
    requires Batch(events, alerts, lo, hi, keys) && lo' <= lo && hi <= hi' && keys <= keys'
    ensures Batch(events, alerts, lo', hi', keys')
  {
  }

  lemma EndpointsFit(cfg: Config, since: map<Key, int>, input: PollInput, open: seq<Alert>, alerts: map<nat, Alert>, id: nat,
                     nextId: nat, keys: set<Key>)
    requires ConfigOk(cfg) && AlertsOk(alerts, nextId, keys) && ExactPage(open, alerts) && id >= nextId
    ensures
      var checks := Checks(cfg, input);
      Batch(EndpointsEvaluated(cfg.alerts, checks, since, open, input.endpointsAt, id), alerts, id, id + |checks|,
            ConfiguredKeys(checks) + OrphanedKeys(open, ConfiguredKeys(checks)))
  {
    var checks := Checks(cfg, input);
    var configured := ConfiguredKeys(checks);
    assert forall c <- checks :: c.endpoint in cfg.endpoints;
    EndpointEventsFit(cfg.alerts, checks, |checks|, since, open, input.endpointsAt, id, alerts, nextId, keys);
    assert checks[..|checks|] == checks;
    OrphansFit(open, |open|, configured, input.endpointsAt, alerts, nextId, keys, id + |checks|);
    assert open[..|open|] == open;
    BatchConcat(EventsUpTo(cfg.alerts, checks, |checks|, since, open, input.endpointsAt, id),
                Orphans(open, |open|, configured, input.endpointsAt),
                alerts, id, id + |checks|, id + |checks|, configured, OrphanedKeys(open, configured));
  }

  lemma EndpointKeysKnown(cfg: Config, input: PollInput, open: seq<Alert>, alerts: map<nat, Alert>, nextId: nat, keys: set<Key>)
    requires ConfigOk(cfg) && KeysFor(cfg, keys) && AlertsOk(alerts, nextId, keys) && ExactPage(open, alerts)
    ensures
      var configured := ConfiguredKeys(Checks(cfg, input));
      && configured + OrphanedKeys(open, configured) <= keys
      && CHAIN_KEYS !! configured + OrphanedKeys(open, configured)
  {
    assert forall c <- Checks(cfg, input) :: c.endpoint in cfg.endpoints;
  }

  /** All events of one evaluation, chain checks and endpoint checks together, can be applied one by one. */
  lemma JudgedFits(cfg: Config, s: Store, input: PollInput, open: seq<Alert>, chainEvents: seq<AlertEvent>, keys: set<Key>)
    requires ConfigOk(cfg) && KeysFor(cfg, keys) && AlertsOk(s.tables.alerts, s.nextId, keys) && ExactPage(open, s.tables.alerts)
    requires Batch(chainEvents, s.tables.alerts, s.nextId, s.nextId + CHECKS, CHAIN_KEYS)
    ensures
      var next := WithEndpoints(cfg, s, input, open, chainEvents);
      PhaseOk(next.0, next.1, keys) && AlertsOk(next.0.tables.alerts, next.0.nextId, keys)
  {
    hide EndpointsEvaluated, OrphanedKeys, ConfiguredKeys, CHAIN_KEYS, Checks;
    var checks := Checks(cfg, input);
    var alerts, id := s.tables.alerts, s.nextId + CHECKS;
    var more := EndpointsEvaluated(cfg.alerts, checks, s.downSince, open, input.endpointsAt, id);
    var configured := ConfiguredKeys(checks);
    var moreKeys := configured + OrphanedKeys(open, configured);
    EndpointsFit(cfg, s.downSince, input, open, alerts, id, s.nextId, keys);
    EndpointKeysKnown(cfg, input, open, alerts, s.nextId, keys);
    BatchConcat(chainEvents, more, alerts, s.nextId, id, id + |checks|, CHAIN_KEYS, moreKeys);
    BatchWeaken(chainEvents + more, alerts, s.nextId, id + |checks|, CHAIN_KEYS + moreKeys, 0, id + |checks|, keys);
    assert (chainEvents + more)[0..] == chainEvents + more;
  }

  /** Applying one event, or failing to, leaves a good table on which the remaining events still fit. */
  lemma AppliedKeeps(alerts: map<nat, Alert>, nextId: nat, keys: set<Key>, input: PollInput, events: seq<AlertEvent>, k: nat)
    requires AlertsOk(alerts, nextId, keys) && k < |events|
    requires Batch(events[k..], alerts, 0, nextId, keys)
    ensures AlertsOk(Applied(alerts, input, events[k], k), nextId, keys)
    ensures Batch(events[k + 1..], Applied(alerts, input, events[k], k), 0, nextId, keys)
  {
    var e, rest, left := events[k], events[k + 1..], events[k..];
    assert left[0] == e && forall i :: 0 <= i < |rest| ==> rest[i] == left[i + 1];
    var alerts' := Applied(alerts, input, e, k);
    assert Fits(e, alerts, 0, nextId) && e.alert.key in keys by { assert e in left; }
    forall i | 0 <= i < |rest| ensures Fits(rest[i], alerts', 0, nextId) && rest[i].alert.key in keys {
      assert left[i + 1] in left;
      assert left[0].alert.key != left[i + 1].alert.key && left[0].alert.id != left[i + 1].alert.id;
    }
  }

  lemma ChainEventsFit(cfg: Config, s: Store, input: PollInput, p: Plan, blocks: seq<Block>, keys: set<Key>)
    requires AlertsOk(s.tables.alerts, s.nextId, keys) && ExactPage(p.open, s.tables.alerts)
    ensures Batch(ChainEvents(cfg, s, input, p, blocks), s.tables.alerts, s.nextId, s.nextId + CHECKS, CHAIN_KEYS)
  {
    hide Evaluated;
    if input.tailReadable && input.statsReadable {
      var end := WindowEnd(p, blocks);
      EvaluatedFits(cfg.alerts, MissWindow.TailWindow(s.tables.blocks, end, cfg.alerts.missThreshold),
                    Stats(s.tables.blocks, MissWindow.WindowStart(end, cfg.signingWindow), end),
                    p.open, p.status, p.tip, input.evaluatedAt, s.nextId, s.tables.alerts, keys);
    }
  }

  lemma AdvanceKeeps(cfg: Config, s: Store, input: PollInput, ph: Phase, keys: set<Key>)
    requires ConfigOk(cfg) && KeysFor(cfg, keys) && |keys| <= ALERT_PAGE
    requires AlertsOk(s.tables.alerts, s.nextId, keys) && PhaseOk(s, ph, keys)
    ensures
      var next := Advance(cfg, s, input, ph);
      AlertsOk(next.0.tables.alerts, next.0.nextId, keys) && PhaseOk(next.0, next.1, keys)
  {
    hide AlertsOk, ExactPage, Batch, UnclosedPage, CollectedBy, WithBlocks, OriginWith, InsertableNow, Ending, Applied, ChainEvents, WithEndpoints, KeysFor, ConfigOk;
    match ph
    case Start => PageIsExact(s.tables.alerts, s.nextId, keys);
    case Judging(p, blocks) =>
      ChainEventsFit(cfg, s, input, p, blocks, keys);
      JudgedFits(cfg, s, input, p.open, ChainEvents(cfg, s, input, p, blocks), keys);
    case JudgingEndpoints(open) =>
      EmptyBatch(s.tables.alerts, s.nextId, CHAIN_KEYS);
      BatchWeaken([], s.tables.alerts, s.nextId, s.nextId, CHAIN_KEYS, s.nextId, s.nextId + CHECKS, CHAIN_KEYS);
      JudgedFits(cfg, s, input, open, [], keys);
    case Applying(events, k) =>
      if k < |events| {
        AppliedKeeps(s.tables.alerts, s.nextId, keys, input, events, k);
      }
    case _ =>
  }

  ghost predicate ConfigsOk(actions: seq<Action>, keys: set<Key>) {
    forall a <- actions :: a.Restart? ==> ConfigOk(a.cfg) && KeysFor(a.cfg, keys)
  }

  lemma StepKeeps(w: World, a: Action, keys: set<Key>)
    requires Inv(w, keys) && |keys| <= ALERT_PAGE
    requires a.Restart? ==> ConfigOk(a.cfg) && KeysFor(a.cfg, keys)
    ensures Inv(Next(w, a), keys)
  {
    if a.Resume? && a.i < |w.polls| {
      var it := w.polls[a.i];
      assert it in w.polls && a.i == 0;
      AdvanceKeeps(w.cfg, w.store, it.input, it.phase, keys);
    }
  }

  lemma {:induction false} RunKeeps(w: World, actions: seq<Action>, keys: set<Key>)
    requires Inv(w, keys) && |keys| <= ALERT_PAGE && ConfigsOk(actions, keys)
    ensures Inv(Run(w, actions), keys)
  {
    if actions != [] {
      RunKeeps(w, actions[..|actions| - 1], keys);
      StepKeeps(Run(w, actions[..|actions| - 1]), actions[|actions| - 1], keys);
    }
  }

  /**
   * In every reachable state at most one alert per type and subject is unclosed: whatever reads and
   * writes fail, and wherever ticks, exceptions and restarts fall. The configurations of the run may
   * name at most 500 subjects between them, so that the open alerts fit the page a poll reads.
   */
  lemma {:induction false} AtMostOneOpen(cfg: Config, actions: seq<Action>, keys: set<Key>, i: nat, j: nat)
    requires ConfigOk(cfg) && KeysFor(cfg, keys) && ConfigsOk(actions, keys) && |keys| <= 500
    requires
      var alerts := Run(Booted(cfg, EMPTY), actions).store.tables.alerts;
      && i in alerts && j in alerts && Unclosed(alerts[i]) && Unclosed(alerts[j])
      && alerts[i].key == alerts[j].key
    ensures i == j
  {
    RunKeeps(Booted(cfg, EMPTY), actions, keys);
  }

  /** The n-th configured endpoint is down, has no open alert, and has been down for the grace period. */
  predicate Due(cfg: AlertConfig, checks: seq<EndpointCheck>, n: nat, since: map<Key, int>, open: seq<Alert>, now: int)
    requires n < |checks|
  {
    var k := EndpointKey(checks[n].endpoint);
    var timers := TimedUpTo(checks, n + 1, since, now);
    && SightOf(checks[n]).Down? && LastOfKey(open, k).None?
    && (now - if k in timers then timers[k] else now) as real >= AlertAfter(cfg)
  }

  lemma EntryOpens(cfg: AlertConfig, checks: seq<EndpointCheck>, n: nat, since: map<Key, int>, open: seq<Alert>, now: int, id: nat)
    requires n < |checks|
    ensures
      var events := EndpointEvents(cfg, checks[n], TimedUpTo(checks, n + 1, since, now), open, now, id + n);
      && (Open(NewAlert(id + n, EndpointKey(checks[n].endpoint), now)) in events <==> Due(cfg, checks, n, since, open, now))
      && (forall e <- events :: e.Open? ==> e.alert.id == id + n)
  {
    hide TimedUpTo, LastOfKey;
  }

  lemma {:induction false} OpensUpToIff(cfg: AlertConfig, checks: seq<EndpointCheck>, m: nat, n: nat, since: map<Key, int>, open: seq<Alert>,
                                        now: int, id: nat)
    requires n < m <= |checks|
    ensures Open(NewAlert(id + n, EndpointKey(checks[n].endpoint), now)) in EventsUpTo(cfg, checks, m, since, open, now, id)
            <==> Due(cfg, checks, n, since, open, now)
  {
    hide Due, TimedUpTo, EndpointEvents;
    EntryOpens(cfg, checks, m - 1, since, open, now, id);
    if n < m - 1 {
      OpensUpToIff(cfg, checks, m - 1, n, since, open, now, id);
    } else {
      OpenIdsBelow(cfg, checks, n, since, open, now, id);
    }
  }

  lemma {:induction false} OpenIdsBelow(cfg: AlertConfig, checks: seq<EndpointCheck>, n: nat, since: map<Key, int>, open: seq<Alert>, now: int, id: nat)
    requires n <= |checks|
    ensures forall e <- EventsUpTo(cfg, checks, n, since, open, now, id) :: e.Open? ==> e.alert.id < id + n
  {
    hide Due, TimedUpTo, EndpointEvents;
    if n > 0 {
      OpenIdsBelow(cfg, checks, n - 1, since, open, now, id);
      EntryOpens(cfg, checks, n - 1, since, open, now, id);
    }
  }

  lemma {:induction false} OrphansOnlyClose(open: seq<Alert>, n: nat, configured: set<Key>, now: int)
    requires n <= |open|
    ensures forall e <- Orphans(open, n, configured, now) :: e.Close?
  {
    hide LastOfKey;
    if n > 0 {
      OrphansOnlyClose(open, n - 1, configured, now);
    }
  }

  /**
   * For any list of endpoints, repeats included: each entry opens an alert of its own if and only if it is
   * down past the grace period with no alert open. So one evaluation opens two alerts about the same key
   * exactly when the list names that key twice with both entries due.
   */
  lemma {:induction false} EachEntryOpensIff(cfg: AlertConfig, checks: seq<EndpointCheck>, n: nat, since: map<Key, int>, open: seq<Alert>, now: int, id: nat)
    requires n < |checks|
    ensures Open(NewAlert(id + n, EndpointKey(checks[n].endpoint), now)) in EndpointsEvaluated(cfg, checks, since, open, now, id)
            <==> Due(cfg, checks, n, since, open, now)
  {
    hide Due, EventsUpTo;
    OpensUpToIff(cfg, checks, |checks|, n, since, open, now, id);
    OrphansOnlyClose(open, |open|, ConfiguredKeys(checks), now);
  }

  /** The same endpoint listed twice opens two alerts at once, which is why the list must be free of repeats. */
  lemma RepeatedEndpointOpensTwice(cfg: AlertConfig, url: string, now: int, id: nat)
    requires cfg.endpointDownAlertAfter == Some(0.0)
    ensures
      var e := EndpointCheck(Endpoint(RpcDown, url, true), Some(false));
      EndpointsEvaluated(cfg, [e, e], map[], [], now, id)
        == [Open(NewAlert(id, Key(RpcDown, Some(url)), now)), Open(NewAlert(id + 1, Key(RpcDown, Some(url)), now))]
  {
    var e := EndpointCheck(Endpoint(RpcDown, url, true), Some(false));
    var k := Key(RpcDown, Some(url));
    var checks := [e, e];
    assert TimedUpTo(checks, 0, map[], now) == map[];
    assert TimedUpTo(checks, 1, map[], now) == map[k := now];
    assert TimedUpTo(checks, 2, map[], now) == map[k := now];
    assert (now - now) as real >= AlertAfter(cfg);
    assert EventsUpTo(cfg, checks, 0, map[], [], now, id) == [];
    assert EventsUpTo(cfg, checks, 1, map[], [], now, id) == [Open(NewAlert(id, k, now))];
  }
}
