/** The alert evaluator: what each check makes of the open alerts and the latest observations. */
module Evaluator {
  import opened Domain
  import opened Tables

  // ---- looking up the open alerts -----------------------------------------

  /** The last open alert of a kind, as a map built from the list would hold it. */
  function LastOfKind(open: seq<Alert>, kind: AlertKind): (r: Option<Alert>)
    ensures r.Some? ==> r.value in open && r.value.key.kind == kind
    ensures r.None? ==> forall a <- open :: a.key.kind != kind
  {
    if open == [] then None
    else
      var last := open[|open| - 1];
      if last.key.kind == kind then Some(last) else LastOfKind(open[..|open| - 1], kind)
  }

  predicate IsEndpointAlert(a: Alert) {
    IsDownKind(a.key.kind) && a.key.subject.Some? && a.key.subject.value != ""
  }

  /** The last open endpoint alert under a key. */
  function LastOfKey(open: seq<Alert>, key: Key): (r: Option<Alert>)
    ensures r.Some? ==> r.value in open && r.value.key == key && IsEndpointAlert(r.value)
    ensures r.None? ==> forall a <- open :: IsEndpointAlert(a) ==> a.key != key
  {
    if open == [] then None
    else
      var last := open[|open| - 1];
      if IsEndpointAlert(last) && last.key == key then Some(last) else LastOfKey(open[..|open| - 1], key)
  }

  // ---- chain and validator checks -----------------------------------------

  /** Opens or closes the one alert of a kind that has no repeats. */
  function Toggle(kind: AlertKind, wanted: bool, open: seq<Alert>, now: int, id: nat): seq<AlertEvent> {
    var existing := LastOfKind(open, kind);
    if wanted && existing.None? then [Open(NewAlert(id, Key(kind, None), now))]
    else if !wanted && existing.Some? then [Close(existing.value, now)]
    else []
  }

  function CheckStalled(cfg: AlertConfig, tip: Tip, open: seq<Alert>, now: int, id: nat): seq<AlertEvent> {
    if !cfg.stalledEnabled then []
    else Toggle(Stalled, (now - tip.time) as real > cfg.stalledThreshold * 1000.0, open, now, id)
  }

  /** How many blocks at the end of the list the validator missed. */
  function TrailingMisses(blocks: seq<Block>): (n: nat)
    ensures n <= |blocks|
  {
    if blocks == [] || blocks[|blocks| - 1].signed != 0 then 0 else 1 + TrailingMisses(blocks[..|blocks| - 1])
  }

  /** `s.slice(-n)` of the source. */
  function SliceLast<T>(s: seq<T>, n: int): seq<T> {
    if n > 0 then (if n >= |s| then s else s[|s| - n..])
    else if -n >= |s| then [] else s[-n..]
  }

  function LastNotified(a: Alert): int { a.lastNotifiedAt.GetOr(a.openedAt) }

  predicate MissRepeatDue(cfg: AlertConfig, a: Alert, now: int) {
    (now - LastNotified(a)) as real / 1000.0 >= cfg.missRepeatInterval
  }

  function CheckConsecutiveMiss(cfg: AlertConfig, recent: seq<Block>, open: seq<Alert>, now: int, id: nat): seq<AlertEvent> {
    if !cfg.missEnabled then []
    else
      var existing := LastOfKind(open, ConsecutiveMiss);
      if TrailingMisses(recent) >= cfg.missThreshold && existing.Some? then
        if cfg.missRepeat && MissRepeatDue(cfg, existing.value, now) then [Repeat(existing.value)] else []
      else Toggle(ConsecutiveMiss, TrailingMisses(recent) >= cfg.missThreshold, open, now, id)
  }

  function Ratio(stats: WindowStats): real
    requires stats.total > 0
  {
    stats.missed as real / stats.total as real * 100.0
  }

  /** 1.5 to the power n. */
  function Escalation(n: nat): (r: real)
    ensures r >= 1.0
  {
    if n == 0 then 1.0 else 1.5 * Escalation(n - 1)
  }

  predicate PercentRepeatDue(cfg: AlertConfig, a: Alert, stats: WindowStats) {
    stats.total > 0 && Ratio(stats) >= cfg.percentThreshold * Escalation(a.repeatCount + 1)
  }

  function CheckPercentageMiss(cfg: AlertConfig, stats: WindowStats, open: seq<Alert>, now: int, id: nat): seq<AlertEvent> {
    if !cfg.percentEnabled || stats.total == 0 then []
    else
      var existing := LastOfKind(open, PercentageMiss);
      if Ratio(stats) >= cfg.percentThreshold && existing.Some? then
        if cfg.percentRepeat && PercentRepeatDue(cfg, existing.value, stats) then [Repeat(existing.value)] else []
      else Toggle(PercentageMiss, Ratio(stats) >= cfg.percentThreshold, open, now, id)
  }

  const STATUS_KINDS: seq<AlertKind> := [Inactive, Jailed, Tombstoned]

  /** Why a validator with these flags is out of the active set. */
  function Reason(jailed: bool, permanent: bool): AlertKind {
    if permanent then Tombstoned else if jailed then Jailed else Inactive
  }

  function WantedKind(status: Status): Option<AlertKind> {
    if status.active then None else Some(Reason(status.jailed, status.permanent))
  }

  function StatusCloses(kinds: seq<AlertKind>, wanted: Option<AlertKind>, open: seq<Alert>, now: int): seq<AlertEvent> {
    if kinds == [] then []
    else
      var kind := kinds[|kinds| - 1];
      StatusCloses(kinds[..|kinds| - 1], wanted, open, now)
      + if LastOfKind(open, kind).Some? && Some(kind) != wanted then [Close(LastOfKind(open, kind).value, now)] else []
  }

  function CheckValidatorStatus(cfg: AlertConfig, status: Option<Status>, open: seq<Alert>, now: int, id: nat): seq<AlertEvent> {
    if !cfg.alertIfInactive || status.None? then []
    else
      var wanted := WantedKind(status.value);
      StatusCloses(STATUS_KINDS, wanted, open, now)
      + if wanted.Some? && LastOfKind(open, wanted.value).None? then [Open(NewAlert(id, Key(wanted.value, None), now))] else []
  }

  /** All four checks; each has an id of its own to open an alert under. */
  function Evaluated(cfg: AlertConfig, tail: seq<Block>, stats: WindowStats, open: seq<Alert>,
                     status: Option<Status>, tip: Tip, now: int, id: nat): seq<AlertEvent>
  {
    CheckStalled(cfg, tip, open, now, id)
    + CheckConsecutiveMiss(cfg, SliceLast(tail, cfg.missThreshold), open, now, id + 1)
    + CheckPercentageMiss(cfg, stats, open, now, id + 2)
    + CheckValidatorStatus(cfg, status, open, now, id + 3)
  }

  const CHECKS := 4

  // ---- endpoints ----------------------------------------------------------

  /** One configured endpoint with its last known health, absent while it was never checked. */
  datatype EndpointCheck = EndpointCheck(endpoint: Endpoint, healthy: Option<bool>)

  datatype Sight = Unseen | Up | Down

  function SightOf(c: EndpointCheck): Sight {
    if c.endpoint.alertIfDown && c.healthy.None? then Unseen
    else if c.endpoint.alertIfDown && c.healthy == Some(false) then Down
    else Up
  }

  const DEFAULT_ENDPOINT_DOWN_ALERT_AFTER := 180.0

  function AlertAfter(cfg: AlertConfig): real {
    cfg.endpointDownAlertAfter.GetOr(DEFAULT_ENDPOINT_DOWN_ALERT_AFTER) * 1000.0
  }

  function Timed(c: EndpointCheck, since: map<Key, int>, now: int): map<Key, int> {
    var k := EndpointKey(c.endpoint);
    match SightOf(c)
    case Unseen => since
    case Up => since - {k}
    case Down => if k in since then since else since[k := now]
  }

  /** `since` is the timer map after this check was timed. */
  function EndpointEvents(cfg: AlertConfig, c: EndpointCheck, since: map<Key, int>, open: seq<Alert>, now: int, id: nat): seq<AlertEvent> {
    var k := EndpointKey(c.endpoint);
    var existing := LastOfKey(open, k);
    match SightOf(c)
    case Unseen => []
    case Up => if existing.Some? then [Close(existing.value, now)] else []
    case Down =>
      if existing.None? && (now - if k in since then since[k] else now) as real >= AlertAfter(cfg)
      then [Open(NewAlert(id, k, now))] else []
  }

  /** Timers after the first n checks. */
  function TimedUpTo(checks: seq<EndpointCheck>, n: nat, since: map<Key, int>, now: int): map<Key, int>
    requires n <= |checks|
  {
    if n == 0 then since else Timed(checks[n - 1], TimedUpTo(checks, n - 1, since, now), now)
  }

  /** Events of the first n checks. */
  function EventsUpTo(cfg: AlertConfig, checks: seq<EndpointCheck>, n: nat, since: map<Key, int>, open: seq<Alert>, now: int, id: nat): seq<AlertEvent>
    requires n <= |checks|
  {
    if n == 0 then []
    else EventsUpTo(cfg, checks, n - 1, since, open, now, id)
         + EndpointEvents(cfg, checks[n - 1], TimedUpTo(checks, n, since, now), open, now, id + n - 1)
  }

  function ConfiguredKeys(checks: seq<EndpointCheck>): set<Key> {
    set c | c in checks :: EndpointKey(c.endpoint)
  }

  /** Closes the endpoint alerts nothing is configured for, in the order their keys first occur. */
  function Orphans(open: seq<Alert>, n: nat, configured: set<Key>, now: int): seq<AlertEvent>
    requires n <= |open|
  {
    if n == 0 then []
    else
      var a := open[n - 1];
      Orphans(open, n - 1, configured, now)
      + if IsEndpointAlert(a) && LastOfKey(open[..n - 1], a.key).None? && a.key !in configured
        then [Close(LastOfKey(open, a.key).GetOr(a), now)] else []
  }

  function EndpointsEvaluated(cfg: AlertConfig, checks: seq<EndpointCheck>, since: map<Key, int>, open: seq<Alert>, now: int, id: nat): seq<AlertEvent> {
    EventsUpTo(cfg, checks, |checks|, since, open, now, id) + Orphans(open, |open|, ConfiguredKeys(checks), now)
  }

  function TimersAfter(checks: seq<EndpointCheck>, since: map<Key, int>, now: int): map<Key, int> {
    var timed := TimedUpTo(checks, |checks|, since, now);
    map k | k in timed && k in ConfiguredKeys(checks) :: timed[k]
  }

  /** One call of evaluateEndpoints. */
  datatype Round = Round(checks: seq<EndpointCheck>, now: int)

  // ---- the evaluator object -----------------------------------------------

  class AlertEvaluator {
    const cfg: AlertConfig
    var endpointDownSince: map<Key, int>

    constructor (cfg: AlertConfig)
      ensures this.cfg == cfg && endpointDownSince == map[]
    {
      this.cfg := cfg;
      endpointDownSince := map[];
    }

    method CheckMisses(recent: seq<Block>, open: seq<Alert>, now: int, id: nat) returns (events: seq<AlertEvent>)
      ensures events == CheckConsecutiveMiss(cfg, recent, open, now, id)
    {
      if !cfg.missEnabled {
        return [];
      }
      var existing := LastOfKind(open, ConsecutiveMiss);
      var missed := 0;
      var i := |recent| - 1;
      assert recent[..i + 1] == recent;
      while i >= 0
        invariant -1 <= i < |recent|
        invariant TrailingMisses(recent) == missed + TrailingMisses(recent[..i + 1])
      {
        assert recent[..i + 1][..i] == recent[..i];
        if recent[i].signed == 0 {
          missed := missed + 1;
        } else {
          break;
        }
        i := i - 1;
      }
      var breached := missed >= cfg.missThreshold;
      if breached && existing.None? {
        return [Open(NewAlert(id, Key(ConsecutiveMiss, None), now))];
      }
      if breached && existing.Some? {
        if !cfg.missRepeat {
          return [];
        }
        var elapsed := (now - LastNotified(existing.value)) as real / 1000.0;
        if elapsed >= cfg.missRepeatInterval {
          return [Repeat(existing.value)];
        }
        return [];
      }
      if !breached && existing.Some? {
        return [Close(existing.value, now)];
      }
      return [];
    }

    method CheckStatus(status: Option<Status>, open: seq<Alert>, now: int, id: nat) returns (events: seq<AlertEvent>)
      ensures events == CheckValidatorStatus(cfg, status, open, now, id)
    {
      events := [];
      if !cfg.alertIfInactive || status.None? {
        return;
      }
      var wanted := WantedKind(status.value);
      for i := 0 to |STATUS_KINDS|
        invariant events == StatusCloses(STATUS_KINDS[..i], wanted, open, now)
      {
        var kind := STATUS_KINDS[i];
        var existing := LastOfKind(open, kind);
        assert STATUS_KINDS[..i + 1][..i] == STATUS_KINDS[..i];
        if existing.Some? && Some(kind) != wanted {
          events := events + [Close(existing.value, now)];
        }
      }
      assert STATUS_KINDS[..|STATUS_KINDS|] == STATUS_KINDS;
      if wanted.Some? && LastOfKind(open, wanted.value).None? {
        events := events + [Open(NewAlert(id, Key(wanted.value, None), now))];
      }
    }

    method Evaluate(tail: seq<Block>, stats: WindowStats, open: seq<Alert>, status: Option<Status>, tip: Tip, now: int, id: nat)
      returns (events: seq<AlertEvent>)
      ensures events == Evaluated(cfg, tail, stats, open, status, tip, now, id)
    {
      var stalled := CheckStalled(cfg, tip, open, now, id);
      var misses := CheckMisses(SliceLast(tail, cfg.missThreshold), open, now, id + 1);
      var percentage := CheckPercentageMiss(cfg, stats, open, now, id + 2);
      var state := CheckStatus(status, open, now, id + 3);
      events := stalled + misses + percentage + state;
    }

    method EvaluateEndpoints(checks: seq<EndpointCheck>, open: seq<Alert>, now: int, id: nat) returns (events: seq<AlertEvent>)
      modifies this
      ensures events == EndpointsEvaluated(cfg, checks, old(endpointDownSince), open, now, id)
      ensures endpointDownSince == TimersAfter(checks, old(endpointDownSince), now)
    {
      hide Timed, EndpointEvents, LastOfKey;
      events := [];
      var configured: set<Key> := {};
      for n := 0 to |checks|
        invariant configured == ConfiguredKeys(checks[..n])
        invariant endpointDownSince == TimedUpTo(checks, n, old(endpointDownSince), now)
        invariant events == EventsUpTo(cfg, checks, n, old(endpointDownSince), open, now, id)
      {
        configured := configured + {EndpointKey(checks[n].endpoint)};
        assert checks[..n + 1] == checks[..n] + [checks[n]];
        var more := EvaluateEndpoint(checks[n], open, now, id + n);
        events := events + more;
      }
      assert checks[..|checks|] == checks;
      var closes := CloseOrphans(open, configured, now);
      events := events + closes;
      endpointDownSince := map k | k in endpointDownSince && k in configured :: endpointDownSince[k];
    }

    /** One configured endpoint: its timer starts, goes on or stops, and its alert opens or closes. */
    method EvaluateEndpoint(c: EndpointCheck, open: seq<Alert>, now: int, id: nat) returns (events: seq<AlertEvent>)
      modifies this
      ensures endpointDownSince == Timed(c, old(endpointDownSince), now)
      ensures events == EndpointEvents(cfg, c, endpointDownSince, open, now, id)
    {
      events := [];
      var k := EndpointKey(c.endpoint);
      if c.endpoint.alertIfDown && c.healthy.None? {
        return;
      }
      var existing := LastOfKey(open, k);
      var down := c.endpoint.alertIfDown && c.healthy == Some(false);
      if !down {
        endpointDownSince := endpointDownSince - {k};
      } else if k !in endpointDownSince {
        endpointDownSince := endpointDownSince[k := now];
      }
      var downFor := now - if k in endpointDownSince then endpointDownSince[k] else now;
      if down && existing.None? && downFor as real >= AlertAfter(cfg) {
        events := [Open(NewAlert(id, k, now))];
      } else if !down && existing.Some? {
        events := [Close(existing.value, now)];
      }
    }
  }

  /** Closes the alerts of endpoints removed from the configuration. */
  method CloseOrphans(open: seq<Alert>, configured: set<Key>, now: int) returns (events: seq<AlertEvent>)
    ensures events == Orphans(open, |open|, configured, now)
  {
    hide LastOfKey;
    events := [];
    for n := 0 to |open|
      invariant events == Orphans(open, n, configured, now)
    {
      var a := open[n];
      if IsEndpointAlert(a) && LastOfKey(open[..n], a.key).None? && a.key !in configured {
        events := events + [Close(LastOfKey(open, a.key).GetOr(a), now)];
      }
    }
  }
}
