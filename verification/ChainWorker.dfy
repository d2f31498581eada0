/** The worker as the program runs it: one poll is straight-line code over the database and the evaluator. */
module ChainWorkers {
  import opened Domain
  import opened Tables
  import opened Attribution
  import opened Evaluator
  import opened MissWindow
  import opened Worker

  // ---- the ingest layer ---------------------------------------------------

  /** Appends, and falls back to inserting. */
  method IngestBlocks(db: ChainDb, batch: seq<Block>, appendOk: bool, insertOk: bool) returns (done: bool)
    modifies db`blocks
    ensures done <==> batch == [] || ((appendOk || insertOk) && Insertable(old(db.blocks), batch))
    ensures db.blocks == if done then WithBlocks(old(db.blocks), batch) else old(db.blocks)
  {
    if |batch| == 0 {
      return true;
    }
    done := db.AppendBlocks(batch, appendOk);
    if !done {
      done := db.InsertBlocks(batch, insertOk);
    }
  }

  /** Inserts an alert unless it is there already: ingesting the same alert again changes nothing. */
  method IngestAlert(db: ChainDb, a: Alert, readOk: bool, ok: bool)
    modifies db`alerts
    ensures db.alerts == if readOk && ok && a.id !in old(db.alerts) then old(db.alerts)[a.id := a] else old(db.alerts)
    ensures a.id in old(db.alerts) ==> db.alerts == old(db.alerts)
  {
    if !readOk {
      return;
    }
    if a.id in db.alerts {
      return;
    }
    var done := db.InsertAlert(a, ok);
  }

  // ---- the worker object --------------------------------------------------

  class ChainWorker {
    const cfg: Config
    const db: ChainDb
    const evaluator: AlertEvaluator
    var polling: bool
    var nextId: nat
    var log: seq<Entry>
    ghost var origin: map<int, Origin>
    ghost var skipped: map<int, CommitAnswer>
    ghost var lastTip: int
    ghost var rounds: seq<Round>

    ghost predicate Valid()
      reads this
    {
      evaluator.cfg == cfg.alerts
    }

    ghost function Memory(): Store
      reads this, db, evaluator
    {
      Store(db.Contents(), evaluator.endpointDownSince, nextId, History(origin, skipped, log, lastTip, rounds))
    }

    constructor (cfg: Config, s: Store)
      ensures Valid() && !polling && Memory() == Booted(cfg, s).store && this.cfg == cfg
      ensures fresh(db) && fresh(evaluator)
    {
      this.cfg := cfg;
      db := new ChainDb(s.tables);
      evaluator := new AlertEvaluator(cfg.alerts);
      polling := false;
      nextId, log := s.nextId, s.history.log;
      origin, skipped, lastTip, rounds := s.history.origin, s.history.skipped, s.history.lastTip, [];
    }

    method RecordInactivity(status: Status, ongoing: Option<Period>, endOk: bool, startOk: bool)
      modifies db`periods
      ensures db.periods == RecordedBy(old(db.periods), status, ongoing, endOk, startOk)
    {
      var sameReason := ongoing.Some? && ongoing.value.jailed == status.jailed && ongoing.value.permanent == status.permanent;
      if status.active || (ongoing.Some? && !sameReason) {
        if ongoing.Some? {
          db.EndInactivity(ongoing.value.height, status.height, status.time, endOk);
        }
      }
      if !status.active && !sameReason {
        db.InsertInactivity(NewPeriod(status), startOk);
      }
    }

    /** Fetches the slice, turns it into blocks and stores them. */
    method IngestSlice(p: Plan, input: PollInput) returns (blocks: seq<Block>)
      modifies this`origin, this`skipped, db`blocks
      ensures blocks == CollectedBy(cfg, p, input).blocks
      ensures Memory() == Ingested(cfg, old(Memory()), input, p)
    {
      var first, last := FirstHeight(p), LastHeight(cfg, p);
      var known := LastKnownActive(p);
      var slice := SliceOf(cfg, p, input);
      blocks := [];
      if first <= last {
        var commits := seq(last - first + 1, i => input.commit(first + i));
        var cache := new FallbackCache(known);
        var left: map<int, CommitAnswer>;
        blocks, left := CollectBlocks(slice, first, commits, cache);
        skipped := skipped + left;
      } else {
        assert CollectedBy(cfg, p, input) == NOTHING;
        assert skipped + map[] == skipped;
      }
      if |blocks| > 0 {
        var done := IngestBlocks(db, blocks, input.appendOk, input.insertOk);
        if done {
          origin := OriginWith(cfg, origin, blocks, input);
        }
      }
    }

    /** One poll of the chain itself; returns the events of its evaluation. */
    method PollChain(input: PollInput, open: seq<Alert>) returns (events: seq<AlertEvent>)
      requires Valid()
      modifies this`origin, this`skipped, this`lastTip, db`blocks, db`periods
      ensures
        var next := WithEndpoints(cfg, Memory(), input, open, events);
        Complete(cfg, old(Memory()), input, Observing(open)) == Complete(cfg, next.0, input, next.1)
    {
      hide Complete, Advance, WithEndpoints, RecordedBy, IngestedBy, CollectedBy;
      events := [];
      ghost var start := Memory();
      ObservingUnfolds(cfg, start, input, open);
      if !input.heightReadable || input.tip.None? {
        return;
      }
      var tip := input.tip.value;
      var dbHeight := Latest(db.blocks);
      var status := StatusAt(cfg.chainType, tip, input.validator, input.signingInfo);
      var ongoing := if input.inactivityReadable then NewestOngoing(db.periods) else None;
      var p := Plan(open, dbHeight, tip, status, input.inactivityReadable, ongoing);
      lastTip := tip.height;
      ghost var seen := Memory();
      if status.Some? && input.inactivityReadable {
        RecordInactivity(status.value, ongoing, input.endOk, input.startOk);
      }
      ghost var recorded := Memory();
      RecordsAsMachine(cfg, seen, input, p);
      var blocks := IngestSlice(p, input);
      IngestsAsMachine(cfg, recorded, input, p);
      ghost var ingested := Memory();
      JudgingUnfolds(cfg, ingested, input, p, blocks);
      if !input.tailReadable || !input.statsReadable {
        return;
      }
      var end := WindowEnd(p, blocks);
      var tail := TailWindow(db.blocks, end, cfg.alerts.missThreshold);
      var stats := Stats(db.blocks, WindowStart(end, cfg.signingWindow), end);
      events := evaluator.Evaluate(tail, stats, open, status, tip, input.evaluatedAt, nextId);
    }

    /** Applies one event to the table and sends its notification. */
    method ApplyEvent(input: PollInput, e: AlertEvent, k: nat)
      modifies this`log, db`alerts
      ensures db.alerts == Applied(old(db.alerts), input, e, k)
      ensures log == old(log) + [Entry(e, input.evaluatedAt)]
    {
      match e {
        case Open(a) => IngestAlert(db, a, input.eventReadOk(k), input.eventOk(k));
        case Repeat(a) => db.TouchAlertNotified(a.id, input.appliedAt(k), a.repeatCount + 1, input.eventOk(k));
        case Close(a, at) => db.CloseAlert(a.id, at, input.eventOk(k));
      }
      log := log + [Entry(e, input.evaluatedAt)];
    }

    /** A whole poll leaves exactly what the state machine, resumed until it is done, leaves. */
    method DoPoll(input: PollInput)
      requires Valid()
      modifies this`nextId, this`log, this`origin, this`skipped, this`lastTip, this`rounds, db, evaluator
      ensures Valid() && Memory() == Complete(cfg, old(Memory()), input, Start)
    {
      hide Complete, Advance, UnclosedPage, EndpointsEvaluated, TimersAfter;
      ghost var start := Memory();
      StartUnfolds(cfg, start, input);
      if !input.alertsReadable {
        return;
      }
      var open := UnclosedPage(db.alerts, nextId);
      var events := PollChain(input, open);
      ghost var polled := Memory();
      var checks := Checks(cfg, input);
      var more := evaluator.EvaluateEndpoints(checks, open, input.endpointsAt, nextId + CHECKS);
      ghost var next := WithEndpoints(cfg, polled, input, open, events);
      events := events + more;
      nextId := nextId + CHECKS + |checks|;
      rounds := rounds + [Round(checks, input.endpointsAt)];
      assert Memory() == next.0 && next.1 == Pending(events, 0);
      for k := 0 to |events|
        invariant Valid()
        invariant Complete(cfg, Memory(), input, Pending(events, k)) == Complete(cfg, start, input, Start)
      {
        AppliesAsMachine(cfg, Memory(), input, events, k);
        ApplyEvent(input, events[k], k);
      }
      OneStep(cfg, Memory(), input, Done);
    }

    /** A timer tick: does nothing while a poll is under way. */
    method Poll(input: PollInput)
      requires Valid()
      modifies this, db, evaluator
      ensures Valid()
      ensures old(polling) ==> Memory() == old(Memory()) && polling
      ensures !old(polling) ==> Memory() == Complete(cfg, old(Memory()), input, Start) && !polling
    {
      if polling {
        return;
      }
      polling := true;
      DoPoll(input);
      polling := false;
    }
  }
}
