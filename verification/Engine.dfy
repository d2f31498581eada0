/** The engine's request protocol: ids matched to their answers, and read-only connections. */
module Engine {
  import opened Domain
  import opened Tables

  // ---- the engine's database, all chains in one ---------------------------

  /** Blocks and periods are keyed by chain first; alert ids are unique across chains, `owner` says whose they are. */
  datatype EngineDb = EngineDb(
    blocks: map<string, map<int, Block>>, alerts: map<nat, Alert>, owner: map<nat, string>,
    periods: map<string, map<int, Period>>)

  function RowsOf<T>(table: map<string, map<int, T>>, chain: string): map<int, T> {
    if chain in table then table[chain] else map[]
  }

  datatype ReadKind =
    | LatestBlock | LatestBlockHeight | GetAlert | GetUnclosedAlerts | GetOpenInactivity | GetInactivityHistory
    | GetBlockByHeight | GetBlockByRange | GetBlockStats | GetChainSignedPercentage | GetDailySignedStats
    | GetOverviewDailyStats | GetOverviewLatestBlocks

  datatype Body =
    | AppendBlocks(chain: string, batch: seq<Block>)
    | InsertBlocks(chain: string, batch: seq<Block>)
    | InsertAlert(chain: string, alert: Alert)
    | CloseAlert(chain: string, id: nat, at: int)
    | TouchAlertNotified(chain: string, id: nat, at: int, count: nat)
    | InsertInactivity(chain: string, period: Period)
    | EndInactivity(chain: string, start: int, end: int, time: int)
    | Read(kind: ReadKind, about: string)

  function TypeName(b: Body): string {
    match b
    case AppendBlocks(_, _) => "appendBlocks"
    case InsertBlocks(_, _) => "insertBlocks"
    case InsertAlert(_, _) => "insertAlert"
    case CloseAlert(_, _, _) => "closeAlert"
    case TouchAlertNotified(_, _, _, _) => "touchAlertNotified"
    case InsertInactivity(_, _) => "insertInactivity"
    case EndInactivity(_, _, _, _) => "endInactivity"
    case Read(kind, _) => ReadName(kind)
  }

  function ReadName(kind: ReadKind): string {
    match kind
    case LatestBlock => "latestBlock"
    case LatestBlockHeight => "latestBlockHeight"
    case GetAlert => "getAlert"
    case GetUnclosedAlerts => "getUnclosedAlerts"
    case GetOpenInactivity => "getOpenInactivity"
    case GetInactivityHistory => "getInactivityHistory"
    case GetBlockByHeight => "getBlockByHeight"
    case GetBlockByRange => "getBlockByRange"
    case GetBlockStats => "getBlockStats"
    case GetChainSignedPercentage => "getChainSignedPercentage"
    case GetDailySignedStats => "getDailySignedStats"
    case GetOverviewDailyStats => "getOverviewDailyStats"
    case GetOverviewLatestBlocks => "getOverviewLatestBlocks"
  }

  const WRITE_REQUEST_TYPES: set<string> :=
    {"appendBlocks", "insertBlocks", "insertAlert", "closeAlert", "touchAlertNotified", "insertInactivity", "endInactivity"}

  /** The chain a request names; the two overview requests name none. */
  function ChainOf(b: Body): Option<string> {
    if b.Read? then (if b.kind.GetOverviewDailyStats? || b.kind.GetOverviewLatestBlocks? then None else Some(b.about))
    else Some(b.chain)
  }

  /** Whether a handler succeeds; `ok` says whether the database carries the statement out. */
  function Succeeds(db: EngineDb, b: Body, ok: bool): bool {
    && ok
    && ((b.AppendBlocks? || b.InsertBlocks?) ==> InsertableNow(RowsOf(db.blocks, b.chain), b.batch))
    && (b.InsertAlert? ==> b.alert.id !in db.alerts)
  }

  /** What a handler does to the database. */
  function Handled(db: EngineDb, b: Body, ok: bool): EngineDb {
    if !Succeeds(db, b, ok) then db
    else match b
      case AppendBlocks(chain, batch) => db.(blocks := db.blocks[chain := WithBlocks(RowsOf(db.blocks, chain), batch)])
      case InsertBlocks(chain, batch) => db.(blocks := db.blocks[chain := WithBlocks(RowsOf(db.blocks, chain), batch)])
      case InsertAlert(chain, a) => db.(alerts := db.alerts[a.id := a], owner := db.owner[a.id := chain])
      case CloseAlert(_, id, at) => db.(alerts := Closing(db.alerts, id, at))
      case TouchAlertNotified(_, id, at, count) => db.(alerts := Touching(db.alerts, id, at, count))
      case InsertInactivity(chain, p) => db.(periods := db.periods[chain := RowsOf(db.periods, chain)[p.height := p]])
      case EndInactivity(chain, start, end, time) =>
        db.(periods := db.periods[chain := Ending(RowsOf(db.periods, chain), start, end, time)])
      case Read(_, _) => db
  }

  /** Whatever changes the database is on the list of requests a reader is refused. */
  lemma WritersAreListed(db: EngineDb, b: Body, ok: bool)
    ensures Handled(db, b, ok) != db ==> TypeName(b) in WRITE_REQUEST_TYPES
    ensures b.Read? ==> TypeName(b) !in WRITE_REQUEST_TYPES
  {
    if b.Read? {
      assert TypeName(b)[0] == 'g' || TypeName(b)[0] == 'l';
      assert forall t <- WRITE_REQUEST_TYPES :: t[0] == 'a' || t[0] == 'i' || t[0] == 'c' || t[0] == 't' || t[0] == 'e';
    }
  }

  // ---- the server's side of a connection ----------------------------------

  datatype Role = Reader | Writer

  datatype Line = Hello(role: Role) | Request(id: nat, body: Body)

  /** `about` is the request a response was made for; the wire carries only its id. */
  datatype Response = Response(id: nat, about: Body, ok: bool)

  /** What the server does with a line at once: switch roles, refuse, or start to serve it. */
  datatype Admission = Switched(role: Role) | Refused(response: Response) | Served(id: nat, body: Body)

  function Admit(role: Option<Role>, line: Line): Admission {
    match line
    case Hello(r) => Switched(r)
    case Request(id, body) =>
      if role.None? then Refused(Response(id, body, false))
      else if role == Some(Reader) && TypeName(body) in WRITE_REQUEST_TYPES then Refused(Response(id, body, false))
      else Served(id, body)
  }

  /** A request for a chain the engine does not know is answered with an error and touches nothing. */
  function Dispatched(db: EngineDb, known: set<string>, id: nat, body: Body, ok: bool): (EngineDb, Response) {
    if ChainOf(body).Some? && ChainOf(body).value !in known then (db, Response(id, body, false))
    else (Handled(db, body, ok), Response(id, body, Succeeds(db, body, ok)))
  }

  class ServerConnection {
    var role: Option<Role>

    constructor ()
      ensures role == None
    {
      role := None;
    }

    method HandleLine(line: Line) returns (a: Admission)
      modifies this
      ensures a == Admit(old(role), line)
      ensures role == if line.Hello? then Some(line.role) else old(role)
    {
      if line.Hello? {
        role := Some(line.role);
        return Switched(line.role);
      }
      if role.None? {
        return Refused(Response(line.id, line.body, false));
      }
      if role == Some(Reader) && TypeName(line.body) in WRITE_REQUEST_TYPES {
        return Refused(Response(line.id, line.body, false));
      }
      return Served(line.id, line.body);
    }
  }

  // ---- both sides, under any interleaving ---------------------------------

  /**
   * One connection: lines on their way to the server, requests it is serving (answered in any order),
   * responses on their way back; and for the statements, what was issued and what each promise got.
   */
  datatype Link = Link(
    nextId: nat, pending: map<nat, Body>,
    toServer: seq<Line>, role: Option<Role>, serving: map<nat, Body>, toClient: seq<Response>,
    db: EngineDb, others: EngineDb,
    issued: map<nat, Body>, resolved: map<nat, Response>)

  datatype Event =
    | Issue(body: Body)
    | Greet(role: Role)
    | Arrive
    | Finish(id: nat, ok: bool)
    | Deliver
    | OthersWrite(db: EngineDb)

  function Connected(db: EngineDb): Link {
    Link(1, map[], [], None, map[], [], db, db, map[], map[])
  }

  function Next(l: Link, known: set<string>, e: Event): Link {
    match e
    case Issue(body) =>
      l.(nextId := l.nextId + 1, pending := l.pending[l.nextId := body],
         toServer := l.toServer + [Request(l.nextId, body)], issued := l.issued[l.nextId := body])
    case Greet(role) => l.(toServer := l.toServer + [Hello(role)])
    case Arrive =>
      if l.toServer == [] then l
      else
        var rest := l.(toServer := l.toServer[1..]);
        (match Admit(l.role, l.toServer[0])
         case Switched(role) => rest.(role := Some(role))
         case Refused(response) => rest.(toClient := l.toClient + [response])
         case Served(id, body) => rest.(serving := l.serving[id := body]))
    case Finish(id, ok) =>
      if id !in l.serving then l
      else
        var (db, response) := Dispatched(l.db, known, id, l.serving[id], ok);
        l.(db := db,
           serving := l.serving - {id}, toClient := l.toClient + [response])
    case Deliver =>
      if l.toClient == [] then l
      else
        var r := l.toClient[0];
        var rest := l.(toClient := l.toClient[1..]);
        if r.id in l.pending then rest.(pending := l.pending - {r.id}, resolved := l.resolved[r.id := r]) else rest
    case OthersWrite(db) => l.(db := db, others := db)
  }

  function Run(l: Link, known: set<string>, es: seq<Event>): Link {
    if es == [] then l else Next(Run(l, known, es[..|es| - 1]), known, es[|es| - 1])
  }

  /** Every message in flight, and every promise kept, carries an id together with the request issued under it. */
  ghost predicate Matched(l: Link) {
    && (forall id <- l.issued :: id < l.nextId)
    && l.pending.Keys == l.issued.Keys - l.resolved.Keys
    && l.resolved.Keys <= l.issued.Keys
    && (forall id <- l.pending :: l.pending[id] == l.issued[id])
    && (forall x <- l.toServer :: x.Request? ==> x.id in l.issued && l.issued[x.id] == x.body)
    && (forall id <- l.serving :: id in l.issued && l.issued[id] == l.serving[id])
    && (forall r <- l.toClient :: r.id in l.issued && l.issued[r.id] == r.about)
    && (forall id <- l.resolved :: l.resolved[id].id == id && l.resolved[id].about == l.issued[id])
  }

  /** `pending` maps an id to the request whose promise waits for it. */
  class EngineConnection {
    var nextId: nat
    var pending: map<nat, Body>

    /** This object is the client end of the link. */
    ghost predicate ClientOf(l: Link)
      reads this
    {
      nextId == l.nextId && pending == l.pending
    }

    constructor ()
      ensures forall db :: ClientOf(Connected(db))
    {
      nextId, pending := 1, map[];
    }

    /** Issues a request: the link gets the line to carry, under an id no request had before. */
    method Request(body: Body, ghost l: Link, ghost known: set<string>) returns (line: Line)
      requires ClientOf(l) && Matched(l)
      modifies this
      ensures ClientOf(Next(l, known, Issue(body)))
      ensures Next(l, known, Issue(body)).toServer == l.toServer + [line]
      ensures line.Request? && line.body == body && line.id !in l.issued
    {
      var id := nextId;
      nextId := nextId + 1;
      pending := pending[id := body];
      line := Line.Request(id, body);
    }

    /** Takes the next response off the link: the promise it resolves, if any, is that of the very request it was made for. */
    method OnResponse(r: Response, ghost l: Link, ghost known: set<string>) returns (resolved: Option<Body>)
      requires ClientOf(l) && Matched(l) && l.toClient != [] && r == l.toClient[0]
      modifies this`pending
      ensures ClientOf(Next(l, known, Deliver))
      ensures Next(l, known, Deliver).resolved == if resolved.Some? then l.resolved[r.id := r] else l.resolved
      ensures resolved.Some? <==> r.id !in l.resolved
      ensures resolved.Some? ==> resolved.value == r.about == l.issued[r.id]
    {
      assert r in l.toClient;
      if r.id in pending {
        resolved := Some(pending[r.id]);
        pending := pending - {r.id};
      } else {
        resolved := None;
      }
    }
  }

  lemma MatchedArrive(l: Link, known: set<string>)
    requires Matched(l)
    ensures Matched(Next(l, known, Arrive))
  {
    hide TypeName;
    if l.toServer != [] {
      assert l.toServer[0] in l.toServer;
    }
  }

  lemma MatchedFinish(l: Link, known: set<string>, id: nat, ok: bool)
    requires Matched(l)
    ensures Matched(Next(l, known, Finish(id, ok)))
  {
    hide Handled, Succeeds, ChainOf;
  }

  lemma MatchedStep(l: Link, known: set<string>, e: Event)
    requires Matched(l)
    ensures Matched(Next(l, known, e))
  {
    hide Admit, Dispatched;
    match e
    case Arrive => MatchedArrive(l, known);
    case Finish(id, ok) => MatchedFinish(l, known, id, ok);
    case Deliver =>
      if l.toClient != [] {
        assert l.toClient[0] in l.toClient;
      }
    case _ =>
  }

  lemma PromisesKeptStep(l: Link, known: set<string>, e: Event)
    requires Matched(l)
    ensures forall id <- l.resolved :: id in Next(l, known, e).resolved && Next(l, known, e).resolved[id] == l.resolved[id]
    ensures forall id <- l.issued :: id in Next(l, known, e).issued && Next(l, known, e).issued[id] == l.issued[id]
  {
    hide Handled, ChainOf, TypeName;
  }

  lemma {:induction false} MatchedRun(l: Link, known: set<string>, es: seq<Event>)
    requires Matched(l)
    ensures Matched(Run(l, known, es))
    ensures forall id <- l.resolved :: id in Run(l, known, es).resolved && Run(l, known, es).resolved[id] == l.resolved[id]
  {
    if es != [] {
      MatchedRun(l, known, es[..|es| - 1]);
      MatchedStep(Run(l, known, es[..|es| - 1]), known, es[|es| - 1]);
      PromisesKeptStep(Run(l, known, es[..|es| - 1]), known, es[|es| - 1]);
    }
  }

  /**
   * For any interleaving of requests, hellos and answers in any order, a resolved promise got the
   * response made for its own request, and `pending` is exactly the ids issued but not answered yet.
   */
  lemma {:induction false} ResponsesMatchRequests(db: EngineDb, known: set<string>, es: seq<Event>)
    ensures
      var l := Run(Connected(db), known, es);
      && l.pending.Keys == l.issued.Keys - l.resolved.Keys
      && (forall id <- l.resolved :: id in l.issued && l.resolved[id].about == l.issued[id])
  {
    MatchedRun(Connected(db), known, es);
  }

  /** No promise is resolved a second time: what it got in any reachable state it keeps. */
  lemma {:induction false} ResolvedOnce(db: EngineDb, known: set<string>, xs: seq<Event>, ys: seq<Event>, id: nat)
    requires id in Run(Connected(db), known, xs).resolved
    ensures
      var l := Run(Run(Connected(db), known, xs), known, ys);
      id in l.resolved && l.resolved[id] == Run(Connected(db), known, xs).resolved[id] && id !in l.pending
  {
    MatchedRun(Connected(db), known, xs);
    MatchedRun(Run(Connected(db), known, xs), known, ys);
  }

  /** Where a request that is not answered yet can be. */
  ghost predicate Underway(l: Link, id: nat) {
    || (exists x :: x in l.toServer && x.Request? && x.id == id)
    || id in l.serving
    || (exists r :: r in l.toClient && r.id == id)
  }

  ghost predicate NothingLost(l: Link) {
    forall id <- l.pending :: Underway(l, id)
  }

  lemma NothingLostArrive(l: Link, known: set<string>)
    requires NothingLost(l)
    ensures NothingLost(Next(l, known, Arrive))
  {
    hide TypeName;
  }

  lemma NothingLostStep(l: Link, known: set<string>, e: Event)
    requires NothingLost(l)
    ensures NothingLost(Next(l, known, e))
  {
    hide Admit, Handled, Succeeds, ChainOf;
    if e.Arrive? {
      NothingLostArrive(l, known);
    }
  }

  /** A request waits only while it, or its response, is still underway: a quiet connection has answered everything. */
  lemma {:induction false} QuietMeansAnswered(db: EngineDb, known: set<string>, es: seq<Event>)
    ensures
      var l := Run(Connected(db), known, es);
      && NothingLost(l)
      && (l.toServer == [] && l.serving == map[] && l.toClient == [] ==> l.pending == map[])
  {
    if es != [] {
      QuietMeansAnswered(db, known, es[..|es| - 1]);
      NothingLostStep(Run(Connected(db), known, es[..|es| - 1]), known, es[|es| - 1]);
    }
    var l := Run(Connected(db), known, es);
    if l.toServer == [] && l.serving == map[] && l.toClient == [] {
      assert forall id <- l.pending :: Underway(l, id);
    }
  }

  ghost predicate OnlyReads(l: Link) {
    && l.role != Some(Writer)
    && (forall x <- l.toServer :: x.Hello? ==> x.role == Reader)
    && (forall id <- l.serving :: TypeName(l.serving[id]) !in WRITE_REQUEST_TYPES)
    && l.db == l.others
  }

  lemma ReaderArrive(l: Link, known: set<string>)
    requires OnlyReads(l)
    ensures OnlyReads(Next(l, known, Arrive))
  {
    hide TypeName;
    if l.toServer != [] {
      var line := l.toServer[0];
      assert line in l.toServer;
      forall x <- l.toServer[1..] ensures x in l.toServer {
      }
      if line.Request? && Admit(l.role, line).Served? {
        assert l.role.Some? && (l.role.value == Reader || l.role.value == Writer);
        assert l.role == Some(Reader);
        assert TypeName(line.body) !in WRITE_REQUEST_TYPES;
      }
    }
  }

  lemma ReaderFinish(l: Link, known: set<string>, id: nat, ok: bool)
    requires OnlyReads(l)
    ensures OnlyReads(Next(l, known, Finish(id, ok)))
  {
    hide TypeName;
    if id in l.serving {
      WritersAreListed(l.db, l.serving[id], ok);
    }
  }

  lemma ReaderStep(l: Link, known: set<string>, e: Event)
    requires OnlyReads(l) && (e.Greet? ==> e.role == Reader)
    ensures OnlyReads(Next(l, known, e))
  {
    hide TypeName;
    match e
    case Arrive => ReaderArrive(l, known);
    case Finish(id, ok) => ReaderFinish(l, known, id, ok);
    case _ =>
  }

  /** A connection that only ever says hello as a reader never changes the tables: they are what the others left. */
  lemma {:induction false} ReadersChangeNothing(db: EngineDb, known: set<string>, es: seq<Event>)
    requires forall e <- es :: e.Greet? ==> e.role == Reader
    ensures OnlyReads(Run(Connected(db), known, es))
    ensures Run(Connected(db), known, es).db == Run(Connected(db), known, es).others
  {
    if es != [] {
      ReadersChangeNothing(db, known, es[..|es| - 1]);
      ReaderStep(Run(Connected(db), known, es[..|es| - 1]), known, es[|es| - 1]);
    }
  }

  lemma RunSnoc(l: Link, known: set<string>, es: seq<Event>, e: Event)
    ensures Run(l, known, es + [e]) == Next(Run(l, known, es), known, e)
  {
    hide Next;
    assert (es + [e])[..|es|] == es;
  }

  /** The role of the last hello that has arrived. */
  function LastHello(db: EngineDb, known: set<string>, es: seq<Event>): Option<Role> {
    if es == [] then None
    else
      var before := es[..|es| - 1];
      var lines := Run(Connected(db), known, before).toServer;
      if es[|es| - 1].Arrive? && lines != [] && lines[0].Hello? then Some(lines[0].role) else LastHello(db, known, before)
  }

  lemma RoleStep(l: Link, known: set<string>, e: Event)
    ensures Next(l, known, e).role == if e.Arrive? && l.toServer != [] && l.toServer[0].Hello? then Some(l.toServer[0].role) else l.role
  {
    hide TypeName, Handled, Succeeds;
  }

  lemma {:induction false} RoleIsLastHello(db: EngineDb, known: set<string>, es: seq<Event>)
    ensures Run(Connected(db), known, es).role == LastHello(db, known, es)
  {
    hide Next;
    if es != [] {
      RoleIsLastHello(db, known, es[..|es| - 1]);
      RoleStep(Run(Connected(db), known, es[..|es| - 1]), known, es[|es| - 1]);
    }
  }

  lemma ListedIff(b: Body)
    ensures TypeName(b) in WRITE_REQUEST_TYPES <==> !b.Read?
  {
    if b.Read? {
      WritersAreListed(EngineDb(map[], map[], map[], map[]), b, false);
    }
  }

  /**
   * Over every run, a request that arrives is served exactly when a hello has arrived and the last one said
   * writer, or the request is a read; otherwise it is answered with an error at once and never reaches the database.
   */
  lemma {:induction false} ServedIff(db: EngineDb, known: set<string>, es: seq<Event>, id: nat, body: Body)
    requires
      var lines := Run(Connected(db), known, es).toServer;
      lines != [] && lines[0] == Request(id, body)
    ensures
      var l := Run(Connected(db), known, es);
      var rest := l.(toServer := l.toServer[1..]);
      var last := LastHello(db, known, es);
      if last == Some(Writer) || (last == Some(Reader) && body.Read?)
      then Next(l, known, Arrive) == rest.(serving := l.serving[id := body])
      else Next(l, known, Arrive) == rest.(toClient := l.toClient + [Response(id, body, false)])
  {
    ListedIff(body);
    hide Run, TypeName;
    RoleIsLastHello(db, known, es);
    var l := Run(Connected(db), known, es);
    assert l.role.None? || l.role.value == Reader || l.role.value == Writer;
  }

  // ---- one database for all chains ----------------------------------------

  function AlertsOf(db: EngineDb, chain: string): map<nat, Alert> {
    map id | id in db.alerts && id in db.owner && db.owner[id] == chain :: db.alerts[id]
  }

  /** What one chain's worker sees of the shared database. */
  function TablesOf(db: EngineDb, chain: string): TableSet {
    TableSet(RowsOf(db.blocks, chain), AlertsOf(db, chain), RowsOf(db.periods, chain))
  }

  /** What a write does to the tables of the chain it names, as the worker's own statements do. */
  function Statement(t: TableSet, b: Body): TableSet
    requires !b.Read?
  {
    match b
    case AppendBlocks(_, batch) => t.(blocks := WithBlocks(t.blocks, batch))
    case InsertBlocks(_, batch) => t.(blocks := WithBlocks(t.blocks, batch))
    case InsertAlert(_, a) => t.(alerts := t.alerts[a.id := a])
    case CloseAlert(_, id, at) => t.(alerts := Closing(t.alerts, id, at))
    case TouchAlertNotified(_, id, at, count) => t.(alerts := Touching(t.alerts, id, at, count))
    case InsertInactivity(_, p) => t.(periods := t.periods[p.height := p])
    case EndInactivity(_, start, end, time) => t.(periods := Ending(t.periods, start, end, time))
  }

  predicate ByAlertId(b: Body) { b.CloseAlert? || b.TouchAlertNotified? }

  /** Which chains a write reaches: the one it names, and for an alert id the one whose alert that is. */
  function Reached(t: TableSet, b: Body, chain: string): TableSet
    requires !b.Read?
  {
    if b.chain == chain || ByAlertId(b) then Statement(t, b) else t
  }

  lemma HandledReaches(db: EngineDb, b: Body, chain: string)
    requires Succeeds(db, b, true) && !b.Read?
    ensures TablesOf(Handled(db, b, true), chain) == Reached(TablesOf(db, chain), b, chain)
  {
    hide WithBlocks, InsertableNow, AlertsOf;
    AlertsReached(db, b, chain);
  }

  lemma AlertsReached(db: EngineDb, b: Body, chain: string)
    requires Succeeds(db, b, true) && !b.Read?
    ensures AlertsOf(Handled(db, b, true), chain) == Reached(TablesOf(db, chain), b, chain).alerts
  {
    hide WithBlocks, InsertableNow, Ending, AlertsOf, Closing, Touching;
    match b
    case InsertAlert(c, a) => InsertReached(db, c, a, chain);
    case CloseAlert(_, id, at) => CloseReached(db, id, at, chain);
    case TouchAlertNotified(_, id, at, count) => TouchReached(db, id, at, count, chain);
    case _ => SameAlerts(db, Handled(db, b, true), chain);
  }

  lemma SameAlerts(before: EngineDb, after: EngineDb, chain: string)
    requires after.alerts == before.alerts && after.owner == before.owner
    ensures AlertsOf(after, chain) == AlertsOf(before, chain)
  {
  }

  lemma InsertReached(db: EngineDb, c: string, a: Alert, chain: string)
    requires a.id !in db.alerts
    ensures
      var after := db.(alerts := db.alerts[a.id := a], owner := db.owner[a.id := c]);
      AlertsOf(after, chain) == if c == chain then AlertsOf(db, chain)[a.id := a] else AlertsOf(db, chain)
  {
  }

  lemma CloseReached(db: EngineDb, id: nat, at: int, chain: string)
    ensures AlertsOf(db.(alerts := Closing(db.alerts, id, at)), chain) == Closing(AlertsOf(db, chain), id, at)
  {
  }

  lemma TouchReached(db: EngineDb, id: nat, at: int, count: nat, chain: string)
    ensures AlertsOf(db.(alerts := Touching(db.alerts, id, at, count)), chain) == Touching(AlertsOf(db, chain), id, at, count)
  {
  }

  /**
   * Each chain has the database to itself, except that alerts are closed and touched by their id: an answered
   * write acts on the tables of the chain it names as that chain's statement does, and on no other chain's
   * tables, unless it closes or touches an alert that is theirs. A request for a chain the engine does not
   * know, one that fails and a read change nothing.
   */
  lemma ActsOnItsChain(db: EngineDb, known: set<string>, id: nat, b: Body, ok: bool, chain: string)
    ensures
      var (after, response) := Dispatched(db, known, id, b, ok);
      && response.id == id && response.about == b
      && TablesOf(after, chain) == if response.ok && !b.Read? then Reached(TablesOf(db, chain), b, chain) else TablesOf(db, chain)
  {
    hide TablesOf, Reached, Handled, Succeeds;
    if Dispatched(db, known, id, b, ok).1.ok {
      HandledOk(db, b, ok);
      if !b.Read? {
        HandledReaches(db, b, chain);
      }
    } else {
      HandledFails(db, b, ok);
    }
  }

  lemma HandledOk(db: EngineDb, b: Body, ok: bool)
    requires Succeeds(db, b, ok)
    ensures Succeeds(db, b, true) && Handled(db, b, ok) == Handled(db, b, true) && (b.Read? ==> Handled(db, b, ok) == db)
  {
    hide WithBlocks, InsertableNow;
  }

  lemma HandledFails(db: EngineDb, b: Body, ok: bool)
    ensures !Succeeds(db, b, ok) ==> Handled(db, b, ok) == db
  {
    hide WithBlocks, InsertableNow;
  }

  /** When an answered request may fail: the statement fails, the chain is unknown, a height or an alert id is there already. */
  lemma AnsweredOkIff(db: EngineDb, known: set<string>, id: nat, b: Body, ok: bool)
    ensures Dispatched(db, known, id, b, ok).1.ok
            <==> && ok && (ChainOf(b).Some? ==> ChainOf(b).value in known)
                 && (b.AppendBlocks? || b.InsertBlocks? ==> Insertable(TablesOf(db, b.chain).blocks, b.batch))
                 && (b.InsertAlert? ==> b.alert.id !in db.alerts)
  {
  }

  lemma WriterServed(db: EngineDb, chain: string, p: Period, pending: map<nat, Body>, issued: map<nat, Body>)
    ensures
      var request := InsertInactivity(chain, p);
      var arrived := Next(Link(2, pending, [Request(1, request)], Some(Writer), map[], [], db, db, issued, map[]), {chain}, Arrive);
      var done := Next(arrived, {chain}, Finish(1, true));
      done.db == db.(periods := db.periods[chain := RowsOf(db.periods, chain)[p.height := p]]) && done.others == db
  {
    hide TypeName;
  }

  /** The hypothesis is needed: nothing stops a reader from saying hello again as a writer. */
  lemma ReaderTurnsWriter(chain: string, p: Period)
    ensures
      var l := Run(Connected(EngineDb(map[], map[], map[], map[])), {chain},
                   [Greet(Reader), Greet(Writer), Issue(InsertInactivity(chain, p)), Arrive, Arrive, Arrive, Finish(1, true)]);
      l.db.periods == map[chain := map[p.height := p]] && l.others.periods == map[]
  {
    var k, request := {chain}, InsertInactivity(chain, p);
    var db := EngineDb(map[], map[], map[], map[]);
    var l0 := Connected(db);
    assert Run(l0, k, []) == l0;
    hide Run, Handled, TypeName, Succeeds, Dispatched;
    var e1 := [Greet(Reader)];
    var e2 := e1 + [Greet(Writer)];
    var e3 := e2 + [Issue(request)];
    var e4 := e3 + [Arrive];
    var e5 := e4 + [Arrive];
    var e6 := e5 + [Arrive];
    RunSnoc(l0, k, [], Greet(Reader));
    assert [] + [Greet(Reader)] == e1;
    RunSnoc(l0, k, e1, Greet(Writer));
    assert Run(l0, k, e2).toServer == [Hello(Reader), Hello(Writer)];
    RunSnoc(l0, k, e2, Issue(request));
    RunSnoc(l0, k, e3, Arrive);
    RunSnoc(l0, k, e4, Arrive);
    assert Run(l0, k, e5).toServer == [Request(1, request)] && Run(l0, k, e5).role == Some(Writer);
    RunSnoc(l0, k, e5, Arrive);
    RunSnoc(l0, k, e6, Finish(1, true));
    WriterServed(db, chain, p, Run(l0, k, e5).pending, Run(l0, k, e5).issued);
    assert e6 + [Finish(1, true)] == [Greet(Reader), Greet(Writer), Issue(request), Arrive, Arrive, Arrive, Finish(1, true)];
  }

}
