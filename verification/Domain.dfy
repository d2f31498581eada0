/** The entities the chain worker, its tables and its alert evaluator share. */
module Domain {

  datatype Option<+T> = None | Some(value: T) {
    function GetOr(default: T): T {
      match this
      case Some(v) => v
      case None => default
    }
  }

  datatype ChainType = Bft | Tm2

  // ---- commits and blocks -------------------------------------------------

  /** One validator's vote in a commit: a Cosmos signature or a TM2 precommit. */
  datatype Vote = Vote(address: string, flag: int, signature: Option<string>)

  datatype Votes =
    | Signatures(sigs: seq<Option<Vote>>)
    | Precommits(pres: seq<Option<Vote>>)
    | NoVotes

  datatype Commit = Commit(height: int, time: int, hash: string, canonical: Option<bool>, votes: Votes)

  /** What a commit request came back with; `convertible` is false when turning it into a block throws. */
  datatype CommitAnswer = Unfetched | Fetched(commit: Commit, convertible: bool)

  /** signed: -1 outside the active set, 0 active but missed, 1 active and signed. */
  datatype Block = Block(height: int, time: int, hash: string, signed: int,
                         signature: Option<string>, precommitted: Option<bool>)

  // ---- the validator ------------------------------------------------------

  const BONDED := "BOND_STATUS_BONDED"

  /** Answer of the single-validator REST endpoint. */
  datatype Lookup = Unavailable | Validator(jailed: bool, bondStatus: string)

  predicate IsActive(v: Lookup)
    requires v.Validator?
  {
    !v.jailed && v.bondStatus == BONDED
  }

  /** Slashing signing info; an unparseable jail end counts as absent. */
  datatype SigningInfo = SigningInfo(tombstoned: Option<bool>, jailedUntil: Option<int>)

  datatype Status = Status(height: int, time: int, active: bool, jailed: bool, permanent: bool,
                           bondStatus: string, jailedUntil: Option<int>)

  /** One stretch outside the active set; endHeight is absent while it lasts. */
  datatype Period = Period(height: int, time: int, jailed: bool, permanent: bool, bondStatus: string,
                           jailedUntil: Option<int>, endHeight: Option<int>, endTime: Option<int>)

  // ---- alerts -------------------------------------------------------------

  datatype AlertKind =
    | Stalled | ConsecutiveMiss | PercentageMiss
    | Inactive | Jailed | Tombstoned
    | RpcDown | ApiDown

  /** What an alert is about: its type and, for endpoint alerts, the endpoint's URL. */
  datatype Key = Key(kind: AlertKind, subject: Option<string>)

  datatype Alert = Alert(id: nat, key: Key, openedAt: int, closedAt: Option<int>,
                         lastNotifiedAt: Option<int>, repeatCount: nat)

  datatype AlertEvent = Open(alert: Alert) | Repeat(alert: Alert) | Close(alert: Alert, closedAt: int)

  predicate IsDownKind(kind: AlertKind) { kind.RpcDown? || kind.ApiDown? }

  predicate IsStatusKind(kind: AlertKind) { kind.Inactive? || kind.Jailed? || kind.Tombstoned? }

  function NewAlert(id: nat, key: Key, openedAt: int): Alert {
    Alert(id, key, openedAt, None, None, 0)
  }

  // ---- configuration ------------------------------------------------------

  /** A configured RPC or REST endpoint, its URL already normalised. */
  datatype Endpoint = Endpoint(kind: AlertKind, url: string, alertIfDown: bool)

  function EndpointKey(e: Endpoint): Key { Key(e.kind, Some(e.url)) }

  datatype AlertConfig = AlertConfig(
    stalledEnabled: bool, stalledThreshold: real,
    missEnabled: bool, missThreshold: int, missRepeat: bool, missRepeatInterval: real,
    percentEnabled: bool, percentThreshold: real, percentRepeat: bool,
    alertIfInactive: bool, endpointDownAlertAfter: Option<real>)

  datatype Config = Config(
    chainType: ChainType,
    valconsHex: Option<string>,
    signer: string,
    activeSet: Option<set<string>>,
    endpoints: seq<Endpoint>,  // the RPC ones, and on a Cosmos chain the REST ones
    maxBlocksPerPoll: Option<int>,
    allowBlockGaps: bool,
    signingWindow: int,
    alerts: AlertConfig)

  const DEFAULT_MAX_BLOCKS_PER_POLL := 100

  function MaxBlocks(cfg: Config): int { cfg.maxBlocksPerPoll.GetOr(DEFAULT_MAX_BLOCKS_PER_POLL) }

  /**
   * What the configuration schema guarantees, and two things it does not: the miss threshold is a positive
   * integer, and no endpoint is listed twice.
   */
  ghost predicate ConfigOk(cfg: Config) {
    && MaxBlocks(cfg) > 0
    && cfg.signingWindow > 0
    && cfg.alerts.missThreshold > 0
    && 0.5 < cfg.alerts.percentThreshold <= 95.0
    && (forall e <- cfg.endpoints :: IsDownKind(e.kind) && e.url != "")
    && DistinctEndpoints(cfg.endpoints)
  }

  ghost predicate DistinctEndpoints(es: seq<Endpoint>) {
    forall i, j :: 0 <= i < j < |es| ==> EndpointKey(es[i]) != EndpointKey(es[j])
  }

  /** The chain's newest block as an RPC node reports it. */
  datatype Tip = Tip(height: int, time: int)

  datatype WindowStats = WindowStats(total: nat, missed: nat)
}
