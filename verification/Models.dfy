/**
 * The tables the services work on. A table is a map from primary key to row, and one SQL
 * statement is one step on such a map. Timestamps are microseconds UTC, days are day numbers.
 */
module Models {

  datatype Option<+T> = None | Some(value: T)

  lemma NonEmpty(s: set<int>)
    ensures s == {} || exists x :: x in s
  {
    if !exists x :: x in s {
      assert s == {};
    }
  }

  type Time = int
  type Day = int

  const SECOND: Time := 1_000_000
  const DAY_LENGTH: Time := 86_400 * SECOND

  function DayOf(t: Time): Day {
    t / DAY_LENGTH
  }

  datatype Severity = Critical | High | Medium | Low | Unknown

  datatype FindingType = Vulnerability | Secret | Misconfig

  datatype FindingClass = OsPkgs | LangPkgs | Other

  datatype FindingStatus = Open | Acknowledged | Resolved

  datatype FixLane = Patch | Mitigate

  /** The columns of the unique constraint `uq_findings_natural_key`. */
  datatype NaturalKey = NaturalKey(
    serverId: int,
    findingType: FindingType,
    identifierKey: string,
    packageName: string)

  /**
   * The columns that every upsert overwrites. `details` stands for the ones no modelled
   * operation looks at (versions, title, references, cause fields).
   */
  datatype Facts = Facts(
    findingClass: FindingClass,
    severity: Severity,
    isKev: bool,
    epssScore: Option<real>,
    cvssScore: Option<real>,
    hasFix: bool,
    hostUpdateAvailable: Option<bool>,
    details: string)

  datatype Finding = Finding(
    key: NaturalKey,
    facts: Facts,
    lastSeenAt: Time,
    riskBand: Option<string>,
    riskBandSource: Option<string>,
    riskBandComputedAt: Option<Time>,
    groupId: Option<int>,
    status: FindingStatus,
    firstSeenAt: Time,
    acknowledgedAt: Option<Time>,
    acknowledgedBy: Option<int>,
    resolvedAt: Option<Time>)

  type FindingsTable = map<int, Finding>

  /** A row of `servers`, as far as it decides whether the server is active. */
  datatype Server = Server(revokedAt: Option<Time>, retiredAt: Option<Time>)

  predicate IsActive(servers: map<int, Server>, serverId: int) {
    serverId in servers && servers[serverId].revokedAt.None? && servers[serverId].retiredAt.None?
  }

  datatype Scan = Scan(serverId: int, receivedAt: Time)

  /** Primary key of `application_group_evaluations`. */
  datatype EvaluationKey = EvaluationKey(groupId: int, serverId: int, fixLane: FixLane)

  datatype Evaluation = Evaluation(riskBand: string, reason: Option<string>)

  type EvaluationsTable = map<EvaluationKey, Evaluation>

  /** A row of `daily_risk_state` without its primary key `(server_id, day)`. */
  datatype Cell = Cell(
    dominantRiskBand: Option<string>,
    maxSeverity: Option<Severity>,
    kevCount: nat,
    hadScan: bool)

  datatype CellKey = CellKey(serverId: int, day: Day)

  type FrozenTable = map<CellKey, Cell>

  /** The value of the whole database at one moment. */
  datatype Db = Db(
    findings: FindingsTable,
    nextFindingId: int,
    servers: map<int, Server>,
    lastScanAt: map<int, Time>,
    scans: seq<Scan>,
    evaluations: EvaluationsTable,
    frozen: FrozenTable)

  /** The unique constraint `uq_findings_natural_key`. */
  ghost predicate UniqueKeys(findings: FindingsTable) {
    forall i, j :: i in findings && j in findings && findings[i].key == findings[j].key ==> i == j
  }

  /** What the database guarantees: unique natural keys, and ids that come from a sequence. */
  ghost predicate Constraints(findings: FindingsTable, nextFindingId: int) {
    && UniqueKeys(findings)
    && (forall i :: i in findings ==> i < nextFindingId)
  }

  /** A database session: the services read and write the tables through it. */
  class Session {
    var findings: FindingsTable
    var nextFindingId: int
    var servers: map<int, Server>
    var lastScanAt: map<int, Time>
    var scans: seq<Scan>
    var evaluations: EvaluationsTable
    var frozen: FrozenTable

    constructor (db: Db)
      ensures State() == db
    {
      findings, nextFindingId := db.findings, db.nextFindingId;
      servers, lastScanAt, scans := db.servers, db.lastScanAt, db.scans;
      evaluations, frozen := db.evaluations, db.frozen;
    }

    /** The tables as one value. */
    function State(): Db
      reads this
    {
      Db(findings, nextFindingId, servers, lastScanAt, scans, evaluations, frozen)
    }

    ghost predicate Valid()
      reads this
    {
      Constraints(findings, nextFindingId)
    }
  }

  /** `fix_lane_for` and its SQL mirror: the lane a finding belongs to. */
  function FixLaneOf(facts: Facts): FixLane {
    if !facts.hasFix then Mitigate
    else if facts.findingClass == OsPkgs then Patch
    else if facts.hostUpdateAvailable == Some(true) then Patch
    else Mitigate
  }
}
