/** What a heartbeat cell says, without the ranks and tables that compute it. */
module HeartbeatMeaning {
  import opened Models

  /** Seen by then, and not resolved by then. */
  predicate Alive(f: Finding, end: Time) {
    f.firstSeenAt <= end && !(f.resolvedAt.Some? && f.resolvedAt.value <= end)
  }

  /** The worst of the severities. */
  predicate IsWorst(severity: Option<Severity>, present: set<Severity>) {
    if Critical in present then severity == Some(Critical)
    else if High in present then severity == Some(High)
    else if Medium in present then severity == Some(Medium)
    else if Low in present then severity == Some(Low)
    else if Unknown in present then severity == Some(Unknown)
    else severity == None
  }

  predicate IsDocumented(band: string) {
    || band == "escalate" || band == "act" || band == "mitigate" || band == "pending"
    || band == "monitor" || band == "noise" || band == "unknown"
  }

  /** The highest of the bands in the documented order; without a documented one `band` is what `other` says. */
  predicate IsTopBand(band: Option<string>, present: set<string>, other: bool) {
    if "escalate" in present then band == Some("escalate")
    else if "act" in present then band == Some("act")
    else if "mitigate" in present then band == Some("mitigate")
    else if "pending" in present then band == Some("pending")
    else if "monitor" in present then band == Some("monitor")
    else if "noise" in present then band == Some("noise")
    else if "unknown" in present then band == Some("unknown")
    else other
  }

  function Severities(findings: seq<Finding>, end: Time): set<Severity> {
    set f | f in findings && Alive(f, end) :: f.facts.severity
  }

  function Bands(findings: seq<Finding>, end: Time): set<string> {
    set f | f in findings && Alive(f, end) && f.riskBand.Some? :: f.riskBand.value
  }

  /** The fold keeps some undocumented band when there is no other, SQL keeps none. */
  predicate IsSomeOf(band: Option<string>, present: set<string>) {
    if present == {} then band == None else band.Some? && band.value in present
  }

  // ------------------------------------------------------------------ the findings of a server in the table

  function AliveIds(findings: FindingsTable, serverId: int, end: Time): set<int> {
    set i | i in findings && findings[i].key.serverId == serverId && Alive(findings[i], end)
  }

  function SeveritiesOf(findings: FindingsTable, serverId: int, end: Time): set<Severity> {
    set i | i in AliveIds(findings, serverId, end) :: findings[i].facts.severity
  }

  function BandsOf(findings: FindingsTable, serverId: int, end: Time): set<string> {
    set i | i in AliveIds(findings, serverId, end) && findings[i].riskBand.Some? :: findings[i].riskBand.value
  }

  /** The cell of a server at a moment. */
  ghost predicate CellSays(cell: Cell, findings: FindingsTable, serverId: int, end: Time) {
    && IsWorst(cell.maxSeverity, SeveritiesOf(findings, serverId, end))
    && IsTopBand(cell.dominantRiskBand, BandsOf(findings, serverId, end), cell.dominantRiskBand == None)
    && cell.kevCount == |set i | i in AliveIds(findings, serverId, end) && findings[i].facts.isKev|
  }

  /** The last microsecond of a UTC day, and the days that a scan falls on. */
  function LastMoment(day: Day): Time {
    (day + 1) * 86_400_000_000 - 1
  }

  ghost predicate ScannedOn(scans: seq<Scan>, serverId: int, day: Day) {
    exists s :: s in scans && s.serverId == serverId
             && day * 86_400_000_000 <= s.receivedAt < (day + 1) * 86_400_000_000
  }
}
