/** The entity model of the newer bot (`common` crate): report status with its
    storage text, the two platforms a report or action comes from, and the
    Report and Action records. */
module Common {
  import opened Wrappers
  import opened Text

  datatype ReportStatus = Open | Claimed | Closed | Expired

  /** `ReportStatus::default()`. */
  function DefaultStatus(): (s: ReportStatus)
    ensures s == Open
  {
    Open
  }

  /** `ReportStatus::to_db`: the lowercase text stored in the report_status column. */
  function StatusToDb(s: ReportStatus): string {
    match s
    case Open => "open"
    case Claimed => "claimed"
    case Closed => "closed"
    case Expired => "expired"
  }

  /** `ReportStatus::from_db`: exact, case-sensitive match on the four texts. */
  function StatusFromDb(t: string): Option<ReportStatus> {
    if t == "open" then Some(Open)
    else if t == "claimed" then Some(Claimed)
    else if t == "closed" then Some(Closed)
    else if t == "expired" then Some(Expired)
    else None
  }

  /** Every status survives the trip through its storage text. */
  lemma StatusRoundTrip(s: ReportStatus)
    ensures StatusFromDb(StatusToDb(s)) == Some(s)
  {
  }

  /** The four storage texts are pairwise distinct. */
  lemma StatusToDbInjective(s: ReportStatus, t: ReportStatus)
    requires StatusToDb(s) == StatusToDb(t)
    ensures s == t
  {
    StatusRoundTrip(s);
    StatusRoundTrip(t);
  }

  /** Whatever `from_db` accepts is exactly what `to_db` writes. */
  lemma StatusFromDbInverse(t: string, s: ReportStatus)
    requires StatusFromDb(t) == Some(s)
    ensures StatusToDb(s) == t
  {
  }

  /** `from_db` accepts exactly the four storage texts and nothing else. */
  lemma StatusFromDbDomain(t: string)
    ensures StatusFromDb(t).Some? <==> t in {"open", "claimed", "closed", "expired"}
  {
  }

  /** Other casings and other words are rejected, as the crate's own test shows for "piss". */
  lemma StatusFromDbRejects()
    ensures StatusFromDb("piss") == None
    ensures StatusFromDb("Open") == None && StatusFromDb("CLOSED") == None && StatusFromDb("") == None
  {
  }

  /** The platform a report or action belongs to. */
  datatype Location = SL | Discord

  /** `Location::default()`, as the older crate declares it. */
  function DefaultLocation(): (l: Location)
    ensures l == SL
  {
    SL
  }

  /** Storage text of a location. The newer crate's `Display`/`FromStr` for
      `Location` is not part of this model; this codec uses the older crate's
      lowercase storage names and is all the model assumes of it. */
  function LocationText(l: Location): string {
    match l
    case SL => "sl"
    case Discord => "discord"
  }

  function LocationFromText(t: string): Option<Location> {
    if t == "sl" then Some(SL) else if t == "discord" then Some(Discord) else None
  }

  /** The location codec is a bijection between the two locations and their texts. */
  lemma LocationRoundTrip(l: Location)
    ensures LocationFromText(LocationText(l)) == Some(l)
  {
  }

  lemma LocationFromTextInverse(t: string, l: Location)
    requires LocationFromText(t) == Some(l)
    ensures LocationText(l) == t
  {
  }

  /** A complaint about one player filed by another. Claimant and audit
      message are Discord ids (u64); `location` is the platform the report
      came from. */
  datatype Report = Report(
    reporterId: string,
    reporterName: string,
    reportedId: string,
    reportedName: string,
    reportReason: string,
    reportStatus: ReportStatus,
    server: string,
    time: string,
    claimant: Option<u64>,
    audit: Option<u64>,
    location: Location)

  /** A disciplinary action ("audit") taken against a target. The claimant is
      the staff member who issued it; `report` is the report it resolves. */
  datatype Action = Action(
    targetId: string,
    targetUsername: string,
    offense: string,
    action: string,
    server: Location,
    claimant: u64,
    report: Option<u32>)
}
