/** Records and enumerations of the child-alert application (src/types/index.ts).
    Timestamps are modelled as integers (milliseconds since the epoch), so that
    "order by created_at" is an order on numbers; optional fields (`x?: T` or
    `T | null`) become `Option<T>`. */
module Types {

  datatype Option<+T> = None | Some(value: T)

  // ---------------------------------------------------------------------------
  // String-literal union types and their textual form

  /** `type UserRole = 'police' | 'citizen'` */
  datatype UserRole = Police | Citizen

  /** `type RiskLevel = 'low' | 'medium' | 'high'` */
  datatype RiskLevel = Low | Medium | High

  /** `type AlertStatus = 'active' | 'resolved' | 'inactive'` */
  datatype AlertStatus = Active | Resolved | Inactive

  function RoleText(r: UserRole): (s: string)
    ensures s == "police" || s == "citizen"
  {
    match r
    case Police => "police"
    case Citizen => "citizen"
  }

  /** The only strings that denote a role are the two literals of the union. */
  function ParseRole(s: string): (r: Option<UserRole>)
    ensures r.Some? <==> s == "police" || s == "citizen"
    ensures r.Some? ==> RoleText(r.value) == s
  {
    if s == "police" then Some(Police)
    else if s == "citizen" then Some(Citizen)
    else None
  }

  function RiskText(r: RiskLevel): (s: string)
    ensures s == "low" || s == "medium" || s == "high"
  {
    match r
    case Low => "low"
    case Medium => "medium"
    case High => "high"
  }

  function ParseRisk(s: string): (r: Option<RiskLevel>)
    ensures r.Some? <==> s == "low" || s == "medium" || s == "high"
    ensures r.Some? ==> RiskText(r.value) == s
  {
    if s == "low" then Some(Low)
    else if s == "medium" then Some(Medium)
    else if s == "high" then Some(High)
    else None
  }

  function StatusText(st: AlertStatus): (s: string)
    ensures s == "active" || s == "resolved" || s == "inactive"
  {
    match st
    case Active => "active"
    case Resolved => "resolved"
    case Inactive => "inactive"
  }

  function ParseStatus(s: string): (r: Option<AlertStatus>)
    ensures r.Some? <==> s == "active" || s == "resolved" || s == "inactive"
    ensures r.Some? ==> StatusText(r.value) == s
  {
    if s == "active" then Some(Active)
    else if s == "resolved" then Some(Resolved)
    else if s == "inactive" then Some(Inactive)
    else None
  }

  /** Each union has exactly its listed members: the text form is injective and
      parsing it back gives the same member. */
  lemma EnumTextRoundTrip(r: UserRole, k: RiskLevel, st: AlertStatus)
    ensures ParseRole(RoleText(r)) == Some(r)
    ensures ParseRisk(RiskText(k)) == Some(k)
    ensures ParseStatus(StatusText(st)) == Some(st)
  {
    match r { case Police => case Citizen => }
    match k { case Low => case Medium => case High => }
    match st { case Active => case Resolved => case Inactive => }
  }

  // ---------------------------------------------------------------------------
  // Records

  /** The authenticated account as the auth provider reports it. */
  datatype User = User(id: string)

  /** `interface Profile`: `verified` is a required boolean, every police
      metadata field is optional. */
  datatype Profile = Profile(
    id: string,
    username: string,
    email: Option<string>,
    role: UserRole,
    full_name: Option<string>,
    official_email: Option<string>,
    police_id: Option<string>,
    police_station: Option<string>,
    id_proof_url: Option<string>,
    verified: bool,
    created_at: int,
    updated_at: int)

  /** `interface PoliceRegistrationData` */
  datatype PoliceRegistrationData = PoliceRegistrationData(
    full_name: string,
    official_email: string,
    username: string,
    password: string,
    police_id: string,
    police_station: string,
    id_proof_url: Option<string>)

  /** `interface PoliceIdVerification`: a flag and a station that may be null. */
  datatype PoliceIdVerification = PoliceIdVerification(is_valid: bool, station_name: Option<string>)

  /** `interface Alert`: the photo reference is a required string. */
  datatype Alert = Alert(
    id: string,
    child_name: string,
    age: int,
    photo_url: string,
    last_seen_location: string,
    last_seen_lat: Option<real>,
    last_seen_lng: Option<real>,
    time_missing: string,
    description: string,
    risk_level: RiskLevel,
    status: AlertStatus,
    created_at: int,
    updated_at: int)

  /** `interface Sighting`: description, contact, reporter and photo are optional. */
  datatype Sighting = Sighting(
    id: string,
    alert_id: string,
    location: string,
    lat: Option<real>,
    lng: Option<real>,
    description: Option<string>,
    reporter_contact: Option<string>,
    reporter_id: Option<string>,
    photo_url: Option<string>,
    created_at: int)

  /** `interface AlertFormData` */
  datatype AlertFormData = AlertFormData(
    child_name: string,
    age: int,
    photo_url: string,
    last_seen_location: string,
    last_seen_lat: Option<real>,
    last_seen_lng: Option<real>,
    time_missing: string,
    description: string,
    risk_level: RiskLevel)

  /** `interface SightingFormData` */
  datatype SightingFormData = SightingFormData(
    alert_id: string,
    location: string,
    lat: Option<real>,
    lng: Option<real>,
    description: Option<string>,
    reporter_contact: Option<string>,
    photo_url: Option<string>)

  // Routes the pages navigate to
  const HomePath: string := "/"
  const PoliceDashboardPath: string := "/police-dashboard"
  const CitizenDashboardPath: string := "/citizen-dashboard"
}
