/** The authentication context (src/contexts/AuthContext.tsx): the profile and
    police-registry lookups, the username-to-email mapping the sign-in and
    sign-up calls use, the metadata each sign-up attaches, and the provider's
    `user` / `profile` / `loading` state. The auth service itself is not
    modelled: its session and its error are parameters. */
module AuthContext {
  import opened Types
  import opened Seqs

  // ---------------------------------------------------------------------------
  // Lookups

  /** getProfile: the profile row with that id (`.maybeSingle()`), `None` on a
      backend error. The id is the primary key, so exactly the existing row is
      found. */
  function GetProfile(rows: seq<Profile>, userId: string, fail: bool): (r: Option<Profile>)
    ensures fail ==> r.None?
    ensures r.Some? ==> r.value in rows && r.value.id == userId
    ensures !fail && UniqueProfileIds(rows) ==> (r.Some? <==> exists p :: p in rows && p.id == userId)
  {
    var r := MaybeSingle(rows, (p: Profile) => p.id == userId, fail);
    assert UniqueProfileIds(rows) ==> AtMostOne(rows, (p: Profile) => p.id == userId);
    r
  }

  predicate UniqueProfileIds(rows: seq<Profile>) {
    forall i, j :: 0 <= i < j < |rows| ==> rows[i].id != rows[j].id
  }

  /** A row of the `police_ids` registry. */
  datatype PoliceIdRow = PoliceIdRow(police_id: string, is_valid: bool, station_name: Option<string>)

  /** The answer for every failure: not valid, no station. */
  const Rejected: PoliceIdVerification := PoliceIdVerification(false, None)

  /** verifyPoliceId: the registry row's flag and station, verbatim, when
      exactly one row has that police id; `Rejected` on a backend error (or a
      thrown exception, which is caught the same way), when no row matches, and
      when several do. */
  function VerifyPoliceId(registry: seq<PoliceIdRow>, policeId: string, fail: bool): (r: PoliceIdVerification)
    ensures fail ==> r == Rejected
    ensures (forall row :: row in registry ==> row.police_id != policeId) ==> r == Rejected
    ensures r != Rejected ==>
              exists row :: row in registry && row.police_id == policeId &&
                            r == PoliceIdVerification(row.is_valid, row.station_name)
    ensures r.is_valid ==> exists row :: row in registry && row.police_id == policeId && row.is_valid
    ensures !fail && UniquePoliceIds(registry) ==>
              forall row :: row in registry && row.police_id == policeId ==>
                r == PoliceIdVerification(row.is_valid, row.station_name)
  {
    var found := MaybeSingle(registry, (row: PoliceIdRow) => row.police_id == policeId, fail);
    assert UniquePoliceIds(registry) ==> AtMostOne(registry, (row: PoliceIdRow) => row.police_id == policeId);
    match found
    case None => Rejected
    case Some(row) => PoliceIdVerification(row.is_valid, row.station_name)
  }

  predicate UniquePoliceIds(rows: seq<PoliceIdRow>) {
    forall i, j :: 0 <= i < j < |rows| ==> rows[i].police_id != rows[j].police_id
  }

  // ---------------------------------------------------------------------------
  // Usernames and e-mail addresses

  const EmailDomain: string := "@miaoda.com"

  /** `${username}@miaoda.com`, the address every sign-in and sign-up uses. */
  function EmailFor(username: string): (email: string)
    ensures |email| == |username| + |EmailDomain|
    ensures email[..|username|] == username && email[|username|..] == EmailDomain
  {
    username + EmailDomain
  }

  /** The username an address of the application's domain was made from;
      `None` for an address of another domain. */
  function UsernameOf(email: string): (username: Option<string>)
    ensures username.Some? <==> |email| >= |EmailDomain| && email[|email| - |EmailDomain|..] == EmailDomain
    ensures username.Some? ==> |username.value| == |email| - |EmailDomain|
  {
    var n := |email| - |EmailDomain|;
    if n >= 0 && email[n..] == EmailDomain then Some(email[..n]) else None
  }

  /** The username is recovered from its address, so distinct usernames sign
      in as distinct accounts. */
  lemma EmailRoundTrip(username: string)
    ensures UsernameOf(EmailFor(username)) == Some(username)
  {
  }

  lemma EmailForInjective(a: string, b: string)
    requires EmailFor(a) == EmailFor(b)
    ensures a == b
  {
    EmailRoundTrip(a);
    EmailRoundTrip(b);
  }

  // ---------------------------------------------------------------------------
  // Sign-in and sign-up

  /** `options.data` of a sign-up: the role, and for police the registration
      fields and the verified flag. */
  datatype SignUpMetadata = SignUpMetadata(
    role: UserRole,
    full_name: Option<string>,
    official_email: Option<string>,
    police_id: Option<string>,
    police_station: Option<string>,
    verified: Option<bool>)

  /** What the auth service is asked for. */
  datatype AuthRequest =
    | SignInRequest(email: string, password: string)
    | SignUpRequest(email: string, password: string, metadata: SignUpMetadata)

  /** A call of one of the context's sign-in functions: the request it makes
      and the `{ error }` it resolves to. The service's own failure is passed in
      as `serviceError` and comes back as the result, never as a throw. */
  datatype AuthCall = AuthCall(request: AuthRequest, error: Option<string>)

  /** signInWithUsername */
  function SignInWithUsername(username: string, password: string, serviceError: Option<string>): (c: AuthCall)
    ensures c.request.SignInRequest? && c.request.password == password
    ensures UsernameOf(c.request.email) == Some(username)
    ensures c.error == serviceError
  {
    AuthCall(SignInRequest(EmailFor(username), password), serviceError)
  }

  /** The metadata of a citizen sign-up: the role and nothing else. */
  const CitizenMetadata: SignUpMetadata := SignUpMetadata(Citizen, None, None, None, None, None)

  /** signUpWithUsername */
  function SignUpWithUsername(username: string, password: string, serviceError: Option<string>): (c: AuthCall)
    ensures c.request.SignUpRequest? && c.request.password == password
    ensures UsernameOf(c.request.email) == Some(username)
    ensures c.request.metadata.role == Citizen && c.request.metadata.verified.None?
    ensures c.error == serviceError
  {
    AuthCall(SignUpRequest(EmailFor(username), password, CitizenMetadata), serviceError)
  }

  /** The metadata of a police sign-up: the role, the four registration fields
      and `verified: true`. The ID-proof URL is not among them. */
  function PoliceMetadata(data: PoliceRegistrationData): (m: SignUpMetadata)
    ensures m.role == Police && m.verified == Some(true)
  {
    SignUpMetadata(Police, Some(data.full_name), Some(data.official_email), Some(data.police_id),
                   Some(data.police_station), Some(true))
  }

  /** signUpPolice */
  function SignUpPolice(data: PoliceRegistrationData, serviceError: Option<string>): (c: AuthCall)
    ensures c.request.SignUpRequest? && c.request.password == data.password
    ensures UsernameOf(c.request.email) == Some(data.username)
    ensures c.request.metadata == PoliceMetadata(data)
    ensures c.error == serviceError
  {
    AuthCall(SignUpRequest(EmailFor(data.username), data.password, PoliceMetadata(data)), serviceError)
  }

  /** The police metadata carries each submitted field unchanged, and the
      two sign-ups are told apart by their role. */
  lemma PoliceMetadataFields(data: PoliceRegistrationData)
    ensures var m := PoliceMetadata(data);
      && m.full_name == Some(data.full_name) && m.official_email == Some(data.official_email)
      && m.police_id == Some(data.police_id) && m.police_station == Some(data.police_station)
      && m != CitizenMetadata
  {
  }

  /** The uploaded ID proof does not reach the sign-up: registrations that
      differ only in `id_proof_url` make the same request. */
  lemma SignUpPoliceIgnoresIdProof(data: PoliceRegistrationData, url: Option<string>, e: Option<string>)
    ensures SignUpPolice(data.(id_proof_url := url), e) == SignUpPolice(data, e)
  {
  }

  // ---------------------------------------------------------------------------
  // The provider's state

  class AuthProvider {
    var user: Option<User>
    var profile: Option<Profile>
    var loading: bool

    /** A loaded profile belongs to the signed-in user. */
    predicate ProfileOfUser()
      reads this
    {
      profile.Some? ==> user.Some? && profile.value.id == user.value.id
    }

    /** Mounting: nobody signed in yet, loading. */
    constructor ()
      ensures user.None? && profile.None? && loading
    {
      user, profile, loading := None, None, true;
    }

    /** The first `getSession()`: the session's user, their profile when
        there is one, and loading ends. */
    method LoadSession(session: Option<User>, profiles: seq<Profile>, fail: bool)
      modifies this
      ensures user == session && !loading
      ensures profile == if session.Some? then GetProfile(profiles, session.value.id, fail) else old(profile)
      ensures old(profile).None? ==> ProfileOfUser()
    {
      user := session;
      if session.Some? {
        profile := GetProfile(profiles, session.value.id, fail);
      }
      loading := false;
    }

    /** The `onAuthStateChange` callback: the new session's user and profile;
        both cleared when there is no session. */
    method OnAuthStateChange(session: Option<User>, profiles: seq<Profile>, fail: bool)
      modifies this
      ensures user == session && loading == old(loading)
      ensures profile == if session.Some? then GetProfile(profiles, session.value.id, fail) else None
      ensures ProfileOfUser()
    {
      user := session;
      if session.Some? {
        profile := GetProfile(profiles, session.value.id, fail);
      } else {
        profile := None;
      }
    }

    /** refreshProfile: the current user's profile re-read, cleared without a
        user. */
    method RefreshProfile(profiles: seq<Profile>, fail: bool)
      modifies this
      ensures user == old(user) && loading == old(loading)
      ensures profile == if user.Some? then GetProfile(profiles, user.value.id, fail) else None
      ensures ProfileOfUser()
    {
      if user.None? {
        profile := None;
        return;
      }
      profile := GetProfile(profiles, user.value.id, fail);
    }

    /** signOut: whatever the service answers, nobody is signed in. */
    method SignOut()
      modifies this
      ensures user.None? && profile.None? && loading == old(loading)
      ensures ProfileOfUser()
    {
      user := None;
      profile := None;
    }
  }
}
