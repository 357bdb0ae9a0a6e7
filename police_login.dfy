/** The police login and registration page (src/pages/PoliceLogin.tsx): the
    police-ID verification state machine, the registration guards, the ID-proof
    upload and the sign-in redirect. The auth service's answers, the storage
    upload's outcome, `Date.now()` and the random suffix are parameters. */
module PoliceLoginPage {
  import opened Types
  import opened Text
  import opened AuthContext
  import Db

  /** `'idle' | 'verified' | 'failed'` */
  datatype VerificationStatus = Idle | Verified | Failed

  /** Why a registration is refused before anything is sent. */
  datatype Refusal = NotVerified | PasswordMismatch | PasswordTooShort

  const MinPasswordLength: nat := 6

  /** The registration form's fields. */
  datatype RegData = RegData(
    full_name: string,
    official_email: string,
    username: string,
    password: string,
    confirmPassword: string,
    police_id: string,
    police_station: string)

  /** A lookup result verifies the ID only when it is valid and names a
      station: a null or empty station name fails like an invalid ID. */
  function Outcome(result: PoliceIdVerification): (st: VerificationStatus)
    ensures st != Idle
    ensures st == Verified <==> result.is_valid && result.station_name.Some? && result.station_name.value != ""
  {
    if result.is_valid && result.station_name.Some? && result.station_name.value != "" then Verified
    else Failed
  }

  /** An ID is verified only from a registry row that is valid and names a
      station; a failed lookup never verifies. */
  lemma VerifiedOnlyFromRegistry(registry: seq<PoliceIdRow>, policeId: string, fail: bool)
    ensures Outcome(VerifyPoliceId(registry, policeId, fail)) == Verified ==>
              !fail && exists row :: row in registry && row.police_id == policeId && row.is_valid &&
                                     row.station_name.Some? && row.station_name.value != ""
  {
    var r := VerifyPoliceId(registry, policeId, fail);
    if Outcome(r) == Verified {
      assert r != Rejected;
    }
  }

  /** handleRegister's checks, in their order: verification first, then the
      two password rules. `None` lets the registration proceed. */
  function RegistrationRefusal(status: VerificationStatus, reg: RegData): (r: Option<Refusal>)
    ensures r.None? <==> status == Verified && reg.password == reg.confirmPassword &&
                         |reg.password| >= MinPasswordLength
    ensures status != Verified ==> r == Some(NotVerified)
    ensures status == Verified && reg.password != reg.confirmPassword ==> r == Some(PasswordMismatch)
    ensures r == Some(PasswordTooShort) ==> reg.password == reg.confirmPassword
  {
    if status != Verified then Some(NotVerified)
    else if reg.password != reg.confirmPassword then Some(PasswordMismatch)
    else if |reg.password| < MinPasswordLength then Some(PasswordTooShort)
    else None
  }

  /** `id_proof_${Date.now()}_${suffix}.${ext}` */
  function IdProofName(now: nat, suffix: string, fileName: string): (key: string)
    ensures |key| >= 9 && key[..9] == "id_proof_"
  {
    "id_proof_" + UploadName(now, suffix, FileExtension(fileName))
  }

  /** The ID-proof key keeps the extension of the chosen file. */
  lemma IdProofNameExtension(now: nat, suffix: string, fileName: string)
    ensures FileExtension(IdProofName(now, suffix, fileName)) == FileExtension(fileName)
  {
    FileExtensionSpec(fileName);
    PrefixedUploadNameExtension("id_proof_", now, suffix, FileExtension(fileName));
  }

  /** The data signUpPolice receives from the form. */
  function RegistrationOf(reg: RegData, idProofUrl: Option<string>): PoliceRegistrationData {
    PoliceRegistrationData(reg.full_name, reg.official_email, reg.username, reg.password,
                           reg.police_id, reg.police_station, idProofUrl)
  }

  class PoliceLogin {
    var loading: bool
    var verifying: bool
    var loginUsername: string
    var loginPassword: string
    var reg: RegData
    var status: VerificationStatus
    var verifiedStation: string
    /** The name of the chosen ID-proof file, if any. */
    var idProofFile: Option<string>
    var uploadProgress: nat

    /** Once verified, the station field holds the verified station, which is
        never empty. */
    predicate Valid()
      reads this
    {
      status == Verified ==> verifiedStation != "" && reg.police_station == verifiedStation
    }

    constructor ()
      ensures Valid() && status == Idle && !loading && !verifying && idProofFile.None?
      ensures reg == RegData("", "", "", "", "", "", "") && verifiedStation == "" && uploadProgress == 0
      ensures loginUsername == "" && loginPassword == ""
    {
      loading, verifying, loginUsername, loginPassword := false, false, "", "";
      reg := RegData("", "", "", "", "", "", "");
      status, verifiedStation, idProofFile, uploadProgress := Idle, "", None, 0;
    }

    /** The registration fields are rendered only for a verified ID. */
    predicate ShowsRegistrationFields()
      reads this
    {
      status == Verified
    }

    /** The Verify button is enabled only when idle or failed, not busy, with an
        ID typed. */
    predicate VerifyEnabled()
      reads this
    {
      !verifying && status != Verified && reg.police_id != ""
    }

    /** handleLogin: signs in with the login fields and goes to the police
        dashboard exactly when the service reports no error. */
    method HandleLogin(serviceError: Option<string>) returns (request: AuthRequest, nav: Option<string>)
      modifies this
      ensures request == SignInWithUsername(loginUsername, loginPassword, serviceError).request
      ensures nav.Some? <==> serviceError.None?
      ensures nav.Some? ==> nav.value == PoliceDashboardPath
      ensures !loading
      ensures reg == old(reg) && status == old(status) && verifiedStation == old(verifiedStation)
      ensures verifying == old(verifying) && idProofFile == old(idProofFile) && uploadProgress == old(uploadProgress)
      ensures loginUsername == old(loginUsername) && loginPassword == old(loginPassword)
    {
      loading := true;
      var call := SignInWithUsername(loginUsername, loginPassword, serviceError);
      request := call.request;
      if call.error.Some? {
        nav := None;
      } else {
        nav := Some(PoliceDashboardPath);
      }
      loading := false;
    }

    /** The police_id input's onChange: the new ID, and the status back to
        idle. The input is disabled once verified, so then nothing happens. */
    method EditPoliceId(value: string)
      requires Valid()
      modifies this
      ensures Valid()
      ensures old(status) == Verified ==> reg == old(reg) && status == Verified
      ensures old(status) != Verified ==> reg == old(reg).(police_id := value) && status == Idle
      ensures verifiedStation == old(verifiedStation) && loading == old(loading) && verifying == old(verifying)
      ensures idProofFile == old(idProofFile) && uploadProgress == old(uploadProgress)
      ensures loginUsername == old(loginUsername) && loginPassword == old(loginPassword)
    {
      if status == Verified {
        return;
      }
      reg := reg.(police_id := value);
      status := Idle;
    }

    /** The registration inputs' onChange handlers. They are rendered only
        once the ID is verified, and the station input is disabled, so the
        station is never edited here. */
    method EditRegistration(full_name: string, official_email: string, username: string,
                            password: string, confirmPassword: string)
      requires Valid()
      modifies this
      ensures Valid()
      ensures reg == if old(status) == Verified
                     then old(reg).(full_name := full_name, official_email := official_email,
                                    username := username, password := password,
                                    confirmPassword := confirmPassword)
                     else old(reg)
      ensures status == old(status) && verifiedStation == old(verifiedStation) && loading == old(loading)
      ensures verifying == old(verifying) && idProofFile == old(idProofFile) && uploadProgress == old(uploadProgress)
      ensures loginUsername == old(loginUsername) && loginPassword == old(loginPassword)
    {
      if status == Verified {
        reg := reg.(full_name := full_name, official_email := official_email, username := username,
                    password := password, confirmPassword := confirmPassword);
      }
    }

    /** The ID-proof input's onChange: the chosen file, or none; the input is
        rendered only once the ID is verified. */
    method ChooseIdProof(file: Option<string>)
      requires Valid()
      modifies this
      ensures Valid()
      ensures idProofFile == if old(status) == Verified then file else old(idProofFile)
      ensures reg == old(reg) && status == old(status) && verifiedStation == old(verifiedStation)
      ensures loading == old(loading) && verifying == old(verifying) && uploadProgress == old(uploadProgress)
      ensures loginUsername == old(loginUsername) && loginPassword == old(loginPassword)
    {
      if status == Verified {
        idProofFile := file;
      }
    }

    /** handleVerifyPoliceId, run from the Verify button: while the button is
        disabled (busy, already verified, or no ID typed) nothing is looked up
        and nothing changes, so a verified ID is never undone; otherwise the
        status becomes the lookup's outcome, and a verified ID fills in the
        station. */
    method HandleVerifyPoliceId(registry: seq<PoliceIdRow>, fail: bool) returns (lookedUp: bool)
      requires Valid()
      modifies this
      ensures Valid()
      ensures lookedUp <==> !old(verifying) && old(status) != Verified && old(reg.police_id) != ""
      ensures old(status) == Verified ==> status == Verified && reg == old(reg)
      ensures !lookedUp ==> status == old(status) && reg == old(reg) && verifiedStation == old(verifiedStation)
      ensures lookedUp ==> status == Outcome(VerifyPoliceId(registry, old(reg.police_id), fail))
      ensures lookedUp && status == Verified ==>
                var station := VerifyPoliceId(registry, old(reg.police_id), fail).station_name.value;
                verifiedStation == station && reg == old(reg).(police_station := station)
      ensures lookedUp && status == Failed ==> reg == old(reg) && verifiedStation == old(verifiedStation)
      ensures verifying == old(verifying) && loading == old(loading) && idProofFile == old(idProofFile)
      ensures uploadProgress == old(uploadProgress)
      ensures loginUsername == old(loginUsername) && loginPassword == old(loginPassword)
    {
      if !VerifyEnabled() {
        return false;
      }
      lookedUp := true;
      verifying := true;
      var result := VerifyPoliceId(registry, reg.police_id, fail);
      if Outcome(result) == Verified {
        status := Verified;
        verifiedStation := result.station_name.value;
        reg := reg.(police_station := result.station_name.value);
      } else {
        status := Failed;
      }
      verifying := false;
    }

    /** handleIdProofUpload: the storage key it uploads under, and the public
        URL, or `None` when the upload fails. */
    method HandleIdProofUpload(fileName: string, now: nat, suffix: string, uploadFails: bool, publicUrl: string)
      returns (key: string, url: Option<string>)
      modifies this
      ensures key == IdProofName(now, suffix, fileName)
      ensures url == if uploadFails then None else Some(publicUrl)
      ensures uploadProgress == if uploadFails then 50 else 100
      ensures reg == old(reg) && status == old(status) && verifiedStation == old(verifiedStation)
      ensures loading == old(loading) && verifying == old(verifying) && idProofFile == old(idProofFile)
      ensures loginUsername == old(loginUsername) && loginPassword == old(loginPassword)
    {
      uploadProgress := 0;
      key := IdProofName(now, suffix, fileName);
      uploadProgress := 50;
      if uploadFails {
        return key, None;
      }
      uploadProgress := 75;
      uploadProgress := 100;
      url := Some(publicUrl);
    }

    /** handleRegister: a refused registration sends nothing and changes
        nothing. Otherwise the ID proof is uploaded first when one was chosen
        (a failed or empty upload leaves `id_proof_url` unset and the
        registration goes on), then the police sign-up is requested with the
        verified station; the dashboard follows only when it succeeds. */
    method HandleRegister(now: nat, suffix: string, uploadFails: bool, publicUrl: string,
                          serviceError: Option<string>)
      returns (refusal: Option<Refusal>, request: Option<AuthRequest>, nav: Option<string>)
      requires Valid()
      modifies this
      ensures Valid()
      ensures refusal == RegistrationRefusal(old(status), old(reg))
      ensures refusal.Some? ==> request.None? && nav.None? && uploadProgress == old(uploadProgress)
      ensures refusal.None? ==>
                var proof := if old(idProofFile).Some? && !uploadFails then Db.NullIfEmpty(Some(publicUrl)) else None;
                request == Some(SignUpPolice(RegistrationOf(old(reg), proof), serviceError).request)
      ensures refusal.None? ==> request.value.metadata.police_station == Some(verifiedStation)
      ensures refusal.None? ==>
                uploadProgress == if old(idProofFile).None? then old(uploadProgress)
                                  else if uploadFails then 50 else 100
      ensures nav.Some? <==> refusal.None? && serviceError.None?
      ensures nav.Some? ==> nav.value == PoliceDashboardPath
      ensures reg == old(reg) && status == old(status) && verifiedStation == old(verifiedStation)
      ensures loading == (old(loading) && refusal.Some?)
      ensures verifying == old(verifying) && idProofFile == old(idProofFile)
      ensures loginUsername == old(loginUsername) && loginPassword == old(loginPassword)
    {
      refusal := RegistrationRefusal(status, reg);
      if refusal.Some? {
        return refusal, None, None;
      }
      loading := true;
      var idProofUrl: Option<string> := None;
      if idProofFile.Some? {
        var key, url := HandleIdProofUpload(idProofFile.value, now, suffix, uploadFails, publicUrl);
        idProofUrl := Db.NullIfEmpty(url);
      }
      var call := SignUpPolice(RegistrationOf(reg, idProofUrl), serviceError);
      request := Some(call.request);
      nav := if call.error.None? then Some(PoliceDashboardPath) else None;
      loading := false;
    }
  }
}
