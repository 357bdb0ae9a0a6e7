# TRINETRA child-alert system: a verified model

TRINETRA is a React + Supabase web application for missing-child alerts.
Police officers register with a police ID that is checked against a registry.
They create alerts with a photo, and mark alerts as found. Citizens sign up
after a one-time-code check of their phone number, see the active alerts as
they arrive, and report sightings with a camera photo.

This project models the application's decision logic and state changes in
Dafny, one module per source file:

- `Types`: the records and string unions of `src/types/index.ts`.
- `Db`: the `alerts` and `sightings` tables (`Db.Tables`) and the queries of `src/db/api.ts`.
- `AuthContext`: profile and police-ID lookups, the username-to-address mapping, sign-up metadata and the provider's state.
- `AlertFormComponent`, `SightingDialogComponent`, `CameraCaptureComponent`: the three components.
- `PoliceLoginPage`, `CitizenLoginPage`, `PoliceDashboardPage`, `CitizenDashboardPage`, `LoginSelectionPage`: the five pages.
- `Seqs` and `Text`: shared helpers. `Seqs` has filter, stable newest-first sort, limit and `.maybeSingle()`. `Text` has decimal text, JavaScript `trim`, `split('.').pop()` and the `.webp` rename.

Components and pages whose handlers update React state step by step are
classes. Their fields are the state variables and their methods are the
handlers. Queries, validators and string helpers are functions.

Everything outside the application is a parameter:

- the backend's failures (`fail`, `uploadFails`, `serviceError`);
- the ids and timestamps the backend assigns;
- `Date.now()`, the random file-name suffix and `Math.random()`;
- the camera grant and the image encoder's result.

## Model

All source paths are under `TRINETRA---Child-Alert-System-main/src/`.

| member | source | states |
|---|---|---|
| Types.ParseRole | TRINETRA---Child-Alert-System-main/src/types/index.ts:9 | only "police" and "citizen" denote a role, and each parses to the role printed as it |
| Types.ParseRisk | TRINETRA---Child-Alert-System-main/src/types/index.ts:42 | only "low", "medium" and "high" denote a risk level |
| Types.ParseStatus | TRINETRA---Child-Alert-System-main/src/types/index.ts:43 | only "active", "resolved" and "inactive" denote a status |
| Types.EnumTextRoundTrip | TRINETRA---Child-Alert-System-main/src/types/index.ts:9-43 | every role, risk level and status parses back from its text, so each union has exactly its listed members |
| Seqs.MaybeSingle | TRINETRA---Child-Alert-System-main/src/db/api.ts:68 | `.maybeSingle()`: the one matching row; none on error, on no match and on several matches; with at most one match, a row exactly when one exists |
| Seqs.SortDesc | TRINETRA---Child-Alert-System-main/src/db/api.ts:37 | `order(..., {ascending: false})`: sorted newest first and a permutation of the input |
| Seqs.Take | TRINETRA---Child-Alert-System-main/src/db/api.ts:53 | `limit(n)`: a prefix of length min(n, length), so each row at most as often as in the input |
| Seqs.TakeKeepsLargest | TRINETRA---Child-Alert-System-main/src/db/api.ts:52-53 | on a newest-first list, every row the limit drops is no newer than any row it keeps |
| Seqs.FilterAppend | TRINETRA---Child-Alert-System-main/src/db/api.ts:36 | filtering distributes over appending rows |
| Db.AlertsWithStatus | TRINETRA---Child-Alert-System-main/src/db/api.ts:36 | `.eq('status', st)`: exactly the rows with that status |
| Db.ActiveAlerts | TRINETRA---Child-Alert-System-main/src/db/api.ts:32-45 | getActiveAlerts: exactly the active rows (as a multiset too), newest `created_at` first; `[]` on error |
| Db.ResolvedAlerts | TRINETRA---Child-Alert-System-main/src/db/api.ts:47-61 | getResolvedAlerts: only resolved rows, newest `updated_at` first, at most 20, exactly min(20, number resolved), each resolved row at most as often as in the table; no resolved row left out is newer than one listed |
| Db.AlertById | TRINETRA---Child-Alert-System-main/src/db/api.ts:63-76 | getAlertById: a found row is in the table with that id; with unique ids, found exactly when the id exists; none on error |
| Db.SightingsOf | TRINETRA---Child-Alert-System-main/src/db/api.ts:137 | `.eq('alert_id', id)`: exactly the sightings of that alert |
| Db.SightingsByAlertId | TRINETRA---Child-Alert-System-main/src/db/api.ts:133-146 | getSightingsByAlertId: exactly the alert's sightings, newest first; `[]` on error |
| Db.AllSightings | TRINETRA---Child-Alert-System-main/src/db/api.ts:148-161 | getAllSightings: at most 100 rows of the table, each at most as often as in the table, newest first, exactly min(100, count); nothing newer left out; `[]` on error |
| Db.CreatedAlertKeepsForm | TRINETRA---Child-Alert-System-main/src/db/api.ts:9-20 | the inserted alert carries every form field unchanged, the given id, and status active |
| Db.NullIfEmpty | TRINETRA---Child-Alert-System-main/src/db/api.ts:117-120 | JavaScript's `x or null`: absent and empty become null, anything else is kept |
| Db.SightingRowFields | TRINETRA---Child-Alert-System-main/src/db/api.ts:108-120 | the inserted sighting: empty description, contact and photo become null; the reporter is the signed-in user or null; a missing photo is not rejected |
| Db.SetStatus | TRINETRA---Child-Alert-System-main/src/db/api.ts:78-90 | the update: rows with another id are unchanged; rows with the id get the status and timestamp, and their other fields are unchanged |
| Db.RemoveId | TRINETRA---Child-Alert-System-main/src/db/api.ts:92-104 | the delete: exactly the rows with another id remain, and no more rows than before |
| Db.RemoveIdCounts | TRINETRA---Child-Alert-System-main/src/db/api.ts:92-104 | the delete keeps every row with another id as many times as before and drops every row with the id |
| Db.RemoveIdKeepsUnique | TRINETRA---Child-Alert-System-main/src/db/api.ts:92-104 | after the delete the remaining ids are still unique |
| Db.SetStatusIdempotent | TRINETRA---Child-Alert-System-main/src/db/api.ts:78-90 | setting the same status twice equals setting it once, at the later time |
| Db.SetStatusKeepsIds | TRINETRA---Child-Alert-System-main/src/db/api.ts:78-90 | the update keeps ids unique and adds no id |
| Db.ResolvedIdLeavesActive | TRINETRA---Child-Alert-System-main/src/db/api.ts:78-90 | after resolving an id, no alert with that id is on the active list |
| Db.ResolvedAlertHeadsList | TRINETRA---Child-Alert-System-main/src/db/api.ts:47-61 | an alert resolved with the newest timestamp heads the resolved list |
| Db.ResolveMovesAlert | TRINETRA---Child-Alert-System-main/src/db/api.ts:78-90 | resolving an alert takes it off the active list and puts it at the head of the resolved list |
| Db.LaterAlertListedFirst | TRINETRA---Child-Alert-System-main/src/db/api.ts:37 | of two active alerts, the later-created one is listed first |
| Db.Tables.CreateAlert | TRINETRA---Child-Alert-System-main/src/db/api.ts:6-30 | createAlert: appends the active row built from the form and returns it, after which getAlertById finds it; null and no change on error or a taken id |
| Db.Tables.UpdateAlertStatus | TRINETRA---Child-Alert-System-main/src/db/api.ts:78-90 | updateAlertStatus: `false` and no change on error, otherwise the table becomes `SetStatus` of it |
| Db.Tables.DeleteAlert | TRINETRA---Child-Alert-System-main/src/db/api.ts:92-104 | deleteAlert: `false` and no change on error, otherwise only the rows with that id are gone |
| Db.Tables.CreateSighting | TRINETRA---Child-Alert-System-main/src/db/api.ts:107-131 | createSighting: appends the row `SightingFromForm` builds; null and no change on error or a taken id; the alerts are untouched |
| Text.NatToDecimal | TRINETRA---Child-Alert-System-main/src/components/AlertForm.tsx:119 | the decimal text of `Date.now()`: digits only, no leading zero except for 0 |
| Text.DecimalRoundTrip | TRINETRA---Child-Alert-System-main/src/components/AlertForm.tsx:119 | reading the decimal text back gives the number |
| Text.TrimSpec | TRINETRA---Child-Alert-System-main/src/pages/CitizenLogin.tsx:67 | `trim()`: a slice of the input, with only white space cut off either end and none left at either end |
| Text.FileExtensionSpec | TRINETRA---Child-Alert-System-main/src/components/AlertForm.tsx:118 | `split('.').pop()`: the dot-free suffix after the last dot, or the whole name when there is no dot |
| Text.FileExtensionAfterDot | TRINETRA---Child-Alert-System-main/src/components/AlertForm.tsx:118-119 | a name built as `stem.ext` with a dot-free `ext` has extension `ext` |
| Text.ExtDotSpec | TRINETRA---Child-Alert-System-main/src/components/AlertForm.tsx:53 | the one position where `/\.[^/.]+$/` matches, if any |
| Text.WebpNameSpec | TRINETRA---Child-Alert-System-main/src/components/AlertForm.tsx:53 | a trailing `.ext` (non-empty, no `.` or `/`) becomes `.webp`; other names are unchanged |
| Text.UploadNameExtension | TRINETRA---Child-Alert-System-main/src/components/AlertForm.tsx:118-119 | the generated `<time>_<suffix>.<ext>` name keeps the original file's extension |
| AlertFormComponent.ResizeDims | TRINETRA---Child-Alert-System-main/src/components/AlertForm.tsx:33-41 | within 1080 the size is unchanged; otherwise the longer edge becomes 1080, the ratio is kept exactly and the orientation is kept |
| AlertFormComponent.Compress | TRINETRA---Child-Alert-System-main/src/components/AlertForm.tsx:21-70 | compressImage: a WebP file with the renamed name at the resized size, or nothing when encoding fails |
| AlertFormComponent.WebpExtension | TRINETRA---Child-Alert-System-main/src/components/AlertForm.tsx:53 | a renamed name that had an extension ends in `webp` |
| AlertFormComponent.UploadKeyExtension | TRINETRA---Child-Alert-System-main/src/components/AlertForm.tsx:107-119 | the storage key has the uploaded file's extension: `webp` after compression of a name with an extension, the original one otherwise |
| AlertFormComponent.ValidateAlert | TRINETRA---Child-Alert-System-main/src/components/AlertForm.tsx:205-280 | the form validates exactly when name, location, time and description are non-empty and the age is present and within 0..18; the data then carries the fields unchanged |
| AlertFormComponent.AlertForm.constructor | TRINETRA---Child-Alert-System-main/src/components/AlertForm.tsx:73-88 | a fresh form: no photo, nothing in progress, risk level medium |
| AlertFormComponent.AlertForm.SelectRiskLevel | TRINETRA---Child-Alert-System-main/src/components/AlertForm.tsx:262 | the select sets the risk level and nothing else |
| AlertFormComponent.AlertForm.HandleFileChange | TRINETRA---Child-Alert-System-main/src/components/AlertForm.tsx:92-151 | handleFileChange: an upload is attempted exactly for a file on the allow-list whose compression, when over 1 MiB, succeeds, under the generated key; only a successful upload sets the photo; every attempt ends idle |
| AlertFormComponent.AlertForm.Submit | TRINETRA---Child-Alert-System-main/src/components/AlertForm.tsx:153-165 | onFormSubmit: nothing goes out without a photo; otherwise the validated data with `photo_url` replaced by the uploaded photo; not busy afterwards |
| AuthContext.GetProfile | TRINETRA---Child-Alert-System-main/src/contexts/AuthContext.tsx:6-18 | getProfile: null on error; a found profile has that id; with unique ids, found exactly when it exists |
| AuthContext.VerifyPoliceId | TRINETRA---Child-Alert-System-main/src/contexts/AuthContext.tsx:20-45 | verifyPoliceId: rejected on error and on a missing row; otherwise the matching row's flag and station verbatim |
| AuthContext.EmailFor | TRINETRA---Child-Alert-System-main/src/contexts/AuthContext.tsx:99 | the address is the username followed by `@miaoda.com` |
| AuthContext.UsernameOf | TRINETRA---Child-Alert-System-main/src/contexts/AuthContext.tsx:99 | an address of the application's domain gives back its username, any other address gives none |
| AuthContext.EmailRoundTrip | TRINETRA---Child-Alert-System-main/src/contexts/AuthContext.tsx:99 | the username is recovered from its address |
| AuthContext.EmailForInjective | TRINETRA---Child-Alert-System-main/src/contexts/AuthContext.tsx:114 | distinct usernames get distinct addresses |
| AuthContext.SignInWithUsername | TRINETRA---Child-Alert-System-main/src/contexts/AuthContext.tsx:97-110 | signs in at the username's address with the password; the service's error comes back as the result |
| AuthContext.SignUpWithUsername | TRINETRA---Child-Alert-System-main/src/contexts/AuthContext.tsx:112-130 | signs up at the username's address with role citizen and no verified flag; the error comes back as the result |
| AuthContext.PoliceMetadata | TRINETRA---Child-Alert-System-main/src/contexts/AuthContext.tsx:138-146 | police sign-up metadata: role police and `verified: true` |
| AuthContext.SignUpPolice | TRINETRA---Child-Alert-System-main/src/contexts/AuthContext.tsx:132-155 | signs up at the username's address with the police metadata; the error comes back as the result |
| AuthContext.PoliceMetadataFields | TRINETRA---Child-Alert-System-main/src/contexts/AuthContext.tsx:138-146 | the metadata carries the four submitted police fields unchanged and differs from a citizen's |
| AuthContext.SignUpPoliceIgnoresIdProof | TRINETRA---Child-Alert-System-main/src/contexts/AuthContext.tsx:132-155 | the ID-proof URL does not reach the sign-up request |
| AuthContext.AuthProvider.constructor | TRINETRA---Child-Alert-System-main/src/contexts/AuthContext.tsx:62-64 | nobody signed in, loading |
| AuthContext.AuthProvider.LoadSession | TRINETRA---Child-Alert-System-main/src/contexts/AuthContext.tsx:77-83 | getSession: the session's user, their profile when there is one, loading ends |
| AuthContext.AuthProvider.OnAuthStateChange | TRINETRA---Child-Alert-System-main/src/contexts/AuthContext.tsx:85-92 | the new session's user and profile; both null without a session; the profile belongs to the user |
| AuthContext.AuthProvider.RefreshProfile | TRINETRA---Child-Alert-System-main/src/contexts/AuthContext.tsx:66-74 | the user's profile re-read; null without a user |
| AuthContext.AuthProvider.SignOut | TRINETRA---Child-Alert-System-main/src/contexts/AuthContext.tsx:157-161 | user and profile both null |
| PoliceLoginPage.Outcome | TRINETRA---Child-Alert-System-main/src/pages/PoliceLogin.tsx:71-79 | verified exactly when the lookup is valid and names a non-empty station, failed otherwise |
| PoliceLoginPage.VerifiedOnlyFromRegistry | TRINETRA---Child-Alert-System-main/src/pages/PoliceLogin.tsx:69-79 | a verified ID comes from a valid registry row with a station, and never from a failed lookup |
| PoliceLoginPage.RegistrationRefusal | TRINETRA---Child-Alert-System-main/src/pages/PoliceLogin.tsx:127-140 | registration proceeds exactly when verified, matching and long enough; the refusals come in that order |
| PoliceLoginPage.IdProofName | TRINETRA---Child-Alert-System-main/src/pages/PoliceLogin.tsx:93-94 | the ID-proof key starts with `id_proof_` |
| PoliceLoginPage.IdProofNameExtension | TRINETRA---Child-Alert-System-main/src/pages/PoliceLogin.tsx:93-94 | the ID-proof key keeps the chosen file's extension |
| PoliceLoginPage.PoliceLogin.constructor | TRINETRA---Child-Alert-System-main/src/pages/PoliceLogin.tsx:22-39 | empty form, status idle, nothing chosen or busy |
| PoliceLoginPage.PoliceLogin.HandleLogin | TRINETRA---Child-Alert-System-main/src/pages/PoliceLogin.tsx:41-59 | signs in with the login fields; the police dashboard follows exactly when there is no error; not loading afterwards |
| PoliceLoginPage.PoliceLogin.EditPoliceId | TRINETRA---Child-Alert-System-main/src/pages/PoliceLogin.tsx:272-277 | a new ID resets the status to idle; once verified the input is disabled and nothing changes |
| PoliceLoginPage.PoliceLogin.EditRegistration | TRINETRA---Child-Alert-System-main/src/pages/PoliceLogin.tsx:329-401 | the registration fields change only while verified, and the station never does |
| PoliceLoginPage.PoliceLogin.ChooseIdProof | TRINETRA---Child-Alert-System-main/src/pages/PoliceLogin.tsx:409 | the chosen ID-proof file, only while verified |
| PoliceLoginPage.PoliceLogin.HandleVerifyPoliceId | TRINETRA---Child-Alert-System-main/src/pages/PoliceLogin.tsx:61-86 | while the Verify button is disabled (busy, already verified, no ID) no lookup and no change, so a verified ID is never undone; otherwise the status is the lookup's outcome, and a verified ID fills in the station; not busy afterwards |
| PoliceLoginPage.PoliceLogin.HandleIdProofUpload | TRINETRA---Child-Alert-System-main/src/pages/PoliceLogin.tsx:88-121 | the upload key, and the public URL or null on failure |
| PoliceLoginPage.PoliceLogin.HandleRegister | TRINETRA---Child-Alert-System-main/src/pages/PoliceLogin.tsx:123-176 | refused registrations send nothing; otherwise an optional ID-proof upload whose failure is ignored, then the police sign-up with the verified station; the dashboard follows only on success |
| CitizenLoginPage.OtpCode | TRINETRA---Child-Alert-System-main/src/pages/CitizenLogin.tsx:57 | the code is six digits without a leading zero, the decimal text of a number in 100000..999999 |
| CitizenLoginPage.SignupRefusal | TRINETRA---Child-Alert-System-main/src/pages/CitizenLogin.tsx:79-92 | sign-up proceeds exactly when the phone is verified and the passwords match and are long enough; the refusals come in that order |
| CitizenLoginPage.LoginTarget | TRINETRA---Child-Alert-System-main/src/pages/CitizenLogin.tsx:40-41 | the page the user came from when it is given, the citizen dashboard otherwise |
| CitizenLoginPage.CitizenLogin.constructor | TRINETRA---Child-Alert-System-main/src/pages/CitizenLogin.tsx:17-27 | empty fields, no code sent, phone not verified |
| CitizenLoginPage.CitizenLogin.EditPhone | TRINETRA---Child-Alert-System-main/src/pages/CitizenLogin.tsx:192-198 | the phone changes only before it is verified |
| CitizenLoginPage.CitizenLogin.EditOtp | TRINETRA---Child-Alert-System-main/src/pages/CitizenLogin.tsx:210 | the code input changes only while it is shown |
| CitizenLoginPage.CitizenLogin.HandleSendOtp | TRINETRA---Child-Alert-System-main/src/pages/CitizenLogin.tsx:51-63 | a code is sent exactly for a ten-digit phone (and not after verification); an invalid phone changes nothing |
| CitizenLoginPage.CitizenLogin.HandleVerifyOtp | TRINETRA---Child-Alert-System-main/src/pages/CitizenLogin.tsx:66-73 | verified exactly when the trimmed input equals the generated code; verification is never undone |
| CitizenLoginPage.CitizenLogin.HandleSignup | TRINETRA---Child-Alert-System-main/src/pages/CitizenLogin.tsx:75-112 | refused sign-ups send nothing; otherwise a citizen sign-up, and the citizen dashboard only on success |
| CitizenLoginPage.CitizenLogin.HandleLogin | TRINETRA---Child-Alert-System-main/src/pages/CitizenLogin.tsx:29-48 | signs in with the login fields and goes to `LoginTarget` exactly when there is no error |
| CameraCaptureComponent.JpegDataUrl | TRINETRA---Child-Alert-System-main/src/components/CameraCapture.tsx:54 | a JPEG data URL: starts with `data:` and ends with the payload |
| CameraCaptureComponent.CameraCapture.constructor | TRINETRA---Child-Alert-System-main/src/components/CameraCapture.tsx:13-14 | no stream, no still |
| CameraCaptureComponent.CameraCapture.StartCamera | TRINETRA---Child-Alert-System-main/src/components/CameraCapture.tsx:18-34 | the granted stream, or the stream as it was when access fails |
| CameraCaptureComponent.CameraCapture.StopCamera | TRINETRA---Child-Alert-System-main/src/components/CameraCapture.tsx:36-41 | no stream: no-op; otherwise every track is stopped, in order, and the stream cleared |
| CameraCaptureComponent.CameraCapture.CapturePhoto | TRINETRA---Child-Alert-System-main/src/components/CameraCapture.tsx:43-59 | with a drawn frame: the still is recorded and the camera stopped; otherwise nothing changes |
| CameraCaptureComponent.CameraCapture.ConfirmCapture | TRINETRA---Child-Alert-System-main/src/components/CameraCapture.tsx:61-66 | hands on the still only when there is one |
| CameraCaptureComponent.CameraCapture.Retake | TRINETRA---Child-Alert-System-main/src/components/CameraCapture.tsx:68-71 | the still is dropped and the camera started again |
| CameraCaptureComponent.CameraCapture.HandleCancel | TRINETRA---Child-Alert-System-main/src/components/CameraCapture.tsx:73-76 | the camera is stopped, then cancelled |
| SightingDialogComponent.SubmittedData | TRINETRA---Child-Alert-System-main/src/components/SightingDialog.tsx:57 | the typed fields with the dialog's alert id and the captured photo |
| SightingDialogComponent.SightingDialog.constructor | TRINETRA---Child-Alert-System-main/src/components/SightingDialog.tsx:34-43 | blank form, no photo, camera hidden |
| SightingDialogComponent.SightingDialog.Edit | TRINETRA---Child-Alert-System-main/src/components/SightingDialog.tsx:133 | typing changes only the form fields |
| SightingDialogComponent.SightingDialog.OpenCamera | TRINETRA---Child-Alert-System-main/src/components/SightingDialog.tsx:105 | the camera is shown |
| SightingDialogComponent.SightingDialog.HandlePhotoCapture | TRINETRA---Child-Alert-System-main/src/components/SightingDialog.tsx:45-48 | the photo is kept and the camera hidden |
| SightingDialogComponent.SightingDialog.CancelCamera | TRINETRA---Child-Alert-System-main/src/components/SightingDialog.tsx:86 | the camera is hidden and the photo kept |
| SightingDialogComponent.SightingDialog.OnFormSubmit | TRINETRA---Child-Alert-System-main/src/components/SightingDialog.tsx:50-64 | data goes out exactly with a location and a photo; a completed submit resets and closes; not busy afterwards |
| SightingDialogComponent.SightingDialog.HandleClose | TRINETRA---Child-Alert-System-main/src/components/SightingDialog.tsx:66-71 | form reset, photo cleared, camera hidden, dialog closed |
| CitizenDashboardPage.SightingUploadName | TRINETRA---Child-Alert-System-main/src/pages/CitizenDashboard.tsx:78 | the sighting key starts with `sighting_` |
| CitizenDashboardPage.SightingUploadIsJpg | TRINETRA---Child-Alert-System-main/src/pages/CitizenDashboard.tsx:78 | every sighting key has extension `jpg` |
| CitizenDashboardPage.CameraPhotoIsUploaded | TRINETRA---Child-Alert-System-main/src/pages/CitizenDashboard.tsx:70-72 | a camera still starts with `data:`, so submitting it takes the upload branch |
| CitizenDashboardPage.FindAlert | TRINETRA---Child-Alert-System-main/src/pages/CitizenDashboard.tsx:54 | `find`: none exactly when no listed alert has the id; otherwise the first one that does |
| CitizenDashboardPage.PrependMatchesReload | TRINETRA---Child-Alert-System-main/src/pages/CitizenDashboard.tsx:41-42 | a new active alert prepended gives the same alerts a reload would list |
| CitizenDashboardPage.PrependKeepsOrder | TRINETRA---Child-Alert-System-main/src/pages/CitizenDashboard.tsx:41-42 | prepending an alert no older than the list keeps it newest first |
| CitizenDashboardPage.CitizenDashboard.constructor | TRINETRA---Child-Alert-System-main/src/pages/CitizenDashboard.tsx:18-22 | empty list, loading, no dialog |
| CitizenDashboardPage.CitizenDashboard.LoadAlerts | TRINETRA---Child-Alert-System-main/src/pages/CitizenDashboard.tsx:24-35 | the list becomes the active alerts; loading ends |
| CitizenDashboardPage.CitizenDashboard.OnAlertInserted | TRINETRA---Child-Alert-System-main/src/pages/CitizenDashboard.tsx:41-42 | the new alert heads the list and the old list follows unchanged |
| CitizenDashboardPage.CitizenDashboard.HandleReportSighting | TRINETRA---Child-Alert-System-main/src/pages/CitizenDashboard.tsx:53-60 | the dialog opens for the listed alert with that id and its child's name; an unlisted id changes nothing |
| CitizenDashboardPage.CitizenDashboard.HandleSubmitSighting | TRINETRA---Child-Alert-System-main/src/pages/CitizenDashboard.tsx:67-110 | a data-URL photo is uploaded under a `sighting_….jpg` key and replaced by its URL; a failed upload inserts nothing; any other photo goes to createSighting unchanged |
| PoliceDashboardPage.AccessGate | TRINETRA---Child-Alert-System-main/src/pages/PoliceDashboard.tsx:42-52 | no redirect without a profile or for verified police; others to the citizen dashboard; unverified police to `/` |
| PoliceDashboardPage.RiskColor | TRINETRA---Child-Alert-System-main/src/pages/PoliceDashboard.tsx:112-123 | each risk level's text gets its own class; any other text the muted default, in both directions |
| PoliceDashboardPage.RiskColorsDistinct | TRINETRA---Child-Alert-System-main/src/pages/PoliceDashboard.tsx:112-123 | the three levels get three distinct classes, none of them the default |
| PoliceDashboardPage.PoliceDashboard.constructor | TRINETRA---Child-Alert-System-main/src/pages/PoliceDashboard.tsx:35-39 | empty lists, loading, no dialog |
| PoliceDashboardPage.PoliceDashboard.LoadAlerts | TRINETRA---Child-Alert-System-main/src/pages/PoliceDashboard.tsx:54-69 | both lists from the two queries; loading ends |
| PoliceDashboardPage.PoliceDashboard.HandleSubmit | TRINETRA---Child-Alert-System-main/src/pages/PoliceDashboard.tsx:75-89 | a created alert opens the success dialog and reloads both lists, each query with its own failure flag, after which it is listed as active unless the active query failed; a failed insert changes nothing |
| PoliceDashboardPage.PoliceDashboard.CloseSuccess | TRINETRA---Child-Alert-System-main/src/pages/PoliceDashboard.tsx:273 | the success dialog closes |
| PoliceDashboardPage.PoliceDashboard.AskToResolve | TRINETRA---Child-Alert-System-main/src/pages/PoliceDashboard.tsx:209 | the alert waits for confirmation |
| PoliceDashboardPage.PoliceDashboard.HandleMarkAsFound | TRINETRA---Child-Alert-System-main/src/pages/PoliceDashboard.tsx:91-105 | resolves the alert; on success reloads both lists, each query with its own failure flag, the alert is no longer active and nothing is pending; on failure nothing changes |
| PoliceDashboardPage.PoliceDashboard.Confirm | TRINETRA---Child-Alert-System-main/src/pages/PoliceDashboard.tsx:290 | nothing happens unless an id is pending; otherwise that alert is resolved |
| PoliceDashboardPage.PoliceDashboard.CancelResolve | TRINETRA---Child-Alert-System-main/src/pages/PoliceDashboard.tsx:280 | nothing is pending any more |
| LoginSelectionPage.RedirectTarget | TRINETRA---Child-Alert-System-main/src/pages/LoginSelection.tsx:14-22 | no redirect unless both user and profile are present; police to the police dashboard, anyone else to the citizen dashboard |
| LoginSelectionPage.RedirectIgnoresVerified | TRINETRA---Child-Alert-System-main/src/pages/LoginSelection.tsx:15-21 | the redirect does not depend on the verified flag |
| LoginSelectionPage.UnverifiedPoliceBounces | TRINETRA---Child-Alert-System-main/src/pages/LoginSelection.tsx:15-21 | an unverified police account is sent to the police dashboard, whose gate sends it back to `/` |
| LoginSelectionPage.CheckedRedirectTarget | TRINETRA---Child-Alert-System-main/src/pages/LoginSelection.tsx:15-21 | the redirect with the dashboard's verification check: unverified police stay |
| LoginSelectionPage.CheckedRedirectHasNoLoop | TRINETRA---Child-Alert-System-main/src/pages/LoginSelection.tsx:15-21 | with the check, an account sent to the police dashboard is admitted there; the two rules differ only for unverified police |

## Left out

- Supabase calls are not modelled: auth, storage upload and public URL, and the realtime channel of `subscribeToAlerts`. Their outcomes are parameters: a failure flag, a service error, the session, the public URL and the inserted row.
- Browser media and encoding are not modelled: file reading, image decoding, the WebP and JPEG encoders, `getUserMedia` and `fetch` of a data URL. The encoder's output size, or its failure, is a parameter. The canvas's truncation of fractional sizes is not modelled, and `ResizeDims` computes over reals.
- `Date.now()`, `Math.random()`, the random file-name suffix and the backend's `now()` are parameters. `OtpCode` computes over reals rather than floating point.
- The model is sequential. Each handler runs as one step. Promise.all is two independent queries with their own failure flags. Redirects delayed by `setTimeout`, unawaited reloads, and results arriving after unmount or out of order are not modelled.
- Toasts, console output, JSX layout and CSS classes are not modelled, except for the `getRiskColor` table. Dialog animations are not modelled either.
- AlertFormComponent.AlertForm.HandleFileChange: the intermediate progress values 75 and 100 are not stored. Only 50, written before the upload, and the final 0 are. The bar is presentation and is reset to 0 on every path.
- PoliceLoginPage.PoliceLogin.HandleIdProofUpload and PoliceLoginPage.PoliceLogin.HandleRegister: the upload key is computed, but the upload itself is the `uploadFails` parameter.
- Timestamps are integers. Rows with equal timestamps keep table order, whereas the database leaves ties unspecified.
- There is no foreign-key check: a sighting may name any alert id, as in the source, which leaves it to the database.
- Lengths are counted in Dafny characters, not UTF-16 code units. This matters for the password length rule on non-BMP characters. The JavaScript white-space set in `Trim` is listed explicitly.
- Age is an integer. The HTML number input's decimal values and the browser's `required` and `type="email"` validation on the login and registration inputs are not modelled. The handlers run as the browser lets the submit through.
- Plain field setters with no logic are not modelled: the login username and password inputs and the citizen sign-up inputs. The login/register tab switch and the back buttons are not modelled either.
- `handleLogout` on both dashboards is a sign-out (`AuthContext.AuthProvider.SignOut`) followed by navigation to `/`. The "View map" button and the `formatDistanceToNow` display are not modelled.
- PoliceDashboardPage.PoliceDashboard.HandleMarkAsFound keeps the pending id on failure, as the handler is written. The dialog library's action button also closes the dialog through `onOpenChange`, which clears the id. That library behaviour is not modelled.
- SightingDialogComponent.SightingDialog.OnFormSubmit keeps a `submitThrows` parameter for an `onSubmit` that throws. The citizen dashboard's `onSubmit` catches every error itself, so there the parameter is always false.
- The `from` location state is modelled as an optional string. Non-string values are not modelled.
- `AlertCard.tsx` is presentation only, and `routes.tsx` is a static table: `/` is the landing page. Neither is part of this model.
- A disabled or unrendered control has no handler call. Where the source disables a control, the modelled handler is a no-op in that state. The doc comment of each method names the condition.

## Findings

| source | as written | input that shows it | evidently intended | confidence | as-written member | corrected member |
|---|---|---|---|---|---|---|
| TRINETRA---Child-Alert-System-main/src/pages/LoginSelection.tsx:15-21 | the landing page sends every police profile to `/police-dashboard` without checking `verified`. The dashboard's gate (PoliceDashboard.tsx:42-52) sends an unverified one back to `/`, and the landing page redirects again on mount, so the two pages bounce back and forth | a signed-in user whose profile has role `police` and `verified = false` | an unverified police account stays on the landing page, or wherever the dashboard gate sends it, instead of looping | medium, not executed | LoginSelectionPage.UnverifiedPoliceBounces | LoginSelectionPage.CheckedRedirectHasNoLoop |
