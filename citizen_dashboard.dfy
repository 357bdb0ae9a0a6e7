/** The citizen dashboard (src/pages/CitizenDashboard.tsx): the active-alert
    list, loaded from the store and extended by the realtime feed; the choice
    of the alert a sighting is reported for; and the submission of a sighting,
    whose camera photo is first uploaded to storage. The storage upload's
    outcome, the public URL, `Date.now()` and the random suffix are
    parameters. */
module CitizenDashboardPage {
  import opened Types
  import opened Seqs
  import opened Text
  import opened Db
  import opened CameraCaptureComponent

  /** `sighting_${Date.now()}_${suffix}.jpg` */
  function SightingUploadName(now: nat, suffix: string): (name: string)
    ensures |name| >= 9 && name[..9] == "sighting_"
  {
    "sighting_" + UploadName(now, suffix, "jpg")
  }

  /** Every sighting photo is stored as a `.jpg`, whatever the suffix. */
  lemma SightingUploadIsJpg(now: nat, suffix: string)
    ensures FileExtension(SightingUploadName(now, suffix)) == "jpg"
  {
    PrefixedUploadNameExtension("sighting_", now, suffix, "jpg");
  }

  /** A photo taken with the camera is a data URL, so submitting it uploads
      it rather than storing the data URL itself. */
  lemma CameraPhotoIsUploaded(payload: string)
    ensures StartsWith(JpegDataUrl(payload), "data:")
  {
  }

  /** The index of the first alert in the list with that id, -1 if none. */
  function FirstIndexOf(alerts: seq<Alert>, id: string): (k: int)
    ensures -1 <= k < |alerts|
    ensures k >= 0 ==> alerts[k].id == id && forall j :: 0 <= j < k ==> alerts[j].id != id
    ensures k < 0 ==> forall j :: 0 <= j < |alerts| ==> alerts[j].id != id
  {
    if alerts == [] then -1
    else if alerts[0].id == id then 0
    else
      var k := FirstIndexOf(alerts[1..], id);
      if k < 0 then -1 else k + 1
  }

  /** `alerts.find((a) => a.id === alertId)`: the first alert in the list with
      that id. */
  function FindAlert(alerts: seq<Alert>, id: string): (r: Option<Alert>)
    ensures r.None? <==> forall a :: a in alerts ==> a.id != id
    ensures r.Some? ==> r.value in alerts && r.value.id == id
    ensures r.Some? ==> exists k :: 0 <= k < |alerts| && alerts[k] == r.value &&
                                    forall j :: 0 <= j < k ==> alerts[j].id != id
  {
    var k := FirstIndexOf(alerts, id);
    if k < 0 then None else Some(alerts[k])
  }

  /** A newly created active alert pushed onto the head of the loaded list
      gives the rows a reload would show. */
  lemma {:induction false} PrependMatchesReload(rows: seq<Alert>, a: Alert)
    requires a.status == Active
    ensures multiset([a] + ActiveAlerts(rows, false)) == multiset(ActiveAlerts(rows + [a], false))
  {
    var p := (x: Alert) => x.status == Active;
    FilterAppend(rows, [a], p);
    assert Filter([a], p) == [a];
    assert AlertsWithStatus(rows + [a], Active) == AlertsWithStatus(rows, Active) + [a];
  }

  /** The same alert on a newest-first list stays in order when it is at least
      as new as everything already there. */
  lemma PrependKeepsOrder(alerts: seq<Alert>, a: Alert)
    requires SortedDesc(alerts, AlertCreatedAt)
    requires forall b :: b in alerts ==> b.created_at <= a.created_at
    ensures SortedDesc([a] + alerts, AlertCreatedAt)
  {
    var r := [a] + alerts;
    forall i, j | 0 <= i < j < |r| ensures AlertCreatedAt(r[i]) >= AlertCreatedAt(r[j]) {
      assert r[j] == alerts[j - 1];
      if i > 0 {
        assert r[i] == alerts[i - 1];
      }
    }
  }

  class CitizenDashboard {
    var alerts: seq<Alert>
    var loading: bool
    var selectedAlertId: string
    var selectedAlertName: string
    var showSightingDialog: bool

    constructor ()
      ensures alerts == [] && loading && selectedAlertId == "" && selectedAlertName == ""
      ensures !showSightingDialog
    {
      alerts, loading, selectedAlertId, selectedAlertName, showSightingDialog := [], true, "", "", false;
    }

    /** loadAlerts: the list becomes the active alerts, newest first (empty
        when the query fails), and loading ends. */
    method LoadAlerts(rows: seq<Alert>, fail: bool)
      modifies this
      ensures alerts == ActiveAlerts(rows, fail) && !loading
      ensures selectedAlertId == old(selectedAlertId) && selectedAlertName == old(selectedAlertName)
      ensures showSightingDialog == old(showSightingDialog)
    {
      loading := true;
      alerts := ActiveAlerts(rows, fail);
      loading := false;
    }

    /** The realtime subscription's callback: the new alert goes to the head
        of the list and the previous list follows unchanged. */
    method OnAlertInserted(a: Alert)
      modifies this
      ensures |alerts| == |old(alerts)| + 1 && alerts[0] == a && alerts[1..] == old(alerts)
      ensures loading == old(loading) && selectedAlertId == old(selectedAlertId)
      ensures selectedAlertName == old(selectedAlertName) && showSightingDialog == old(showSightingDialog)
    {
      alerts := [a] + alerts;
    }

    /** handleReportSighting: for an id in the list the dialog opens for that
        alert; for any other id nothing changes. */
    method HandleReportSighting(alertId: string)
      modifies this
      ensures alerts == old(alerts) && loading == old(loading)
      ensures FindAlert(alerts, alertId).Some? ==>
                selectedAlertId == alertId && showSightingDialog &&
                selectedAlertName == FindAlert(alerts, alertId).value.child_name
      ensures FindAlert(alerts, alertId).None? ==>
                selectedAlertId == old(selectedAlertId) && selectedAlertName == old(selectedAlertName) &&
                showSightingDialog == old(showSightingDialog)
    {
      var found := FindAlert(alerts, alertId);
      if found.Some? {
        selectedAlertId := alertId;
        selectedAlertName := found.value.child_name;
        showSightingDialog := true;
      }
    }

    /** handleSubmitSighting: a data-URL photo is uploaded first under a
        `sighting_….jpg` key (the first result) and replaced by its public URL;
        a failed upload ends the submission before anything is inserted. Any
        other photo reference goes to createSighting as it is. Every failure is
        caught here, so the dialog's `onSubmit` always completes. */
    method HandleSubmitSighting(data: SightingFormData, tables: Tables, user: Option<User>,
                                now: nat, suffix: string, uploadFails: bool, publicUrl: string,
                                id: string, insertFails: bool)
      returns (uploadKey: Option<string>, created: Option<Sighting>)
      requires tables.Valid()
      modifies tables
      ensures tables.Valid() && tables.alerts == old(tables.alerts)
      ensures var upload := data.photo_url.Some? && StartsWith(data.photo_url.value, "data:");
              uploadKey == if upload then Some(SightingUploadName(now, suffix)) else None
      ensures uploadKey.Some? && uploadFails ==> created.None? && tables.sightings == old(tables.sightings)
      ensures uploadKey.None? || !uploadFails ==>
                var photo := if uploadKey.Some? then Some(publicUrl) else data.photo_url;
                var row := SightingFromForm(data.(photo_url := photo), user, id, now);
                (created.Some? <==> !insertFails && !HasSightingId(old(tables.sightings), id)) &&
                (created.Some? ==> created.value == row && tables.sightings == old(tables.sightings) + [row]) &&
                (created.None? ==> tables.sightings == old(tables.sightings))
    {
      var photo := data.photo_url;
      uploadKey := None;
      if photo.Some? && StartsWith(photo.value, "data:") {
        uploadKey := Some(SightingUploadName(now, suffix));
        if uploadFails {
          return uploadKey, None;
        }
        photo := Some(publicUrl);
      }
      created := tables.CreateSighting(data.(photo_url := photo), user, id, now, insertFails);
    }
  }
}
