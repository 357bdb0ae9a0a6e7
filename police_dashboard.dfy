/** The police dashboard (src/pages/PoliceDashboard.tsx): the access gate on
    the signed-in profile, the risk-level colours, and the page's lists of
    active and resolved alerts, refreshed after an alert is created or marked
    as found. The store is `Db.Tables`; each query's failure is a parameter. */
module PoliceDashboardPage {
  import opened Types
  import opened Seqs
  import opened Db

  /** The redirect the dashboard's effect performs for the current profile:
      none while no profile is loaded or for a verified police account; a
      non-police account goes to the citizen dashboard; an unverified police
      account goes home. */
  function AccessGate(profile: Option<Profile>): (r: Option<string>)
    ensures r.None? <==> profile.None? || (profile.value.role == Police && profile.value.verified)
    ensures profile.Some? && profile.value.role != Police ==> r == Some(CitizenDashboardPath)
    ensures profile.Some? && profile.value.role == Police && !profile.value.verified ==> r == Some(HomePath)
  {
    match profile
    case None => None
    case Some(p) =>
      if p.role != Police then Some(CitizenDashboardPath)
      else if !p.verified then Some(HomePath)
      else None
  }

  const HighRiskClass: string := "bg-destructive text-destructive-foreground"
  const MediumRiskClass: string := "bg-[hsl(var(--warning))] text-white"
  const LowRiskClass: string := "bg-[hsl(var(--success))] text-white"
  const DefaultRiskClass: string := "bg-muted text-muted-foreground"

  /** getRiskColor: the badge classes of a risk level's text; any other text
      gets the muted default. */
  function RiskColor(risk: string): (c: string)
    ensures ParseRisk(risk).None? <==> c == DefaultRiskClass
    ensures ParseRisk(risk) == Some(High) <==> c == HighRiskClass
    ensures ParseRisk(risk) == Some(Medium) <==> c == MediumRiskClass
    ensures ParseRisk(risk) == Some(Low) <==> c == LowRiskClass
  {
    if risk == "high" then HighRiskClass
    else if risk == "medium" then MediumRiskClass
    else if risk == "low" then LowRiskClass
    else DefaultRiskClass
  }

  /** The three levels get three different colours, none of them the
      default. */
  lemma RiskColorsDistinct(a: RiskLevel, b: RiskLevel)
    ensures RiskColor(RiskText(a)) == RiskColor(RiskText(b)) ==> a == b
    ensures RiskColor(RiskText(a)) != DefaultRiskClass
  {
    EnumTextRoundTrip(Citizen, a, Active);
    EnumTextRoundTrip(Citizen, b, Active);
  }

  class PoliceDashboard {
    var activeAlerts: seq<Alert>
    var resolvedAlerts: seq<Alert>
    var loading: bool
    var showSuccess: bool
    /** The id waiting for confirmation in the mark-as-found dialog. */
    var alertToResolve: Option<string>

    constructor ()
      ensures activeAlerts == [] && resolvedAlerts == [] && loading && !showSuccess
      ensures alertToResolve.None?
    {
      activeAlerts, resolvedAlerts, loading, showSuccess, alertToResolve := [], [], true, false, None;
    }

    /** loadAlerts: both lists come from the two queries together; each
        query turns its own failure into an empty list. */
    method LoadAlerts(rows: seq<Alert>, activeFails: bool, resolvedFails: bool)
      modifies this
      ensures activeAlerts == ActiveAlerts(rows, activeFails)
      ensures resolvedAlerts == ResolvedAlerts(rows, resolvedFails)
      ensures !loading && showSuccess == old(showSuccess) && alertToResolve == old(alertToResolve)
    {
      loading := true;
      var active := ActiveAlerts(rows, activeFails);
      var resolved := ResolvedAlerts(rows, resolvedFails);
      activeAlerts, resolvedAlerts := active, resolved;
      loading := false;
    }

    /** handleSubmit (the alert form's `onSubmit`): a created alert opens the
        success dialog and reloads both lists, after which it is listed as
        active; a failed insert changes nothing on the page. */
    method HandleSubmit(data: AlertFormData, tables: Tables, id: string, now: int, fail: bool,
                        activeFails: bool, resolvedFails: bool)
      returns (created: Option<Alert>)
      requires tables.Valid()
      modifies this, tables
      ensures tables.Valid() && tables.sightings == old(tables.sightings)
      ensures created.Some? <==> !fail && !HasAlertId(old(tables.alerts), id)
      ensures created.Some? ==>
                created.value == AlertFromForm(data, id, now) && tables.alerts == old(tables.alerts) + [created.value]
      ensures created.None? ==> tables.alerts == old(tables.alerts)
      ensures created.Some? ==>
                showSuccess && !loading &&
                activeAlerts == ActiveAlerts(tables.alerts, activeFails) &&
                resolvedAlerts == ResolvedAlerts(tables.alerts, resolvedFails)
      ensures created.Some? && !activeFails ==> created.value in activeAlerts
      ensures created.None? ==>
                showSuccess == old(showSuccess) && activeAlerts == old(activeAlerts) &&
                resolvedAlerts == old(resolvedAlerts) && loading == old(loading)
      ensures alertToResolve == old(alertToResolve)
    {
      created := tables.CreateAlert(data, id, now, fail);
      if created.Some? {
        showSuccess := true;
        LoadAlerts(tables.alerts, activeFails, resolvedFails);
        assert created.value in tables.alerts;
      }
    }

    /** The success dialog's Close button. */
    method CloseSuccess()
      modifies this
      ensures !showSuccess
      ensures activeAlerts == old(activeAlerts) && resolvedAlerts == old(resolvedAlerts)
      ensures loading == old(loading) && alertToResolve == old(alertToResolve)
    {
      showSuccess := false;
    }

    /** The "Mark as found" button of an alert card: the alert waits for
        confirmation. */
    method AskToResolve(alertId: string)
      modifies this
      ensures alertToResolve == Some(alertId)
      ensures activeAlerts == old(activeAlerts) && resolvedAlerts == old(resolvedAlerts)
      ensures loading == old(loading) && showSuccess == old(showSuccess)
    {
      alertToResolve := Some(alertId);
    }

    /** handleMarkAsFound: the alert's status becomes resolved; on success
        both lists are reloaded, the resolved alert is no longer active, and
        nothing waits for confirmation any more. On failure the page is
        unchanged and the pending id stays. */
    method HandleMarkAsFound(alertId: string, tables: Tables, now: int, fail: bool,
                             activeFails: bool, resolvedFails: bool)
      returns (ok: bool)
      requires tables.Valid()
      modifies this, tables
      ensures tables.Valid() && tables.sightings == old(tables.sightings)
      ensures ok == !fail
      ensures tables.alerts == if ok then SetStatus(old(tables.alerts), alertId, Resolved, now) else old(tables.alerts)
      ensures ok ==>
                alertToResolve.None? && !loading &&
                activeAlerts == ActiveAlerts(tables.alerts, activeFails) &&
                resolvedAlerts == ResolvedAlerts(tables.alerts, resolvedFails)
      ensures ok ==> forall a :: a in activeAlerts ==> a.id != alertId
      ensures !ok ==> alertToResolve == old(alertToResolve) && activeAlerts == old(activeAlerts) &&
                      resolvedAlerts == old(resolvedAlerts) && loading == old(loading)
      ensures showSuccess == old(showSuccess)
    {
      ok := tables.UpdateAlertStatus(alertId, Resolved, now, fail);
      if ok {
        LoadAlerts(tables.alerts, activeFails, resolvedFails);
        ResolvedIdLeavesActive(old(tables.alerts), alertId, now, activeFails);
        alertToResolve := None;
      }
    }

    /** The confirm button: `alertToResolve && handleMarkAsFound(...)`, so
        nothing happens unless an id (a non-empty one) is pending. */
    method Confirm(tables: Tables, now: int, fail: bool, activeFails: bool, resolvedFails: bool)
      returns (attempted: bool)
      requires tables.Valid()
      modifies this, tables
      ensures tables.Valid() && tables.sightings == old(tables.sightings)
      ensures attempted <==> old(alertToResolve).Some? && old(alertToResolve).value != ""
      ensures !attempted ==>
                tables.alerts == old(tables.alerts) && alertToResolve == old(alertToResolve) &&
                activeAlerts == old(activeAlerts) && resolvedAlerts == old(resolvedAlerts)
      ensures attempted ==>
                tables.alerts == (if fail then old(tables.alerts)
                                  else SetStatus(old(tables.alerts), old(alertToResolve).value, Resolved, now))
      ensures attempted && !fail ==> alertToResolve.None?
    {
      if alertToResolve.None? || alertToResolve.value == "" {
        return false;
      }
      attempted := true;
      var ok := HandleMarkAsFound(alertToResolve.value, tables, now, fail, activeFails, resolvedFails);
    }

    /** Dismissing the confirmation dialog. */
    method CancelResolve()
      modifies this
      ensures alertToResolve.None?
      ensures activeAlerts == old(activeAlerts) && resolvedAlerts == old(resolvedAlerts)
      ensures loading == old(loading) && showSuccess == old(showSuccess)
    {
      alertToResolve := None;
    }
  }
}
