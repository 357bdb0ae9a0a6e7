/** The data-access layer (src/db/api.ts) over an in-memory model of the
    `alerts` and `sightings` tables. The queries are functions of the table
    contents; the inserts, the update and the delete are methods of `Tables`.
    Every backend failure is a `fail` parameter: a failed call returns `None`,
    `[]` or `false` and leaves the tables as they were. */
module Db {
  import opened Types
  import opened Seqs

  const ResolvedLimit: nat := 20
  const SightingsLimit: nat := 100

  function AlertCreatedAt(a: Alert): int { a.created_at }
  function AlertUpdatedAt(a: Alert): int { a.updated_at }
  function SightingCreatedAt(s: Sighting): int { s.created_at }

  /** The primary key of each table: no two rows share an id. */
  predicate UniqueAlertIds(rows: seq<Alert>) {
    forall i, j :: 0 <= i < j < |rows| ==> rows[i].id != rows[j].id
  }

  predicate UniqueSightingIds(rows: seq<Sighting>) {
    forall i, j :: 0 <= i < j < |rows| ==> rows[i].id != rows[j].id
  }

  predicate HasAlertId(rows: seq<Alert>, id: string) {
    exists a :: a in rows && a.id == id
  }

  predicate HasSightingId(rows: seq<Sighting>, id: string) {
    exists s :: s in rows && s.id == id
  }

  // ---------------------------------------------------------------------------
  // Filters

  /** `.eq('status', st)` */
  function AlertsWithStatus(rows: seq<Alert>, st: AlertStatus): (r: seq<Alert>)
    ensures forall a :: a in r <==> a in rows && a.status == st
  {
    Filter(rows, (a: Alert) => a.status == st)
  }

  /** `.eq('alert_id', alertId)` */
  function SightingsOf(rows: seq<Sighting>, alertId: string): (r: seq<Sighting>)
    ensures forall s :: s in r <==> s in rows && s.alert_id == alertId
  {
    Filter(rows, (s: Sighting) => s.alert_id == alertId)
  }

  // ---------------------------------------------------------------------------
  // Queries

  /** getActiveAlerts: exactly the active rows, newest `created_at` first;
      `[]` on error. */
  function ActiveAlerts(rows: seq<Alert>, fail: bool): (r: seq<Alert>)
    ensures fail ==> r == []
    ensures !fail ==> forall a :: a in r <==> a in rows && a.status == Active
    ensures !fail ==> multiset(r) == multiset(AlertsWithStatus(rows, Active))
    ensures SortedDesc(r, AlertCreatedAt)
  {
    if fail then []
    else
      var r := SortDesc(AlertsWithStatus(rows, Active), AlertCreatedAt);
      assert forall a :: a in r <==> a in rows && a.status == Active by {
        forall a ensures a in r <==> a in rows && a.status == Active {
          SortDescMembers(AlertsWithStatus(rows, Active), AlertCreatedAt, a);
        }
      }
      r
  }

  /** getResolvedAlerts: at most 20 resolved rows, newest `updated_at` first,
      and every resolved row left out is no newer than every row returned;
      `[]` on error. */
  function ResolvedAlerts(rows: seq<Alert>, fail: bool): (r: seq<Alert>)
    ensures |r| <= ResolvedLimit
    ensures fail ==> r == []
    ensures forall a :: a in r ==> a in rows && a.status == Resolved
    ensures !fail ==> multiset(r) <= multiset(AlertsWithStatus(rows, Resolved))
    ensures SortedDesc(r, AlertUpdatedAt)
    ensures !fail ==> |r| == if |AlertsWithStatus(rows, Resolved)| <= ResolvedLimit
                             then |AlertsWithStatus(rows, Resolved)| else ResolvedLimit
    ensures !fail ==> forall a, b :: a in rows && a.status == Resolved && a !in r && b in r ==>
                        b.updated_at >= a.updated_at
  {
    if fail then []
    else
      var all := AlertsWithStatus(rows, Resolved);
      var sorted := SortDesc(all, AlertUpdatedAt);
      var r := Take(sorted, ResolvedLimit);
      TakeOfSorted(sorted, AlertUpdatedAt, ResolvedLimit);
      assert forall a :: a in sorted <==> a in all by {
        forall a ensures a in sorted <==> a in all {
          SortDescMembers(all, AlertUpdatedAt, a);
        }
      }
      assert forall a, b :: a in rows && a.status == Resolved && a !in r && b in r ==>
               b.updated_at >= a.updated_at by {
        forall a, b | a in rows && a.status == Resolved && a !in r && b in r
          ensures b.updated_at >= a.updated_at
        {
          TakeKeepsLargest(sorted, AlertUpdatedAt, ResolvedLimit, a, b);
        }
      }
      r
  }

  /** getAlertById (`.eq('id', id).maybeSingle()`): the row with that id, or
      `None` when there is none, on error, and when more than one row matches. */
  function AlertById(rows: seq<Alert>, id: string, fail: bool): (r: Option<Alert>)
    ensures r.Some? ==> r.value in rows && r.value.id == id
    ensures !fail && UniqueAlertIds(rows) ==> (r.Some? <==> HasAlertId(rows, id))
    ensures fail ==> r.None?
  {
    var r := MaybeSingle(rows, (a: Alert) => a.id == id, fail);
    assert UniqueAlertIds(rows) ==> AtMostOne(rows, (a: Alert) => a.id == id);
    r
  }

  /** getSightingsByAlertId: the sightings of one alert, newest first; `[]` on
      error. */
  function SightingsByAlertId(rows: seq<Sighting>, alertId: string, fail: bool): (r: seq<Sighting>)
    ensures fail ==> r == []
    ensures !fail ==> forall s :: s in r <==> s in rows && s.alert_id == alertId
    ensures !fail ==> multiset(r) == multiset(SightingsOf(rows, alertId))
    ensures SortedDesc(r, SightingCreatedAt)
  {
    if fail then []
    else
      var r := SortDesc(SightingsOf(rows, alertId), SightingCreatedAt);
      assert forall s :: s in r <==> s in rows && s.alert_id == alertId by {
        forall s ensures s in r <==> s in rows && s.alert_id == alertId {
          SortDescMembers(SightingsOf(rows, alertId), SightingCreatedAt, s);
        }
      }
      r
  }

  /** getAllSightings: the 100 newest sightings, newest first; `[]` on error. */
  function AllSightings(rows: seq<Sighting>, fail: bool): (r: seq<Sighting>)
    ensures |r| <= SightingsLimit
    ensures fail ==> r == []
    ensures forall s :: s in r ==> s in rows
    ensures !fail ==> multiset(r) <= multiset(rows)
    ensures SortedDesc(r, SightingCreatedAt)
    ensures !fail ==> |r| == if |rows| <= SightingsLimit then |rows| else SightingsLimit
    ensures !fail ==> forall s, t :: s in rows && s !in r && t in r ==> t.created_at >= s.created_at
  {
    if fail then []
    else
      var sorted := SortDesc(rows, SightingCreatedAt);
      var r := Take(sorted, SightingsLimit);
      assert forall s :: s in sorted <==> s in rows by {
        forall s ensures s in sorted <==> s in rows {
          SortDescMembers(rows, SightingCreatedAt, s);
        }
      }
      assert forall s, t :: s in rows && s !in r && t in r ==> t.created_at >= s.created_at by {
        forall s, t | s in rows && s !in r && t in r ensures t.created_at >= s.created_at {
          TakeKeepsLargest(sorted, SightingCreatedAt, SightingsLimit, s, t);
        }
      }
      r
  }

  // ---------------------------------------------------------------------------
  // Rows written by the inserts and the update

  /** The row createAlert inserts: the form's fields, the backend's id and
      timestamps, and status `'active'`. */
  function AlertFromForm(data: AlertFormData, id: string, now: int): Alert {
    Alert(id, data.child_name, data.age, data.photo_url, data.last_seen_location,
          data.last_seen_lat, data.last_seen_lng, data.time_missing, data.description,
          data.risk_level, Active, now, now)
  }

  /** The form fields an alert row carries. */
  function FormOf(a: Alert): AlertFormData {
    AlertFormData(a.child_name, a.age, a.photo_url, a.last_seen_location, a.last_seen_lat,
                  a.last_seen_lng, a.time_missing, a.description, a.risk_level)
  }

  /** createAlert copies every form field unchanged and always sets status
      `'active'`. */
  lemma CreatedAlertKeepsForm(data: AlertFormData, id: string, now: int)
    ensures FormOf(AlertFromForm(data, id, now)) == data
    ensures AlertFromForm(data, id, now).status == Active
    ensures AlertFromForm(data, id, now).id == id
  {
  }

  /** JavaScript's `x || null` (or `x || undefined`) on an optional string:
      absent and empty both become null. */
  function NullIfEmpty(o: Option<string>): (r: Option<string>)
    ensures r.Some? <==> o.Some? && o.value != ""
    ensures r.Some? ==> r == o
  {
    if o.Some? && o.value != "" then o else None
  }

  /** The row createSighting inserts. */
  function SightingFromForm(data: SightingFormData, user: Option<User>, id: string, now: int): Sighting {
    Sighting(id, data.alert_id, data.location, data.lat, data.lng,
             NullIfEmpty(data.description), NullIfEmpty(data.reporter_contact),
             NullIfEmpty(if user.Some? then Some(user.value.id) else None),
             NullIfEmpty(data.photo_url), now)
  }

  /** Empty optional fields are stored as null, the reporter is the signed-in
      user (null when anonymous), and a missing photo is not rejected. */
  lemma SightingRowFields(data: SightingFormData, user: Option<User>, id: string, now: int)
    ensures var s := SightingFromForm(data, user, id, now);
      && s.alert_id == data.alert_id && s.location == data.location
      && (s.description.Some? <==> data.description.Some? && data.description.value != "")
      && (s.reporter_contact.Some? <==> data.reporter_contact.Some? && data.reporter_contact.value != "")
      && (s.photo_url.Some? <==> data.photo_url.Some? && data.photo_url.value != "")
      && (s.photo_url.Some? ==> s.photo_url == data.photo_url)
      && (s.reporter_id.Some? <==> user.Some? && user.value.id != "")
      && (s.reporter_id.Some? ==> s.reporter_id.value == user.value.id)
  {
  }

  /** updateAlertStatus on the table: the rows with that id get the new status
      and `updated_at`; nothing else changes. */
  function SetStatus(rows: seq<Alert>, id: string, st: AlertStatus, now: int): (r: seq<Alert>)
    ensures |r| == |rows|
    ensures forall i :: 0 <= i < |rows| && rows[i].id != id ==> r[i] == rows[i]
    ensures forall i :: 0 <= i < |rows| && rows[i].id == id ==>
              r[i].status == st && r[i].updated_at == now &&
              r[i].(status := rows[i].status, updated_at := rows[i].updated_at) == rows[i]
  {
    if rows == [] then []
    else
      var h := rows[0];
      var tail := rows[1..];
      var rest := SetStatus(tail, id, st, now);
      var r := [if h.id == id then h.(status := st, updated_at := now) else h] + rest;
      assert forall i :: 1 <= i < |rows| ==> r[i] == rest[i - 1] && rows[i] == tail[i - 1];
      r
  }

  /** deleteAlert on the table: the rows with that id are gone, and every
      other row stays (as many times as before: RemoveIdCounts). */
  function RemoveId(rows: seq<Alert>, id: string): (r: seq<Alert>)
    ensures forall a :: a in r <==> a in rows && a.id != id
    ensures |r| <= |rows|
  {
    if rows == [] then []
    else
      var rest := RemoveId(rows[1..], id);
      assert rows == [rows[0]] + rows[1..];
      if rows[0].id == id then rest else [rows[0]] + rest
  }

  /** Every row without that id survives the delete as many times as it was
      in the table, and no row with it survives. */
  lemma {:induction false} RemoveIdCounts(rows: seq<Alert>, id: string)
    ensures forall a :: multiset(RemoveId(rows, id))[a] == if a.id == id then 0 else multiset(rows)[a]
  {
    if rows != [] {
      var tail := rows[1..];
      RemoveIdCounts(tail, id);
      assert rows == [rows[0]] + tail;
      assert multiset(rows) == multiset{rows[0]} + multiset(tail);
    }
  }

  /** Deleting rows keeps the remaining ids unique. */
  lemma {:induction false} RemoveIdKeepsUnique(rows: seq<Alert>, id: string)
    requires UniqueAlertIds(rows)
    ensures UniqueAlertIds(RemoveId(rows, id))
  {
    if rows != [] {
      var tail := rows[1..];
      assert UniqueAlertIds(tail) by {
        forall i, j | 0 <= i < j < |tail| ensures tail[i].id != tail[j].id {
          assert tail[i] == rows[i + 1] && tail[j] == rows[j + 1];
        }
      }
      RemoveIdKeepsUnique(tail, id);
      var rest := RemoveId(tail, id);
      if rows[0].id != id {
        var r := [rows[0]] + rest;
        forall i, j | 0 <= i < j < |r| ensures r[i].id != r[j].id {
          assert r[j] == rest[j - 1];
          if i > 0 {
            assert r[i] == rest[i - 1];
          } else {
            assert r[j] in rest;
            var k :| 0 <= k < |tail| && tail[k] == r[j];
            assert rows[k + 1] == r[j];
          }
        }
      }
    }
  }

  // ---------------------------------------------------------------------------
  // Properties relating several calls

  /** Setting the same status twice gives the table the second call alone
      would give: only the later timestamp survives. */
  lemma {:induction false} SetStatusIdempotent(rows: seq<Alert>, id: string, st: AlertStatus, t1: int, t2: int)
    ensures SetStatus(SetStatus(rows, id, st, t1), id, st, t2) == SetStatus(rows, id, st, t2)
  {
    if rows != [] {
      SetStatusIdempotent(rows[1..], id, st, t1, t2);
      assert SetStatus(rows, id, st, t1)[1..] == SetStatus(rows[1..], id, st, t1);
    }
  }

  /** The update keeps the primary key: ids are untouched. */
  lemma SetStatusKeepsIds(rows: seq<Alert>, id: string, st: AlertStatus, now: int)
    requires UniqueAlertIds(rows)
    ensures UniqueAlertIds(SetStatus(rows, id, st, now))
    ensures forall a :: a in SetStatus(rows, id, st, now) ==> HasAlertId(rows, a.id)
  {
    var r := SetStatus(rows, id, st, now);
    assert forall i :: 0 <= i < |rows| ==> r[i].id == rows[i].id;
    forall a | a in r ensures HasAlertId(rows, a.id) {
      var i :| 0 <= i < |r| && r[i] == a;
      assert rows[i] in rows;
    }
  }

  /** After the alert with that id is resolved, the active list shows no
      alert with that id. */
  lemma ResolvedIdLeavesActive(rows: seq<Alert>, id: string, now: int, fail: bool)
    ensures forall a :: a in ActiveAlerts(SetStatus(rows, id, Resolved, now), fail) ==> a.id != id
  {
    var after := SetStatus(rows, id, Resolved, now);
    forall a | a in ActiveAlerts(after, fail) ensures a.id != id {
      var i :| 0 <= i < |after| && after[i] == a;
      assert after[i].status == Active;
    }
  }

  /** With some resolved row, the resolved list starts with the head of the
      sorted resolved rows. */
  lemma ResolvedAlertsHead(rows: seq<Alert>)
    requires |AlertsWithStatus(rows, Resolved)| > 0
    ensures |ResolvedAlerts(rows, false)| > 0
    ensures ResolvedAlerts(rows, false)[0] == SortDesc(AlertsWithStatus(rows, Resolved), AlertUpdatedAt)[0]
  {
  }

  /** When every row was last updated before `now`, the row whose status was
      just set at `now` is the only one that new. */
  lemma OnlyUpdatedRowIsNew(rows: seq<Alert>, k: nat, now: int, a: Alert)
    requires UniqueAlertIds(rows) && k < |rows|
    requires forall b :: b in rows ==> b.updated_at < now
    requires a in SetStatus(rows, rows[k].id, Resolved, now) && a.updated_at >= now
    ensures a == SetStatus(rows, rows[k].id, Resolved, now)[k]
  {
    var after := SetStatus(rows, rows[k].id, Resolved, now);
    var i :| 0 <= i < |after| && after[i] == a;
    assert rows[i] in rows;
    assert rows[i].id == rows[k].id;
    assert i == k;
  }

  /** When the update of a resolved alert is the newest, it heads the
      resolved list. */
  lemma ResolvedAlertHeadsList(rows: seq<Alert>, k: nat, now: int)
    requires UniqueAlertIds(rows) && k < |rows|
    requires forall a :: a in rows ==> a.updated_at < now
    ensures var after := SetStatus(rows, rows[k].id, Resolved, now);
      && |ResolvedAlerts(after, false)| > 0
      && ResolvedAlerts(after, false)[0] == after[k]
  {
    var after := SetStatus(rows, rows[k].id, Resolved, now);
    var x := after[k];
    assert x.status == Resolved && x.updated_at == now;
    var all := AlertsWithStatus(after, Resolved);
    assert x in all;
    var sorted := SortDesc(all, AlertUpdatedAt);
    SortDescMembers(all, AlertUpdatedAt, x);
    forall y | y in sorted && AlertUpdatedAt(y) >= AlertUpdatedAt(x) ensures y == x {
      SortDescMembers(all, AlertUpdatedAt, y);
      OnlyUpdatedRowIsNew(rows, k, now, y);
    }
    StrictMaxHeads(sorted, AlertUpdatedAt, x);
    ResolvedAlertsHead(after);
  }

  /** Marking an alert resolved takes it off the active list and, when its
      update is the newest, puts it at the head of the resolved list. */
  lemma ResolveMovesAlert(rows: seq<Alert>, k: nat, now: int)
    requires UniqueAlertIds(rows) && k < |rows|
    requires forall a :: a in rows ==> a.updated_at < now
    ensures var after := SetStatus(rows, rows[k].id, Resolved, now);
      && (forall a :: a in ActiveAlerts(after, false) ==> a.id != rows[k].id)
      && |ResolvedAlerts(after, false)| > 0
      && ResolvedAlerts(after, false)[0] == after[k]
  {
    ResolvedIdLeavesActive(rows, rows[k].id, now, false);
    ResolvedAlertHeadsList(rows, k, now);
  }

  /** Two active alerts created one after the other: the later one is listed
      first. */
  lemma LaterAlertListedFirst(rows: seq<Alert>, a: Alert, b: Alert)
    requires a.status == Active && b.status == Active
    requires a.created_at < b.created_at
    ensures var r := ActiveAlerts(rows + [a] + [b], false);
      exists i, j :: 0 <= i < j < |r| && r[i] == b && r[j] == a
  {
    var rows' := rows + [a] + [b];
    var r := ActiveAlerts(rows', false);
    assert a in rows' && b in rows';
    var i :| 0 <= i < |r| && r[i] == b;
    var j :| 0 <= j < |r| && r[j] == a;
    LargerKeyComesFirst(r, AlertCreatedAt, i, j);
  }

  // ---------------------------------------------------------------------------
  // The tables

  class Tables {
    var alerts: seq<Alert>
    var sightings: seq<Sighting>

    ghost predicate Valid()
      reads this
    {
      UniqueAlertIds(alerts) && UniqueSightingIds(sightings)
    }

    constructor ()
      ensures Valid() && alerts == [] && sightings == []
    {
      alerts := [];
      sightings := [];
    }

    /** createAlert: inserts a row with status `'active'` and returns it; the
        insert fails (null) on a backend error or when the backend's new id is
        already taken. After a successful insert, getAlertById finds the row. */
    method CreateAlert(data: AlertFormData, id: string, now: int, fail: bool) returns (r: Option<Alert>)
      requires Valid()
      modifies this
      ensures Valid() && sightings == old(sightings)
      ensures r.Some? <==> !fail && !HasAlertId(old(alerts), id)
      ensures r.Some? ==> r.value == AlertFromForm(data, id, now) && alerts == old(alerts) + [r.value]
      ensures r.Some? ==> AlertById(alerts, id, false) == r
      ensures r.None? ==> alerts == old(alerts)
    {
      if fail || HasAlertId(alerts, id) {
        return None;
      }
      var row := AlertFromForm(data, id, now);
      alerts := alerts + [row];
      assert row in alerts;
      r := Some(row);
    }

    /** updateAlertStatus: on success only `status` and `updated_at` of the rows
        with that id change; an id with no row is not an error. */
    method UpdateAlertStatus(id: string, st: AlertStatus, now: int, fail: bool) returns (ok: bool)
      requires Valid()
      modifies this
      ensures Valid() && sightings == old(sightings)
      ensures ok == !fail
      ensures alerts == if ok then SetStatus(old(alerts), id, st, now) else old(alerts)
    {
      if fail {
        return false;
      }
      SetStatusKeepsIds(alerts, id, st, now);
      alerts := SetStatus(alerts, id, st, now);
      ok := true;
    }

    /** deleteAlert: on success the row with that id is gone; `false` on error. */
    method DeleteAlert(id: string, fail: bool) returns (ok: bool)
      requires Valid()
      modifies this
      ensures Valid() && sightings == old(sightings)
      ensures ok == !fail
      ensures alerts == if ok then RemoveId(old(alerts), id) else old(alerts)
    {
      if fail {
        return false;
      }
      RemoveIdKeepsUnique(alerts, id);
      alerts := RemoveId(alerts, id);
      ok := true;
    }

    /** createSighting: inserts the row `SightingFromForm` builds, reporter
        being the signed-in user; null on error or a taken id. */
    method CreateSighting(data: SightingFormData, user: Option<User>, id: string, now: int, fail: bool)
      returns (r: Option<Sighting>)
      requires Valid()
      modifies this
      ensures Valid() && alerts == old(alerts)
      ensures r.Some? <==> !fail && !HasSightingId(old(sightings), id)
      ensures r.Some? ==> r.value == SightingFromForm(data, user, id, now) && sightings == old(sightings) + [r.value]
      ensures r.None? ==> sightings == old(sightings)
    {
      if fail || HasSightingId(sightings, id) {
        return None;
      }
      var row := SightingFromForm(data, user, id, now);
      sightings := sightings + [row];
      r := Some(row);
    }
  }
}
