/**
 * An organisation's view of the applications to its opportunities, and the
 * one write it may make: set an application's status. The store enforces no
 * order among statuses; any value the organisation sends is stored.
 */
module Applications {
  import opened Wrappers
  import opened Http
  import Text
  import opened Schema
  import opened Ordering
  import Auth

  /** The position of the row with this id, as `findUnique({ where: { id } })` finds it. */
  function FindApplication(rows: seq<Application>, id: int): (r: Option<nat>)
    ensures r.Some? ==> r.value < |rows| && rows[r.value].id == id
    ensures r.None? <==> forall k | 0 <= k < |rows| :: rows[k].id != id
  {
    IndexWhere(rows, (a: Application) => a.id == id)
  }

  /** The opportunity with this id, as the store joins it to an application. */
  function OpportunityOf(opportunities: seq<Opportunity>, id: nat): (r: Option<Opportunity>)
    ensures r.Some? ==> r.value in opportunities && r.value.id == id
    ensures r.None? <==> forall o | o in opportunities :: o.id != id
  {
    match IndexWhere(opportunities, (o: Opportunity) => o.id == id)
    case None => None
    case Some(i) => Some(opportunities[i])
  }

  /** The application is to an opportunity of organisation `orgId`. */
  predicate OwnedBy(opportunities: seq<Opportunity>, orgId: nat, a: Application) {
    var o := OpportunityOf(opportunities, a.opportunityId);
    o.Some? && o.value.organizationId == orgId
  }

  /** Every application names a volunteer and an opportunity that exist, as
      the store's foreign keys guarantee. */
  predicate Joined(apps: seq<Application>, opportunities: seq<Opportunity>, users: map<nat, User>) {
    forall a | a in apps :: a.volunteerId in users && OpportunityOf(opportunities, a.opportunityId).Some?
  }

  /** The applications of `getOrgApplications`, before formatting: those of
      the organisation's opportunities, each as often as it is stored, newest first. */
  function Listed(apps: seq<Application>, opportunities: seq<Opportunity>, orgId: nat): (r: seq<Application>)
    ensures forall a :: multiset(r)[a] == if OwnedBy(opportunities, orgId, a) then multiset(apps)[a] else 0
    ensures forall a :: a in r <==> a in apps && OwnedBy(opportunities, orgId, a)
    ensures forall i, j | 0 <= i < j < |r| :: r[i].createdAt.ms >= r[j].createdAt.ms
  {
    var owned := Filter(apps, (a: Application) => OwnedBy(opportunities, orgId, a));
    var r := SortBy(owned, (a: Application) => -a.createdAt.ms);
    assert forall a :: a in r <==> multiset(r)[a] > 0;
    assert forall a :: a in apps <==> multiset(apps)[a] > 0;
    r
  }

  /** A row of the organisation's application list. */
  datatype AppRow = AppRow(
    id: nat, volunteerId: nat, volunteerName: string, opportunityId: nat,
    opportunityTitle: string, skills: string, status: string, appliedDate: string)

  /** The row for one application: the joined names, a fixed skills text and
      the calendar date of the application. */
  function Format(a: Application, opportunities: seq<Opportunity>, users: map<nat, User>): (row: AppRow)
    requires a.volunteerId in users && OpportunityOf(opportunities, a.opportunityId).Some?
    ensures row.id == a.id && row.status == a.status
    ensures row.volunteerId == a.volunteerId && row.opportunityId == a.opportunityId
    ensures row.volunteerName == users[a.volunteerId].name
    ensures row.opportunityTitle == OpportunityOf(opportunities, a.opportunityId).value.title
    ensures row.skills == "N/A"
    ensures row.appliedDate <= a.createdAt.iso && 'T' !in row.appliedDate
  {
    AppRow(a.id, a.volunteerId, users[a.volunteerId].name, a.opportunityId,
           OpportunityOf(opportunities, a.opportunityId).value.title, "N/A", a.status,
           Text.PrefixBefore(a.createdAt.iso, 'T'))
  }

  /** The applied date of an ISO timestamp `<date>T<time>` is `<date>`. */
  lemma AppliedDateIsDatePart(a: Application, opportunities: seq<Opportunity>, users: map<nat, User>,
                              date: string, time: string)
    requires a.volunteerId in users && OpportunityOf(opportunities, a.opportunityId).Some?
    requires a.createdAt.iso == date + "T" + time && 'T' !in date
    ensures Format(a, opportunities, users).appliedDate == date
  {
    Text.PrefixBeforeAppend(date, 'T', time);
  }

  /** What the store joins to each listed application exists. */
  lemma ListedJoined(apps: seq<Application>, opportunities: seq<Opportunity>, users: map<nat, User>, orgId: nat)
    requires Joined(apps, opportunities, users)
    ensures Joined(Listed(apps, opportunities, orgId), opportunities, users)
  {
    var listed := Listed(apps, opportunities, orgId);
    forall a | a in listed
      ensures a.volunteerId in users && OpportunityOf(opportunities, a.opportunityId).Some?
    {
      assert a in apps;
    }
  }

  /** Each application formatted, in the same order. */
  function FormatAll(listed: seq<Application>, opportunities: seq<Opportunity>, users: map<nat, User>)
    : (rows: seq<AppRow>)
    requires Joined(listed, opportunities, users)
    ensures |rows| == |listed| && forall k | 0 <= k < |rows| :: rows[k] == Format(listed[k], opportunities, users)
  {
    seq(|listed|, k requires 0 <= k < |listed| && listed[k] in listed => Format(listed[k], opportunities, users))
  }

  /** GET /applications for organisation `orgId`. */
  function OrgApplications(apps: seq<Application>, opportunities: seq<Opportunity>,
                           users: map<nat, User>, orgId: nat): (rows: seq<AppRow>)
    requires Joined(apps, opportunities, users)
    ensures var listed := Listed(apps, opportunities, orgId);
      |rows| == |listed| && forall k | 0 <= k < |rows| :: rows[k] == Format(listed[k], opportunities, users)
  {
    ListedJoined(apps, opportunities, users, orgId);
    FormatAll(Listed(apps, opportunities, orgId), opportunities, users)
  }

  /** The list shows an application exactly when it belongs to one of the
      caller's opportunities. */
  lemma {:induction false} OrgApplicationsExact(apps: seq<Application>, opportunities: seq<Opportunity>,
                                                users: map<nat, User>, orgId: nat, a: Application)
    requires Joined(apps, opportunities, users) && a in apps
    ensures OwnedBy(opportunities, orgId, a) ==>
      Format(a, opportunities, users) in OrgApplications(apps, opportunities, users, orgId)
    ensures (exists k | 0 <= k < |OrgApplications(apps, opportunities, users, orgId)| ::
               OrgApplications(apps, opportunities, users, orgId)[k].id == a.id)
      ==> exists b | b in apps :: b.id == a.id && OwnedBy(opportunities, orgId, b)
  {
    var listed := Listed(apps, opportunities, orgId);
    var rows := OrgApplications(apps, opportunities, users, orgId);
    if OwnedBy(opportunities, orgId, a) {
      assert a in listed;
      var k :| 0 <= k < |listed| && listed[k] == a;
      assert rows[k] == Format(a, opportunities, users);
    }
    if exists k | 0 <= k < |rows| :: rows[k].id == a.id {
      var k :| 0 <= k < |rows| && rows[k].id == a.id;
      assert listed[k] in listed;
    }
  }

  /** PATCH /applications/:id/status. `id` is the path parameter as text;
      `status` is the body's field, absent when the body has none. */
  method UpdateApplicationStatus(table: ApplicationTable, opportunities: seq<Opportunity>,
                                 caller: Auth.Claims, id: string, status: Option<string>)
    returns (r: Reply<Application>)
    requires table.Valid()
    modifies table
    ensures table.Valid()
    ensures r.Fail? ==> table.rows == old(table.rows)
    ensures Text.ParseInt(id).None? ==> r == Fail(500, "Failed to update application")
    ensures Text.ParseInt(id).Some? ==>
      var found := FindApplication(old(table.rows), Text.ParseInt(id).value);
      && (found.None? ==> r == Fail(403, "Not authorized to update this application"))
      && (found.Some? ==>
            var a := old(table.rows)[found.value];
            var o := OpportunityOf(opportunities, a.opportunityId);
            && (o.None? ==> r == Fail(500, "Failed to update application"))
            && (o.Some? && o.value.organizationId != caller.id ==>
                  r == Fail(403, "Not authorized to update this application"))
            && (o.Some? && o.value.organizationId == caller.id ==>
                  && table.rows == old(table.rows)[found.value := a.(status := status.GetOr(a.status))]
                  && r == Ok(200, "Application status updated", table.rows[found.value])))
  {
    var n := Text.ParseInt(id);
    if n.None? {
      return Fail(500, "Failed to update application");
    }
    var found := FindApplication(table.rows, n.value);
    if found.None? {
      return Fail(403, "Not authorized to update this application");
    }
    var a := table.rows[found.value];
    var o := OpportunityOf(opportunities, a.opportunityId);
    if o.None? {
      return Fail(500, "Failed to update application");
    }
    if o.value.organizationId != caller.id {
      return Fail(403, "Not authorized to update this application");
    }
    var updated := a.(status := status.GetOr(a.status));
    table.rows := table.rows[found.value := updated];
    assert ApplicationIds(table.rows) == ApplicationIds(old(table.rows));
    r := Ok(200, "Application status updated", updated);
  }
}
