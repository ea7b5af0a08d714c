/**
 * The organisation dashboard: the figures it shows, how it loads its lists,
 * how it updates one application after the organisation acts on it, and
 * which actions it offers for each application status.
 */
module OrgDashboard {
  import opened Wrappers
  import opened Http
  import opened Ordering
  import Auth
  import Applications
  import Opportunities
  import Schema

  type AppRow = Applications.AppRow

  datatype Stats = Stats(name: string, email: string, totalOpportunities: nat,
                         activeVolunteers: nat, pendingApplications: nat, certificatesIssued: nat)

  /** The figures before anything is loaded. */
  const InitialStats := Stats("Organization", "", 0, 0, 0, 0)

  /** `fetchResource`: the reply's list when the request succeeded, and the
      empty list when it failed or threw. */
  function FetchResource<T>(answer: Fetched<seq<T>>): (r: seq<T>)
    ensures answer.Replied? && answer.reply.Ok? ==> r == answer.reply.data
    ensures !(answer.Replied? && answer.reply.Ok?) ==> r == []
  {
    if answer.Replied? && answer.reply.Ok? then answer.reply.data else []
  }

  predicate IsPending(a: AppRow) { a.status == "PENDING" }

  predicate IsAccepted(a: AppRow) { a.status == "ACCEPTED" }

  /** The applications still waiting for a decision. */
  function PendingCount(apps: seq<AppRow>): (n: nat)
    ensures n <= |apps|
    ensures n == 0 <==> forall k | 0 <= k < |apps| :: apps[k].status != "PENDING"
  {
    CountZero(apps, IsPending);
    Count(apps, IsPending)
  }

  /** The volunteers named by a list of applications. */
  function VolunteerIds(apps: seq<AppRow>): (ids: set<nat>)
    ensures forall v :: v in ids <==> exists k | 0 <= k < |apps| :: apps[k].volunteerId == v
    ensures |ids| <= |apps|
  {
    if apps == [] then {}
    else
      var rest := VolunteerIds(apps[1..]);
      assert forall v | v in rest :: exists k | 0 <= k < |apps| :: apps[k].volunteerId == v by {
        forall v | v in rest
          ensures exists k | 0 <= k < |apps| :: apps[k].volunteerId == v
        {
          var k :| 0 <= k < |apps[1..]| && apps[1..][k].volunteerId == v;
          assert apps[k + 1].volunteerId == v;
        }
      }
      assert forall k | 1 <= k < |apps| :: apps[k].volunteerId in rest by {
        forall k | 1 <= k < |apps| ensures apps[k].volunteerId in rest {
          assert apps[1..][k - 1].volunteerId == apps[k].volunteerId;
        }
      }
      {apps[0].volunteerId} + rest
  }

  /** The distinct volunteers with an accepted application. */
  function ActiveVolunteers(apps: seq<AppRow>): (n: nat)
    ensures n <= Count(apps, IsAccepted)
  {
    |VolunteerIds(Filter(apps, IsAccepted))|
  }

  /** The volunteers with at least one accepted application. */
  function AcceptedVolunteerIds(apps: seq<AppRow>): (ids: set<nat>)
    ensures forall v :: v in ids <==> exists k | 0 <= k < |apps| :: IsAccepted(apps[k]) && apps[k].volunteerId == v
  {
    set k | 0 <= k < |apps| && IsAccepted(apps[k]) :: apps[k].volunteerId
  }

  lemma AcceptedIdsOfFilter(apps: seq<AppRow>, v: nat)
    requires v in VolunteerIds(Filter(apps, IsAccepted))
    ensures v in AcceptedVolunteerIds(apps)
  {
    var accepted := Filter(apps, IsAccepted);
    var j :| 0 <= j < |accepted| && accepted[j].volunteerId == v;
    FilterMembers(apps, IsAccepted, accepted[j]);
    var k :| 0 <= k < |apps| && apps[k] == accepted[j];
    assert IsAccepted(apps[k]) && apps[k].volunteerId == v;
  }

  lemma FilterOfAcceptedIds(apps: seq<AppRow>, v: nat)
    requires v in AcceptedVolunteerIds(apps)
    ensures v in VolunteerIds(Filter(apps, IsAccepted))
  {
    var accepted := Filter(apps, IsAccepted);
    var k :| 0 <= k < |apps| && IsAccepted(apps[k]) && apps[k].volunteerId == v;
    FilterMembers(apps, IsAccepted, apps[k]);
    var j :| 0 <= j < |accepted| && accepted[j] == apps[k];
    assert accepted[j].volunteerId == v;
  }

  /** The active-volunteer figure is the number of distinct volunteers with
      an accepted application, however many each has. */
  lemma ActiveVolunteersCountsDistinct(apps: seq<AppRow>)
    ensures ActiveVolunteers(apps) == |AcceptedVolunteerIds(apps)|
  {
    forall v | v in VolunteerIds(Filter(apps, IsAccepted)) ensures v in AcceptedVolunteerIds(apps) {
      AcceptedIdsOfFilter(apps, v);
    }
    forall v | v in AcceptedVolunteerIds(apps) ensures v in VolunteerIds(Filter(apps, IsAccepted)) {
      FilterOfAcceptedIds(apps, v);
    }
    assert VolunteerIds(Filter(apps, IsAccepted)) == AcceptedVolunteerIds(apps);
  }

  /** The accepted volunteers after one more application: those before, and
      the new application's volunteer when it is accepted. */
  lemma AcceptedIdsAppend(apps: seq<AppRow>, a: AppRow)
    ensures AcceptedVolunteerIds(apps + [a]) ==
      AcceptedVolunteerIds(apps) + (if IsAccepted(a) then {a.volunteerId} else {})
  {
    var all := apps + [a];
    var before := AcceptedVolunteerIds(apps);
    var after := AcceptedVolunteerIds(all);
    forall v | v in after ensures v in before || (IsAccepted(a) && v == a.volunteerId) {
      var k :| 0 <= k < |all| && IsAccepted(all[k]) && all[k].volunteerId == v;
      if k < |apps| {
        assert all[k] == apps[k];
      }
    }
    forall v | v in before ensures v in after {
      var k :| 0 <= k < |apps| && IsAccepted(apps[k]) && apps[k].volunteerId == v;
      assert all[k] == apps[k];
    }
    if IsAccepted(a) {
      assert all[|apps|] == a;
    }
  }

  /** One more application raises the figure by one exactly when it is
      accepted and its volunteer had no accepted application before. */
  lemma ActiveVolunteersAppend(apps: seq<AppRow>, a: AppRow)
    ensures ActiveVolunteers(apps + [a]) ==
      ActiveVolunteers(apps) + (if IsAccepted(a) && a.volunteerId !in AcceptedVolunteerIds(apps) then 1 else 0)
  {
    ActiveVolunteersCountsDistinct(apps);
    ActiveVolunteersCountsDistinct(apps + [a]);
    AcceptedIdsAppend(apps, a);
    var before, after := AcceptedVolunteerIds(apps), AcceptedVolunteerIds(apps + [a]);
    if IsAccepted(a) && a.volunteerId !in before {
      assert after == before + {a.volunteerId};
      assert |after| == |before| + 1;
    } else {
      assert after == before;
    }
  }

  /** The figures computed from what the three loads returned. */
  function StatsFrom(me: Auth.MeView, opps: seq<Opportunities.OrgRow>, apps: seq<AppRow>): (s: Stats)
    ensures s.name == me.name && s.email == me.email
    ensures s.totalOpportunities == |opps| && s.certificatesIssued == 0
    ensures s.pendingApplications == PendingCount(apps)
    ensures s.activeVolunteers == ActiveVolunteers(apps) <= Count(apps, IsAccepted)
  {
    Stats(me.name, me.email, |opps|, ActiveVolunteers(apps), PendingCount(apps), 0)
  }

  /** The list after the organisation set application `id` to `status`:
      same length, same order, only that application's status replaced. */
  function WithStatus(apps: seq<AppRow>, id: nat, status: string): (r: seq<AppRow>)
    ensures |r| == |apps|
    ensures forall k | 0 <= k < |r| :: r[k].id == apps[k].id
    ensures forall k | 0 <= k < |r| && apps[k].id != id :: r[k] == apps[k]
    ensures forall k | 0 <= k < |r| && apps[k].id == id :: r[k] == apps[k].(status := status)
  {
    seq(|apps|, k requires 0 <= k < |apps| => if apps[k].id == id then apps[k].(status := status) else apps[k])
  }

  /** Deciding an application never adds to the pending figure. */
  lemma {:induction false} DecidingLowersPending(apps: seq<AppRow>, id: nat, status: string)
    requires status != "PENDING"
    ensures PendingCount(WithStatus(apps, id, status)) <= PendingCount(apps)
  {
    if apps != [] {
      var r := WithStatus(apps, id, status);
      assert WithStatus(apps[1..], id, status) == r[1..];
      DecidingLowersPending(apps[1..], id, status);
      assert Filter(r, IsPending) == (if IsPending(r[0]) then [r[0]] else []) + Filter(r[1..], IsPending);
      assert Filter(apps, IsPending) == (if IsPending(apps[0]) then [apps[0]] else []) + Filter(apps[1..], IsPending);
    }
  }

  /** `getStatusColor`. */
  function StatusColor(status: string): (css: string)
    ensures css == "bg-gray-100 text-gray-700" <==>
      status != "PENDING" && status != "ACCEPTED" && status != "REJECTED" && status != "COMPLETED"
  {
    match status
    case "PENDING" => "bg-yellow-100 text-yellow-700"
    case "ACCEPTED" => "bg-green-100 text-green-700"
    case "REJECTED" => "bg-red-100 text-red-700"
    case "COMPLETED" => "bg-blue-100 text-blue-700"
    case _ => "bg-gray-100 text-gray-700"
  }

  /** The buttons of an application row. */
  datatype Action = Accept | Reject | MarkComplete | IssueCertificate | OpenChat

  /** The status a button asks the server to set, for the buttons that set one. */
  function Requests(a: Action): Option<string> {
    match a
    case Accept => Some("ACCEPTED")
    case Reject => Some("REJECTED")
    case MarkComplete => Some("COMPLETED")
    case _ => None
  }

  /** The buttons shown for an application in `status`. */
  function Actions(status: string): (acts: set<Action>)
    ensures OpenChat in acts
    ensures Accept in acts <==> status == "PENDING"
    ensures Reject in acts <==> status == "PENDING"
    ensures MarkComplete in acts <==> status == "ACCEPTED"
    ensures IssueCertificate in acts <==> status == "COMPLETED"
  {
    if status == "PENDING" then {Accept, Reject, OpenChat}
    else if status == "ACCEPTED" then {MarkComplete, OpenChat}
    else if status == "COMPLETED" then {IssueCertificate, OpenChat}
    else {OpenChat}
  }

  /** How far along the page's workflow a status is. */
  function Stage(status: string): nat {
    if status == "PENDING" then 0 else if status == "ACCEPTED" then 1 else 2
  }

  /** The page only ever offers to move an application forward:
      PENDING to ACCEPTED or REJECTED, ACCEPTED to COMPLETED, and nothing from
      a rejected or completed application. */
  lemma OfferedMovesForward(status: string, a: Action)
    requires a in Actions(status) && Requests(a).Some?
    ensures Stage(status) < Stage(Requests(a).value)
    ensures status == "PENDING" || status == "ACCEPTED"
  {
  }

  /** The page's state. */
  class Dashboard {
    var stats: Stats
    var opportunities: seq<Opportunities.OrgRow>
    var applications: seq<AppRow>
    var dataLoading: bool
    var loading: bool

    constructor ()
      ensures stats == InitialStats && opportunities == [] && applications == []
      ensures dataLoading && !loading
    {
      stats, opportunities, applications := InitialStats, [], [];
      dataLoading, loading := true, false;
    }

    /** `fetchDashboardData`, given what the opportunities, applications and
        current-user requests come to. A list is replaced only by a
        successful load; the figures only when the user loads, and then from
        the loaded lists, an empty list standing for a failed one. */
    method FetchDashboardData(opps: Fetched<seq<Opportunities.OrgRow>>, apps: Fetched<seq<AppRow>>,
                              me: Fetched<Auth.MeView>)
      modifies this
      ensures !dataLoading && loading == old(loading)
      ensures opportunities == (if opps.Replied? && opps.reply.Ok? then opps.reply.data else old(opportunities))
      ensures applications == (if apps.Replied? && apps.reply.Ok? then apps.reply.data else old(applications))
      ensures me.Replied? && me.reply.Ok? ==> stats == StatsFrom(me.reply.data, FetchResource(opps), FetchResource(apps))
      ensures !(me.Replied? && me.reply.Ok?) ==> stats == old(stats)
    {
      dataLoading := true;
      var oppsData := FetchResource(opps);
      if opps.Replied? && opps.reply.Ok? {
        opportunities := oppsData;
      }
      var appsData := FetchResource(apps);
      if apps.Replied? && apps.reply.Ok? {
        applications := appsData;
      }
      if me.Replied? && me.reply.Ok? {
        stats := StatsFrom(me.reply.data, oppsData, appsData);
      }
      dataLoading := false;
    }

    /** `handleApplicationAction(id, status)`, given what the status update
        comes to and what the refresh that follows a success loads. */
    method HandleApplicationAction(id: nat, status: string, answer: Fetched<AppRow>,
                                   opps: Fetched<seq<Opportunities.OrgRow>>, apps: Fetched<seq<AppRow>>,
                                   me: Fetched<Auth.MeView>)
      modifies this
      ensures !loading
      ensures !(answer.Replied? && answer.reply.Ok?) ==>
        && stats == old(stats) && opportunities == old(opportunities) && applications == old(applications)
        && dataLoading == old(dataLoading)
      ensures answer.Replied? && answer.reply.Ok? ==>
        && !dataLoading
        && applications == (if apps.Replied? && apps.reply.Ok? then apps.reply.data
                            else WithStatus(old(applications), id, status))
        && opportunities == (if opps.Replied? && opps.reply.Ok? then opps.reply.data else old(opportunities))
      ensures answer.Replied? && answer.reply.Ok? && me.Replied? && me.reply.Ok? ==>
        stats == StatsFrom(me.reply.data, FetchResource(opps), FetchResource(apps))
      ensures answer.Replied? && answer.reply.Ok? && !(me.Replied? && me.reply.Ok?) ==> stats == old(stats)
    {
      loading := true;
      if answer.Replied? && answer.reply.Ok? {
        applications := WithStatus(applications, id, status);
        FetchDashboardData(opps, apps, me);
      }
      loading := false;
    }
  }
}
