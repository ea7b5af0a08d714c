/**
 * The volunteer dashboard: its figures, the rule that it takes its data only
 * when every one of its five loads succeeds, and which opportunities it
 * offers to apply to.
 */
module VolunteerDashboard {
  import opened Wrappers
  import opened Http
  import Auth
  import Opportunities
  import Messages
  import Certificates

  /** An application as the volunteer's own list returns it. */
  datatype VolunteerApplication = VolunteerApplication(id: nat, opportunityId: nat, status: string)

  datatype Stats = Stats(name: string, email: string, totalApplications: nat,
                         acceptedApplications: nat, pendingApplications: nat, certificatesEarned: nat)

  /** The figures before anything is loaded. */
  const InitialStats := Stats("Volunteer", "", 0, 0, 0, 0)

  predicate IsPending(a: VolunteerApplication) { a.status == "PENDING" }

  /** Accepted, including applications already completed. */
  predicate IsAccepted(a: VolunteerApplication) { a.status == "ACCEPTED" || a.status == "COMPLETED" }

  /** The applications still waiting for a decision. */
  function PendingCount(apps: seq<VolunteerApplication>): (n: nat)
    ensures n <= |apps|
    ensures n == 0 <==> forall k | 0 <= k < |apps| :: !IsPending(apps[k])
  {
    if apps == [] then 0
    else
      assert forall k | 1 <= k < |apps| :: apps[k] == apps[1..][k - 1];
      (if IsPending(apps[0]) then 1 else 0) + PendingCount(apps[1..])
  }

  /** The applications accepted or completed. */
  function AcceptedCount(apps: seq<VolunteerApplication>): (n: nat)
    ensures n <= |apps|
    ensures n == 0 <==> forall k | 0 <= k < |apps| :: !IsAccepted(apps[k])
  {
    if apps == [] then 0
    else
      assert forall k | 1 <= k < |apps| :: apps[k] == apps[1..][k - 1];
      (if IsAccepted(apps[0]) then 1 else 0) + AcceptedCount(apps[1..])
  }

  /** The figures computed from the applications, the certificates and the user. */
  function StatsFrom(me: Auth.MeView, apps: seq<VolunteerApplication>, certs: seq<Certificates.Certificate>): (s: Stats)
    ensures s.name == me.name && s.email == me.email
    ensures s.totalApplications == |apps| && s.certificatesEarned == |certs|
    ensures s.pendingApplications == PendingCount(apps)
    ensures s.acceptedApplications == AcceptedCount(apps)
  {
    Stats(me.name, me.email, |apps|, AcceptedCount(apps), PendingCount(apps), |certs|)
  }

  /** No application is both pending and accepted, so the two figures
      together never exceed the number of applications. */
  lemma {:induction false} PendingAndAcceptedWithinTotal(me: Auth.MeView, apps: seq<VolunteerApplication>,
                                                         certs: seq<Certificates.Certificate>)
    ensures var s := StatsFrom(me, apps, certs);
      s.pendingApplications + s.acceptedApplications <= s.totalApplications
  {
    if apps != [] {
      PendingAndAcceptedWithinTotal(me, apps[1..], certs);
    }
  }

  /** What the five loads of `fetchDashboardData` come to. */
  datatype Loads = Loads(
    opportunities: Fetched<seq<Opportunities.PublicRow>>,
    applications: Fetched<seq<VolunteerApplication>>,
    messages: Fetched<seq<Messages.Message>>,
    certificates: Fetched<seq<Certificates.Certificate>>,
    me: Fetched<Auth.MeView>)

  predicate Succeeded<T>(f: Fetched<T>) { f.Replied? && f.reply.Ok? }

  predicate AllSucceeded(l: Loads) {
    Succeeded(l.opportunities) && Succeeded(l.applications) && Succeeded(l.messages)
    && Succeeded(l.certificates) && Succeeded(l.me)
  }

  /** `hasApplied`: some application of the volunteer is for `opportunityId`. */
  function HasApplied(apps: seq<VolunteerApplication>, opportunityId: nat): (b: bool)
    ensures b <==> exists k | 0 <= k < |apps| :: apps[k].opportunityId == opportunityId
  {
    if apps == [] then false
    else if apps[0].opportunityId == opportunityId then true
    else
      var rest := HasApplied(apps[1..], opportunityId);
      assert rest ==> exists k | 0 <= k < |apps| :: apps[k].opportunityId == opportunityId by {
        if rest {
          var k :| 0 <= k < |apps[1..]| && apps[1..][k].opportunityId == opportunityId;
          assert apps[k + 1].opportunityId == opportunityId;
        }
      }
      assert (exists k | 0 <= k < |apps| :: apps[k].opportunityId == opportunityId) ==> rest by {
        if k :| 0 <= k < |apps| && apps[k].opportunityId == opportunityId {
          assert apps[1..][k - 1].opportunityId == opportunityId;
        }
      }
      rest
  }

  /** The button an opportunity card shows. */
  datatype Button = ApplyNow | AlreadyApplied

  function ButtonFor(apps: seq<VolunteerApplication>, o: Opportunities.PublicRow): (b: Button)
    ensures b == ApplyNow <==> forall k | 0 <= k < |apps| :: apps[k].opportunityId != o.opportunity.id
  {
    if HasApplied(apps, o.opportunity.id) then AlreadyApplied else ApplyNow
  }

  /** Once the volunteer's list holds an application for an opportunity, the
      page no longer offers to apply to it. */
  lemma AppliedNotOfferedAgain(apps: seq<VolunteerApplication>, a: VolunteerApplication, o: Opportunities.PublicRow)
    requires a.opportunityId == o.opportunity.id
    ensures ButtonFor(apps + [a], o) == AlreadyApplied
  {
    assert (apps + [a])[|apps|] == a;
  }

  /** The page's state. */
  class Dashboard {
    var stats: Stats
    var opportunities: seq<Opportunities.PublicRow>
    var applications: seq<VolunteerApplication>
    var messages: seq<Messages.Message>
    var certificates: seq<Certificates.Certificate>
    var dataLoading: bool
    var loading: bool
    var selected: Option<Opportunities.PublicRow>
    var showApplyModal: bool
    var applicationMessage: string
    var alerted: Option<string>

    constructor ()
      ensures stats == InitialStats && opportunities == [] && applications == []
      ensures messages == [] && certificates == []
      ensures dataLoading && !loading && selected == None && !showApplyModal
      ensures applicationMessage == "" && alerted == None
    {
      stats, opportunities, applications, messages, certificates := InitialStats, [], [], [], [];
      dataLoading, loading, selected, showApplyModal := true, false, None, false;
      applicationMessage, alerted := "", None;
    }

    /** `fetchDashboardData`: the lists and figures are replaced only when all
        five loads succeed; a single failure leaves every one of them as it was. */
    method FetchDashboardData(l: Loads)
      modifies this
      ensures !dataLoading
      ensures loading == old(loading) && selected == old(selected) && showApplyModal == old(showApplyModal)
      ensures applicationMessage == old(applicationMessage) && alerted == old(alerted)
      ensures AllSucceeded(l) ==>
        && opportunities == l.opportunities.reply.data && applications == l.applications.reply.data
        && messages == l.messages.reply.data && certificates == l.certificates.reply.data
        && stats == StatsFrom(l.me.reply.data, applications, certificates)
      ensures !AllSucceeded(l) ==>
        && opportunities == old(opportunities) && applications == old(applications)
        && messages == old(messages) && certificates == old(certificates) && stats == old(stats)
    {
      dataLoading := true;
      if AllSucceeded(l) {
        var apps, certs := l.applications.reply.data, l.certificates.reply.data;
        var s := StatsFrom(l.me.reply.data, apps, certs);
        opportunities, applications, messages, certificates := l.opportunities.reply.data, apps, l.messages.reply.data, certs;
        stats := s;
      }
      dataLoading := false;
    }

    /** `handleApplyToOpportunity`, given what the apply request comes to and
        what the refresh after a success loads. Without a selected
        opportunity it does nothing at all. */
    method HandleApply(answer: Fetched<VolunteerApplication>, refresh: Loads)
      modifies this
      ensures old(selected) == None ==> unchanged(this)
      ensures old(selected) != None ==> !loading
      ensures old(selected) != None && Succeeded(answer) ==>
        && alerted == Some("Application submitted successfully!")
        && !showApplyModal && applicationMessage == "" && selected == None && !dataLoading
      ensures old(selected) != None && Succeeded(answer) && AllSucceeded(refresh) ==>
        && opportunities == refresh.opportunities.reply.data && applications == refresh.applications.reply.data
        && messages == refresh.messages.reply.data && certificates == refresh.certificates.reply.data
        && stats == StatsFrom(refresh.me.reply.data, applications, certificates)
      ensures old(selected) != None && Succeeded(answer) && !AllSucceeded(refresh) ==>
        && opportunities == old(opportunities) && applications == old(applications)
        && messages == old(messages) && certificates == old(certificates) && stats == old(stats)
      ensures old(selected) != None && !Succeeded(answer) ==>
        && selected == old(selected) && showApplyModal == old(showApplyModal)
        && applicationMessage == old(applicationMessage) && dataLoading == old(dataLoading)
        && opportunities == old(opportunities) && applications == old(applications)
        && messages == old(messages) && certificates == old(certificates) && stats == old(stats)
      ensures old(selected) != None && answer.Replied? && answer.reply.Fail? ==>
        alerted == Some("Error applying: " + OrElse(Some(answer.reply.message), "Failed to apply"))
      ensures old(selected) != None && answer.Threw? ==>
        alerted == Some("Error applying: " + answer.message.GetOr("undefined"))
    {
      if selected == None {
        return;
      }
      loading := true;
      match answer {
        case Replied(Ok(_, _, _)) =>
          alerted := Some("Application submitted successfully!");
          showApplyModal := false;
          applicationMessage := "";
          selected := None;
          FetchDashboardData(refresh);
        case Replied(Fail(_, message)) =>
          alerted := Some("Error applying: " + OrElse(Some(message), "Failed to apply"));
        case Threw(message) =>
          alerted := Some("Error applying: " + message.GetOr("undefined"));
      }
      loading := false;
    }
  }
}
