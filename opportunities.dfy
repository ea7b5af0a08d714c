/**
 * Opportunities: an organisation creates them and lists its own; everybody
 * lists the upcoming ones, optionally narrowed by a category and a search
 * text. The public listing's filter is built as a list of alternatives, and
 * a search text adds alternatives to a category's rather than narrowing them.
 */
module Opportunities {
  import opened Wrappers
  import opened Http
  import Text
  import opened Schema
  import opened Ordering
  import Auth

  /** POST /opportunities/create. `date` is the body's text and `parseDate` the
      date library, which yields nothing for a text it cannot read. The store
      refuses a row whose organisation is not a user, and the handler answers
      that refusal with its 500. */
  method CreateOpportunity(table: OpportunityTable, users: map<nat, User>, caller: Auth.Claims,
                           title: Option<string>, description: Option<string>,
                           requiredSkills: Option<string>, location: Option<string>,
                           date: Option<string>, parseDate: string -> Option<int>, now: int)
    returns (r: Reply<Opportunity>)
    requires table.Valid()
    modifies table
    ensures table.Valid()
    ensures !(Given(title) && Given(date)) ==>
      r == Fail(400, "Title and Date are required") && unchanged(table)
    ensures Given(title) && Given(date) && (parseDate(date.value).None? || caller.id !in users) ==>
      r == Fail(500, "Failed to create opportunity") && unchanged(table)
    ensures Given(title) && Given(date) && parseDate(date.value).Some? && caller.id in users ==>
      var o := Opportunity(old(table.nextId), title.value, description, requiredSkills, location,
                           parseDate(date.value).value, caller.id, now);
      && table.rows == old(table.rows) + [o]
      && table.nextId == old(table.nextId) + 1
      && r == Ok(201, "Opportunity created successfully", o)
    ensures (forall k | 0 <= k < |old(table.rows)| :: old(table.rows)[k].organizationId in users) ==>
      forall k | 0 <= k < |table.rows| :: table.rows[k].organizationId in users
  {
    if !(Given(title) && Given(date)) {
      return Fail(400, "Title and Date are required");
    }
    var when := parseDate(date.value);
    if when.None? || caller.id !in users {
      return Fail(500, "Failed to create opportunity");
    }
    var o := Opportunity(table.nextId, title.value, description, requiredSkills, location,
                         when.value, caller.id, now);
    table.rows := table.rows + [o];
    table.nextId := table.nextId + 1;
    assert forall k | 0 <= k < |old(table.rows)| :: OpportunityIds(table.rows)[k] == OpportunityIds(old(table.rows))[k];
    r := Ok(201, "Opportunity created successfully", o);
  }

  /** `_count: { applications: true }`: how many applications name this opportunity. */
  function Applicants(apps: seq<Application>, opportunityId: nat): (n: nat)
    ensures n <= |apps|
    ensures n == 0 <==> forall k | 0 <= k < |apps| :: apps[k].opportunityId != opportunityId
  {
    var names := (a: Application) => a.opportunityId == opportunityId;
    CountZero(apps, names);
    Count(apps, names)
  }

  /** A row of the organisation's own listing. */
  datatype OrgRow = OrgRow(opportunity: Opportunity, applicants: nat, status: string)

  /** The opportunities of `getOrgOpportunities`: the organisation's own, newest first. */
  function OrgListed(opportunities: seq<Opportunity>, orgId: nat): (r: seq<Opportunity>)
    ensures forall o :: o in r <==> o in opportunities && o.organizationId == orgId
    ensures forall o :: multiset(r)[o] == if o.organizationId == orgId then multiset(opportunities)[o] else 0
    ensures forall i, j | 0 <= i < j < |r| :: r[i].createdAt >= r[j].createdAt
  {
    var own := Filter(opportunities, (o: Opportunity) => o.organizationId == orgId);
    var r := SortBy(own, (o: Opportunity) => -o.createdAt);
    assert forall o :: o in r <==> multiset(r)[o] > 0;
    assert forall o :: o in opportunities <==> multiset(opportunities)[o] > 0;
    r
  }

  /** Active while the date is still ahead, completed from the moment it is reached. */
  function OrgStatus(date: int, now: int): (s: string)
    ensures s == "Active" <==> date > now
    ensures s == "Active" || s == "Completed"
  {
    if date > now then "Active" else "Completed"
  }

  /** Each listed opportunity with its number of applications and its status at `now`. */
  function OrgRows(listed: seq<Opportunity>, apps: seq<Application>, now: int): (rows: seq<OrgRow>)
    ensures |rows| == |listed|
    ensures forall k | 0 <= k < |rows| ::
      && rows[k].opportunity == listed[k]
      && rows[k].applicants == Applicants(apps, listed[k].id)
      && rows[k].status == OrgStatus(listed[k].date, now)
  {
    seq(|listed|, k requires 0 <= k < |listed| =>
      OrgRow(listed[k], Applicants(apps, listed[k].id), OrgStatus(listed[k].date, now)))
  }

  /** GET /opportunities for organisation `orgId` at time `now`. */
  function OrgOpportunities(opportunities: seq<Opportunity>, apps: seq<Application>, orgId: nat, now: int)
    : (rows: seq<OrgRow>)
    ensures var listed := OrgListed(opportunities, orgId);
      && |rows| == |listed|
      && forall k | 0 <= k < |rows| ::
           && rows[k].opportunity == listed[k]
           && rows[k].applicants == Applicants(apps, listed[k].id)
           && rows[k].status == OrgStatus(listed[k].date, now)
  {
    OrgRows(OrgListed(opportunities, orgId), apps, now)
  }

  /** A text column the search looks in. */
  datatype Field = Title | Description | RequiredSkills

  /** `{ <field>: { contains: text } }`. */
  datatype Clause = Clause(field: Field, text: string)

  /** The `where` object: the date cut-off, and the alternatives of `OR` when
      there are any. */
  datatype Where = Where(dateFrom: int, anyOf: Option<seq<Clause>>)

  /** The three alternatives for one search text. */
  function Clauses(text: string): (cs: seq<Clause>)
    ensures |cs| == 3 && forall c | c in cs :: c.text == text
  {
    [Clause(Title, text), Clause(Description, text), Clause(RequiredSkills, text)]
  }

  /** The filter `getAllOpportunities` builds: upcoming opportunities, and
      when a category or a search text is given, the clauses for the trimmed
      category followed by those for the trimmed search text. */
  function BuildWhere(category: Option<string>, q: Option<string>, now: int): (w: Where)
    ensures w.dateFrom == now
    ensures w.anyOf.None? <==> !Given(category) && !Given(q)
    ensures Given(category) ==> Clauses(Text.Trim(category.value)) <= w.anyOf.value
    ensures w.anyOf.Some? ==> forall c | c in w.anyOf.value ::
      (Given(category) && c.text == Text.Trim(category.value)) || (Given(q) && c.text == Text.Trim(q.value))
  {
    var fromCategory: Option<seq<Clause>> :=
      if Given(category) then Some(Clauses(Text.Trim(category.value))) else None;
    var anyOf := if Given(q) then Some(fromCategory.GetOr([]) + Clauses(Text.Trim(q.value))) else fromCategory;
    Where(now, anyOf)
  }

  /** The column's text, when it is not null. */
  function FieldText(o: Opportunity, f: Field): Option<string> {
    match f
    case Title => Some(o.title)
    case Description => o.description
    case RequiredSkills => o.requiredSkills
  }

  /** A clause holds when its column is not null and contains its text. */
  predicate Satisfies(o: Opportunity, c: Clause) {
    var t := FieldText(o, c.field);
    t.Some? && Text.Contains(t.value, c.text)
  }

  predicate Matches(w: Where, o: Opportunity) {
    o.date >= w.dateFrom && (w.anyOf.None? || exists c | c in w.anyOf.value :: Satisfies(o, c))
  }

  /** The title, the description or the required skills contain `text`. */
  predicate Mentions(o: Opportunity, text: string) {
    || Text.Contains(o.title, text)
    || (o.description.Some? && Text.Contains(o.description.value, text))
    || (o.requiredSkills.Some? && Text.Contains(o.requiredSkills.value, text))
  }

  lemma MatchesClauses(o: Opportunity, text: string)
    ensures (exists c | c in Clauses(text) :: Satisfies(o, c)) <==> Mentions(o, text)
  {
    var cs := Clauses(text);
    if Mentions(o, text) {
      if Text.Contains(o.title, text) {
        assert Satisfies(o, cs[0]);
      } else if o.description.Some? && Text.Contains(o.description.value, text) {
        assert Satisfies(o, cs[1]);
      } else {
        assert Satisfies(o, cs[2]);
      }
    }
  }

  /** The public filter keeps an opportunity exactly when it is upcoming and,
      if a category or a search text is given, it mentions the trimmed
      category or the trimmed search text. */
  lemma {:induction false} MatchesIff(category: Option<string>, q: Option<string>, now: int, o: Opportunity)
    ensures Matches(BuildWhere(category, q, now), o) <==>
      && o.date >= now
      && (|| (!Given(category) && !Given(q))
          || (Given(category) && Mentions(o, Text.Trim(category.value)))
          || (Given(q) && Mentions(o, Text.Trim(q.value))))
  {
    var w := BuildWhere(category, q, now);
    var fromCategory := if Given(category) then Clauses(Text.Trim(category.value)) else [];
    var fromQuery := if Given(q) then Clauses(Text.Trim(q.value)) else [];
    if w.anyOf.Some? {
      assert w.anyOf.value == fromCategory + fromQuery;
      if Given(category) {
        MatchesClauses(o, Text.Trim(category.value));
      }
      if Given(q) {
        MatchesClauses(o, Text.Trim(q.value));
      }
      assert (exists c | c in w.anyOf.value :: Satisfies(o, c)) <==>
        (exists c | c in fromCategory :: Satisfies(o, c)) || (exists c | c in fromQuery :: Satisfies(o, c));
    }
  }

  /** Adding a search text to a category never removes an opportunity from
      the listing: the search text widens the category's alternatives. */
  lemma QueryWidens(category: string, q: Option<string>, now: int, o: Opportunity)
    requires category != ""
    ensures Matches(BuildWhere(Some(category), None, now), o) ==> Matches(BuildWhere(Some(category), q, now), o)
  {
    MatchesIff(Some(category), None, now, o);
    MatchesIff(Some(category), q, now, o);
  }

  /** A category of spaces alone trims to the empty text, which every title
      contains: it filters nothing out. */
  lemma BlankCategoryKeepsAll(category: string, now: int, o: Opportunity)
    requires category != "" && Text.Trim(category) == "" && o.date >= now
    ensures Matches(BuildWhere(Some(category), None, now), o)
  {
    MatchesIff(Some(category), None, now, o);
    assert "" <= o.title[0..];
  }

  /** The opportunities of `getAllOpportunities`, soonest first. */
  function Selected(opportunities: seq<Opportunity>, category: Option<string>, q: Option<string>, now: int)
    : (r: seq<Opportunity>)
    ensures forall o :: o in r <==> o in opportunities && Matches(BuildWhere(category, q, now), o)
    ensures forall o :: multiset(r)[o] == if Matches(BuildWhere(category, q, now), o) then multiset(opportunities)[o] else 0
    ensures forall k | 0 <= k < |r| :: r[k].date >= now
    ensures forall i, j | 0 <= i < j < |r| :: r[i].date <= r[j].date
  {
    var w := BuildWhere(category, q, now);
    var kept := Filter(opportunities, (o: Opportunity) => Matches(w, o));
    var r := SortBy(kept, (o: Opportunity) => o.date);
    assert forall o :: o in r <==> multiset(r)[o] > 0;
    assert forall o :: o in opportunities <==> multiset(opportunities)[o] > 0;
    assert forall k | 0 <= k < |r| :: r[k] in r;
    r
  }

  /** A row of the public listing. */
  datatype PublicRow = PublicRow(opportunity: Opportunity, organizationName: string, applicants: nat, status: string)

  /** Each selected opportunity with its organisation's name and its number
      of applications; every one of them is listed as active. */
  function PublicRows(selected: seq<Opportunity>, apps: seq<Application>, users: map<nat, User>)
    : (rows: seq<PublicRow>)
    requires forall o | o in selected :: o.organizationId in users
    ensures |rows| == |selected|
    ensures forall k | 0 <= k < |rows| ::
      && rows[k].opportunity == selected[k]
      && rows[k].organizationName == users[selected[k].organizationId].name
      && rows[k].applicants == Applicants(apps, selected[k].id)
      && rows[k].status == "Active"
  {
    seq(|selected|, k requires 0 <= k < |selected| && selected[k] in selected =>
      PublicRow(selected[k], users[selected[k].organizationId].name, Applicants(apps, selected[k].id), "Active"))
  }

  /** GET /volunteer/opportunities/browse?category=&q= at time `now`. Every opportunity's
      organisation exists, as the store's foreign key guarantees. */
  function AllOpportunities(opportunities: seq<Opportunity>, apps: seq<Application>, users: map<nat, User>,
                            category: Option<string>, q: Option<string>, now: int): (rows: seq<PublicRow>)
    requires forall o | o in opportunities :: o.organizationId in users
    ensures var selected := Selected(opportunities, category, q, now);
      && |rows| == |selected|
      && forall k | 0 <= k < |rows| ::
           && rows[k].opportunity == selected[k]
           && rows[k].opportunity.date >= now
           && rows[k].organizationName == users[selected[k].organizationId].name
           && rows[k].applicants == Applicants(apps, selected[k].id)
           && rows[k].status == "Active"
  {
    var selected := Selected(opportunities, category, q, now);
    assert forall o | o in selected :: o.organizationId in users;
    PublicRows(selected, apps, users)
  }
}
