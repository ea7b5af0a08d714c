/**
 * The rows of the relational store that several handlers share, and the
 * tables the handlers write. A table the handlers only list is a sequence of
 * rows in insertion order; the user table is keyed by id.
 */
module Schema {
  import opened Wrappers

  /** A user row. `password` holds the password exactly as it was sent at signup. */
  datatype User = User(
    id: nat, name: string, email: string, password: string, role: string,
    skills: Option<string>, location: Option<string>, createdAt: int, updatedAt: int)

  /** A point in time: milliseconds since the epoch and the `toISOString()`
      text the date library renders for it. */
  datatype Instant = Instant(ms: int, iso: string)

  datatype Opportunity = Opportunity(
    id: nat, title: string, description: Option<string>, requiredSkills: Option<string>,
    location: Option<string>, date: int, organizationId: nat, createdAt: int)

  /** An application of a volunteer to an opportunity. `status` is free text:
      the store takes whatever value an update sends. */
  datatype Application = Application(
    id: nat, volunteerId: nat, opportunityId: nat, status: string, createdAt: Instant)

  /** No two rows of `ids` share an id. */
  ghost predicate DistinctIds(ids: seq<nat>) {
    forall i, j | 0 <= i < j < |ids| :: ids[i] != ids[j]
  }

  function OpportunityIds(rows: seq<Opportunity>): (ids: seq<nat>)
    ensures |ids| == |rows| && forall k | 0 <= k < |rows| :: ids[k] == rows[k].id
  {
    seq(|rows|, k requires 0 <= k < |rows| => rows[k].id)
  }

  /** The id column of the applications table. */
  function ApplicationIds(rows: seq<Application>): seq<nat> {
    seq(|rows|, k requires 0 <= k < |rows| => rows[k].id)
  }

  /** The user table. Ids come from an auto-increment counter starting at 1;
      the email column is unique. */
  class UserTable {
    var rows: map<nat, User>
    var nextId: nat

    ghost predicate Valid()
      reads this
    {
      && 1 <= nextId
      && (forall id | id in rows :: rows[id].id == id && 1 <= id < nextId)
      && (forall i, j | i in rows && j in rows && rows[i].email == rows[j].email :: i == j)
    }

    /** The store's `findUnique({ where: { email } })` finds a row. */
    predicate HasEmail(email: string)
      reads this
    {
      exists id | id in rows :: rows[id].email == email
    }

    constructor ()
      ensures Valid() && rows == map[] && nextId == 1
    {
      rows := map[];
      nextId := 1;
    }
  }

  /** The opportunity table, in insertion order; ids come from an auto-increment counter. */
  class OpportunityTable {
    var rows: seq<Opportunity>
    var nextId: nat

    ghost predicate Valid()
      reads this
    {
      && 1 <= nextId
      && DistinctIds(OpportunityIds(rows))
      && forall k | 0 <= k < |rows| :: 1 <= rows[k].id < nextId
    }

    constructor ()
      ensures Valid() && rows == [] && nextId == 1
    {
      rows := [];
      nextId := 1;
    }
  }

  /** The application table, in insertion order. */
  class ApplicationTable {
    var rows: seq<Application>

    ghost predicate Valid()
      reads this
    {
      DistinctIds(ApplicationIds(rows))
    }

    constructor (initial: seq<Application>)
      requires DistinctIds(ApplicationIds(initial))
      ensures Valid() && rows == initial
    {
      rows := initial;
    }
  }
}
