/** Sending a direct message from the signed-in user to another user. */
module Messages {
  import opened Wrappers
  import opened Http
  import Text
  import opened Schema
  import Auth

  datatype Message = Message(id: nat, senderId: nat, receiverId: nat, content: string, createdAt: int)

  /** The message table, in insertion order; ids come from an auto-increment counter. */
  class MessageTable {
    var rows: seq<Message>
    var nextId: nat

    ghost predicate Valid()
      reads this
    {
      1 <= nextId && forall k | 0 <= k < |rows| :: 1 <= rows[k].id < nextId
    }

    constructor ()
      ensures Valid() && rows == [] && nextId == 1
    {
      rows, nextId := [], 1;
    }
  }

  /** The receiver the store is asked to link to: the body's id read by
      `parseInt`, when that is the id of a user (the foreign key). */
  function Receiver(users: map<nat, User>, receiverId: Option<Scalar>): (r: Option<nat>)
    ensures r.Some? ==> r.value in users && ParseIntOf(receiverId) == Some(r.value as int)
    ensures r.None? <==> ParseIntOf(receiverId).None? || ParseIntOf(receiverId).value < 0
                         || ParseIntOf(receiverId).value as nat !in users
  {
    match ParseIntOf(receiverId)
    case None => None
    case Some(n) => if n >= 0 && n as nat in users then Some(n as nat) else None
  }

  /** A receiver id sent as decimal text links the message to that user. */
  lemma ReceiverFromText(users: map<nat, User>, id: nat)
    requires id in users
    ensures Receiver(users, Some(Str(Text.NatToString(id)))) == Some(id)
  {
    Text.ParseNatToString(id);
  }

  /** POST /messages/send. The sender is always the signed-in user; the body
      cannot choose it. */
  method SendMessage(table: MessageTable, users: map<nat, User>, caller: Auth.Claims,
                     receiverId: Option<Scalar>, content: Option<string>, now: int)
    returns (r: Reply<Message>)
    requires table.Valid()
    modifies table
    ensures table.Valid()
    ensures !(Truthy(receiverId) && Given(content)) ==>
      r == Fail(400, "Receiver and content are required") && unchanged(table)
    ensures Truthy(receiverId) && Given(content) && (Receiver(users, receiverId).None? || caller.id !in users) ==>
      r == Fail(500, "Failed to send message") && unchanged(table)
    ensures Truthy(receiverId) && Given(content) && Receiver(users, receiverId).Some? && caller.id in users ==>
      var m := Message(old(table.nextId), caller.id, Receiver(users, receiverId).value, content.value, now);
      && table.rows == old(table.rows) + [m]
      && table.nextId == old(table.nextId) + 1
      && r == Ok(201, "Message sent successfully", m)
  {
    if !(Truthy(receiverId) && Given(content)) {
      return Fail(400, "Receiver and content are required");
    }
    var receiver := Receiver(users, receiverId);
    if receiver.None? || caller.id !in users {
      return Fail(500, "Failed to send message");
    }
    var m := Message(table.nextId, caller.id, receiver.value, content.value, now);
    table.rows := table.rows + [m];
    table.nextId := table.nextId + 1;
    r := Ok(201, "Message sent successfully", m);
  }
}
