/**
 * The ticket handlers of `server/controllers/ticketController.js`: each takes
 * the authenticated principal's id and the request, works on the ticket
 * table, and produces an HTTP status and a JSON body.
 *
 * A request body that is absent (`req.body` undefined) makes the handler's
 * destructuring throw, which its `catch` turns into 500 "Server error".
 */
module TicketController {
  import opened Base
  import opened Js
  import opened TicketStore

  datatype Body =
    | Message(message: string)
    | TicketJson(ticket: Option<Ticket>)
    | TicketsJson(tickets: seq<Ticket>)
    | DeletedJson(message: string, deleted: Option<Ticket>)

  datatype Response = Response(status: int, body: Body)

  const ServerError := Response(500, Message("Server error"))
  const NotFoundOrUnauthorized := Response(404, Message("Ticket not found or unauthorized"))
  const TitleAndDescriptionRequired := Response(400, Message("Title and description are required"))

  /**
   * `tickets.find(ticket => ticket.id == id)` with the string route id: the
   * first ticket whose id the route id denotes.
   */
  function FindByRouteId(tickets: seq<Ticket>, id: string): (r: Option<Ticket>)
    ensures r.Some? ==> r.value in tickets && LooseEquals(r.value.id, id)
    ensures r.None? <==> forall t :: t in tickets ==> !LooseEquals(t.id, id)
  {
    if tickets == [] then None
    else if LooseEquals(tickets[0].id, id) then Some(tickets[0])
    else FindByRouteId(tickets[1..], id)
  }

  /** The caller's ticket the route id denotes, if any. */
  function OwnedTicket(rows: seq<Ticket>, userId: int, id: string): Option<Ticket> {
    FindByRouteId(OwnedBy(rows, userId), id)
  }

  /**
   * The ownership check cannot tell an absent ticket from another user's: it
   * finds nothing exactly when no ticket that is both the caller's and
   * denoted by the route id exists.
   */
  lemma OwnedTicketAbsentOrForeign(rows: seq<Ticket>, userId: int, id: string)
    ensures OwnedTicket(rows, userId, id).None? <==>
      forall t :: t in rows && LooseEquals(t.id, id) ==> t.userId != userId
    ensures OwnedTicket(rows, userId, id).Some? ==>
      OwnedTicket(rows, userId, id).value in rows && OwnedTicket(rows, userId, id).value.userId == userId
  {
  }

  /** The route id `toString()` of a ticket's own id always finds that ticket when the caller owns it. */
  lemma OwnedTicketByDecimal(rows: seq<Ticket>, userId: int, t: Ticket)
    requires t in rows && t.userId == userId && UniqueIds(rows)
    ensures OwnedTicket(rows, userId, Decimal(t.id)) == Some(t)
  {
    LooseEqualsDecimal(t.id, 0);
    var found := OwnedTicket(rows, userId, Decimal(t.id));
    assert t in OwnedBy(rows, userId);
    assert found.Some?;
    LooseEqualsDecimal(t.id, found.value.id);
    UniqueIdsSame(rows, found.value, t);
  }

  /** In a table with distinct ids, two rows with the same id are the same row. */
  lemma UniqueIdsSame(rows: seq<Ticket>, a: Ticket, b: Ticket)
    requires UniqueIds(rows) && a in rows && b in rows
    ensures a.id == b.id ==> a == b
  {
    var i :| 0 <= i < |rows| && rows[i] == a;
    var j :| 0 <= j < |rows| && rows[j] == b;
    assert i < j ==> rows[i].id != rows[j].id;
    assert j < i ==> rows[j].id != rows[i].id;
  }

  /** Patching one owned row leaves every row of every other user as it was. */
  lemma PatchSparesOthers(rows: seq<Ticket>, t: Ticket, fields: TicketFields, userId: int)
    requires UniqueIds(rows) && t in rows && t.userId == userId
    ensures forall i :: 0 <= i < |rows| && rows[i].userId != userId ==> PatchRows(rows, t.id, fields)[i] == rows[i]
  {
    forall i | 0 <= i < |rows| && rows[i].userId != userId ensures PatchRows(rows, t.id, fields)[i] == rows[i] {
      UniqueIdsSame(rows, rows[i], t);
    }
  }

  /**
   * `create`: a falsy title or description is refused with 400 and nothing
   * is stored; otherwise one row owned by the caller is added, with a falsy
   * status defaulting to 'todo' and a falsy priority to 'low' and any other
   * status or priority stored as given.
   */
  method Create(table: TicketTable, userId: int, body: Option<TicketFields>) returns (r: Response)
    requires table.Valid()
    modifies table
    ensures table.Valid()
    ensures body.None? ==> r == ServerError && table.rows == old(table.rows)
    ensures body.Some? && !(Truthy(body.value.title) && Truthy(body.value.description)) ==>
      r == TitleAndDescriptionRequired && table.rows == old(table.rows)
    ensures body.Some? && Truthy(body.value.title) && Truthy(body.value.description) ==>
      var b := body.value;
      var t := Ticket(old(table.nextId), userId, b.title, b.description, OrElse(b.status, "todo"), OrElse(b.priority, "low"));
      && r == Response(201, TicketJson(Some(t)))
      && table.rows == old(table.rows) + [t]
  {
    if body.None? {
      return ServerError;
    }
    var b := body.value;
    if !Truthy(b.title) || !Truthy(b.description) {
      return TitleAndDescriptionRequired;
    }
    var ticket := table.CreateTicket(userId, b.title, b.description, OrElse(b.status, "todo"), OrElse(b.priority, "low"));
    r := Response(201, TicketJson(Some(ticket)));
  }

  /** `list`: 200 with exactly the caller's tickets. */
  method List(table: TicketTable, userId: int) returns (r: Response)
    ensures r.status == 200 && r.body.TicketsJson?
    ensures forall t :: t in r.body.tickets <==> t in table.rows && t.userId == userId
  {
    var tickets := table.GetTicketsByUser(userId);
    r := Response(200, TicketsJson(tickets));
  }

  /**
   * `update`: the body is read first (absent gives 500); a route id that
   * denotes none of the caller's tickets gives 404 and changes nothing; an
   * owned ticket with no field supplied reaches the model's throw and gives
   * 500; otherwise only the supplied columns of that ticket change.
   */
  method Update(table: TicketTable, userId: int, id: string, body: Option<TicketFields>) returns (r: Response)
    requires table.Valid()
    modifies table
    ensures table.Valid()
    ensures body.None? ==> r == ServerError && table.rows == old(table.rows)
    ensures body.Some? && OwnedTicket(old(table.rows), userId, id).None? ==>
      r == NotFoundOrUnauthorized && table.rows == old(table.rows)
    ensures body.Some? && OwnedTicket(old(table.rows), userId, id).Some? && Supplied(body.value) == [] ==>
      r == ServerError && table.rows == old(table.rows)
    ensures body.Some? && OwnedTicket(old(table.rows), userId, id).Some? && Supplied(body.value) != [] ==>
      var t := OwnedTicket(old(table.rows), userId, id).value;
      && r == Response(200, TicketJson(Some(Patched(t, body.value))))
      && table.rows == PatchRows(old(table.rows), t.id, body.value)
  {
    if body.None? {
      return ServerError;
    }
    var b := body.value;
    var existingTickets := table.GetTicketsByUser(userId);
    var userTicket := FindByRouteId(existingTickets, id);
    if userTicket.None? {
      return NotFoundOrUnauthorized;
    }
    // The route string is cast to an integer by the database; the lookup
    // accepted it, so it denotes the found ticket's id.
    var t := userTicket.value;
    ghost var before := table.rows;
    var result := table.UpdateTicket(t.id, b.title, b.description, b.status, b.priority);
    if result.Error? {
      return ServerError;
    }
    PatchedFound(before, table.rows, t, b);
    r := Response(200, TicketJson(result.value));
  }

  /** After patching a row's id in a table whose ids stay distinct, the lookup by that id finds the patched row. */
  lemma PatchedFound(before: seq<Ticket>, after: seq<Ticket>, t: Ticket, fields: TicketFields)
    requires t in before && after == PatchRows(before, t.id, fields) && UniqueIds(after)
    ensures FirstWithId(after, t.id) == Some(Patched(t, fields))
  {
    var i :| 0 <= i < |before| && before[i] == t;
    assert after[i] == Patched(t, fields);
    FirstWithIdUnique(after, i);
  }

  /** In a table with distinct ids, looking up the id of a row finds that row. */
  lemma FirstWithIdUnique(rows: seq<Ticket>, i: int)
    requires UniqueIds(rows) && 0 <= i < |rows|
    ensures FirstWithId(rows, rows[i].id) == Some(rows[i])
  {
    var found := FirstWithId(rows, rows[i].id);
    assert rows[i] in rows;
    UniqueIdsSame(rows, found.value, rows[i]);
  }

  /**
   * `remove`: a route id that denotes none of the caller's tickets gives 404
   * and changes nothing; otherwise the ticket is deleted and returned with
   * 'Ticket deleted', and no row with its id remains.
   */
  method Remove(table: TicketTable, userId: int, id: string) returns (r: Response)
    requires table.Valid()
    modifies table
    ensures table.Valid()
    ensures OwnedTicket(old(table.rows), userId, id).None? ==>
      r == NotFoundOrUnauthorized && table.rows == old(table.rows)
    ensures OwnedTicket(old(table.rows), userId, id).Some? ==>
      var t := OwnedTicket(old(table.rows), userId, id).value;
      && r == Response(200, DeletedJson("Ticket deleted", Some(t)))
      && table.rows == WithoutId(old(table.rows), t.id)
      && forall u :: u in table.rows ==> u.id != t.id
  {
    var existingTickets := table.GetTicketsByUser(userId);
    var userTicket := FindByRouteId(existingTickets, id);
    if userTicket.None? {
      return NotFoundOrUnauthorized;
    }
    var t := userTicket.value;
    ghost var i :| 0 <= i < |table.rows| && table.rows[i] == t;
    FirstWithIdUnique(table.rows, i);
    var deleted := table.DeleteTicket(t.id);
    r := Response(200, DeletedJson("Ticket deleted", deleted));
  }

  /**
   * `listFiltered`: the filtered query with the caller's id as the owner
   * filter (there is no `try`, so a failing query sends no response, which
   * the in-memory table never does).
   */
  method ListFiltered(table: TicketTable, userId: int, status: Value, priority: Value) returns (r: Response)
    ensures r.status == 200 && r.body.TicketsJson?
    ensures r.body.tickets == FilterRows(table.rows, Filters(userId, status, priority))
  {
    var tickets := table.GetTickets(Filters(userId, status, priority));
    r := Response(200, TicketsJson(tickets));
  }

  /** The filtered list is scoped to the caller whenever the caller's id is truthy, as every stored id is. */
  lemma ListFilteredScoped(rows: seq<Ticket>, userId: int, status: Value, priority: Value)
    requires userId != 0
    ensures forall t :: t in FilterRows(rows, Filters(userId, status, priority)) ==> t.userId == userId
    ensures forall t :: t in FilterRows(rows, Filters(userId, status, priority)) <==>
      t in OwnedBy(rows, userId) && (Truthy(status) ==> t.status == status) && (Truthy(priority) ==> t.priority == priority)
  {
  }

  /** An id of 0 is falsy, so the owner filter disappears and every user's tickets match. */
  lemma ListFilteredUnscopedForZero(rows: seq<Ticket>)
    ensures FilterRows(rows, Filters(0, Undefined, Undefined)) == rows
  {
    AllMatchWithoutFilters(rows, Filters(0, Undefined, Undefined));
  }

  /** Once `remove` has deleted a ticket, the caller's `list` no longer contains it. */
  lemma RemovedNotListed(rows: seq<Ticket>, userId: int, t: Ticket)
    ensures t !in OwnedBy(WithoutId(rows, t.id), userId)
  {
  }

  /** Nothing restricts status or priority to the board's values: any truthy strings are stored as given. */
  lemma StatusStoredAsGiven(status: string, priority: string)
    requires status != "" && priority != ""
    ensures OrElse(Str(status), "todo") == Str(status) && OrElse(Str(priority), "low") == Str(priority)
    ensures OrElse(Str(""), "todo") == Str("todo") && OrElse(Null, "low") == Str("low")
  {
  }
}
