/**
 * The ticket state of `client/src/components/Tickets/Dashboard.jsx`: the
 * handlers that overwrite `tickets`, `selectedTicket`, `detailsModalOpen`
 * and `deletingTicketId`, and the partition of `tickets` into the status
 * columns. The tickets are the rows the server sent.
 */
module Board {
  import opened Base
  import opened Js
  import opened TicketStore

  // ---------------------------------------------------------------- columns

  /** The column names at `Dashboard.jsx:17` as written: the last one is the UTF-8 bytes of "Archivé" read as Latin-1. */
  const StatusesAsWritten: seq<string> := ["Backlog", "En cours", "Validation", "Archiv\U{C3}\U{A9}"]

  /** The statuses the create and details modals let a user pick. */
  const ModalStatuses: seq<string> := ["Backlog", "En cours", "Validation", "Archiv\U{E9}"]

  /** The board's columns as evidently intended: one per status the modals offer. */
  const Statuses: seq<string> := ModalStatuses

  /** `tickets.filter((t) => t.status === status)` */
  function Column(tickets: seq<Ticket>, status: string): (r: seq<Ticket>)
    ensures forall t :: t in r <==> t in tickets && t.status == Str(status)
    ensures |r| <= |tickets|
  {
    if tickets == [] then []
    else (if tickets[0].status == Str(status) then [tickets[0]] else []) + Column(tickets[1..], status)
  }

  /** One column per name of `statuses`, in that order. */
  function Columns(tickets: seq<Ticket>, statuses: seq<string>): (r: seq<seq<Ticket>>)
    ensures |r| == |statuses|
    ensures forall k :: 0 <= k < |r| ==> forall t :: t in r[k] <==> t in tickets && t.status == Str(statuses[k])
  {
    seq(|statuses|, k requires 0 <= k < |statuses| => Column(tickets, statuses[k]))
  }

  predicate Distinct(statuses: seq<string>) {
    forall j, k :: 0 <= j < k < |statuses| ==> statuses[j] != statuses[k]
  }

  /**
   * With distinct column names, no ticket is in two columns, and a ticket is
   * in some column exactly when its status is one of the names.
   */
  lemma ColumnsPartition(tickets: seq<Ticket>, statuses: seq<string>, t: Ticket)
    requires Distinct(statuses) && t in tickets
    ensures forall j, k :: 0 <= j < k < |statuses| ==> !(t in Columns(tickets, statuses)[j] && t in Columns(tickets, statuses)[k])
    ensures (exists k :: 0 <= k < |statuses| && t in Columns(tickets, statuses)[k]) <==> t.status.Str? && t.status.s in statuses
  {
    var cols := Columns(tickets, statuses);
    if t.status.Str? && t.status.s in statuses {
      var k :| 0 <= k < |statuses| && statuses[k] == t.status.s;
      assert t in cols[k];
    }
  }

  /** As written, a ticket given the status "Archivé" by either modal is shown in no column. */
  lemma ArchivedHiddenAsWritten(tickets: seq<Ticket>, t: Ticket)
    requires t in tickets && t.status == Str(ModalStatuses[3])
    ensures forall k :: 0 <= k < |StatusesAsWritten| ==> t !in Columns(tickets, StatusesAsWritten)[k]
  {
    forall k | 0 <= k < |StatusesAsWritten| ensures t !in Columns(tickets, StatusesAsWritten)[k] {
      assert StatusesAsWritten[k] != ModalStatuses[3] by {
        assert StatusesAsWritten[k][|StatusesAsWritten[k]| - 1] != ModalStatuses[3][6];
      }
    }
  }

  /** With the intended names, every ticket whose status a modal offers is shown in exactly one column. */
  lemma ModalStatusesShown(tickets: seq<Ticket>, t: Ticket)
    requires t in tickets && t.status.Str? && t.status.s in ModalStatuses
    ensures exists k :: 0 <= k < |Statuses| && t in Columns(tickets, Statuses)[k]
    ensures forall j, k :: 0 <= j < k < |Statuses| ==> !(t in Columns(tickets, Statuses)[j] && t in Columns(tickets, Statuses)[k])
  {
    assert Distinct(Statuses) by {
      forall j, k | 0 <= j < k < |Statuses| ensures Statuses[j] != Statuses[k] {
        assert Statuses[j][0] != Statuses[k][0] || |Statuses[j]| != |Statuses[k]|;
      }
    }
    ColumnsPartition(tickets, Statuses, t);
  }

  // ---------------------------------------------------------------- drag and drop

  /** A draggable location: the column name and the position in it. */
  datatype Location = Location(droppableId: string, index: int)

  /** What the drag-and-drop library passes to `onDragEnd`. */
  datatype DropResult = DropResult(destination: Option<Location>, source: Location, draggableId: string)

  /** `updateTicket(ticketId, { status })`; `ticketId` is `None` when `parseInt` gave NaN. */
  datatype StatusRequest = StatusRequest(ticketId: Option<int>, status: string)

  /** A drop outside every column, or back onto the position it came from. */
  predicate IsNoOp(r: DropResult) {
    r.destination.None? ||
    (r.destination.value.droppableId == r.source.droppableId && r.destination.value.index == r.source.index)
  }

  /** `t.id === ticketId`; NaN equals nothing. */
  predicate HasId(t: Ticket, id: Option<int>) {
    id.Some? && t.id == id.value
  }

  /** `i` is the first index whose ticket has the id. */
  predicate FirstMatch(tickets: seq<Ticket>, id: Option<int>, i: int) {
    0 <= i < |tickets| && HasId(tickets[i], id) && forall k :: 0 <= k < i ==> !HasId(tickets[k], id)
  }

  /** The optimistic update: the first ticket with the id gets the new status; with none, nothing changes. */
  function Moved(tickets: seq<Ticket>, id: Option<int>, status: string): (r: seq<Ticket>)
    ensures |r| == |tickets|
    ensures forall j :: 0 <= j < |r| ==>
      r[j] == if FirstMatch(tickets, id, j) then tickets[j].(status := Str(status)) else tickets[j]
  {
    if tickets == [] then []
    else if HasId(tickets[0], id) then
      assert forall j :: 1 <= j < |tickets| ==> !FirstMatch(tickets, id, j);
      [tickets[0].(status := Str(status))] + tickets[1..]
    else
      var rest := Moved(tickets[1..], id, status);
      FirstMatchShift(tickets, id);
      [tickets[0]] + rest
  }

  /** When the head lacks the id, the first match in the whole is the first match in the tail, one further on. */
  lemma FirstMatchShift(tickets: seq<Ticket>, id: Option<int>)
    requires tickets != [] && !HasId(tickets[0], id)
    ensures forall j :: 1 <= j < |tickets| ==> (FirstMatch(tickets, id, j) <==> FirstMatch(tickets[1..], id, j - 1))
  {
    forall j | 1 <= j < |tickets|
      ensures FirstMatch(tickets, id, j) <==> FirstMatch(tickets[1..], id, j - 1)
    {
      assert forall k :: 0 <= k < j - 1 ==> tickets[1..][k] == tickets[k + 1];
    }
  }

  /** With no ticket holding the id (in particular for NaN), the move changes nothing. */
  lemma MovedWithoutMatch(tickets: seq<Ticket>, id: Option<int>, status: string)
    requires forall k :: 0 <= k < |tickets| ==> !HasId(tickets[k], id)
    ensures Moved(tickets, id, status) == tickets
  {
  }

  /** Moving the ticket at the first match is assigning that one element. */
  lemma MovedAt(tickets: seq<Ticket>, id: Option<int>, status: string, i: int)
    requires FirstMatch(tickets, id, i)
    ensures Moved(tickets, id, status) == tickets[i := tickets[i].(status := Str(status))]
  {
    var r := Moved(tickets, id, status);
    forall j | 0 <= j < |r| ensures r[j] == tickets[i := tickets[i].(status := Str(status))][j] {
      assert FirstMatch(tickets, id, j) <==> j == i;
    }
  }

  /** `Array.prototype.findIndex` with `t.id === ticketId`: the first matching index, or -1. */
  method FindIndex(tickets: seq<Ticket>, id: Option<int>) returns (i: int)
    ensures i == -1 || FirstMatch(tickets, id, i)
    ensures i == -1 <==> forall k :: 0 <= k < |tickets| ==> !HasId(tickets[k], id)
  {
    i := 0;
    while i < |tickets|
      invariant 0 <= i <= |tickets|
      invariant forall k :: 0 <= k < i ==> !HasId(tickets[k], id)
    {
      if HasId(tickets[i], id) {
        return;
      }
      i := i + 1;
    }
    i := -1;
  }

  /** `prev.map((ticket) => ticket.id === updated.id ? updated : ticket)` */
  function ReplaceById(tickets: seq<Ticket>, updated: Ticket): (r: seq<Ticket>)
    ensures |r| == |tickets|
    ensures forall t :: t in r ==> t == updated || (t in tickets && t.id != updated.id)
    ensures forall j :: 0 <= j < |r| && r[j] != tickets[j] ==> r[j] == updated && tickets[j].id == updated.id
  {
    seq(|tickets|, j requires 0 <= j < |tickets| => if tickets[j].id == updated.id then updated else tickets[j])
  }

  /** Replacing twice with the same ticket is replacing once. */
  lemma ReplaceByIdIdempotent(tickets: seq<Ticket>, updated: Ticket)
    ensures ReplaceById(ReplaceById(tickets, updated), updated) == ReplaceById(tickets, updated)
  {
  }

  /**
   * Where ids are distinct, the optimistic move of a ticket is the same list
   * as replacing it by its copy with the new status: the drag update and a
   * later `handleTicketUpdate` with the server's row agree when the server
   * changed nothing else.
   */
  lemma {:induction false} MovedIsReplace(tickets: seq<Ticket>, i: int, status: string)
    requires UniqueIds(tickets) && 0 <= i < |tickets|
    ensures Moved(tickets, Some(tickets[i].id), status) == ReplaceById(tickets, tickets[i].(status := Str(status)))
  {
    var id := Some(tickets[i].id as int);
    assert FirstMatch(tickets, id, i);
    MovedAt(tickets, id, status, i);
    var r := ReplaceById(tickets, tickets[i].(status := Str(status)));
    forall j | 0 <= j < |tickets| ensures r[j] == tickets[i := tickets[i].(status := Str(status))][j] {
      if j < i {
        assert tickets[j].id != tickets[i].id;
      } else if j > i {
        assert tickets[i].id != tickets[j].id;
      }
    }
  }

  // ---------------------------------------------------------------- the component's state

  class Dashboard {
    var tickets: seq<Ticket>
    var selectedTicket: Option<Ticket>
    var detailsModalOpen: bool
    var deletingTicketId: Option<nat>

    constructor ()
      ensures tickets == [] && selectedTicket.None? && !detailsModalOpen && deletingTicketId.None?
    {
      tickets := [];
      selectedTicket := None;
      detailsModalOpen := false;
      deletingTicketId := None;
    }

    /** The tickets each column of the board shows. */
    function ColumnsOf(statuses: seq<string>): (r: seq<seq<Ticket>>)
      reads this
      ensures |r| == |statuses|
      ensures forall k :: 0 <= k < |r| ==> forall t :: t in r[k] <==> t in tickets && t.status == Str(statuses[k])
    {
      Columns(tickets, statuses)
    }

    /**
     * `handleDragEnd`: a no-op drop changes nothing and sends nothing;
     * otherwise the ticket the draggable id names gets the destination column
     * as its status and the status update is sent. `serverAccepted` is that
     * request's outcome: a failure is only logged, so the optimistic status
     * stays either way.
     */
    method HandleDragEnd(result: DropResult, serverAccepted: bool) returns (request: Option<StatusRequest>)
      modifies this
      ensures IsNoOp(result) ==> request.None? && tickets == old(tickets)
      ensures !IsNoOp(result) ==>
        var id := ParseInt(result.draggableId);
        && request == Some(StatusRequest(id, result.destination.value.droppableId))
        && tickets == Moved(old(tickets), id, result.destination.value.droppableId)
      ensures selectedTicket == old(selectedTicket) && detailsModalOpen == old(detailsModalOpen)
      ensures deletingTicketId == old(deletingTicketId)
    {
      if result.destination.None? {
        return None;
      }
      var destination := result.destination.value;
      if destination.droppableId == result.source.droppableId && destination.index == result.source.index {
        return None;
      }
      var ticketId := ParseInt(result.draggableId);
      var updatedTickets := tickets;
      var ticketIndex := FindIndex(updatedTickets, ticketId);
      if ticketIndex != -1 {
        MovedAt(updatedTickets, ticketId, destination.droppableId, ticketIndex);
        updatedTickets := updatedTickets[ticketIndex := updatedTickets[ticketIndex].(status := Str(destination.droppableId))];
      } else {
        MovedWithoutMatch(updatedTickets, ticketId, destination.droppableId);
      }
      tickets := updatedTickets;
      request := Some(StatusRequest(ticketId, destination.droppableId));
    }

    /** `addTicket`: the new ticket goes at the end. */
    method AddTicket(ticket: Ticket)
      modifies this
      ensures tickets == old(tickets) + [ticket]
      ensures selectedTicket == old(selectedTicket) && detailsModalOpen == old(detailsModalOpen)
      ensures deletingTicketId == old(deletingTicketId)
    {
      tickets := tickets + [ticket];
    }

    /** `handleTicketClick`: the details modal opens on the ticket. */
    method HandleTicketClick(ticket: Ticket)
      modifies this
      ensures selectedTicket == Some(ticket) && detailsModalOpen
      ensures tickets == old(tickets) && deletingTicketId == old(deletingTicketId)
    {
      selectedTicket := Some(ticket);
      detailsModalOpen := true;
    }

    /** `handleTicketUpdate`: every ticket with the updated ticket's id is replaced by it. */
    method HandleTicketUpdate(updated: Ticket)
      modifies this
      ensures tickets == ReplaceById(old(tickets), updated)
      ensures selectedTicket == old(selectedTicket) && detailsModalOpen == old(detailsModalOpen)
      ensures deletingTicketId == old(deletingTicketId)
    {
      tickets := ReplaceById(tickets, updated);
    }

    /** `handleTicketDelete`: the deletion animation starts and the modal closes; the ticket stays listed. */
    method HandleTicketDelete(ticketId: nat)
      modifies this
      ensures deletingTicketId == Some(ticketId) && !detailsModalOpen && selectedTicket.None?
      ensures tickets == old(tickets)
    {
      deletingTicketId := Some(ticketId);
      detailsModalOpen := false;
      selectedTicket := None;
    }

    /** `handleDeletionComplete`: every ticket with the id goes, and no deletion is pending. */
    method HandleDeletionComplete(ticketId: nat)
      modifies this
      ensures tickets == WithoutId(old(tickets), ticketId)
      ensures deletingTicketId.None?
      ensures selectedTicket == old(selectedTicket) && detailsModalOpen == old(detailsModalOpen)
    {
      tickets := WithoutId(tickets, ticketId);
      deletingTicketId := None;
    }
  }

  /** After the deletion completes, no column shows a ticket with that id, and the others keep their columns. */
  lemma DeletedLeavesBoard(tickets: seq<Ticket>, statuses: seq<string>, id: nat)
    ensures forall k :: 0 <= k < |statuses| ==>
      forall t :: t in Columns(WithoutId(tickets, id), statuses)[k] <==> t in Columns(tickets, statuses)[k] && t.id != id
  {
  }
}
