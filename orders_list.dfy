/**
  The staff dashboard: a filter over the listed orders (completed only, or the
  non-completed orders of one room level, or all non-completed orders), and
  the per-row bookkeeping of a status update (pending selection, busy flag,
  replacement of the updated order).
 */
module OrdersList {
  import opened Wrappers
  import opened Sequences
  import OrderService

  /** One listed order: its id and the stored order. */
  datatype Row = Row(id: int, order: OrderService.Order)

  predicate StartsWith(s: string, prefix: string) {
    |prefix| <= |s| && s[..|prefix|] == prefix
  }

  /** The filter applied to each row. */
  predicate Visible(r: Row, completedOnly: bool, level: string) {
    if completedOnly then r.order.status == "completed"
    else if level == "all" then r.order.status != "completed"
    else StartsWith(r.order.roomNumber, level) && r.order.status != "completed"
  }

  /** The rows the dashboard shows, in list order. */
  function Filtered(rows: seq<Row>, completedOnly: bool, level: string): (r: seq<Row>)
    ensures IsSubsequence(r, rows)
    ensures forall x :: x in r <==> x in rows && Visible(x, completedOnly, level)
    decreases |rows|
  {
    if rows == [] then []
    else
      var init, last := rows[..|rows| - 1], rows[|rows| - 1];
      assert rows == init + [last];
      var kept := Filtered(init, completedOnly, level);
      if Visible(last, completedOnly, level) then
        assert (kept + [last])[..|kept|] == kept;
        kept + [last]
      else kept
  }

  /** With "completed only", the level selection makes no difference. */
  lemma {:induction false} CompletedOnlyIgnoresLevel(rows: seq<Row>, level1: string, level2: string)
    ensures Filtered(rows, true, level1) == Filtered(rows, true, level2)
    decreases |rows|
  {
    if rows != [] {
      CompletedOnlyIgnoresLevel(rows[..|rows| - 1], level1, level2);
    }
  }

  /**
    "Completed only" and the default view split the list: every row is in
    exactly one of the two.
   */
  lemma {:induction false} CompletedAndDefaultPartition(rows: seq<Row>, level: string)
    ensures |Filtered(rows, true, level)| + |Filtered(rows, false, "all")| == |rows|
    decreases |rows|
  {
    if rows != [] {
      CompletedAndDefaultPartition(rows[..|rows| - 1], level);
    }
  }

  /** A level view shows a subsequence of the default view. */
  lemma {:induction false} LevelWithinDefault(rows: seq<Row>, level: string)
    ensures IsSubsequence(Filtered(rows, false, level), Filtered(rows, false, "all"))
    decreases |rows|
  {
    if rows != [] {
      var init, last := rows[..|rows| - 1], rows[|rows| - 1];
      LevelWithinDefault(init, level);
      var a, b := Filtered(init, false, level), Filtered(init, false, "all");
      if Visible(last, false, level) {
        assert Visible(last, false, "all");
        assert (a + [last])[..|a|] == a;
        assert (b + [last])[..|b|] == b;
      }
    }
  }

  /** Canceled orders are not completed, so the level and default views still show them. */
  lemma CanceledStillListed(rows: seq<Row>, x: Row, level: string)
    requires x in rows && x.order.status == "canceled"
    requires level == "all" || StartsWith(x.order.roomNumber, level)
    ensures x in Filtered(rows, false, level)
    ensures x !in Filtered(rows, true, level)
  {
  }

  /** The local list after a successful update: every row with that id becomes the returned order. */
  function ReplaceById(rows: seq<Row>, id: int, updated: Row): (r: seq<Row>)
    ensures |r| == |rows|
    ensures forall i :: 0 <= i < |rows| ==> r[i] == if rows[i].id == id then updated else rows[i]
  {
    if rows == [] then []
    else [if rows[0].id == id then updated else rows[0]] + ReplaceById(rows[1..], id, updated)
  }

  /** The ids of the rows, in order. */
  function Ids(rows: seq<Row>): seq<int> {
    if rows == [] then [] else [rows[0].id] + Ids(rows[1..])
  }

  /**
    When the returned order carries the id asked for, the list keeps its ids
    in order, and every row with a different id is untouched.
   */
  lemma {:induction false} ReplaceByIdKeepsIds(rows: seq<Row>, id: int, updated: Row)
    requires updated.id == id
    ensures Ids(ReplaceById(rows, id, updated)) == Ids(rows)
  {
    if rows != [] {
      ReplaceByIdKeepsIds(rows[1..], id, updated);
      assert ReplaceById(rows, id, updated)[1..] == ReplaceById(rows[1..], id, updated);
    }
  }

  /** No row with that id: nothing is replaced. */
  lemma {:induction false} ReplaceAbsentId(rows: seq<Row>, id: int, updated: Row)
    requires forall i :: 0 <= i < |rows| ==> rows[i].id != id
    ensures ReplaceById(rows, id, updated) == rows
  {
    var r := ReplaceById(rows, id, updated);
    assert forall i :: 0 <= i < |rows| ==> r[i] == rows[i];
  }

  /**
    A reply with status "completed" for a listed id moves that order out of
    every non-completed view and into the completed view.
   */
  lemma CompletedUpdateMovesRow(rows: seq<Row>, id: int, updated: Row, level: string)
    requires updated.order.status == "completed"
    requires exists i :: 0 <= i < |rows| && rows[i].id == id
    ensures updated in Filtered(ReplaceById(rows, id, updated), true, level)
    ensures forall x :: x in Filtered(ReplaceById(rows, id, updated), false, level) ==> x.id != id
  {
    var r := ReplaceById(rows, id, updated);
    var i :| 0 <= i < |rows| && rows[i].id == id;
    assert r[i] == updated;
  }

  /** `if (!newStatus) return;`: a selection exists and is not the empty string. */
  predicate HasSelection(statusUpdates: map<int, string>, id: int) {
    id in statusUpdates && statusUpdates[id] != ""
  }

  const UpdateFailedMessage: string := "Failed to update status"

  class Dashboard {
    var localOrders: seq<Row>
    var statusUpdates: map<int, string>
    var loading: map<int, bool>
    var error: Option<string>
    var filterLevel: string
    var showCompletedOnly: bool

    constructor (orders: seq<Row>)
      ensures localOrders == orders && statusUpdates == map[] && loading == map[]
      ensures error == None && filterLevel == "all" && !showCompletedOnly
    {
      localOrders, statusUpdates, loading := orders, map[], map[];
      error, filterLevel, showCompletedOnly := None, "all", false;
    }

    /** The rows on screen. */
    function FilteredOrders(): seq<Row>
      reads this
    {
      Filtered(localOrders, showCompletedOnly, filterLevel)
    }

    /** The update button of a row is enabled when it has a pending selection and no request in flight. */
    predicate UpdateEnabled(orderId: int)
      reads this
    {
      HasSelection(statusUpdates, orderId) && !(orderId in loading && loading[orderId])
    }

    method SetFilterLevel(level: string)
      modifies this`filterLevel
      ensures filterLevel == level
    {
      filterLevel := level;
    }

    method ToggleCompletedOnly()
      modifies this`showCompletedOnly
      ensures showCompletedOnly == !old(showCompletedOnly)
    {
      showCompletedOnly := !showCompletedOnly;
    }

    /** Choosing a status in a row's selector records it as that row's pending selection. */
    method HandleStatusChange(orderId: int, newStatus: string)
      modifies this`statusUpdates
      ensures statusUpdates == old(statusUpdates)[orderId := newStatus]
    {
      statusUpdates := statusUpdates[orderId := newStatus];
    }

    /**
      The update button of row `orderId`: without a pending selection nothing
      happens, and the button stays disabled. Otherwise the selection is sent;
      `reply` is the updated order the server returned, or None when the
      request failed. The busy flag of that row is set for the request and
      removed at the end either way, so the button is enabled again exactly
      when the request failed and the selection is still pending.
     */
    method UpdateOrderStatus(orderId: int, reply: Option<Row>) returns (sent: Option<string>)
      modifies this`localOrders, this`statusUpdates, this`loading, this`error
      ensures !HasSelection(old(statusUpdates), orderId) ==>
        sent == None && localOrders == old(localOrders) && statusUpdates == old(statusUpdates)
        && loading == old(loading) && error == old(error)
      ensures HasSelection(old(statusUpdates), orderId) ==>
        sent == Some(old(statusUpdates)[orderId]) && loading == old(loading) - {orderId}
      ensures HasSelection(old(statusUpdates), orderId) && reply.Some? ==>
        localOrders == ReplaceById(old(localOrders), orderId, reply.value)
        && statusUpdates == old(statusUpdates) - {orderId} && error == None
      ensures !HasSelection(old(statusUpdates), orderId) ==> !UpdateEnabled(orderId)
      ensures HasSelection(old(statusUpdates), orderId) ==> (UpdateEnabled(orderId) <==> reply.None?)
      ensures HasSelection(old(statusUpdates), orderId) && reply.None? ==>
        localOrders == old(localOrders) && statusUpdates == old(statusUpdates)
        && error == Some(UpdateFailedMessage)
    {
      if !HasSelection(statusUpdates, orderId) {
        return None;
      }
      sent := Some(statusUpdates[orderId]);
      loading := loading[orderId := true];
      error := None;
      if reply.Some? {
        localOrders := ReplaceById(localOrders, orderId, reply.value);
        statusUpdates := statusUpdates - {orderId};
      } else {
        error := Some(UpdateFailedMessage);
      }
      loading := loading - {orderId};
    }
  }
}
