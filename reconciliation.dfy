/**
 * Writing the outcome of each creation back onto the rows (the completion
 * loop of `bulk_create_meetings`, zoom_api_helper/v2.py).  The thread pool is
 * a sequential loop over any completion order; each task touches one row.
 */
module Reconciliation {
  import opened Wrappers
  import opened Values
  import opened CreateMeeting

  /** `update_row(row, resp)`; returns the row as the callable left it. */
  type UpdateRow = (Row, Response) -> Row

  /** `update_row`, defaulting to `dict.update`: response keys overwrite row keys. */
  function ApplyUpdate(update: Option<UpdateRow>, row: Row, resp: Response): (r: Row)
    ensures update.None? ==> r.Keys == row.Keys + resp.Keys
    ensures update.None? ==> forall k :: k in resp ==> r[k] == resp[k]
    ensures update.None? ==> forall k :: k in row && k !in resp ==> r[k] == row[k]
    ensures update.Some? ==> r == update.value(row, resp)
  {
    match update
    case None => row + resp
    case Some(f) => f(row, resp)
  }

  /** `order` visits each of `0 .. n-1` exactly once: an order in which `n` futures may complete. */
  predicate IsCompletionOrder(order: seq<nat>, n: nat) {
    && |order| == n
    && (forall k :: 0 <= k < n ==> order[k] < n)
    && (forall k, l :: 0 <= k < l < n ==> order[k] != order[l])
    && (forall i :: 0 <= i < n ==> i in order)
  }

  /**
   * The rows after reconciliation, as the source does it: outcome `i` (of
   * the i-th REQUEST) is applied to `rows[i]`.
   */
  function Reconciled(rows: seq<Row>, outcomes: seq<Outcome>, update: Option<UpdateRow>): (r: seq<Row>)
    requires |outcomes| <= |rows|
    ensures |r| == |rows|
    ensures forall i :: 0 <= i < |outcomes| && outcomes[i].Created? ==> r[i] == ApplyUpdate(update, rows[i], outcomes[i].resp)
    ensures forall i :: 0 <= i < |rows| && (i >= |outcomes| || outcomes[i].Failed?) ==> r[i] == rows[i]
  {
    seq(|rows|, i requires 0 <= i < |rows| =>
      if i < |outcomes| && outcomes[i].Created? then ApplyUpdate(update, rows[i], outcomes[i].resp) else rows[i])
  }

  /**
   * Lines 227-244.  Whatever the completion order, a success at index i
   * updates `rows[i]`, a failure leaves it alone, rows past the last request
   * are never touched, and the rows stay in their original order.
   */
  method Reconcile(rows: array<Row>, outcomes: seq<Outcome>, order: seq<nat>, update: Option<UpdateRow>)
    requires |outcomes| <= rows.Length
    requires IsCompletionOrder(order, |outcomes|)
    modifies rows
    ensures rows[..] == Reconciled(old(rows[..]), outcomes, update)
    ensures forall i :: 0 <= i < rows.Length && (i >= |outcomes| || outcomes[i].Failed?) ==> rows[i] == old(rows[i])
    ensures forall i :: 0 <= i < |outcomes| && outcomes[i].Created? ==>
              rows[i] == ApplyUpdate(update, old(rows[i]), outcomes[i].resp)
  {
    ghost var target := Reconciled(old(rows[..]), outcomes, update);
    for k := 0 to |order|
      invariant forall i :: 0 <= i < rows.Length ==> rows[i] == if i in order[..k] then target[i] else old(rows[i])
    {
      var idx := order[k];
      assert idx !in order[..k];
      assert order[..k + 1] == order[..k] + [idx];
      match outcomes[idx] {
        case Created(resp) =>
          rows[idx] := ApplyUpdate(update, rows[idx], resp);
        case Failed(_) =>
      }
    }
    assert order[..|order|] == order;
  }

  /**
   * The intended reconciliation: outcome `j` is applied to the row request
   * `j` was built from, `rows[origin[j]]`.
   */
  function ReconciledByOrigin(rows: seq<Row>, origin: seq<nat>, outcomes: seq<Outcome>, update: Option<UpdateRow>): (r: seq<Row>)
    requires |outcomes| == |origin|
    requires forall j :: 0 <= j < |origin| ==> origin[j] < |rows|
    requires forall j, j' :: 0 <= j < j' < |origin| ==> origin[j] < origin[j']
    ensures |r| == |rows|
    ensures forall j :: 0 <= j < |origin| && outcomes[j].Created? ==>
              r[origin[j]] == ApplyUpdate(update, rows[origin[j]], outcomes[j].resp)
    ensures forall j :: 0 <= j < |origin| && outcomes[j].Failed? ==> r[origin[j]] == rows[origin[j]]
    ensures forall i :: 0 <= i < |rows| && i !in origin ==> r[i] == rows[i]
    decreases |origin|
  {
    if origin == [] then rows
    else
      var n := |origin| - 1;
      var prev := ReconciledByOrigin(rows, origin[..n], outcomes[..n], update);
      assert forall j :: 0 <= j < n ==> origin[..n][j] == origin[j] && outcomes[..n][j] == outcomes[j];
      assert forall i :: i in origin <==> i in origin[..n] || i == origin[n];
      if outcomes[n].Created? then prev[origin[n] := ApplyUpdate(update, rows[origin[n]], outcomes[n].resp)]
      else prev
  }

  /** When no row was rejected, request j came from row j and the two reconciliations agree. */
  lemma ReconciledAgreesWithoutRejections(rows: seq<Row>, origin: seq<nat>, outcomes: seq<Outcome>, update: Option<UpdateRow>)
    requires |outcomes| == |origin| <= |rows|
    requires forall j :: 0 <= j < |origin| ==> origin[j] == j
    ensures ReconciledByOrigin(rows, origin, outcomes, update) == Reconciled(rows, outcomes, update)
  {
    var a, b := ReconciledByOrigin(rows, origin, outcomes, update), Reconciled(rows, outcomes, update);
    forall i | 0 <= i < |rows| ensures a[i] == b[i] {
      if i < |origin| {
        assert origin[i] == i;
      } else {
        assert i !in origin;
      }
    }
  }

  /**
   * As written, a rejected row shifts every later response onto the wrong
   * row: with row 0 rejected and row 1 turned into request 0, the response to
   * row 1's meeting is merged into row 0 and row 1 is left as it was.
   */
  lemma MisattributedResponse()
    ensures var rows := [map["Group Name" := Str("rejected")], map["Group Name" := Str("accepted")]];
            var outcomes := [Created(map["join_url" := Str("u")])];
            && Reconciled(rows, outcomes, None)[0] == map["Group Name" := Str("rejected"), "join_url" := Str("u")]
            && Reconciled(rows, outcomes, None)[1] == rows[1]
            && ReconciledByOrigin(rows, [1], outcomes, None)[0] == rows[0]
            && ReconciledByOrigin(rows, [1], outcomes, None)[1] == map["Group Name" := Str("accepted"), "join_url" := Str("u")]
  {
    var rows := [map["Group Name" := Str("rejected")], map["Group Name" := Str("accepted")]];
    var outcomes := [Created(map["join_url" := Str("u")])];
    assert 0 !in [1];
  }
}
