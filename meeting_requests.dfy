/**
 * Turning rows into Create Meeting requests: the per-row filter on a copy of
 * each row and the projection through the header table
 * (`bulk_create_meetings`, zoom_api_helper/v2.py).
 */
module MeetingRequests {
  import opened Wrappers
  import opened Values
  import opened HeaderTable

  /** A request: keyword argument name to value, later passed as `**mtg`. */
  type Request = map<string, Value>

  /** `process_row`: may change the copy it is given, and says whether to keep it. */
  type ProcessRow = Row -> (bool, Row)

  /** Calls `process_row` on a copy of `row`; when it is omitted every row is kept as it is. */
  function RunProcessRow(process: Option<ProcessRow>, row: Row): (r: (bool, Row))
    ensures process.None? ==> r == (true, row)
    ensures process.Some? ==> r == process.value(row)
  {
    match process
    case None => (true, row)
    case Some(f) => f(row)
  }

  /** Header at position `i` of `order` is in `row` and the table maps it to `k`. */
  ghost predicate Supplies(order: seq<string>, kwarg: map<string, string>, row: Row, i: int, k: string) {
    0 <= i < |order| && order[i] in kwarg && order[i] in row && kwarg[order[i]] == k
  }

  /** `{header_to_kwarg[h]: copied_row[h] for h in header_to_kwarg if h in copied_row}` */
  function Project(order: seq<string>, kwarg: map<string, string>, row: Row): (m: map<string, Value>)
    requires forall i :: 0 <= i < |order| ==> order[i] in kwarg
    ensures m.Keys <= kwarg.Values
    ensures m.Values <= row.Values
  {
    if order == [] then map[]
    else
      var h := order[|order| - 1];
      var m := Project(order[..|order| - 1], kwarg, row);
      if h in row then m[kwarg[h] := row[h]] else m
  }

  /** A header of a prefix of the order supplies a name there iff it does in the whole order. */
  lemma SuppliesInPrefix(order: seq<string>, kwarg: map<string, string>, row: Row, n: nat, i: int, k: string)
    requires n <= |order| && i < n
    ensures Supplies(order[..n], kwarg, row, i, k) <==> Supplies(order, kwarg, row, i, k)
  {
  }

  /** The projection holds exactly the mapped names of the table's headers present in the row. */
  lemma {:induction false} ProjectKeys(order: seq<string>, kwarg: map<string, string>, row: Row)
    requires forall i :: 0 <= i < |order| ==> order[i] in kwarg
    ensures forall k :: k in Project(order, kwarg, row) <==> exists i :: Supplies(order, kwarg, row, i, k)
  {
    if order != [] {
      var n := |order| - 1;
      var prefix, h := order[..n], order[n];
      ProjectKeys(prefix, kwarg, row);
      var m := Project(prefix, kwarg, row);
      var p := Project(order, kwarg, row);
      assert p == if h in row then m[kwarg[h] := row[h]] else m;
      forall k ensures k in p <==> exists i :: Supplies(order, kwarg, row, i, k) {
        if h in row && kwarg[h] == k {
          assert Supplies(order, kwarg, row, n, k);
        } else if k in p {
          assert k in m;
          var i :| Supplies(prefix, kwarg, row, i, k);
          SuppliesInPrefix(order, kwarg, row, n, i, k);
        } else {
          forall i ensures !Supplies(order, kwarg, row, i, k) {
            if 0 <= i < n {
              SuppliesInPrefix(order, kwarg, row, n, i, k);
            }
          }
        }
      }
    }
  }

  /**
   * Each name of the projection takes the value of the LAST header in table
   * order that supplies it: a later key of the comprehension overwrites an
   * earlier one.
   */
  lemma {:induction false} ProjectValues(order: seq<string>, kwarg: map<string, string>, row: Row)
    requires forall i :: 0 <= i < |order| ==> order[i] in kwarg
    ensures forall k, i :: Supplies(order, kwarg, row, i, k) && (forall j :: i < j < |order| ==> !Supplies(order, kwarg, row, j, k))
                           ==> k in Project(order, kwarg, row) && Project(order, kwarg, row)[k] == row[order[i]]
  {
    if order != [] {
      var n := |order| - 1;
      var prefix := order[..n];
      ProjectValues(prefix, kwarg, row);
      forall k, i | Supplies(order, kwarg, row, i, k) && (forall j :: i < j < |order| ==> !Supplies(order, kwarg, row, j, k))
        ensures k in Project(order, kwarg, row) && Project(order, kwarg, row)[k] == row[order[i]]
      {
        if i < n {
          assert !Supplies(order, kwarg, row, n, k);
          SuppliesInPrefix(order, kwarg, row, n, i, k);
          forall j | i < j < n ensures !Supplies(prefix, kwarg, row, j, k) {
            SuppliesInPrefix(order, kwarg, row, n, j, k);
          }
        }
      }
    }
  }

  /** One meeting to create, from one (processed) row: the projection plus the default timezone. */
  function MeetingRequest(t: Table, row: Row, defaultTimezone: Value): (r: Request)
    requires forall i :: 0 <= i < |t.order| ==> t.order[i] in t.kwarg
    ensures "timezone" in r
    ensures r.Keys <= t.kwarg.Values + {"timezone"}
    ensures forall k :: k in r && k != "timezone" ==> r[k] in row.Values
    ensures r["timezone"] in row.Values || r["timezone"] == defaultTimezone
  {
    var mtg := Project(t.order, t.kwarg, row);
    if "timezone" in mtg then mtg else mtg["timezone" := defaultTimezone]
  }

  /**
   * A request holds exactly the mapped names of the table headers present in
   * the row, plus `timezone`; all of them are allow-listed; each takes the
   * row's value under the last header mapped to it; `timezone` is the default
   * when no header of the row supplied it.
   */
  lemma RequestContents(allowed: set<string>, t: Table, row: Row, defaultTimezone: Value)
    requires Valid(t)
    requires forall h :: h in t.kwarg ==> t.kwarg[h] in allowed
    requires "timezone" in allowed
    ensures var r := MeetingRequest(t, row, defaultTimezone);
      && (forall k :: k in r <==> k == "timezone" || exists i :: Supplies(t.order, t.kwarg, row, i, k))
      && r.Keys <= allowed
      && (forall k, i :: Supplies(t.order, t.kwarg, row, i, k)
                         && (forall j :: i < j < |t.order| ==> !Supplies(t.order, t.kwarg, row, j, k))
                         ==> r[k] == row[t.order[i]])
      && ((forall i :: !Supplies(t.order, t.kwarg, row, i, "timezone")) ==> r["timezone"] == defaultTimezone)
  {
    ProjectKeys(t.order, t.kwarg, row);
    ProjectValues(t.order, t.kwarg, row);
    var r := MeetingRequest(t, row, defaultTimezone);
    forall k | k in r ensures k in allowed {
      if k != "timezone" {
        var i :| Supplies(t.order, t.kwarg, row, i, k);
      }
    }
  }

  /**
   * What the loop of lines 180-203 produces: one request per row that
   * `process_row` accepts, in row order, built from the processed copy;
   * `origin[j]` is the row request `j` came from.
   */
  ghost predicate RequestsFor(reqs: seq<Request>, origin: seq<nat>, t: Table, rows: seq<Row>,
                              process: Option<ProcessRow>, defaultTimezone: Value)
    requires forall i :: 0 <= i < |t.order| ==> t.order[i] in t.kwarg
  {
    && |reqs| == |origin|
    && (forall j :: 0 <= j < |origin| ==> origin[j] < |rows|)
    && (forall j, j' :: 0 <= j < j' < |origin| ==> origin[j] < origin[j'])
    && (forall i :: 0 <= i < |rows| ==> (RunProcessRow(process, rows[i]).0 <==> i in origin))
    && (forall j :: 0 <= j < |reqs| ==>
          reqs[j] == MeetingRequest(t, RunProcessRow(process, rows[origin[j]]).1, defaultTimezone))
  }

  /** A row `process_row` rejects adds no request. */
  lemma RequestsReject(reqs: seq<Request>, origin: seq<nat>, t: Table, rows: seq<Row>, i: nat,
                       process: Option<ProcessRow>, defaultTimezone: Value)
    requires forall k :: 0 <= k < |t.order| ==> t.order[k] in t.kwarg
    requires i < |rows| && !RunProcessRow(process, rows[i]).0
    requires RequestsFor(reqs, origin, t, rows[..i], process, defaultTimezone)
    ensures RequestsFor(reqs, origin, t, rows[..i + 1], process, defaultTimezone)
  {
    assert i !in origin;
    forall x | 0 <= x < i + 1 ensures (RunProcessRow(process, rows[..i + 1][x]).0 <==> x in origin) {
      if x < i {
        assert rows[..i][x] == rows[x];
      }
    }
    forall j | 0 <= j < |origin| ensures rows[..i + 1][origin[j]] == rows[..i][origin[j]] {
    }
  }

  /** A row `process_row` accepts adds its request, built from the processed copy, last. */
  lemma RequestsAccept(reqs: seq<Request>, origin: seq<nat>, t: Table, rows: seq<Row>, i: nat,
                       process: Option<ProcessRow>, defaultTimezone: Value)
    requires forall k :: 0 <= k < |t.order| ==> t.order[k] in t.kwarg
    requires i < |rows| && RunProcessRow(process, rows[i]).0
    requires RequestsFor(reqs, origin, t, rows[..i], process, defaultTimezone)
    ensures RequestsFor(reqs + [MeetingRequest(t, RunProcessRow(process, rows[i]).1, defaultTimezone)],
                        origin + [i], t, rows[..i + 1], process, defaultTimezone)
  {
    var reqs', origin' := reqs + [MeetingRequest(t, RunProcessRow(process, rows[i]).1, defaultTimezone)], origin + [i];
    forall x | 0 <= x < i + 1 ensures (RunProcessRow(process, rows[..i + 1][x]).0 <==> x in origin') {
      assert x in origin' <==> x in origin || x == i;
      if x < i {
        assert rows[..i][x] == rows[x];
      }
    }
    forall j | 0 <= j < |reqs'|
      ensures reqs'[j] == MeetingRequest(t, RunProcessRow(process, rows[..i + 1][origin'[j]]).1, defaultTimezone)
    {
      if j < |reqs| {
        assert rows[..i + 1][origin[j]] == rows[..i][origin[j]];
      }
    }
  }

  method BuildRequests(t: Table, rows: seq<Row>, process: Option<ProcessRow>, defaultTimezone: Value)
    returns (reqs: seq<Request>, origin: seq<nat>)
    requires forall i :: 0 <= i < |t.order| ==> t.order[i] in t.kwarg
    ensures RequestsFor(reqs, origin, t, rows, process, defaultTimezone)
    ensures |reqs| <= |rows|
    ensures process.None? ==> |reqs| == |rows| && forall j :: 0 <= j < |origin| ==> origin[j] == j
  {
    reqs, origin := [], [];
    for i := 0 to |rows|
      invariant RequestsFor(reqs, origin, t, rows[..i], process, defaultTimezone)
      invariant |reqs| <= i
      invariant process.None? ==> |reqs| == i && forall j :: 0 <= j < |origin| ==> origin[j] == j
    {
      var copiedRow := rows[i];
      var outcome := RunProcessRow(process, copiedRow);
      var isValid, processed := outcome.0, outcome.1;
      if !isValid {
        RequestsReject(reqs, origin, t, rows, i, process, defaultTimezone);
        continue;
      }
      RequestsAccept(reqs, origin, t, rows, i, process, defaultTimezone);
      var mtg := Project(t.order, t.kwarg, processed);
      if "timezone" !in mtg {
        mtg := mtg["timezone" := defaultTimezone];
      }
      reqs, origin := reqs + [mtg], origin + [i];
    }
    assert rows[..|rows|] == rows;
  }
}
