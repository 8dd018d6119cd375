/**
 * The column-header to keyword-argument table built by
 * `bulk_create_meetings` (zoom_api_helper/v2.py).  The table is a Python dict,
 * so it is modelled as an ordered dict: its keys in insertion order beside the
 * key/value map.  The order decides which header wins when two headers map to
 * the same keyword (see MeetingRequests).
 */
module HeaderTable {
  import opened Constants
  import opened SnakeCase

  datatype Table = Table(order: seq<string>, kwarg: map<string, string>)

  /** The keys of a dict are distinct and are exactly the keys of its map. */
  ghost predicate Valid(t: Table) {
    && (forall i, j :: 0 <= i < j < |t.order| ==> t.order[i] != t.order[j])
    && (forall h :: h in t.kwarg <==> h in t.order)
  }

  /** `d[h] = k` on an ordered dict: a new key goes last, an old key keeps its place. */
  function Put(t: Table, h: string, k: string): (r: Table)
    requires Valid(t)
    ensures Valid(r)
    ensures r.kwarg == t.kwarg[h := k]
    ensures r.order == if h in t.kwarg then t.order else t.order + [h]
  {
    if h in t.kwarg then Table(t.order, t.kwarg[h := k]) else Table(t.order + [h], t.kwarg[h := k])
  }

  /** `col_header_to_kwarg.get(h) or to_snake_case(h)`: an empty or missing entry falls back. */
  function ResolveKwarg(mapping: map<string, string>, h: string): (k: string)
    ensures h in mapping && mapping[h] != "" ==> k == mapping[h]
    ensures !(h in mapping && mapping[h] != "") ==> k == ToSnakeCase(h) && |k| == |h| && IsSnake(k)
  {
    if h in mapping && mapping[h] != "" then mapping[h] else ToSnakeCase(h)
  }

  /** Headers that `bulk_create_meetings` adds as new keys of the table, in column order. */
  function Appended(allowed: set<string>, mapping: map<string, string>, headers: seq<string>): (r: seq<string>)
  {
    if headers == [] then []
    else
      var h := headers[|headers| - 1];
      Appended(allowed, mapping, headers[..|headers| - 1])
      + (if h !in allowed && ResolveKwarg(mapping, h) in allowed then [h] else [])
  }

  /**
   * What the table built from `mapping`, the column headers `headers` and the
   * allow-list iteration order `allowOrder` is: every allow-list name maps to
   * itself unless it is itself a header that resolves to an allowed name; a
   * header is mapped to its resolved name only when that name is allowed;
   * nothing else is in the table, and every value is an allowed name.
   */
  ghost predicate Describes(allowed: set<string>, t: Table, mapping: map<string, string>, headers: seq<string>, allowOrder: seq<string>) {
    && Valid(t)
    && t.order == allowOrder + Appended(allowed, mapping, headers)
    && KeysDescribed(allowed, t, mapping, headers)
    && ValuesDescribed(allowed, t, mapping, headers)
    && (forall h :: h in t.kwarg ==> t.kwarg[h] in allowed)
  }

  ghost predicate KeysDescribed(allowed: set<string>, t: Table, mapping: map<string, string>, headers: seq<string>) {
    forall h :: h in t.kwarg <==> h in allowed || (h in headers && ResolveKwarg(mapping, h) in allowed)
  }

  ghost predicate ValuesDescribed(allowed: set<string>, t: Table, mapping: map<string, string>, headers: seq<string>) {
    forall h :: h in t.kwarg ==>
      t.kwarg[h] == if h in headers && ResolveKwarg(mapping, h) in allowed then ResolveKwarg(mapping, h) else h
  }

  /** One pass of the loop over the column headers. */
  function Step(allowed: set<string>, t: Table, mapping: map<string, string>, h: string): (r: Table)
    requires Valid(t)
  {
    var kwarg := ResolveKwarg(mapping, h);
    if kwarg in allowed then Put(t, h, kwarg) else t
  }

  lemma InitialDescribes(allowed: set<string>, allowOrder: seq<string>, mapping: map<string, string>)
    requires Enumerates(allowOrder, allowed)
    ensures Describes(allowed, Table(allowOrder, map k | k in allowed :: k), mapping, [], allowOrder)
  {
  }

  lemma StepKeys(allowed: set<string>, t: Table, mapping: map<string, string>, done: seq<string>, h: string)
    requires Valid(t) && KeysDescribed(allowed, t, mapping, done)
    ensures KeysDescribed(allowed, Step(allowed, t, mapping, h), mapping, done + [h])
  {
    var r := Step(allowed, t, mapping, h);
    forall x ensures x in r.kwarg <==> x in allowed || (x in done + [h] && ResolveKwarg(mapping, x) in allowed) {
      assert x in done + [h] <==> x in done || x == h;
    }
  }

  lemma StepValues(allowed: set<string>, t: Table, mapping: map<string, string>, done: seq<string>, h: string)
    requires Valid(t) && ValuesDescribed(allowed, t, mapping, done)
    ensures ValuesDescribed(allowed, Step(allowed, t, mapping, h), mapping, done + [h])
  {
    var r := Step(allowed, t, mapping, h);
    forall x | x in r.kwarg
      ensures r.kwarg[x] == if x in done + [h] && ResolveKwarg(mapping, x) in allowed then ResolveKwarg(mapping, x) else x
    {
      assert x in done + [h] <==> x in done || x == h;
    }
  }

  lemma StepOrder(allowed: set<string>, t: Table, mapping: map<string, string>, done: seq<string>, h: string, allowOrder: seq<string>)
    requires Valid(t) && (h in t.kwarg <==> h in allowed)
    requires t.order == allowOrder + Appended(allowed, mapping, done)
    ensures Step(allowed, t, mapping, h).order == allowOrder + Appended(allowed, mapping, done + [h])
  {
    AppendedSnoc(allowed, mapping, done, h);
    var before := Appended(allowed, mapping, done);
    if h !in allowed && ResolveKwarg(mapping, h) in allowed {
      assert Step(allowed, t, mapping, h).order == t.order + [h];
      AppendAssoc(allowOrder, before, [h]);
    } else {
      assert Step(allowed, t, mapping, h).order == t.order;
      assert before + [] == before;
    }
  }

  lemma AppendAssoc(a: seq<string>, b: seq<string>, c: seq<string>)
    ensures (a + b) + c == a + (b + c)
  {
  }

  lemma AppendedSnoc(allowed: set<string>, mapping: map<string, string>, done: seq<string>, h: string)
    ensures Appended(allowed, mapping, done + [h])
         == Appended(allowed, mapping, done) + (if h !in allowed && ResolveKwarg(mapping, h) in allowed then [h] else [])
  {
    assert (done + [h])[..|done|] == done;
  }

  lemma StepDescribes(allowed: set<string>, t: Table, mapping: map<string, string>, headers: seq<string>, i: nat, allowOrder: seq<string>)
    requires i < |headers|
    requires forall a, b :: 0 <= a < b < |headers| ==> headers[a] != headers[b]
    requires Describes(allowed, t, mapping, headers[..i], allowOrder)
    ensures Describes(allowed, Step(allowed, t, mapping, headers[i]), mapping, headers[..i + 1], allowOrder)
  {
    var h, done := headers[i], headers[..i];
    assert headers[..i + 1] == done + [h];
    assert h !in done by {
      forall j | 0 <= j < i ensures done[j] != h {
        assert done[j] == headers[j];
      }
    }
    StepKeys(allowed, t, mapping, done, h);
    StepValues(allowed, t, mapping, done, h);
    assert h in t.kwarg <==> h in allowed;
    StepOrder(allowed, t, mapping, done, h, allowOrder);
  }

  /**
   * Lines 170-178 of `bulk_create_meetings`.  `colHeaderToKwarg` empty stands
   * for the argument being omitted; the derived table it is then replaced by
   * resolves every header exactly as the empty mapping would.
   */
  method BuildHeaderTable(allowed: set<string>, colHeaderToKwarg: map<string, string>, headers: seq<string>, allowOrder: seq<string>)
    returns (t: Table)
    requires Enumerates(allowOrder, allowed)
    requires forall i, j :: 0 <= i < j < |headers| ==> headers[i] != headers[j]
    ensures Describes(allowed, t, colHeaderToKwarg, headers, allowOrder)
  {
    t := Table(allowOrder, map k | k in allowed :: k);
    var mapping := colHeaderToKwarg;
    if |colHeaderToKwarg| == 0 {
      mapping := map h | h in headers :: ToSnakeCase(h);
    }
    InitialDescribes(allowed, allowOrder, colHeaderToKwarg);
    assert headers[..0] == [];
    for i := 0 to |headers|
      invariant Describes(allowed, t, colHeaderToKwarg, headers[..i], allowOrder)
    {
      var h := headers[i];
      var kwarg := if h in mapping && mapping[h] != "" then mapping[h] else ToSnakeCase(h);
      assert kwarg == ResolveKwarg(colHeaderToKwarg, h);
      StepDescribes(allowed, t, colHeaderToKwarg, headers, i, allowOrder);
      if kwarg in allowed {
        t := Put(t, h, kwarg);
      }
    }
    assert headers[..|headers|] == headers;
  }
}
