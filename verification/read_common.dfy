/** What the three read handlers share: the query string, the parameters read from it,
    offset/limit pagination, the JSON values of a shard once it is read back, and the
    detected-contaminant summary. */
module Query {
  import opened Js
  import opened Seqs

  // ---------------------------------------------------------------------------
  // query parameters

  /** `new URL(url).searchParams`: name/value pairs in order (percent-decoding is not modelled). */
  type QueryString = seq<(string, string)>

  /** `searchParams.get(name)`: the first value given for `name`, or null. */
  function Get(query: QueryString, name: string): (f: Field)
    ensures f.None? <==> forall k :: 0 <= k < |query| ==> query[k].0 != name
    ensures f.Some? ==> exists k :: 0 <= k < |query| && query[k] == (name, f.value) && FirstWith(query, name, k)
  {
    if |query| == 0 then None
    else if query[0].0 == name then
      assert FirstWith(query, name, 0);
      Some(query[0].1)
    else
      var f := Get(query[1..], name);
      assert f.Some? ==> exists k :: 0 <= k < |query| && query[k] == (name, f.value) && FirstWith(query, name, k) by {
        if f.Some? {
          var k :| 0 <= k < |query[1..]| && query[1..][k] == (name, f.value) && FirstWith(query[1..], name, k);
          assert FirstWith(query, name, k + 1);
        }
      }
      f
  }

  /** No pair before position `k` carries `name`. */
  predicate FirstWith(query: QueryString, name: string, k: int) {
    forall j :: 0 <= j < k && j < |query| ==> query[j].0 != name
  }

  /** `parseInt(searchParams.get(name) || fallback)`: a missing or empty parameter falls back.
      `None` stands for NaN. */
  function CountParam(query: QueryString, name: string, fallback: string): (n: Option<nat>)
    ensures !Truthy(Get(query, name)) ==> n == ParseInt(Some(fallback))
    ensures Truthy(Get(query, name)) ==> n == ParseInt(Get(query, name))
  {
    var f := Get(query, name);
    ParseInt(if Truthy(f) then f else Some(fallback))
  }

  /** The parameters both handlers read; the JSON handler never reads `city`. */
  datatype Params = Params(
    zipcode: Field, pwsid: Field, pwsName: Field, city: Field, state: Field,
    limit: Option<nat>, offset: Option<nat>)

  /** `parseQueryParams` (water-quality-sqlite.js) and the `params` object of water-quality.js:
      limit defaults to 50 and offset to 0. */
  function ParseQueryParams(query: QueryString): (p: Params)
    ensures p.zipcode == Get(query, "zipcode") && p.pwsid == Get(query, "pwsid")
    ensures p.pwsName == Get(query, "pws_name") && p.city == Get(query, "city") && p.state == Get(query, "state")
    ensures !Truthy(Get(query, "limit")) ==> p.limit == Some(50)
    ensures !Truthy(Get(query, "offset")) ==> p.offset == Some(0)
    ensures Truthy(Get(query, "limit")) ==> p.limit == ParseInt(Get(query, "limit"))
    ensures Truthy(Get(query, "offset")) ==> p.offset == ParseInt(Get(query, "offset"))
  {
    assert "50"[..2] == "50" && "0"[..1] == "0";
    Params(
      Get(query, "zipcode"), Get(query, "pwsid"), Get(query, "pws_name"), Get(query, "city"), Get(query, "state"),
      CountParam(query, "limit", "50"), CountParam(query, "offset", "0"))
  }

  /** `params.zipcode || params.pwsid || params.pws_name || params.state`. */
  predicate HasFilter(p: Params) {
    Truthy(p.zipcode) || Truthy(p.pwsid) || Truthy(p.pwsName) || Truthy(p.state)
  }

  /** The error text of the 400 answer both search endpoints give without a filter. */
  const NO_FILTER: string := "At least one search parameter required (zipcode, pwsid, pws_name, or state)"

  // ---------------------------------------------------------------------------
  // pagination

  /** `results.slice(offset, offset + limit)`: a NaN bound counts as 0, and both ends are
      clamped to the length. */
  function Page<T>(results: seq<T>, offset: Option<nat>, limit: Option<nat>): (page: seq<T>)
    ensures offset.None? || limit.None? ==> page == []
    ensures offset.Some? && limit.Some? ==>
      |page| == (if offset.value >= |results| then 0 else Min(limit.value, |results| - offset.value))
    ensures forall k :: 0 <= k < |page| ==> offset.Some? && offset.value + k < |results| && page[k] == results[offset.value + k]
  {
    if offset.None? || limit.None? then []
    else
      var start := Min(offset.value, |results|);
      var end := Min(offset.value + limit.value, |results|);
      results[start..end]
  }

  /** `offset + limit < total`; a NaN operand makes the comparison false. */
  predicate HasMore(offset: Option<nat>, limit: Option<nat>, total: nat) {
    offset.Some? && limit.Some? && offset.value + limit.value < total
  }

  datatype Pagination = Pagination(total: nat, limit: Option<nat>, offset: Option<nat>, hasMore: bool)

  function PaginationOf(p: Params, total: nat): (pg: Pagination)
    ensures pg.total == total && pg.limit == p.limit && pg.offset == p.offset
    ensures pg.hasMore <==> HasMore(p.offset, p.limit, total)
  {
    Pagination(total, p.limit, p.offset, HasMore(p.offset, p.limit, total))
  }

  /** `has_more` holds exactly when some result lies past the returned page. */
  lemma {:induction false} HasMoreIffResultsRemain<T>(results: seq<T>, offset: nat, limit: nat)
    ensures HasMore(Some(offset), Some(limit), |results|) <==> offset + |Page(results, Some(offset), Some(limit))| < |results|
  {
    var page := Page(results, Some(offset), Some(limit));
    if offset >= |results| {
      assert |page| == 0;
    } else if limit <= |results| - offset {
      assert |page| == limit;
    } else {
      assert |page| == |results| - offset;
    }
  }

  /** Twenty-five results with limit 10: offset 20 gives the last five and no more,
      offset 10 gives ten and more to come. */
  lemma PaginationExample<T>(results: seq<T>)
    requires |results| == 25
    ensures |Page(results, Some(20), Some(10))| == 5 && !HasMore(Some(20), Some(10), |results|)
    ensures |Page(results, Some(10), Some(10))| == 10 && HasMore(Some(10), Some(10), |results|)
    ensures Page(results, Some(10), Some(10)) == results[10..20]
  {
  }

  // ---------------------------------------------------------------------------
  // shard documents as the handlers read them back

  /** A JSON value as it arrives from a parsed document. A number stays symbolic: how it
      prints is a parameter where it matters. */
  datatype Scalar = Undefined | Null | Bool(b: bool) | Num(x: real) | Str(s: string)

  /** `${v}` inside a template literal; `num` is JavaScript's conversion of a number to text. */
  function Text(v: Scalar, num: real -> string): string {
    match v
    case Undefined => "undefined"
    case Null => "null"
    case Bool(b) => if b then "true" else "false"
    case Num(x) => num(x)
    case Str(s) => s
  }

  /** One contaminant of a system: `{value, unit, detected, mrl}`. */
  datatype Info = Info(value: Scalar, unit: Scalar, detected: bool, mrl: Scalar)

  /** A shard entry. Shards written by process-data-stream.js carry `name` and `last_tested`;
      those written by build-json-api.js carry `pws_name`, `last_test_date` and
      `contaminants_detected`; a field a shard does not carry is `Undefined`.
      `contaminants` is the object's entries in order; `None` is a missing object. The
      handlers read some of these fields; the others pass through `...system`. */
  datatype Doc = Doc(
    pwsid: string, name: Scalar, pwsName: Scalar, state: Scalar, zipCodes: seq<Scalar>,
    lastTested: Scalar, lastTestDate: Scalar, contaminantsDetected: Scalar,
    contaminants: Option<seq<(string, Info)>>)

  /** `Object.entries(system.contaminants || {})`. */
  function Entries(d: Doc): seq<(string, Info)> {
    if d.contaminants.Some? then d.contaminants.value else []
  }

  function Names(entries: seq<(string, Info)>): (names: seq<string>)
    ensures |names| == |entries|
    ensures forall k :: 0 <= k < |entries| ==> names[k] == entries[k].0
  {
    seq(|entries|, k requires 0 <= k < |entries| => entries[k].0)
  }

  // ---------------------------------------------------------------------------
  // the detected-contaminant summary

  datatype DetectedItem = DetectedItem(name: string, value: Scalar, unit: Scalar)

  /** `entries.filter(([_, info]) => info.detected).map(([name, info]) => ({name, value, unit}))`. */
  function DetectedOf(entries: seq<(string, Info)>): (items: seq<DetectedItem>)
    ensures |items| <= |entries|
    ensures forall x :: x in items <==> exists k :: 0 <= k < |entries| && IsDetectedAt(entries, k, x)
  {
    if |entries| == 0 then []
    else
      var init, last := entries[..|entries| - 1], entries[|entries| - 1];
      var prev := DetectedOf(init);
      var items := if last.1.detected then prev + [DetectedItem(last.0, last.1.value, last.1.unit)] else prev;
      assert forall x :: x in items <==> exists k :: 0 <= k < |entries| && IsDetectedAt(entries, k, x) by {
        forall x ensures x in items <==> exists k :: 0 <= k < |entries| && IsDetectedAt(entries, k, x) {
          if x in prev {
            var k :| 0 <= k < |init| && IsDetectedAt(init, k, x);
            assert IsDetectedAt(entries, k, x);
          } else if x in items {
            assert IsDetectedAt(entries, |entries| - 1, x);
          }
          if exists k :: 0 <= k < |entries| && IsDetectedAt(entries, k, x) {
            var k :| 0 <= k < |entries| && IsDetectedAt(entries, k, x);
            if k < |init| {
              assert IsDetectedAt(init, k, x);
            }
          }
        }
      }
      items
  }

  /** Entry `k` is detected and `x` is its summary item. */
  predicate IsDetectedAt(entries: seq<(string, Info)>, k: int, x: DetectedItem) {
    0 <= k < |entries| && entries[k].1.detected && x == DetectedItem(entries[k].0, entries[k].1.value, entries[k].1.unit)
  }

  /** Distinct contaminant names stay distinct in the detected list, so `detected_count`
      counts contaminants, not rows. */
  lemma {:induction false} DetectedNamesDistinct(entries: seq<(string, Info)>)
    requires NoDup(Names(entries))
    ensures NoDup(Names(DetectedItemsAsEntries(DetectedOf(entries))))
    decreases |entries|
  {
    if |entries| > 0 {
      var init, last := entries[..|entries| - 1], entries[|entries| - 1];
      assert Names(init) == Names(entries)[..|entries| - 1];
      DetectedNamesDistinct(init);
      if last.1.detected {
        var prev := DetectedOf(init);
        forall x | x in prev ensures x.name != last.0 {
          var k :| 0 <= k < |init| && IsDetectedAt(init, k, x);
          assert Names(entries)[k] != Names(entries)[|entries| - 1];
        }
        var items := DetectedItemsAsEntries(prev + [DetectedItem(last.0, last.1.value, last.1.unit)]);
        forall i, j | 0 <= i < j < |items| ensures items[i].0 != items[j].0 {
          if j == |items| - 1 {
            assert prev[i] in prev;
          } else {
            assert DetectedItemsAsEntries(prev)[i].0 != DetectedItemsAsEntries(prev)[j].0;
          }
        }
      }
    }
  }

  /** The detected items viewed as entries, so that `Names` applies to them. */
  function DetectedItemsAsEntries(items: seq<DetectedItem>): (entries: seq<(string, Info)>)
    ensures |entries| == |items|
    ensures forall k :: 0 <= k < |items| ==> entries[k].0 == items[k].name
  {
    seq(|items|, k requires 0 <= k < |items| => (items[k].name, Info(items[k].value, items[k].unit, true, Undefined)))
  }

  /** With distinct contaminant names, the detected list has one item per detected contaminant. */
  lemma {:induction false} DetectedCount(entries: seq<(string, Info)>)
    requires NoDup(Names(entries))
    ensures |DetectedOf(entries)| == |DetectedNames(entries)|
  {
    var items := DetectedOf(entries);
    DetectedNamesDistinct(entries);
    var names := ItemNames(items);
    assert Names(DetectedItemsAsEntries(items)) == names;
    assert (set x | x in names) == DetectedNames(entries) by {
      forall n ensures n in names <==> n in DetectedNames(entries) {
        if n in names {
          var i :| 0 <= i < |names| && names[i] == n;
          assert items[i] in items;
          var k :| 0 <= k < |entries| && IsDetectedAt(entries, k, items[i]);
        }
        if n in DetectedNames(entries) {
          var k :| 0 <= k < |entries| && entries[k].1.detected && entries[k].0 == n;
          var x := DetectedItem(entries[k].0, entries[k].1.value, entries[k].1.unit);
          assert IsDetectedAt(entries, k, x);
          assert x in items;
          var i :| 0 <= i < |items| && items[i] == x;
          assert names[i] == n;
        }
      }
    }
    DistinctCard(names);
  }

  /** The names of the detected contaminants. */
  function DetectedNames(entries: seq<(string, Info)>): set<string> {
    set k | 0 <= k < |entries| && entries[k].1.detected :: entries[k].0
  }
  /** `${c.name}: ${c.value} ${c.unit}`. */
  function ItemText(name: string, value: Scalar, unit: Scalar, num: real -> string): string {
    name + ": " + Text(value, num) + " " + Text(unit, num)
  }

  function DetectedTexts(items: seq<DetectedItem>, num: real -> string): (texts: seq<string>)
    ensures |texts| == |items|
    ensures forall k :: 0 <= k < |items| ==> texts[k] == ItemText(items[k].name, items[k].value, items[k].unit, num)
  {
    seq(|items|, k requires 0 <= k < |items| => ItemText(items[k].name, items[k].value, items[k].unit, num))
  }

  function ItemNames(items: seq<DetectedItem>): (names: seq<string>)
    ensures |names| == |items|
    ensures forall k :: 0 <= k < |items| ==> names[k] == items[k].name
  {
    seq(|items|, k requires 0 <= k < |items| => items[k].name)
  }
}
