/** The Zapier adapter (api/water-quality-zapier.js): it forwards the query to the JSON
    handler and flattens each returned system into one level of fields. */
module Zapier {
  import opened Js
  import opened Seqs
  import opened Query
  import opened JsonHandler

  /** One flattened system. The JSON texts `contaminants_json`, `zip_codes_json` and
      `full_record_json` are not modelled. */
  datatype ZapSystem = ZapSystem(
    pwsid: string, name: Scalar, state: Scalar, zipCodesCount: nat, zipCodesList: string,
    lastTested: Scalar, detectedCount: nat, detectedContaminants: seq<DetectedItem>,
    detectedSummary: string, allContaminantsSummary: string, flat: map<string, Scalar>)

  datatype ZapBody =
    | Forwarded(upstream: Body)
    | Flattened(systems: seq<ZapSystem>, pagination: Pagination)
    | Failed

  datatype ZapResponse = ZapResponse(status: nat, body: ZapBody)

  /** `response.ok`. */
  predicate Ok(status: nat) {
    200 <= status <= 299
  }

  // ---------------------------------------------------------------------------
  // flattened contaminant fields (lines 37-55)

  /** `contaminant_${name}_${field}`. */
  function FlatKey(name: string, field: string): string {
    "contaminant_" + name + "_" + field
  }

  /** The four suffixes end in four different letters, so a key names its field. */
  predicate IsField(field: string) {
    field == "value" || field == "detected" || field == "unit" || field == "mrl"
  }

  /** Two flattened keys are equal only for the same contaminant and the same field. */
  lemma FlatKeyInjective(n1: string, f1: string, n2: string, f2: string)
    requires IsField(f1) && IsField(f2)
    requires FlatKey(n1, f1) == FlatKey(n2, f2)
    ensures n1 == n2 && f1 == f2
  {
    var k1, k2 := FlatKey(n1, f1), FlatKey(n2, f2);
    assert k1[|k1| - 1] == f1[|f1| - 1] && k2[|k2| - 1] == f2[|f2| - 1];
    assert f1 == f2;
    assert |n1| == |n2|;
    assert n1 == k1[12..12 + |n1|] && n2 == k2[12..12 + |n2|];
  }

  /** The four fields one contaminant contributes. */
  function FlatFields(name: string, info: Info): map<string, Scalar> {
    map[FlatKey(name, "value") := info.value, FlatKey(name, "detected") := Bool(info.detected),
        FlatKey(name, "unit") := info.unit, FlatKey(name, "mrl") := info.mrl]
  }

  /** The four assignments of lines 39-42 write one contaminant's fields. */
  lemma FourWrites(m: map<string, Scalar>, name: string, info: Info)
    ensures m[FlatKey(name, "value") := info.value][FlatKey(name, "detected") := Bool(info.detected)]
             [FlatKey(name, "unit") := info.unit][FlatKey(name, "mrl") := info.mrl]
      == m + FlatFields(name, info)
  {
  }

  /** `flatContaminants` after the `forEach`: each entry in turn writes its four fields. */
  function FlatMap(entries: seq<(string, Info)>): map<string, Scalar> {
    if |entries| == 0 then map[]
    else
      var last := entries[|entries| - 1];
      FlatMap(entries[..|entries| - 1]) + FlatFields(last.0, last.1)
  }

  /** The value a field of an entry holds. */
  function FieldOf(info: Info, field: string): Scalar
    requires IsField(field)
  {
    if field == "value" then info.value
    else if field == "detected" then Bool(info.detected)
    else if field == "unit" then info.unit
    else info.mrl
  }

  lemma FlatFieldsHas(name: string, info: Info, key: string)
    ensures key in FlatFields(name, info) <==> key == FlatKey(name, "value") || key == FlatKey(name, "detected")
                                               || key == FlatKey(name, "unit") || key == FlatKey(name, "mrl")
  {
  }

  /** One more entry adds exactly its own four keys. */
  lemma FlatMapKeyStep(entries: seq<(string, Info)>, init: seq<(string, Info)>, key: string)
    requires |entries| > 0 && init == entries[..|entries| - 1]
    requires key in FlatMap(init) <==> exists k, f :: FlatKeyAt(init, k, f, key)
    ensures key in FlatMap(entries) <==> exists k, f :: FlatKeyAt(entries, k, f, key)
  {
    var n, name := |entries|, entries[|entries| - 1].0;
    var fields := FlatFields(entries[n - 1].0, entries[n - 1].1);
    assert FlatMap(entries) == FlatMap(init) + fields;
    FlatFieldsHas(entries[n - 1].0, entries[n - 1].1, key);
    if key in FlatMap(init) {
      var k, f :| FlatKeyAt(init, k, f, key);
      assert FlatKeyAt(entries, k, f, key);
    } else if key == FlatKey(name, "value") {
      assert FlatKeyAt(entries, n - 1, "value", key);
    } else if key == FlatKey(name, "detected") {
      assert FlatKeyAt(entries, n - 1, "detected", key);
    } else if key == FlatKey(name, "unit") {
      assert FlatKeyAt(entries, n - 1, "unit", key);
    } else if key == FlatKey(name, "mrl") {
      assert FlatKeyAt(entries, n - 1, "mrl", key);
    }
    if exists k, f :: FlatKeyAt(entries, k, f, key) {
      var k, f :| FlatKeyAt(entries, k, f, key);
      if k < n - 1 {
        assert FlatKeyAt(init, k, f, key);
      }
    }
  }

  /** The keys of the flattened fields: four per contaminant and no others. */
  lemma {:induction false} FlatMapKeys(entries: seq<(string, Info)>)
    ensures forall key :: key in FlatMap(entries) <==> exists k, f :: FlatKeyAt(entries, k, f, key)
    decreases |entries|
  {
    if |entries| > 0 {
      var init := entries[..|entries| - 1];
      FlatMapKeys(init);
      forall key ensures key in FlatMap(entries) <==> exists k, f :: FlatKeyAt(entries, k, f, key) {
        FlatMapKeyStep(entries, init, key);
      }
    }
  }

  /** `key` is field `f` of entry `k`. */
  predicate FlatKeyAt(entries: seq<(string, Info)>, k: int, f: string, key: string) {
    0 <= k < |entries| && IsField(f) && key == FlatKey(entries[k].0, f)
  }

  /** A contaminant's own keys carry its fields. */
  lemma FlatFieldsAt(name: string, info: Info, f: string)
    requires IsField(f)
    ensures FlatKey(name, f) in FlatFields(name, info)
    ensures FlatFields(name, info)[FlatKey(name, f)] == FieldOf(info, f)
  {
  }

  /** Another contaminant's keys are not among these four. */
  lemma OtherNameMisses(name: string, info: Info, other: string, f: string)
    requires IsField(f) && other != name
    ensures FlatKey(other, f) !in FlatFields(name, info)
  {
    if FlatKey(other, f) in FlatFields(name, info) {
      var g :| IsField(g) && FlatKey(other, f) == FlatKey(name, g);
      FlatKeyInjective(other, f, name, g);
    }
  }

  /** With distinct names, each contaminant's four keys carry its own fields. */
  lemma {:induction false} FlatMapFields(entries: seq<(string, Info)>, k: nat, f: string)
    requires NoDup(Names(entries))
    requires k < |entries| && IsField(f)
    ensures FlatKey(entries[k].0, f) in FlatMap(entries)
    ensures FlatMap(entries)[FlatKey(entries[k].0, f)] == FieldOf(entries[k].1, f)
    decreases |entries|
  {
    var init, last := entries[..|entries| - 1], entries[|entries| - 1];
    if k < |init| {
      assert Names(init) == Names(entries)[..|entries| - 1];
      assert init[k] == entries[k];
      FlatMapFields(init, k, f);
      assert Names(entries)[k] != Names(entries)[|entries| - 1];
      OtherNameMisses(last.0, last.1, entries[k].0, f);
    } else {
      FlatFieldsAt(last.0, last.1, f);
    }
  }

  /** `allContaminantsList`: one `name: value unit` item per entry, in entry order. */
  function AllTexts(entries: seq<(string, Info)>, num: real -> string): (texts: seq<string>)
    ensures |texts| == |entries|
    ensures forall k :: 0 <= k < |entries| ==> texts[k] == ItemText(entries[k].0, entries[k].1.value, entries[k].1.unit, num)
  {
    seq(|entries|, k requires 0 <= k < |entries| => ItemText(entries[k].0, entries[k].1.value, entries[k].1.unit, num))
  }

  /** One more entry adds its four fields, its detected item when detected, and its text. */
  lemma EntriesSnoc(entries: seq<(string, Info)>, i: nat, num: real -> string)
    requires i < |entries|
    ensures FlatMap(entries[..i + 1]) == FlatMap(entries[..i]) + FlatFields(entries[i].0, entries[i].1)
    ensures DetectedOf(entries[..i + 1]) == DetectedOf(entries[..i])
      + (if entries[i].1.detected then [DetectedItem(entries[i].0, entries[i].1.value, entries[i].1.unit)] else [])
    ensures AllTexts(entries[..i + 1], num) == AllTexts(entries[..i], num)
      + [ItemText(entries[i].0, entries[i].1.value, entries[i].1.unit, num)]
  {
    var prefix := entries[..i + 1];
    assert prefix[..i] == entries[..i];
    assert prefix[i] == entries[i];
  }

  /** Lines 39-42: the four writes of one contaminant's fields. */
  method WriteFields(m: map<string, Scalar>, name: string, info: Info) returns (flat: map<string, Scalar>)
    ensures flat == m + FlatFields(name, info)
  {
    FourWrites(m, name, info);
    flat := m[FlatKey(name, "value") := info.value];
    flat := flat[FlatKey(name, "detected") := Bool(info.detected)];
    flat := flat[FlatKey(name, "unit") := info.unit];
    flat := flat[FlatKey(name, "mrl") := info.mrl];
  }

  /** One turn of the `forEach`: entry `i` writes its fields, its detected item and its text. */
  method FlattenEntry(entries: seq<(string, Info)>, i: nat, num: real -> string,
                      flat: map<string, Scalar>, detected: seq<DetectedItem>, all: seq<string>)
    returns (flat': map<string, Scalar>, detected': seq<DetectedItem>, all': seq<string>)
    requires i < |entries|
    requires flat == FlatMap(entries[..i]) && detected == DetectedOf(entries[..i]) && all == AllTexts(entries[..i], num)
    ensures flat' == FlatMap(entries[..i + 1])
    ensures detected' == DetectedOf(entries[..i + 1])
    ensures all' == AllTexts(entries[..i + 1], num)
  {
    var (name, info) := entries[i];
    EntriesSnoc(entries, i, num);
    flat' := WriteFields(flat, name, info);
    detected' := detected;
    if info.detected {
      detected' := detected' + [DetectedItem(name, info.value, info.unit)];
    }
    all' := all + [ItemText(name, info.value, info.unit, num)];
  }

  /** The `forEach` over the contaminant entries (lines 37-55). */
  method FlattenContaminants(entries: seq<(string, Info)>, num: real -> string)
    returns (flat: map<string, Scalar>, detected: seq<DetectedItem>, all: seq<string>)
    ensures flat == FlatMap(entries)
    ensures detected == DetectedOf(entries)
    ensures all == AllTexts(entries, num)
  {
    flat, detected, all := map[], [], [];
    for i := 0 to |entries|
      invariant flat == FlatMap(entries[..i])
      invariant detected == DetectedOf(entries[..i])
      invariant all == AllTexts(entries[..i], num)
    {
      flat, detected, all := FlattenEntry(entries, i, num, flat, detected, all);
    }
    assert entries[..|entries|] == entries;
  }

  // ---------------------------------------------------------------------------
  // one system (lines 57-81)

  /** `${z}` inside `Array.prototype.join`: null and undefined become empty text. */
  function JoinText(v: Scalar, num: real -> string): string {
    if v.Null? || v.Undefined? then "" else Text(v, num)
  }

  function ZipTexts(zips: seq<Scalar>, num: real -> string): (texts: seq<string>)
    ensures |texts| == |zips|
    ensures forall k :: 0 <= k < |zips| ==> texts[k] == JoinText(zips[k], num)
  {
    seq(|zips|, k requires 0 <= k < |zips| => JoinText(zips[k], num))
  }

  /** The flattened form of one system. */
  function ZapSystemOf(d: Doc, num: real -> string): ZapSystem {
    var entries := Entries(d);
    var detected := DetectedOf(entries);
    ZapSystem(
      d.pwsid, d.name, d.state, |d.zipCodes|, Join(ZipTexts(d.zipCodes, num), ", "), d.lastTested,
      |detected|, detected, Join(DetectedTexts(detected, num), "; "),
      Join(AllTexts(entries, num), "; "), FlatMap(entries))
  }

  /** A flattened system keeps the system's identity, counts its ZIP codes and its detected
      contaminants, and holds four flat fields per contaminant and no others; with distinct
      contaminant names each field carries that contaminant's value. */
  lemma ZapSystemFields(d: Doc, num: real -> string)
    ensures var z, entries := ZapSystemOf(d, num), Entries(d);
      && z.pwsid == d.pwsid && z.name == d.name && z.state == d.state && z.lastTested == d.lastTested
      && z.zipCodesCount == |d.zipCodes|
      && z.detectedCount == |z.detectedContaminants| <= |entries|
      && (forall x :: x in z.detectedContaminants <==> exists k :: 0 <= k < |entries| && IsDetectedAt(entries, k, x))
      && (forall key :: key in z.flat <==> exists k, f :: FlatKeyAt(entries, k, f, key))
      && (NoDup(Names(entries)) ==>
            forall k, f :: 0 <= k < |entries| && IsField(f) ==>
              FlatKey(entries[k].0, f) in z.flat && z.flat[FlatKey(entries[k].0, f)] == FieldOf(entries[k].1, f))
  {
    var entries := Entries(d);
    FlatMapKeys(entries);
    if NoDup(Names(entries)) {
      forall k, f | 0 <= k < |entries| && IsField(f)
        ensures FlatKey(entries[k].0, f) in FlatMap(entries) && FlatMap(entries)[FlatKey(entries[k].0, f)] == FieldOf(entries[k].1, f)
      {
        FlatMapFields(entries, k, f);
      }
    }
  }

  method FlattenSystem(d: Doc, num: real -> string) returns (z: ZapSystem)
    ensures z == ZapSystemOf(d, num)
  {
    var flat, detected, all := FlattenContaminants(Entries(d), num);
    z := ZapSystem(
      d.pwsid, d.name, d.state, |d.zipCodes|, Join(ZipTexts(d.zipCodes, num), ", "), d.lastTested,
      |detected|, detected, Join(DetectedTexts(detected, num), "; "),
      Join(all, "; "), flat);
  }

  // ---------------------------------------------------------------------------
  // the handler (lines 13-89)

  /** `data.water_systems` of an answer of the JSON handler; the summary and `raw_json`
      fields it adds are read through as the same system. `None`: there is no list, so
      `.map` throws. */
  function SystemsOf(body: Body): (r: Option<(seq<Doc>, Pagination)>)
    ensures r.Some? <==> body.Systems? || body.EnrichedSystems?
  {
    match body
    case Systems(systems, pagination) => Some((systems, pagination))
    case EnrichedSystems(enriched, pagination) =>
      Some((seq(|enriched|, k requires 0 <= k < |enriched| => enriched[k].system), pagination))
    case _ => None
  }

  /** `data.water_systems.map(...)`: every system flattened, in order. */
  function ZapSystems(systems: seq<Doc>, num: real -> string): (zs: seq<ZapSystem>)
    ensures |zs| == |systems|
    ensures forall k :: 0 <= k < |systems| ==> zs[k] == ZapSystemOf(systems[k], num)
  {
    seq(|systems|, k requires 0 <= k < |systems| => ZapSystemOf(systems[k], num))
  }

  lemma ZapSystemsSnoc(systems: seq<Doc>, i: nat, num: real -> string)
    requires i < |systems|
    ensures ZapSystems(systems[..i + 1], num) == ZapSystems(systems[..i], num) + [ZapSystemOf(systems[i], num)]
  {
    var a, b := systems[..i + 1], systems[..i];
    var longer, rhs := ZapSystems(a, num), ZapSystems(b, num) + [ZapSystemOf(systems[i], num)];
    assert |longer| == |rhs|;
    forall k | 0 <= k < i + 1 ensures longer[k] == rhs[k] {
      if k < i {
        assert a[k] == b[k];
      } else {
        assert a[k] == systems[i];
      }
    }
  }

  function ZapierRespond(upstream: Response, num: real -> string): (r: ZapResponse)
    ensures !Ok(upstream.status) ==> r == ZapResponse(upstream.status, Forwarded(upstream.body))
    ensures Ok(upstream.status) && SystemsOf(upstream.body).Some? ==>
      var (systems, pagination) := SystemsOf(upstream.body).value;
      && r.status == 200 && r.body.Flattened?
      && r.body.pagination == pagination
      && |r.body.systems| == |systems|
      && forall k :: 0 <= k < |systems| ==> r.body.systems[k] == ZapSystemOf(systems[k], num)
  {
    if !Ok(upstream.status) then ZapResponse(upstream.status, Forwarded(upstream.body))
    else
      var listed := SystemsOf(upstream.body);
      if listed.None? then ZapResponse(500, Failed)
      else
        var (systems, pagination) := listed.value;
        ZapResponse(200, Flattened(ZapSystems(systems, num), pagination))
  }

  method Handle(upstream: Response, num: real -> string) returns (response: ZapResponse)
    ensures response == ZapierRespond(upstream, num)
  {
    if !Ok(upstream.status) {
      return ZapResponse(upstream.status, Forwarded(upstream.body));
    }
    var listed := SystemsOf(upstream.body);
    if listed.None? {
      return ZapResponse(500, Failed);
    }
    var (systems, pagination) := listed.value;
    var out: seq<ZapSystem> := [];
    for i := 0 to |systems|
      invariant out == ZapSystems(systems[..i], num)
    {
      var z := FlattenSystem(systems[i], num);
      ZapSystemsSnoc(systems, i, num);
      out := out + [z];
    }
    assert systems[..|systems|] == systems;
    response := ZapResponse(200, Flattened(out, pagination));
  }

  /** Over the JSON handler: a failed search is passed through with its status, and an
      answered one keeps its pagination and its number of systems. */
  lemma OverJsonHandler(store: Store, query: QueryString, num: real -> string)
    ensures var upstream := Respond(store, query, num);
      var r := ZapierRespond(upstream, num);
      && (upstream.status != 200 ==> r == ZapResponse(upstream.status, Forwarded(upstream.body)))
      && (upstream.status == 200 ==>
            r.status == 200 && r.body.Flattened? && r.body.pagination == upstream.body.pagination
            && |r.body.systems| == |SystemsOf(upstream.body).value.0|)
  {
    AnswersCarrySystems(store, ParseQueryParams(query), num);
  }
}
