/** The read handler over the JSON documents (api/water-quality.js): a ZIP search through the
    ZIP index, a state search through one shard, or a scan of shards for a pwsid or a name;
    then offset/limit pagination and a detected-contaminant summary per system. */
module JsonHandler {
  import opened Js
  import opened Seqs
  import opened Query

  // ---------------------------------------------------------------------------
  // the documents the handler fetches

  /** An entry of a ZIP index list: `{pwsid, state}`. */
  datatype ZipRef = ZipRef(pwsid: Scalar, state: Scalar)

  /** The documents under `/api/data/`. A document that is missing is `None`: the response
      of its fetch is not JSON, so `.json()` throws. Shards are looked up by file name. */
  datatype Store = Store(
    zipIndex: Option<map<string, seq<ZipRef>>>,
    stateCodes: Option<seq<(string, Scalar)>>,
    stateIndex: Option<seq<string>>,
    shards: map<string, seq<Doc>>)

  /** `fetch('/api/data/${key}.json')` followed by `.json()`. */
  function Shard(store: Store, key: string): (r: Option<seq<Doc>>)
    ensures r.Some? <==> key in store.shards
    ensures r.Some? ==> r.value == store.shards[key]
  {
    if key in store.shards then Some(store.shards[key]) else None
  }

  // ---------------------------------------------------------------------------
  // responses

  datatype Summary = Summary(
    detectedCount: nat, detectedContaminants: seq<DetectedItem>, detectedNames: string, detectedValues: string)

  /** `{...system, summary, raw_json}`; the text of `raw_json` is not modelled. */
  datatype Enriched = Enriched(system: Doc, summary: Summary)

  datatype Body =
    | Message(error: string)
    | InternalError
    | Systems(systems: seq<Doc>, pagination: Pagination)
    | EnrichedSystems(enriched: seq<Enriched>, pagination: Pagination)

  datatype Response = Response(status: nat, body: Body)

  /** What the `catch` block answers for an exception (a document that is not JSON, or
      `toLowerCase` on a name that is not a string). */
  const FAILURE: Response := Response(500, InternalError)

  /** `Prepend(found, rest)`: the results gathered so far, then those of the rest, or the
      failure of the rest. */
  function Prepend(found: seq<Doc>, rest: Option<seq<Doc>>): Option<seq<Doc>> {
    if rest.Some? then Some(found + rest.value) else None
  }

  // ---------------------------------------------------------------------------
  // ZIP search (lines 36-50)

  /** `stateData.find(s => s.pwsid === pwsid)`: the first system with that pwsid. */
  function Find(docs: seq<Doc>, pwsid: Scalar): (r: Option<Doc>)
    ensures r.None? <==> forall d :: d in docs ==> Str(d.pwsid) != pwsid
    ensures r.Some? ==> exists k :: 0 <= k < |docs| && docs[k] == r.value && Str(r.value.pwsid) == pwsid && NoneBefore(docs, pwsid, k)
  {
    if |docs| == 0 then None
    else if Str(docs[0].pwsid) == pwsid then
      assert NoneBefore(docs, pwsid, 0);
      Some(docs[0])
    else
      var r := Find(docs[1..], pwsid);
      assert r.Some? ==> exists k :: 0 <= k < |docs| && docs[k] == r.value && Str(r.value.pwsid) == pwsid && NoneBefore(docs, pwsid, k) by {
        if r.Some? {
          var k :| 0 <= k < |docs[1..]| && docs[1..][k] == r.value && Str(r.value.pwsid) == pwsid && NoneBefore(docs[1..], pwsid, k);
          assert NoneBefore(docs, pwsid, k + 1);
        }
      }
      assert r.None? ==> forall d :: d in docs ==> Str(d.pwsid) != pwsid by {
        if r.None? {
          forall d | d in docs ensures Str(d.pwsid) != pwsid {
            if d != docs[0] {
              assert d in docs[1..];
            }
          }
        }
      }
      r
  }

  /** No system before position `k` has that pwsid. */
  predicate NoneBefore(docs: seq<Doc>, pwsid: Scalar, k: int) {
    forall j :: 0 <= j < k && j < |docs| ==> Str(docs[j].pwsid) != pwsid
  }

  /** The ZIP search over the index list, in list order: each entry loads the shard named by
      its state and contributes the system found there, if any. A missing shard aborts. */
  function ZipResults(store: Store, refs: seq<ZipRef>, num: real -> string): Option<seq<Doc>>
    decreases |refs|
  {
    if |refs| == 0 then Some([])
    else
      var shard := Shard(store, Text(refs[0].state, num));
      if shard.None? then None
      else
        var found := Find(shard.value, refs[0].pwsid);
        Prepend(if found.Some? then [found.value] else [], ZipResults(store, refs[1..], num))
  }

  /** The loop over the ZIP index list (lines 42-49). */
  method SearchByZip(store: Store, refs: seq<ZipRef>, num: real -> string) returns (results: Option<seq<Doc>>)
    ensures results == ZipResults(store, refs, num)
  {
    var found: seq<Doc> := [];
    var i := 0;
    PrependNothing(ZipResults(store, refs, num));
    assert refs[0..] == refs;
    while i < |refs|
      invariant 0 <= i <= |refs|
      invariant ZipResults(store, refs, num) == Prepend(found, ZipResults(store, refs[i..], num))
    {
      var ref := refs[i];
      assert refs[i..][0] == ref && refs[i..][1..] == refs[i + 1..];
      var key := Text(ref.state, num);
      if key !in store.shards {
        assert Shard(store, Text(refs[i..][0].state, num)).None?;
        return None;
      }
      var stateData := store.shards[key];
      var system := Find(stateData, ref.pwsid);
      var hit := if system.Some? then [system.value] else [];
      PrependTwice(found, hit, ZipResults(store, refs[i + 1..], num));
      found := found + hit;
      i := i + 1;
    }
    assert refs[|refs|..] == [] && found + [] == found;
    results := Some(found);
  }

  lemma PrependNothing(rest: Option<seq<Doc>>)
    ensures Prepend([], rest) == rest
  {
    if rest.Some? {
      assert [] + rest.value == rest.value;
    }
  }

  lemma PrependTwice(a: seq<Doc>, b: seq<Doc>, rest: Option<seq<Doc>>)
    ensures Prepend(a, Prepend(b, rest)) == Prepend(a + b, rest)
  {
    if rest.Some? {
      assert a + (b + rest.value) == (a + b) + rest.value;
    }
  }

  /** A successful ZIP search: every result is a system of the shard an entry names, with the
      entry's pwsid; every entry whose shard holds its pwsid contributes one; and there are no
      more results than entries. */
  lemma {:induction false} ZipSearchResults(store: Store, refs: seq<ZipRef>, num: real -> string)
    requires ZipResults(store, refs, num).Some?
    ensures var rs := ZipResults(store, refs, num).value;
      && |rs| <= |refs|
      && (forall d :: d in rs ==> exists k :: 0 <= k < |refs| && ZipHit(store, refs[k], num, d))
      && (forall k :: 0 <= k < |refs| && Text(refs[k].state, num) in store.shards
            && (exists d :: d in store.shards[Text(refs[k].state, num)] && Str(d.pwsid) == refs[k].pwsid)
            ==> exists d :: d in rs && Str(d.pwsid) == refs[k].pwsid)
    decreases |refs|
  {
    if |refs| > 0 {
      var rest := refs[1..];
      ZipSearchResults(store, rest, num);
      var shard := Shard(store, Text(refs[0].state, num));
      var found := Find(shard.value, refs[0].pwsid);
      var head := if found.Some? then [found.value] else [];
      var rs := ZipResults(store, refs, num).value;
      var tail := ZipResults(store, rest, num).value;
      assert rs == head + tail;
      forall d | d in rs ensures exists k :: 0 <= k < |refs| && ZipHit(store, refs[k], num, d) {
        if d in head {
          assert ZipHit(store, refs[0], num, d);
        } else {
          var k :| 0 <= k < |rest| && ZipHit(store, rest[k], num, d);
          assert refs[k + 1] == rest[k];
        }
      }
      forall k | 0 <= k < |refs| && Text(refs[k].state, num) in store.shards
          && (exists d :: d in store.shards[Text(refs[k].state, num)] && Str(d.pwsid) == refs[k].pwsid)
        ensures exists d :: d in rs && Str(d.pwsid) == refs[k].pwsid
      {
        if k == 0 {
          assert found.value in rs;
        } else {
          assert rest[k - 1] == refs[k];
          var d :| d in tail && Str(d.pwsid) == refs[k].pwsid;
          assert d in rs;
        }
      }
    }
  }

  /** `d` is what the entry `ref` finds: a system of its shard with its pwsid. */
  predicate ZipHit(store: Store, ref: ZipRef, num: real -> string, d: Doc) {
    Text(ref.state, num) in store.shards && d in store.shards[Text(ref.state, num)] && Str(d.pwsid) == ref.pwsid
  }

  // ---------------------------------------------------------------------------
  // shard scan (lines 103-124)

  /** The scan's test of one system. `None` is the TypeError of `system.pws_name.toLowerCase()`
      on a name that is not a string; it is reached only when the pwsid test fails. */
  function MatchOf(d: Doc, p: Params): (m: Option<bool>)
    ensures m == Some(true) <==>
      (Truthy(p.pwsid) && d.pwsid == ToUpperCase(p.pwsid.value))
      || (Truthy(p.pwsName) && d.pwsName.Str? && Includes(ToLowerCase(d.pwsName.s), ToLowerCase(p.pwsName.value)))
    ensures m.None? <==>
      !(Truthy(p.pwsid) && d.pwsid == ToUpperCase(p.pwsid.value)) && Truthy(p.pwsName) && !d.pwsName.Str?
  {
    if Truthy(p.pwsid) && d.pwsid == ToUpperCase(p.pwsid.value) then Some(true)
    else if Truthy(p.pwsName) then
      if d.pwsName.Str? then Some(Includes(ToLowerCase(d.pwsName.s), ToLowerCase(p.pwsName.value))) else None
    else Some(false)
  }

  /** The name test folds case beyond ASCII: `añasco` finds the system "AÑASCO". */
  lemma AccentedNameMatches(d: Doc, p: Params)
    requires !Truthy(p.pwsid) && p.pwsName == Some("a\U{F1}asco") && d.pwsName == Str("A\U{D1}ASCO")
    ensures MatchOf(d, p) == Some(true)
  {
    var lower := "a\U{F1}asco";
    assert ToLowerCase("A\U{D1}ASCO") == lower == ToLowerCase(lower);
    assert lower[0..6] == lower;
    assert OccursAt(lower, lower, 0);
  }

  /** The systems of one shard that match, in shard order. */
  function ScanShard(docs: seq<Doc>, p: Params): Option<seq<Doc>>
    decreases |docs|
  {
    if |docs| == 0 then Some([])
    else
      var m := MatchOf(docs[0], p);
      if m.None? then None
      else Prepend(if m.value then [docs[0]] else [], ScanShard(docs[1..], p))
  }

  /** The scan over `states`, shard after shard. A missing shard or a failing test aborts. */
  function ScanStates(store: Store, states: seq<string>, p: Params): Option<seq<Doc>>
    decreases |states|
  {
    if |states| == 0 then Some([])
    else
      var shard := Shard(store, states[0]);
      if shard.None? then None
      else
        var here := ScanShard(shard.value, p);
        if here.None? then None
        else Prepend(here.value, ScanStates(store, states[1..], p))
  }

  /** The two nested loops of lines 111-123. */
  method ScanShards(store: Store, states: seq<string>, p: Params) returns (results: Option<seq<Doc>>)
    ensures results == ScanStates(store, states, p)
  {
    var found: seq<Doc> := [];
    var i := 0;
    PrependNothing(ScanStates(store, states, p));
    assert states[0..] == states;
    while i < |states|
      invariant 0 <= i <= |states|
      invariant ScanStates(store, states, p) == Prepend(found, ScanStates(store, states[i..], p))
    {
      var state := states[i];
      assert states[i..][0] == state && states[i..][1..] == states[i + 1..];
      if state !in store.shards {
        assert Shard(store, states[i..][0]).None?;
        return None;
      }
      var stateData := store.shards[state];
      var here := ScanOneShard(stateData, p);
      if here.None? {
        return None;
      }
      PrependTwice(found, here.value, ScanStates(store, states[i + 1..], p));
      found := found + here.value;
      i := i + 1;
    }
    assert states[|states|..] == [] && found + [] == found;
    results := Some(found);
  }

  /** The inner loop over one shard's systems (lines 116-122). */
  method ScanOneShard(stateData: seq<Doc>, p: Params) returns (here: Option<seq<Doc>>)
    ensures here == ScanShard(stateData, p)
  {
    var kept: seq<Doc> := [];
    var j := 0;
    PrependNothing(ScanShard(stateData, p));
    assert stateData[0..] == stateData;
    while j < |stateData|
      invariant 0 <= j <= |stateData|
      invariant ScanShard(stateData, p) == Prepend(kept, ScanShard(stateData[j..], p))
    {
      var system := stateData[j];
      assert stateData[j..][0] == system && stateData[j..][1..] == stateData[j + 1..];
      var hit: seq<Doc> := [];
      if Truthy(p.pwsid) && system.pwsid == ToUpperCase(p.pwsid.value) {
        hit := [system];
      } else if Truthy(p.pwsName) {
        if !system.pwsName.Str? {
          assert MatchOf(stateData[j..][0], p).None?;
          return None;
        }
        if Includes(ToLowerCase(system.pwsName.s), ToLowerCase(p.pwsName.value)) {
          hit := [system];
        }
      }
      PrependTwice(kept, hit, ScanShard(stateData[j + 1..], p));
      kept := kept + hit;
      j := j + 1;
    }
    assert stateData[|stateData|..] == [] && kept + [] == kept;
    here := Some(kept);
  }

  /** A successful shard test keeps each system at most as often as it occurs, and keeps
      exactly the systems that match. */
  lemma {:induction false} ScanShardFilters(docs: seq<Doc>, p: Params)
    requires ScanShard(docs, p).Some?
    ensures var rs := ScanShard(docs, p).value;
      && multiset(rs) <= multiset(docs)
      && forall d :: d in rs <==> d in docs && MatchOf(d, p) == Some(true)
    decreases |docs|
  {
    if |docs| > 0 {
      ScanShardFilters(docs[1..], p);
      assert docs == [docs[0]] + docs[1..];
    }
  }

  /** A successful scan returns exactly the matching systems of the scanned shards. */
  lemma {:induction false} ScanMembership(store: Store, states: seq<string>, p: Params)
    requires ScanStates(store, states, p).Some?
    ensures forall d :: d in ScanStates(store, states, p).value <==> exists k :: 0 <= k < |states| && ScanHit(store, states[k], p, d)
    decreases |states|
  {
    if |states| > 0 {
      var rest := states[1..];
      ScanMembership(store, rest, p);
      var docs := store.shards[states[0]];
      ScanShardFilters(docs, p);
      forall d ensures d in ScanStates(store, states, p).value <==> exists k :: 0 <= k < |states| && ScanHit(store, states[k], p, d) {
        if d in ScanShard(docs, p).value {
          assert ScanHit(store, states[0], p, d);
        } else if d in ScanStates(store, rest, p).value {
          var k :| 0 <= k < |rest| && ScanHit(store, rest[k], p, d);
          assert states[k + 1] == rest[k];
        }
        if exists k :: 0 <= k < |states| && ScanHit(store, states[k], p, d) {
          var k :| 0 <= k < |states| && ScanHit(store, states[k], p, d);
          if k > 0 {
            assert rest[k - 1] == states[k];
          }
        }
      }
    }
  }

  predicate ScanHit(store: Store, state: string, p: Params, d: Doc) {
    state in store.shards && d in store.shards[state] && MatchOf(d, p) == Some(true)
  }

  // ---------------------------------------------------------------------------
  // state search (lines 53-100)

  /** `/^\d+$/.test(s)`. */
  predicate AllDigits(s: string) {
    |s| > 0 && forall i :: 0 <= i < |s| ==> IsDigit(s[i])
  }

  /** `Object.entries(stateCodes).find(([code, abbr]) => abbr === stateCode)?.[0] || stateCode`. */
  function FindCode(codes: seq<(string, Scalar)>, abbr: string): (code: string)
    ensures (forall k :: 0 <= k < |codes| ==> codes[k].1 != Str(abbr)) ==> code == abbr
    ensures code != abbr ==> exists k :: 0 <= k < |codes| && codes[k].1 == Str(abbr) && codes[k].0 == code && FirstAbbr(codes, abbr, k)
    decreases |codes|
  {
    if |codes| == 0 then abbr
    else if codes[0].1 == Str(abbr) then
      assert FirstAbbr(codes, abbr, 0);
      if codes[0].0 != "" then codes[0].0 else abbr
    else
      var code := FindCode(codes[1..], abbr);
      assert code != abbr ==> exists k :: 0 <= k < |codes| && codes[k].1 == Str(abbr) && codes[k].0 == code && FirstAbbr(codes, abbr, k) by {
        if code != abbr {
          var k :| 0 <= k < |codes[1..]| && codes[1..][k].1 == Str(abbr) && codes[1..][k].0 == code && FirstAbbr(codes[1..], abbr, k);
          assert FirstAbbr(codes, abbr, k + 1);
        }
      }
      code
  }

  /** No entry before position `k` has that abbreviation. */
  predicate FirstAbbr(codes: seq<(string, Scalar)>, abbr: string, k: int) {
    forall j :: 0 <= j < k && j < |codes| ==> codes[j].1 != Str(abbr)
  }

  /** A two-letter state that is not numeric: the handler first tries a shard under it. */
  predicate IsAbbreviation(code: string) {
    |code| == 2 && !AllDigits(code)
  }

  /** The state branch. The state codes document is read first, whatever follows. */
  function StateResponse(store: Store, p: Params, num: real -> string): Response
    requires Truthy(p.state)
  {
    if store.stateCodes.None? then FAILURE
    else
      var upper := ToUpperCase(p.state.value);
      if IsAbbreviation(upper) && upper in store.shards then
        var results := store.shards[upper];
        Response(200, Systems(Page(results, p.offset, p.limit), PaginationOf(p, |results|)))
      else
        var code := if IsAbbreviation(upper) then FindCode(store.stateCodes.value, upper) else upper;
        if code !in store.shards then Response(404, Message("State " + p.state.value + " not found"))
        else Finish(store.shards[code], p, num)
  }

  // ---------------------------------------------------------------------------
  // pagination and the summary (lines 126-164)

  /** The summary fields added to one system of the page. */
  function Enrich(d: Doc, num: real -> string): (e: Enriched)
    ensures e.system == d
    ensures e.summary.detectedContaminants == DetectedOf(Entries(d))
    ensures e.summary.detectedCount == |e.summary.detectedContaminants|
    ensures e.summary.detectedNames == Join(ItemNames(e.summary.detectedContaminants), ", ")
    ensures e.summary.detectedValues == Join(DetectedTexts(e.summary.detectedContaminants, num), "; ")
  {
    var items := DetectedOf(Entries(d));
    Enriched(d, Summary(|items|, items, Join(ItemNames(items), ", "), Join(DetectedTexts(items, num), "; ")))
  }

  function Finish(results: seq<Doc>, p: Params, num: real -> string): Response {
    var page := Page(results, p.offset, p.limit);
    Response(200, EnrichedSystems(seq(|page|, k requires 0 <= k < |page| => Enrich(page[k], num)), PaginationOf(p, |results|)))
  }

  // ---------------------------------------------------------------------------
  // the handler (lines 12-124)

  function RespondTo(store: Store, p: Params, num: real -> string): Response {
    if !HasFilter(p) then Response(400, Message(NO_FILTER))
    else if Truthy(p.zipcode) then
      if store.zipIndex.None? then FAILURE
      else
        var index := store.zipIndex.value;
        var refs := if p.zipcode.value in index then index[p.zipcode.value] else [];
        var results := ZipResults(store, refs, num);
        if results.None? then FAILURE else Finish(results.value, p, num)
    else if Truthy(p.state) && !Truthy(p.pwsName) && !Truthy(p.pwsid) then
      StateResponse(store, p, num)
    else if store.stateIndex.None? then FAILURE
    else
      var states := if Truthy(p.state) then [p.state.value] else store.stateIndex.value;
      var results := ScanStates(store, states, p);
      if results.None? then FAILURE else Finish(results.value, p, num)
  }

  function Respond(store: Store, query: QueryString, num: real -> string): Response {
    RespondTo(store, ParseQueryParams(query), num)
  }

  /** The ZIP branch: the refs under the ZIP code, read shard by shard. */
  method HandleZip(store: Store, p: Params, num: real -> string) returns (response: Response)
    requires HasFilter(p) && Truthy(p.zipcode)
    ensures response == RespondTo(store, p, num)
  {
    if store.zipIndex.None? {
      return FAILURE;
    }
    var index := store.zipIndex.value;
    var refs := if p.zipcode.value in index then index[p.zipcode.value] else [];
    var found := SearchByZip(store, refs, num);
    if found.None? {
      return FAILURE;
    }
    response := Finish(found.value, p, num);
  }

  /** The scan branch: the shards of the given state, or of every state, filtered. */
  method HandleScan(store: Store, p: Params, num: real -> string) returns (response: Response)
    requires HasFilter(p) && !Truthy(p.zipcode) && !(Truthy(p.state) && !Truthy(p.pwsName) && !Truthy(p.pwsid))
    ensures response == RespondTo(store, p, num)
  {
    if store.stateIndex.None? {
      return FAILURE;
    }
    var states := if Truthy(p.state) then [p.state.value] else store.stateIndex.value;
    var found := ScanShards(store, states, p);
    if found.None? {
      return FAILURE;
    }
    response := Finish(found.value, p, num);
  }

  method Handle(store: Store, query: QueryString, num: real -> string) returns (response: Response)
    ensures response == Respond(store, query, num)
  {
    var p := ParseQueryParams(query);
    if !HasFilter(p) {
      response := Response(400, Message(NO_FILTER));
    } else if Truthy(p.zipcode) {
      response := HandleZip(store, p, num);
    } else if Truthy(p.state) && !Truthy(p.pwsName) && !Truthy(p.pwsid) {
      response := StateResponse(store, p, num);
    } else {
      response := HandleScan(store, p, num);
    }
  }

  // ---------------------------------------------------------------------------
  // properties of the handler

  /** 400 exactly when none of zipcode, pwsid, pws_name and state is given. */
  lemma BadRequestIffNoFilter(store: Store, p: Params, num: real -> string)
    ensures RespondTo(store, p, num).status == 400 <==> !HasFilter(p)
    ensures !HasFilter(p) ==> RespondTo(store, p, num).body == Message(NO_FILTER)
  {
  }

  /** A zipcode decides the search: the other filters change nothing. */
  lemma ZipcodeTakesPrecedence(store: Store, p: Params, q: Params, num: real -> string)
    requires Truthy(p.zipcode) && q.zipcode == p.zipcode && q.limit == p.limit && q.offset == p.offset
    ensures RespondTo(store, p, num) == RespondTo(store, q, num)
  {
  }

  /** A ZIP search reads neither the state codes nor the state index. */
  lemma ZipSearchReadsOnlyZipIndex(store: Store, p: Params, num: real -> string, other: Store)
    requires Truthy(p.zipcode) && other.zipIndex == store.zipIndex && other.shards == store.shards
    ensures RespondTo(store, p, num) == RespondTo(other, p, num)
  {
    if store.zipIndex.Some? {
      var index := store.zipIndex.value;
      var refs := if p.zipcode.value in index then index[p.zipcode.value] else [];
      ZipResultsReadShards(store, other, refs, num);
    }
  }

  lemma {:induction false} ZipResultsReadShards(store: Store, other: Store, refs: seq<ZipRef>, num: real -> string)
    requires other.shards == store.shards
    ensures ZipResults(store, refs, num) == ZipResults(other, refs, num)
    decreases |refs|
  {
    if |refs| > 0 {
      ZipResultsReadShards(store, other, refs[1..], num);
    }
  }

  /** The state branch runs only when neither pws_name nor pwsid is given; with either of
      them (and no zipcode) the state codes document is never read. */
  lemma ScanIgnoresStateCodes(store: Store, p: Params, num: real -> string, codes: Option<seq<(string, Scalar)>>)
    requires !Truthy(p.zipcode) && (Truthy(p.pwsName) || Truthy(p.pwsid))
    ensures RespondTo(store, p, num) == RespondTo(store.(stateCodes := codes), p, num)
  {
    if store.stateIndex.Some? {
      var states := if Truthy(p.state) then [p.state.value] else store.stateIndex.value;
      ScanStatesReadShards(store, store.(stateCodes := codes), states, p);
    }
  }

  lemma {:induction false} ScanStatesReadShards(store: Store, other: Store, states: seq<string>, p: Params)
    requires other.shards == store.shards
    ensures ScanStates(store, states, p) == ScanStates(other, states, p)
    decreases |states|
  {
    if |states| > 0 {
      ScanStatesReadShards(store, other, states[1..], p);
    }
  }

  /** A state-only search never reads the state index or the ZIP index. */
  lemma StateSearchIgnoresIndexes(store: Store, p: Params, num: real -> string, other: Store)
    requires !Truthy(p.zipcode) && Truthy(p.state) && !Truthy(p.pwsName) && !Truthy(p.pwsid)
    requires other.stateCodes == store.stateCodes && other.shards == store.shards
    ensures RespondTo(store, p, num) == RespondTo(other, p, num)
  {
  }

  /** A two-letter, non-numeric state whose shard exists is answered with that shard,
      paginated, without the summary fields. */
  lemma AbbreviationShardServedRaw(store: Store, p: Params, num: real -> string)
    requires !Truthy(p.zipcode) && Truthy(p.state) && !Truthy(p.pwsName) && !Truthy(p.pwsid)
    requires store.stateCodes.Some?
    requires IsAbbreviation(ToUpperCase(p.state.value)) && ToUpperCase(p.state.value) in store.shards
    ensures var shard := store.shards[ToUpperCase(p.state.value)];
      RespondTo(store, p, num) == Response(200, Systems(Page(shard, p.offset, p.limit), PaginationOf(p, |shard|)))
  {
  }

  /** `state=ß` is upper-cased to the two letters "SS" and so served from the `SS` shard
      when there is one. */
  lemma SharpSStateServesTwoLetterShard(store: Store, p: Params, num: real -> string)
    requires !Truthy(p.zipcode) && p.state == Some([SHARP_S]) && !Truthy(p.pwsName) && !Truthy(p.pwsid)
    requires store.stateCodes.Some? && "SS" in store.shards
    ensures RespondTo(store, p, num)
      == Response(200, Systems(Page(store.shards["SS"], p.offset, p.limit), PaginationOf(p, |store.shards["SS"]|)))
  {
    SharpSUpperCase();
    assert IsAbbreviation("SS");
    AbbreviationShardServedRaw(store, p, num);
  }

  /** Otherwise the state is looked up under the first code listing it as its abbreviation
      (or under itself), and a missing shard is a 404. */
  lemma StateCodeLookup(store: Store, p: Params, num: real -> string)
    requires !Truthy(p.zipcode) && Truthy(p.state) && !Truthy(p.pwsName) && !Truthy(p.pwsid)
    requires store.stateCodes.Some?
    requires var upper := ToUpperCase(p.state.value); !(IsAbbreviation(upper) && upper in store.shards)
    ensures var upper := ToUpperCase(p.state.value);
      var code := if IsAbbreviation(upper) then FindCode(store.stateCodes.value, upper) else upper;
      && (code !in store.shards ==> RespondTo(store, p, num) == Response(404, Message("State " + p.state.value + " not found")))
      && (code in store.shards ==> RespondTo(store, p, num) == Finish(store.shards[code], p, num))
  {
  }

  /** Every answered search returns the page `results[offset .. offset + limit)` with the
      full count as `total`. */
  lemma {:induction false} FinishPaginates(results: seq<Doc>, p: Params, num: real -> string)
    ensures var r := Finish(results, p, num);
      && r.status == 200 && r.body.EnrichedSystems?
      && r.body.pagination.total == |results|
      && (r.body.pagination.hasMore <==> HasMore(p.offset, p.limit, |results|))
      && |r.body.enriched| == |Page(results, p.offset, p.limit)|
      && forall k :: 0 <= k < |r.body.enriched| ==> r.body.enriched[k].system == Page(results, p.offset, p.limit)[k]
  {
  }

  /** The handler answers 200, 400, 404 or 500, and every 200 answer carries a list of
      water systems, raw or with their summaries. */
  lemma AnswersCarrySystems(store: Store, p: Params, num: real -> string)
    ensures var r := RespondTo(store, p, num);
      && (r.status == 200 || r.status == 400 || r.status == 404 || r.status == 500)
      && (r.status == 200 ==> r.body.Systems? || r.body.EnrichedSystems?)
  {
    if HasFilter(p) && !Truthy(p.zipcode) && Truthy(p.state) && !Truthy(p.pwsName) && !Truthy(p.pwsid) {
      var r := StateResponse(store, p, num);
      assert r.status == 200 || r.status == 404 || r.status == 500;
      assert r.status == 200 ==> r.body.Systems? || r.body.EnrichedSystems?;
    }
  }
}
