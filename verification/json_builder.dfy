/** The JSON shard builder (scripts/build-json-api.js): for each state of `pws_summary`,
    one shard listing its systems by name, each with its contaminants as queried from
    `water_quality`; a per-state count index; and a ZIP index built from the ZIP table
    joined with the summary. The database is the loader's tables, as sequences of rows. */
module JsonApiBuilder {
  import opened Js
  import opened Seqs
  import opened Readings
  import opened Extracts
  import opened Sorting
  import opened SqliteLoader

  /** A nullable column used as an object key or in a file name: NULL becomes "null". */
  function NullKey(f: Field): string {
    if f.Some? then f.value else "null"
  }

  // ---------------------------------------------------------------------------
  // SELECT contaminant, MAX(result_value) AS max_value, result_sign, units, mrl
  //   FROM water_quality WHERE pwsid = ? GROUP BY contaminant

  datatype ContaminantRow = ContaminantRow(
    contaminant: Field, maxValue: Option<real>, resultSign: Field, units: Field, mrl: Option<real>)

  /** The rows of one pwsid, in table order. */
  function RowsOf(wq: seq<WqRow>, pwsid: string): (rows: seq<WqRow>)
    ensures forall r :: r in rows <==> r in wq && r.pwsid == pwsid
  {
    if |wq| == 0 then []
    else
      var init, last := wq[..|wq| - 1], wq[|wq| - 1];
      assert wq == init + [last];
      RowsOf(init, pwsid) + (if last.pwsid == pwsid then [last] else [])
  }

  /** The contaminant groups, once each, in order of their first row. */
  function ContaminantsIn(rows: seq<WqRow>): (cs: seq<Field>)
    ensures NoDup(cs)
    ensures forall c :: c in cs <==> exists r :: r in rows && r.contaminant == c
  {
    if |rows| == 0 then []
    else
      var init, last := rows[..|rows| - 1], rows[|rows| - 1];
      assert rows == init + [last];
      var prev := ContaminantsIn(init);
      if last.contaminant in prev then prev else prev + [last.contaminant]
  }

  /** The rows of one contaminant group, in table order. */
  function GroupOf(rows: seq<WqRow>, c: Field): (g: seq<WqRow>)
    ensures forall r :: r in g <==> r in rows && r.contaminant == c
    ensures |g| > 0 <==> exists r :: r in rows && r.contaminant == c
  {
    if |rows| == 0 then []
    else
      var init, last := rows[..|rows| - 1], rows[|rows| - 1];
      assert rows == init + [last];
      GroupOf(init, c) + (if last.contaminant == c then [last] else [])
  }

  /** The accumulator of `MAX(result_value)` together with the row its bare columns come
      from. A row's columns are loaded while no non-NULL value has been seen and again
      whenever a strictly greater value arrives; a NULL or a tie after a value leaves them. */
  datatype MaxState = MaxState(best: Option<real>, bare: WqRow)

  function MaxStep(acc: MaxState, r: WqRow): MaxState {
    if r.resultValue.None? then
      if acc.best.None? then MaxState(None, r) else acc
    else if acc.best.None? || r.resultValue.value > acc.best.value then MaxState(r.resultValue, r)
    else acc
  }

  function MaxFold(rows: seq<WqRow>): MaxState
    requires |rows| > 0
  {
    if |rows| == 1 then MaxState(rows[0].resultValue, rows[0])
    else MaxStep(MaxFold(rows[..|rows| - 1]), rows[|rows| - 1])
  }

  /** Row `k` holds the bare columns and no earlier row holds the same value. */
  predicate FirstHolder(rows: seq<WqRow>, k: int, m: MaxState) {
    0 <= k < |rows| && rows[k] == m.bare && forall j :: 0 <= j < k ==> rows[j].resultValue != m.best
  }

  /** `MAX` skips NULLs and is NULL only when every value is; its bare columns are a row's. */
  lemma {:induction false} MaxFoldBounds(rows: seq<WqRow>)
    requires |rows| > 0
    ensures var m := MaxFold(rows);
      && m.bare in rows
      && (m.best.None? <==> forall r :: r in rows ==> r.resultValue.None?)
      && (m.best.None? ==> m.bare == rows[|rows| - 1])
      && (m.best.Some? ==> m.bare.resultValue == m.best)
      && (m.best.Some? ==> forall r :: r in rows && r.resultValue.Some? ==> r.resultValue.value <= m.best.value)
    decreases |rows|
  {
    if |rows| > 1 {
      var init, last := rows[..|rows| - 1], rows[|rows| - 1];
      assert rows == init + [last];
      MaxFoldBounds(init);
    }
  }

  /** A maximum's bare columns come from the first row holding it. */
  lemma {:induction false} MaxFoldFirstHolder(rows: seq<WqRow>)
    requires |rows| > 0
    ensures var m := MaxFold(rows);
      m.best.Some? ==> exists k :: FirstHolder(rows, k, m)
    decreases |rows|
  {
    if |rows| == 1 {
      assert FirstHolder(rows, 0, MaxFold(rows));
    } else {
      var init, last := rows[..|rows| - 1], rows[|rows| - 1];
      assert rows == init + [last];
      MaxFoldFirstHolder(init);
      var prev := MaxFold(init);
      if prev.best.Some? && MaxFold(rows) == prev {
        var k :| FirstHolder(init, k, prev);
        assert rows[k] == init[k];
        assert FirstHolder(rows, k, prev);
      } else if MaxFold(rows).best.Some? {
        MaxFoldBounds(init);
        assert MaxFold(rows).bare == last;
        assert forall j :: 0 <= j < |rows| - 1 ==> rows[j].resultValue != last.resultValue by {
          forall j | 0 <= j < |rows| - 1 ensures rows[j].resultValue != last.resultValue {
            assert rows[j] == init[j] && init[j] in init;
          }
        }
        assert FirstHolder(rows, |rows| - 1, MaxFold(rows));
      }
    }
  }

  /** `MAX` skips NULLs and is NULL only when every value is; the bare columns come from the
      first row holding the maximum, or from the last row when every value is NULL. */
  lemma MaxFoldIsMax(rows: seq<WqRow>)
    requires |rows| > 0
    ensures var m := MaxFold(rows);
      && m.bare in rows
      && (m.best.None? <==> forall r :: r in rows ==> r.resultValue.None?)
      && (m.best.None? ==> m.bare == rows[|rows| - 1])
      && (m.best.Some? ==> m.bare.resultValue == m.best)
      && (m.best.Some? ==> forall r :: r in rows && r.resultValue.Some? ==> r.resultValue.value <= m.best.value)
      && (m.best.Some? ==> exists k :: FirstHolder(rows, k, m))
  {
    MaxFoldBounds(rows);
    MaxFoldFirstHolder(rows);
  }

  /** The result row of one contaminant group. */
  function ContaminantRowOf(group: seq<WqRow>): ContaminantRow
    requires |group| > 0
  {
    var m := MaxFold(group);
    ContaminantRow(m.bare.contaminant, m.best, m.bare.resultSign, m.bare.units, m.bare.mrl)
  }

  /** The query's result rows for one system, one per contaminant group. */
  function ContaminantQuery(wq: seq<WqRow>, pwsid: string): (result: seq<ContaminantRow>)
    ensures |result| == |ContaminantsIn(RowsOf(wq, pwsid))|
    ensures forall i :: 0 <= i < |result| ==> result[i].contaminant == ContaminantsIn(RowsOf(wq, pwsid))[i]
  {
    var rows := RowsOf(wq, pwsid);
    var cs := ContaminantsIn(rows);
    seq(|cs|, i requires 0 <= i < |cs| => assert cs[i] in cs; GroupResult(rows, cs[i]))
  }

  /** The result row of the group of contaminant `c`. */
  function GroupResult(rows: seq<WqRow>, c: Field): (result: ContaminantRow)
    requires exists r :: r in rows && r.contaminant == c
    ensures result.contaminant == c
  {
    var g := GroupOf(rows, c);
    MaxFoldIsMax(g);
    ContaminantRowOf(g)
  }

  // ---------------------------------------------------------------------------
  // contaminant formatting (lines 63-71)

  /** `{ value, unit, detected }`: no MRL is kept in a shard. */
  datatype ShardContaminant = ShardContaminant(value: Display, unit: Field, detected: bool)

  function Format(c: ContaminantRow): (f: ShardContaminant)
    ensures f.detected <==> c.resultSign == Some("=")
    ensures f.value.LessThan? <==> c.resultSign == Some("<")
    ensures f.value.LessThan? ==> f.value.mrl == c.mrl
    ensures !f.value.LessThan? ==> f.value == Raw(c.maxValue)
    ensures f.unit == c.units
  {
    ShardContaminant(Shown(c.resultSign, c.maxValue, c.mrl), c.units, Detected(c.resultSign))
  }

  /** `contaminantData` after the loop: each row writes its key, so a later row with the
      same key overwrites an earlier one. */
  function ContaminantMap(rows: seq<ContaminantRow>): map<string, ShardContaminant> {
    if |rows| == 0 then map[]
    else ContaminantMap(rows[..|rows| - 1])[NullKey(rows[|rows| - 1].contaminant) := Format(rows[|rows| - 1])]
  }

  /** The map has a key for every row and no other, and under each key the last row with
      that key. */
  lemma {:induction false} ContaminantMapLastWins(rows: seq<ContaminantRow>, i: nat)
    requires i < |rows|
    requires forall j :: i < j < |rows| ==> NullKey(rows[j].contaminant) != NullKey(rows[i].contaminant)
    ensures NullKey(rows[i].contaminant) in ContaminantMap(rows)
    ensures ContaminantMap(rows)[NullKey(rows[i].contaminant)] == Format(rows[i])
    decreases |rows|
  {
    if i < |rows| - 1 {
      ContaminantMapLastWins(rows[..|rows| - 1], i);
    }
  }

  lemma {:induction false} ContaminantMapKeys(rows: seq<ContaminantRow>)
    ensures ContaminantMap(rows).Keys == set r | r in rows :: NullKey(r.contaminant)
    decreases |rows|
  {
    if |rows| > 0 {
      var init := rows[..|rows| - 1];
      assert rows == init + [rows[|rows| - 1]];
      ContaminantMapKeys(init);
    }
  }

  /** Rows with distinct keys, as `GROUP BY contaminant` returns them, give one entry each. */
  lemma {:induction false} ContaminantMapSize(rows: seq<ContaminantRow>)
    requires forall i, j :: 0 <= i < j < |rows| ==> NullKey(rows[i].contaminant) != NullKey(rows[j].contaminant)
    ensures |ContaminantMap(rows)| == |rows|
    decreases |rows|
  {
    if |rows| > 0 {
      var init, last := rows[..|rows| - 1], rows[|rows| - 1];
      ContaminantMapSize(init);
      ContaminantMapKeys(init);
      assert NullKey(last.contaminant) !in ContaminantMap(init);
    }
  }

  /** The formatting loop. */
  method FormatContaminants(rows: seq<ContaminantRow>) returns (contaminantData: map<string, ShardContaminant>)
    ensures contaminantData == ContaminantMap(rows)
  {
    contaminantData := map[];
    for i := 0 to |rows|
      invariant contaminantData == ContaminantMap(rows[..i])
    {
      assert rows[..i + 1][..i] == rows[..i];
      contaminantData := contaminantData[NullKey(rows[i].contaminant) := Format(rows[i])];
    }
    assert rows[..|rows|] == rows;
  }

  /** A contaminant group whose non-NULL results are all exact readings, and which has one,
      is shown as detected with its maximum result. */
  lemma ExactReadingWins(group: seq<WqRow>)
    requires exists r :: r in group && r.resultValue.Some?
    requires forall r :: r in group && r.resultValue.Some? ==> r.resultSign == Some("=")
    ensures var f := Format(ContaminantRowOf(group));
      && f.detected
      && f.value.Raw? && f.value.v.Some?
      && (forall r :: r in group && r.resultValue.Some? ==> r.resultValue.value <= f.value.v.value)
      && (exists r :: r in group && r.resultValue == f.value.v)
  {
    MaxFoldIsMax(group);
  }

  /** A group whose rows are all below the reporting limit is not detected and shows
      `<mrl` with the MRL of the row its bare columns come from. */
  lemma BelowLimitGroup(group: seq<WqRow>)
    requires |group| > 0
    requires forall r :: r in group ==> r.resultSign == Some("<")
    ensures var f := Format(ContaminantRowOf(group));
      && !f.detected
      && f.value.LessThan?
      && exists r :: r in group && f.value.mrl == r.mrl
  {
    MaxFoldIsMax(group);
  }

  // ---------------------------------------------------------------------------
  // the shards and the state index (lines 25-93)

  /** A shard entry: `{...system, zip_codes, contaminants}` over the selected columns. */
  datatype ShardSystem = ShardSystem(
    pwsid: string, pwsName: Field, state: Field, zipCodes: set<Field>,
    contaminantsDetected: nat, lastTestDate: Field, contaminants: map<string, ShardContaminant>)

  /** `zip_codes` is parsed back into a list; it is never NULL after the summary's COALESCE,
      so `|| '[]'` does not apply. */
  function ShardEntry(s: SummaryRow, contaminants: map<string, ShardContaminant>): ShardSystem {
    ShardSystem(s.pwsid, s.pwsName, s.state, s.zipCodes, s.contaminantsDetected, s.lastTestDate, contaminants)
  }

  /** `WHERE s.state = ?`: NULL equals nothing, so a NULL state selects no row. */
  function InState(summary: seq<SummaryRow>, st: Field): (rows: seq<SummaryRow>)
    ensures forall s :: s in rows <==> s in summary && st.Some? && s.state == st
  {
    if |summary| == 0 then []
    else
      var init, last := summary[..|summary| - 1], summary[|summary| - 1];
      assert summary == init + [last];
      InState(init, st) + (if st.Some? && last.state == st then [last] else [])
  }

  function PwsName(s: SummaryRow): Field {
    s.pwsName
  }

  /** `... WHERE s.state = ? ORDER BY s.pws_name`. */
  function SystemsOfState(summary: seq<SummaryRow>, st: Field): seq<SummaryRow> {
    SortBy(InState(summary, st), PwsName)
  }

  /** The systems of a shard are exactly the summary rows of that state, ordered by name. */
  lemma SystemsOfStateMembers(summary: seq<SummaryRow>, st: Field)
    ensures var systems := SystemsOfState(summary, st);
      && (forall s :: s in systems <==> s in summary && st.Some? && s.state == st)
      && (forall i, j :: 0 <= i < j < |systems| ==> NullsFirstLe(systems[i].pwsName, systems[j].pwsName))
      && |systems| == |InState(summary, st)|
  {
    var rows := InState(summary, st);
    var systems := SystemsOfState(summary, st);
    forall s ensures s in systems <==> s in rows {
      assert s in systems <==> s in multiset(systems);
      assert s in rows <==> s in multiset(rows);
    }
  }

  /** A shard: each system in order, with the formatted result of its contaminant query. */
  function ShardFor(systems: seq<SummaryRow>, wq: seq<WqRow>): (shard: seq<ShardSystem>)
    ensures |shard| == |systems|
  {
    if |systems| == 0 then []
    else
      ShardFor(systems[..|systems| - 1], wq) + [EntryFor(wq, systems[|systems| - 1])]
  }

  /** The shard entry of summary row `s`: its columns with its formatted contaminant query. */
  function EntryFor(wq: seq<WqRow>, s: SummaryRow): ShardSystem {
    ShardEntry(s, ContaminantMap(ContaminantQuery(wq, s.pwsid)))
  }

  predicate EntryOf(wq: seq<WqRow>, s: SummaryRow, e: ShardSystem) {
    e == EntryFor(wq, s)
  }

  /** Shard entries keep every selected summary column of their system, in the shard's order. */
  lemma {:induction false} ShardForEntries(systems: seq<SummaryRow>, wq: seq<WqRow>, i: nat)
    requires i < |systems|
    ensures EntryOf(wq, systems[i], ShardFor(systems, wq)[i])
    decreases |systems|
  {
    var n := |systems|;
    var init := systems[..n - 1];
    var shard := ShardFor(systems, wq);
    assert shard == ShardFor(init, wq) + [EntryFor(wq, systems[n - 1])];
    if i < n - 1 {
      ShardForEntries(init, wq, i);
      assert init[i] == systems[i];
      assert shard[i] == ShardFor(init, wq)[i];
    } else {
      assert shard[i] == EntryFor(wq, systems[n - 1]);
    }
  }

  /** The systems loop of one state (lines 49-78). */
  method BuildShard(systems: seq<SummaryRow>, wq: seq<WqRow>) returns (stateData: seq<ShardSystem>)
    ensures stateData == ShardFor(systems, wq)
  {
    stateData := [];
    for i := 0 to |systems|
      invariant stateData == ShardFor(systems[..i], wq)
    {
      var contaminants := ContaminantQuery(wq, systems[i].pwsid);
      var contaminantData := FormatContaminants(contaminants);
      assert systems[..i + 1][..i] == systems[..i];
      stateData := stateData + [ShardEntry(systems[i], contaminantData)];
      assert stateData == ShardFor(systems[..i], wq) + [EntryFor(wq, systems[i])];
    }
    assert systems[..|systems|] == systems;
  }

  function StatesIn(summary: seq<SummaryRow>): (states: seq<Field>)
    ensures NoDup(states)
    ensures forall st :: st in states <==> exists s :: s in summary && s.state == st
  {
    if |summary| == 0 then []
    else
      var init, last := summary[..|summary| - 1], summary[|summary| - 1];
      assert summary == init + [last];
      var prev := StatesIn(init);
      if last.state in prev then prev else prev + [last.state]
  }

  function Identity(f: Field): Field {
    f
  }

  /** `SELECT DISTINCT state FROM pws_summary ORDER BY state`. */
  function States(summary: seq<SummaryRow>): (states: seq<Field>)
    ensures forall st :: st in states <==> exists s :: s in summary && s.state == st
    ensures forall i, j :: 0 <= i < j < |states| ==> NullsFirstLe(states[i], states[j])
  {
    var distinct := StatesIn(summary);
    var states := SortBy(distinct, Identity);
    assert forall st :: st in states <==> st in distinct by {
      forall st ensures st in states <==> st in distinct {
        assert st in states <==> st in multiset(states);
        assert st in distinct <==> st in multiset(distinct);
      }
    }
    states
  }

  /** The shards written by the state loop over `states`, in order: a later state with the
      same key overwrites an earlier one. */
  function ShardFold(summary: seq<SummaryRow>, wq: seq<WqRow>, states: seq<Field>): map<string, seq<ShardSystem>> {
    if |states| == 0 then map[]
    else
      var st := states[|states| - 1];
      ShardFold(summary, wq, states[..|states| - 1])[NullKey(st) := ShardFor(SystemsOfState(summary, st), wq)]
  }

  lemma ShardFoldSnoc(summary: seq<SummaryRow>, wq: seq<WqRow>, states: seq<Field>, n: nat)
    requires n < |states|
    ensures ShardFold(summary, wq, states[..n + 1])
      == ShardFold(summary, wq, states[..n])[NullKey(states[n]) := ShardFor(SystemsOfState(summary, states[n]), wq)]
  {
    assert states[..n + 1][..n] == states[..n];
  }

  /** One file per state key. */
  lemma {:induction false} ShardFoldKeys(summary: seq<SummaryRow>, wq: seq<WqRow>, states: seq<Field>)
    ensures ShardFold(summary, wq, states).Keys == set s | s in states :: NullKey(s)
    decreases |states|
  {
    if |states| > 0 {
      var init := states[..|states| - 1];
      assert states == init + [states[|states| - 1]];
      ShardFoldKeys(summary, wq, init);
    }
  }

  /** A named state other than "null" has a key of its own, so its shard is the one
      written for it. */
  lemma {:induction false} ShardFoldLookup(summary: seq<SummaryRow>, wq: seq<WqRow>, states: seq<Field>, st: Field)
    requires st in states && st != None && st != Some("null")
    ensures st.value in ShardFold(summary, wq, states)
    ensures ShardFold(summary, wq, states)[st.value] == ShardFor(SystemsOfState(summary, st), wq)
    decreases |states|
  {
    var init, last := states[..|states| - 1], states[|states| - 1];
    if last != st {
      assert states == init + [last];
      ShardFoldLookup(summary, wq, init, st);
    }
  }

  /** The state loop (lines 31-87): each state's shard is written under its name and its
      count recorded. A state named "null" and a NULL state share a key; then the later one,
      the named one, overwrites the other. */
  /** One turn of the states loop: the state's systems query, its shard, and its count. */
  method StateShard(summary: seq<SummaryRow>, wq: seq<WqRow>, state: Field)
    returns (stateData: seq<ShardSystem>, count: nat)
    ensures stateData == ShardFor(SystemsOfState(summary, state), wq)
    ensures count == |stateData|
  {
    var systems := SystemsOfState(summary, state);
    stateData := BuildShard(systems, wq);
    count := |systems|;
  }

  method BuildShards(summary: seq<SummaryRow>, wq: seq<WqRow>)
    returns (shards: map<string, seq<ShardSystem>>, stateIndex: map<string, nat>)
    ensures shards == ShardFold(summary, wq, States(summary))
    ensures stateIndex.Keys == shards.Keys
    ensures forall k :: k in stateIndex ==> stateIndex[k] == |shards[k]|
  {
    var states := States(summary);
    shards, stateIndex := map[], map[];
    for n := 0 to |states|
      invariant shards == ShardFold(summary, wq, states[..n])
      invariant stateIndex.Keys == shards.Keys
      invariant forall k :: k in stateIndex ==> stateIndex[k] == |shards[k]|
    {
      var stateData, count := StateShard(summary, wq, states[n]);
      ShardFoldSnoc(summary, wq, states, n);
      shards := shards[NullKey(states[n]) := stateData];
      stateIndex := stateIndex[NullKey(states[n]) := count];
    }
    assert states[..|states|] == states;
  }

  /** A named state's shard has one entry per summary row of that state, ordered by name;
      so `stateIndex[state]`, its length, is the number of systems of that state. */
  lemma ShardOfStateCount(summary: seq<SummaryRow>, wq: seq<WqRow>, st: string)
    requires Some(st) in States(summary) && st != "null"
    ensures var shards := ShardFold(summary, wq, States(summary));
      && st in shards
      && |shards[st]| == |InState(summary, Some(st))|
      && forall i, j :: 0 <= i < j < |shards[st]| ==> NullsFirstLe(shards[st][i].pwsName, shards[st][j].pwsName)
  {
    var systems := SystemsOfState(summary, Some(st));
    ShardFoldLookup(summary, wq, States(summary), Some(st));
    SystemsOfStateMembers(summary, Some(st));
    forall i | 0 <= i < |systems| {
      ShardForEntries(systems, wq, i);
    }
  }

  /** Every entry of a named state's shard is the entry of a summary row of that state. */
  lemma ShardEntriesFromSummary(summary: seq<SummaryRow>, wq: seq<WqRow>, st: string)
    requires Some(st) in States(summary) && st != "null"
    ensures var shards := ShardFold(summary, wq, States(summary));
      st in shards && forall e :: e in shards[st] ==> exists s :: s in summary && s.state == Some(st) && EntryOf(wq, s, e)
  {
    var systems := SystemsOfState(summary, Some(st));
    ShardFoldLookup(summary, wq, States(summary), Some(st));
    SystemsOfStateMembers(summary, Some(st));
    var shard := ShardFor(systems, wq);
    forall e | e in shard
      ensures exists s :: s in summary && s.state == Some(st) && EntryOf(wq, s, e)
    {
      var i :| 0 <= i < |shard| && shard[i] == e;
      ShardForEntries(systems, wq, i);
      assert systems[i] in systems;
    }
  }

  /** Every summary row of a named state has its entry in that state's shard. */
  lemma SummaryRowsInShard(summary: seq<SummaryRow>, wq: seq<WqRow>, s: SummaryRow)
    requires s in summary && s.state.Some? && s.state.value != "null"
    ensures var shards := ShardFold(summary, wq, States(summary));
      s.state.value in shards && EntryFor(wq, s) in shards[s.state.value]
  {
    var st := s.state;
    var states := States(summary);
    assert st in states;
    var systems := SystemsOfState(summary, st);
    ShardFoldLookup(summary, wq, states, st);
    SystemsOfStateMembers(summary, st);
    ShardForHas(systems, wq, s);
  }

  lemma ShardForHas(systems: seq<SummaryRow>, wq: seq<WqRow>, s: SummaryRow)
    requires s in systems
    ensures EntryFor(wq, s) in ShardFor(systems, wq)
  {
    var i :| 0 <= i < |systems| && systems[i] == s;
    ShardForEntries(systems, wq, i);
  }

  // ---------------------------------------------------------------------------
  // the ZIP index (lines 95-115)

  /** A row of `SELECT z.zipcode, z.pwsid, s.state FROM pws_zipcodes z JOIN pws_summary s ON ...`. */
  datatype JoinedRow = JoinedRow(zipcode: Field, pwsid: string, state: Field)

  /** The summary rows matching one ZIP row. */
  function Matches(z: ZipLine, summary: seq<SummaryRow>): (rows: seq<JoinedRow>)
    ensures forall j :: j in rows <==> exists s :: s in summary && s.pwsid == z.pwsid && j == JoinedRow(z.zipcode, z.pwsid, s.state)
  {
    if |summary| == 0 then []
    else
      var init, last := summary[..|summary| - 1], summary[|summary| - 1];
      assert summary == init + [last];
      Matches(z, init) + (if last.pwsid == z.pwsid then [JoinedRow(z.zipcode, z.pwsid, last.state)] else [])
  }

  /** `j` is the joined row of ZIP row `z` and summary row `s`. */
  predicate JoinOf(zips: seq<ZipLine>, summary: seq<SummaryRow>, z: ZipLine, s: SummaryRow, j: JoinedRow) {
    z in zips && s in summary && s.pwsid == z.pwsid && j == JoinedRow(z.zipcode, z.pwsid, s.state)
  }

  /** The inner join: a ZIP row whose pwsid has no summary row yields nothing. */
  function Join(zips: seq<ZipLine>, summary: seq<SummaryRow>): (rows: seq<JoinedRow>)
    ensures forall j :: j in rows <==> exists z, s :: JoinOf(zips, summary, z, s, j)
  {
    if |zips| == 0 then []
    else
      var init, last := zips[..|zips| - 1], zips[|zips| - 1];
      assert zips == init + [last];
      var prev, ms := Join(init, summary), Matches(last, summary);
      assert forall j :: j in prev + ms <==> exists z, s :: JoinOf(zips, summary, z, s, j) by {
        forall j ensures j in prev + ms <==> exists z, s :: JoinOf(zips, summary, z, s, j) {
          if j in ms {
            var s :| s in summary && s.pwsid == last.pwsid && j == JoinedRow(last.zipcode, last.pwsid, s.state);
            assert JoinOf(zips, summary, last, s, j);
          }
          if j in prev {
            var z, s :| JoinOf(init, summary, z, s, j);
            assert JoinOf(zips, summary, z, s, j);
          }
          if exists z, s :: JoinOf(zips, summary, z, s, j) {
            var z, s :| JoinOf(zips, summary, z, s, j);
            if z == last {
              assert j in ms;
            } else {
              assert JoinOf(init, summary, z, s, j);
            }
          }
        }
      }
      prev + ms
  }

  function Zipcode(j: JoinedRow): Field {
    j.zipcode
  }

  /** `... ORDER BY z.zipcode`. */
  function ZipData(zips: seq<ZipLine>, summary: seq<SummaryRow>): (rows: seq<JoinedRow>)
    ensures forall j :: j in rows <==> j in Join(zips, summary)
    ensures forall i, k :: 0 <= i < k < |rows| ==> NullsFirstLe(rows[i].zipcode, rows[k].zipcode)
  {
    var joined := Join(zips, summary);
    var rows := SortBy(joined, Zipcode);
    assert forall j :: j in rows <==> j in joined by {
      forall j ensures j in rows <==> j in joined {
        assert j in rows <==> j in multiset(rows);
        assert j in joined <==> j in multiset(joined);
      }
    }
    rows
  }

  datatype ZipEntry = ZipEntry(pwsid: string, state: Field)

  function ZipGroups(rows: seq<JoinedRow>): map<string, seq<ZipEntry>> {
    if |rows| == 0 then map[]
    else
      var prev := ZipGroups(rows[..|rows| - 1]);
      var j := rows[|rows| - 1];
      var key := NullKey(j.zipcode);
      prev[key := (if key in prev then prev[key] else []) + [ZipEntry(j.pwsid, j.state)]]
  }

  /** The grouping loop. */
  method GroupByZip(zipData: seq<JoinedRow>) returns (zipIndex: map<string, seq<ZipEntry>>)
    ensures zipIndex == ZipGroups(zipData)
  {
    zipIndex := map[];
    for i := 0 to |zipData|
      invariant zipIndex == ZipGroups(zipData[..i])
    {
      assert zipData[..i + 1][..i] == zipData[..i];
      var row := zipData[i];
      var key := NullKey(row.zipcode);
      if key !in zipIndex {
        zipIndex := zipIndex[key := []];
      }
      zipIndex := zipIndex[key := zipIndex[key] + [ZipEntry(row.pwsid, row.state)]];
    }
    assert zipData[..|zipData|] == zipData;
  }

  /** The entries of the joined rows with one ZIP key, in row order. */
  function EntriesFor(rows: seq<JoinedRow>, key: string): (entries: seq<ZipEntry>)
    ensures |entries| > 0 <==> exists j :: j in rows && NullKey(j.zipcode) == key
  {
    if |rows| == 0 then []
    else
      var init, j := rows[..|rows| - 1], rows[|rows| - 1];
      assert rows == init + [j];
      EntriesFor(init, key) + (if NullKey(j.zipcode) == key then [ZipEntry(j.pwsid, j.state)] else [])
  }

  /** Every joined row is appended to its ZIP's list, in row order, and no list holds
      anything else: the lists hold exactly the joined rows. */
  lemma {:induction false} ZipGroupsLists(rows: seq<JoinedRow>, key: string)
    ensures key in ZipGroups(rows) <==> exists j :: j in rows && NullKey(j.zipcode) == key
    ensures key in ZipGroups(rows) ==> ZipGroups(rows)[key] == EntriesFor(rows, key)
    decreases |rows|
  {
    if |rows| > 0 {
      var init := rows[..|rows| - 1];
      assert rows == init + [rows[|rows| - 1]];
      ZipGroupsLists(init, key);
    }
  }

  /** Orphans are dropped: every entry of the ZIP index names a pwsid with a summary row,
      carrying that row's state, and a ZIP row whose pwsid has a summary row is listed. */
  lemma ZipIndexHasNoOrphans(zips: seq<ZipLine>, summary: seq<SummaryRow>, key: string)
    ensures var zipIndex := ZipGroups(ZipData(zips, summary));
      key in zipIndex ==> forall e :: e in zipIndex[key] ==>
        exists z: ZipLine, s: SummaryRow :: JoinOf(zips, summary, z, s, JoinedRow(z.zipcode, e.pwsid, e.state)) && NullKey(z.zipcode) == key
    ensures forall z, s :: z in zips && s in summary && s.pwsid == z.pwsid ==>
      var zipIndex := ZipGroups(ZipData(zips, summary));
      NullKey(z.zipcode) in zipIndex && ZipEntry(z.pwsid, s.state) in zipIndex[NullKey(z.zipcode)]
  {
    var rows := ZipData(zips, summary);
    ZipGroupsLists(rows, key);
    if key in ZipGroups(rows) {
      forall e | e in ZipGroups(rows)[key]
        ensures exists z: ZipLine, s: SummaryRow :: JoinOf(zips, summary, z, s, JoinedRow(z.zipcode, e.pwsid, e.state)) && NullKey(z.zipcode) == key
      {
        EntriesForFrom(rows, key, e);
      }
    }
    forall z, s | z in zips && s in summary && s.pwsid == z.pwsid
      ensures NullKey(z.zipcode) in ZipGroups(rows)
        && ZipEntry(z.pwsid, s.state) in ZipGroups(rows)[NullKey(z.zipcode)]
    {
      var j := JoinedRow(z.zipcode, z.pwsid, s.state);
      assert JoinOf(zips, summary, z, s, j);
      assert j in rows;
      ZipGroupsLists(rows, NullKey(z.zipcode));
      EntriesForHas(rows, j);
    }
  }

  lemma {:induction false} EntriesForFrom(rows: seq<JoinedRow>, key: string, e: ZipEntry)
    requires e in EntriesFor(rows, key)
    ensures exists j :: j in rows && NullKey(j.zipcode) == key && e == ZipEntry(j.pwsid, j.state)
    decreases |rows|
  {
    var init, j := rows[..|rows| - 1], rows[|rows| - 1];
    assert rows == init + [j];
    if e in EntriesFor(init, key) {
      EntriesForFrom(init, key, e);
    }
  }

  lemma {:induction false} EntriesForHas(rows: seq<JoinedRow>, j: JoinedRow)
    requires j in rows
    ensures ZipEntry(j.pwsid, j.state) in EntriesFor(rows, NullKey(j.zipcode))
    decreases |rows|
  {
    var init, last := rows[..|rows| - 1], rows[|rows| - 1];
    assert rows == init + [last];
    if j != last {
      EntriesForHas(init, j);
    }
  }

  /** The whole script over the loader's tables. */
  method BuildJsonApi(summary: seq<SummaryRow>, wq: seq<WqRow>, zips: seq<ZipLine>)
    returns (shards: map<string, seq<ShardSystem>>, stateIndex: map<string, nat>, zipIndex: map<string, seq<ZipEntry>>)
    ensures shards == ShardFold(summary, wq, States(summary))
    ensures stateIndex.Keys == shards.Keys
    ensures forall k :: k in stateIndex ==> stateIndex[k] == |shards[k]|
    ensures zipIndex == ZipGroups(ZipData(zips, summary))
  {
    shards, stateIndex := BuildShards(summary, wq);
    zipIndex := GroupByZip(ZipData(zips, summary));
  }
}
