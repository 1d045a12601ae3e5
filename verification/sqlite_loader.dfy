/** The relational loader (scripts/convert-to-sqlite.js): the samples file is mapped row by
    row into `water_quality` in batches of 1000, the ZIP file into the set-like
    `pws_zipcodes`, the additional-data file into `additional_data`, and `pws_summary`
    is the grouped aggregate of `water_quality`. Tables are sequences of rows; the SQL
    statements are modelled by what they mean, not by an engine. */
module SqliteLoader {
  import opened Js
  import opened Seqs
  import opened Extracts

  /** The 18 values bound to the `water_quality` INSERT, in column order. SQL NULL and an
      unbound `undefined` are both `None`. */
  datatype WqRow = WqRow(
    pwsid: string, pwsName: Field, state: Field, region: Option<nat>, contaminant: Field,
    resultValue: Option<real>, resultSign: Field, mrl: Option<real>, units: Field,
    collectionDate: Field, sampleId: Field, facilityId: Field, facilityName: Field,
    samplePointId: Field, samplePointName: Field, size: Field,
    monitoringRequirement: Field, methodId: Field)

  /** The row mapping of one data line: state is column 2 here, and the three numbers
      become NULL when they do not parse or parse to zero (`|| null`). */
  function RowOf(line: string): WqRow {
    var values := Split(line, TAB);
    WqRow(values[0], At(values, 1), At(values, 2), NatOrNull(ParseInt(At(values, 3))), At(values, 4),
      RealOrNull(ParseFloat(At(values, 7))), At(values, 8), RealOrNull(ParseFloat(At(values, 9))),
      At(values, 10), At(values, 11), At(values, 13), At(values, 14), At(values, 15),
      At(values, 16), At(values, 17), At(values, 21), At(values, 22), At(values, 23))
  }

  /** Columns 0, 1, 2, 3, 4, 7, 8, 9, 10, 11, 13, 14, 15, 16, 17, 21, 22 and 23, in that
      order; region, result and MRL are NULL exactly when their text is not a number or
      is zero. */
  lemma RowColumns(columns: seq<string>)
    requires WellFormed(columns) && |columns| >= 24
    ensures var r := RowOf(Line(columns));
      && r.pwsid == columns[0] && r.pwsName == Some(columns[1]) && r.state == Some(columns[2])
      && r.contaminant == Some(columns[4]) && r.resultSign == Some(columns[8])
      && r.units == Some(columns[10]) && r.collectionDate == Some(columns[11])
      && r.sampleId == Some(columns[13]) && r.facilityId == Some(columns[14])
      && r.facilityName == Some(columns[15]) && r.samplePointId == Some(columns[16])
      && r.samplePointName == Some(columns[17]) && r.size == Some(columns[21])
      && r.monitoringRequirement == Some(columns[22]) && r.methodId == Some(columns[23])
      && (r.region.None? <==> ParseInt(Some(columns[3])) in {None, Some(0)})
      && (r.region.Some? ==> r.region == ParseInt(Some(columns[3])))
      && (r.resultValue.None? <==> ParseFloat(Some(columns[7])) in {None, Some(0.0)})
      && (r.resultValue.Some? ==> r.resultValue == ParseFloat(Some(columns[7])))
      && (r.mrl.None? <==> ParseFloat(Some(columns[9])) in {None, Some(0.0)})
      && (r.mrl.Some? ==> r.mrl == ParseFloat(Some(columns[9])))
  {
    SplitJoin(columns, TAB);
  }

  /** The rows of the data lines; line 0 holds the headers and is never inserted. */
  function Rows(lines: seq<string>): (rows: seq<WqRow>)
    ensures |rows| == |DataLines(lines)|
  {
    var data := DataLines(lines);
    seq(|data|, k requires 0 <= k < |data| => RowOf(data[k]))
  }

  lemma RowsSnoc(lines: seq<string>, i: nat)
    requires 1 <= i < |lines|
    ensures Rows(lines[..i + 1]) == Rows(lines[..i]) + [RowOf(lines[i])]
  {
  }

  const BATCH_SIZE: nat := 1000

  /** One mapped row joins the pending batch, which is inserted once it holds 1000 rows
      (lines 149-155). */
  method AddRow(batches: seq<seq<WqRow>>, batch: seq<WqRow>, row: WqRow)
    returns (batches': seq<seq<WqRow>>, batch': seq<WqRow>)
    requires |batch| < BATCH_SIZE
    requires forall i :: 0 <= i < |batches| ==> |batches[i]| == BATCH_SIZE
    ensures Flatten(batches') + batch' == Flatten(batches) + batch + [row]
    ensures |batch'| < BATCH_SIZE
    ensures forall i :: 0 <= i < |batches'| ==> |batches'[i]| == BATCH_SIZE
  {
    batches', batch' := batches, batch + [row];
    if |batch'| >= BATCH_SIZE {
      FlattenSnoc(batches', batch');
      batches' := batches' + [batch'];
      batch' := [];
      assert Flatten(batches') + batch' == Flatten(batches');
    }
  }

  /** The samples callback driven line by line with line numbers 0, 1, 2, ... (lines
      8-19 and 120-164). `batches` lists the arguments of the successive `insertMany`
      calls: together they insert every mapped row once and in file order, none holds
      more than 1000 rows, all but the last hold exactly 1000, and the last partial
      batch is flushed. */
  method LoadSamples(lines: seq<string>)
    returns (headers: Option<seq<string>>, batches: seq<seq<WqRow>>, rowCount: nat)
    ensures headers == if |lines| == 0 then None else Some(Split(lines[0], TAB))
    ensures Flatten(batches) == Rows(lines)
    ensures rowCount == |DataLines(lines)|
    ensures forall i :: 0 <= i < |batches| ==> 0 < |batches[i]| <= BATCH_SIZE
    ensures forall i :: 0 <= i < |batches| - 1 ==> |batches[i]| == BATCH_SIZE
  {
    headers, batches, rowCount := None, [], 0;
    var batch: seq<WqRow> := [];
    var lineNumber := 0;
    while lineNumber < |lines|
      invariant 0 <= lineNumber <= |lines|
      invariant headers == if lineNumber == 0 then None else Some(Split(lines[0], TAB))
      invariant Flatten(batches) + batch == Rows(lines[..lineNumber])
      invariant rowCount == |Rows(lines[..lineNumber])|
      invariant |batch| < BATCH_SIZE
      invariant forall i :: 0 <= i < |batches| ==> |batches[i]| == BATCH_SIZE
    {
      if lineNumber == 0 {
        headers := Some(Split(lines[0], TAB));
        lineNumber := lineNumber + 1;
        continue;
      }
      RowsSnoc(lines, lineNumber);
      batches, batch := AddRow(batches, batch, RowOf(lines[lineNumber]));
      rowCount := rowCount + 1;
      lineNumber := lineNumber + 1;
    }
    assert lines[..|lines|] == lines;
    if |batch| > 0 {
      FlattenSnoc(batches, batch);
      batches := batches + [batch];
    } else {
      assert Flatten(batches) + batch == Flatten(batches);
    }
  }

  /** The ZIP callback (lines 170-176) with `INSERT OR IGNORE` into a table whose primary
      key is the whole (pwsid, zipcode) pair: the table holds each pair of the file once,
      and `rowCount` counts every data line, repeats included. */
  method LoadZipCodes(lines: seq<string>) returns (table: seq<ZipLine>, rowCount: nat)
    ensures NoDup(table)
    ensures forall z :: z in table <==> z in ZipLines(lines)
    ensures rowCount == |DataLines(lines)|
  {
    table, rowCount := [], 0;
    var lineNumber := 0;
    while lineNumber < |lines|
      invariant 0 <= lineNumber <= |lines|
      invariant NoDup(table)
      invariant forall z :: z in table <==> z in ZipLines(lines[..lineNumber])
      invariant rowCount == |ZipLines(lines[..lineNumber])|
    {
      if lineNumber == 0 {
        lineNumber := lineNumber + 1;
        continue;
      }
      var z := ZipLineOf(lines[lineNumber]);
      ZipLinesSnoc(lines, lineNumber);
      if z !in table {
        table := table + [z];
      }
      rowCount := rowCount + 1;
      lineNumber := lineNumber + 1;
    }
    assert lines[..|lines|] == lines;
  }

  /** The seven values bound to the `additional_data` INSERT. */
  datatype AdditionalRow = AdditionalRow(
    pwsid: string, facilityId: Field, samplePointId: Field, sampleEventCode: Field,
    dataElement: Field, response: Field, otherText: Field)

  function AdditionalRowOf(line: string): AdditionalRow {
    var values := Split(line, TAB);
    AdditionalRow(values[0], At(values, 1), At(values, 2), At(values, 3), At(values, 4), At(values, 5), At(values, 6))
  }

  /** Columns 0 to 6 in order; any further column is dropped. */
  lemma AdditionalRowColumns(columns: seq<string>)
    requires WellFormed(columns) && |columns| >= 7
    ensures AdditionalRowOf(Line(columns)) == AdditionalRow(columns[0], Some(columns[1]), Some(columns[2]),
      Some(columns[3]), Some(columns[4]), Some(columns[5]), Some(columns[6]))
  {
    SplitJoin(columns, TAB);
  }

  /** The additional-data callback (lines 183-197): one appended row per data line, in
      file order, repeats kept. */
  method LoadAdditionalData(lines: seq<string>) returns (table: seq<AdditionalRow>, rowCount: nat)
    ensures |table| == rowCount == |DataLines(lines)|
    ensures forall k :: 0 <= k < |table| ==> table[k] == AdditionalRowOf(lines[k + 1])
  {
    table, rowCount := [], 0;
    var lineNumber := 0;
    while lineNumber < |lines|
      invariant 0 <= lineNumber <= |lines|
      invariant |table| == rowCount == (if lineNumber == 0 then 0 else lineNumber - 1)
      invariant forall k :: 0 <= k < |table| ==> table[k] == AdditionalRowOf(lines[k + 1])
    {
      if lineNumber == 0 {
        lineNumber := lineNumber + 1;
        continue;
      }
      table := table + [AdditionalRowOf(lines[lineNumber])];
      rowCount := rowCount + 1;
      lineNumber := lineNumber + 1;
    }
  }

  // ---------------------------------------------------------------------------
  // pws_summary: INSERT INTO pws_summary SELECT ... GROUP BY pwsid, pws_name, state, region, size

  /** The GROUP BY key; NULLs group together, as `None == None`. */
  datatype GroupKey = GroupKey(pwsid: string, pwsName: Field, state: Field, region: Option<nat>, size: Field)

  function KeyOf(r: WqRow): GroupKey {
    GroupKey(r.pwsid, r.pwsName, r.state, r.region, r.size)
  }

  /** The groups, once each, in order of their first row. */
  function GroupKeys(wq: seq<WqRow>): (keys: seq<GroupKey>)
    ensures NoDup(keys)
    ensures forall k :: k in keys <==> exists r :: r in wq && KeyOf(r) == k
  {
    if |wq| == 0 then []
    else
      var init, last := wq[..|wq| - 1], wq[|wq| - 1];
      assert wq == init + [last];
      var prev := GroupKeys(init);
      if KeyOf(last) in prev then prev else prev + [KeyOf(last)]
  }

  /** The rows of one group, in table order. */
  function GroupRows(wq: seq<WqRow>, k: GroupKey): (rows: seq<WqRow>)
    ensures forall r :: r in rows <==> r in wq && KeyOf(r) == k
  {
    if |wq| == 0 then []
    else
      var init, last := wq[..|wq| - 1], wq[|wq| - 1];
      assert wq == init + [last];
      GroupRows(init, k) + (if KeyOf(last) == k then [last] else [])
  }

  /** `COUNT(DISTINCT CASE WHEN result_sign = '=' AND result_value IS NOT NULL THEN contaminant END)`
      counts this set: NULL contaminants are not counted. */
  function DetectedContaminants(rows: seq<WqRow>): set<string> {
    set r | r in rows && r.resultSign == Some("=") && r.resultValue.Some? && r.contaminant.Some? :: r.contaminant.value
  }

  function Contaminants(rows: seq<WqRow>): set<string> {
    set r | r in rows && r.contaminant.Some? :: r.contaminant.value
  }

  /** `COUNT(DISTINCT sample_id)` counts this set. */
  function SampleIds(rows: seq<WqRow>): set<string> {
    set r | r in rows && r.sampleId.Some? :: r.sampleId.value
  }

  function Dates(rows: seq<WqRow>): (dates: seq<Field>)
    ensures |dates| == |rows|
    ensures forall i :: 0 <= i < |rows| ==> dates[i] == rows[i].collectionDate
  {
    seq(|rows|, i requires 0 <= i < |rows| => rows[i].collectionDate)
  }

  /** SQL `MAX` over text: NULLs are skipped, and it is NULL when every value is. */
  function MaxText(xs: seq<Field>): (m: Field)
    ensures m.None? <==> forall i :: 0 <= i < |xs| ==> xs[i].None?
    ensures m.Some? ==> m in xs && forall i :: 0 <= i < |xs| && xs[i].Some? ==> !Less(m.value, xs[i].value)
  {
    if |xs| == 0 then None
    else
      var init, x := xs[..|xs| - 1], xs[|xs| - 1];
      assert xs == init + [x];
      var m := MaxText(init);
      if x.None? then m
      else if m.None? || Less(m.value, x.value) then
        assert forall i :: 0 <= i < |xs| && xs[i].Some? ==> !Less(x.value, xs[i].value) by {
          LessIrreflexive(x.value);
          forall i | 0 <= i < |init| && init[i].Some? ensures !Less(x.value, init[i].value) {
            if m.Some? && Less(x.value, init[i].value) {
              LessTransitive(m.value, x.value, init[i].value);
            }
          }
        }
        x
      else
        assert !Less(m.value, x.value) by {
          LessTotal(m.value, x.value);
          if m.value != x.value { LessAsymmetric(x.value, m.value); } else { LessIrreflexive(x.value); }
        }
        m
  }

  /** The correlated `json_group_array(DISTINCT zipcode)` subquery, with `'[]'` (the empty
      set) when the pwsid has no ZIP row; its order is left unspecified. */
  function ZipCodesOf(zips: seq<ZipLine>, pwsid: string): set<Field> {
    set z | z in zips && z.pwsid == pwsid :: z.zipcode
  }

  datatype SummaryRow = SummaryRow(
    pwsid: string, pwsName: Field, state: Field, region: Option<nat>, size: Field,
    zipCodes: set<Field>, contaminantsDetected: nat, lastTestDate: Field, totalSamples: nat)

  function SummaryOf(wq: seq<WqRow>, zips: seq<ZipLine>, k: GroupKey): SummaryRow {
    var rows := GroupRows(wq, k);
    SummaryRow(k.pwsid, k.pwsName, k.state, k.region, k.size, ZipCodesOf(zips, k.pwsid),
      |DetectedContaminants(rows)|, MaxText(Dates(rows)), |SampleIds(rows)|)
  }

  /** `UNIQUE constraint failed: pws_summary.pwsid`: two groups share a pwsid. */
  datatype SummaryError = UniqueConstraintFailed

  predicate PwsidsDistinct(keys: seq<GroupKey>) {
    forall i, j :: 0 <= i < j < |keys| ==> keys[i].pwsid != keys[j].pwsid
  }

  /** The summary INSERT...SELECT (lines 213-235): one row per group, or the error when a
      pwsid appears in two groups. */
  function Summarize(wq: seq<WqRow>, zips: seq<ZipLine>): Result<seq<SummaryRow>, SummaryError> {
    var keys := GroupKeys(wq);
    if PwsidsDistinct(keys) then Ok(seq(|keys|, i requires 0 <= i < |keys| => SummaryOf(wq, zips, keys[i])))
    else Err(UniqueConstraintFailed)
  }

  /** A summary row carries the key columns of a table row. */
  predicate SameKey(s: SummaryRow, r: WqRow) {
    s.pwsid == r.pwsid && s.pwsName == r.pwsName && s.state == r.state && s.region == r.region && s.size == r.size
  }

  /** With one group per pwsid, two rows with the same pwsid have the same key. */
  lemma DistinctPwsidsAgree(wq: seq<WqRow>)
    requires PwsidsDistinct(GroupKeys(wq))
    ensures forall r1, r2 :: r1 in wq && r2 in wq && r1.pwsid == r2.pwsid ==> KeyOf(r1) == KeyOf(r2)
  {
    var keys := GroupKeys(wq);
    forall r1, r2 | r1 in wq && r2 in wq && r1.pwsid == r2.pwsid ensures KeyOf(r1) == KeyOf(r2) {
      assert KeyOf(r1) in keys && KeyOf(r2) in keys;
      var i :| 0 <= i < |keys| && keys[i] == KeyOf(r1);
      var j :| 0 <= j < |keys| && keys[j] == KeyOf(r2);
    }
  }

  /** Two groups sharing a pwsid come from two rows with that pwsid and different keys. */
  lemma SharedPwsidRows(wq: seq<WqRow>)
    requires !PwsidsDistinct(GroupKeys(wq))
    ensures exists r1, r2 :: r1 in wq && r2 in wq && r1.pwsid == r2.pwsid && KeyOf(r1) != KeyOf(r2)
  {
    var keys := GroupKeys(wq);
    var i, j :| 0 <= i < j < |keys| && keys[i].pwsid == keys[j].pwsid;
    assert keys[i] in keys && keys[j] in keys;
    var r1 :| r1 in wq && KeyOf(r1) == keys[i];
    var r2 :| r2 in wq && KeyOf(r2) == keys[j];
  }

  /** One summary row per group: every table row has its row, and every row comes from one. */
  lemma SummaryRowsCover(wq: seq<WqRow>, zips: seq<ZipLine>, rows: seq<SummaryRow>)
    requires rows == seq(|GroupKeys(wq)|, i requires 0 <= i < |GroupKeys(wq)| => SummaryOf(wq, zips, GroupKeys(wq)[i]))
    ensures forall r :: r in wq ==> exists s :: s in rows && SameKey(s, r)
    ensures forall s :: s in rows ==> exists r :: r in wq && SameKey(s, r)
  {
    var keys := GroupKeys(wq);
    forall r | r in wq ensures exists s :: s in rows && SameKey(s, r) {
      assert KeyOf(r) in keys;
      var i :| 0 <= i < |keys| && keys[i] == KeyOf(r);
      assert rows[i] in rows;
    }
    forall s | s in rows ensures exists r :: r in wq && SameKey(s, r) {
      var i :| 0 <= i < |rows| && rows[i] == s;
      assert keys[i] in keys;
    }
  }

  /** The insert fails exactly when two rows share a pwsid but differ in name, state,
      region or size; otherwise the summary has one row per pwsid of the table, each
      carrying its group's key columns. */
  lemma SummaryKeys(wq: seq<WqRow>, zips: seq<ZipLine>)
    ensures Summarize(wq, zips).Err? <==>
      exists r1, r2 :: r1 in wq && r2 in wq && r1.pwsid == r2.pwsid && KeyOf(r1) != KeyOf(r2)
    ensures Summarize(wq, zips).Ok? ==>
      var rows := Summarize(wq, zips).value;
      && (forall i, j :: 0 <= i < j < |rows| ==> rows[i].pwsid != rows[j].pwsid)
      && (forall r :: r in wq ==> exists s :: s in rows && SameKey(s, r))
      && (forall s :: s in rows ==> exists r :: r in wq && SameKey(s, r))
  {
    var keys := GroupKeys(wq);
    if PwsidsDistinct(keys) {
      DistinctPwsidsAgree(wq);
      var rows := seq(|keys|, i requires 0 <= i < |keys| => SummaryOf(wq, zips, keys[i]));
      assert Summarize(wq, zips) == Ok(rows);
      SummaryRowsCover(wq, zips, rows);
    } else {
      SharedPwsidRows(wq);
    }
  }

  /** Per group: the detected contaminants are among the group's contaminants, so
      `contaminants_detected` never exceeds their number; `total_samples` counts distinct
      sample ids, at most one per row; `last_test_date` is the group's latest date. */
  lemma SummaryRowBounds(wq: seq<WqRow>, zips: seq<ZipLine>, k: GroupKey)
    ensures var s := SummaryOf(wq, zips, k);
      var rows := GroupRows(wq, k);
      && DetectedContaminants(rows) <= Contaminants(rows)
      && s.contaminantsDetected <= |Contaminants(rows)|
      && s.totalSamples <= |rows|
      && (s.lastTestDate.Some? ==> exists r :: r in rows && r.collectionDate == s.lastTestDate)
      && (forall r :: r in rows && r.collectionDate.Some? ==> s.lastTestDate.Some? && !Less(s.lastTestDate.value, r.collectionDate.value))
      && (forall zc :: zc in s.zipCodes <==> exists z :: z in zips && z.pwsid == k.pwsid && z.zipcode == zc)
      && (s.zipCodes == {} <==> forall z :: z in zips ==> z.pwsid != k.pwsid)
  {
    var rows := GroupRows(wq, k);
    var s := SummaryOf(wq, zips, k);
    assert DetectedContaminants(rows) <= Contaminants(rows);
    SubsetCardinality(DetectedContaminants(rows), Contaminants(rows));
    SampleIdsBound(rows);
    var dates := Dates(rows);
    if s.lastTestDate.Some? {
      var i :| 0 <= i < |dates| && dates[i] == s.lastTestDate;
      assert rows[i] in rows;
    }
    forall r | r in rows && r.collectionDate.Some?
      ensures s.lastTestDate.Some? && !Less(s.lastTestDate.value, r.collectionDate.value)
    {
      var i :| 0 <= i < |rows| && rows[i] == r;
      assert dates[i].Some?;
    }
    forall z | z in zips && z.pwsid == k.pwsid ensures s.zipCodes != {} {
      assert z.zipcode in s.zipCodes;
    }
  }

  lemma SubsetCardinality<T>(a: set<T>, b: set<T>)
    requires a <= b
    ensures |a| <= |b|
  {
    assert b == a + (b - a);
  }

  /** At most one distinct sample id per row. */
  lemma {:induction false} SampleIdsBound(rows: seq<WqRow>)
    ensures |SampleIds(rows)| <= |rows|
    decreases |rows|
  {
    if |rows| > 0 {
      var init, last := rows[..|rows| - 1], rows[|rows| - 1];
      assert rows == init + [last];
      SampleIdsBound(init);
      if last.sampleId.Some? {
        assert SampleIds(rows) == SampleIds(init) + {last.sampleId.value};
      } else {
        assert SampleIds(rows) == SampleIds(init);
      }
    }
  }

  /** A detection whose result text parses to zero is not counted: `|| null` has turned it
      into NULL, and the CASE requires a non-NULL value. */
  lemma ZeroDetectionNotCounted(lines: seq<string>, c: string)
    requires forall k :: 1 <= k < |lines| && RowOf(lines[k]).contaminant == Some(c) ==>
      ParseFloat(At(Split(lines[k], TAB), 7)) in {None, Some(0.0)}
    ensures c !in DetectedContaminants(Rows(lines))
  {
    var rows := Rows(lines);
    forall r | r in rows && r.contaminant == Some(c)
      ensures r.resultValue.None?
    {
      var k :| 0 <= k < |rows| && rows[k] == r;
      assert r == RowOf(lines[k + 1]);
    }
  }

  /** Rows that repeat one sample id count as one sample, whatever the row count. */
  lemma SharedSampleCountsOnce(rows: seq<WqRow>, id: string)
    requires |rows| > 0
    requires forall r :: r in rows ==> r.sampleId == Some(id)
    ensures |SampleIds(rows)| == 1
  {
    assert SampleIds(rows) == {id} by {
      assert rows[0] in rows;
    }
  }
}
