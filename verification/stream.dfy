/** The streaming aggregator (scripts/process-data-stream.js): one pass over the
    samples file builds state -> pwsid -> system summary, a second pass over the
    ZIP file builds the ZIP index and fills in each system's ZIP codes, and a
    per-state count index is taken at the end. */
module DataStream {
  import opened Js
  import opened Seqs
  import opened Readings
  import opened Extracts

  /** One data line of the samples file, mapped the way this script maps it
      (state from column 22, size from column 21). */
  datatype SampleRecord = SampleRecord(
    pwsid: string, pwsName: Field, state: Field, size: Field, region: Field,
    contaminant: Field, resultValue: Option<real>, resultSign: Field,
    mrl: Option<real>, units: Field, collectionDate: Field)

  function RecordOf(line: string): SampleRecord {
    var values := Split(line, TAB);
    SampleRecord(values[0], At(values, 1), At(values, 22), At(values, 21), At(values, 3),
      At(values, 4), ParseFloat(At(values, 7)), At(values, 8), ParseFloat(At(values, 9)),
      At(values, 10), At(values, 11))
  }

  /** The columns by position: state is column 22 and size column 21 here. */
  lemma RecordColumns(columns: seq<string>)
    requires WellFormed(columns) && |columns| >= 23
    ensures var r := RecordOf(Line(columns));
      && r.pwsid == columns[0] && r.pwsName == Some(columns[1]) && r.region == Some(columns[3])
      && r.contaminant == Some(columns[4]) && r.resultValue == ParseFloat(Some(columns[7]))
      && r.resultSign == Some(columns[8]) && r.mrl == ParseFloat(Some(columns[9]))
      && r.units == Some(columns[10]) && r.collectionDate == Some(columns[11])
      && r.size == Some(columns[21]) && r.state == Some(columns[22])
  {
    SplitJoin(columns, TAB);
  }

  /** A line too short to reach column 22 has an `undefined` state, and its system is
      filed under the key "undefined". */
  lemma ShortLineState(columns: seq<string>)
    requires WellFormed(columns) && |columns| <= 22
    ensures RecordOf(Line(columns)).state == None
    ensures PropertyKey(RecordOf(Line(columns)).state) == "undefined"
  {
    SplitJoin(columns, TAB);
  }

  /** The records of the data lines; the header line is never mapped. */
  function Records(lines: seq<string>): (rs: seq<SampleRecord>)
    ensures |rs| == |DataLines(lines)|
  {
    var data := DataLines(lines);
    seq(|data|, k requires 0 <= k < |data| => RecordOf(data[k]))
  }

  datatype ContaminantEntry = ContaminantEntry(value: Display, unit: Field, detected: bool, mrl: Option<real>)

  datatype SystemEntry = SystemEntry(
    pwsid: string, name: Field, state: Field, zipCodes: seq<Field>,
    contaminants: map<string, ContaminantEntry>, lastTested: Field)

  type Systems = map<string, SystemEntry>
  type StateData = map<string, Systems>
  type PwsIndex = map<string, Field>

  /** The two dictionaries the samples loop fills: `stateData` and `pwsIndex`. */
  datatype Aggregate = Aggregate(stateData: StateData, pwsIndex: PwsIndex)

  /** The entry written for a contaminant the first time its name is seen. */
  function NewContaminant(r: SampleRecord): (c: ContaminantEntry)
    ensures c.detected <==> r.resultSign == Some("=")
    ensures c.detected ==> c.value == Raw(r.resultValue)
    ensures c.value.LessThan? <==> r.resultSign == Some("<")
    ensures c.value.LessThan? ==> c.value.mrl == r.mrl
    ensures !c.value.LessThan? ==> c.value == Raw(r.resultValue)
    ensures c.unit == r.units && c.mrl == r.mrl
  {
    ContaminantEntry(Shown(r.resultSign, r.resultValue, r.mrl), r.units, Detected(r.resultSign), r.mrl)
  }

  function NewSystem(r: SampleRecord): SystemEntry {
    SystemEntry(r.pwsid, r.pwsName, r.state, [], map[], r.collectionDate)
  }

  /** Folds one more row into an existing system: the contaminant entry is added only
      when its name is absent, and `last_tested` moves to a later date. */
  function Absorb(pws: SystemEntry, r: SampleRecord): SystemEntry {
    var key := PropertyKey(r.contaminant);
    var contaminants :=
      if key in pws.contaminants then pws.contaminants
      else pws.contaminants[key := NewContaminant(r)];
    var lastTested := if After(r.collectionDate, pws.lastTested) then r.collectionDate else pws.lastTested;
    pws.(contaminants := contaminants, lastTested := lastTested)
  }

  /** One iteration of the samples loop. */
  function AddSample(agg: Aggregate, r: SampleRecord): Aggregate {
    var st := PropertyKey(r.state);
    var systems := if st in agg.stateData then agg.stateData[st] else map[];
    var created := r.pwsid !in systems;
    var pws := if created then NewSystem(r) else systems[r.pwsid];
    var pwsIndex := if created then agg.pwsIndex[r.pwsid := r.state] else agg.pwsIndex;
    Aggregate(agg.stateData[st := systems[r.pwsid := Absorb(pws, r)]], pwsIndex)
  }

  /** The dictionaries after the samples loop has seen `rs`, in order. */
  function AggregateAll(rs: seq<SampleRecord>): Aggregate {
    if |rs| == 0 then Aggregate(map[], map[])
    else AddSample(AggregateAll(rs[..|rs| - 1]), rs[|rs| - 1])
  }

  lemma RecordsSnoc(lines: seq<string>, i: nat)
    requires 1 <= i < |lines|
    ensures Records(lines[..i + 1]) == Records(lines[..i]) + [RecordOf(lines[i])]
  {
  }

  lemma AggregateAllSnoc(rs: seq<SampleRecord>, r: SampleRecord)
    ensures AggregateAll(rs + [r]) == AddSample(AggregateAll(rs), r)
  {
    assert (rs + [r])[..|rs|] == rs;
  }

  /** One data line of the samples loop (lines 55-89): the state and system entries are
      created when missing, the first row of a contaminant names its entry, and a later
      date moves `last_tested`. */
  method AddSampleRecord(stateData: StateData, pwsIndex: PwsIndex, record: SampleRecord)
    returns (stateData': StateData, pwsIndex': PwsIndex)
    ensures Aggregate(stateData', pwsIndex') == AddSample(Aggregate(stateData, pwsIndex), record)
  {
    pwsIndex' := pwsIndex;
    var st := PropertyKey(record.state);
    var systems := if st in stateData then stateData[st] else map[];
    var pws: SystemEntry;
    if record.pwsid !in systems {
      pws := NewSystem(record);
      pwsIndex' := pwsIndex'[record.pwsid := record.state];
    } else {
      pws := systems[record.pwsid];
    }
    var key := PropertyKey(record.contaminant);
    if key !in pws.contaminants {
      pws := pws.(contaminants := pws.contaminants[key := NewContaminant(record)]);
    }
    if After(record.collectionDate, pws.lastTested) {
      pws := pws.(lastTested := record.collectionDate);
    }
    stateData' := stateData[st := systems[record.pwsid := pws]];
  }

  /** The samples loop (lines 33-96): the header line is skipped, and the
      dictionaries afterwards are those of the fold over the data lines. */
  method AggregateSamples(lines: seq<string>) returns (stateData: StateData, pwsIndex: PwsIndex)
    ensures Aggregate(stateData, pwsIndex) == AggregateAll(Records(lines))
  {
    stateData, pwsIndex := map[], map[];
    var lineCount := 0;
    while lineCount < |lines|
      invariant 0 <= lineCount <= |lines|
      invariant Aggregate(stateData, pwsIndex) == AggregateAll(Records(lines[..lineCount]))
    {
      if lineCount == 0 {
        lineCount := lineCount + 1;
        continue;
      }
      var record := RecordOf(lines[lineCount]);
      stateData, pwsIndex := AddSampleRecord(stateData, pwsIndex, record);
      RecordsSnoc(lines, lineCount);
      AggregateAllSnoc(Records(lines[..lineCount]), record);
      lineCount := lineCount + 1;
    }
    assert lines[..|lines|] == lines;
  }

  // ---------------------------------------------------------------------------
  // what the samples pass computes, system by system

  predicate OfSystem(r: SampleRecord, st: string, pid: string) {
    PropertyKey(r.state) == st && r.pwsid == pid
  }

  /** The rows of one (state, pwsid) pair, in file order. */
  function SystemRows(rs: seq<SampleRecord>, st: string, pid: string): (sub: seq<SampleRecord>)
    ensures forall r :: r in sub ==> r in rs && OfSystem(r, st, pid)
    ensures |sub| > 0 <==> exists r :: r in rs && OfSystem(r, st, pid)
  {
    if |rs| == 0 then []
    else
      var init, last := rs[..|rs| - 1], rs[|rs| - 1];
      assert rs == init + [last];
      SystemRows(init, st, pid) + (if OfSystem(last, st, pid) then [last] else [])
  }

  /** One system's entry, folded from its own rows alone. */
  function SystemFold(rows: seq<SampleRecord>): SystemEntry
    requires |rows| > 0
  {
    if |rows| == 1 then Absorb(NewSystem(rows[0]), rows[0])
    else Absorb(SystemFold(rows[..|rows| - 1]), rows[|rows| - 1])
  }

  /** One row creates or updates only its own (state, pwsid) entry. */
  lemma AddSampleEntry(agg: Aggregate, r: SampleRecord, st: string, pid: string)
    ensures var sd, sd' := agg.stateData, AddSample(agg, r).stateData;
      && (st in sd' <==> st in sd || PropertyKey(r.state) == st)
      && (st in sd' && pid in sd'[st] <==> (st in sd && pid in sd[st]) || OfSystem(r, st, pid))
      && (!OfSystem(r, st, pid) && st in sd && pid in sd[st] ==> sd'[st][pid] == sd[st][pid])
      && (OfSystem(r, st, pid) ==>
            sd'[st][pid] == Absorb(if st in sd && pid in sd[st] then sd[st][pid] else NewSystem(r), r))
  {
  }

  /** The samples pass creates exactly one entry per (state, pwsid) pair that occurs, and
      that entry is what its own rows alone produce: rows of other systems never touch it. */
  lemma {:induction false} AggregateProjection(rs: seq<SampleRecord>, st: string, pid: string)
    ensures var sd := AggregateAll(rs).stateData;
      && (st in sd <==> exists r :: r in rs && PropertyKey(r.state) == st)
      && (st in sd && pid in sd[st] <==> |SystemRows(rs, st, pid)| > 0)
      && (st in sd && pid in sd[st] ==> sd[st][pid] == SystemFold(SystemRows(rs, st, pid)))
    decreases |rs|
  {
    if |rs| > 0 {
      var init, r := rs[..|rs| - 1], rs[|rs| - 1];
      assert rs == init + [r];
      AggregateProjection(init, st, pid);
      AddSampleEntry(AggregateAll(init), r, st, pid);
      var prev := SystemRows(init, st, pid);
      if OfSystem(r, st, pid) {
        assert SystemRows(rs, st, pid) == prev + [r];
        if |prev| > 0 {
          assert (prev + [r])[..|prev|] == prev;
        }
      } else {
        assert SystemRows(rs, st, pid) == prev;
      }
    }
  }

  /** Rows after the first never change a system's pwsid, name or state, and the samples
      pass leaves its ZIP list empty. */
  lemma {:induction false} SystemIdentity(rows: seq<SampleRecord>)
    requires |rows| > 0
    ensures var s := SystemFold(rows);
      s.pwsid == rows[0].pwsid && s.name == rows[0].pwsName && s.state == rows[0].state && s.zipCodes == []
    decreases |rows|
  {
    if |rows| > 1 {
      SystemIdentity(rows[..|rows| - 1]);
    }
  }

  /** Row `k` is the first row naming contaminant `c`. */
  predicate FirstNaming(rows: seq<SampleRecord>, k: int, c: string) {
    0 <= k < |rows| && PropertyKey(rows[k].contaminant) == c
    && forall j :: 0 <= j < k ==> PropertyKey(rows[j].contaminant) != c
  }

  /** One row adds its contaminant when the name is absent and leaves every present entry. */
  lemma AbsorbContaminant(pws: SystemEntry, r: SampleRecord, c: string)
    ensures c in Absorb(pws, r).contaminants <==> c in pws.contaminants || PropertyKey(r.contaminant) == c
    ensures c in pws.contaminants ==> Absorb(pws, r).contaminants[c] == pws.contaminants[c]
    ensures c !in pws.contaminants && PropertyKey(r.contaminant) == c ==>
      Absorb(pws, r).contaminants[c] == NewContaminant(r)
  {
  }

  /** First row wins for a contaminant: a name is present exactly when some row carries it,
      and its entry is the one built from the first such row. */
  lemma {:induction false} ContaminantFirstWins(rows: seq<SampleRecord>, c: string)
    requires |rows| > 0
    ensures var s := SystemFold(rows);
      && (c in s.contaminants <==> exists r :: r in rows && PropertyKey(r.contaminant) == c)
      && (c in s.contaminants ==>
            exists k :: FirstNaming(rows, k, c) && s.contaminants[c] == NewContaminant(rows[k]))
    decreases |rows|
  {
    var n := |rows|;
    var last := rows[n - 1];
    if n == 1 {
      AbsorbContaminant(NewSystem(rows[0]), rows[0], c);
      if c in SystemFold(rows).contaminants {
        assert FirstNaming(rows, 0, c);
      }
    } else {
      var init := rows[..n - 1];
      assert rows == init + [last];
      ContaminantFirstWins(init, c);
      var prev := SystemFold(init);
      assert SystemFold(rows) == Absorb(prev, last);
      AbsorbContaminant(prev, last, c);
      if c in prev.contaminants {
        var k :| FirstNaming(init, k, c) && prev.contaminants[c] == NewContaminant(init[k]);
        assert rows[k] == init[k];
        assert FirstNaming(rows, k, c) by {
          forall j | 0 <= j < k ensures PropertyKey(rows[j].contaminant) != c {
            assert rows[j] == init[j];
          }
        }
        assert init[k] in rows;
      } else {
        assert forall r :: r in init ==> PropertyKey(r.contaminant) != c;
        if PropertyKey(last.contaminant) == c {
          assert FirstNaming(rows, n - 1, c) by {
            forall j | 0 <= j < n - 1 ensures PropertyKey(rows[j].contaminant) != c {
              assert rows[j] == init[j] && init[j] in init;
            }
          }
        } else {
          forall r | r in rows ensures PropertyKey(r.contaminant) != c {
            assert r in init || r == last;
          }
        }
      }
    }
  }

  /** `last_tested` is the string-maximum of the rows' collection dates when the first row
      has one; because every comparison with `undefined` is false, it stays `undefined`
      for good when the first row has no date. */
  lemma {:induction false} LastTestedIsLatest(rows: seq<SampleRecord>)
    requires |rows| > 0
    ensures var s := SystemFold(rows);
      && (rows[0].collectionDate.None? ==> s.lastTested.None?)
      && (rows[0].collectionDate.Some? ==>
            && s.lastTested.Some?
            && (exists r :: r in rows && r.collectionDate == s.lastTested)
            && (forall r :: r in rows && r.collectionDate.Some? ==> !Less(s.lastTested.value, r.collectionDate.value)))
    decreases |rows|
  {
    var n := |rows|;
    if n == 1 {
      if rows[0].collectionDate.Some? {
        LessIrreflexive(rows[0].collectionDate.value);
      }
    } else {
      var init, last := rows[..n - 1], rows[n - 1];
      assert rows == init + [last];
      LastTestedIsLatest(init);
      var prev := SystemFold(init).lastTested;
      if rows[0].collectionDate.Some? {
        var m := prev.value;
        if After(last.collectionDate, prev) {
          var d := last.collectionDate.value;
          LessIrreflexive(d);
          forall r | r in rows && r.collectionDate.Some?
            ensures !Less(d, r.collectionDate.value)
          {
            if r != last && Less(d, r.collectionDate.value) {
              LessTransitive(m, d, r.collectionDate.value);
            }
          }
        } else {
          if last.collectionDate.Some? {
            LessTotal(m, last.collectionDate.value);
            if m != last.collectionDate.value {
              LessAsymmetric(last.collectionDate.value, m);
            } else {
              LessIrreflexive(m);
            }
          }
        }
      }
    }
  }

  /** `pwsIndex` records a pwsid exactly when some row carries it, and always points at a
      state under which that pwsid has an entry. */
  ghost predicate IndexConsistent(agg: Aggregate, rs: seq<SampleRecord>) {
    && (forall pid :: pid in agg.pwsIndex <==> exists r :: r in rs && r.pwsid == pid)
    && (forall pid :: pid in agg.pwsIndex ==>
          PropertyKey(agg.pwsIndex[pid]) in agg.stateData
          && pid in agg.stateData[PropertyKey(agg.pwsIndex[pid])]
          && exists r :: r in rs && r.pwsid == pid && r.state == agg.pwsIndex[pid])
    && (forall st, pid :: st in agg.stateData && pid in agg.stateData[st] ==> pid in agg.pwsIndex)
  }

  /** One more row keeps the index entry of each pwsid consistent. */
  lemma IndexStep(prev: Aggregate, init: seq<SampleRecord>, r: SampleRecord, pid: string)
    requires IndexConsistent(prev, init)
    ensures var agg, rs := AddSample(prev, r), init + [r];
      && (pid in agg.pwsIndex <==> exists x :: x in rs && x.pwsid == pid)
      && (pid in agg.pwsIndex ==>
            PropertyKey(agg.pwsIndex[pid]) in agg.stateData
            && pid in agg.stateData[PropertyKey(agg.pwsIndex[pid])]
            && exists x :: x in rs && x.pwsid == pid && x.state == agg.pwsIndex[pid])
  {
    var agg, rs := AddSample(prev, r), init + [r];
    AddSampleKeeps(prev, r);
    assert r in rs;
    if pid in agg.pwsIndex && pid in prev.pwsIndex && agg.pwsIndex[pid] == prev.pwsIndex[pid] {
      var x :| x in init && x.pwsid == pid && x.state == prev.pwsIndex[pid];
      assert x in rs;
    }
    if pid != r.pwsid {
      assert (exists x :: x in rs && x.pwsid == pid) <==> (exists x :: x in init && x.pwsid == pid);
    }
  }

  lemma {:induction false} PwsIndexConsistent(rs: seq<SampleRecord>)
    ensures IndexConsistent(AggregateAll(rs), rs)
    decreases |rs|
  {
    if |rs| > 0 {
      var init, r := rs[..|rs| - 1], rs[|rs| - 1];
      assert rs == init + [r];
      PwsIndexConsistent(init);
      var prev := AggregateAll(init);
      var agg := AggregateAll(rs);
      forall pid
        ensures (pid in agg.pwsIndex <==> exists x :: x in rs && x.pwsid == pid)
          && (pid in agg.pwsIndex ==>
                PropertyKey(agg.pwsIndex[pid]) in agg.stateData
                && pid in agg.stateData[PropertyKey(agg.pwsIndex[pid])]
                && exists x :: x in rs && x.pwsid == pid && x.state == agg.pwsIndex[pid])
      {
        IndexStep(prev, init, r, pid);
      }
    }
  }

  /** A sample never removes a state or a system. */
  lemma AddSampleKeeps(agg: Aggregate, r: SampleRecord)
    ensures var next := AddSample(agg, r).stateData;
      forall st, pid :: st in agg.stateData && pid in agg.stateData[st] ==> st in next && pid in next[st]
  {
  }

  // ---------------------------------------------------------------------------
  // the ZIP pass

  datatype ZipRef = ZipRef(pwsid: string, state: Field)
  type ZipIndex = map<string, seq<ZipRef>>

  /** `pwsIndex[pwsid]`: `undefined` for a pwsid the samples never mentioned. */
  function StateOf(pwsIndex: PwsIndex, pid: string): Field {
    if pid in pwsIndex then pwsIndex[pid] else None
  }

  datatype ZipPass = ZipPass(stateData: StateData, zipIndex: ZipIndex)

  /** One iteration of the ZIP loop. */
  function AddZip(p: ZipPass, pwsIndex: PwsIndex, z: ZipLine): ZipPass {
    var key := PropertyKey(z.zipcode);
    var state := StateOf(pwsIndex, z.pwsid);
    var list := if key in p.zipIndex then p.zipIndex[key] else [];
    var zipIndex := p.zipIndex[key := list + [ZipRef(z.pwsid, state)]];
    var sd := p.stateData;
    if Truthy(state) && state.value in sd && z.pwsid in sd[state.value]
       && z.zipcode !in sd[state.value][z.pwsid].zipCodes
    then
      var pws := sd[state.value][z.pwsid];
      ZipPass(sd[state.value := sd[state.value][z.pwsid := pws.(zipCodes := pws.zipCodes + [z.zipcode])]], zipIndex)
    else
      ZipPass(sd, zipIndex)
  }

  function ZipFold(sd0: StateData, pwsIndex: PwsIndex, zs: seq<ZipLine>): ZipPass {
    if |zs| == 0 then ZipPass(sd0, map[])
    else AddZip(ZipFold(sd0, pwsIndex, zs[..|zs| - 1]), pwsIndex, zs[|zs| - 1])
  }

  lemma ZipFoldSnoc(sd0: StateData, pwsIndex: PwsIndex, zs: seq<ZipLine>, z: ZipLine)
    ensures ZipFold(sd0, pwsIndex, zs + [z]) == AddZip(ZipFold(sd0, pwsIndex, zs), pwsIndex, z)
  {
    assert (zs + [z])[..|zs|] == zs;
  }

  /** The ZIP loop (lines 100-139); nothing happens when the ZIP file is absent. */
  method IndexZipCodes(zipFile: Option<seq<string>>, stateData0: StateData, pwsIndex: PwsIndex)
    returns (stateData: StateData, zipIndex: ZipIndex)
    ensures zipFile.None? ==> stateData == stateData0 && zipIndex == map[]
    ensures zipFile.Some? ==> ZipPass(stateData, zipIndex) == ZipFold(stateData0, pwsIndex, ZipLines(zipFile.value))
  {
    stateData, zipIndex := stateData0, map[];
    if zipFile.None? {
      return;
    }
    var lines := zipFile.value;
    var zipLineCount := 0;
    while zipLineCount < |lines|
      invariant 0 <= zipLineCount <= |lines|
      invariant ZipPass(stateData, zipIndex) == ZipFold(stateData0, pwsIndex, ZipLines(lines[..zipLineCount]))
    {
      if zipLineCount == 0 {
        zipLineCount := zipLineCount + 1;
        continue;
      }
      ghost var before := ZipPass(stateData, zipIndex);
      var z := ZipLineOf(lines[zipLineCount]);
      var key := PropertyKey(z.zipcode);
      var state := StateOf(pwsIndex, z.pwsid);
      var list := if key in zipIndex then zipIndex[key] else [];
      zipIndex := zipIndex[key := list + [ZipRef(z.pwsid, state)]];
      if Truthy(state) && state.value in stateData && z.pwsid in stateData[state.value] {
        var pws := stateData[state.value][z.pwsid];
        if z.zipcode !in pws.zipCodes {
          pws := pws.(zipCodes := pws.zipCodes + [z.zipcode]);
          stateData := stateData[state.value := stateData[state.value][z.pwsid := pws]];
        }
      }
      assert ZipPass(stateData, zipIndex) == AddZip(before, pwsIndex, z);
      ZipLinesSnoc(lines, zipLineCount);
      ZipFoldSnoc(stateData0, pwsIndex, ZipLines(lines[..zipLineCount]), z);
      zipLineCount := zipLineCount + 1;
    }
    assert lines[..|lines|] == lines;
  }

  /** The entries listed under one ZIP key, in file order. */
  function RefsFor(zs: seq<ZipLine>, pwsIndex: PwsIndex, key: string): (refs: seq<ZipRef>)
    ensures |refs| > 0 <==> exists z :: z in zs && PropertyKey(z.zipcode) == key
  {
    if |zs| == 0 then []
    else
      var z := zs[|zs| - 1];
      assert zs == zs[..|zs| - 1] + [z];
      RefsFor(zs[..|zs| - 1], pwsIndex, key)
        + (if PropertyKey(z.zipcode) == key then [ZipRef(z.pwsid, StateOf(pwsIndex, z.pwsid))] else [])
  }

  /** Every ZIP line appends one entry under its own ZIP, in file order, whether or not its
      pwsid is known; an unknown pwsid is listed with an `undefined` state. */
  lemma {:induction false} ZipIndexLists(sd0: StateData, pwsIndex: PwsIndex, zs: seq<ZipLine>, key: string)
    ensures var zi := ZipFold(sd0, pwsIndex, zs).zipIndex;
      && (key in zi <==> exists z :: z in zs && PropertyKey(z.zipcode) == key)
      && (key in zi ==> zi[key] == RefsFor(zs, pwsIndex, key))
    decreases |zs|
  {
    if |zs| > 0 {
      var init, z := zs[..|zs| - 1], zs[|zs| - 1];
      assert zs == init + [z];
      ZipIndexLists(sd0, pwsIndex, init, key);
    }
  }

  /** Orphan retention: each ZIP line's entry is in the index under its ZIP, carrying the
      pwsid even when the samples never mentioned it. */
  lemma {:induction false} ZipIndexKeepsOrphans(sd0: StateData, pwsIndex: PwsIndex, zs: seq<ZipLine>, i: nat)
    requires i < |zs|
    ensures var zi := ZipFold(sd0, pwsIndex, zs).zipIndex;
      && PropertyKey(zs[i].zipcode) in zi
      && ZipRef(zs[i].pwsid, StateOf(pwsIndex, zs[i].pwsid)) in zi[PropertyKey(zs[i].zipcode)]
      && (zs[i].pwsid !in pwsIndex ==> ZipRef(zs[i].pwsid, None) in zi[PropertyKey(zs[i].zipcode)])
    decreases |zs|
  {
    var key := PropertyKey(zs[i].zipcode);
    ZipIndexLists(sd0, pwsIndex, zs, key);
    RefsForHas(zs, pwsIndex, i);
  }

  lemma {:induction false} RefsForHas(zs: seq<ZipLine>, pwsIndex: PwsIndex, i: nat)
    requires i < |zs|
    ensures ZipRef(zs[i].pwsid, StateOf(pwsIndex, zs[i].pwsid)) in RefsFor(zs, pwsIndex, PropertyKey(zs[i].zipcode))
    decreases |zs|
  {
    if i < |zs| - 1 {
      var init := zs[..|zs| - 1];
      RefsForHas(init, pwsIndex, i);
    }
  }

  /** The system entry under `st` that `pwsIndex` points at for `pid`; only it receives ZIP codes. */
  predicate Receives(pwsIndex: PwsIndex, st: string, pid: string) {
    StateOf(pwsIndex, pid) == Some(st) && st != ""
  }

  /** The ZIP pass creates no system and changes nothing but ZIP lists; a list never takes a
      duplicate, and it grows by exactly the ZIP codes of the lines naming its pwsid, and
      only for the entry `pwsIndex` points at. */
  lemma {:induction false} ZipCodesOfSystem(sd0: StateData, pwsIndex: PwsIndex, zs: seq<ZipLine>, st: string, pid: string)
    requires st in sd0 && pid in sd0[st]
    ensures var sd := ZipFold(sd0, pwsIndex, zs).stateData;
      && st in sd && pid in sd[st]
      && sd[st][pid] == sd0[st][pid].(zipCodes := sd[st][pid].zipCodes)
      && (NoDup(sd0[st][pid].zipCodes) ==> NoDup(sd[st][pid].zipCodes))
      && (!Receives(pwsIndex, st, pid) ==> sd[st][pid].zipCodes == sd0[st][pid].zipCodes)
      && (forall zc :: zc in sd[st][pid].zipCodes <==>
            zc in sd0[st][pid].zipCodes
            || (Receives(pwsIndex, st, pid) && exists z :: z in zs && z.pwsid == pid && z.zipcode == zc))
    decreases |zs|
  {
    if |zs| > 0 {
      var init, z := zs[..|zs| - 1], zs[|zs| - 1];
      assert zs == init + [z];
      ZipCodesOfSystem(sd0, pwsIndex, init, st, pid);
      var prev: StateData := ZipFold(sd0, pwsIndex, init).stateData;
      var state := StateOf(pwsIndex, z.pwsid);
      if Truthy(state) && state.value in prev && z.pwsid in prev[state.value]
         && z.zipcode !in prev[state.value][z.pwsid].zipCodes && state.value == st && z.pwsid == pid {
        var before: seq<Field> := prev[st][pid].zipCodes;
        var now := before + [z.zipcode];
        assert NoDup(before) ==> NoDup(now) by {
          if NoDup(before) {
            forall i, j | 0 <= i < j < |now| ensures now[i] != now[j] {
              if j == |before| { assert now[i] == before[i] && before[i] in before; }
            }
          }
        }
      }
    }
  }

  /** The ZIP pass keeps exactly the states and pwsids the samples pass created. */
  lemma {:induction false} ZipPassKeepsSystems(sd0: StateData, pwsIndex: PwsIndex, zs: seq<ZipLine>)
    ensures var sd := ZipFold(sd0, pwsIndex, zs).stateData;
      sd.Keys == sd0.Keys && forall st :: st in sd ==> sd[st].Keys == sd0[st].Keys
    decreases |zs|
  {
    if |zs| > 0 {
      ZipPassKeepsSystems(sd0, pwsIndex, zs[..|zs| - 1]);
    }
  }

  // ---------------------------------------------------------------------------
  // the per-state count index, and the whole script

  /** Lines 141-155: one count per state, the number of systems in its shard. */
  method BuildStateIndex(stateData: StateData) returns (stateIndex: map<string, nat>)
    ensures stateIndex.Keys == stateData.Keys
    ensures forall st :: st in stateData ==> stateIndex[st] == |stateData[st]|
  {
    stateIndex := map[];
    var remaining := stateData.Keys;
    while remaining != {}
      invariant remaining <= stateData.Keys
      invariant stateIndex.Keys == stateData.Keys - remaining
      invariant forall st :: st in stateIndex ==> stateIndex[st] == |stateData[st]|
      decreases remaining
    {
      var st :| st in remaining;
      stateIndex := stateIndex[st := |stateData[st]|];
      remaining := remaining - {st};
    }
  }

  /** The whole script: samples pass, ZIP pass, then the state index. */
  method ProcessDataStream(samples: seq<string>, zipFile: Option<seq<string>>)
    returns (stateData: StateData, zipIndex: ZipIndex, stateIndex: map<string, nat>)
    ensures var agg := AggregateAll(Records(samples));
      && (zipFile.None? ==> stateData == agg.stateData && zipIndex == map[])
      && (zipFile.Some? ==> ZipPass(stateData, zipIndex) == ZipFold(agg.stateData, agg.pwsIndex, ZipLines(zipFile.value)))
    ensures stateIndex.Keys == stateData.Keys
    ensures forall st :: st in stateData ==> stateIndex[st] == |stateData[st]|
  {
    var sd, pwsIndex := AggregateSamples(samples);
    stateData, zipIndex := IndexZipCodes(zipFile, sd, pwsIndex);
    stateIndex := BuildStateIndex(stateData);
  }

  // ---------------------------------------------------------------------------
  // properties of the whole samples pass

  /** The pwsids under a state are the distinct pwsids of the rows carrying that state. */
  lemma StatePwsids(rs: seq<SampleRecord>, st: string)
    requires st in AggregateAll(rs).stateData
    ensures AggregateAll(rs).stateData[st].Keys == set r | r in rs && PropertyKey(r.state) == st :: r.pwsid
  {
    var sd := AggregateAll(rs).stateData;
    forall pid ensures pid in sd[st] <==> pid in set r | r in rs && PropertyKey(r.state) == st :: r.pwsid {
      AggregateProjection(rs, st, pid);
      if pid in sd[st] {
        var r :| r in rs && OfSystem(r, st, pid);
      }
    }
  }

  /** `stateIndex[state]` counts the distinct pwsids aggregated under that state, also after
      the ZIP pass, which adds and removes no system. */
  lemma StateIndexCountsPwsids(samples: seq<string>, zipFile: Option<seq<string>>, st: string,
                               stateData: StateData, stateIndex: map<string, nat>)
    requires var agg := AggregateAll(Records(samples));
      && (zipFile.None? ==> stateData == agg.stateData)
      && (zipFile.Some? ==> stateData == ZipFold(agg.stateData, agg.pwsIndex, ZipLines(zipFile.value)).stateData)
    requires stateIndex.Keys == stateData.Keys
    requires forall s :: s in stateData ==> stateIndex[s] == |stateData[s]|
    requires st in stateData
    ensures stateIndex[st] == |set r | r in Records(samples) && PropertyKey(r.state) == st :: r.pwsid|
  {
    var rs := Records(samples);
    var agg := AggregateAll(rs);
    if zipFile.Some? {
      ZipPassKeepsSystems(agg.stateData, agg.pwsIndex, ZipLines(zipFile.value));
    }
    StatePwsids(rs, st);
    assert stateData[st].Keys == agg.stateData[st].Keys;
    assert |stateData[st]| == |stateData[st].Keys|;
    assert |agg.stateData[st]| == |agg.stateData[st].Keys|;
  }

  /** After the samples pass a system carries the pwsid, name and state of its first row
      and, of all its rows, the first one seen for each contaminant name. */
  lemma SystemAfterSamples(rs: seq<SampleRecord>, st: string, pid: string, c: string)
    requires var sd := AggregateAll(rs).stateData; st in sd && pid in sd[st]
    ensures var rows := SystemRows(rs, st, pid);
      var s := AggregateAll(rs).stateData[st][pid];
      && |rows| > 0
      && s.pwsid == pid && s.name == rows[0].pwsName && s.state == rows[0].state && s.zipCodes == []
      && (c in s.contaminants <==> exists r :: r in rows && PropertyKey(r.contaminant) == c)
      && (c in s.contaminants ==>
            exists k :: FirstNaming(rows, k, c) && s.contaminants[c] == NewContaminant(rows[k]))
  {
    AggregateProjection(rs, st, pid);
    var rows := SystemRows(rs, st, pid);
    SystemIdentity(rows);
    ContaminantFirstWins(rows, c);
    assert rows[0] in rows;
  }

  /** After the samples pass a system's `last_tested` is the latest collection date among
      its rows, provided its first row has a date. */
  lemma LastTestedAfterSamples(rs: seq<SampleRecord>, st: string, pid: string)
    requires var sd := AggregateAll(rs).stateData; st in sd && pid in sd[st]
    ensures var rows := SystemRows(rs, st, pid);
      var s := AggregateAll(rs).stateData[st][pid];
      && |rows| > 0
      && (rows[0].collectionDate.Some? ==>
            && s.lastTested.Some?
            && (exists r :: r in rows && r.collectionDate == s.lastTested)
            && (forall r :: r in rows && r.collectionDate.Some? ==> !Less(s.lastTested.value, r.collectionDate.value)))
  {
    AggregateProjection(rs, st, pid);
    LastTestedIsLatest(SystemRows(rs, st, pid));
  }

  /** After both passes a system's ZIP list has no duplicate and holds exactly the ZIP codes
      of the ZIP lines naming its pwsid, when `pwsIndex` points at its state (a non-empty
      string); otherwise it stays empty. */
  lemma ZipCodesAfterBothPasses(samples: seq<string>, zipLines: seq<string>, st: string, pid: string)
    requires var sd := AggregateAll(Records(samples)).stateData; st in sd && pid in sd[st]
    ensures var agg := AggregateAll(Records(samples));
      var zs := ZipLines(zipLines);
      var sd := ZipFold(agg.stateData, agg.pwsIndex, zs).stateData;
      && st in sd && pid in sd[st]
      && var codes := sd[st][pid].zipCodes;
      && NoDup(codes)
      && (!Receives(agg.pwsIndex, st, pid) ==> codes == [])
      && (forall zc :: zc in codes <==>
            Receives(agg.pwsIndex, st, pid) && exists z :: z in zs && z.pwsid == pid && z.zipcode == zc)
  {
    var rs := Records(samples);
    var agg := AggregateAll(rs);
    AggregateProjection(rs, st, pid);
    SystemIdentity(SystemRows(rs, st, pid));
    ZipCodesOfSystem(agg.stateData, agg.pwsIndex, ZipLines(zipLines), st, pid);
  }
}
