/** The tab-delimited extracts as both build scripts read them: a line is split on tabs
    and its columns are taken by position. */
module Extracts {
  import opened Js

  /** A line made of tab-free columns. */
  predicate WellFormed(columns: seq<string>) {
    |columns| >= 1 && forall k :: 0 <= k < |columns| ==> TAB !in columns[k]
  }

  function Line(columns: seq<string>): string {
    Join(columns, [TAB])
  }

  /** `line.split('\t')[i]` on a line written from its columns gives column `i` back, and
      `undefined` past the last column. */
  lemma ColumnAt(columns: seq<string>, i: nat)
    requires WellFormed(columns)
    ensures At(Split(Line(columns), TAB), i) == if i < |columns| then Some(columns[i]) else None
  {
    SplitJoin(columns, TAB);
  }

  /** A line of the ZIP extract, `const [pwsid, zipcode] = line.split('\t')`. */
  datatype ZipLine = ZipLine(pwsid: string, zipcode: Field)

  function ZipLineOf(line: string): ZipLine {
    var values := Split(line, TAB);
    ZipLine(values[0], At(values, 1))
  }

  /** The ZIP lines of a file; its header line is never read as a pair. */
  function ZipLines(lines: seq<string>): (zs: seq<ZipLine>)
    ensures |zs| == |DataLines(lines)|
  {
    var data := DataLines(lines);
    seq(|data|, k requires 0 <= k < |data| => ZipLineOf(data[k]))
  }

  lemma ZipLinesSnoc(lines: seq<string>, i: nat)
    requires 1 <= i < |lines|
    ensures ZipLines(lines[..i + 1]) == ZipLines(lines[..i]) + [ZipLineOf(lines[i])]
  {
  }

  /** A two-column ZIP line gives back its pwsid and ZIP code. */
  lemma ZipLineColumns(pwsid: string, zipcode: string)
    requires TAB !in pwsid && TAB !in zipcode
    ensures ZipLineOf(Line([pwsid, zipcode])) == ZipLine(pwsid, Some(zipcode))
  {
    var columns := [pwsid, zipcode];
    SplitJoin(columns, TAB);
    ColumnAt(columns, 1);
  }
}
