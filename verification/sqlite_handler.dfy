/** The SQLite-backed search endpoint. It turns the query parameters into a WHERE clause
    over `pws_summary`, reads the page of systems in name order, and gives each one the
    contaminant groups read from `water_quality`. The tables are those the conversion
    script writes; fetching and opening the database file is not modelled. */
module SqliteHandler {
  import opened Js
  import opened Seqs
  import opened Readings
  import opened Sorting
  import opened Extracts
  import opened SqliteLoader
  import opened Query
  import B = JsonApiBuilder

  // ---------------------------------------------------------------------------
  // the WHERE clause (lines 47-83)

  /** The four conditions a clause can hold, in the order they are tested. */
  datatype Column = PwsidIs | ServesZip | NameLike | StateIs

  /** One condition and the value bound to its placeholder. */
  datatype Filter = Filter(column: Column, value: string)

  function Rank(c: Column): nat {
    match c
    case PwsidIs => 0
    case ServesZip => 1
    case NameLike => 2
    case StateIs => 3
  }

  /** The SQL text of each condition, with one `?` placeholder each. */
  function ConditionText(c: Column): string {
    match c
    case PwsidIs => "s.pwsid = ?"
    case ServesZip =>
      "EXISTS (\n"
      + "      SELECT 1 FROM pws_zipcodes z \n"
      + "      WHERE z.pwsid = s.pwsid AND z.zipcode = ?\n"
      + "    )"
    case NameLike => "LOWER(s.pws_name) LIKE ?"
    case StateIs => "s.state = ?"
  }

  /** The parameter a condition tests. */
  function Param(p: Params, c: Column): Field {
    match c
    case PwsidIs => p.pwsid
    case ServesZip => p.zipcode
    case NameLike => p.pwsName
    case StateIs => p.state
  }

  /** The value bound for a parameter: pwsid and state upper-cased, the name lower-cased
      and wrapped in `%`, the ZIP code as given. */
  function Bound(c: Column, v: string): string {
    match c
    case PwsidIs => ToUpperCase(v)
    case ServesZip => v
    case NameLike => "%" + ToLowerCase(v) + "%"
    case StateIs => ToUpperCase(v)
  }

  function FilterIf(p: Params, c: Column): (fs: seq<Filter>)
    ensures |fs| <= 1
    ensures forall f :: f in fs <==> f.column == c && Truthy(Param(p, c)) && f.value == Bound(c, Param(p, c).value)
  {
    if Truthy(Param(p, c)) then [Filter(c, Bound(c, Param(p, c).value))] else []
  }

  /** The conditions of a request, in the fixed order; `city` adds none. */
  function Filters(p: Params): (fs: seq<Filter>)
    ensures forall i, j :: 0 <= i < j < |fs| ==> Rank(fs[i].column) < Rank(fs[j].column)
    ensures forall f :: f in fs <==> Truthy(Param(p, f.column)) && f.value == Bound(f.column, Param(p, f.column).value)
    ensures |fs| == 0 <==> !HasFilter(p)
  {
    FilterIf(p, PwsidIs) + FilterIf(p, ServesZip) + FilterIf(p, NameLike) + FilterIf(p, StateIs)
  }

  function Texts(fs: seq<Filter>): (texts: seq<string>)
    ensures |texts| == |fs|
    ensures forall i :: 0 <= i < |fs| ==> texts[i] == ConditionText(fs[i].column)
  {
    seq(|fs|, i requires 0 <= i < |fs| => ConditionText(fs[i].column))
  }

  function Values(fs: seq<Filter>): (values: seq<string>)
    ensures |values| == |fs|
    ensures forall i :: 0 <= i < |fs| ==> values[i] == fs[i].value
  {
    seq(|fs|, i requires 0 <= i < |fs| => fs[i].value)
  }

  /** `WHERE c1 AND c2 ...`, or nothing at all. */
  function WhereText(fs: seq<Filter>): string {
    if |fs| == 0 then "" else "WHERE " + Join(Texts(fs), " AND ")
  }

  lemma {:induction false} CountCharAbsent(s: string, c: char)
    requires c !in s
    ensures CountChar(s, c) == 0
    decreases |s|
  {
    if |s| > 0 {
      assert s == [s[0]] + s[1..];
      CountCharAbsent(s[1..], c);
    }
  }

  /** `before + "?" + after` holds one placeholder when its two pieces hold none. */
  lemma OnePlaceholder(before: string, after: string)
    requires '?' !in before && '?' !in after
    ensures CountChar(before + "?" + after, '?') == 1
  {
    CountCharAbsent(before, '?');
    CountCharAbsent(after, '?');
    CountCharConcat(before, "?", '?');
    CountCharConcat(before + "?", after, '?');
  }

  lemma ZipConditionLines(line1: string, line2: string, line4: string)
    requires line1 == "EXISTS (\n" && line2 == "      SELECT 1 FROM pws_zipcodes z \n" && line4 == "    )"
    ensures CountChar(line1, '?') == 0 && CountChar(line2, '?') == 0 && CountChar(line4, '?') == 0
  {
    CountCharAbsent(line1, '?');
    CountCharAbsent(line2, '?');
    CountCharAbsent(line4, '?');
  }

  lemma ZipConditionTest(line3: string)
    requires line3 == "      WHERE z.pwsid = s.pwsid AND z.zipcode = ?\n"
    ensures CountChar(line3, '?') == 1
  {
    var before, after := "      WHERE z.pwsid = s.pwsid ", "AND z.zipcode = ";
    assert line3 == before + after + "?" + "\n";
    OnePlaceholder(before + after, "\n");
  }

  lemma OneOfFour(a: string, b: string, c: string, d: string)
    requires CountChar(a, '?') == 0 && CountChar(b, '?') == 0 && CountChar(c, '?') == 1 && CountChar(d, '?') == 0
    ensures CountChar(a + b + c + d, '?') == 1
  {
    CountCharConcat(a, b, '?');
    CountCharConcat(a + b, c, '?');
    CountCharConcat(a + b + c, d, '?');
  }

  lemma ZipConditionPlaceholder()
    ensures CountChar(ConditionText(ServesZip), '?') == 1
  {
    var line1, line2 := "EXISTS (\n", "      SELECT 1 FROM pws_zipcodes z \n";
    var line3, line4 := "      WHERE z.pwsid = s.pwsid AND z.zipcode = ?\n", "    )";
    ZipConditionLines(line1, line2, line4);
    ZipConditionTest(line3);
    OneOfFour(line1, line2, line3, line4);
  }

  lemma ConditionPlaceholder(c: Column)
    ensures CountChar(ConditionText(c), '?') == 1
  {
    match c
    case PwsidIs =>
      assert ConditionText(c) == "s.pwsid = " + "?" + "";
      OnePlaceholder("s.pwsid = ", "");
    case ServesZip =>
      ZipConditionPlaceholder();
    case NameLike =>
      assert ConditionText(c) == "LOWER(s.pws_name) LIKE " + "?" + "";
      OnePlaceholder("LOWER(s.pws_name) LIKE ", "");
    case StateIs =>
      assert ConditionText(c) == "s.state = " + "?" + "";
      OnePlaceholder("s.state = ", "");
  }

  /** The clause holds one placeholder per bound value, so the values line up with the
      placeholders in order. */
  lemma PlaceholdersMatchValues(fs: seq<Filter>)
    ensures CountChar(WhereText(fs), '?') == |Values(fs)|
  {
    if |fs| > 0 {
      forall k | 0 <= k < |fs| ensures CountChar(Texts(fs)[k], '?') == 1 {
        ConditionPlaceholder(fs[k].column);
      }
      assert CountChar(" AND ", '?') == 0;
      CountCharJoin(Texts(fs), " AND ", '?');
      CountCharConcat("WHERE ", Join(Texts(fs), " AND "), '?');
      assert CountChar("WHERE ", '?') == 0;
    }
  }

  lemma AppendFilter(fs: seq<Filter>, f: Filter)
    ensures Texts(fs + [f]) == Texts(fs) + [ConditionText(f.column)]
    ensures Values(fs + [f]) == Values(fs) + [f.value]
  {
  }

  /** One `if (params.x) { conditions.push(...); values.push(...) }` block of
      `buildWhereClause`: a truthy parameter pushes its condition and its bound value. */
  method PushCondition(p: Params, c: Column, conditions: seq<string>, values: seq<string>, ghost filters: seq<Filter>)
    returns (newConditions: seq<string>, newValues: seq<string>)
    requires conditions == Texts(filters) && values == Values(filters)
    ensures newConditions == Texts(filters + FilterIf(p, c)) && newValues == Values(filters + FilterIf(p, c))
  {
    newConditions, newValues := conditions, values;
    if Truthy(Param(p, c)) {
      var f := Filter(c, Bound(c, Param(p, c).value));
      AppendFilter(filters, f);
      newConditions := newConditions + [ConditionText(c)];
      newValues := newValues + [f.value];
    } else {
      assert filters + FilterIf(p, c) == filters;
    }
  }

  /** `buildWhereClause`: the blocks for pwsid, zipcode, pws_name and state, in that order;
      `city` pushes nothing. */
  method BuildWhereClause(p: Params) returns (where: string, values: seq<string>)
    ensures where == WhereText(Filters(p)) && values == Values(Filters(p))
    ensures where == "" <==> !HasFilter(p)
    ensures CountChar(where, '?') == |values|
  {
    var conditions: seq<string> := [];
    values := [];
    ghost var filters: seq<Filter> := [];
    conditions, values := PushCondition(p, PwsidIs, conditions, values, filters);
    filters := filters + FilterIf(p, PwsidIs);
    conditions, values := PushCondition(p, ServesZip, conditions, values, filters);
    filters := filters + FilterIf(p, ServesZip);
    conditions, values := PushCondition(p, NameLike, conditions, values, filters);
    filters := filters + FilterIf(p, NameLike);
    conditions, values := PushCondition(p, StateIs, conditions, values, filters);
    filters := filters + FilterIf(p, StateIs);
    assert filters == Filters(p);
    where := if |conditions| > 0 then "WHERE " + Join(conditions, " AND ") else "";
    assert |where| > 0 <==> |filters| > 0;
    PlaceholdersMatchValues(filters);
  }

  // ---------------------------------------------------------------------------
  // LIKE (line 65)

  /** SQLite's own case folding, used by `LOWER()` and by `LIKE`: ASCII letters only. */
  function AsciiLower(c: char): char {
    if 'A' <= c <= 'Z' then (c as int + 32) as char else c
  }

  /** `LOWER(s.pws_name)`: keeps the length, leaves no ASCII capital, and changes only
      ASCII capitals; `É` stays `É`, unlike JavaScript's `toLowerCase`. */
  function SqlLower(s: string): (r: string)
    ensures |r| == |s|
    ensures forall i :: 0 <= i < |r| ==> AsciiLower(r[i]) == r[i]
    ensures forall i :: 0 <= i < |r| && r[i] != s[i] ==> 'A' <= s[i] <= 'Z' && r[i] == LowerChar(s[i])
  {
    seq(|s|, i requires 0 <= i < |s| => AsciiLower(s[i]))
  }

  /** SQLite's `LIKE` without an ESCAPE clause: `%` matches any run of characters, `_`
      exactly one, and any other character itself up to ASCII case. */
  predicate Like(s: string, pattern: string)
    decreases |pattern|, |s|
  {
    if |pattern| == 0 then |s| == 0
    else if pattern[0] == '%' then Like(s, pattern[1..]) || (|s| > 0 && Like(s[1..], pattern))
    else |s| > 0 && (pattern[0] == '_' || AsciiLower(pattern[0]) == AsciiLower(s[0])) && Like(s[1..], pattern[1..])
  }

  /** A text without LIKE wildcards. */
  predicate Plain(w: string) {
    '%' !in w && '_' !in w
  }

  /** `s` starts with `w` up to ASCII case. */
  predicate CaseStartsWith(s: string, w: string) {
    |w| <= |s| && forall k :: 0 <= k < |w| ==> AsciiLower(s[k]) == AsciiLower(w[k])
  }

  lemma {:induction false} LikeAnyRun(s: string)
    ensures Like(s, "%")
    decreases |s|
  {
    assert "%"[1..] == "";
    if |s| > 0 {
      LikeAnyRun(s[1..]);
    }
  }

  /** A plain text followed by `%` matches the strings that start with it. */
  lemma {:induction false} LikePrefix(s: string, w: string)
    requires Plain(w)
    ensures Like(s, w + "%") <==> CaseStartsWith(s, w)
    decreases |w|
  {
    if |w| == 0 {
      assert w + "%" == "%";
      LikeAnyRun(s);
    } else {
      assert (w + "%")[0] == w[0] && (w + "%")[1..] == w[1..] + "%";
      assert w == [w[0]] + w[1..];
      if |s| > 0 {
        LikePrefix(s[1..], w[1..]);
        if CaseStartsWith(s, w) {
          assert CaseStartsWith(s[1..], w[1..]) by {
            forall k | 0 <= k < |w[1..]| ensures AsciiLower(s[1..][k]) == AsciiLower(w[1..][k]) {
              assert s[1..][k] == s[k + 1] && w[1..][k] == w[k + 1];
            }
          }
        }
        if AsciiLower(w[0]) == AsciiLower(s[0]) && CaseStartsWith(s[1..], w[1..]) {
          assert CaseStartsWith(s, w) by {
            forall k | 0 < k < |w| ensures AsciiLower(s[k]) == AsciiLower(w[k]) {
              assert s[1..][k - 1] == s[k] && w[1..][k - 1] == w[k];
            }
          }
        }
      }
    }
  }

  /** A leading `%` lets the rest of the pattern match any suffix. */
  lemma {:induction false} LikeLeadingPercent(s: string, q: string)
    ensures Like(s, "%" + q) <==> exists i :: 0 <= i <= |s| && Like(s[i..], q)
    decreases |s|
  {
    assert ("%" + q)[0] == '%' && ("%" + q)[1..] == q;
    assert s[0..] == s;
    if |s| > 0 {
      LikeLeadingPercent(s[1..], q);
      if Like(s[1..], "%" + q) {
        var i :| 0 <= i <= |s[1..]| && Like(s[1..][i..], q);
        assert s[1..][i..] == s[i + 1..];
      }
      if exists i :: 0 <= i <= |s| && Like(s[i..], q) {
        var i :| 0 <= i <= |s| && Like(s[i..], q);
        if i > 0 {
          assert s[1..][i - 1..] == s[i..];
        }
      }
    }
  }

  /** The name condition of the SQLite search selects a name exactly when the name, as
      SQLite lowers it, contains the parameter as JavaScript lowers it, as long as the
      parameter holds no `%` or `_`. */
  lemma NameConditionIsSubstringSearch(name: string, param: string)
    requires Plain(param)
    ensures Like(SqlLower(name), Bound(NameLike, param)) <==> Includes(SqlLower(name), ToLowerCase(param))
  {
    var s, w := SqlLower(name), ToLowerCase(param);
    assert Plain(w) by {
      forall k | 0 <= k < |w| ensures w[k] != '%' && w[k] != '_' {
        assert param[k] in param;
      }
    }
    assert forall k :: 0 <= k < |w| ==> AsciiLower(w[k]) == w[k];
    assert Bound(NameLike, param) == "%" + (w + "%");
    LikeLeadingPercent(s, w + "%");
    forall i | 0 <= i <= |s| ensures Like(s[i..], w + "%") <==> OccursAt(s, w, i) {
      LikePrefix(s[i..], w);
      if CaseStartsWith(s[i..], w) {
        assert s[i..i + |w|] == w by {
          forall k | 0 <= k < |w| ensures s[i..i + |w|][k] == w[k] {
            assert s[i..][k] == s[i + k];
          }
        }
      }
      if OccursAt(s, w, i) {
        forall k | 0 <= k < |w| ensures AsciiLower(s[i..][k]) == AsciiLower(w[k]) {
          assert s[i..][k] == s[i..i + |w|][k];
        }
      }
    }
  }

  /** For a name with no capital outside ASCII, the SQLite name condition selects it
      exactly when the JSON search's `toLowerCase().includes(...)` test does. */
  lemma NameConditionAgreesWithJsonSearch(name: string, param: string)
    requires Plain(param)
    requires forall i :: 0 <= i < |name| ==> LowerChar(name[i]) == AsciiLower(name[i])
    ensures Like(SqlLower(name), Bound(NameLike, param)) <==> Includes(ToLowerCase(name), ToLowerCase(param))
  {
    assert SqlLower(name) == ToLowerCase(name);
    NameConditionIsSubstringSearch(name, param);
  }

  /** With a capital outside ASCII the two searches part: `École` finds "ÉCOLE" in the
      JSON search, but SQLite lowers the name to "École" and the pattern is `%école%`. */
  lemma NonAsciiCapitalsDiverge()
    ensures !Like(SqlLower("\U{C9}COLE"), Bound(NameLike, "\U{C9}cole"))
    ensures Includes(ToLowerCase("\U{C9}COLE"), ToLowerCase("\U{C9}cole"))
  {
    var name, param := "\U{C9}COLE", "\U{C9}cole";
    assert SqlLower(name) == "\U{C9}cole";
    assert ToLowerCase(name) == "\U{E9}cole" == ToLowerCase(param);
    NameConditionIsSubstringSearch(name, param);
    assert "\U{C9}cole"[0..] == "\U{C9}cole";
    assert !OccursAt("\U{C9}cole", "\U{E9}cole", 0);
    assert Includes("\U{E9}cole", "\U{E9}cole") by {
      assert "\U{E9}cole"[0..5] == "\U{E9}cole";
      assert OccursAt("\U{E9}cole", "\U{E9}cole", 0);
    }
  }

  /** An `_` in the name parameter is not escaped and matches any character: `a_c`
      selects the name "ABC", which does not contain the text `a_c`. */
  lemma UnderscoreIsWildcard()
    ensures Like(SqlLower("ABC"), Bound(NameLike, "a_c"))
    ensures !Includes(ToLowerCase("ABC"), ToLowerCase("a_c"))
  {
    var s := SqlLower("ABC");
    assert s == "abc" == ToLowerCase("ABC");
    assert ToLowerCase("a_c") == "a_c";
    assert Bound(NameLike, "a_c") == "%" + ("a_c" + "%");
    assert Like("abc", "a_c" + "%") by {
      assert ("a_c" + "%")[1..] == "_c%" && "_c%"[1..] == "c%" && "c%"[1..] == "%";
      LikeAnyRun("");
    }
    LikeLeadingPercent(s, "a_c" + "%");
    assert s[0..] == s;
    assert !OccursAt(s, "a_c", 0);
  }

  // ---------------------------------------------------------------------------
  // the systems query (lines 90-118) and the count query (lines 177-183)

  /** The three tables the handler reads, in table order. */
  datatype Database = Database(summary: seq<SummaryRow>, wq: seq<WqRow>, zips: seq<ZipLine>)

  /** A summary row meets one condition. `LOWER(NULL) LIKE ?` is NULL and selects nothing,
      and so does `s.state = ?` on a NULL state. */
  predicate Holds(db: Database, s: SummaryRow, f: Filter) {
    match f.column
    case PwsidIs => s.pwsid == f.value
    case ServesZip => exists z :: z in db.zips && z.pwsid == s.pwsid && z.zipcode == Some(f.value)
    case NameLike => s.pwsName.Some? && Like(SqlLower(s.pwsName.value), f.value)
    case StateIs => s.state == Some(f.value)
  }

  /** The conditions joined by `AND`. */
  predicate Satisfies(db: Database, s: SummaryRow, fs: seq<Filter>) {
    forall i :: 0 <= i < |fs| ==> Holds(db, s, fs[i])
  }

  /** The rows of `rows` that the clause selects, in table order. */
  function Selecting(db: Database, rows: seq<SummaryRow>, fs: seq<Filter>): (selected: seq<SummaryRow>)
    ensures |selected| <= |rows|
    ensures forall s :: s in selected <==> s in rows && Satisfies(db, s, fs)
  {
    if |rows| == 0 then []
    else
      var init, last := rows[..|rows| - 1], rows[|rows| - 1];
      assert rows == init + [last];
      Selecting(db, init, fs) + (if Satisfies(db, last, fs) then [last] else [])
  }

  function MatchingRows(db: Database, fs: seq<Filter>): seq<SummaryRow> {
    Selecting(db, db.summary, fs)
  }

  /** The error SQLite raises when `LIMIT ? OFFSET ?` is bound to something that is not an
      integer: NaN, which sql.js binds as NULL, or a REAL of 2^63 or more, which SQLite
      cannot turn into a 64-bit integer. */
  datatype QueryError = DatatypeMismatch

  /** `parseInt` gives a double, and sql.js binds a double outside the 32-bit range as
      REAL. Doubles in [2^62, 2^63) are 1024 apart, so the integers from 2^63 - 512 on
      round (half to even) to 2^63 or more; below that they stay below 2^63, and SQLite
      takes the REAL back as an integer. */
  const FIRST_OUT_OF_RANGE: nat := 0x7FFF_FFFF_FFFF_FE00

  /** A parsed limit or offset that `LIMIT ? OFFSET ?` accepts. */
  predicate IntegerBound(b: Option<nat>) {
    b.Some? && b.value < FIRST_OUT_OF_RANGE
  }

  /** The rows of the systems query: the selected rows by name, NULL names first, then
      the page `LIMIT limit OFFSET offset`. */
  function SystemsPage(db: Database, p: Params): (r: Result<seq<SummaryRow>, QueryError>)
    ensures r.Err? <==> !IntegerBound(p.limit) || !IntegerBound(p.offset)
  {
    if !IntegerBound(p.limit) || !IntegerBound(p.offset) then Err(DatatypeMismatch)
    else Ok(Page(SortBy(MatchingRows(db, Filters(p)), B.PwsName), p.offset, p.limit))
  }

  lemma PageFrom<T>(xs: seq<T>, offset: Option<nat>, limit: Option<nat>, x: T)
    requires x in Page(xs, offset, limit)
    ensures x in xs
  {
    var page := Page(xs, offset, limit);
    var k :| 0 <= k < |page| && page[k] == x;
    assert xs[offset.value + k] == x;
  }

  lemma PageSorted<T>(xs: seq<T>, offset: Option<nat>, limit: Option<nat>, key: T -> Field)
    requires SortedBy(xs, key)
    ensures SortedBy(Page(xs, offset, limit), key)
  {
    var page := Page(xs, offset, limit);
    forall i, j | 0 <= i < j < |page| ensures NullsFirstLe(key(page[i]), key(page[j])) {
      assert page[i] == xs[offset.value + i] && page[j] == xs[offset.value + j];
    }
  }

  lemma PageWhole<T>(xs: seq<T>, limit: nat)
    requires limit >= |xs|
    ensures Page(xs, Some(0), Some(limit)) == xs
  {
  }

  /** The page holds selected rows only, in name order. */
  lemma SystemsPageRows(db: Database, p: Params)
    requires IntegerBound(p.limit) && IntegerBound(p.offset)
    ensures var page := SystemsPage(db, p).value;
      && (forall s :: s in page ==> s in db.summary && Satisfies(db, s, Filters(p)))
      && SortedBy(page, B.PwsName)
  {
    var matching := MatchingRows(db, Filters(p));
    var sorted := SortBy(matching, B.PwsName);
    var page := SystemsPage(db, p).value;
    assert page == Page(sorted, p.offset, p.limit);
    forall s | s in page ensures s in db.summary && Satisfies(db, s, Filters(p)) {
      PageFrom(sorted, p.offset, p.limit, s);
      assert s in multiset(sorted);
      assert s in matching;
    }
    PageSorted(sorted, p.offset, p.limit, B.PwsName);
  }

  /** The page holds as many rows as the bounds allow; with offset 0 and a limit at least
      the count, it holds every selected row. */
  lemma SystemsPageSize(db: Database, p: Params)
    requires IntegerBound(p.limit) && IntegerBound(p.offset)
    ensures var page := SystemsPage(db, p).value; var matching := MatchingRows(db, Filters(p));
      && |page| == (if p.offset.value >= |matching| then 0 else Min(p.limit.value, |matching| - p.offset.value))
      && (p.offset.value == 0 && p.limit.value >= |matching| ==> forall s :: s in matching ==> s in page)
  {
    var matching := MatchingRows(db, Filters(p));
    var sorted := SortBy(matching, B.PwsName);
    var page := SystemsPage(db, p).value;
    assert page == Page(sorted, p.offset, p.limit);
    if p.offset.value == 0 && p.limit.value >= |matching| {
      PageWhole(sorted, p.limit.value);
      forall s | s in matching ensures s in page {
        assert s in multiset(matching);
      }
    }
  }

  /** The page holds selected rows only, in name order, as many as the bounds allow; with
      offset 0 and a limit at least the count, it holds every selected row. */
  lemma SystemsPageMeaning(db: Database, p: Params)
    requires IntegerBound(p.limit) && IntegerBound(p.offset)
    ensures var page := SystemsPage(db, p).value; var matching := MatchingRows(db, Filters(p));
      && (forall s :: s in page ==> s in db.summary && Satisfies(db, s, Filters(p)))
      && SortedBy(page, B.PwsName)
      && |page| == (if p.offset.value >= |matching| then 0 else Min(p.limit.value, |matching| - p.offset.value))
      && (p.offset.value == 0 && p.limit.value >= |matching| ==> forall s :: s in matching ==> s in page)
  {
    SystemsPageRows(db, p);
    SystemsPageSize(db, p);
  }

  // ---------------------------------------------------------------------------
  // the contaminant query (lines 123-145)

  /** The key of `GROUP BY contaminant, units, mrl`; NULLs group together. */
  datatype ReadingKey = ReadingKey(contaminant: Field, units: Field, mrl: Option<real>)

  function ReadingKeyOf(r: WqRow): ReadingKey {
    ReadingKey(r.contaminant, r.units, r.mrl)
  }

  /** The groups, once each, in order of their first row. */
  function ReadingKeys(rows: seq<WqRow>): (keys: seq<ReadingKey>)
    ensures NoDup(keys)
    ensures forall k :: k in keys <==> exists r :: r in rows && ReadingKeyOf(r) == k
  {
    if |rows| == 0 then []
    else
      var init, last := rows[..|rows| - 1], rows[|rows| - 1];
      assert rows == init + [last];
      var prev := ReadingKeys(init);
      if ReadingKeyOf(last) in prev then prev else prev + [ReadingKeyOf(last)]
  }

  /** The rows of one group, in table order. */
  function ReadingGroup(rows: seq<WqRow>, k: ReadingKey): (group: seq<WqRow>)
    ensures forall r :: r in group <==> r in rows && ReadingKeyOf(r) == k
    ensures |group| > 0 <==> exists r :: r in rows && ReadingKeyOf(r) == k
  {
    if |rows| == 0 then []
    else
      var init, last := rows[..|rows| - 1], rows[|rows| - 1];
      assert rows == init + [last];
      ReadingGroup(init, k) + (if ReadingKeyOf(last) == k then [last] else [])
  }

  /** A group holds every row with its key as often as the rows do, so `COUNT(*)` counts
      each row once. */
  lemma {:induction false} ReadingGroupCounts(rows: seq<WqRow>, k: ReadingKey, r: WqRow)
    ensures multiset(ReadingGroup(rows, k))[r] == if ReadingKeyOf(r) == k then multiset(rows)[r] else 0
    decreases |rows|
  {
    if |rows| > 0 {
      var init, last := rows[..|rows| - 1], rows[|rows| - 1];
      assert rows == init + [last];
      ReadingGroupCounts(init, k, r);
    }
  }

  /** The accumulator of `MAX(collection_date)` and the row its bare columns come from.
      With two `MAX` aggregates in the query, SQLite loads the bare columns on the steps of
      the last one, so `result_sign` comes from the row with the latest date. */
  datatype LatestState = LatestState(best: Field, bare: WqRow)

  function LatestStep(acc: LatestState, r: WqRow): LatestState {
    if r.collectionDate.None? then
      if acc.best.None? then LatestState(None, r) else acc
    else if acc.best.None? || Less(acc.best.value, r.collectionDate.value) then LatestState(r.collectionDate, r)
    else acc
  }

  function LatestFold(rows: seq<WqRow>): LatestState
    requires |rows| > 0
  {
    if |rows| == 1 then LatestState(rows[0].collectionDate, rows[0])
    else LatestStep(LatestFold(rows[..|rows| - 1]), rows[|rows| - 1])
  }

  /** `latest_test` is the text maximum of the dates, and the bare columns come from a row
      of the group carrying that date. */
  lemma {:induction false} LatestFoldIsMax(rows: seq<WqRow>)
    requires |rows| > 0
    ensures LatestFold(rows).best == MaxText(Dates(rows))
    ensures LatestFold(rows).bare in rows
    ensures LatestFold(rows).bare.collectionDate == LatestFold(rows).best
    decreases |rows|
  {
    var init := rows[..|rows| - 1];
    assert Dates(rows)[..|rows| - 1] == Dates(init);
    if |rows| > 1 {
      LatestFoldIsMax(init);
      assert rows == init + [rows[|rows| - 1]];
    } else {
      assert Dates(rows)[..0] == [];
    }
  }

  /** One result row of the contaminant query. */
  datatype GroupRow = GroupRow(
    contaminant: Field, maxValue: Option<real>, resultSign: Field, units: Field, mrl: Option<real>,
    testCount: nat, latestTest: Field)

  function GroupRowOf(group: seq<WqRow>): GroupRow
    requires |group| > 0
  {
    var latest := LatestFold(group);
    GroupRow(latest.bare.contaminant, B.MaxFold(group).best, latest.bare.resultSign, latest.bare.units,
      latest.bare.mrl, |group|, latest.best)
  }

  function GroupResult(rows: seq<WqRow>, k: ReadingKey): GroupRow
    requires k in ReadingKeys(rows)
  {
    GroupRowOf(ReadingGroup(rows, k))
  }

  /** A group's row carries its key, the number of its rows, the maximum of its results
      and of its dates, and the sign of a row with the latest date. */
  lemma GroupResultMeaning(rows: seq<WqRow>, k: ReadingKey)
    requires k in ReadingKeys(rows)
    ensures var g := GroupResult(rows, k); var group := ReadingGroup(rows, k);
      && g.contaminant == k.contaminant && g.units == k.units && g.mrl == k.mrl
      && g.testCount == |group| > 0
      && g.latestTest == MaxText(Dates(group))
      && (exists r :: r in group && r.resultSign == g.resultSign && r.collectionDate == g.latestTest)
      && (g.maxValue.None? <==> forall r :: r in group ==> r.resultValue.None?)
      && (g.maxValue.Some? ==> forall r :: r in group && r.resultValue.Some? ==> r.resultValue.value <= g.maxValue.value)
      && (g.maxValue.Some? ==> exists r :: r in group && r.resultValue == g.maxValue)
  {
    var group := ReadingGroup(rows, k);
    LatestFoldIsMax(group);
    B.MaxFoldIsMax(group);
    assert LatestFold(group).bare in group;
  }

  function ContaminantOf(g: GroupRow): Field {
    g.contaminant
  }

  /** The group rows in order of the groups' first rows. */
  function GroupResults(rows: seq<WqRow>): (results: seq<GroupRow>)
    ensures |results| == |ReadingKeys(rows)|
    ensures forall i :: 0 <= i < |results| ==> results[i] == GroupResult(rows, ReadingKeys(rows)[i])
  {
    var keys := ReadingKeys(rows);
    seq(|keys|, i requires 0 <= i < |keys| => assert keys[i] in keys; GroupResult(rows, keys[i]))
  }

  /** The result of the contaminant query for one pwsid: the group rows ordered by
      contaminant, NULL first. */
  function ContaminantGroups(wq: seq<WqRow>, pwsid: string): (groups: seq<GroupRow>)
    ensures SortedBy(groups, ContaminantOf)
    ensures multiset(groups) == multiset(GroupResults(B.RowsOf(wq, pwsid)))
  {
    SortBy(GroupResults(B.RowsOf(wq, pwsid)), ContaminantOf)
  }

  lemma GroupResultsMembers(rows: seq<WqRow>, g: GroupRow)
    ensures g in GroupResults(rows) <==> exists k :: k in ReadingKeys(rows) && g == GroupResult(rows, k)
  {
    var keys := ReadingKeys(rows);
    var results := GroupResults(rows);
    if g in results {
      var i :| 0 <= i < |results| && results[i] == g;
      assert keys[i] in keys;
    }
    if exists k :: k in keys && g == GroupResult(rows, k) {
      var k :| k in keys && g == GroupResult(rows, k);
      var i :| 0 <= i < |keys| && keys[i] == k;
      assert results[i] == g;
    }
  }

  /** The query returns one row per group of the pwsid's rows, and no other. */
  lemma ContaminantGroupsMembers(wq: seq<WqRow>, pwsid: string, g: GroupRow)
    ensures var rows := B.RowsOf(wq, pwsid);
      g in ContaminantGroups(wq, pwsid) <==> exists k :: k in ReadingKeys(rows) && g == GroupResult(rows, k)
  {
    var rows := B.RowsOf(wq, pwsid);
    var groups := ContaminantGroups(wq, pwsid);
    assert g in groups <==> g in multiset(groups);
    assert g in GroupResults(rows) <==> g in multiset(GroupResults(rows));
    GroupResultsMembers(rows, g);
  }

  // ---------------------------------------------------------------------------
  // formatting the contaminants (lines 147-158)

  /** `{ value, unit, detected, mrl, test_count, latest_test }`. */
  datatype Reading = Reading(value: Display, unit: Field, detected: bool, mrl: Option<real>, testCount: nat, latestTest: Field)

  function ReadingOf(g: GroupRow): (c: Reading)
    ensures c.detected <==> g.resultSign == Some("=")
    ensures c.value.LessThan? <==> g.resultSign == Some("<")
    ensures c.value.LessThan? ==> c.value.mrl == g.mrl
    ensures !c.value.LessThan? ==> c.value == Raw(g.maxValue)
    ensures c.unit == g.units && c.mrl == g.mrl && c.testCount == g.testCount && c.latestTest == g.latestTest
  {
    Reading(Shown(g.resultSign, g.maxValue, g.mrl), g.units, Detected(g.resultSign), g.mrl, g.testCount, g.latestTest)
  }

  /** `contaminantData` after the loop: each group writes its contaminant's key, so a later
      group of the same contaminant overwrites an earlier one. */
  function ReadingMap(groups: seq<GroupRow>): map<string, Reading> {
    if |groups| == 0 then map[]
    else ReadingMap(groups[..|groups| - 1])[B.NullKey(groups[|groups| - 1].contaminant) := ReadingOf(groups[|groups| - 1])]
  }

  /** The map has a key for every group's contaminant and no other. */
  lemma {:induction false} ReadingMapKeys(groups: seq<GroupRow>)
    ensures ReadingMap(groups).Keys == set g | g in groups :: B.NullKey(g.contaminant)
    decreases |groups|
  {
    if |groups| > 0 {
      var init := groups[..|groups| - 1];
      assert groups == init + [groups[|groups| - 1]];
      ReadingMapKeys(init);
    }
  }

  /** Under each key sits the last group with that key. */
  lemma {:induction false} ReadingMapLastWins(groups: seq<GroupRow>, i: nat)
    requires i < |groups|
    requires forall j :: i < j < |groups| ==> B.NullKey(groups[j].contaminant) != B.NullKey(groups[i].contaminant)
    ensures B.NullKey(groups[i].contaminant) in ReadingMap(groups)
    ensures ReadingMap(groups)[B.NullKey(groups[i].contaminant)] == ReadingOf(groups[i])
    decreases |groups|
  {
    if i < |groups| - 1 {
      ReadingMapLastWins(groups[..|groups| - 1], i);
    }
  }

  /** Every entry of the map is the formatted row of some group with that key. */
  lemma {:induction false} ReadingMapFrom(groups: seq<GroupRow>, key: string)
    requires key in ReadingMap(groups)
    ensures exists g :: g in groups && B.NullKey(g.contaminant) == key && ReadingMap(groups)[key] == ReadingOf(g)
    decreases |groups|
  {
    var init, last := groups[..|groups| - 1], groups[|groups| - 1];
    if B.NullKey(last.contaminant) != key {
      ReadingMapFrom(init, key);
      var g :| g in init && B.NullKey(g.contaminant) == key && ReadingMap(init)[key] == ReadingOf(g);
      assert g in groups;
    }
  }

  /** The formatting loop. */
  method FormatReadings(groups: seq<GroupRow>) returns (contaminantData: map<string, Reading>)
    ensures contaminantData == ReadingMap(groups)
  {
    contaminantData := map[];
    for i := 0 to |groups|
      invariant contaminantData == ReadingMap(groups[..i])
    {
      assert groups[..i + 1][..i] == groups[..i];
      contaminantData := contaminantData[B.NullKey(groups[i].contaminant) := ReadingOf(groups[i])];
    }
    assert groups[..|groups|] == groups;
  }

  // ---------------------------------------------------------------------------
  // one system and the whole answer (lines 85-194)

  datatype Totals = Totals(contaminantsDetected: nat, lastTested: Field, totalSamples: nat)

  datatype WaterSystem = WaterSystem(
    pwsid: string, name: Field, state: Field, region: Option<nat>, size: Field, zipCodes: set<Field>,
    contaminants: map<string, Reading>, summary: Totals)

  /** A summary row with its contaminants; the stored `zip_codes` array is read back as
      the set it was built from. */
  function SystemOf(db: Database, s: SummaryRow): (w: WaterSystem)
    ensures w.pwsid == s.pwsid && w.name == s.pwsName && w.state == s.state && w.zipCodes == s.zipCodes
    ensures w.region == s.region && w.size == s.size
    ensures w.summary == Totals(s.contaminantsDetected, s.lastTestDate, s.totalSamples)
    ensures w.contaminants == ReadingMap(ContaminantGroups(db.wq, s.pwsid))
  {
    WaterSystem(s.pwsid, s.pwsName, s.state, s.region, s.size, s.zipCodes,
      ReadingMap(ContaminantGroups(db.wq, s.pwsid)), Totals(s.contaminantsDetected, s.lastTestDate, s.totalSamples))
  }

  datatype Payload = Payload(waterSystems: seq<WaterSystem>, pagination: Pagination)

  /** `getWaterSystems`: the page of systems with their contaminants, and the count of all
      selected rows. */
  function WaterSystems(db: Database, p: Params): Result<Payload, QueryError> {
    match SystemsPage(db, p)
    case Err(e) => Err(e)
    case Ok(page) => Ok(Payload(SystemsOf(db, page), PaginationOf(p, |MatchingRows(db, Filters(p))|)))
  }

  function SystemsOf(db: Database, rows: seq<SummaryRow>): (systems: seq<WaterSystem>)
    ensures |systems| == |rows|
    ensures forall i :: 0 <= i < |rows| ==> systems[i] == SystemOf(db, rows[i])
  {
    seq(|rows|, i requires 0 <= i < |rows| => SystemOf(db, rows[i]))
  }

  /** `w` is the system of a summary row that the request's clause selects. */
  predicate Selected(db: Database, p: Params, w: WaterSystem) {
    exists s :: s in db.summary && Satisfies(db, s, Filters(p)) && w == SystemOf(db, s)
  }

  /** The answer fails exactly on a NaN bound or one of 2^63 - 512 or more; otherwise it holds one system per row of the
      page, counts every selected row, and says whether rows remain past the page. */
  lemma WaterSystemsMeaning(db: Database, p: Params)
    ensures WaterSystems(db, p).Err? <==> !IntegerBound(p.limit) || !IntegerBound(p.offset)
    ensures WaterSystems(db, p).Ok? ==>
      var data := WaterSystems(db, p).value; var matching := MatchingRows(db, Filters(p));
      && data.pagination.total == |matching|
      && (data.pagination.hasMore <==> p.offset.value + |data.waterSystems| < |matching|)
      && (forall w :: w in data.waterSystems ==> Selected(db, p, w))
      && (forall i, j :: 0 <= i < j < |data.waterSystems| ==>
            NullsFirstLe(data.waterSystems[i].name, data.waterSystems[j].name))
  {
    if IntegerBound(p.limit) && IntegerBound(p.offset) {
      var data := WaterSystems(db, p).value;
      var page := SystemsPage(db, p).value;
      SystemsPageMeaning(db, p);
      HasMoreIffResultsRemain(SortBy(MatchingRows(db, Filters(p)), B.PwsName), p.offset.value, p.limit.value);
      forall w | w in data.waterSystems ensures Selected(db, p, w) {
        var i :| 0 <= i < |data.waterSystems| && data.waterSystems[i] == w;
        var s := page[i];
        assert s in page;
        assert s in db.summary && Satisfies(db, s, Filters(p));
      }
      forall i, j | 0 <= i < j < |data.waterSystems|
        ensures NullsFirstLe(data.waterSystems[i].name, data.waterSystems[j].name)
      {
        assert data.waterSystems[i].name == B.PwsName(page[i]);
        assert data.waterSystems[j].name == B.PwsName(page[j]);
      }
    }
  }

  lemma SystemsOfSnoc(db: Database, rows: seq<SummaryRow>, i: nat)
    requires i < |rows|
    ensures SystemsOf(db, rows[..i + 1]) == SystemsOf(db, rows[..i]) + [SystemOf(db, rows[i])]
  {
  }

  /** One turn of the loop: the contaminant query for the system, the formatting loop,
      and the object pushed onto `results`. */
  method DescribeSystem(db: Database, system: SummaryRow) returns (entry: WaterSystem)
    ensures entry == SystemOf(db, system)
  {
    var contaminants := ContaminantGroups(db.wq, system.pwsid);
    var contaminantData := FormatReadings(contaminants);
    entry := WaterSystem(system.pwsid, system.pwsName, system.state, system.region, system.size,
      system.zipCodes, contaminantData, Totals(system.contaminantsDetected, system.lastTestDate, system.totalSamples));
  }

  /** The loop of `getWaterSystems` over the page, one contaminant query per system. */
  method GetWaterSystems(db: Database, p: Params) returns (r: Result<Payload, QueryError>)
    ensures r == WaterSystems(db, p)
  {
    var where, values := BuildWhereClause(p);
    var selected := SystemsPage(db, p);
    if selected.Err? {
      return Err(selected.error);
    }
    var systems := selected.value;
    var results: seq<WaterSystem> := [];
    for i := 0 to |systems|
      invariant results == SystemsOf(db, systems[..i])
    {
      var entry := DescribeSystem(db, systems[i]);
      SystemsOfSnoc(db, systems, i);
      results := results + [entry];
    }
    assert systems[..|systems|] == systems;
    var total := |MatchingRows(db, Filters(p))|;
    r := Ok(Payload(results, Pagination(total, p.limit, p.offset, p.offset.value + p.limit.value < total)));
  }

  // ---------------------------------------------------------------------------
  // the handler (lines 196-237)

  datatype SqlBody =
    | Problem(error: string)
    | Failure(error: string, message: string)
    | Data(payload: Payload)

  datatype SqlResponse = SqlResponse(status: nat, body: SqlBody)

  /** The exception text of a NaN bound. */
  function ErrorMessage(e: QueryError): string {
    match e
    case DatatypeMismatch => "datatype mismatch"
  }

  function SqlRespond(db: Database, query: QueryString): SqlResponse {
    var p := ParseQueryParams(query);
    if !HasFilter(p) then SqlResponse(400, Problem(NO_FILTER))
    else
      match WaterSystems(db, p)
      case Err(e) => SqlResponse(500, Failure("Internal server error", ErrorMessage(e)))
      case Ok(data) => SqlResponse(200, Data(data))
  }

  method Handle(db: Database, query: QueryString) returns (r: SqlResponse)
    ensures r == SqlRespond(db, query)
  {
    var p := ParseQueryParams(query);
    if !HasFilter(p) {
      return SqlResponse(400, Problem(NO_FILTER));
    }
    var data := GetWaterSystems(db, p);
    match data
    case Err(e) =>
      r := SqlResponse(500, Failure("Internal server error", ErrorMessage(e)));
    case Ok(payload) =>
      r := SqlResponse(200, Data(payload));
  }

  /** A request is refused with 400 exactly when none of zipcode, pwsid, pws_name and state
      is given; `city` alone does not count. A request with a filter and a limit or offset
      that is not a number, or is 2^63 - 512 or more, fails with 500; every other request is
      answered with 200. */
  lemma SqlStatus(db: Database, query: QueryString)
    ensures var p := ParseQueryParams(query);
      && (SqlRespond(db, query).status == 400 <==> !HasFilter(p))
      && (SqlRespond(db, query).status == 500 <==> HasFilter(p) && !(IntegerBound(p.limit) && IntegerBound(p.offset)))
      && (SqlRespond(db, query).status == 200 <==> HasFilter(p) && IntegerBound(p.limit) && IntegerBound(p.offset))
  {
    WaterSystemsMeaning(db, ParseQueryParams(query));
  }

  /** Twenty digits or more, without a leading zero, parse to a bound out of range. */
  lemma LongDigitsOutOfRange(t: string)
    requires |t| >= 20 && t[0] != '0' && forall i :: 0 <= i < |t| ==> IsDigit(t[i])
    ensures ParseInt(Some(t)).Some? && !IntegerBound(ParseInt(Some(t)))
  {
    assert DigitRun(t) == |t| && t[..|t|] == t;
    DigitsValueAtLeast(t);
    Pow10Grows(19, |t| - 1);
    assert Pow10(1) == 10;
    assert Pow10(2) == 100;
    assert Pow10(3) == 1000;
    assert Pow10(4) == 10000;
    assert Pow10(5) == 100000;
    assert Pow10(6) == 1000000;
    assert Pow10(7) == 10000000;
    assert Pow10(8) == 100000000;
    assert Pow10(9) == 1000000000;
    assert Pow10(10) == 10000000000;
    assert Pow10(11) == 100000000000;
    assert Pow10(12) == 1000000000000;
    assert Pow10(13) == 10000000000000;
    assert Pow10(14) == 100000000000000;
    assert Pow10(15) == 1000000000000000;
    assert Pow10(16) == 10000000000000000;
    assert Pow10(17) == 100000000000000000;
    assert Pow10(18) == 1000000000000000000;
    assert Pow10(19) == 10000000000000000000;
  }

  /** A limit of twenty digits or more, such as 2^64 = 18446744073709551616, is out of
      SQLite's integer range, and a request with a filter fails with 500. */
  lemma HugeLimitFails(db: Database, t: string)
    requires |t| >= 20 && t[0] != '0' && forall i :: 0 <= i < |t| ==> IsDigit(t[i])
    ensures SqlRespond(db, [("state", "CA"), ("limit", t)]).status == 500
  {
    var query := [("state", "CA"), ("limit", t)];
    assert Get(query, "limit") == Some(t);
    LongDigitsOutOfRange(t);
    SqlStatus(db, query);
  }
}
