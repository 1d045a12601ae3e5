/** JavaScript value semantics that the scripts and handlers rely on:
    optional (`undefined`) strings, `split`/`join`, case mapping over Latin-1,
    `includes`, string ordering, and `parseInt`/`parseFloat` on plain decimals. */
module Js {

  datatype Option<+T> = None | Some(value: T)

  /** The outcome of an operation that can fail, such as a statement that aborts. */
  datatype Result<+T, +E> = Ok(value: T) | Err(error: E)

  /** A string that may be `undefined`, such as `values[i]` past the end of an array. */
  type Field = Option<string>

  const TAB: char := '\t'

  /** JavaScript truthiness of a possibly-undefined string: defined and non-empty. */
  predicate Truthy(f: Field) {
    f.Some? && f.value != ""
  }

  /** The property name that `obj[f]` looks up: `undefined` is coerced to "undefined". */
  function PropertyKey(f: Field): string {
    if f.Some? then f.value else "undefined"
  }

  /** `values[i]` on an array of strings. */
  function At(values: seq<string>, i: nat): Field {
    if i < |values| then Some(values[i]) else None
  }

  /** The lines after the header line of a file. */
  function DataLines(lines: seq<string>): (data: seq<string>)
    ensures |data| == (if |lines| == 0 then 0 else |lines| - 1)
    ensures forall k :: 0 <= k < |data| ==> data[k] == lines[k + 1]
  {
    if |lines| == 0 then [] else lines[1..]
  }

  // ---------------------------------------------------------------------------
  // split and join

  function IndexOf(s: string, c: char): (i: nat)
    ensures i <= |s|
    ensures i < |s| ==> s[i] == c
    ensures forall j :: 0 <= j < i ==> s[j] != c
  {
    if |s| == 0 then 0 else if s[0] == c then 0 else 1 + IndexOf(s[1..], c)
  }

  /** `s.split(sep)` for a one-character separator. */
  function Split(s: string, sep: char): (parts: seq<string>)
    ensures |parts| >= 1
    ensures forall k :: 0 <= k < |parts| ==> sep !in parts[k]
    decreases |s|
  {
    var i := IndexOf(s, sep);
    if i == |s| then [s] else [s[..i]] + Split(s[i + 1..], sep)
  }

  /** `parts.join(sep)`. */
  function Join(parts: seq<string>, sep: string): string {
    if |parts| == 0 then ""
    else if |parts| == 1 then parts[0]
    else parts[0] + sep + Join(parts[1..], sep)
  }

  lemma JoinCons(a: string, tail: seq<string>, sep: string)
    requires |tail| >= 1
    ensures Join([a] + tail, sep) == a + sep + Join(tail, sep)
  {
    assert ([a] + tail)[1..] == tail;
  }

  /** Joining the pieces of a split with the separator gives back the line. */
  lemma {:induction false} JoinSplit(s: string, sep: char)
    ensures Join(Split(s, sep), [sep]) == s
    decreases |s|
  {
    var i := IndexOf(s, sep);
    if i < |s| {
      var rest := s[i + 1..];
      JoinSplit(rest, sep);
      var tail := Split(rest, sep);
      assert Split(s, sep) == [s[..i]] + tail;
      JoinCons(s[..i], tail, [sep]);
      assert s == s[..i] + [sep] + rest;
    }
  }

  lemma IndexOfAfterPrefix(a: string, sep: char, b: string)
    requires sep !in a
    ensures IndexOf(a + [sep] + b, sep) == |a|
    decreases |a|
  {
    if |a| > 0 {
      assert (a + [sep] + b)[1..] == a[1..] + [sep] + b;
      IndexOfAfterPrefix(a[1..], sep, b);
    }
  }

  /** Splitting a join of separator-free pieces gives back the pieces. */
  lemma {:induction false} SplitJoin(parts: seq<string>, sep: char)
    requires |parts| >= 1
    requires forall k :: 0 <= k < |parts| ==> sep !in parts[k]
    ensures Split(Join(parts, [sep]), sep) == parts
    decreases |parts|
  {
    if |parts| == 1 {
      assert Join(parts, [sep]) == parts[0];
      assert IndexOf(parts[0], sep) == |parts[0]|;
    } else {
      var a, rest := parts[0], Join(parts[1..], [sep]);
      var s := a + [sep] + rest;
      assert Join(parts, [sep]) == s;
      IndexOfAfterPrefix(a, sep, rest);
      assert s[..|a|] == a;
      assert s[|a| + 1..] == rest;
      SplitJoin(parts[1..], sep);
      assert Split(s, sep) == [a] + parts[1..];
    }
  }

  // ---------------------------------------------------------------------------
  // counting characters (the placeholders of a SQL text)

  function CountChar(s: string, c: char): nat {
    if |s| == 0 then 0 else (if s[0] == c then 1 else 0) + CountChar(s[1..], c)
  }

  lemma {:induction false} CountCharConcat(a: string, b: string, c: char)
    ensures CountChar(a + b, c) == CountChar(a, c) + CountChar(b, c)
    decreases |a|
  {
    if |a| > 0 {
      assert (a + b)[0] == a[0];
      assert (a + b)[1..] == a[1..] + b;
      CountCharConcat(a[1..], b, c);
    } else {
      assert a + b == b;
    }
  }

  /** A join of pieces holding one `c` each, with a separator free of `c`, holds one `c` per piece. */
  lemma {:induction false} CountCharJoin(parts: seq<string>, sep: string, c: char)
    requires CountChar(sep, c) == 0
    requires forall k :: 0 <= k < |parts| ==> CountChar(parts[k], c) == 1
    ensures CountChar(Join(parts, sep), c) == |parts|
    decreases |parts|
  {
    if |parts| > 1 {
      CountCharJoin(parts[1..], sep, c);
      CountCharConcat(parts[0] + sep, Join(parts[1..], sep), c);
      CountCharConcat(parts[0], sep, c);
    } else if |parts| == 0 {
      assert Join(parts, sep) == "";
    }
  }

  // ---------------------------------------------------------------------------
  // case mapping (`toUpperCase`, `toLowerCase`) over Latin-1

  const SHARP_S: char := '\U{DF}'

  /** The upper case of one character: `a`-`z`, `à`-`þ` (but `÷`) move down by 32, `ß`
      becomes "SS", `µ` becomes `Μ` (U+039C) and `ÿ` becomes `Ÿ` (U+0178). */
  function UpperText(c: char): string {
    if 'a' <= c <= 'z' || ('\U{E0}' <= c <= '\U{FE}' && c != '\U{F7}') then [(c as int - 32) as char]
    else if c == SHARP_S then "SS"
    else if c == '\U{B5}' then ['\U{39C}']
    else if c == '\U{FF}' then ['\U{178}']
    else [c]
  }

  /** The lower case of one character: `A`-`Z` and `À`-`Þ` (but `×`) move up by 32. */
  function LowerChar(c: char): char {
    if 'A' <= c <= 'Z' || ('\U{C0}' <= c <= '\U{DE}' && c != '\U{D7}') then (c as int + 32) as char else c
  }

  /** A character that upper-casing leaves as it is. */
  predicate UpperStable(c: char) {
    UpperText(c) == [c]
  }

  /** A character that lower-casing leaves as it is. */
  predicate LowerStable(c: char) {
    LowerChar(c) == c
  }

  /** Every character of an upper case is itself upper-case. */
  lemma UpperTextStable(c: char)
    ensures forall j :: 0 <= j < |UpperText(c)| ==> UpperStable(UpperText(c)[j])
  {
  }

  /** Upper-casing never shortens a text and lengthens it only at an `ß`; what it
      produces holds no lower-case letter, and a text without one is returned as it is. */
  function ToUpperCase(s: string): (r: string)
    ensures |r| >= |s|
    ensures (forall i :: 0 <= i < |s| ==> s[i] != SHARP_S) ==> |r| == |s|
    ensures forall i :: 0 <= i < |r| ==> UpperStable(r[i])
    ensures (forall i :: 0 <= i < |s| ==> UpperStable(s[i])) ==> r == s
    decreases |s|
  {
    if |s| == 0 then ""
    else
      var head, tail := UpperText(s[0]), ToUpperCase(s[1..]);
      UpperTextStable(s[0]);
      assert forall i :: 1 <= i < |s| ==> s[1..][i - 1] == s[i];
      assert forall i :: 0 <= i < |head + tail| ==> (head + tail)[i] == if i < |head| then head[i] else tail[i - |head|];
      head + tail
  }

  /** Lower-casing keeps the length; what it produces holds no upper-case letter, a
      character it changes is the upper case of what it became, and a text without
      upper-case letters is returned as it is. */
  function ToLowerCase(s: string): (r: string)
    ensures |r| == |s|
    ensures forall i :: 0 <= i < |r| ==> LowerStable(r[i])
    ensures forall i :: 0 <= i < |r| && r[i] != s[i] ==> UpperText(r[i]) == [s[i]]
    ensures (forall i :: 0 <= i < |s| ==> LowerStable(s[i])) ==> r == s
  {
    seq(|s|, i requires 0 <= i < |s| => LowerChar(s[i]))
  }

  /** Upper-casing is idempotent: an upper-cased parameter is unchanged by a second pass. */
  lemma UpperIdempotent(s: string)
    ensures ToUpperCase(ToUpperCase(s)) == ToUpperCase(s)
  {
  }

  /** `"ß".toUpperCase()` is the two letters "SS". */
  lemma SharpSUpperCase()
    ensures ToUpperCase([SHARP_S]) == "SS"
  {
    assert [SHARP_S][1..] == "";
  }

  // ---------------------------------------------------------------------------
  // substring search (`hay.includes(needle)`)

  predicate StartsWith(s: string, prefix: string) {
    |prefix| <= |s| && s[..|prefix|] == prefix
  }

  predicate OccursAt(hay: string, needle: string, i: nat) {
    i + |needle| <= |hay| && hay[i..i + |needle|] == needle
  }

  function Includes(hay: string, needle: string): (b: bool)
    ensures b <==> exists i: nat :: OccursAt(hay, needle, i)
    decreases |hay|
  {
    if StartsWith(hay, needle) then
      assert OccursAt(hay, needle, 0);
      true
    else if |hay| == 0 then
      false
    else
      var r := Includes(hay[1..], needle);
      assert r ==> exists i: nat :: OccursAt(hay, needle, i) by {
        if r {
          var j: nat :| OccursAt(hay[1..], needle, j);
          assert hay[1..][j..j + |needle|] == hay[j + 1..j + 1 + |needle|];
          assert OccursAt(hay, needle, j + 1);
        }
      }
      assert (exists i: nat :: OccursAt(hay, needle, i)) ==> r by {
        if exists i: nat :: OccursAt(hay, needle, i) {
          var i: nat :| OccursAt(hay, needle, i);
          assert i != 0;
          assert hay[1..][i - 1..i - 1 + |needle|] == hay[i..i + |needle|];
          assert OccursAt(hay[1..], needle, i - 1);
        }
      }
      r
  }

  // ---------------------------------------------------------------------------
  // string order (`a < b` and `a > b` on strings, SQL MAX on TEXT)

  /** Lexicographic order on character codes. */
  predicate Less(a: string, b: string)
    decreases |a|
  {
    if |a| == 0 then |b| > 0
    else if |b| == 0 then false
    else if a[0] != b[0] then a[0] < b[0]
    else Less(a[1..], b[1..])
  }

  lemma {:induction false} LessIrreflexive(a: string)
    ensures !Less(a, a)
    decreases |a|
  {
    if |a| > 0 { LessIrreflexive(a[1..]); }
  }

  lemma {:induction false} LessTransitive(a: string, b: string, c: string)
    requires Less(a, b) && Less(b, c)
    ensures Less(a, c)
    decreases |a|
  {
    if |a| > 0 && |b| > 0 && |c| > 0 && a[0] == b[0] && b[0] == c[0] {
      LessTransitive(a[1..], b[1..], c[1..]);
    }
  }

  lemma {:induction false} LessTotal(a: string, b: string)
    ensures a == b || Less(a, b) || Less(b, a)
    decreases |a|
  {
    if |a| > 0 && |b| > 0 && a[0] == b[0] {
      LessTotal(a[1..], b[1..]);
      if a[1..] == b[1..] {
        assert a == [a[0]] + a[1..] && b == [b[0]] + b[1..];
      }
    }
  }

  lemma {:induction false} LessAsymmetric(a: string, b: string)
    requires Less(a, b)
    ensures !Less(b, a)
  {
    if Less(b, a) {
      LessTransitive(a, b, a);
      LessIrreflexive(a);
    }
  }

  /** `a > b` where either side may be `undefined`: any comparison with `undefined` is false. */
  predicate After(a: Field, b: Field) {
    a.Some? && b.Some? && Less(b.value, a.value)
  }

  // ---------------------------------------------------------------------------
  // number parsing on plain decimal text

  predicate IsDigit(c: char) {
    '0' <= c <= '9'
  }

  /** The number of leading decimal digits of `s`. */
  function DigitRun(s: string): (n: nat)
    ensures n <= |s|
    ensures forall i :: 0 <= i < n ==> IsDigit(s[i])
    ensures n < |s| ==> !IsDigit(s[n])
  {
    if |s| == 0 || !IsDigit(s[0]) then 0 else 1 + DigitRun(s[1..])
  }

  function DigitsValue(ds: string): nat
    requires forall i :: 0 <= i < |ds| ==> IsDigit(ds[i])
  {
    if |ds| == 0 then 0
    else
      assert IsDigit(ds[|ds| - 1]);
      10 * DigitsValue(ds[..|ds| - 1]) + (ds[|ds| - 1] as int - '0' as int)
  }

  lemma {:induction false} Pow10Grows(m: nat, n: nat)
    requires m <= n
    ensures Pow10(m) <= Pow10(n)
    decreases n
  {
    if m < n {
      Pow10Grows(m, n - 1);
    }
  }

  /** A digit run with no leading zero is worth at least 10^(length - 1). */
  lemma {:induction false} DigitsValueAtLeast(ds: string)
    requires forall i :: 0 <= i < |ds| ==> IsDigit(ds[i])
    requires |ds| > 0 && ds[0] != '0'
    ensures DigitsValue(ds) >= Pow10(|ds| - 1)
  {
    if |ds| > 1 {
      var init := ds[..|ds| - 1];
      assert init[0] == ds[0];
      DigitsValueAtLeast(init);
    }
  }

  function Pow10(n: nat): (p: nat)
    ensures p >= 1
  {
    if n == 0 then 1 else 10 * Pow10(n - 1)
  }

  /** `parseInt(s)` on text starting with decimal digits; `None` is NaN.
      Leading white space, a sign and other radixes are not part of this model. */
  function ParseInt(s: Field): (n: Option<nat>)
    ensures n.Some? <==> s.Some? && |s.value| > 0 && IsDigit(s.value[0])
  {
    if s.None? then None
    else
      var k := DigitRun(s.value);
      if k == 0 then None else Some(DigitsValue(s.value[..k]))
  }

  /** `parseFloat(s)`: the value of the longest prefix of the form digits [ "." digits ]
      with at least one digit; `None` (NaN) when there is none. Exponents, signs, white
      space and "Infinity" are not part of this model. */
  function ParseFloat(s: Field): (x: Option<real>)
    ensures x.Some? ==> x.value >= 0.0
  {
    if s.None? then None
    else
      var t := s.value;
      var k := DigitRun(t);
      var whole := DigitsValue(t[..k]) as real;
      if k < |t| && t[k] == '.' then
        var frac := t[k + 1..];
        var m := DigitRun(frac);
        if k == 0 && m == 0 then None
        else Some(whole + (DigitsValue(frac[..m]) as real) / (Pow10(m) as real))
      else if k == 0 then None
      else Some(whole)
  }

  /** A whole number followed by text that does not continue it parses to its digits'
      value: what follows the number is ignored. */
  lemma ParseFloatIgnoresSuffix(t: string, rest: string)
    requires |t| > 0 && forall i :: 0 <= i < |t| ==> IsDigit(t[i])
    requires |rest| == 0 || (!IsDigit(rest[0]) && rest[0] != '.')
    ensures ParseFloat(Some(t + rest)) == Some(DigitsValue(t) as real)
  {
    var u := t + rest;
    assert forall i :: 0 <= i < |t| ==> u[i] == t[i];
    DigitRunPrefix(t, rest);
    assert u[..|t|] == t;
  }

  lemma {:induction false} DigitRunPrefix(t: string, rest: string)
    requires forall i :: 0 <= i < |t| ==> IsDigit(t[i])
    requires |rest| == 0 || !IsDigit(rest[0])
    ensures DigitRun(t + rest) == |t|
    decreases |t|
  {
    if |t| == 0 {
      assert t + rest == rest;
    } else {
      assert (t + rest)[1..] == t[1..] + rest;
      DigitRunPrefix(t[1..], rest);
    }
  }

  /** An exponent is not read: `parseFloat("1e3")` is 1 here, where JavaScript gives 1000. */
  lemma ExponentNotRead()
    ensures ParseFloat(Some("1e3")) == Some(1.0)
  {
    assert "1e3" == "1" + "e3";
    ParseFloatIgnoresSuffix("1", "e3");
    assert "1"[..0] == "";
  }

  /** `x || null` on a parsed number: NaN and 0 both become null. */
  function RealOrNull(x: Option<real>): (r: Option<real>)
    ensures r.None? <==> x.None? || x.value == 0.0
    ensures r.Some? ==> r == x
  {
    if x.Some? && x.value != 0.0 then x else None
  }

  function NatOrNull(x: Option<nat>): (r: Option<nat>)
    ensures r.None? <==> x.None? || x.value == 0
    ensures r.Some? ==> r == x && r.value > 0
  {
    if x.Some? && x.value != 0 then x else None
  }
}

/** Sequence helpers shared by the models. */
module Seqs {

  predicate NoDup<T(==)>(s: seq<T>) {
    forall i, j :: 0 <= i < j < |s| ==> s[i] != s[j]
  }

  /** The concatenation of a sequence of batches, in order. */
  function Flatten<T>(batches: seq<seq<T>>): seq<T> {
    if |batches| == 0 then [] else Flatten(batches[..|batches| - 1]) + batches[|batches| - 1]
  }

  lemma FlattenSnoc<T>(batches: seq<seq<T>>, b: seq<T>)
    ensures Flatten(batches + [b]) == Flatten(batches) + b
  {
    assert (batches + [b])[..|batches|] == batches;
  }

  /** A sequence without duplicates has as many distinct elements as positions. */
  lemma {:induction false} DistinctCard<T>(s: seq<T>)
    requires NoDup(s)
    ensures |set x | x in s| == |s|
  {
    if |s| > 0 {
      var init := s[..|s| - 1];
      DistinctCard(init);
      assert (set x | x in s) == (set x | x in init) + {s[|s| - 1]};
      assert s[|s| - 1] !in init;
    }
  }

  function Min(a: int, b: int): int {
    if a <= b then a else b
  }
}
