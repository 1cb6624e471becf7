/** The fragments of JavaScript semantics the application relies on: truthiness
    of optional strings, `String.prototype` methods (`includes`, `startsWith`,
    `endsWith`, `trim`, `split`, `substr`, ASCII case folding), `Array.join`,
    `parseInt` and `Number.prototype.toString`. Strings are sequences of code
    points. */
module Js {
  import opened Wrappers

  /** An optional string is truthy when it is present and not empty. */
  predicate Truthy(s: Option<string>) {
    s.Some? && s.value != ""
  }

  /** The value of `s || fallback`. */
  function OrElse(s: Option<string>, fallback: string): string {
    if Truthy(s) then s.value else fallback
  }

  function Max(a: int, b: int): int {
    if a < b then b else a
  }

  function Min(a: int, b: int): int {
    if a < b then a else b
  }

  // ---------------------------------------------------------------------------
  // startsWith / endsWith / includes

  predicate StartsWith(s: string, p: string) {
    |p| <= |s| && s[..|p|] == p
  }

  predicate EndsWith(s: string, p: string) {
    |p| <= |s| && s[|s| - |p|..] == p
  }

  /** `t` occurs in `s` starting at position `i`. */
  predicate OccursAt(s: string, t: string, i: int) {
    0 <= i && i + |t| <= |s| && s[i..i + |t|] == t
  }

  /** `s.includes(t)`, scanning the start positions of `s` from the left. */
  predicate Includes(s: string, t: string)
    decreases |s|
  {
    StartsWith(s, t) || (s != [] && Includes(s[1..], t))
  }

  /** `Includes` holds exactly when `t` occurs in `s` at some position. */
  lemma {:induction false} IncludesIff(s: string, t: string)
    ensures Includes(s, t) <==> exists i :: OccursAt(s, t, i)
    decreases |s|
  {
    if StartsWith(s, t) {
      assert OccursAt(s, t, 0);
    }
    if s != [] {
      IncludesIff(s[1..], t);
      if Includes(s[1..], t) {
        var i :| OccursAt(s[1..], t, i);
        assert s[i + 1..i + 1 + |t|] == s[1..][i..i + |t|];
        assert OccursAt(s, t, i + 1);
      }
      if exists i :: OccursAt(s, t, i) {
        var i :| OccursAt(s, t, i);
        if i > 0 {
          assert s[1..][i - 1..i - 1 + |t|] == s[i..i + |t|];
          assert OccursAt(s[1..], t, i - 1);
        } else {
          assert StartsWith(s, t);
        }
      }
    } else {
      if exists i :: OccursAt(s, t, i) {
        var i :| OccursAt(s, t, i);
        assert |t| == 0;
        assert s[..0] == t;
        assert Includes(s, t);
      }
    }
  }

  /** An occurrence of `t` inside `s` makes `s.includes(t)` true. */
  lemma IncludesWitness(s: string, t: string, i: nat)
    requires OccursAt(s, t, i)
    ensures Includes(s, t)
  {
    IncludesIff(s, t);
  }

  // ---------------------------------------------------------------------------
  // ASCII case folding; for the ASCII patterns the application matches, this is
  // exactly what `toLowerCase()` and a regular expression's `i` flag do.

  function LowerChar(c: char): char {
    if 'A' <= c <= 'Z' then (c as int + 32) as char else c
  }

  function Lower(s: string): (r: string)
    ensures |r| == |s|
    ensures forall i :: 0 <= i < |s| ==> r[i] == LowerChar(s[i])
  {
    seq(|s|, i requires 0 <= i < |s| => LowerChar(s[i]))
  }

  /** `s` contains `t` ignoring ASCII case (`/t/i.test(s)` for a literal `t`). */
  predicate IncludesIgnoreCase(s: string, t: string) {
    Includes(Lower(s), Lower(t))
  }

  // ---------------------------------------------------------------------------
  // Whitespace: the characters `trim()` removes and `\s` matches.

  predicate IsLineTerminator(c: char) {
    c == '\n' || c == '\r' || c == '\U{2028}' || c == '\U{2029}'
  }

  predicate IsSpace(c: char) {
    || IsLineTerminator(c)
    || c == '\t' || c == '\U{000B}' || c == '\U{000C}' || c == ' '
    || c == '\U{00A0}' || c == '\U{1680}' || ('\U{2000}' <= c <= '\U{200A}')
    || c == '\U{202F}' || c == '\U{205F}' || c == '\U{3000}' || c == '\U{FEFF}'
  }

  function TrimStart(s: string): (r: string)
    ensures |r| <= |s| && r == s[|s| - |r|..]
    ensures forall i :: 0 <= i < |s| - |r| ==> IsSpace(s[i])
    ensures r != [] ==> !IsSpace(r[0])
    decreases |s|
  {
    if s != [] && IsSpace(s[0]) then TrimStart(s[1..]) else s
  }

  function TrimEnd(s: string): (r: string)
    ensures |r| <= |s| && r == s[..|r|]
    ensures forall i :: |r| <= i < |s| ==> IsSpace(s[i])
    ensures r != [] ==> !IsSpace(r[|r| - 1])
    decreases |s|
  {
    if s != [] && IsSpace(s[|s| - 1]) then TrimEnd(s[..|s| - 1]) else s
  }

  /** `r` is `s` with the whitespace before position `a` and after
      position `a + |r|` cut away. */
  predicate TrimmedAt(s: string, r: string, a: int) {
    && 0 <= a && a + |r| <= |s| && r == s[a..a + |r|]
    && (forall i :: 0 <= i < a ==> IsSpace(s[i]))
    && (forall i :: a + |r| <= i < |s| ==> IsSpace(s[i]))
  }

  /** `s.trim()`: a slice of `s` that neither starts nor ends with whitespace,
      with only whitespace cut away on either side. */
  function Trim(s: string): (r: string)
    ensures exists a :: TrimmedAt(s, r, a)
    ensures r != [] ==> !IsSpace(r[0]) && !IsSpace(r[|r| - 1])
  {
    var t := TrimStart(s);
    var r := TrimEnd(t);
    var a := |s| - |t|;
    assert r == s[a..a + |r|];
    assert forall i :: a + |r| <= i < |s| ==> s[i] == t[i - a];
    assert TrimmedAt(s, r, a);
    r
  }

  // ---------------------------------------------------------------------------
  // split / join on a one-character separator

  /** `s.split(sep)`: the pieces between separators, always at least one. */
  function Split(s: string, sep: char): (r: seq<string>)
    ensures |r| >= 1
    decreases |s|
  {
    if s == [] then [""]
    else
      var rest := Split(s[1..], sep);
      if s[0] == sep then [""] + rest else [[s[0]] + rest[0]] + rest[1..]
  }

  /** `ps.join(sep)`. */
  function Join(ps: seq<string>, sep: char): string
    decreases |ps|
  {
    if |ps| == 0 then "" else if |ps| == 1 then ps[0] else ps[0] + [sep] + Join(ps[1..], sep)
  }

  /** Splitting at a separator splits the two sides independently. */
  lemma {:induction false} SplitAround(x: string, y: string, sep: char)
    ensures Split(x + [sep] + y, sep) == Split(x, sep) + Split(y, sep)
    decreases |x|
  {
    if x == [] {
      assert x + [sep] + y == [sep] + y;
      assert ([sep] + y)[1..] == y;
    } else {
      assert (x + [sep] + y)[0] == x[0];
      assert (x + [sep] + y)[1..] == x[1..] + [sep] + y;
      SplitAround(x[1..], y, sep);
    }
  }

  /** A string without the separator is its own single piece. */
  lemma {:induction false} SplitWithoutSep(x: string, sep: char)
    requires sep !in x
    ensures Split(x, sep) == [x]
    decreases |x|
  {
    if x != [] {
      SplitWithoutSep(x[1..], sep);
      assert [x[0]] + x[1..] == x;
    }
  }

  /** No piece of a split contains the separator. */
  lemma {:induction false} SplitPiecesSepFree(s: string, sep: char)
    ensures forall k :: 0 <= k < |Split(s, sep)| ==> sep !in Split(s, sep)[k]
    decreases |s|
  {
    if s != [] {
      SplitPiecesSepFree(s[1..], sep);
    }
  }

  /** Joining the pieces of a split gives back the string. */
  lemma {:induction false} JoinSplit(s: string, sep: char)
    ensures Join(Split(s, sep), sep) == s
    decreases |s|
  {
    if s != [] {
      var rest := Split(s[1..], sep);
      JoinSplit(s[1..], sep);
      if s[0] == sep {
        assert ([""] + rest)[1..] == rest;
      } else {
        var r := [[s[0]] + rest[0]] + rest[1..];
        if |rest| == 1 {
          assert Join(r, sep) == [s[0]] + rest[0];
        } else {
          assert r[1..] == rest[1..];
          assert Join(rest, sep) == rest[0] + [sep] + Join(rest[1..], sep);
        }
      }
    }
  }

  /** Splitting a join of separator-free pieces gives back the pieces. */
  lemma {:induction false} SplitJoin(ps: seq<string>, sep: char)
    requires |ps| >= 1
    requires forall k :: 0 <= k < |ps| ==> sep !in ps[k]
    ensures Split(Join(ps, sep), sep) == ps
    decreases |ps|
  {
    if |ps| == 1 {
      SplitWithoutSep(ps[0], sep);
    } else {
      SplitJoin(ps[1..], sep);
      SplitWithoutSep(ps[0], sep);
      SplitAround(ps[0], Join(ps[1..], sep), sep);
      assert [ps[0]] + ps[1..] == ps;
    }
  }

  /** The pieces that are not empty (`.filter(Boolean)` on strings). */
  function NonEmpty(ps: seq<string>): (r: seq<string>)
    ensures |r| <= |ps|
    ensures forall k :: 0 <= k < |r| ==> r[k] != "" && r[k] in ps
    decreases |ps|
  {
    if ps == [] then []
    else if ps[0] == "" then NonEmpty(ps[1..])
    else [ps[0]] + NonEmpty(ps[1..])
  }

  lemma {:induction false} NonEmptyAppend(a: seq<string>, b: seq<string>)
    ensures NonEmpty(a + b) == NonEmpty(a) + NonEmpty(b)
    decreases |a|
  {
    if a != [] {
      assert (a + b)[1..] == a[1..] + b;
      NonEmptyAppend(a[1..], b);
    } else {
      assert a + b == b;
    }
  }

  lemma {:induction false} NonEmptyOfNonEmpty(ps: seq<string>)
    requires forall k :: 0 <= k < |ps| ==> ps[k] != ""
    ensures NonEmpty(ps) == ps
    decreases |ps|
  {
    if ps != [] {
      NonEmptyOfNonEmpty(ps[1..]);
      assert [ps[0]] + ps[1..] == ps;
    }
  }

  /** The non-empty `sep`-separated segments of `s`
      (`s.split(sep).filter(Boolean)`). */
  function Segments(s: string, sep: char): seq<string> {
    NonEmpty(Split(s, sep))
  }

  /** Every segment is non-empty and free of the separator. */
  lemma SegmentsShape(s: string, sep: char)
    ensures forall k :: 0 <= k < |Segments(s, sep)| ==>
      Segments(s, sep)[k] != "" && sep !in Segments(s, sep)[k]
  {
    SplitPiecesSepFree(s, sep);
  }

  /** Joining non-empty separator-free segments and appending one separator
      (the shape of a folder key) splits back into exactly those segments. */
  lemma SegmentsOfJoinSep(ps: seq<string>, sep: char)
    requires |ps| >= 1
    requires forall k :: 0 <= k < |ps| ==> ps[k] != "" && sep !in ps[k]
    ensures Segments(Join(ps, sep) + [sep], sep) == ps
  {
    SplitAround(Join(ps, sep), "", sep);
    assert Join(ps, sep) + [sep] + "" == Join(ps, sep) + [sep];
    SplitJoin(ps, sep);
    NonEmptyAppend(ps, [""]);
    NonEmptyOfNonEmpty(ps);
  }

  // ---------------------------------------------------------------------------
  // substr

  /** `s.substr(start, length)` for non-negative arguments. */
  function Substr(s: string, start: nat, length: nat): (r: string)
    ensures |r| <= length
    ensures start + |r| <= |s| || r == ""
    ensures start < |s| ==> r == s[start..start + |r|]
  {
    if start >= |s| then "" else s[start..Min(start + length, |s|)]
  }

  // ---------------------------------------------------------------------------
  // Numbers: decimal rendering and parseInt

  /** A JavaScript number as far as the application sees one: NaN or an integer. */
  datatype Number = NaN | Num(value: int)

  function DigitChar(d: nat): char
    requires d < 10
  {
    ('0' as int + d) as char
  }

  predicate IsDecimalString(s: string) {
    forall i :: 0 <= i < |s| ==> '0' <= s[i] <= '9'
  }

  /** `n.toString()` for a natural number: decimal digits, no leading zero. */
  function NatToString(n: nat): (r: string)
    ensures |r| >= 1 && IsDecimalString(r)
    ensures r[0] == '0' ==> n == 0 && r == "0"
    decreases n
  {
    if n < 10 then [DigitChar(n)] else NatToString(n / 10) + [DigitChar(n % 10)]
  }

  /** `i.toString()` for an integer. */
  function IntToString(i: int): string {
    if i < 0 then "-" + NatToString(-i) else NatToString(i)
  }

  /** The value of `c` as a digit in `radix` (10 or 16), if it is one. */
  function DigitValue(c: char, radix: nat): Option<nat> {
    if '0' <= c <= '9' && (c as int) - ('0' as int) < radix then Some((c as int) - ('0' as int))
    else if radix == 16 && 'a' <= c <= 'f' then Some((c as int) - ('a' as int) + 10)
    else if radix == 16 && 'A' <= c <= 'F' then Some((c as int) - ('A' as int) + 10)
    else None
  }

  /** The number of leading characters of `s` that are digits in `radix`. */
  function LeadingDigits(s: string, radix: nat): (k: nat)
    ensures k <= |s|
    ensures forall i :: 0 <= i < k ==> DigitValue(s[i], radix).Some?
    ensures k < |s| ==> DigitValue(s[k], radix).None?
    decreases |s|
  {
    if s != [] && DigitValue(s[0], radix).Some? then 1 + LeadingDigits(s[1..], radix) else 0
  }

  /** The value of a string of digits, most significant first. */
  function DigitsValue(s: string, radix: nat): nat
    requires forall i :: 0 <= i < |s| ==> DigitValue(s[i], radix).Some?
    decreases |s|
  {
    if s == [] then 0
    else DigitsValue(s[..|s| - 1], radix) * radix + DigitValue(s[|s| - 1], radix).value
  }

  /** `parseInt(s)` without a radix argument: leading whitespace is skipped, one
      sign is read, a `0x`/`0X` prefix selects base 16, and the longest run of
      digits that follows is the value; no digits at all gives NaN. */
  function ParseInt(s: string): Number {
    var t := TrimStart(s);
    var negative := t != [] && t[0] == '-';
    var u := if t != [] && (t[0] == '-' || t[0] == '+') then t[1..] else t;
    var hex := |u| >= 2 && u[0] == '0' && (u[1] == 'x' || u[1] == 'X');
    var radix := if hex then 16 else 10;
    var v := if hex then u[2..] else u;
    var k := LeadingDigits(v, radix);
    if k == 0 then NaN
    else
      var digits := v[..k];
      assert forall i :: 0 <= i < |digits| ==> digits[i] == v[i];
      var magnitude: int := DigitsValue(digits, radix);
      Num(if negative then -magnitude else magnitude)
  }

  lemma {:induction false} DecimalDigitsValue(n: nat)
    ensures forall i :: 0 <= i < |NatToString(n)| ==> DigitValue(NatToString(n)[i], 10).Some?
    ensures DigitsValue(NatToString(n), 10) == n
    decreases n
  {
    if n >= 10 {
      DecimalDigitsValue(n / 10);
      var s := NatToString(n);
      assert s[..|s| - 1] == NatToString(n / 10);
    }
  }

  /** `parseInt` reads back what `toString` rendered. */
  lemma ParseIntNatToString(n: nat)
    ensures ParseInt(NatToString(n)) == Num(n)
  {
    var s := NatToString(n);
    DecimalDigitsValue(n);
    assert !IsSpace(s[0]);
    assert TrimStart(s) == s;
    assert s[0] != '-' && s[0] != '+';
    assert !(|s| >= 2 && s[0] == '0');
    assert LeadingDigits(s, 10) == |s|;
    assert s[..|s|] == s;
  }
}
