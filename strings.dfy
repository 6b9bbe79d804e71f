/**
 * The JavaScript string primitives the site's logic is built from: lower-casing,
 * `includes`, `trim`, `split`, `join`, `startsWith`, number-to-string conversion,
 * `parseInt` and `Number`. Strings are sequences of Unicode characters (`char`).
 */
module Strings {
  import opened Wrappers

  // ---------------------------------------------------------------------------
  // Characters
  // ---------------------------------------------------------------------------

  predicate IsDigit(c: char) { '0' <= c <= '9' }

  predicate IsAsciiLetter(c: char) { 'a' <= c <= 'z' || 'A' <= c <= 'Z' }

  predicate IsUpper(c: char) {
    ('A' <= c <= 'Z') || ('\U{00C0}' <= c <= '\U{00DE}' && c != '\U{00D7}')
  }

  /**
   * `toLowerCase` on one code unit, for ASCII and the Latin-1 capitals
   * (which cover every accented letter the slug generator folds).
   */
  function LowerChar(c: char): (r: char)
    ensures !IsUpper(r)
    ensures !IsUpper(c) ==> r == c
    ensures IsUpper(c) ==> r as int == c as int + 32
  {
    if IsUpper(c) then (c as int + 32) as char else c
  }

  /**
   * The characters JavaScript's `trim` removes and `\s` matches: the
   * WhiteSpace and LineTerminator productions of ECMAScript.
   */
  predicate IsWhitespace(c: char) {
    c == '\t' || c == '\n' || c == '\U{000B}' || c == '\U{000C}' || c == '\r' || c == ' ' ||
    c == '\U{00A0}' || c == '\U{1680}' || ('\U{2000}' <= c <= '\U{200A}') ||
    c == '\U{2028}' || c == '\U{2029}' || c == '\U{202F}' || c == '\U{205F}' ||
    c == '\U{3000}' || c == '\U{FEFF}'
  }

  // ---------------------------------------------------------------------------
  // Lower-casing and substring search
  // ---------------------------------------------------------------------------

  function ToLower(s: string): (r: string)
    ensures |r| == |s|
    ensures forall i :: 0 <= i < |s| ==> r[i] == LowerChar(s[i])
  {
    if s == [] then [] else [LowerChar(s[0])] + ToLower(s[1..])
  }

  lemma {:induction false} ToLowerIdempotent(s: string)
    ensures ToLower(ToLower(s)) == ToLower(s)
  {
    if s != [] {
      ToLowerIdempotent(s[1..]);
    }
  }

  /** `t` occurs in `s` at position `i`. */
  predicate OccursAt(s: string, t: string, i: int) {
    0 <= i && i + |t| <= |s| && s[i..i + |t|] == t
  }

  /** `s.includes(t)`: `t` is a contiguous substring of `s`; the empty string is in every string. */
  function Includes(s: string, t: string): (r: bool)
    ensures r <==> exists i :: OccursAt(s, t, i)
    decreases |s|
  {
    if |t| > |s| then
      false
    else if s[..|t|] == t then
      assert OccursAt(s, t, 0);
      true
    else
      IncludesShift(s, t);
      Includes(s[1..], t)
  }

  /** When `t` is not a prefix of `s`, it occurs in `s` iff it occurs in `s[1..]`. */
  lemma IncludesShift(s: string, t: string)
    requires |t| <= |s| && s[..|t|] != t
    ensures (exists i :: OccursAt(s, t, i)) <==> (exists i :: OccursAt(s[1..], t, i))
  {
    if i :| OccursAt(s[1..], t, i) {
      OccursShift(s, t, i + 1);
    }
    assert !OccursAt(s, t, 0) by {
      assert s[0..|t|] == s[..|t|];
    }
    if i :| OccursAt(s, t, i) {
      assert i != 0;
      OccursShift(s, t, i);
    }
  }

  /** An occurrence at `i > 0` in `s` is one at `i - 1` in `s[1..]`. */
  lemma OccursShift(s: string, t: string, i: int)
    requires 0 < i && s != []
    ensures OccursAt(s, t, i) <==> OccursAt(s[1..], t, i - 1)
  {
    if i + |t| <= |s| {
      SliceOfSuffix(s, i - 1, i - 1 + |t|);
    }
  }

  lemma SliceOfSuffix(s: string, b: int, c: int)
    requires 0 <= b <= c < |s|
    ensures s[1..][b..c] == s[b + 1..c + 1]
  {
    assert forall k :: 0 <= k < c - b ==> s[1..][b..c][k] == s[b + 1 + k];
  }

  lemma IncludesEmpty(s: string)
    ensures Includes(s, "")
  {
    assert OccursAt(s, "", 0);
  }

  lemma IncludesSelf(s: string)
    ensures Includes(s, s)
  {
    assert OccursAt(s, s, 0);
  }

  /** Case-insensitive `includes`, as `a.toLowerCase().includes(b.toLowerCase())`. */
  function IncludesIgnoreCase(s: string, t: string): bool {
    Includes(ToLower(s), ToLower(t))
  }

  function StartsWithChar(s: string, c: char): bool {
    |s| > 0 && s[0] == c
  }

  // ---------------------------------------------------------------------------
  // trim
  // ---------------------------------------------------------------------------

  function TrimStart(s: string): (r: string)
    ensures |r| <= |s|
  {
    if s != [] && IsWhitespace(s[0]) then TrimStart(s[1..]) else s
  }

  /** `TrimStart` drops a whitespace prefix and stops at the first other character. */
  lemma {:induction false} TrimStartSpec(s: string)
    ensures var r := TrimStart(s);
      r == s[|s| - |r|..] && (forall i :: 0 <= i < |s| - |r| ==> IsWhitespace(s[i])) &&
      (r != [] ==> !IsWhitespace(r[0]))
  {
    if s != [] && IsWhitespace(s[0]) {
      TrimStartSpec(s[1..]);
      assert forall i :: 1 <= i < |s| ==> s[1..][i - 1] == s[i];
    }
  }

  function TrimEnd(s: string): (r: string)
    ensures |r| <= |s|
  {
    if s != [] && IsWhitespace(s[|s| - 1]) then TrimEnd(s[..|s| - 1]) else s
  }

  /** `TrimEnd` drops a whitespace suffix and stops at the last other character. */
  lemma {:induction false} TrimEndSpec(s: string)
    ensures var r := TrimEnd(s);
      r == s[..|r|] && (forall i :: |r| <= i < |s| ==> IsWhitespace(s[i])) &&
      (r != [] ==> !IsWhitespace(r[|r| - 1]))
  {
    if s != [] && IsWhitespace(s[|s| - 1]) {
      TrimEndSpec(s[..|s| - 1]);
    }
  }

  /** `s.trim()`. */
  function Trim(s: string): (r: string)
  {
    TrimEnd(TrimStart(s))
  }

  /** `r` is `s` with the `a` characters before it and those after it all whitespace. */
  ghost predicate TrimmedAt(s: string, r: string, a: int) {
    0 <= a && a + |r| <= |s| && r == s[a..a + |r|] &&
    (forall i :: 0 <= i < a ==> IsWhitespace(s[i])) &&
    (forall i :: a + |r| <= i < |s| ==> IsWhitespace(s[i]))
  }

  /** `trim` removes exactly the leading and trailing whitespace, and nothing inside. */
  lemma TrimShape(s: string)
    ensures exists a :: TrimmedAt(s, Trim(s), a)
    ensures Trim(s) != [] ==> !IsWhitespace(Trim(s)[0]) && !IsWhitespace(Trim(s)[|Trim(s)| - 1])
  {
    var t := TrimStart(s);
    var r := TrimEnd(t);
    TrimStartSpec(s);
    TrimEndSpec(t);
    var a := |s| - |t|;
    assert t == s[a..];
    assert r == t[..|r|];
    assert s[a..][..|r|] == s[a..a + |r|];
    forall i | a + |r| <= i < |s| ensures IsWhitespace(s[i]) {
      assert s[i] == t[i - a];
    }
    if r != [] {
      assert r[0] == t[0];
    }
    assert Trim(s) == r;
    assert TrimmedAt(s, r, a);
  }

  /** `r` is `s.trim()`: `s` with whitespace cut from either end until none is left there. */
  ghost predicate IsTrimOf(s: string, r: string) {
    (exists a :: TrimmedAt(s, r, a)) &&
    (r != [] ==> !IsWhitespace(r[0]) && !IsWhitespace(r[|r| - 1]))
  }

  /** `Trim(s)` is a trim of `s`, and the only one. */
  lemma TrimOfUnique(s: string, r: string)
    ensures IsTrimOf(s, Trim(s))
    ensures IsTrimOf(s, r) ==> r == Trim(s)
  {
    TrimShape(s);
    var t := Trim(s);
    if IsTrimOf(s, r) {
      var a :| TrimmedAt(s, r, a);
      var b :| TrimmedAt(s, t, b);
      assert r != [] ==> s[a] == r[0] && s[a + |r| - 1] == r[|r| - 1];
      assert t != [] ==> s[b] == t[0] && s[b + |t| - 1] == t[|t| - 1];
      assert r == s[a..a + |r|] && t == s[b..b + |t|];
    }
  }

  /** A string with no whitespace at either end is its own trim. */
  lemma TrimUntouched(s: string)
    requires s != [] ==> !IsWhitespace(s[0]) && !IsWhitespace(s[|s| - 1])
    ensures Trim(s) == s
  {
    TrimStartSpec(s);
    TrimEndSpec(TrimStart(s));
  }

  /** Trimming twice is trimming once. */
  lemma TrimIdempotent(s: string)
    ensures Trim(Trim(s)) == Trim(s)
  {
    TrimShape(s);
    TrimUntouched(Trim(s));
  }

  /** Every character is whitespace: the strings `!s.trim()` holds for (`BlankIffTrimEmpty`). */
  predicate IsBlank(s: string) {
    s == [] || (IsWhitespace(s[0]) && IsBlank(s[1..]))
  }

  lemma {:induction false} BlankIffAllWhitespace(s: string)
    ensures IsBlank(s) <==> forall i :: 0 <= i < |s| ==> IsWhitespace(s[i])
  {
    if s != [] {
      BlankIffAllWhitespace(s[1..]);
      assert forall i :: 1 <= i < |s| ==> s[1..][i - 1] == s[i];
    }
  }

  lemma {:induction false} TrimStartEmptyIffBlank(s: string)
    ensures TrimStart(s) == "" <==> IsBlank(s)
  {
    if s != [] {
      TrimStartEmptyIffBlank(s[1..]);
    }
  }

  /** `TrimEnd` only empties a string that starts with whitespace. */
  lemma TrimEmptyIffTrimStartEmpty(s: string)
    ensures Trim(s) == "" <==> TrimStart(s) == ""
  {
    var t := TrimStart(s);
    TrimStartSpec(s);
    if t != [] {
      TrimEndSpec(t);
      assert |TrimEnd(t)| >= 1 by {
        assert !IsWhitespace(t[0]);
      }
    }
  }

  /** A string is blank exactly when trimming it leaves nothing. */
  lemma BlankIffTrimEmpty(s: string)
    ensures IsBlank(s) <==> Trim(s) == ""
  {
    TrimStartEmptyIffBlank(s);
    TrimEmptyIffTrimStartEmpty(s);
  }

  lemma TrimEmptyIffAllWhitespace(s: string)
    ensures Trim(s) == "" <==> forall i :: 0 <= i < |s| ==> IsWhitespace(s[i])
  {
    BlankIffTrimEmpty(s);
    BlankIffAllWhitespace(s);
  }

  // ---------------------------------------------------------------------------
  // split and join
  // ---------------------------------------------------------------------------

  /** `parts.join(sep)`. */
  function Join(parts: seq<string>, sep: string): string {
    if parts == [] then ""
    else if |parts| == 1 then parts[0]
    else parts[0] + sep + Join(parts[1..], sep)
  }

  /** Every part occurs in the joined string. */
  lemma {:induction false} JoinIncludesParts(parts: seq<string>, sep: string, k: nat)
    requires k < |parts|
    ensures Includes(Join(parts, sep), parts[k])
  {
    var j := Join(parts, sep);
    if |parts| == 1 {
      assert OccursAt(j, parts[k], 0);
    } else if k == 0 {
      assert j[..|parts[0]|] == parts[0];
      assert OccursAt(j, parts[k], 0);
    } else {
      var rest := Join(parts[1..], sep);
      JoinIncludesParts(parts[1..], sep, k - 1);
      var i :| OccursAt(rest, parts[k], i);
      var off := |parts[0]| + |sep|;
      assert j == parts[0] + sep + rest;
      assert j[off + i..off + i + |parts[k]|] == rest[i..i + |parts[k]|];
      assert OccursAt(j, parts[k], off + i);
    }
  }

  /** `s.split(sep)` for a one-character separator: always at least one piece. */
  function Split(s: string, sep: char): (r: seq<string>)
    ensures |r| >= 1
    ensures forall k, i :: 0 <= k < |r| && 0 <= i < |r[k]| ==> r[k][i] != sep
    decreases |s|
  {
    if sep !in s then
      [s]
    else
      var i := IndexOf(s, sep);
      [s[..i]] + Split(s[i + 1..], sep)
  }

  function IndexOf(s: string, c: char): (i: nat)
    requires c in s
    ensures i < |s| && s[i] == c && c !in s[..i]
  {
    if s[0] == c then 0 else 1 + IndexOf(s[1..], c)
  }

  /** Splitting and re-joining with the same separator gives back the string. */
  lemma {:induction false} SplitJoin(s: string, sep: char)
    ensures Join(Split(s, sep), [sep]) == s
    decreases |s|
  {
    if sep in s {
      var i := IndexOf(s, sep);
      SplitJoin(s[i + 1..], sep);
      assert s == s[..i] + [sep] + s[i + 1..];
    }
  }

  /** The first `c` of `a + [c] + b`, when `a` has none, is at `|a|`. */
  lemma IndexOfAfter(a: string, c: char, b: string)
    requires c !in a
    ensures c in a + [c] + b && IndexOf(a + [c] + b, c) == |a|
  {
    var s := a + [c] + b;
    assert s[|a|] == c;
    assert s[..|a|] == a;
    assert forall j :: 0 <= j < |a| ==> s[j] == a[j];
  }

  /** Splitting after a first piece free of the separator. */
  lemma SplitAfterPiece(a: string, sep: char, rest: string)
    requires sep !in a
    ensures Split(a + [sep] + rest, sep) == [a] + Split(rest, sep)
  {
    var s := a + [sep] + rest;
    IndexOfAfter(a, sep, rest);
    assert s[..|a|] == a;
    assert s[|a| + 1..] == rest;
  }

  /** Joining parts free of the separator and splitting again gives back the parts. */
  lemma {:induction false} JoinSplit(parts: seq<string>, sep: char)
    requires |parts| >= 1
    requires forall k :: 0 <= k < |parts| ==> sep !in parts[k]
    ensures Split(Join(parts, [sep]), sep) == parts
  {
    if |parts| > 1 {
      var tail := parts[1..];
      assert forall k :: 0 <= k < |tail| ==> tail[k] == parts[k + 1];
      JoinSplit(tail, sep);
      var rest := Join(tail, [sep]);
      assert Join(parts, [sep]) == parts[0] + [sep] + rest;
      SplitAfterPiece(parts[0], sep, rest);
      assert parts == [parts[0]] + tail;
    }
  }

  // ---------------------------------------------------------------------------
  // Numbers and their decimal text
  // ---------------------------------------------------------------------------

  predicate AllDigits(s: string) {
    forall i :: 0 <= i < |s| ==> IsDigit(s[i])
  }

  function DigitValue(c: char): nat
    requires IsDigit(c)
  {
    c as int - '0' as int
  }

  /** The value of a string of decimal digits (most significant first). */
  function DigitsValue(s: string): nat
    requires AllDigits(s)
  {
    if s == [] then 0 else DigitsValue(s[..|s| - 1]) * 10 + DigitValue(s[|s| - 1])
  }

  function DigitChar(d: nat): (c: char)
    requires d < 10
    ensures IsDigit(c) && DigitValue(c) == d
  {
    ('0' as int + d) as char
  }

  /** `${n}` for a natural number: its shortest decimal representation. */
  function NatToString(n: nat): (r: string)
    ensures r != [] && AllDigits(r)
    ensures |r| > 1 ==> r[0] != '0'
    ensures DigitsValue(r) == n
  {
    if n < 10 then
      [DigitChar(n)]
    else
      var r := NatToString(n / 10) + [DigitChar(n % 10)];
      assert r[..|r| - 1] == NatToString(n / 10);
      r
  }

  /** `${n}` for an integer: a minus sign before the digits of a negative number. */
  function IntToString(n: int): (r: string)
    ensures r != []
    ensures n >= 0 ==> r == NatToString(n)
    ensures n < 0 ==> r == "-" + NatToString(-n)
  {
    if n >= 0 then NatToString(n) else "-" + NatToString(-n)
  }

  /** The longest prefix of `s` made of digits. */
  function LeadingDigits(s: string): (r: string)
    ensures |r| <= |s| && r == s[..|r|] && AllDigits(r)
    ensures |r| < |s| ==> !IsDigit(s[|r|])
  {
    if s != [] && IsDigit(s[0]) then [s[0]] + LeadingDigits(s[1..]) else []
  }

  /**
   * `parseInt(s)` on the strings the site stores (no sign, no leading blanks):
   * the value of the leading run of digits, or NaN (`None`) when `s` does not
   * start with a digit.
   */
  function ParseInt(s: string): (r: Option<nat>)
    ensures r.Some? <==> (s != [] && IsDigit(s[0]))
  {
    var d := LeadingDigits(s);
    if d == [] then None else Some(DigitsValue(d))
  }

  /**
   * `Number(s)` on unsigned decimal text: 0 for the empty string, the value of
   * an all-digit string, and NaN (`None`) for anything else.
   */
  function NumberOf(s: string): (r: Option<nat>)
    ensures r.Some? <==> AllDigits(s)
    ensures s == "" ==> r == Some(0)
  {
    if AllDigits(s) then Some(DigitsValue(s)) else None
  }

  /** The text `${n}` reads back as `n`, both through `parseInt` and `Number`. */
  lemma NatToStringParses(n: nat)
    ensures ParseInt(NatToString(n)) == Some(n)
    ensures NumberOf(NatToString(n)) == Some(n)
  {
    var r := NatToString(n);
    assert LeadingDigits(r) == r by { LeadingDigitsOfDigits(r); }
  }

  lemma {:induction false} LeadingDigitsOfDigits(s: string)
    requires AllDigits(s)
    ensures LeadingDigits(s) == s
  {
    if s != [] {
      LeadingDigitsOfDigits(s[1..]);
    }
  }

  /** The leading digits of an all-digit string followed by a non-digit are that string. */
  lemma {:induction false} LeadingDigitsAppend(d: string, rest: string)
    requires AllDigits(d) && rest != [] && !IsDigit(rest[0])
    ensures LeadingDigits(d + rest) == d
  {
    if d != [] {
      assert (d + rest)[1..] == d[1..] + rest;
      LeadingDigitsAppend(d[1..], rest);
    } else {
      assert d + rest == rest;
    }
  }

  /** `${n}` followed by text that does not start with a digit reads back as `n` under `parseInt`. */
  lemma NumberTextReadsBack(n: nat, suffix: string)
    requires suffix != [] && !IsDigit(suffix[0])
    ensures ParseInt(NatToString(n) + suffix) == Some(n)
  {
    LeadingDigitsAppend(NatToString(n), suffix);
  }

  /** Distinct numbers have distinct texts. */
  lemma NatToStringInjective(m: nat, n: nat)
    requires NatToString(m) == NatToString(n)
    ensures m == n
  {
    NatToStringParses(m);
    NatToStringParses(n);
  }

  /**
   * `s` holds no digit before position `a`, and `run` is the maximal run of
   * digits that starts at `a`.
   */
  ghost predicate FirstRunAt(s: string, run: string, a: int) {
    0 <= a && a + |run| <= |s| && s[a..a + |run|] == run &&
    (forall i :: 0 <= i < a ==> !IsDigit(s[i])) &&
    (a + |run| < |s| ==> !IsDigit(s[a + |run|]))
  }

  /** The first maximal run of digits in `s` (what `s.match(/\d+/)` finds), if any. */
  function FirstDigitRun(s: string): (r: Option<string>)
    ensures r.None? <==> forall i :: 0 <= i < |s| ==> !IsDigit(s[i])
    ensures r.Some? ==> r.value != [] && AllDigits(r.value) && exists a :: FirstRunAt(s, r.value, a)
  {
    if s == [] then
      None
    else if IsDigit(s[0]) then
      var d := LeadingDigits(s);
      assert s[0..|d|] == d;
      assert FirstRunAt(s, d, 0);
      Some(d)
    else
      FirstDigitRunShift(s, FirstDigitRun(s[1..]));
      FirstDigitRun(s[1..])
  }

  lemma FirstDigitRunShift(s: string, rest: Option<string>)
    requires s != [] && !IsDigit(s[0])
    requires rest.None? <==> forall i :: 0 <= i < |s[1..]| ==> !IsDigit(s[1..][i])
    requires rest.Some? ==> exists a :: FirstRunAt(s[1..], rest.value, a)
    ensures rest.None? <==> forall i :: 0 <= i < |s| ==> !IsDigit(s[i])
    ensures rest.Some? ==> exists a :: FirstRunAt(s, rest.value, a)
  {
    if rest.Some? {
      var a :| FirstRunAt(s[1..], rest.value, a);
      assert s[a + 1..a + 1 + |rest.value|] == s[1..][a..a + |rest.value|];
      forall i | 0 <= i < a + 1 ensures !IsDigit(s[i]) {
        if i > 0 { assert s[i] == s[1..][i - 1]; }
      }
      assert FirstRunAt(s, rest.value, a + 1);
      var k :| 0 <= k < |s[1..]| && IsDigit(s[1..][k]);
      assert IsDigit(s[k + 1]);
    } else {
      forall i | 0 <= i < |s| ensures !IsDigit(s[i]) {
        if i > 0 { assert s[i] == s[1..][i - 1]; }
      }
    }
  }
}
