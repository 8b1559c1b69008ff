/** The pieces of Go's `strings`, `strconv` and `path/filepath` packages that
    the core relies on, stated over `string` (a sequence of code points).
    Each function is written the way the Go library behaves for the inputs
    the core gives it; the lemmas at the end are what the callers use. */
module Strs {
  import opened Errors

  predicate HasPrefix(s: string, prefix: string) {
    |prefix| <= |s| && s[..|prefix|] == prefix
  }

  predicate EndsWith(s: string, suffix: string) {
    |suffix| <= |s| && s[|s| - |suffix|..] == suffix
  }

  /** strings.TrimPrefix */
  function TrimPrefix(s: string, prefix: string): (r: string)
    ensures HasPrefix(s, prefix) ==> s == prefix + r
    ensures !HasPrefix(s, prefix) ==> r == s
  {
    if HasPrefix(s, prefix) then s[|prefix|..] else s
  }

  /** `sep` occurs in `s` at index `i`. */
  predicate OccursAt(s: string, sep: string, i: nat) {
    i + |sep| <= |s| && s[i..i + |sep|] == sep
  }

  /** No occurrence of `sep` starts before index `n` of `s`. */
  predicate FreeBefore(s: string, sep: string, n: nat) {
    forall i: nat :: i < n ==> !OccursAt(s, sep, i)
  }

  /** strings.Split for a non-empty separator: the pieces between the
      leftmost non-overlapping occurrences of `sep`. */
  function Split(s: string, sep: string): (parts: seq<string>)
    requires |sep| > 0
    ensures |parts| >= 1
    decreases |s|
  {
    if |s| < |sep| then [s]
    else if s[..|sep|] == sep then [""] + Split(s[|sep|..], sep)
    else
      var rest := Split(s[1..], sep);
      [[s[0]] + rest[0]] + rest[1..]
  }

  /** strings.Join, the inverse of Split. */
  function Join(parts: seq<string>, sep: string): string
    requires |parts| >= 1
  {
    if |parts| == 1 then parts[0] else parts[0] + sep + Join(parts[1..], sep)
  }

  /** Gluing `c` onto the first piece glues it onto the joined string. */
  lemma JoinPrepend(c: string, parts: seq<string>, sep: string)
    requires |parts| >= 1
    ensures Join([c + parts[0]] + parts[1..], sep) == c + Join(parts, sep)
  {
    var glued := [c + parts[0]] + parts[1..];
    if |parts| > 1 {
      assert glued[1..] == parts[1..];
    }
  }

  /** Joining the pieces of a split with the same separator gives the input back. */
  lemma {:induction false} SplitJoin(s: string, sep: string)
    requires |sep| > 0
    ensures Join(Split(s, sep), sep) == s
    decreases |s|
  {
    if |s| < |sep| {
    } else if s[..|sep|] == sep {
      var tail := Split(s[|sep|..], sep);
      SplitJoin(s[|sep|..], sep);
      assert ([""] + tail)[1..] == tail;
      assert s == sep + s[|sep|..];
    } else {
      var rest := Split(s[1..], sep);
      assert Split(s, sep) == [[s[0]] + rest[0]] + rest[1..];
      SplitJoin(s[1..], sep);
      JoinPrepend([s[0]], rest, sep);
      assert s == [s[0]] + s[1..];
    }
  }

  /** A string with no occurrence of the separator splits into itself. */
  lemma {:induction false} SplitUnbroken(s: string, sep: string)
    requires |sep| > 0
    requires FreeBefore(s, sep, |s|)
    ensures Split(s, sep) == [s]
    decreases |s|
  {
    if |s| < |sep| {
    } else {
      assert !OccursAt(s, sep, 0);
      assert s[0..|sep|] == s[..|sep|];
      forall i: nat | i < |s[1..]|
        ensures !OccursAt(s[1..], sep, i)
      {
        assert !OccursAt(s, sep, i + 1);
        if i + |sep| <= |s[1..]| {
          assert s[1..][i..i + |sep|] == s[i + 1..i + 1 + |sep|];
        }
      }
      SplitUnbroken(s[1..], sep);
      assert [s[0]] + s[1..] == s;
    }
  }

  /** Dropping the first character of `a` keeps `a + sep` free of `sep`
      before the end of `a`. */
  lemma FreeShift(a: string, sep: string)
    requires |a| > 0 && |sep| > 0
    requires FreeBefore(a + sep, sep, |a|)
    ensures FreeBefore(a[1..] + sep, sep, |a| - 1)
  {
    assert (a[1..] + sep) == (a + sep)[1..];
    forall i: nat | i < |a| - 1
      ensures !OccursAt(a[1..] + sep, sep, i)
    {
      assert !OccursAt(a + sep, sep, i + 1);
      if i + |sep| <= |a[1..] + sep| {
        assert (a[1..] + sep)[i..i + |sep|] == (a + sep)[i + 1..i + 1 + |sep|];
      }
    }
  }

  /** Splitting `a + sep + b`, where no occurrence of `sep` starts inside `a`,
      yields `a` followed by the pieces of `b`. */
  lemma {:induction false} SplitAfterPiece(a: string, sep: string, b: string)
    requires |sep| > 0
    requires FreeBefore(a + sep, sep, |a|)
    ensures Split(a + sep + b, sep) == [a] + Split(b, sep)
    decreases |a|
  {
    var s := a + sep + b;
    if |a| == 0 {
      assert s[..|sep|] == sep;
      assert s[|sep|..] == b;
    } else {
      assert !OccursAt(a + sep, sep, 0);
      assert s[..|sep|] == (a + sep)[0..|sep|];
      FreeShift(a, sep);
      SplitAfterPiece(a[1..], sep, b);
      assert s[1..] == a[1..] + sep + b;
      var rest := Split(s[1..], sep);
      assert rest == [a[1..]] + Split(b, sep);
      assert Split(s, sep) == [[s[0]] + rest[0]] + rest[1..];
      assert [s[0]] + rest[0] == a;
      assert rest[1..] == Split(b, sep);
    }
  }

  /** Three pieces free of a one-character separator, joined by it,
      split back into themselves. */
  lemma ThreePieces(a: string, b: string, c: string, sep: string)
    requires |sep| == 1 && sep[0] !in a && sep[0] !in b && sep[0] !in c
    ensures Split(a + sep + b + sep + c, sep) == [a, b, c]
  {
    assert sep == [sep[0]];
    CharFree(a, sep[0]);
    CharFree(b, sep[0]);
    CharFree(c, sep[0]);
    SplitAfterPiece(a, sep, b + sep + c);
    SplitAfterPiece(b, sep, c);
    SplitUnbroken(c, sep);
    assert a + sep + b + sep + c == a + sep + (b + sep + c);
  }

  /** A one-character separator absent from `a` occurs nowhere in `a`. */
  lemma CharFree(a: string, c: char)
    requires c !in a
    ensures FreeBefore(a, [c], |a|)
    ensures FreeBefore(a + [c], [c], |a|)
  {
    forall i: nat | i < |a|
      ensures !OccursAt(a, [c], i) && !OccursAt(a + [c], [c], i)
    {
      assert a[i] != c;
      if i + 1 <= |a| {
        assert a[i..i + 1] == [a[i]];
      }
      assert (a + [c])[i..i + 1] == [a[i]];
    }
  }

  /** A separator whose first character is absent from `a` starts nowhere
      inside `a`, whatever follows it. */
  lemma LeadFree(a: string, sep: string, tail: string)
    requires |sep| > 0 && sep[0] !in a
    ensures FreeBefore(a + tail, sep, |a|)
  {
    forall i: nat | i < |a|
      ensures !OccursAt(a + tail, sep, i)
    {
      if i + |sep| <= |a + tail| {
        assert (a + tail)[i..i + |sep|][0] == a[i];
      }
    }
  }

  /** Appending a last piece free of a one-character separator adds exactly
      that piece to the split. */
  lemma {:induction false} SplitAppend(a: string, c: char, b: string)
    requires c !in b
    ensures Split(a + [c] + b, [c]) == Split(a, [c]) + [b]
    decreases |a|
  {
    var s := a + [c] + b;
    CharFree(b, c);
    SplitUnbroken(b, [c]);
    if |a| == 0 {
      assert s[..1] == [c] && s[1..] == b;
    } else {
      assert s[1..] == a[1..] + [c] + b;
      assert s[..1] == a[..1];
      SplitAppend(a[1..], c, b);
      var rest := Split(a[1..], [c]);
      assert |rest| >= 1;
      if a[..1] == [c] {
        assert Split(a, [c]) == [""] + rest;
      } else {
        assert Split(a, [c]) == [[a[0]] + rest[0]] + rest[1..];
        assert (rest + [b])[1..] == rest[1..] + [b];
      }
    }
  }

  /** strings.Cut at the first occurrence of a one-character separator. */
  datatype CutResult = CutResult(before: string, after: string, found: bool)

  function Cut(s: string, sep: char): (r: CutResult)
    ensures r.found ==> s == r.before + [sep] + r.after && sep !in r.before
    ensures !r.found ==> r.before == s && r.after == "" && sep !in s
  {
    if |s| == 0 then CutResult(s, "", false)
    else if s[0] == sep then CutResult("", s[1..], true)
    else
      var rest := Cut(s[1..], sep);
      assert s == [s[0]] + s[1..];
      CutResult([s[0]] + rest.before, rest.after, rest.found)
  }

  /** The end of the run of characters satisfying `drop` that starts at `i`. */
  function RunEnd(s: string, drop: char -> bool, i: nat): (k: nat)
    requires i <= |s|
    ensures i <= k <= |s|
    ensures forall j | i <= j < k :: drop(s[j])
    ensures k == |s| || !drop(s[k])
    decreases |s| - i
  {
    if i < |s| && drop(s[i]) then RunEnd(s, drop, i + 1) else i
  }

  /** The start of the run of characters satisfying `drop` that ends at `n`. */
  function RunStart(s: string, drop: char -> bool, n: nat): (k: nat)
    requires n <= |s|
    ensures k <= n
    ensures forall j | k <= j < n :: drop(s[j])
    ensures k == 0 || !drop(s[k - 1])
  {
    if n > 0 && drop(s[n - 1]) then RunStart(s, drop, n - 1) else n
  }

  /** Drops the longest prefix whose characters all satisfy `drop`. */
  function TrimLeftBy(s: string, drop: char -> bool): (r: string)
    ensures |r| <= |s| && r == s[|s| - |r|..]
    ensures forall k :: 0 <= k < |s| - |r| ==> drop(s[k])
    ensures r == [] || !drop(r[0])
  {
    s[RunEnd(s, drop, 0)..]
  }

  /** Drops the longest suffix whose characters all satisfy `drop`. */
  function TrimRightBy(s: string, drop: char -> bool): (r: string)
    ensures |r| <= |s| && r == s[..|r|]
    ensures forall k :: |r| <= k < |s| ==> drop(s[k])
    ensures r == [] || !drop(r[|r| - 1])
  {
    s[..RunStart(s, drop, |s|)]
  }

  /** Trims both ends; `strings.Trim(s, cutset)` with a one-character
      cutset and `strings.TrimSpace` are both of this form. */
  function TrimBy(s: string, drop: char -> bool): (r: string)
    ensures |r| <= |s|
    ensures r == [] || (!drop(r[0]) && !drop(r[|r| - 1]))
    ensures (forall k :: 0 <= k < |s| ==> drop(s[k])) ==> r == []
    ensures |s| > 0 && !drop(s[0]) && !drop(s[|s| - 1]) ==> r == s
  {
    TrimRightBy(TrimLeftBy(s, drop), drop)
  }

  /** unicode.IsSpace */
  predicate IsSpace(c: char) {
    c == '\t' || c == '\n' || c == '\U{000B}' || c == '\U{000C}' || c == '\r' || c == ' '
    || c == '\U{0085}' || c == '\U{00A0}' || c == '\U{1680}'
    || ('\U{2000}' <= c <= '\U{200A}')
    || c == '\U{2028}' || c == '\U{2029}' || c == '\U{202F}' || c == '\U{205F}' || c == '\U{3000}'
  }

  /** strings.TrimSpace */
  function TrimSpace(s: string): string {
    TrimBy(s, IsSpace)
  }

  predicate IsDigit(c: char) { '0' <= c <= '9' }

  /** strings.IndexAny(s, "1234567890"): the index of the first decimal digit, or -1. */
  function FirstDigit(s: string): (r: int)
    ensures -1 <= r < |s|
    ensures r == -1 ==> forall k :: 0 <= k < |s| ==> !IsDigit(s[k])
    ensures r >= 0 ==> IsDigit(s[r]) && forall k :: 0 <= k < r ==> !IsDigit(s[k])
  {
    if |s| == 0 then -1
    else if IsDigit(s[0]) then 0
    else
      var rest := FirstDigit(s[1..]);
      if rest == -1 then -1 else rest + 1
  }

  function LowerChar(c: char): char {
    if 'A' <= c <= 'Z' then (c as int + 32) as char else c
  }

  /** strings.ToLower, for the ASCII letters. */
  function ToLower(s: string): (r: string)
    ensures |r| == |s|
    ensures forall k :: 0 <= k < |s| ==> r[k] == LowerChar(s[k])
  {
    if |s| == 0 then "" else [LowerChar(s[0])] + ToLower(s[1..])
  }

  function DigitChar(d: nat): char
    requires d < 10
  {
    ('0' as int + d) as char
  }

  /** strconv.FormatUint / fmt's %d for a non-negative integer. */
  function Decimal(n: nat): (r: string)
    ensures |r| >= 1
    ensures forall k :: 0 <= k < |r| ==> IsDigit(r[k])
    ensures r[0] == '0' ==> n == 0
  {
    if n < 10 then [DigitChar(n)] else Decimal(n / 10) + [DigitChar(n % 10)]
  }

  /** The value of a non-empty string of decimal digits; the reference
      against which Decimal is checked. */
  function DigitsValue(s: string): (v: nat)
    requires forall k :: 0 <= k < |s| ==> IsDigit(s[k])
  {
    if |s| == 0 then 0
    else
      assert IsDigit(s[|s| - 1]);
      10 * DigitsValue(s[..|s| - 1]) + (s[|s| - 1] as int - '0' as int)
  }

  /** Decimal is the canonical decimal spelling: reading it back gives the number. */
  lemma {:induction false} DecimalValue(n: nat)
    ensures DigitsValue(Decimal(n)) == n
  {
    if n >= 10 {
      DecimalValue(n / 10);
      var d := Decimal(n);
      assert d[..|d| - 1] == Decimal(n / 10);
    }
  }

  /** Different numbers have different spellings. */
  lemma DecimalInjective(m: nat, n: nat)
    requires Decimal(m) == Decimal(n)
    ensures m == n
  {
    DecimalValue(m);
    DecimalValue(n);
  }

  /** fmt's %d for any integer. */
  function IntDecimal(n: int): (r: string)
    ensures n >= 0 ==> r == Decimal(n)
    ensures n < 0 ==> r == "-" + Decimal(-n)
  {
    if n >= 0 then Decimal(n) else "-" + Decimal(-n)
  }

  /** filepath.Base for slash-separated paths. */
  function Base(path: string): (r: string)
    ensures |r| >= 1
    ensures r == "/" || '/' !in r
  {
    if path == "" then "."
    else
      var stripped := TrimRightBy(path, c => c == '/');
      if stripped == "" then "/"
      else AfterLastSlash(stripped)
  }

  /** The index just past the last '/' before index `n`, or 0. */
  function SuffixStart(s: string, n: nat): (k: nat)
    requires n <= |s|
    ensures k <= n
    ensures k > 0 ==> s[k - 1] == '/'
    ensures forall j | k <= j < n :: s[j] != '/'
  {
    if n == 0 then 0
    else if s[n - 1] == '/' then n
    else SuffixStart(s, n - 1)
  }

  /** The part of `s` after its last '/', or all of `s`. */
  function AfterLastSlash(s: string): (r: string)
    requires s != [] && s[|s| - 1] != '/'
    ensures 1 <= |r| <= |s| && '/' !in r
    ensures r == s[|s| - |r|..]
    ensures |r| < |s| ==> s[|s| - |r| - 1] == '/'
  {
    s[SuffixStart(s, |s|)..]
  }
}
