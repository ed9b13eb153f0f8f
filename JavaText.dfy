/** The parts of `java.lang.String`, `Integer` and `Long` that the two
    activities rely on, stated over `string` (a sequence of characters). */
module JavaText {
  import opened Wrappers

  /** Range of Java's `int`. */
  const IntMin: int := -0x8000_0000
  const IntMax: int := 0x7FFF_FFFF
  /** Range of Java's `long`. */
  const LongMin: int := -0x8000_0000_0000_0000
  const LongMax: int := 0x7FFF_FFFF_FFFF_FFFF

  predicate StartsWith(s: string, prefix: string) {
    |prefix| <= |s| && s[..|prefix|] == prefix
  }

  predicate EndsWith(s: string, suffix: string) {
    |suffix| <= |s| && s[|s| - |suffix|..] == suffix
  }

  // ---------------------------------------------------------------------
  // indexOf and split
  // ---------------------------------------------------------------------

  /** `s.indexOf(c)` for a character that occurs in `s`. */
  function IndexOf(s: string, c: char): (i: nat)
    requires c in s
    ensures i < |s| && s[i] == c && c !in s[..i]
  {
    if s[0] == c then 0
    else
      var j := IndexOf(s[1..], c);
      assert s[..j + 1] == [s[0]] + s[1..][..j];
      j + 1
  }

  lemma IndexOfAfter(a: string, c: char, b: string)
    requires c !in a
    ensures c in a + [c] + b && IndexOf(a + [c] + b, c) == |a|
  {
    var s := a + [c] + b;
    assert s[|a|] == c;
    var i := IndexOf(s, c);
    forall j | 0 <= j < i
      ensures s[j] != c
    {
      assert s[..i][j] == s[j];
    }
  }

  /** Every piece between occurrences of `sep`, empty pieces included
      (what `split` returns before Java removes trailing empty strings). */
  function SplitAll(s: string, sep: char): (pieces: seq<string>)
    ensures |pieces| >= 1
    ensures forall k :: 0 <= k < |pieces| ==> sep !in pieces[k]
    decreases |s|
  {
    if sep !in s then [s]
    else
      var i := IndexOf(s, sep);
      [s[..i]] + SplitAll(s[i + 1..], sep)
  }

  /** `String.join(sep, pieces)`. */
  function Join(pieces: seq<string>, sep: char): string
    requires |pieces| >= 1
  {
    if |pieces| == 1 then pieces[0] else pieces[0] + [sep] + Join(pieces[1..], sep)
  }

  lemma {:induction false} JoinSplitAll(s: string, sep: char)
    ensures Join(SplitAll(s, sep), sep) == s
    decreases |s|
  {
    if sep in s {
      var i := IndexOf(s, sep);
      var head, rest := s[..i], s[i + 1..];
      var pieces := SplitAll(s, sep);
      assert pieces == [head] + SplitAll(rest, sep);
      assert pieces[0] == head && pieces[1..] == SplitAll(rest, sep);
      JoinSplitAll(rest, sep);
      assert Join(pieces, sep) == head + [sep] + rest;
      assert s == head + [sep] + rest;
    }
  }

  lemma {:induction false} SplitAllJoin(pieces: seq<string>, sep: char)
    requires |pieces| >= 1
    requires forall k :: 0 <= k < |pieces| ==> sep !in pieces[k]
    ensures SplitAll(Join(pieces, sep), sep) == pieces
  {
    if |pieces| > 1 {
      var head, tail := pieces[0], pieces[1..];
      var rest := Join(tail, sep);
      assert Join(pieces, sep) == head + [sep] + rest;
      SplitAllAt(head, sep, rest);
      assert SplitAll(rest, sep) == tail by {
        forall k | 0 <= k < |tail|
          ensures sep !in tail[k]
        {
          assert tail[k] == pieces[k + 1];
        }
        SplitAllJoin(tail, sep);
      }
      assert pieces == [head] + tail;
    }
  }

  /** The first piece ends at the first separator. */
  lemma SplitAllAt(head: string, sep: char, rest: string)
    requires sep !in head
    ensures SplitAll(head + [sep] + rest, sep) == [head] + SplitAll(rest, sep)
  {
    var s := head + [sep] + rest;
    IndexOfAfter(head, sep, rest);
    assert s[..|head|] == head && s[|head| + 1..] == rest;
  }

  /** Removes the empty strings at the end of `pieces`. */
  function DropTrailingEmpty(pieces: seq<string>): (r: seq<string>)
    ensures |r| <= |pieces| && r == pieces[..|r|]
    ensures r == [] || r[|r| - 1] != ""
    ensures forall k :: |r| <= k < |pieces| ==> pieces[k] == ""
  {
    if |pieces| == 0 || pieces[|pieces| - 1] != "" then pieces
    else DropTrailingEmpty(pieces[..|pieces| - 1])
  }

  /** `s.split(sep)` with Java's default limit 0, for a one-character literal
      separator: when `sep` does not occur the result is `[s]` (so `""` gives
      `[""]`); otherwise the pieces between separators with every trailing
      empty piece removed (so `"a||"` gives `["a"]` and `"|"` gives `[]`). */
  function Split(s: string, sep: char): (pieces: seq<string>)
    ensures forall k :: 0 <= k < |pieces| ==> sep !in pieces[k]
  {
    if sep !in s then [s] else DropTrailingEmpty(SplitAll(s, sep))
  }

  /** Splitting a join of separator-free pieces gives the pieces back, as long
      as the last piece is not empty (Java would drop it). */
  lemma SplitJoin(pieces: seq<string>, sep: char)
    requires |pieces| >= 1 && pieces[|pieces| - 1] != ""
    requires forall k :: 0 <= k < |pieces| ==> sep !in pieces[k]
    ensures Split(Join(pieces, sep), sep) == pieces
  {
    if |pieces| > 1 {
      IndexOfAfter(pieces[0], sep, Join(pieces[1..], sep));
      SplitAllJoin(pieces, sep);
    }
  }

  /** `s.split(sep, 2)`: the text before the first `sep` and the text after
      it, or `None` when `sep` does not occur (Java returns `[s]`). */
  function SplitAtFirst(s: string, sep: char): (r: Option<(string, string)>)
    ensures r.Some? <==> sep in s
    ensures r.Some? ==> sep !in r.value.0 && s == r.value.0 + [sep] + r.value.1
  {
    if sep in s then
      var i := IndexOf(s, sep);
      assert s == s[..i] + [sep] + s[i + 1..];
      Some((s[..i], s[i + 1..]))
    else None
  }

  /** The first separator is the one after a separator-free head. */
  lemma SplitAtFirstOf(head: string, sep: char, tail: string)
    requires sep !in head
    ensures SplitAtFirst(head + [sep] + tail, sep) == Some((head, tail))
  {
    var s := head + [sep] + tail;
    IndexOfAfter(head, sep, tail);
    assert s[..|head|] == head;
    assert s[|head| + 1..] == tail;
  }

  // ---------------------------------------------------------------------
  // trim
  // ---------------------------------------------------------------------

  /** What `String.trim` removes from both ends: every character up to U+0020. */
  predicate IsTrimmable(c: char) {
    c <= ' '
  }

  function TrimStart(s: string): (r: string)
    ensures |r| <= |s| && r == s[|s| - |r|..]
    ensures r == [] || !IsTrimmable(r[0])
    ensures forall k :: 0 <= k < |s| - |r| ==> IsTrimmable(s[k])
  {
    if s == [] || !IsTrimmable(s[0]) then s else TrimStart(s[1..])
  }

  function TrimEnd(s: string): (r: string)
    ensures |r| <= |s| && r == s[..|r|]
    ensures r == [] || !IsTrimmable(r[|r| - 1])
    ensures forall k :: |r| <= k < |s| ==> IsTrimmable(s[k])
  {
    if s == [] || !IsTrimmable(s[|s| - 1]) then s else TrimEnd(s[..|s| - 1])
  }

  /** A string with nothing for `trim` to remove. */
  predicate IsTrimmed(s: string) {
    s == [] || (!IsTrimmable(s[0]) && !IsTrimmable(s[|s| - 1]))
  }

  /** `s.trim()`: the input without its leading and trailing characters at
      or below U+0020, and nothing else removed. */
  function Trim(s: string): (r: string)
    ensures IsTrimmed(r) && |r| <= |s|
    ensures exists i :: TrimmedAt(s, i, r)
  {
    var t := TrimStart(s);
    var r := TrimEnd(t);
    assert r != [] ==> r[0] == t[0];
    assert TrimmedAt(s, |s| - |t|, r);
    r
  }

  /** `r` is the slice of `s` starting at `i`, and everything of `s` outside
      that slice is trimmable. */
  predicate TrimmedAt(s: string, i: int, r: string) {
    0 <= i <= |s| - |r| && r == s[i..i + |r|]
    && (forall k :: 0 <= k < i ==> IsTrimmable(s[k]))
    && (forall k :: i + |r| <= k < |s| ==> IsTrimmable(s[k]))
  }

  lemma TrimOfTrimmed(s: string)
    requires IsTrimmed(s)
    ensures Trim(s) == s
  {
  }

  /** Trimming twice is trimming once. */
  lemma TrimIdempotent(s: string)
    ensures Trim(Trim(s)) == Trim(s)
  {
    TrimOfTrimmed(Trim(s));
  }

  // ---------------------------------------------------------------------
  // equalsIgnoreCase against an ASCII literal
  // ---------------------------------------------------------------------

  predicate IsAscii(s: string) {
    forall k :: 0 <= k < |s| ==> s[k] < '\U{0080}'
  }

  function AsciiLower(c: char): char {
    if 'A' <= c <= 'Z' then (c as int + 32) as char else c
  }

  /** Java's case folding of one character (`toLowerCase(toUpperCase(c))`) as
      far as it can land on ASCII: ASCII letters fold to lower case, and four
      non-ASCII letters fold onto ASCII ones (capital I with dot and dotless i
      onto `i`, long s onto `s`, the Kelvin sign onto `k`); every other
      non-ASCII character folds onto a non-ASCII one, kept here as itself. */
  function FoldTowardAscii(c: char): char {
    if c < '\U{0080}' then AsciiLower(c)
    else if c == '\U{0130}' || c == '\U{0131}' then 'i'
    else if c == '\U{017F}' then 's'
    else if c == '\U{212A}' then 'k'
    else c
  }

  /** `s.equalsIgnoreCase(lit)` for an ASCII literal `lit` (the only kind the
      activities compare against): same length, and each character folds onto
      the literal's character. */
  predicate EqualsIgnoreCase(s: string, lit: string) {
    |s| == |lit| && forall k :: 0 <= k < |s| ==> FoldTowardAscii(s[k]) == AsciiLower(lit[k])
  }

  /** An ASCII string equals itself ignoring case. */
  lemma EqualsIgnoreCaseSelf(s: string)
    requires IsAscii(s)
    ensures EqualsIgnoreCase(s, s)
  {
    forall k | 0 <= k < |s|
      ensures FoldTowardAscii(s[k]) == AsciiLower(s[k])
    {
    }
  }

  function LowerAscii(s: string): (r: string)
    ensures |r| == |s| && forall k :: 0 <= k < |s| ==> r[k] == AsciiLower(s[k])
  {
    if s == [] then [] else [AsciiLower(s[0])] + LowerAscii(s[1..])
  }

  /** On ASCII input, `equalsIgnoreCase` is equality after lower-casing both sides. */
  lemma EqualsIgnoreCaseOnAscii(s: string, lit: string)
    requires IsAscii(s) && IsAscii(lit)
    ensures EqualsIgnoreCase(s, lit) <==> LowerAscii(s) == LowerAscii(lit)
  {
    if LowerAscii(s) == LowerAscii(lit) {
      forall k | 0 <= k < |s| ensures FoldTowardAscii(s[k]) == AsciiLower(lit[k]) {
        assert LowerAscii(s)[k] == LowerAscii(lit)[k];
      }
    }
  }

  // ---------------------------------------------------------------------
  // Decimal numbers
  // ---------------------------------------------------------------------

  predicate IsDigit(c: char) {
    '0' <= c <= '9'
  }

  predicate AllDigits(s: string) {
    forall k :: 0 <= k < |s| ==> IsDigit(s[k])
  }

  function DigitValue(c: char): nat
    requires IsDigit(c)
  {
    c as int - '0' as int
  }

  function DigitChar(d: nat): char
    requires d < 10
  {
    ('0' as int + d) as char
  }

  /** The value of a string of decimal digits (0 for the empty string). */
  function DigitsValue(s: string): nat
    requires AllDigits(s)
  {
    if s == [] then 0 else DigitsValue(s[..|s| - 1]) * 10 + DigitValue(s[|s| - 1])
  }

  /** The decimal digits of `n`, without leading zeros. */
  function DecimalString(n: nat): (r: string)
    ensures |r| >= 1 && AllDigits(r)
    ensures r[0] == '0' ==> n == 0
  {
    if n < 10 then [DigitChar(n)] else DecimalString(n / 10) + [DigitChar(n % 10)]
  }

  /** The digits of a two- or three-digit number, one by one. */
  lemma DecimalStringOfSmall(n: nat)
    requires 10 <= n < 1000
    ensures n < 100 ==> DecimalString(n) == [DigitChar(n / 10), DigitChar(n % 10)]
    ensures 100 <= n ==> DecimalString(n) == [DigitChar(n / 100), DigitChar(n / 10 % 10), DigitChar(n % 10)]
  {
    if 100 <= n {
      assert DecimalString(n / 10) == [DigitChar(n / 100), DigitChar(n / 10 % 10)];
    }
  }

  lemma {:induction false} DecimalStringValue(n: nat)
    ensures DigitsValue(DecimalString(n)) == n
  {
    if n >= 10 {
      DecimalStringValue(n / 10);
      var r := DecimalString(n);
      assert r[..|r| - 1] == DecimalString(n / 10);
    }
  }

  /** `Integer.toString(n)` / `String.valueOf(n)` / `%d` with ASCII digits. */
  function IntToString(n: int): string {
    if n < 0 then "-" + DecimalString(-n) else DecimalString(n)
  }

  /** `Integer.parseInt(s)` (bounds `IntMin`..`IntMax`) and `Long.parseLong(s)`
      (bounds `LongMin`..`LongMax`): an optional `-` or `+`, then one or more
      digits whose value lies within the bounds. Anything else, the empty
      string and a lone sign included, throws `NumberFormatException`: `None`. */
  function ParseInteger(s: string, lo: int, hi: int): (r: Option<int>)
    ensures s == [] ==> r == None
    ensures r.Some? ==> lo <= r.value <= hi
  {
    if s == [] then None
    else
      var digits := if s[0] == '-' || s[0] == '+' then s[1..] else s;
      if digits == [] || !AllDigits(digits) then None
      else
        var v: int := if s[0] == '-' then -(DigitsValue(digits) as int) else DigitsValue(digits);
        if lo <= v <= hi then Some(v) else None
  }

  /** A sign-free digit string: with no sign, with `+` and with `-`, it parses
      to its value (negated after `-`) exactly when that value lies within the
      bounds. */
  lemma ParseSignedDigits(d: string, lo: int, hi: int)
    requires d != [] && AllDigits(d)
    ensures ParseInteger(d, lo, hi) == if lo <= DigitsValue(d) <= hi then Some(DigitsValue(d) as int) else None
    ensures ParseInteger("+" + d, lo, hi) == if lo <= DigitsValue(d) <= hi then Some(DigitsValue(d) as int) else None
    ensures ParseInteger("-" + d, lo, hi) == if lo <= -(DigitsValue(d) as int) <= hi then Some(-(DigitsValue(d) as int)) else None
  {
    assert IsDigit(d[0]);
    assert ("+" + d)[1..] == d;
    assert ("-" + d)[1..] == d;
  }

  /** Any other text throws: a character that is not a digit, unless it is the
      sign in front of at least one more character, makes the parse fail. */
  lemma ParseRejectsNonDigit(s: string, k: nat, lo: int, hi: int)
    requires k < |s| && !IsDigit(s[k])
    requires !(k == 0 && (s[0] == '-' || s[0] == '+') && |s| > 1)
    ensures ParseInteger(s, lo, hi) == None
  {
    if s[0] == '-' || s[0] == '+' {
      if k > 0 {
        assert s[1..][k - 1] == s[k];
      }
    }
  }

  /** Parsing reads back what `Integer.toString` wrote, for every value in range. */
  lemma ParseIntToString(n: int, lo: int, hi: int)
    requires lo <= n <= hi
    ensures ParseInteger(IntToString(n), lo, hi) == Some(n)
  {
    var d := DecimalString(if n < 0 then -n else n);
    DecimalStringValue(if n < 0 then -n else n);
    assert IsDigit(d[0]);
    if n < 0 {
      assert ("-" + d)[1..] == d;
    }
  }

  /** A value too large for the bounds is refused even when well formed. */
  lemma ParseRefusesOverflow(n: nat, lo: int, hi: int)
    requires hi < n
    ensures ParseInteger(DecimalString(n), lo, hi) == None
  {
    DecimalStringValue(n);
    assert IsDigit(DecimalString(n)[0]);
  }

  /** A value too small for the bounds is refused even when well formed. */
  lemma ParseRefusesUnderflow(n: nat, lo: int, hi: int)
    requires -(n as int) < lo
    ensures ParseInteger("-" + DecimalString(n), lo, hi) == None
  {
    DecimalStringValue(n);
    ParseSignedDigits(DecimalString(n), lo, hi);
  }

  /** `s.replaceAll("[^0-9]", "")`: the ASCII digits of `s`, in order. */
  function KeepDigits(s: string): (r: string)
    ensures AllDigits(r) && |r| <= |s|
    ensures r == [] <==> forall k :: 0 <= k < |s| ==> !IsDigit(s[k])
  {
    if s == [] then []
    else
      var rest := KeepDigits(s[1..]);
      assert forall k :: 1 <= k < |s| ==> s[k] == s[1..][k - 1];
      (if IsDigit(s[0]) then [s[0]] else []) + rest
  }

  /** Deleting non-digits works piece by piece, so the kept digits stay in
      their input order. */
  lemma {:induction false} KeepDigitsAppend(a: string, b: string)
    ensures KeepDigits(a + b) == KeepDigits(a) + KeepDigits(b)
  {
    if a == [] {
      assert a + b == b;
    } else {
      assert (a + b)[0] == a[0] && (a + b)[1..] == a[1..] + b;
      KeepDigitsAppend(a[1..], b);
    }
  }

  /** One character is kept exactly when it is a digit. */
  lemma KeepDigitsChar(c: char)
    ensures KeepDigits([c]) == if IsDigit(c) then [c] else []
  {
  }

  lemma {:induction false} KeepDigitsOfDigits(s: string)
    requires AllDigits(s)
    ensures KeepDigits(s) == s
  {
    if s != [] {
      KeepDigitsOfDigits(s[1..]);
      assert s == [s[0]] + s[1..];
    }
  }
}
