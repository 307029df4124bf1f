/**
 * Text helpers for tab-separated report lines. Both scripts strip a line of
 * its surrounding whitespace and split it at tabs; these functions give
 * Python's meaning to that and to the few string operations the scripts
 * apply to the fields.
 */
module Fields {

  /** The fields of one line. `split` never returns an empty list. */
  type Row = s: seq<string> | |s| > 0 witness [""]

  /** Python indexing: a negative index counts from the end of the row. */
  function At(l: Row, i: int): (f: string)
    requires -|l| <= i < |l|
    ensures f in l
  {
    if i < 0 then l[|l| + i] else l[i]
  }

  function Max(a: int, b: int): int { if a < b then b else a }

  predicate IsDigit(c: char) { '0' <= c <= '9' }

  predicate AllDigits(s: string) {
    |s| == 0 || (AllDigits(s[..|s| - 1]) && IsDigit(s[|s| - 1]))
  }

  /** A run of digits holds only digits. */
  lemma {:induction false} AllDigitsMeaning(s: string)
    requires AllDigits(s)
    ensures forall i :: 0 <= i < |s| ==> IsDigit(s[i])
  {
    if |s| > 0 {
      AllDigitsMeaning(s[..|s| - 1]);
      assert forall i :: 0 <= i < |s| - 1 ==> s[..|s| - 1][i] == s[i];
    }
  }

  /** A run of digits holds no comma. */
  lemma DigitsNoComma(s: string)
    requires AllDigits(s)
    ensures ',' !in s
  {
    AllDigitsMeaning(s);
  }

  /** `str.isdigit`, restricted to ASCII: a non-empty run of digits. */
  predicate IsDigits(s: string) {
    |s| > 0 && AllDigits(s)
  }

  function DigitValue(c: char): nat
    requires IsDigit(c)
  {
    (c as int - '0' as int) as nat
  }

  function DigitChar(d: nat): (c: char)
    requires d < 10
    ensures IsDigit(c) && DigitValue(c) == d
  {
    ('0' as int + d) as char
  }

  /** `int(s)` for a string of ASCII digits; leading zeros are allowed. */
  function Value(s: string): nat
    requires AllDigits(s)
  {
    if |s| == 0 then 0 else 10 * Value(s[..|s| - 1]) + DigitValue(s[|s| - 1])
  }

  /** The decimal rendering of `n`, without leading zeros. */
  function Decimal(n: nat): (s: string)
    ensures IsDigits(s)
    ensures |s| > 1 ==> s[0] != '0'
  {
    if n < 10 then [DigitChar(n)] else Decimal(n / 10) + [DigitChar(n % 10)]
  }

  /** Reading back a rendered number gives the number. */
  lemma {:induction false} ValueOfDecimal(n: nat)
    ensures Value(Decimal(n)) == n
  {
    if n >= 10 {
      var s := Decimal(n);
      assert s[..|s| - 1] == Decimal(n / 10);
      ValueOfDecimal(n / 10);
    }
  }

  /** `str.startswith`. */
  predicate StartsWith(s: string, prefix: string) {
    |prefix| <= |s| && s[..|prefix|] == prefix
  }

  /** Whitespace as `str.isspace` classifies the ASCII characters. */
  predicate IsSpace(c: char) {
    c == ' ' || '\t' <= c <= '\r' || '\U{1C}' <= c <= '\U{1F}'
  }

  /** The first position at or after `i` that does not hold whitespace, or `|s|`. */
  function SkipSpaces(s: string, i: nat): (j: nat)
    requires i <= |s|
    ensures i <= j <= |s|
    decreases |s| - i
  {
    if i < |s| && IsSpace(s[i]) then SkipSpaces(s, i + 1) else i
  }

  /** Where `s[..j]` ends once its trailing whitespace is dropped. */
  function SkipSpacesBack(s: string, j: nat): (i: nat)
    requires j <= |s|
    ensures i <= j
  {
    if j > 0 && IsSpace(s[j - 1]) then SkipSpacesBack(s, j - 1) else j
  }

  /** `str.strip()`: the slice between the leading and the trailing whitespace. */
  function Strip(s: string): string {
    var lo := SkipSpaces(s, 0);
    s[lo..Max(lo, SkipSpacesBack(s, |s|))]
  }

  lemma {:induction false} SkipSpacesMeaning(s: string, i: nat)
    requires i <= |s|
    ensures var j := SkipSpaces(s, i);
      (forall k :: i <= k < j ==> IsSpace(s[k])) && (j < |s| ==> !IsSpace(s[j]))
    decreases |s| - i
  {
    if i < |s| && IsSpace(s[i]) {
      SkipSpacesMeaning(s, i + 1);
    }
  }

  lemma {:induction false} SkipSpacesBackMeaning(s: string, j: nat)
    requires j <= |s|
    ensures var i := SkipSpacesBack(s, j);
      (forall k :: i <= k < j ==> IsSpace(s[k])) && (i > 0 ==> !IsSpace(s[i - 1]))
  {
    if j > 0 && IsSpace(s[j - 1]) {
      SkipSpacesBackMeaning(s, j - 1);
    }
  }

  /**
   * `strip` keeps a stretch of `s` and drops only whitespace around it; what
   * it keeps neither starts nor ends with whitespace.
   */
  lemma StripMeaning(s: string)
    ensures exists lo, hi ::
              0 <= lo <= hi <= |s| && Strip(s) == s[lo..hi] &&
              (forall k :: 0 <= k < lo ==> IsSpace(s[k])) &&
              (forall k :: hi <= k < |s| ==> IsSpace(s[k]))
    ensures var r := Strip(s); r != [] ==> !IsSpace(r[0]) && !IsSpace(r[|r| - 1])
  {
    SkipSpacesMeaning(s, 0);
    SkipSpacesBackMeaning(s, |s|);
    var lo := SkipSpaces(s, 0);
    var hi := Max(lo, SkipSpacesBack(s, |s|));
    assert Strip(s) == s[lo..hi];
  }

  /** A field without surrounding whitespace is its own strip. */
  lemma StripUnpadded(s: string)
    requires s != [] ==> !IsSpace(s[0]) && !IsSpace(s[|s| - 1])
    ensures Strip(s) == s
  {
  }

  /** What `int()` accepts in the wide layout: an optional sign, then digits. */
  predicate IsIntLiteral(s: string) {
    IsDigits(s) || (|s| >= 2 && (s[0] == '-' || s[0] == '+') && IsDigits(s[1..]))
  }

  function IntValue(s: string): int
    requires IsIntLiteral(s)
  {
    if IsDigits(s) then Value(s) as int
    else if s[0] == '-' then 0 - Value(s[1..]) as int
    else Value(s[1..]) as int
  }

  /** The first position of `c` in `s`. */
  function IndexOf(s: string, c: char): (i: nat)
    requires c in s
    ensures i < |s| && s[i] == c && c !in s[..i]
  {
    if s[0] == c then 0 else 1 + IndexOf(s[1..], c)
  }

  /** Glues parts back together with `sep` between them: `sep.join(parts)`. */
  function Join(parts: seq<string>, sep: char): string
    requires |parts| > 0
  {
    if |parts| == 1 then parts[0] else parts[0] + [sep] + Join(parts[1..], sep)
  }

  /** `s.split(sep)`: the pieces between the separators, in order. */
  function Split(s: string, sep: char): (parts: seq<string>)
    ensures |parts| > 0
    decreases |s|
  {
    if sep !in s then [s] else [s[..IndexOf(s, sep)]] + Split(s[IndexOf(s, sep) + 1..], sep)
  }

  /**
   * The pieces hold no separator, there is more than one exactly when the
   * string holds a separator, and joining them back gives the string.
   */
  lemma {:induction false} SplitMeaning(s: string, sep: char)
    ensures var parts := Split(s, sep);
      (forall i :: 0 <= i < |parts| ==> sep !in parts[i]) &&
      Join(parts, sep) == s &&
      (sep in s <==> |parts| > 1)
    decreases |s|
  {
    if sep in s {
      var i := IndexOf(s, sep);
      SplitMeaning(s[i + 1..], sep);
      assert s == s[..i] + [sep] + s[i + 1..];
    }
  }

  /** Two separator-free pieces joined by one separator split back into those two. */
  lemma SplitPair(a: string, b: string, sep: char)
    requires sep !in a && sep !in b
    ensures Split(a + [sep] + b, sep) == [a, b]
  {
    var s := a + [sep] + b;
    assert s[..|a|] == a;
    assert s[..IndexOf(s, sep)] == a;
    var i := IndexOf(s, sep);
    assert s[i + 1..] == b;
  }

  /** `line.strip().split("\t")`: the fields both scripts read from a line of a file. */
  function Tokens(line: string): Row {
    Split(Strip(line), '\t')
  }
}
