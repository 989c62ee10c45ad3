/** The few `java.lang.String`, `Integer` and htsjdk `StringUtil` operations the
    core relies on, with Java's semantics written out. */
module JavaStrings {
  import opened Wrappers

  /** `String.startsWith`. */
  predicate StartsWith(s: string, prefix: string) {
    |prefix| <= |s| && s[..|prefix|] == prefix
  }

  /** `String.endsWith`. */
  predicate EndsWith(s: string, suffix: string) {
    |suffix| <= |s| && s[|s| - |suffix|..] == suffix
  }

  /** `String.indexOf(char)` for a character that occurs. */
  function IndexOf(s: string, c: char): (i: nat)
    requires c in s
    ensures i < |s| && s[i] == c
    ensures forall j :: 0 <= j < i ==> s[j] != c
  {
    if s[0] == c then 0
    else
      assert s == [s[0]] + s[1..];
      IndexOf(s[1..], c) + 1
  }

  /** `String.lastIndexOf(char)`: -1 when `c` does not occur. */
  function LastIndexOf(s: string, c: char): (i: int)
    ensures -1 <= i < |s|
    ensures 0 <= i ==> s[i] == c
    ensures forall j :: i < j < |s| ==> s[j] != c
  {
    if |s| == 0 then -1
    else if s[|s| - 1] == c then |s| - 1
    else LastIndexOf(s[..|s| - 1], c)
  }

  /** `Character.toLowerCase` on the ASCII letters. */
  function LowerChar(c: char): char {
    if 'A' <= c <= 'Z' then (c as int + 32) as char else c
  }

  /** `String.toLowerCase`, ASCII letters only. */
  function ToLower(s: string): (r: string)
    ensures |r| == |s|
    ensures forall i :: 0 <= i < |s| ==> r[i] == LowerChar(s[i])
  {
    if s == [] then [] else [LowerChar(s[0])] + ToLower(s[1..])
  }

  lemma ToLowerAppend(a: string, b: string)
    ensures ToLower(a + b) == ToLower(a) + ToLower(b)
  {
    assert forall i :: 0 <= i < |a + b| ==> ToLower(a + b)[i] == (ToLower(a) + ToLower(b))[i];
  }

  /** The leading characters `String.trim` removes: code points up to U+0020. */
  function TrimStart(s: string): (r: string)
    ensures |r| <= |s| && r == s[|s| - |r|..]
    ensures r == [] || r[0] > ' '
  {
    if s != [] && s[0] <= ' ' then TrimStart(s[1..]) else s
  }

  function TrimEnd(s: string): (r: string)
    ensures |r| <= |s| && r == s[..|r|]
    ensures r == [] || r[|r| - 1] > ' '
  {
    if s != [] && s[|s| - 1] <= ' ' then TrimEnd(s[..|s| - 1]) else s
  }

  /** `String.trim`: no character up to U+0020 is left at either end. */
  function Trim(s: string): (r: string)
    ensures r == [] || (r[0] > ' ' && r[|r| - 1] > ' ')
  {
    TrimEnd(TrimStart(s))
  }

  /** `trim` keeps a slice of `s` and cuts off only characters up to U+0020 around it. */
  lemma TrimIsSlice(s: string)
    ensures var r := Trim(s);
            var i := |s| - |TrimStart(s)|;
            && i + |r| <= |s| && r == s[i..i + |r|]
            && (forall k :: 0 <= k < i ==> s[k] <= ' ')
            && (forall k :: i + |r| <= k < |s| ==> s[k] <= ' ')
  {
    TrimStartCuts(s);
    TrimSlice(s);
    TrimTail(s);
  }

  /** `TrimStart` cuts only characters up to U+0020. */
  lemma {:induction false} TrimStartCuts(s: string)
    ensures forall k :: 0 <= k < |s| - |TrimStart(s)| ==> s[k] <= ' '
  {
    if s != [] && s[0] <= ' ' {
      TrimStartCuts(s[1..]);
      assert forall k :: 1 <= k < |s| ==> s[k] == s[1..][k - 1];
    }
  }

  /** `TrimEnd` cuts only characters up to U+0020. */
  lemma {:induction false} TrimEndCuts(s: string)
    ensures forall k :: |TrimEnd(s)| <= k < |s| ==> s[k] <= ' '
  {
    if s != [] && s[|s| - 1] <= ' ' {
      TrimEndCuts(s[..|s| - 1]);
      assert forall k :: 0 <= k < |s| - 1 ==> s[k] == s[..|s| - 1][k];
    }
  }

  /** What `TrimEnd` keeps of `TrimStart(s)` is a slice of `s`. */
  lemma TrimSlice(s: string)
    ensures var t := TrimStart(s);
            var i := |s| - |t|;
            i + |TrimEnd(t)| <= |s| && TrimEnd(t) == s[i..i + |TrimEnd(t)|]
  {
    var t := TrimStart(s);
    var r := TrimEnd(t);
    SliceOfSuffix(s, |s| - |t|, |r|);
  }

  lemma SliceOfSuffix(s: string, i: nat, m: nat)
    requires i + m <= |s|
    ensures s[i..][..m] == s[i..i + m]
  {
  }

  /** What follows that slice is all cut. */
  lemma TrimTail(s: string)
    ensures var t := TrimStart(s);
            var i := |s| - |t|;
            forall k :: i + |TrimEnd(t)| <= k < |s| ==> s[k] <= ' '
  {
    var t := TrimStart(s);
    var i := |s| - |t|;
    TrimEndCuts(t);
    forall k | i + |TrimEnd(t)| <= k < |s|
      ensures s[k] <= ' '
    {
      assert s[k] == t[k - i];
    }
  }

  /** A string with nothing to trim at either end is its own trim. */
  lemma TrimOfTrimmed(s: string)
    requires s == [] || (s[0] > ' ' && s[|s| - 1] > ' ')
    ensures Trim(s) == s
  {
  }

  /** `Character.isWhitespace`: the space, line and paragraph separators other than
      the non-breaking ones, and the ASCII controls U+0009..U+000D, U+001C..U+001F. */
  predicate IsJavaWhitespace(c: char) {
    var n := c as int;
    (0x09 <= n <= 0x0D) || (0x1C <= n <= 0x20) || n == 0x1680
    || (0x2000 <= n <= 0x200A && n != 0x2007)
    || n == 0x2028 || n == 0x2029 || n == 0x205F || n == 0x3000
  }

  /** htsjdk `StringUtil.isBlank`: `null`, or whitespace only. */
  predicate IsBlank(s: Option<string>) {
    s.None? || forall i :: 0 <= i < |s.value| ==> IsJavaWhitespace(s.value[i])
  }

  /** The fields of `s` between occurrences of `sep`, empty fields included. */
  function SplitOn(s: string, sep: char): (r: seq<string>)
    ensures |r| >= 1
    ensures forall k :: 0 <= k < |r| ==> sep !in r[k]
    decreases |s|
  {
    if sep !in s then [s]
    else
      var i := IndexOf(s, sep);
      [s[..i]] + SplitOn(s[i + 1..], sep)
  }

  /** The trailing empty strings removed, as `String.split` does. */
  function DropTrailingEmpty(r: seq<string>): (t: seq<string>)
    ensures |t| <= |r| && t == r[..|t|]
    ensures forall k :: |t| <= k < |r| ==> r[k] == ""
  {
    if r != [] && r[|r| - 1] == "" then DropTrailingEmpty(r[..|r| - 1]) else r
  }

  /** `s.split(regex)` for a regex matching the one character `sep`: a string without
      `sep` is its own single field; otherwise the fields, minus trailing empty ones. */
  function JavaSplit(s: string, sep: char): (r: seq<string>)
    ensures forall k :: 0 <= k < |r| ==> sep !in r[k]
  {
    if sep !in s then [s] else DropTrailingEmpty(SplitOn(s, sep))
  }

  lemma SplitOnPrefix(a: string, b: string, sep: char)
    requires sep !in a
    ensures SplitOn(a + [sep] + b, sep) == [a] + SplitOn(b, sep)
  {
    var s := a + [sep] + b;
    assert s[|a|] == sep;
    var i := IndexOf(s, sep);
    assert i == |a|;
    assert s[..i] == a && s[i + 1..] == b;
  }

  /** The first field of `b<rest>`, when `rest` is empty or starts a new field, is `b`. */
  lemma SplitOnFirstField(b: string, rest: string, sep: char)
    requires sep !in b
    requires rest == [] || rest[0] == sep
    ensures SplitOn(b + rest, sep)[0] == b
  {
    if rest == [] {
      assert b + rest == b;
    } else {
      assert b + rest == b + [sep] + rest[1..];
      SplitOnPrefix(b, rest[1..], sep);
    }
  }

  /** A line `a<sep>b<rest>` whose first field has no separator, whose second field is
      non-empty and whose rest is empty or starts a new field splits into `a`, `b`, ... */
  lemma SplitFirstTwo(a: string, b: string, rest: string, sep: char)
    requires sep !in a && sep !in b && b != []
    requires rest == [] || rest[0] == sep
    ensures var f := JavaSplit(a + [sep] + b + rest, sep); |f| >= 2 && f[0] == a && f[1] == b
  {
    var s := a + [sep] + b + rest;
    assert s == a + [sep] + (b + rest);
    assert s[|a|] == sep;
    SplitOnPrefix(a, b + rest, sep);
    SplitOnFirstField(b, rest, sep);
    var r := SplitOn(s, sep);
    assert r[0] == a && r[1] == b;
    assert r[1] != "";
  }

  predicate IsDigit(c: char) {
    '0' <= c <= '9'
  }

  predicate AllDigits(s: string) {
    forall i :: 0 <= i < |s| ==> IsDigit(s[i])
  }

  /** The value of a string of decimal digits. */
  function DigitsValue(s: string): nat
    requires AllDigits(s)
  {
    if s == [] then 0 else 10 * DigitsValue(s[..|s| - 1]) + (s[|s| - 1] as int - '0' as int)
  }

  function DigitChar(d: nat): (c: char)
    requires d < 10
    ensures IsDigit(c) && c as int - '0' as int == d
  {
    ('0' as int + d) as char
  }

  /** `Integer.toString` of a non-negative value. */
  function Digits(n: nat): (s: string)
    ensures |s| >= 1 && AllDigits(s)
  {
    if n < 10 then [DigitChar(n)] else Digits(n / 10) + [DigitChar(n % 10)]
  }

  lemma {:induction false} DigitsValueOfDigits(n: nat)
    ensures DigitsValue(Digits(n)) == n
  {
    if n >= 10 {
      DigitsValueOfDigits(n / 10);
      var s := Digits(n);
      assert s[..|s| - 1] == Digits(n / 10);
    }
  }

  /** `Integer.toString(int)`. */
  function Decimal(n: int): string {
    if n < 0 then "-" + Digits(-n) else Digits(n)
  }

  /** `Integer.parseInt(s)`: an optional sign and at least one digit, within the `int`
      range; `None` stands for the `NumberFormatException`. Only ASCII digits are modelled. */
  function ParseInt(s: string): Option<Int32> {
    if |s| == 0 then None
    else if s[0] == '-' || s[0] == '+' then
      if |s| == 1 || !AllDigits(s[1..]) then None
      else
        var d: int := DigitsValue(s[1..]);
        var v := if s[0] == '-' then -d else d;
        if MinInt32 <= v <= MaxInt32 then Some(v) else None
    else if !AllDigits(s) then None
    else if DigitsValue(s) <= MaxInt32 then Some(DigitsValue(s))
    else None
  }

  /** `Integer.parseInt` reads back every `Integer.toString`. */
  lemma ParseIntDecimal(n: Int32)
    ensures ParseInt(Decimal(n)) == Some(n)
  {
    if n < 0 {
      var m: nat := -(n as int);
      DigitsValueOfDigits(m);
      var s := Decimal(n);
      assert s == "-" + Digits(m);
      assert s[1..] == Digits(m);
      assert s[0] == '-';
    } else {
      var m: nat := n as int;
      DigitsValueOfDigits(m);
      var s := Decimal(n);
      assert s == Digits(m);
      assert IsDigit(s[0]);
    }
  }

  /** No decimal rendering contains a tab, so it is a single field of a tab-separated line. */
  lemma DecimalHasNoTab(n: int)
    ensures '\t' !in Decimal(n) && Decimal(n) != []
  {
  }
}
