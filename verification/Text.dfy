/** Strings as the migrations normalise them: `strip()` and `casefold()`/`lower()` on ASCII,
    and the decimal spelling of numbers. */
module Text {

  /** The ASCII characters that Python's `str.strip()` removes. */
  predicate IsSpace(c: char) {
    var n := c as int;
    n == 0x20 || 0x09 <= n <= 0x0d || 0x1c <= n <= 0x1f
  }

  function LStrip(s: string): string {
    if s != "" && IsSpace(s[0]) then LStrip(s[1..]) else s
  }

  function RStrip(s: string): string {
    if s != "" && IsSpace(s[|s| - 1]) then RStrip(s[..|s| - 1]) else s
  }

  function Strip(s: string): string {
    RStrip(LStrip(s))
  }

  predicate IsBlank(s: string) {
    forall i :: 0 <= i < |s| ==> IsSpace(s[i])
  }

  /** A string that `strip()` leaves alone. */
  predicate IsTrimmed(s: string) {
    s != "" ==> !IsSpace(s[0]) && !IsSpace(s[|s| - 1])
  }

  lemma {:induction false} LStripCuts(s: string)
    ensures |LStrip(s)| <= |s| && LStrip(s) == s[|s| - |LStrip(s)|..]
    ensures IsBlank(s[..|s| - |LStrip(s)|])
    ensures LStrip(s) != "" ==> !IsSpace(LStrip(s)[0])
  {
    if s != "" && IsSpace(s[0]) {
      var t := s[1..];
      LStripCuts(t);
      assert s[..|s| - |LStrip(t)|] == [s[0]] + t[..|t| - |LStrip(t)|];
    }
  }

  lemma {:induction false} RStripCuts(s: string)
    ensures |RStrip(s)| <= |s| && RStrip(s) == s[..|RStrip(s)|]
    ensures IsBlank(s[|RStrip(s)|..])
    ensures RStrip(s) != "" ==> !IsSpace(RStrip(s)[|RStrip(s)| - 1])
  {
    if s != "" && IsSpace(s[|s| - 1]) {
      var t := s[..|s| - 1];
      RStripCuts(t);
      assert RStrip(s) == RStrip(t) && t[..|RStrip(t)|] == s[..|RStrip(t)|];
      assert s[|RStrip(t)|..] == t[|RStrip(t)|..] + [s[|s| - 1]];
    }
  }

  /** `strip()` removes blank text at both ends and nothing else. */
  lemma StripCuts(s: string) returns (i: nat, j: nat)
    ensures i <= j <= |s| && Strip(s) == s[i..j]
    ensures IsBlank(s[..i]) && IsBlank(s[j..])
    ensures IsTrimmed(Strip(s))
    ensures Strip(s) == "" <==> IsBlank(s)
  {
    var l := LStrip(s);
    LStripCuts(s);
    RStripCuts(l);
    i := |s| - |l|;
    j := i + |RStrip(l)|;
    assert s[j..] == l[|RStrip(l)|..];
    if Strip(s) == "" {
      assert s == s[..i] + s[j..];
    } else {
      assert Strip(s)[0] == s[i];
    }
  }

  lemma BlankEdges(s: string, i: nat, j: nat)
    requires i <= j <= |s|
    ensures IsBlank(s[..i]) <==> forall k :: 0 <= k < i ==> IsSpace(s[k])
    ensures IsBlank(s[j..]) <==> forall k :: j <= k < |s| ==> IsSpace(s[k])
  {
    assert forall k :: 0 <= k < i ==> s[..i][k] == s[k];
    assert forall k :: 0 <= k < |s| - j ==> s[j..][k] == s[j + k];
    assert forall k :: j <= k < |s| ==> s[k] == s[j..][k - j];
  }

  /** Any cut that leaves trimmed text between blanks is the one `strip()` makes. */
  lemma StripBetween(s: string, i: nat, j: nat)
    requires i < j <= |s| && IsBlank(s[..i]) && IsBlank(s[j..]) && IsTrimmed(s[i..j])
    ensures Strip(s) == s[i..j]
  {
    var a, b := StripCuts(s);
    BlankEdges(s, i, j);
    BlankEdges(s, a, b);
    assert s[i] == s[i..j][0] && s[j - 1] == s[i..j][j - i - 1];
    assert Strip(s) != "";
    assert s[a] == Strip(s)[0] && s[b - 1] == Strip(s)[b - a - 1];
  }

  lemma StripOfTrimmed(s: string)
    requires IsTrimmed(s)
    ensures Strip(s) == s
  {}

  lemma StripIdempotent(s: string)
    ensures Strip(Strip(s)) == Strip(s)
  {
    var _, _ := StripCuts(s);
    StripOfTrimmed(Strip(s));
  }

  function LowerChar(c: char): char {
    if 'A' <= c <= 'Z' then c + (32 as char) else c
  }

  function Lower(s: string): (r: string)
    ensures |r| == |s|
  {
    if s == "" then "" else [LowerChar(s[0])] + Lower(s[1..])
  }

  lemma {:induction false} LowerAt(s: string, i: nat)
    requires i < |s|
    ensures Lower(s)[i] == LowerChar(s[i])
  {
    if i > 0 {
      LowerAt(s[1..], i - 1);
    }
  }

  lemma {:induction false} LowerAll(s: string)
    ensures forall i :: 0 <= i < |s| ==> Lower(s)[i] == LowerChar(s[i])
  {
    forall i | 0 <= i < |s| ensures Lower(s)[i] == LowerChar(s[i]) {
      LowerAt(s, i);
    }
  }

  /** Text without capital letters is its own lower case. */
  lemma {:induction false} LowerOfLower(s: string)
    requires forall i :: 0 <= i < |s| ==> LowerChar(s[i]) == s[i]
    ensures Lower(s) == s
  {
    LowerAll(s);
  }

  lemma {:induction false} LowerIdempotent(s: string)
    ensures Lower(Lower(s)) == Lower(s)
  {
    LowerAll(s);
    LowerOfLower(Lower(s));
  }

  lemma {:induction false} LowerConcat(s: string, t: string)
    ensures Lower(s + t) == Lower(s) + Lower(t)
  {
    LowerAll(s + t);
    LowerAll(s);
    LowerAll(t);
  }

  lemma {:induction false} LowerTrimmed(s: string)
    ensures IsTrimmed(s) <==> IsTrimmed(Lower(s))
  {
    LowerAll(s);
  }

  /** The text without blanks at its ends, every letter made small. */
  ghost predicate IsFolded(raw: string, folded: string) {
    exists i, j :: 0 <= i <= j <= |raw| && FoldedFrom(raw, folded, i, j)
  }

  ghost predicate FoldedFrom(raw: string, folded: string, i: nat, j: nat)
    requires i <= j <= |raw|
  {
    && IsBlank(raw[..i]) && IsBlank(raw[j..]) && IsTrimmed(folded) && |folded| == j - i
    && forall n :: 0 <= n < j - i ==>
         folded[n] == if 'A' <= raw[i + n] <= 'Z' then raw[i + n] + ('a' - 'A') else raw[i + n]
  }

  lemma FoldIsFolded(raw: string)
    ensures IsFolded(raw, Lower(Strip(raw)))
  {
    var i, j := StripCuts(raw);
    LowerAll(Strip(raw));
    LowerTrimmed(Strip(raw));
    assert FoldedFrom(raw, Lower(Strip(raw)), i, j);
  }

  /** Space, the controls from tab to carriage return, and the four separators. */
  lemma BlanksAre(c: char)
    ensures IsSpace(c) <==> c in " \t\n\r\U{b}\U{c}\U{1c}\U{1d}\U{1e}\U{1f}"
  {}

  predicate IsDigit(c: char) {
    '0' <= c <= '9'
  }

  predicate AllDigits(s: string) {
    forall i :: 0 <= i < |s| ==> IsDigit(s[i])
  }

  function Digit(d: nat): (c: char)
    requires d < 10
    ensures IsDigit(c) && (c as int) - ('0' as int) == d
  {
    '0' + (d as char)
  }

  /** The decimal spelling Python's `str(int)` gives a natural number. */
  function Decimal(n: nat): (s: string)
    ensures s != "" && AllDigits(s)
    ensures n > 0 ==> s[0] != '0'
  {
    if n < 10 then [Digit(n)] else Decimal(n / 10) + [Digit(n % 10)]
  }

  /** The number a string of digits spells. */
  function DigitsValue(s: string): nat
    requires AllDigits(s)
  {
    if s == "" then 0
    else 10 * DigitsValue(s[..|s| - 1]) + ((s[|s| - 1] as int) - ('0' as int))
  }

  lemma {:induction false} DecimalValue(n: nat)
    ensures DigitsValue(Decimal(n)) == n
  {
    if n >= 10 {
      DecimalValue(n / 10);
      var s := Decimal(n);
      assert s[..|s| - 1] == Decimal(n / 10);
    }
  }

  lemma {:induction false} DecimalInjective(m: nat, n: nat)
    requires Decimal(m) == Decimal(n)
    ensures m == n
  {
    DecimalValue(m);
    DecimalValue(n);
  }

  /** The number the digits of a text spell, underscores passed over. */
  function Value(s: string): int {
    if s == "" then 0
    else if s[|s| - 1] == '_' then Value(s[..|s| - 1])
    else 10 * Value(s[..|s| - 1]) + (s[|s| - 1] as int - '0' as int)
  }

  predicate IsNumeral(c: char) { '0' <= c <= '9' }

  predicate PlainDigits(s: string, n: int) {
    s != "" && (forall i :: 0 <= i < |s| ==> IsNumeral(s[i])) && Value(s) == n
  }

  /** The number in plain digits, without leading zeros. */
  predicate IsDecimal(s: string, n: int) { PlainDigits(s, n) && (s[0] == '0' ==> |s| == 1) }

  lemma {:induction false} DigitsSpell(s: string)
    requires AllDigits(s)
    ensures DigitsValue(s) == Value(s)
  {
    if s != "" {
      DigitsSpell(s[..|s| - 1]);
      assert IsDigit(s[|s| - 1]);
    }
  }

  lemma {:induction false} DecimalSpells(n: nat)
    ensures IsDecimal(Decimal(n), n)
  {
    DecimalValue(n);
    DigitsSpell(Decimal(n));
  }

  /** `t` is the text without the blanks at its ends. */
  ghost predicate IsTrim(raw: string, t: string) {
    exists i, j :: 0 <= i <= j <= |raw| && t == raw[i..j] && IsBlank(raw[..i]) && IsBlank(raw[j..]) && IsTrimmed(t)
  }

  lemma StripIsTrim(raw: string)
    ensures IsTrim(raw, Strip(raw))
  {
    var i, j := StripCuts(raw);
  }

  /** There is only one such text. */
  lemma TrimIsStrip(raw: string, t: string)
    requires IsTrim(raw, t)
    ensures t == Strip(raw)
  {
    var i, j :| 0 <= i <= j <= |raw| && t == raw[i..j] && IsBlank(raw[..i]) && IsBlank(raw[j..]) && IsTrimmed(t);
    if i == j {
      assert IsBlank(raw) by {
        BlankEdges(raw, i, j);
      }
      var _, _ := StripCuts(raw);
    } else {
      StripBetween(raw, i, j);
    }
  }

  lemma FoldedOnce(raw: string, folded: string)
    requires IsFolded(raw, folded)
    ensures folded == Lower(Strip(raw))
  {
    var i, j :| 0 <= i <= j <= |raw| && FoldedFrom(raw, folded, i, j);
    var t := raw[i..j];
    LowerAll(t);
    assert Lower(t) == folded;
    LowerTrimmed(t);
    TrimIsStrip(raw, t);
  }

  /** The same text up to blanks at the ends and capital letters. */
  ghost predicate SameLabel(a: string, b: string) { exists f :: IsFolded(a, f) && IsFolded(b, f) }

  lemma SameLabelIff(a: string, b: string)
    ensures SameLabel(a, b) <==> Lower(Strip(a)) == Lower(Strip(b))
  {
    FoldIsFolded(a);
    FoldIsFolded(b);
    if SameLabel(a, b) {
      var f :| IsFolded(a, f) && IsFolded(b, f);
      FoldedOnce(a, f);
      FoldedOnce(b, f);
    }
  }
}
