/** Characters and strings as Python sees them: whitespace, line breaks, digits, case. */
module Text {
  import opened Rows

  // --------------------------------------------------------------- character classes

  /** str.isspace, which is also what a regular expression's \s matches. */
  predicate IsSpace(c: char) {
    || '\U{9}' <= c <= '\U{D}' || '\U{1C}' <= c <= '\U{20}' || c == '\U{85}' || c == '\U{A0}'
    || c == '\U{1680}' || '\U{2000}' <= c <= '\U{200A}' || c == '\U{2028}' || c == '\U{2029}'
    || c == '\U{202F}' || c == '\U{205F}' || c == '\U{3000}'
  }

  /** Where str.splitlines breaks. */
  predicate IsBreak(c: char) {
    || '\U{A}' <= c <= '\U{D}' || '\U{1C}' <= c <= '\U{1E}' || c == '\U{85}' || c == '\U{2028}' || c == '\U{2029}'
  }

  predicate IsAsciiDigit(c: char) { '0' <= c <= '9' }

  predicate IsAsciiLetter(c: char) { 'A' <= c <= 'Z' || 'a' <= c <= 'z' }

  predicate TenFrom(n: int, zero: int) { zero <= n < zero + 10 }

  /** The decimal digits (category Nd) beyond ASCII, of Unicode 15. */
  predicate IsOtherDigit(n: int) {
    || TenFrom(n, 0x660) || TenFrom(n, 0x6F0) || TenFrom(n, 0x7C0) || TenFrom(n, 0x966) || TenFrom(n, 0x9E6)
    || TenFrom(n, 0xA66) || TenFrom(n, 0xAE6) || TenFrom(n, 0xB66) || TenFrom(n, 0xBE6) || TenFrom(n, 0xC66)
    || TenFrom(n, 0xCE6) || TenFrom(n, 0xD66) || TenFrom(n, 0xDE6) || TenFrom(n, 0xE50) || TenFrom(n, 0xED0)
    || TenFrom(n, 0xF20) || TenFrom(n, 0x1040) || TenFrom(n, 0x1090) || TenFrom(n, 0x17E0) || TenFrom(n, 0x1810)
    || TenFrom(n, 0x1946) || TenFrom(n, 0x19D0) || TenFrom(n, 0x1A80) || TenFrom(n, 0x1A90) || TenFrom(n, 0x1B50)
    || TenFrom(n, 0x1BB0) || TenFrom(n, 0x1C40) || TenFrom(n, 0x1C50) || TenFrom(n, 0xA620) || TenFrom(n, 0xA8D0)
    || TenFrom(n, 0xA900) || TenFrom(n, 0xA9D0) || TenFrom(n, 0xA9F0) || TenFrom(n, 0xAA50) || TenFrom(n, 0xABF0)
    || TenFrom(n, 0xFF10) || TenFrom(n, 0x104A0) || TenFrom(n, 0x10D30) || TenFrom(n, 0x11066) || TenFrom(n, 0x110F0)
    || TenFrom(n, 0x11136) || TenFrom(n, 0x111D0) || TenFrom(n, 0x112F0) || TenFrom(n, 0x11450) || TenFrom(n, 0x114D0)
    || TenFrom(n, 0x11650) || TenFrom(n, 0x116C0) || TenFrom(n, 0x11730) || TenFrom(n, 0x118E0) || TenFrom(n, 0x11950)
    || TenFrom(n, 0x11C50) || TenFrom(n, 0x11D50) || TenFrom(n, 0x11DA0) || TenFrom(n, 0x11F50) || TenFrom(n, 0x16A60)
    || TenFrom(n, 0x16AC0) || TenFrom(n, 0x16B50) || 0x1D7CE <= n <= 0x1D7FF || TenFrom(n, 0x1E140)
    || TenFrom(n, 0x1E2F0) || TenFrom(n, 0x1E4F0) || TenFrom(n, 0x1E950) || TenFrom(n, 0x1FBF0)
  }

  /** What \d matches. */
  predicate IsDigit(c: char) {
    IsAsciiDigit(c) || (c >= '\U{660}' && IsOtherDigit(c as int))
  }

  function LowerChar(c: char): char {
    if 'A' <= c <= 'Z' then ((c as int) + 32) as char else c
  }

  /** str.lower on ASCII letters; no other character lower-cases into a word compared here. */
  function Lower(s: string): (r: string)
    ensures |r| == |s|
    ensures forall i | 0 <= i < |s| :: r[i] == LowerChar(s[i])
  {
    seq(|s|, i requires 0 <= i < |s| => LowerChar(s[i]))
  }

  /** A character that re.IGNORECASE takes for this lower-case letter. */
  predicate FoldsTo(c: char, letter: char) {
    || LowerChar(c) == letter
    || (letter == 's' && c == '\U{17F}')
    || (letter == 'i' && (c == '\U{131}' || c == '\U{130}'))
  }

  predicate StartsNoCase(s: string, word: string) {
    |word| <= |s| && forall i | 0 <= i < |word| :: FoldsTo(s[i], word[i])
  }

  predicate Starts(s: string, prefix: string) {
    |prefix| <= |s| && s[..|prefix|] == prefix
  }

  // -------------------------------------------------------------------------- strips

  function DropLeft(p: char -> bool, s: string): (r: string)
    ensures |r| <= |s|
  {
    if |s| > 0 && p(s[0]) then DropLeft(p, s[1..]) else s
  }

  function DropRight(p: char -> bool, s: string): (r: string)
    ensures |r| <= |s|
  {
    if |s| > 0 && p(s[|s| - 1]) then DropRight(p, s[..|s| - 1]) else s
  }

  function TakeLeft(p: char -> bool, s: string): (r: string)
    ensures |r| <= |s|
  {
    if |s| > 0 && p(s[0]) then [s[0]] + TakeLeft(p, s[1..]) else ""
  }

  /** Stripping on the right leaves a prefix. */
  lemma {:induction false} DropRightIsPrefix(p: char -> bool, s: string)
    ensures DropRight(p, s) == s[..|DropRight(p, s)|]
  {
    if |s| > 0 && p(s[|s| - 1]) {
      DropRightIsPrefix(p, s[..|s| - 1]);
    }
  }

  function SkipSpaces(s: string): string { DropLeft(IsSpace, s) }

  /** str.strip(). */
  function Trim(s: string): string { DropRight(IsSpace, DropLeft(IsSpace, s)) }

  predicate IsMarker(c: char) { c == '*' || c == '_' || c == '`' }

  function CleanLabel(raw: string): string {
    Trim(DropRight(IsMarker, DropLeft(IsMarker, Trim(raw))))
  }

  /** Non-empty, with no whitespace at either end. */
  predicate Trimmed(s: string) {
    s != "" && !IsSpace(s[0]) && !IsSpace(s[|s| - 1])
  }

  lemma TrimmedIsFixed(s: string)
    requires Trimmed(s)
    ensures Trim(s) == s && SkipSpaces(s) == s
  {
  }

  lemma TrimSpaceBefore(s: string)
    requires Trimmed(s)
    ensures SkipSpaces(" " + s) == s && Trim(" " + s) == s
  {
    TrimmedIsFixed(s);
    assert (" " + s)[1..] == s && IsSpace((" " + s)[0]);
    assert DropLeft(IsSpace, " " + s) == DropLeft(IsSpace, s);
  }

  /** Stripping keeps what is between: the ends of a non-blank string survive. */
  lemma {:induction false} TrimKeepsLast(s: string)
    requires s != "" && !IsSpace(s[|s| - 1])
    ensures SkipSpaces(s) != "" && SkipSpaces(s)[|SkipSpaces(s)| - 1] == s[|s| - 1]
    ensures Trim(s) == SkipSpaces(s)
  {
    if IsSpace(s[0]) {
      TrimKeepsLast(s[1..]);
    }
  }

  lemma {:induction false} TakeAll(p: char -> bool, a: string, b: string)
    requires forall i | 0 <= i < |a| :: p(a[i])
    requires b != "" ==> !p(b[0])
    ensures TakeLeft(p, a + b) == a
  {
    if a == "" {
      assert a + b == b;
    } else {
      assert (a + b)[1..] == a[1..] + b;
      TakeAll(p, a[1..], b);
    }
  }

  // ------------------------------------------------------------------------- numbers

  /** The decimal numeral str(n). */
  function Numeral(n: nat): (s: string)
    ensures s != "" && forall i | 0 <= i < |s| :: IsAsciiDigit(s[i])
  {
    if n < 10 then [('0' as int + n) as char] else Numeral(n / 10) + [('0' as int + n % 10) as char]
  }

  function AsciiDigits(s: string): (r: string)
    ensures forall i | 0 <= i < |r| :: IsAsciiDigit(r[i])
  {
    if s == "" then ""
    else AsciiDigits(s[..|s| - 1]) + if IsAsciiDigit(s[|s| - 1]) then [s[|s| - 1]] else ""
  }

  function Value(digits: string): nat
    requires forall i | 0 <= i < |digits| :: IsAsciiDigit(digits[i])
  {
    if digits == "" then 0
    else
      var last := digits[|digits| - 1];
      assert IsAsciiDigit(last);
      10 * Value(digits[..|digits| - 1]) + (last as int - '0' as int)
  }

  /** `_as_int` on text: all digits of the text, read as one number. */
  function AsInt(s: string): Option<nat> {
    var digits := AsciiDigits(s);
    if digits == "" then None else Some(Value(digits))
  }

  lemma {:induction false} NumeralValue(n: nat)
    ensures Value(Numeral(n)) == n
  {
    if n >= 10 {
      NumeralValue(n / 10);
      assert Numeral(n)[..|Numeral(n)| - 1] == Numeral(n / 10);
    }
  }

  lemma {:induction false} DigitsOfConcat(a: string, b: string)
    ensures AsciiDigits(a + b) == AsciiDigits(a) + AsciiDigits(b)
  {
    if b == "" {
      assert a + b == a;
    } else {
      assert (a + b)[..|a + b| - 1] == a + b[..|b| - 1];
      DigitsOfConcat(a, b[..|b| - 1]);
    }
  }

  lemma {:induction false} DigitsOnly(s: string)
    requires forall i | 0 <= i < |s| :: IsAsciiDigit(s[i])
    ensures AsciiDigits(s) == s
  {
    if s != "" {
      DigitsOnly(s[..|s| - 1]);
      assert s[..|s| - 1] + [s[|s| - 1]] == s;
    }
  }

  lemma {:induction false} NoDigits(s: string)
    requires forall i | 0 <= i < |s| :: !IsAsciiDigit(s[i])
    ensures AsciiDigits(s) == ""
  {
    if s != "" {
      NoDigits(s[..|s| - 1]);
    }
  }

  lemma NumeralAsInt(n: nat, rest: string)
    requires forall i | 0 <= i < |rest| :: !IsAsciiDigit(rest[i])
    ensures AsInt(Numeral(n) + rest) == Some(n)
  {
    DigitsOfConcat(Numeral(n), rest);
    DigitsOnly(Numeral(n));
    NoDigits(rest);
    assert Numeral(n) + "" == Numeral(n);
    NumeralValue(n);
  }

  // --------------------------------------------------------------------------- lines

  /** The index of the first character satisfying p at or after i, or the length. */
  function Find(p: char -> bool, s: string, i: nat): (k: nat)
    requires i <= |s|
    ensures i <= k <= |s|
    decreases |s| - i
  {
    if i == |s| || p(s[i]) then i else Find(p, s, i + 1)
  }

  lemma {:induction false} FindIs(p: char -> bool, s: string, i: nat, k: nat)
    requires i <= k <= |s|
    requires forall j | i <= j < k :: !p(s[j])
    requires k < |s| ==> p(s[k])
    ensures Find(p, s, i) == k
    decreases k - i
  {
    if i < k {
      FindIs(p, s, i + 1, k);
    }
  }

  /** Nothing before the index satisfies p. */
  lemma {:induction false} FindFirst(p: char -> bool, s: string, i: nat)
    requires i <= |s|
    ensures forall j | i <= j < Find(p, s, i) :: !p(s[j])
    ensures Find(p, s, i) < |s| ==> p(s[Find(p, s, i)])
    decreases |s| - i
  {
    if i < |s| && !p(s[i]) {
      FindFirst(p, s, i + 1);
    }
  }

  /** str.splitlines(). */
  function SplitLines(s: string): seq<string>
    decreases |s|
  {
    if s == "" then []
    else
      var k := Find(IsBreak, s, 0);
      if k == |s| then [s]
      else
        var next := if s[k] == '\r' && k + 1 < |s| && s[k + 1] == '\n' then k + 2 else k + 1;
        [s[..k]] + SplitLines(s[next..])
  }

  function Join(lines: seq<string>): string
    requires lines != []
  {
    if |lines| == 1 then lines[0] else lines[0] + "\n" + Join(lines[1..])
  }

  predicate OneLine(s: string) {
    forall i | 0 <= i < |s| :: !IsBreak(s[i])
  }

  /** Lines without breaks, the last one not empty, are recovered. */
  lemma {:induction false} SplitJoined(lines: seq<string>)
    requires lines != [] && lines[|lines| - 1] != ""
    requires forall i | 0 <= i < |lines| :: OneLine(lines[i])
    ensures SplitLines(Join(lines)) == lines
  {
    var s := Join(lines);
    if |lines| == 1 {
      FindIs(IsBreak, s, 0, |s|);
    } else {
      var k := |lines[0]|;
      assert s == lines[0] + ("\n" + Join(lines[1..]));
      assert forall j | 0 <= j < k :: s[j] == lines[0][j];
      FindIs(IsBreak, s, 0, k);
      SplitJoined(lines[1..]);
      assert s[k + 1..] == Join(lines[1..]);
      assert s[..k] == lines[0];
      assert [lines[0]] + lines[1..] == lines;
    }
  }
}
