/** What the parser reads on each line of a printed outline, however the line is spelled. */
module OutlineLines {
  import opened Rows
  import opened Text
  import opened Matchers
  import opened Outline

  /** An edge character the parser would strip from a heading. */
  predicate IsEdge(c: char) { IsMarker(c) || c == '#' }

  /** Neither end is a marker character. */
  predicate Bare(s: string) {
    s != "" && !IsEdge(s[0]) && !IsEdge(s[|s| - 1])
  }

  /** A word or words that can stand before a colon. */
  predicate IsName(s: string) {
    && 3 <= |s| <= 31
    && (forall i | 0 <= i < |s| :: IsLabelChar(s[i]))
    && IsAsciiLetter(s[0]) && IsAsciiLetter(s[|s| - 1])
  }

  /** A spelling of the name in capitals and small letters is a name too. */
  lemma SpellingIsName(name: string, word: string)
    requires Lower(name) == word && IsName(word)
    ensures IsName(name)
  {
    forall i | 0 <= i < |name| ensures IsLabelChar(name[i]) && (IsAsciiLetter(word[i]) ==> IsAsciiLetter(name[i])) {
      assert LowerChar(name[i]) == word[i];
    }
  }

  // --------------------------------------------------------------------------- blanks

  function Blanks(n: nat): (s: string)
    ensures |s| == n && forall i | 0 <= i < n :: s[i] == ' '
  {
    seq(n, i => ' ')
  }

  lemma {:induction false} SkipsBlanks(n: nat, s: string)
    requires s != "" && !IsSpace(s[0])
    ensures SkipSpaces(Blanks(n) + s) == s
  {
    if n == 0 {
      assert Blanks(0) + s == s;
    } else {
      assert (Blanks(n) + s)[1..] == Blanks(n - 1) + s;
      SkipsBlanks(n - 1, s);
    }
  }

  lemma NotSpaced(s: string)
    requires s != "" && !IsSpace(s[0])
    ensures SkipSpaces(s) == s
  {
  }

  // ------------------------------------------------------------------ labelled lines

  /** Dropping on the left or on the right keeps every other character. */
  lemma {:induction false} LeftHolds(p: char -> bool, s: string, c: char)
    requires c in s && !p(c)
    ensures c in DropLeft(p, s)
  {
    if p(s[0]) {
      assert c in s[1..];
      LeftHolds(p, s[1..], c);
    }
  }

  lemma {:induction false} RightHolds(p: char -> bool, s: string, c: char)
    requires c in s && !p(c)
    ensures c in DropRight(p, s)
  {
    if p(s[|s| - 1]) {
      assert c in s[..|s| - 1];
      RightHolds(p, s[..|s| - 1], c);
    }
  }

  /** A text with a letter or a digit is not a bold marker. */
  lemma NotBold(s: string, i: nat)
    requires i < |s| && (IsAsciiLetter(s[i]) || IsAsciiDigit(s[i]))
    ensures !IsBold(Trim(s))
  {
    LeftHolds(IsSpace, s, s[i]);
    RightHolds(IsSpace, SkipSpaces(s), s[i]);
  }

  /** What may stand on both sides of a name. */
  predicate IsWrap(wrap: string) { wrap == "" || wrap == "**" || wrap == "__" }

  lemma {:induction false} TakesAtLeast(p: char -> bool, a: string, b: string)
    requires forall i | 0 <= i < |a| :: p(a[i])
    ensures |TakeLeft(p, a + b)| >= |a|
  {
    if a != "" {
      assert (a + b)[1..] == a[1..] + b;
      TakesAtLeast(p, a[1..], b);
    }
  }

  lemma {:induction false} NameLength(name: string, wrap: string, n: nat)
    requires IsName(name) && IsWrap(wrap) && n <= |name|
    ensures LabelLength(name + wrap, n) == Some(|name|)
    decreases |name| - n
  {
    var s := name + wrap;
    TakesAtLeast(IsLabelChar, name, wrap);
    if n < |name| {
      assert s[n..][|name| - 1 - n] == name[|name| - 1];
      NotBold(s[n..], |name| - 1 - n);
      NameLength(name, wrap, n + 1);
    } else {
      assert s[n..] == wrap;
      WrapIsBold(wrap);
    }
  }

  lemma WrapIsBold(wrap: string)
    requires IsWrap(wrap)
    ensures IsBold(Trim(wrap))
  {
  }

  lemma NameIsTrimmed(s: string)
    requires IsName(s)
    ensures Trimmed(s) && Trim(s) == s
  {
  }

  /** The label and the value on the two sides of the colon. */
  lemma LabelAt(line: string, l: nat, k: nat, name: string, wrap: string, value: string)
    requires l <= k < |line| && line[l..k] == name + wrap && IsName(name) && IsWrap(wrap)
    requires Trim(line[k + 1..]) == value && value != ""
    ensures LabelBetween(line, l, k) == Some(Labelled(Lower(name), value))
  {
    NameLength(name, wrap, 3);
    NameIsTrimmed(name);
    assert (name + wrap)[..|name|] == name;
  }

  lemma LabelledAt(line: string, l: nat, k: nat)
    requires l <= k < |line|
    requires l == Find(IsAsciiLetter, line, 0) && OpensLabel(line[..l])
    requires k == Find(IsColon, line, l)
    ensures LabelledLine(line) == LabelBetween(line, l, k)
  {
  }

  /** `prefix name wrap: value`, where the prefix holds no letter. */
  lemma ReadsLabel(prefix: string, name: string, wrap: string, value: string)
    requires OpensLabel(prefix) && IsName(name) && IsWrap(wrap) && Trim(value) != ""
    requires forall i | 0 <= i < |prefix| :: !IsAsciiLetter(prefix[i])
    ensures LabelledLine(prefix + name + wrap + ":" + value) == Some(Labelled(Lower(name), Trim(value)))
  {
    var line := prefix + name + wrap + ":" + value;
    var l := |prefix|;
    var k := l + |name + wrap|;
    LabelPieces(prefix, name, wrap, value);
    LabelledAt(line, l, k);
    LabelAt(line, l, k, name, wrap, Trim(value));
  }

  lemma LabelPieces(prefix: string, name: string, wrap: string, value: string)
    requires IsName(name) && IsWrap(wrap)
    requires forall i | 0 <= i < |prefix| :: !IsAsciiLetter(prefix[i])
    ensures var line := prefix + name + wrap + ":" + value;
            var l := |prefix|;
            var k := l + |name + wrap|;
            && line[..l] == prefix && line[l..k] == name + wrap && line[k + 1..] == value
            && Find(IsAsciiLetter, line, 0) == l && Find(IsColon, line, l) == k
  {
    var line := prefix + name + wrap + ":" + value;
    var l := |prefix|;
    var k := l + |name + wrap|;
    assert line == prefix + (name + wrap) + ":" + value;
    assert forall i | 0 <= i < l :: line[i] == prefix[i];
    assert forall i | l <= i < k :: line[i] == (name + wrap)[i - l];
    FindIs(IsAsciiLetter, line, 0, l);
    FindIs(IsColon, line, l, k);
  }

  lemma NoOpening(line: string, l: nat)
    requires l == Find(IsAsciiLetter, line, 0)
    requires l < |line| ==> !OpensLabel(line[..l])
    ensures LabelledLine(line).None?
  {
  }

  /** A line that starts with # has no label. */
  lemma HashHasNoLabel(line: string)
    requires line != "" && line[0] == '#'
    ensures LabelledLine(line).None?
  {
    var l := Find(IsAsciiLetter, line, 0);
    if l < |line| {
      TrimStartsWith(line[..l]);
    }
    NoOpening(line, l);
  }

  /** Stripping keeps the first character when it is not a space. */
  lemma TrimStartsWith(s: string)
    requires s != "" && !IsSpace(s[0])
    ensures Trim(s) != "" && Trim(s)[0] == s[0]
  {
    RightKeepsFirst(s);
  }

  lemma {:induction false} RightKeepsFirst(s: string)
    requires s != "" && !IsSpace(s[0])
    ensures DropRight(IsSpace, s) != "" && DropRight(IsSpace, s)[0] == s[0]
  {
    if IsSpace(s[|s| - 1]) {
      RightKeepsFirst(s[..|s| - 1]);
    }
  }

  lemma {:induction false} TakesNoMore(p: char -> bool, s: string, i: nat)
    requires i < |s| && !p(s[i])
    ensures |TakeLeft(p, s)| <= i
  {
    if i > 0 && p(s[0]) {
      TakesNoMore(p, s[1..], i - 1);
    }
  }

  /** Text with a digit in it is no label. */
  lemma {:induction false} NumberIsNoLabel(s: string, n: nat, i: nat)
    requires i < |s| && IsAsciiDigit(s[i])
    ensures LabelLength(s, n) == None
    decreases if n <= |s| then |s| - n else 0
  {
    TakesNoMore(IsLabelChar, s, i);
    if n <= i {
      NotBold(s[n..], i - n);
      NumberIsNoLabel(s, n + 1, i);
    }
  }

  lemma NoHashNoHeading(line: string)
    requires line != "" && line[0] != '#'
    ensures Heading(line).None?
  {
  }

  /** An inline label is found once its pieces are. */
  lemma InlineAt(line: string, k: nat, rest: string, value: string)
    requires Starts(line, "**") && 2 < k < |line| && k == Find(EndsLabel, line, 2) && line[k] == ':'
    requires SkipSpaces(line[k + 1..]) == rest && Starts(rest, "**")
    requires Trim(rest[2..]) == value && value != ""
    ensures BoldInline(line) == Some(Labelled(Lower(Trim(line[2..k])), value))
  {
  }

  lemma InlinePieces(name: string, value: string)
    requires IsName(name) && Trimmed(value)
    ensures var line := "**" + name + ":** " + value;
            var k := 2 + |name|;
            && Starts(line, "**") && Find(EndsLabel, line, 2) == k && line[k] == ':'
            && line[2..k] == name && line[k + 1..] == "** " + value
            && line == "**" + name + "" + ":" + ("** " + value)
            && Trimmed(line) && line[0] == '*'
  {
    var line := "**" + name + ":** " + value;
    var k := 2 + |name|;
    assert forall i | 2 <= i < k :: line[i] == name[i - 2];
    FindIs(EndsLabel, line, 2, k);
  }

  /** `**name:** value` */
  lemma ReadsBoldInline(name: string, value: string)
    requires IsName(name) && Trimmed(value)
    ensures var line := "**" + name + ":** " + value;
            && BoldInline(line) == Some(Labelled(Lower(name), value))
            && Heading(line).None?
            && Trimmed(line)
  {
    var line := "**" + name + ":** " + value;
    var rest := "** " + value;
    InlinePieces(name, value);
    TrimmedIsFixed(rest);
    assert rest[2..] == " " + value;
    TrimSpaceBefore(value);
    NameIsTrimmed(name);
    InlineAt(line, 2 + |name|, rest, value);
    NoHashNoHeading(line);
  }

  lemma BoldOpens()
    ensures OpensLabel("**") && OpensLabel("")
  {
  }

  /** The same line with the label _LABELLED finds in it. */
  lemma BoldInlineLabel(name: string, value: string)
    requires IsName(name) && Trimmed(value)
    ensures var labelled := LabelledLine("**" + name + ":** " + value);
            labelled.Some? && labelled.value.name == Lower(name)
  {
    InlinePieces(name, value);
    BoldOpens();
    TrimmedIsFixed("** " + value);
    ReadsLabel("**", name, "", "** " + value);
  }

  /** The characters a bullet can be. */
  predicate IsPoint(c: char) { c == '*' || c == '+' || c == '-' }

  lemma BulletOpens(mark: char, wrap: string)
    requires IsPoint(mark) && IsWrap(wrap)
    ensures OpensLabel([mark] + " " + wrap)
  {
    var prefix := [mark] + " " + wrap;
    NotSpaced(prefix);
    if wrap == "" {
      assert prefix == [mark, ' '] && prefix[..|prefix| - 1] == [mark];
      NotSpaced([mark]);
      assert DropRight(IsSpace, prefix) == DropRight(IsSpace, [mark]);
      assert SkipSpaces([mark][1..]) == "";
    } else {
      TrimmedIsFixed(prefix);
      assert prefix[1..] == " " + wrap;
      TrimSpaceBefore(wrap);
    }
  }

  /** A name, bold or not, and a value, behind a bullet. */
  function BulletText(mark: char, wrap: string, name: string, value: string): string {
    [mark] + " " + wrap + name + wrap + ": " + value
  }

  lemma BulletShape(mark: char, wrap: string, name: string, value: string)
    requires IsPoint(mark) && Trimmed(value)
    ensures var line := BulletText(mark, wrap, name, value);
            && line == ([mark] + " " + wrap) + name + wrap + ":" + (" " + value)
            && Trimmed(line) && |line| >= 2 && line[0] == mark && line[1] == ' '
  {
  }

  /** `* name: value` */
  lemma ReadsBullet(mark: char, wrap: string, name: string, value: string)
    requires IsPoint(mark) && IsWrap(wrap) && IsName(name) && Trimmed(value)
    ensures LabelledLine(BulletText(mark, wrap, name, value)) == Some(Labelled(Lower(name), value))
  {
    BulletShape(mark, wrap, name, value);
    BulletOpens(mark, wrap);
    SpaceBeforeIsStripped(value);
    ReadsLabel([mark] + " " + wrap, name, wrap, " " + value);
  }

  lemma SpaceBeforeIsStripped(value: string)
    requires Trimmed(value)
    ensures Trim(" " + value) == value && value != ""
  {
    TrimSpaceBefore(value);
  }

  lemma NotInline(line: string)
    requires |line| >= 2 && line[1] != '*'
    ensures BoldInline(line).None?
  {
  }

  lemma BulletIsFound(line: string)
    requires |line| >= 2 && IsPoint(line[0])
    ensures Bullet(line) == Some(Trim(line[1..]))
  {
  }

  lemma ActionOfLabelledBullet(line: string, l: Labelled)
    requires |line| >= 2 && IsPoint(line[0]) && line[1] == ' '
    requires LabelledLine(line) == Some(l) && LabelAction(l) != Ignore
    ensures ActionOf(line) == LabelAction(l)
  {
    NoHashNoHeading(line);
    NotInline(line);
    BulletIsFound(line);
  }

  /** A line that starts with a letter is no heading, no bold line and no bullet. */
  lemma LetterLine(line: string)
    requires line != "" && IsAsciiLetter(line[0])
    ensures Heading(line).None? && BoldInline(line).None? && Bullet(line).None?
  {
    NoHashNoHeading(line);
    NoStarNoInline(line);
  }

  lemma NoStarNoInline(line: string)
    requires line != "" && line[0] != '*'
    ensures BoldInline(line).None?
  {
    if |line| >= 2 {
      assert line[..2][0] == line[0];
    }
  }

  function LabelText(name: string, value: string): string { name + ": " + value }

  /** `name: value`, with nothing before the name. */
  lemma ReadsLetterLine(name: string, value: string)
    requires IsName(name) && Trimmed(value)
    ensures var line := LabelText(name, value);
            && Trimmed(line) && IsAsciiLetter(line[0])
            && LabelledLine(line) == Some(Labelled(Lower(name), value))
            && Heading(line).None? && BoldInline(line).None? && Bullet(line).None?
  {
    var line := LabelText(name, value);
    assert line == "" + name + "" + ":" + (" " + value);
    assert line[0] == name[0] && line[|line| - 1] == value[|value| - 1];
    BoldOpens();
    SpaceBeforeIsStripped(value);
    ReadsLabel("", name, "", " " + value);
    LetterLine(line);
  }

  predicate IsNumber(s: string) {
    s != "" && forall i | 0 <= i < |s| :: IsAsciiDigit(s[i])
  }

  // ------------------------------------------------------------------ section headings

  /** What stands between the number and the heading: a mark, with blanks around it. */
  datatype Joint = Joint(before: nat, mark: char, after: nat)

  function JointText(j: Joint): string { Blanks(j.before) + [j.mark] + Blanks(j.after) }

  predicate IsJointMark(c: char) {
    c == '.' || c == ':' || c == ')' || c == '-' || c == '\U{2013}' || c == '\U{2014}'
  }

  /** The word for a section, the blanks behind it, and the joint. */
  datatype Naming = Naming(word: string, gap: nat, joint: Joint)

  predicate NamingOk(n: Naming) { Lower(n.word) == "section" && IsJointMark(n.joint.mark) }

  function NumberPart(n: Naming, k: nat): string { n.word + Blanks(n.gap) + Numeral(k) }

  /** `Section k`, a joint, the heading. */
  function SectionBody(n: Naming, k: nat, heading: string): string {
    NumberPart(n, k) + JointText(n.joint) + heading
  }

  lemma SkipsJoint(j: Joint, heading: string)
    requires IsJointMark(j.mark) && Trimmed(heading)
    ensures AfterNumber(JointText(j) + heading) == heading
  {
    var r := [j.mark] + (Blanks(j.after) + heading);
    assert JointText(j) + heading == Blanks(j.before) + r;
    SkipsBlanks(j.before, r);
    assert r[1..] == Blanks(j.after) + heading;
    SkipsBlanks(j.after, heading);
  }

  /** A section prefix is found once its pieces are. */
  lemma PrefixAt(body: string, number: string, r: string, rest: string)
    requires StartsNoCase(body, "section") && SkipSpaces(body[7..]) == number + r
    requires number != "" && TakeLeft(IsDigit, number + r) == number && AfterNumber(r) == rest
    ensures SectionPrefix(body) == Some(Prefixed(number, rest))
  {
  }

  lemma ReadsSectionPrefix(n: Naming, k: nat, heading: string)
    requires NamingOk(n) && Trimmed(heading)
    ensures SectionPrefix(SectionBody(n, k, heading)) == Some(Prefixed(Numeral(k), heading))
  {
    var r := JointText(n.joint) + heading;
    JointIsNoDigit(n.joint, heading);
    SectionPieces(n.word, n.gap, Numeral(k), r);
    assert SectionBody(n, k, heading) == n.word + Blanks(n.gap) + Numeral(k) + r;
    SkipsJoint(n.joint, heading);
    PrefixAt(SectionBody(n, k, heading), Numeral(k), r, heading);
  }

  lemma JointIsNoDigit(j: Joint, heading: string)
    requires IsJointMark(j.mark)
    ensures JointText(j) + heading != "" && !IsDigit((JointText(j) + heading)[0])
  {
  }

  lemma SectionPieces(word: string, gap: nat, number: string, r: string)
    requires Lower(word) == "section" && IsNumber(number) && r != "" && !IsDigit(r[0])
    ensures var body := word + Blanks(gap) + number + r;
            && StartsNoCase(body, "section")
            && SkipSpaces(body[7..]) == number + r
            && TakeLeft(IsDigit, number + r) == number
  {
    var rest := Blanks(gap) + (number + r);
    assert word + Blanks(gap) + number + r == word + rest;
    NamesSection(word, rest);
    NumberBehindBlanks(gap, number, r);
    TakeAll(IsDigit, number, r);
  }

  lemma NumberBehindBlanks(gap: nat, number: string, r: string)
    requires IsNumber(number)
    ensures SkipSpaces(Blanks(gap) + (number + r)) == number + r
  {
    SkipsBlanks(gap, number + r);
  }

  lemma NamesSection(word: string, rest: string)
    requires Lower(word) == "section"
    ensures StartsNoCase(word + rest, "section") && (word + rest)[7..] == rest
  {
    forall i | 0 <= i < 7 ensures LowerChar((word + rest)[i]) == "section"[i] {
      assert (word + rest)[i] == word[i] && Lower(word)[i] == LowerChar(word[i]);
    }
  }

  lemma StartsWithLetter(n: Naming, k: nat, heading: string)
    requires NamingOk(n) && heading != ""
    ensures var body := SectionBody(n, k, heading);
            && |body| > 7 && IsAsciiLetter(body[0]) && body[|body| - 1] == heading[|heading| - 1]
            && (forall i | 0 <= i < |NumberPart(n, k)| :: body[i] == NumberPart(n, k)[i])
  {
    var body := SectionBody(n, k, heading);
    assert body[0] == n.word[0] && LowerChar(n.word[0]) == Lower(n.word)[0];
  }

  /** The part up to the number holds a digit, and nothing that ends a label. */
  lemma NumberPartIs(n: Naming, k: nat)
    requires Lower(n.word) == "section"
    ensures var part := NumberPart(n, k);
            && IsAsciiDigit(part[|part| - 1])
            && (forall i | 0 <= i < |part| :: !EndsLabel(part[i]))
  {
    forall i | 0 <= i < 7 ensures !EndsLabel(n.word[i]) {
      assert LowerChar(n.word[i]) == Lower(n.word)[i];
    }
    assert NumberPart(n, k)[|NumberPart(n, k)| - 1] == Numeral(k)[|Numeral(k)| - 1];
  }

  /** Behind any heading marker the section line opens section k with this heading. */
  predicate OpensAs(a: Action, k: nat, heading: string) {
    a.TakeHeading? && a.heading.prefix == Some(Prefixed(Numeral(k), heading))
  }

  /** Stripping markers around a text without any at its ends. */
  lemma CleansMarkers(before: string, s: string, after: string)
    requires Trimmed(s) && !IsMarker(s[0]) && !IsMarker(s[|s| - 1])
    requires forall i | 0 <= i < |before| :: IsMarker(before[i])
    requires forall i | 0 <= i < |after| :: IsMarker(after[i])
    ensures CleanLabel(before + s + after) == s
  {
    var raw := before + s + after;
    assert raw == before + (s + after);
    TrimmedIsFixed(s);
    MarkedIsTrimmed(before, s, after);
    TrimmedIsFixed(raw);
    DropsBefore(before, s + after);
    DropsAfter(s, after);
  }

  lemma MarkedIsTrimmed(before: string, s: string, after: string)
    requires Trimmed(s)
    requires forall i | 0 <= i < |before| :: IsMarker(before[i])
    requires forall i | 0 <= i < |after| :: IsMarker(after[i])
    ensures Trimmed(before + s + after)
  {
  }

  lemma {:induction false} DropsBefore(before: string, s: string)
    requires forall i | 0 <= i < |before| :: IsMarker(before[i])
    requires s != "" && !IsMarker(s[0])
    ensures DropLeft(IsMarker, before + s) == s
  {
    if before == "" {
      assert before + s == s;
    } else {
      assert (before + s)[1..] == before[1..] + s;
      DropsBefore(before[1..], s);
    }
  }

  lemma {:induction false} DropsAfter(s: string, after: string)
    requires forall i | 0 <= i < |after| :: IsMarker(after[i])
    requires s != "" && !IsMarker(s[|s| - 1])
    ensures DropRight(IsMarker, s + after) == s
  {
    if after == "" {
      assert s + after == s;
    } else {
      assert (s + after)[..|s + after| - 1] == s + after[..|after| - 1];
      DropsAfter(s, after[..|after| - 1]);
    }
  }

  lemma ActionOfBullet(line: string, text: string)
    requires Heading(line).None? && BoldInline(line).None? && LabelledLine(line).None?
    requires Bullet(line) == Some(text)
    ensures ActionOf(line) == BulletAction(text)
  {
  }

  lemma BulletHeading(text: string, body: string)
    requires CleanLabel(text) == body && SectionPrefix(body).Some?
    ensures BulletAction(text) == TakeHeading(ReadHeading(body, 1))
  {
  }

  /** With its number before any colon, a section line has no label. */
  lemma SectionHasNoLabel(prefix: string, n: Naming, k: nat, rest: string)
    requires Lower(n.word) == "section" && forall i | 0 <= i < |prefix| :: !IsAsciiLetter(prefix[i])
    ensures LabelledLine(prefix + NumberPart(n, k) + rest).None?
  {
    var part := NumberPart(n, k);
    var line := prefix + part + rest;
    var l, m := |prefix|, |prefix| + |part|;
    assert forall i | 0 <= i < l :: line[i] == prefix[i];
    assert forall i | l <= i < m :: line[i] == part[i - l];
    NumberPartIs(n, k);
    assert LowerChar(part[0]) == Lower(n.word)[0];
    FindIs(IsAsciiLetter, line, 0, l);
    var c := Find(IsColon, line, l);
    FindFirst(IsColon, line, l);
    if c < |line| {
      assert c >= m;
      assert line[l..c][m - 1 - l] == line[m - 1];
      NumberIsNoLabel(line[l..c], 3, m - 1 - l);
      NoLabelAt(line, l, c);
    }
  }

  lemma NoLabelAt(line: string, l: nat, c: nat)
    requires l <= c < |line| && l == Find(IsAsciiLetter, line, 0) && c == Find(IsColon, line, l)
    requires LabelLength(line[l..c], 3) == None
    ensures LabelledLine(line).None?
  {
  }

  /** In bold behind a joint other than a colon, a colon in the heading could end a label. */
  predicate FitsBold(n: Naming, heading: string) {
    n.joint.mark != ':' ==> forall i | 0 <= i < |heading| :: heading[i] != ':'
  }

  /** `**Section k: heading**` */
  lemma ReadsBoldSection(n: Naming, k: nat, heading: string)
    requires NamingOk(n) && Trimmed(heading) && Bare(heading) && FitsBold(n, heading)
    ensures var line := "**" + SectionBody(n, k, heading) + "**";
            && Trimmed(line) && LabelledLine(line).None?
            && OpensAs(ActionOf(line), k, heading)
  {
    var body := SectionBody(n, k, heading);
    var line := "**" + body + "**";
    var text := "*" + body + "**";
    StartsWithLetter(n, k, heading);
    assert line[1..] == text && Trimmed(text);
    TrimmedIsFixed(text);
    BulletIsFound(line);
    NoHashNoHeading(line);
    BoldSectionIsNoInline(n, k, heading);
    assert line == "**" + NumberPart(n, k) + (JointText(n.joint) + heading + "**");
    SectionHasNoLabel("**", n, k, JointText(n.joint) + heading + "**");
    ActionOfBullet(line, text);
    CleansMarkers("*", body, "**");
    ReadsSectionPrefix(n, k, heading);
    BulletHeading(text, body);
  }

  lemma BoldSectionIsNoInline(n: Naming, k: nat, heading: string)
    requires NamingOk(n) && Trimmed(heading) && Bare(heading) && FitsBold(n, heading)
    ensures BoldInline("**" + SectionBody(n, k, heading) + "**").None?
  {
    if n.joint.mark == ':' {
      ColonIsNoInline(n, k, heading);
    } else {
      OtherIsNoInline(n, k, heading);
    }
  }

  lemma ColonIsNoInline(n: Naming, k: nat, heading: string)
    requires NamingOk(n) && Trimmed(heading) && Bare(heading) && n.joint.mark == ':'
    ensures BoldInline("**" + SectionBody(n, k, heading) + "**").None?
  {
    var line := "**" + SectionBody(n, k, heading) + "**";
    var before := NumberPart(n, k) + Blanks(n.joint.before);
    var rest := heading + "**";
    var c := 2 + |before|;
    assert line == "**" + before + ":" + (Blanks(n.joint.after) + rest);
    NumberPartIs(n, k);
    assert forall i | 2 <= i < c :: line[i] == before[i - 2];
    assert forall i | 0 <= i < |before| :: !EndsLabel(before[i]);
    FindIs(EndsLabel, line, 2, c);
    assert line[c + 1..] == Blanks(n.joint.after) + rest;
    SkipsBlanks(n.joint.after, rest);
    assert rest[0] == heading[0];
    NoInlineAt(line, c, rest);
  }

  lemma OtherIsNoInline(n: Naming, k: nat, heading: string)
    requires NamingOk(n) && FitsBold(n, heading) && n.joint.mark != ':'
    ensures BoldInline("**" + SectionBody(n, k, heading) + "**").None?
  {
    var body := SectionBody(n, k, heading);
    var line := "**" + body + "**";
    NumberPartIs(n, k);
    assert forall i | 0 <= i < |body| :: body[i] != ':';
    assert forall i | 0 <= i < |line| :: line[i] != ':';
    FindFirst(EndsLabel, line, 2);
  }

  lemma NoInlineAt(line: string, k: nat, rest: string)
    requires 2 <= k < |line| && k == Find(EndsLabel, line, 2)
    requires SkipSpaces(line[k + 1..]) == rest && !Starts(rest, "**")
    ensures BoldInline(line).None?
  {
  }

  /** `- Section k: heading` */
  lemma ReadsBulletSection(mark: char, n: Naming, k: nat, heading: string)
    requires IsPoint(mark) && NamingOk(n) && Trimmed(heading) && Bare(heading)
    ensures var line := [mark] + " " + SectionBody(n, k, heading);
            && Trimmed(line) && LabelledLine(line).None?
            && OpensAs(ActionOf(line), k, heading)
  {
    var body := SectionBody(n, k, heading);
    var line := [mark] + " " + body;
    StartsWithLetter(n, k, heading);
    BulletSectionHasNoLabel(mark, n, k, heading);
    BodyBehindBullet(mark, body);
    ActionOfBullet(line, body);
    BareIsClean(body);
    ReadsSectionPrefix(n, k, heading);
    BulletHeading(body, body);
  }

  lemma BulletSectionHasNoLabel(mark: char, n: Naming, k: nat, heading: string)
    requires IsPoint(mark) && NamingOk(n)
    ensures LabelledLine([mark] + " " + SectionBody(n, k, heading)).None?
  {
    var rest := JointText(n.joint) + heading;
    assert [mark] + " " + SectionBody(n, k, heading) == ([mark] + " ") + NumberPart(n, k) + rest;
    SectionHasNoLabel([mark] + " ", n, k, rest);
  }

  lemma BodyBehindBullet(mark: char, body: string)
    requires IsPoint(mark) && Trimmed(body)
    ensures var line := [mark] + " " + body;
            && Trimmed(line) && Heading(line).None? && BoldInline(line).None? && Bullet(line) == Some(body)
  {
    var line := [mark] + " " + body;
    assert line[1..] == " " + body;
    TrimSpaceBefore(body);
    BulletIsFound(line);
    NoHashNoHeading(line);
    NotInline(line);
  }

  // -------------------------------------------------------------------- # headings

  function Hashes(level: nat): (s: string)
    ensures |s| == level && forall i | 0 <= i < level :: s[i] == '#'
  {
    seq(level, i => '#')
  }

  lemma HeadingAt(line: string, n: nat, text: string)
    requires 1 <= n <= 6 && n <= |line| && HeadingLevel(line) == n
    requires SkipSpaces(line[n..]) == text && text != "" && HeadingText(text) == text
    ensures Heading(line) == Some(text)
  {
  }

  lemma NoTrailingHash(text: string)
    requires Trimmed(text) && Bare(text)
    ensures HeadingText(text) == text
  {
  }

  lemma ActionOfHeading(line: string, text: string)
    requires Heading(line) == Some(text) && CleanLabel(text) == text
    ensures ActionOf(line) == TakeHeading(ReadHeading(text, HeadingLevel(line)))
  {
  }

  lemma HeadingPieces(level: nat, gap: nat, text: string)
    requires 1 <= level <= 6 && Trimmed(text) && Bare(text)
    ensures var line := Hashes(level) + Blanks(gap) + text;
            && HeadingLevel(line) == level && SkipSpaces(line[level..]) == text
            && Trimmed(line) && line[0] == '#'
  {
    var line := Hashes(level) + Blanks(gap) + text;
    var rest := Blanks(gap) + text;
    assert line == Hashes(level) + rest;
    TakeAll(IsHash, Hashes(level), rest);
    assert line[level..] == rest;
    SkipsBlanks(gap, text);
    assert line[|line| - 1] == text[|text| - 1];
  }

  /** One to six # and a text without edge characters. */
  lemma ReadsHeading(level: nat, gap: nat, text: string)
    requires 1 <= level <= 6 && Trimmed(text) && Bare(text)
    ensures var line := Hashes(level) + Blanks(gap) + text;
            && Trimmed(line) && LabelledLine(line).None?
            && ActionOf(line) == TakeHeading(ReadHeading(text, level))
  {
    var line := Hashes(level) + Blanks(gap) + text;
    HeadingPieces(level, gap, text);
    NoTrailingHash(text);
    HeadingAt(line, level, text);
    BareIsClean(text);
    ActionOfHeading(line, text);
    HashHasNoLabel(line);
  }

  lemma BareIsClean(text: string)
    requires Trimmed(text) && Bare(text)
    ensures CleanLabel(text) == text
  {
  }

  /** `### Section k: heading` */
  lemma ReadsHashSection(level: nat, gap: nat, n: Naming, k: nat, heading: string)
    requires 1 <= level <= 6 && NamingOk(n) && Trimmed(heading) && Bare(heading)
    ensures var line := Hashes(level) + Blanks(gap) + SectionBody(n, k, heading);
            && Trimmed(line) && LabelledLine(line).None?
            && OpensAs(ActionOf(line), k, heading)
  {
    StartsWithLetter(n, k, heading);
    ReadsHeading(level, gap, SectionBody(n, k, heading));
    ReadsSectionPrefix(n, k, heading);
  }

  // ------------------------------------------------------------------------ word counts

  /** Digits in groups: a digit, and then digits and commas. */
  predicate IsRun(s: string) {
    s != "" && IsAsciiDigit(s[0]) && forall i | 0 <= i < |s| :: IsAsciiDigit(s[i]) || s[i] == ','
  }

  /** What may follow a lone number: anything without a digit that does not go on with a comma. */
  predicate NoNumber(rest: string) {
    (forall i | 0 <= i < |rest| :: !IsDigit(rest[i])) && (rest != "" ==> rest[0] != ',')
  }

  lemma {:induction false} LeftIsSuffix(p: char -> bool, s: string)
    ensures DropLeft(p, s) == s[|s| - |DropLeft(p, s)|..]
  {
    if |s| > 0 && p(s[0]) {
      LeftIsSuffix(p, s[1..]);
    }
  }

  /** Without a digit behind it a number names no range. */
  lemma NoRangeAt(number: string, rest: string, i: nat)
    requires IsRun(number) && NoNumber(rest) && i < |number + rest|
    ensures RangeAt(number + rest, i) == None
  {
    var s := number + rest;
    if i < |number| {
      var low := number[i..];
      assert s[i..] == low + rest;
      TakeAll(InRun, low, rest);
      assert s[i + |low|..] == rest;
      NoDigitFollows(rest);
    } else {
      assert s[i] == rest[i - |number|];
    }
  }

  lemma NoDigitFollows(rest: string)
    requires NoNumber(rest)
    ensures var r := SkipSpaces(rest);
            && (r != "" ==> SkipSpaces(r[1..]) != "" ==> !IsDigit(SkipSpaces(r[1..])[0]))
            && (|r| >= 2 ==> SkipSpaces(r[2..]) != "" ==> !IsDigit(SkipSpaces(r[2..])[0]))
  {
    var r := SkipSpaces(rest);
    LeftIsSuffix(IsSpace, rest);
    if r != "" {
      LeftIsSuffix(IsSpace, r[1..]);
    }
    if |r| >= 2 {
      LeftIsSuffix(IsSpace, r[2..]);
    }
  }

  lemma {:induction false} NoRangeInWords(number: string, rest: string, i: nat)
    requires IsRun(number) && NoNumber(rest) && i <= |number + rest|
    ensures FindRange(number + rest, i) == None
    decreases |number + rest| - i
  {
    if i < |number + rest| {
      NoRangeInWords(number, rest, i + 1);
      NoRangeAt(number, rest, i);
    }
  }

  /** Behind a number, grouped or not, text without a digit does not matter. */
  lemma ReadsRun(number: string, rest: string)
    requires IsRun(number) && NoNumber(rest)
    ensures TargetWords(number + rest) == AsInt(number)
  {
    NoRangeInWords(number, rest, 0);
    DigitsOfConcat(number, rest);
    NoDigits(rest);
    assert AsciiDigits(number) + "" == AsciiDigits(number);
  }

  /** `n words` is the number n. */
  lemma ReadsWords(n: nat, rest: string)
    requires NoNumber(rest)
    ensures TargetWords(Numeral(n) + rest) == Some(n)
  {
    ReadsRun(Numeral(n), rest);
    LoneNumber(n);
  }

  /** What joins the two ends of a range. */
  predicate IsRangeJoint(mark: string) {
    mark == "\U{2013}" || mark == "\U{2014}" || mark == "-" || mark == "~" || mark == "to"
  }

  lemma RangeHere(s: string, low: string, mark: string, r: string, high: string)
    requires s != "" && IsDigit(s[0]) && TakeLeft(InRun, s) == low && IsRangeJoint(mark)
    requires SkipSpaces(s[|low|..]) == mark + r && SkipSpaces(r) == high
    requires high != "" && IsDigit(high[0])
    ensures TargetWords(s) == AsInt(low)
  {
    assert mark == "to" ==> (mark + r)[2..] == r && Starts(mark + r, "to");
    assert |mark| == 1 ==> (mark + r)[1..] == r;
  }

  function RangeText(low: string, before: nat, mark: string, after: nat, high: nat, rest: string): string {
    low + Blanks(before) + mark + Blanks(after) + Numeral(high) + rest
  }

  lemma RangePieces(number: string, before: nat, mark: string, after: nat, top: string)
    requires IsRun(number) && IsRangeJoint(mark) && top != "" && IsAsciiDigit(top[0])
    ensures var s := number + (Blanks(before) + (mark + (Blanks(after) + top)));
            && TakeLeft(InRun, s) == number
            && SkipSpaces(s[|number|..]) == mark + (Blanks(after) + top)
            && SkipSpaces(Blanks(after) + top) == top
  {
    var tail := Blanks(before) + (mark + (Blanks(after) + top));
    assert !InRun(tail[0]);
    TakeAll(InRun, number, tail);
    assert (number + tail)[|number|..] == tail;
    SkipsBlanks(before, mark + (Blanks(after) + top));
    SkipsBlanks(after, top);
  }

  /** A range gives its lower bound, grouped or not. */
  lemma ReadsRange(low: string, before: nat, mark: string, after: nat, high: nat, rest: string)
    requires IsRun(low) && IsRangeJoint(mark)
    ensures TargetWords(RangeText(low, before, mark, after, high, rest)) == AsInt(low)
  {
    var top := Numeral(high) + rest;
    var s := low + (Blanks(before) + (mark + (Blanks(after) + top)));
    assert RangeText(low, before, mark, after, high, rest) == s;
    RangePieces(low, before, mark, after, top);
    RangeHere(s, low, mark, Blanks(after) + top, top);
  }

  lemma LoneNumber(n: nat)
    ensures AsInt(Numeral(n)) == Some(n)
  {
    NumeralAsInt(n, "");
    assert Numeral(n) + "" == Numeral(n);
  }
}
