/** The regular expressions of the outline parser, as functions of a stripped line. */
module Matchers {
  import opened Rows
  import opened Text

  /** A label with its value. */
  datatype Labelled = Labelled(name: string, value: string)

  predicate IsHash(c: char) { c == '#' }

  /** _heading_level: all leading # of the line. */
  function HeadingLevel(line: string): nat { |TakeLeft(IsHash, line)| }

  /** The shortest non-empty text that leaves only spaces and # behind it. */
  function HeadingText(r: string): string
    requires r != ""
  {
    var t := DropRight(IsSpace, DropRight(IsHash, r));
    if t == "" then r[..1] else t
  }

  /** _HEADING: up to six # and a text; a line of # alone gives one of them back. */
  function Heading(line: string): Option<string> {
    var hashes := HeadingLevel(line);
    if hashes == 0 then None
    else
      var rest := SkipSpaces(line[if hashes < 6 then hashes else 6..]);
      if rest != "" then Some(HeadingText(rest))
      else if hashes > 1 then Some("#")
      else None
  }

  predicate EndsLabel(c: char) { c == '*' || c == ':' }

  /** _BOLD_INLINE: `**label:** value`. */
  function BoldInline(line: string): Option<Labelled> {
    if !Starts(line, "**") then None
    else
      var k := Find(EndsLabel, line, 2);
      if k == 2 || k == |line| || line[k] != ':' then None
      else
        var rest := SkipSpaces(line[k + 1..]);
        if !Starts(rest, "**") || Trim(rest[2..]) == "" then None
        else Some(Labelled(Lower(Trim(line[2..k])), Trim(rest[2..])))
  }

  predicate IsBullet(c: char) { c == '*' || c == '+' || c == '-' }

  /** _BULLET */
  function Bullet(line: string): Option<string> {
    if |line| < 2 || !IsBullet(line[0]) then None else Some(Trim(line[1..]))
  }

  predicate IsColon(c: char) { c == ':' }

  predicate IsBold(s: string) { s == "" || s == "**" || s == "__" }

  /** What may stand before a label: a bullet, a bold marker, spaces. */
  predicate OpensLabel(prefix: string) {
    var t := Trim(prefix);
    IsBold(t) || (t != "" && IsBullet(t[0]) && IsBold(SkipSpaces(t[1..])))
  }

  predicate IsLabelChar(c: char) { IsAsciiLetter(c) || c == ' ' || c == '_' }

  /** How many characters, n or more and at most 31, the label takes of the text before
      the colon: as few as leave only spaces and a bold marker. */
  function LabelLength(s: string, n: nat): (r: Option<nat>)
    ensures r.Some? ==> n <= r.value <= |s|
    decreases |s| - n
  {
    if n > 31 || n > |TakeLeft(IsLabelChar, s)| then None
    else if IsBold(Trim(s[n..])) then Some(n)
    else LabelLength(s, n + 1)
  }

  /** The label that starts at l and ends before the colon at k. */
  function LabelBetween(line: string, l: nat, k: nat): Option<Labelled>
    requires l <= k < |line|
  {
    var n := LabelLength(line[l..k], 3);
    var value := Trim(line[k + 1..]);
    if n.None? || value == "" then None
    else Some(Labelled(Lower(Trim(line[l..k][..n.value])), value))
  }

  /** _LABELLED: `label: value`, possibly bulleted or bold. */
  function LabelledLine(line: string): Option<Labelled> {
    var l := Find(IsAsciiLetter, line, 0);
    if l == |line| || !OpensLabel(line[..l]) then None
    else
      var k := Find(IsColon, line, l);
      if k == |line| then None else LabelBetween(line, l, k)
  }

  /** _BOLD_LINE: `**text**`, possibly with a colon behind it. */
  function BoldLine(line: string): Option<string> {
    var t := if line != "" && line[|line| - 1] == ':' then DropRight(IsSpace, line[..|line| - 1]) else line;
    if |t| < 5 || t[..2] != "**" || t[|t| - 2..] != "**" then None else Some(t[2..|t| - 2])
  }

  predicate IsSeparator(c: char) {
    c == '.' || c == ':' || c == ')' || c == '-' || c == '\U{2013}' || c == '\U{2014}'
  }

  /** Behind a number: spaces, a separator, spaces. */
  function AfterNumber(s: string): string {
    var r := SkipSpaces(s);
    SkipSpaces(if r != "" && IsSeparator(r[0]) then r[1..] else r)
  }

  datatype Prefixed = Prefixed(number: string, rest: string)

  /** _SECTION_PREFIX: the section number, and what follows the prefix. */
  function SectionPrefix(body: string): Option<Prefixed> {
    if !StartsNoCase(body, "section") then None
    else
      var r := SkipSpaces(body[7..]);
      var number := TakeLeft(IsDigit, r);
      if number == "" then None else Some(Prefixed(number, AfterNumber(r[|number|..])))
  }

  predicate IsSectionHeading(text: string) {
    SectionPrefix(text).Some? || Starts(Lower(text), "section ") || Starts(Lower(text), "part ")
  }

  /** The body without a leading `section` or `part`, its number and its separator. */
  function WithoutPart(body: string): string {
    if StartsNoCase(body, "section") then
      var r := SkipSpaces(body[7..]);
      AfterNumber(r[|TakeLeft(IsDigit, r)|..])
    else if StartsNoCase(body, "part") then
      var r := SkipSpaces(body[4..]);
      AfterNumber(r[|TakeLeft(IsDigit, r)|..])
    else body
  }

  /** The body without a leading `blog title`. */
  function WithoutBlogTitle(body: string): string {
    if !StartsNoCase(body, "blog") then body
    else
      var r := SkipSpaces(body[4..]);
      if |r| < |body[4..]| && StartsNoCase(r, "title") then SkipSpaces(r[5..]) else body
  }

  predicate InRun(c: char) { IsDigit(c) || c == ',' }

  predicate IsRangeMark(c: char) { c == '\U{2013}' || c == '\U{2014}' || c == '-' || c == '~' }

  /** The first number of a range that starts at i. */
  function RangeAt(s: string, i: nat): Option<string>
    requires i <= |s|
  {
    if i == |s| || !IsDigit(s[i]) then None
    else
      var low := TakeLeft(InRun, s[i..]);
      var r := SkipSpaces(s[i + |low|..]);
      var high := if r != "" && IsRangeMark(r[0]) then SkipSpaces(r[1..])
                  else if Starts(r, "to") then SkipSpaces(r[2..])
                  else "";
      if high != "" && IsDigit(high[0]) then Some(low) else None
  }

  /** The first number of the leftmost range. */
  function FindRange(s: string, i: nat): Option<string>
    requires i <= |s|
    decreases |s| - i
  {
    if i == |s| then None
    else if RangeAt(s, i).Some? then RangeAt(s, i)
    else FindRange(s, i + 1)
  }

  /** _target_words: the lower bound of a range, or the number in the text. */
  function TargetWords(value: string): Option<nat> {
    var low := FindRange(value, 0);
    AsInt(if low.Some? then low.value else value)
  }

  // -------------------------------------------------------------------------- labels

  predicate TitleLabel(name: string) { name == "title" || name == "blog title" }

  predicate GoalLabel(name: string) {
    name == "goal" || name == "objective" || name == "purpose" || name == "focus"
  }

  predicate WordLabel(name: string) {
    name == "target word count" || name == "target words" || name == "word count" || name == "words"
  }

  predicate TotalLabel(name: string) {
    || name == "total word count" || name == "total words" || name == "estimated total words"
    || name == "estimated_total_words" || name == "total estimated words"
  }

  // -------------------------------------------------------------------------- fences

  /** The index of the first triple backtick at or after i, or the length. */
  function FindFence(s: string, i: nat): (k: nat)
    requires i <= |s|
    ensures i <= k <= |s|
    ensures k < |s| ==> k + 3 <= |s|
    decreases |s| - i
  {
    if i + 3 > |s| then |s|
    else if s[i] == '`' && s[i + 1] == '`' && s[i + 2] == '`' then i
    else FindFence(s, i + 1)
  }

  /** Behind an opening fence: without a json tag and leading spaces. */
  function FenceBody(tagged: string): string {
    SkipSpaces(if Starts(tagged, "json") || Starts(tagged, "JSON") then tagged[4..] else tagged)
  }

  /** The body up to the closing fence, if there is one. */
  function Fenced(body: string): Option<string> {
    var close := FindFence(body, 0);
    if close == |body| then None else Some(Trim(body[..close]))
  }

  function StripAt(s: string, open: nat): string
    requires open <= |s| && (open < |s| ==> open + 3 <= |s|)
  {
    var fenced := if open == |s| then None else Fenced(FenceBody(s[open + 3..]));
    if fenced.Some? then fenced.value else Trim(s)
  }

  /** _strip_fences: the contents of the first fenced block, or the whole text. */
  function StripFences(s: string): string {
    StripAt(s, FindFence(s, 0))
  }
}
