/** The total of an outline, which is what a line declares it to be or else the sum of the
    targets, and what the schema asks of an outline in numbers. */
module OutlineTotals {
  import opened Rows
  import opened Text
  import opened Matchers
  import opened Outline
  import opened OutlineLines
  import opened OutlineForms

  // ------------------------------------------------------------------ the total line

  const TOTAL_NAMES: seq<string> :=
    ["total word count", "total words", "estimated total words", "estimated_total_words", "total estimated words"]

  /** A name of the total, in any case, and a value that stands on one line. */
  predicate DeclaresTotal(name: string, value: string) {
    Lower(name) in TOTAL_NAMES && FieldOk(value)
  }

  function TotalLine(inBold: bool, name: string, value: string): string {
    if inBold then "**" + name + ":** " + value else LabelText(name, value)
  }

  lemma TotalIsName(name: string)
    requires Lower(name) in TOTAL_NAMES
    ensures IsName(name)
  {
    ShortTotalNames();
    LongTotalNames();
    SpellingIsName(name, Lower(name));
  }

  lemma ShortTotalNames()
    ensures IsName(TOTAL_NAMES[0]) && IsName(TOTAL_NAMES[1])
  {
  }

  lemma LongTotalNames()
    ensures IsName(TOTAL_NAMES[2]) && IsName(TOTAL_NAMES[3]) && IsName(TOTAL_NAMES[4])
  {
  }

  /** The parser's loop passes over the line. */
  lemma NamedTotalIsIgnored(line: string, l: Labelled)
    requires Heading(line).None? && BoldInline(line).None? && Bullet(line).None?
    requires LabelledLine(line) == Some(l) && l.name in TOTAL_NAMES
    ensures ActionOf(line) == Ignore
  {
  }

  /** What the search for the total finds on the line. */
  predicate ReadsTotal(line: string, total: Option<nat>) {
    var l := LabelledLine(Trim(line));
    l.Some? && l.value.name in TOTAL_NAMES && AsInt(l.value.value) == total
  }

  lemma NamedTotalReads(name: string, value: string)
    requires DeclaresTotal(name, value)
    ensures var line := LabelText(name, value);
            Trimmed(line) && line[0] != '{' && LineAction(line) == Ignore && ReadsTotal(line, AsInt(value))
  {
    var line := LabelText(name, value);
    TotalIsName(name);
    ReadsLetterLine(name, value);
    TrimmedAction(line);
    NamedTotalIsIgnored(line, Labelled(Lower(name), value));
  }

  lemma StarsAreNoDigits(value: string)
    ensures AsInt("** " + value) == AsInt(value)
  {
    DigitsOfConcat("** ", value);
    NoDigits("** ");
    assert "" + AsciiDigits(value) == AsciiDigits(value);
  }

  lemma BoldTotalReads(name: string, value: string)
    requires DeclaresTotal(name, value)
    ensures var line := "**" + name + ":** " + value;
            Trimmed(line) && line[0] != '{' && LineAction(line) == Ignore && ReadsTotal(line, AsInt(value))
  {
    var line := "**" + name + ":** " + value;
    TotalIsName(name);
    ReadsBoldInline(name, value);
    BoldTotalLabel(name, value);
    TrimmedAction(line);
    InlineAction(line, Labelled(Lower(name), value));
    TotalAsksNothing(Labelled(Lower(name), value));
    StarsAreNoDigits(value);
  }

  lemma TotalAsksNothing(l: Labelled)
    requires l.name in TOTAL_NAMES
    ensures !TitleLabel(l.name) && LabelAction(l) == Ignore
  {
  }

  lemma BoldTotalLabel(name: string, value: string)
    requires IsName(name) && Trimmed(value)
    ensures LabelledLine("**" + name + ":** " + value) == Some(Labelled(Lower(name), "** " + value))
  {
    InlinePieces(name, value);
    BoldOpens();
    TrimmedIsFixed("** " + value);
    ReadsLabel("**", name, "", "** " + value);
  }

  lemma TotalLineReads(inBold: bool, name: string, value: string)
    requires DeclaresTotal(name, value)
    ensures var line := TotalLine(inBold, name, value);
            && Trimmed(line) && line[0] != '{' && Clean(line)
            && LineAction(line) == Ignore && ReadsTotal(line, AsInt(value))
  {
    TotalIsName(name);
    assert Plain(name);
    if inBold {
      BoldTotalReads(name, value);
      LabelLineIsClean(Inline, name, value);
    } else {
      NamedTotalReads(name, value);
      FramedField(name + ": ", value, "");
      assert LabelText(name, value) == name + ": " + value + "";
    }
  }

  // -------------------------------------------------------------- a line in between

  function Inserted(lines: seq<string>, k: nat, line: string): (r: seq<string>)
    requires k <= |lines|
    ensures |r| == |lines| + 1
    ensures forall i | 0 <= i < |r| :: r[i] == if i < k then lines[i] else if i == k then line else lines[i - 1]
  {
    lines[..k] + [line] + lines[k..]
  }

  /** A line that asks for nothing leaves the reading as it was. */
  lemma IgnoredAnywhere(lines: seq<string>, k: nat, line: string)
    requires k <= |lines| && LineAction(line) == Ignore
    ensures Read(START, Actions(Inserted(lines, k, line))) == Read(START, Actions(lines))
  {
    var a, b := lines[..k], lines[k..];
    assert lines == a + b;
    MapConcat(LineAction, a, b);
    MapConcat(LineAction, a + [line], b);
    MapConcat(LineAction, a, [line]);
    ReadConcat(START, Actions(a), Actions(b));
    ReadConcat(START, Actions(a + [line]), Actions(b));
    ReadConcat(START, Actions(a), [Ignore]);
    assert Actions([line]) == [Ignore];
    assert Read(Read(START, Actions(a)), [Ignore]) == Read(START, Actions(a)) by {
      assert [Ignore][..0] == [];
    }
  }

  /** The search goes past lines without a total label. */
  lemma {:induction false} PastOthers(a: seq<string>, b: seq<string>)
    requires forall i | 0 <= i < |a| :: NoTotalLine(a[i])
    ensures FindTotal(a + b) == FindTotal(b)
  {
    if a == [] {
      assert a + b == b;
    } else {
      assert NoTotalLine(a[0]) && (a + b)[1..] == a[1..] + b;
      PastOthers(a[1..], b);
    }
  }

  lemma TotalHere(line: string, total: Option<nat>, lines: seq<string>)
    requires ReadsTotal(line, total) && lines != [] && lines[0] == line
    ensures FindTotal(lines) == total
  {
  }

  /** The only line with a total label decides. */
  lemma TotalAnywhere(lines: seq<string>, k: nat, line: string, total: Option<nat>)
    requires k <= |lines| && (forall i | 0 <= i < |lines| :: NoTotalLine(lines[i]))
    requires ReadsTotal(line, total)
    ensures FindTotal(Inserted(lines, k, line)) == total
  {
    TotalHere(line, total, [line] + lines[k..]);
    PastOthers(lines[..k], [line] + lines[k..]);
    assert Inserted(lines, k, line) == lines[..k] + ([line] + lines[k..]);
  }

  // ------------------------------------------------------------------ the whole text

  /** The printed lines with the line among them, as one text. */
  function With(form: Form, o: Outline, k: nat, line: string): string
    requires k <= |Lines(form, o)|
  {
    Join(Inserted(Lines(form, o), k, line))
  }

  predicate EndsTrimmed(lines: seq<string>) {
    lines != [] && Trimmed(lines[0]) && lines[0][0] != '{' && Trimmed(lines[|lines| - 1])
  }

  lemma PrintedShape(form: Form, o: Outline)
    requires Fits(form, o)
    ensures EndsTrimmed(Lines(form, o)) && forall i | 0 <= i < |Lines(form, o)| :: Clean(Lines(form, o)[i])
  {
    TitleLineIsOk(form, o.title);
    LinesAreClean(form, o);
    LastLineIsTrimmed(form, o);
  }

  lemma InsertedShape(lines: seq<string>, k: nat, line: string)
    requires EndsTrimmed(lines) && (forall i | 0 <= i < |lines| :: Clean(lines[i]))
    requires k <= |lines| && Clean(line) && Trimmed(line) && line[0] != '{'
    ensures var text := Join(Inserted(lines, k, line));
            && SplitLines(text) == Inserted(lines, k, line)
            && Trimmed(text) && NoFence(text) && text[0] != '{'
  {
    JoinShape(Inserted(lines, k, line));
  }

  lemma WithTotalRead(form: Form, o: Outline, k: nat, line: string, total: Option<nat>)
    requires Fits(form, o) && (form.title.BehindHash? ==> PlainTitle(o.title)) && k <= |Lines(form, o)|
    requires LineAction(line) == Ignore && ReadsTotal(line, total)
    ensures var lines := Inserted(Lines(form, o), k, line);
            && FindTotal(lines) == total
            && Read(START, Actions(lines)) == State(Some(o.title), Drafts(o.sections), true)
  {
    TitleIsRead(form, o.title);
    LinesRead(form, o);
    assert [] + Drafts(o.sections) == Drafts(o.sections);
    IgnoredAnywhere(Lines(form, o), k, line);
    LinesHaveNoTotal(form, o);
    TotalAnywhere(Lines(form, o), k, line, total);
  }

  lemma ParsesWith(text: string, title: string, sections: seq<Section>, declared: Option<nat>)
    requires FindTotal(SplitLines(text)) == declared && |sections| > 0
    requires Read(START, Actions(SplitLines(text))) == State(Some(title), Drafts(sections), true)
    ensures ParseMarkdown(text)
         == Parsed(Payload(title, Drafts(sections), if declared.Some? then declared else Some(WordSum(sections))))
  {
    SumOfDrafts(sections);
    CompleteDrafts(sections);
  }

  /** A declared total takes the place of the sum of the targets, wherever in the text its
      line stands and whichever of its names it goes by: the outline is accepted with that
      total exactly when the total, like the title and the number of sections, is within
      the schema's bounds, whatever the targets sum to.  A total without a digit is none. */
  lemma DeclaredTotal(form: Form, o: Outline, k: nat, inBold: bool, name: string, value: string)
    requires Fits(form, o) && (form.title.BehindHash? ==> PlainTitle(o.title)) && k <= |Lines(form, o)|
    requires DeclaresTotal(name, value)
    ensures var total := if AsInt(value).Some? then AsInt(value).value else WordSum(o.sections);
            NormalizeOutline(With(form, o, k, TotalLine(inBold, name, value)))
            == if |o.title| <= 120 && 3 <= |o.sections| <= 7 && 300 <= total <= 2000
               then Accepted(o.(totalWords := total)) else Refused(SchemaError)
  {
    var line := TotalLine(inBold, name, value);
    var text := With(form, o, k, line);
    TotalLineReads(inBold, name, value);
    PrintedShape(form, o);
    InsertedShape(Lines(form, o), k, line);
    WithTotalRead(form, o, k, line, AsInt(value));
    TargetsFit(form, o);
    TextAnswers(text, o, AsInt(value));
  }

  lemma TargetsFit(form: Form, o: Outline)
    requires Fits(form, o)
    ensures forall i | 0 <= i < |o.sections| :: 80 <= o.sections[i].targetWords <= 300
  {
    forall i | 0 <= i < |o.sections| ensures 80 <= o.sections[i].targetWords <= 300 {
      assert Takes(form.style(i + 1), o.sections[i], i + 1);
    }
  }

  lemma TextAnswers(text: string, o: Outline, declared: Option<nat>)
    requires Trimmed(text) && NoFence(text) && text[0] != '{'
    requires FindTotal(SplitLines(text)) == declared && |o.sections| > 0
    requires Read(START, Actions(SplitLines(text))) == State(Some(o.title), Drafts(o.sections), true)
    requires forall i | 0 <= i < |o.sections| :: 80 <= o.sections[i].targetWords <= 300
    ensures var total := if declared.Some? then declared.value else WordSum(o.sections);
            NormalizeOutline(text)
            == if |o.title| <= 120 && 3 <= |o.sections| <= 7 && 300 <= total <= 2000
               then Accepted(o.(totalWords := total)) else Refused(SchemaError)
  {
    StaysUnfenced(text);
    NeitherEmptyNorJson(text);
    ParsesWith(text, o.title, o.sections, declared);
    ReachesParser(text, ParseMarkdown(text));
    var total := if declared.Some? then declared.value else WordSum(o.sections);
    DraftsValidate(o, total);
  }

  lemma DraftsValidate(o: Outline, total: nat)
    requires forall i | 0 <= i < |o.sections| :: 80 <= o.sections[i].targetWords <= 300
    ensures Validate(Payload(o.title, Drafts(o.sections), Some(total)))
         == if |o.title| <= 120 && 3 <= |o.sections| <= 7 && 300 <= total <= 2000
            then Accepted(o.(totalWords := total)) else Refused(SchemaError)
  {
    ValidatesExactly(Payload(o.title, Drafts(o.sections), Some(total)));
  }

  // ------------------------------------------------------------------------ the schema

  /** The section states a goal and a target of 80 to 300 words. */
  predicate MeetsSchema(d: Draft) {
    d.goal.Some? && d.target.Some? && d.target.value.Some? && 80 <= d.target.value.value <= 300
  }

  /** A payload is accepted exactly within the schema's numbers, and unchanged. */
  lemma ValidatesExactly(p: Payload)
    ensures Validate(p).Accepted?
       <==> && |p.title| <= 120 && 3 <= |p.sections| <= 7
            && p.total.Some? && 300 <= p.total.value <= 2000
            && (forall i | 0 <= i < |p.sections| :: MeetsSchema(p.sections[i]))
    ensures Validate(p).Accepted? ==>
              && Validate(p).outline.title == p.title
              && p.total == Some(Validate(p).outline.totalWords)
              && Drafts(Validate(p).outline.sections) == p.sections
    ensures !Validate(p).Accepted? ==> Validate(p) == Refused(SchemaError)
  {
    assert forall i | 0 <= i < |p.sections| :: MeetsSchema(p.sections[i]) <==> DraftOk(p.sections[i]);
  }

  // ----------------------------------------------------------------------- every text

  /** The first section that lacks a goal or a target, if any. */
  predicate FirstLacking(sections: seq<Draft>, k: nat) {
    && k < |sections| && (sections[k].goal.None? || sections[k].target.None?)
    && forall i | 0 <= i < k :: sections[i].goal.Some? && sections[i].target.Some?
  }

  predicate Blank(s: string) {
    forall i | 0 <= i < |s| :: IsSpace(s[i])
  }

  predicate BraceFirst(s: string) {
    exists i | 0 <= i < |s| :: s[i] == '{' && Blank(s[..i])
  }

  lemma {:induction false} BlankExactly(s: string)
    ensures Blank(s) <==> SkipSpaces(s) == ""
    ensures Trim(s) == "" <==> SkipSpaces(s) == ""
  {
    if s != "" && IsSpace(s[0]) {
      BlankExactly(s[1..]);
      assert Blank(s) <==> Blank(s[1..]);
    } else if s != "" {
      RightHolds(IsSpace, s, s[0]);
    }
  }

  lemma {:induction false} BraceExactly(s: string)
    ensures BraceFirst(s) <==> Starts(SkipSpaces(s), "{")
  {
    if s != "" && IsSpace(s[0]) {
      BraceExactly(s[1..]);
      if BraceFirst(s) {
        var i :| 0 <= i < |s| && s[i] == '{' && Blank(s[..i]);
        assert s[1..][i - 1] == '{' && s[1..][..i - 1] == s[..i][1..];
      }
      if BraceFirst(s[1..]) {
        var i :| 0 <= i < |s[1..]| && s[1..][i] == '{' && Blank(s[1..][..i]);
        assert s[..i + 1] == [s[0]] + s[1..][..i];
      }
    } else if s != "" {
      if s[0] == '{' {
        assert Blank(s[..0]);
      }
      assert BraceFirst(s) ==> s[0] == '{' by {
        if BraceFirst(s) {
          var i :| 0 <= i < |s| && s[i] == '{' && Blank(s[..i]);
          assert i > 0 ==> s[..i][0] == s[0];
        }
      }
    }
  }

  predicate Incompletes(sections: seq<Draft>) {
    exists k | 0 <= k < |sections| :: FirstLacking(sections, k)
  }

  predicate WithinSchema(title: string, sections: seq<Draft>, total: nat) {
    && |title| <= 120 && 3 <= |sections| <= 7 && 300 <= total <= 2000
    && forall i | 0 <= i < |sections| :: MeetsSchema(sections[i])
  }

  /** The answer for what the lines gave. */
  predicate Answers(st: State, total: nat, answer: Normalized) {
    if st.title.None? then answer == Refused(NoTitle)
    else if Incompletes(st.sections) then
      answer.Refused? && answer.why.Incomplete? && FirstLacking(st.sections, answer.why.section)
    else if !WithinSchema(st.title.value, st.sections, total) then answer == Refused(SchemaError)
    else
      && answer.Accepted? && answer.outline.title == st.title.value && answer.outline.totalWords == total
      && Drafts(answer.outline.sections) == st.sections
  }

  /** What becomes of any text, with its fence stripped: blank, it is refused as no output;
      with a brace first it goes to the JSON parser; otherwise a missing title is refused
      first, then the first incomplete section, and then whatever breaks the schema's
      numbers.  What is accepted is what the lines gave, with the declared total, or else
      the sum. */
  lemma NormalizesExactly(raw: string)
    ensures var text := StripFences(raw);
            var st := Read(START, Actions(SplitLines(text)));
            var declared := FindTotal(SplitLines(text));
            if Blank(text) then NormalizeOutline(raw) == Refused(NoOutput)
            else if BraceFirst(text) then NormalizeOutline(raw) == Json(text)
            else Answers(st, if declared.Some? then declared.value else TargetSum(st.sections), NormalizeOutline(raw))
  {
    var text := StripFences(raw);
    BlankExactly(text);
    BraceExactly(text);
    if !Blank(text) && !BraceFirst(text) {
      ReachesParser(text, ParseMarkdown(text));
      ParsedAnswers(text);
    }
  }

  lemma ParsedAnswers(text: string)
    ensures var st := Read(START, Actions(SplitLines(text)));
            var declared := FindTotal(SplitLines(text));
            var answer := match ParseMarkdown(text)
                          case ParseError(why) => Refused(why)
                          case Parsed(payload) => Validate(payload);
            Answers(st, if declared.Some? then declared.value else TargetSum(st.sections), answer)
  {
    var st := Read(START, Actions(SplitLines(text)));
    LackingExactly(st.sections);
    match ParseMarkdown(text)
    case ParseError(why) =>
    case Parsed(payload) => ValidatesExactly(payload);
  }

  lemma LackingExactly(sections: seq<Draft>)
    ensures var k := FirstIncomplete(sections, 0);
            && (Incompletes(sections) <==> k < |sections|)
            && (k < |sections| ==> FirstLacking(sections, k))
  {
    var k := FirstIncomplete(sections, 0);
    if k < |sections| {
      assert FirstLacking(sections, k);
    }
  }
}
