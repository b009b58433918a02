/** What single lines make of what was read before them: labels, bare bullets and headings,
    on any state of the parser. */
module OutlineActions {
  import opened Rows
  import opened Text
  import opened Matchers
  import opened Outline
  import opened OutlineLines
  import opened OutlineForms

  // ------------------------------------------------------------------------- labels

  predicate HasCurrent(st: State) { st.open && |st.sections| > 0 }

  function Current(st: State): Draft
    requires HasCurrent(st)
  {
    st.sections[|st.sections| - 1]
  }

  /** The last section is replaced, and nothing else. */
  function WithCurrent(st: State, d: Draft): State
    requires HasCurrent(st)
  {
    State(st.title, st.sections[..|st.sections| - 1] + [d], true)
  }

  /** A goal line replaces the goal of the current section, and a words line its target;
      without a current section they do nothing. */
  lemma LabelLinesAnswer(st: State, style: Style, goal: string, words: nat)
    requires StyleOk(style) && Trimmed(goal)
    ensures var aimed := Act(st, LineAction(GoalLine(style, goal)));
            var counted := Act(st, LineAction(WordsLine(style, words)));
            if HasCurrent(st) then
              && aimed == WithCurrent(st, Current(st).(goal := Some(goal)))
              && counted == WithCurrent(st, Current(st).(target := Some(Some(words))))
            else aimed == st && counted == st
  {
    GoalLineSets(style, goal);
    WordsLineSets(style, words);
    SettersAnswer(st, goal, words);
  }

  lemma SettersAnswer(st: State, goal: string, words: nat)
    ensures if HasCurrent(st) then
              && Act(st, SetGoal(goal)) == WithCurrent(st, Current(st).(goal := Some(goal)))
              && Act(st, SetTarget(Some(words))) == WithCurrent(st, Current(st).(target := Some(Some(words))))
              && Act(st, OfferGoal(goal))
                 == if Current(st).goal.Some? then st else WithCurrent(st, Current(st).(goal := Some(goal)))
            else Act(st, SetGoal(goal)) == Act(st, SetTarget(Some(words))) == Act(st, OfferGoal(goal)) == st
  {
  }

  /** A title in bold replaces the title; a plain one only stands in for a missing title
      before the first section. */
  lemma TitleLinesAnswer(st: State, name: string, title: string)
    requires Lower(name) in TITLE_NAMES && Trimmed(title)
    ensures Act(st, LineAction("**" + name + ":** " + title)) == State(Some(title), st.sections, st.open)
    ensures Act(st, LineAction(LabelText(name, title)))
         == if st.open || st.title.Some? then st else State(Some(title), st.sections, false)
  {
    BoldTitleLine(name, title);
    NamedTitleLine(name, title);
  }

  // ------------------------------------------------------------------- bare bullets

  /** Text that names neither a section nor a part. */
  predicate NamesNoSection(text: string) {
    !StartsNoCase(text, "section") && !StartsNoCase(text, "part")
  }

  lemma NoSectionHeading(text: string)
    requires NamesNoSection(text)
    ensures SectionPrefix(text).None? && !IsSectionHeading(text) && WithoutPart(text) == text
  {
    if Starts(Lower(text), "section ") {
      forall i | 0 <= i < 7 ensures LowerChar(text[i]) == "section"[i] {
        assert Lower(text)[..8][i] == Lower(text)[i];
      }
      assert StartsNoCase(text, "section");
    }
    if Starts(Lower(text), "part ") {
      forall i | 0 <= i < 4 ensures LowerChar(text[i]) == "part"[i] {
        assert Lower(text)[..5][i] == Lower(text)[i];
      }
      assert StartsNoCase(text, "part");
    }
  }

  lemma NoColonNoLabel(line: string)
    requires forall i | 0 <= i < |line| :: line[i] != ':'
    ensures LabelledLine(line).None?
  {
    var l := Find(IsAsciiLetter, line, 0);
    FindFirst(IsColon, line, l);
  }

  /** A bullet without a label is the goal of a current section that has none yet. */
  lemma BareBulletAnswer(st: State, mark: char, text: string)
    requires IsPoint(mark) && Trimmed(text) && Bare(text) && NamesNoSection(text)
    requires forall i | 0 <= i < |text| :: text[i] != ':'
    ensures Act(st, LineAction([mark] + " " + text))
         == if HasCurrent(st) && Current(st).goal.None? then WithCurrent(st, Current(st).(goal := Some(text)))
            else st
  {
    var line := [mark] + " " + text;
    BodyBehindBullet(mark, text);
    NoColonNoLabel(line);
    ActionOfBullet(line, text);
    BareIsClean(text);
    NoSectionHeading(text);
    TrimmedAction(line);
    assert LineAction(line) == OfferGoal(text);
    SettersAnswer(st, text, 0);
  }

  // ----------------------------------------------------------------------- headings

  function HashLine(level: nat, gap: nat, text: string): string {
    Hashes(level) + Blanks(gap) + text
  }

  lemma HeadingLineActs(level: nat, gap: nat, text: string)
    requires 1 <= level <= 6 && Trimmed(text) && Bare(text)
    ensures LineAction(HashLine(level, gap, text)) == TakeHeading(ReadHeading(text, level))
  {
    ReadsHeading(level, gap, text);
    TrimmedAction(HashLine(level, gap, text));
  }

  /** The state with one more, empty section, which is the current one. */
  function WithSection(st: State, id: string, heading: string): State {
    State(st.title, st.sections + [Draft(id, heading, None, None)], true)
  }

  /** A heading that names neither a section nor a title: at the very start and behind one #
      it is the title, otherwise before any section it opens the first one, and after that
      it goes back to the last section. */
  lemma OtherHeadingAnswer(st: State, level: nat, gap: nat, text: string)
    requires 1 <= level <= 6 && Trimmed(text) && Bare(text) && NamesNoSection(text) && !LooksLikeTitle(text)
    ensures Act(st, LineAction(HashLine(level, gap, text)))
         == if st.sections != [] then State(st.title, st.sections, true)
            else if level == 1 && st.title.None? then State(Some(text), [], false)
            else WithSection(st, "section_1", text)
  {
    HeadingLineActs(level, gap, text);
    NoSectionHeading(text);
    TrimmedIsFixed(text);
    PlainHeadingActs(st, level, text);
  }

  lemma PlainHeadingActs(st: State, level: nat, text: string)
    requires level >= 1 && text != "" && Trim(text) == text && WithoutPart(text) == text
    requires SectionPrefix(text).None? && !IsSectionHeading(text) && !LooksLikeTitle(text)
    ensures Act(st, TakeHeading(ReadHeading(text, level)))
         == if st.sections != [] then State(st.title, st.sections, true)
            else if level == 1 && st.title.None? then State(Some(text), [], false)
            else WithSection(st, "section_1", text)
  {
    var h := ReadHeading(text, level);
    assert Numeral(1) == "1";
    assert h.prefix.None? && h.labelledTitle.None? && !h.isSection && h.stripped == text && h.body == text;
    PlainKind(st, h);
  }

  lemma PlainKind(st: State, h: HeadingLine)
    requires h.prefix.None? && h.labelledTitle.None? && !h.isSection && h.stripped == h.body && h.body != ""
    requires h.level >= 1 && Numeral(1) == "1"
    ensures ConsumeHeading(h, st)
         == if st.sections != [] then State(st.title, st.sections, true)
            else if h.level == 1 && st.title.None? then State(Some(h.body), [], false)
            else WithSection(st, "section_1", h.body)
  {
    assert "section_" + Numeral(1) == "section_1";
    if st.sections == [] {
      assert Numeral(|st.sections| + 1) == Numeral(1);
    }
  }

  /** A numbered section opens under its own number, whatever was read before. */
  lemma SectionLineAnswer(st: State, style: Style, s: Section, k: nat)
    requires Takes(style, s, k)
    ensures Act(st, LineAction(SectionLine(style, k, s.heading))) == WithSection(st, "section_" + Numeral(k), s.heading)
  {
    SectionLineOpens(style, s, k);
    TrimmedIsFixed(s.heading);
  }

  /** `Part k`, a joint, and a heading. */
  function PartText(word: string, gap: nat, k: nat, joint: Joint, heading: string): string {
    word + Blanks(gap + 1) + Numeral(k) + JointText(joint) + heading
  }

  lemma OtherStart(s: string, prefix: string)
    requires s != "" && prefix != "" && s[0] != prefix[0]
    ensures !Starts(s, prefix)
  {
    if |s| >= |prefix| {
      assert s[..|prefix|][0] == s[0];
    }
  }

  lemma PartPieces(word: string, rest: string)
    requires Lower(word) == "part"
    ensures var body := word + " " + rest;
            && StartsNoCase(body, "part") && !StartsNoCase(body, "section") && body[4..] == " " + rest
            && Starts(Lower(body), "part ") && !LooksLikeTitle(body) && IsAsciiLetter(body[0])
  {
    var body := word + " " + rest;
    forall i | 0 <= i < 4 ensures LowerChar(body[i]) == "part"[i] && Lower(body)[i] == "part"[i] {
      assert body[i] == word[i] && Lower(word)[i] == LowerChar(word[i]);
    }
    assert body[4] == ' ';
    assert Lower(body)[..5] == "part ";
    assert Lower(body)[0] == 'p';
    OtherStart(Lower(body), "title");
    OtherStart(Lower(body), "blog title");
  }

  lemma PartStripped(word: string, gap: nat, k: nat, joint: Joint, heading: string)
    requires Lower(word) == "part" && IsJointMark(joint.mark) && Trimmed(heading)
    ensures WithoutPart(PartText(word, gap, k, joint, heading)) == heading
  {
    var r := JointText(joint) + heading;
    var body := PartText(word, gap, k, joint, heading);
    var rest := Blanks(gap) + (Numeral(k) + r);
    assert body == word + " " + rest;
    PartPieces(word, rest);
    assert " " + rest == Blanks(gap + 1) + (Numeral(k) + r);
    NumberBehindBlanks(gap + 1, Numeral(k), r);
    JointIsNoDigit(joint, heading);
    TakeAll(IsDigit, Numeral(k), r);
    assert (Numeral(k) + r)[|Numeral(k)|..] == r;
    SkipsJoint(joint, heading);
  }

  /** A part opens the next section under the next number, whatever number it gives itself;
      only at the very start, behind one #, is it the title. */
  lemma PartHeadingAnswer(st: State, level: nat, gap: nat, word: string, inner: nat, k: nat, joint: Joint, heading: string)
    requires 1 <= level <= 6 && Lower(word) == "part" && IsJointMark(joint.mark) && Trimmed(heading) && Bare(heading)
    ensures var text := PartText(word, inner, k, joint, heading);
            Act(st, LineAction(HashLine(level, gap, text)))
            == if st.sections == [] && level == 1 && st.title.None? then State(Some(text), [], false)
               else WithSection(st, "section_" + Numeral(|st.sections| + 1), heading)
  {
    var text := PartText(word, inner, k, joint, heading);
    var rest := Blanks(inner) + (Numeral(k) + (JointText(joint) + heading));
    assert text == word + " " + rest;
    PartPieces(word, rest);
    assert text[|text| - 1] == heading[|heading| - 1];
    HeadingLineActs(level, gap, text);
    PartStripped(word, inner, k, joint, heading);
    TrimmedIsFixed(heading);
    PartOpens(st, text, level, heading);
  }

  lemma PartOpens(st: State, text: string, level: nat, heading: string)
    requires level >= 1 && !StartsNoCase(text, "section") && !LooksLikeTitle(text) && Starts(Lower(text), "part ")
    requires Trim(WithoutPart(text)) == heading && heading != ""
    ensures Act(st, TakeHeading(ReadHeading(text, level)))
         == if st.sections == [] && level == 1 && st.title.None? then State(Some(text), [], false)
            else WithSection(st, "section_" + Numeral(|st.sections| + 1), heading)
  {
  }

  /** A heading labelled as the title gives the title, at any level and at any time, and
      there is no current section after it. */
  lemma TitleHeadingAnswer(st: State, level: nat, gap: nat, name: string, title: string)
    requires 1 <= level <= 6 && Lower(name) in TITLE_NAMES && Trimmed(title) && !IsEdge(title[|title| - 1])
    ensures Act(st, LineAction(HashLine(level, gap, LabelText(name, title)))) == State(Some(title), st.sections, false)
  {
    var text := LabelText(name, title);
    TitleText(name, title);
    HeadingLineActs(level, gap, text);
    TitleGiven(st, text, level, title);
  }

  lemma TitleText(name: string, title: string)
    requires Lower(name) in TITLE_NAMES && Trimmed(title) && !IsEdge(title[|title| - 1])
    ensures var text := LabelText(name, title);
            && Trimmed(text) && Bare(text) && LooksLikeTitle(text) && !StartsNoCase(text, "section")
            && LabelledTitle(text) == title
  {
    var text := LabelText(name, title);
    NamesAreNames(name);
    assert text[|text| - 1] == title[|title| - 1] && text[0] == name[0];
    assert forall i | 0 <= i < |name| :: text[i] == name[i] && name[i] != ':';
    FindIs(IsColon, text, 0, |name|);
    assert text[|name| + 1..] == " " + title;
    TrimSpaceBefore(title);
    TitleStart(name, ": " + title);
  }

  lemma TitleStart(name: string, rest: string)
    requires Lower(name) in TITLE_NAMES
    ensures LooksLikeTitle(name + rest) && !StartsNoCase(name + rest, "section")
  {
    var text := name + rest;
    assert Lower(text)[..|name|] == Lower(name);
    assert LowerChar(text[0]) == Lower(name)[0];
  }

  lemma TitleGiven(st: State, text: string, level: nat, title: string)
    requires LooksLikeTitle(text) && !StartsNoCase(text, "section") && LabelledTitle(text) == title
    ensures Act(st, TakeHeading(ReadHeading(text, level))) == State(Some(title), st.sections, false)
  {
  }
}
