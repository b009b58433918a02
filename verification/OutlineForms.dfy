/** Printed outlines, in the two documented Markdown forms and in many other spellings, and
    the round trip: parsing what was printed gives the outline back. */
module OutlineForms {
  import opened Rows
  import opened Text
  import opened Matchers
  import opened Outline
  import opened OutlineLines

  // ------------------------------------------------------------------------- spellings

  /** How a label is set: `**name:** value`, or behind a bullet with or without bold. */
  datatype Label = Inline | Bulleted(mark: char, wrap: string)

  /** How a section line is set off. */
  datatype Opening = Hashed(level: nat, gap: nat) | Bold | Pointed(mark: char)

  /** A number of words, or a range of which it is the lower end. */
  datatype Count = Alone(rest: string) | Range(before: nat, mark: string, after: nat, upper: nat, rest: string)

  datatype Style = Style(
    opening: Opening, naming: Naming,
    goalLabel: Label, goalName: string,
    wordsLabel: Label, wordsName: string, count: Count)

  datatype TitleStyle = InBold(name: string) | Named(name: string) | BehindHash(gap: nat)

  /** How the title is set, and each section by its number. */
  datatype Form = Form(title: TitleStyle, style: nat -> Style)

  const TITLE_NAMES: seq<string> := ["title", "blog title"]
  const GOAL_NAMES: seq<string> := ["goal", "objective", "purpose", "focus"]
  const WORD_NAMES: seq<string> := ["target word count", "target words", "word count", "words"]

  predicate LabelOk(how: Label) {
    how.Bulleted? ==> IsPoint(how.mark) && IsWrap(how.wrap)
  }

  /** On one line, without a backtick, and not ending in a space. */
  predicate Tail(rest: string) {
    Plain(rest) && (rest != "" ==> !IsSpace(rest[|rest| - 1]))
  }

  predicate CountOk(count: Count) {
    && Tail(count.rest)
    && (count.Alone? ==> NoNumber(count.rest))
    && (count.Range? ==> IsRangeJoint(count.mark))
  }

  predicate StyleOk(style: Style) {
    && (style.opening.Hashed? ==> 1 <= style.opening.level <= 6)
    && (style.opening.Pointed? ==> IsPoint(style.opening.mark))
    && NamingOk(style.naming)
    && LabelOk(style.goalLabel) && Lower(style.goalName) in GOAL_NAMES
    && LabelOk(style.wordsLabel) && Lower(style.wordsName) in WORD_NAMES && CountOk(style.count)
  }

  // -------------------------------------------------------------------------- printing

  function TitleLine(form: Form, title: string): string {
    match form.title
    case InBold(name) => "**" + name + ":** " + title
    case Named(name) => LabelText(name, title)
    case BehindHash(gap) => Hashes(1) + Blanks(gap) + title
  }

  function SectionLine(style: Style, k: nat, heading: string): string {
    var body := SectionBody(style.naming, k, heading);
    match style.opening
    case Hashed(level, gap) => Hashes(level) + Blanks(gap) + body
    case Bold => "**" + body + "**"
    case Pointed(mark) => [mark] + " " + body
  }

  function LabelLine(how: Label, name: string, value: string): string {
    match how
    case Inline => "**" + name + ":** " + value
    case Bulleted(mark, wrap) => BulletText(mark, wrap, name, value)
  }

  function GoalLine(style: Style, goal: string): string {
    LabelLine(style.goalLabel, style.goalName, goal)
  }

  function CountText(count: Count, words: nat): string {
    match count
    case Alone(rest) => Numeral(words) + rest
    case Range(before, mark, after, upper, rest) => RangeText(Numeral(words), before, mark, after, upper, rest)
  }

  function WordsLine(style: Style, words: nat): string {
    LabelLine(style.wordsLabel, style.wordsName, CountText(style.count, words))
  }

  function Block(style: Style, s: Section, k: nat): seq<string> {
    ["", SectionLine(style, k, s.heading), GoalLine(style, s.goal), WordsLine(style, s.targetWords)]
  }

  function Blocks(form: Form, sections: seq<Section>): seq<string> {
    if |sections| == 0 then []
    else
      var last := |sections| - 1;
      Blocks(form, sections[..last]) + Block(form.style(|sections|), sections[last], |sections|)
  }

  function Lines(form: Form, o: Outline): seq<string> {
    [TitleLine(form, o.title)] + Blocks(form, o.sections)
  }

  function Render(form: Form, o: Outline): string {
    Join(Lines(form, o))
  }

  // ---------------------------------------------------------------- printable outlines

  predicate NoFence(s: string) {
    forall i | 0 <= i < |s| - 2 :: !(s[i] == '`' && s[i + 1] == '`' && s[i + 2] == '`')
  }

  predicate FieldOk(s: string) {
    Trimmed(s) && OneLine(s) && NoFence(s)
  }

  predicate SectionOk(s: Section, k: nat) {
    && s.id == "section_" + Numeral(k)
    && FieldOk(s.heading) && Bare(s.heading) && FieldOk(s.goal)
    && MIN_TARGET <= s.targetWords <= MAX_TARGET
  }

  predicate SectionsOk(sections: seq<Section>) {
    forall i | 0 <= i < |sections| :: SectionOk(sections[i], i + 1)
  }

  function WordSum(sections: seq<Section>): nat {
    if |sections| == 0 then 0
    else WordSum(sections[..|sections| - 1]) + sections[|sections| - 1].targetWords
  }

  /** An outline the schema accepts, with numbered sections, the exact total, and fields
      that stand on one line. */
  predicate Printable(o: Outline) {
    && FieldOk(o.title) && |o.title| <= MAX_TITLE
    && MIN_SECTIONS <= |o.sections| <= MAX_SECTIONS
    && SectionsOk(o.sections)
    && o.totalWords == WordSum(o.sections) && MIN_TOTAL <= o.totalWords <= MAX_TOTAL
  }

  predicate TitleFits(form: Form, title: string) {
    && FieldOk(title)
    && match form.title
       case InBold(name) => Lower(name) in TITLE_NAMES
       case Named(name) => Lower(name) in TITLE_NAMES
       case BehindHash(gap) => Bare(title)
  }

  /** The style can print the section. */
  predicate Takes(style: Style, s: Section, k: nat) {
    StyleOk(style) && SectionOk(s, k) && (style.opening.Bold? ==> FitsBold(style.naming, s.heading))
  }

  predicate SectionsFit(form: Form, sections: seq<Section>) {
    forall i | 0 <= i < |sections| :: Takes(form.style(i + 1), sections[i], i + 1)
  }

  /** The form can print the outline's title and sections. */
  predicate Fits(form: Form, o: Outline) {
    TitleFits(form, o.title) && SectionsFit(form, o.sections) && |o.sections| > 0
  }

  // ---------------------------------------------------------------- what the lines say

  lemma NamesAreNames(name: string)
    requires Lower(name) in TITLE_NAMES || Lower(name) in GOAL_NAMES || Lower(name) in WORD_NAMES
    ensures IsName(name)
  {
    ListedNames();
    SpellingIsName(name, Lower(name));
  }

  lemma ListedNames()
    ensures forall i | 0 <= i < |TITLE_NAMES| :: IsName(TITLE_NAMES[i])
    ensures forall i | 0 <= i < |GOAL_NAMES| :: IsName(GOAL_NAMES[i])
    ensures forall i | 0 <= i < |WORD_NAMES| :: IsName(WORD_NAMES[i])
  {
  }

  predicate NoTotalLine(line: string) {
    var labelled := LabelledLine(Trim(line));
    labelled.Some? ==> !TotalLabel(labelled.value.name)
  }

  lemma InlineAction(line: string, l: Labelled)
    requires Heading(line).None? && BoldInline(line) == Some(l)
    ensures ActionOf(line) == if TitleLabel(l.name) then SetTitle(l.value) else LabelAction(l)
  {
  }

  lemma TrimmedAction(line: string)
    requires Trimmed(line)
    ensures LineAction(line) == ActionOf(line) && Trim(line) == line
  {
    TrimmedIsFixed(line);
  }

  lemma BoldTitleLine(name: string, title: string)
    requires Lower(name) in TITLE_NAMES && Trimmed(title)
    ensures var line := "**" + name + ":** " + title;
            LineAction(line) == SetTitle(title) && NoTotalLine(line) && Trimmed(line)
  {
    var line := "**" + name + ":** " + title;
    NamesAreNames(name);
    ReadsBoldInline(name, title);
    BoldInlineLabel(name, title);
    TrimmedAction(line);
    InlineAction(line, Labelled(Lower(name), title));
  }

  lemma NamedTitleLine(name: string, title: string)
    requires Lower(name) in TITLE_NAMES && Trimmed(title)
    ensures var line := LabelText(name, title);
            LineAction(line) == OfferTitle(title) && NoTotalLine(line) && Trimmed(line)
  {
    var line := LabelText(name, title);
    NamesAreNames(name);
    ReadsLetterLine(name, title);
    TrimmedAction(line);
    OfferedTitle(line, Labelled(Lower(name), title));
  }

  lemma OfferedTitle(line: string, l: Labelled)
    requires Heading(line).None? && BoldInline(line).None? && Bullet(line).None?
    requires LabelledLine(line) == Some(l) && l.name in TITLE_NAMES
    ensures ActionOf(line) == OfferTitle(l.value)
  {
  }

  lemma HashTitleLine(gap: nat, title: string)
    requires Trimmed(title) && Bare(title)
    ensures var line := Hashes(1) + Blanks(gap) + title;
            && LineAction(line) == TakeHeading(ReadHeading(title, 1))
            && NoTotalLine(line) && Trimmed(line)
  {
    ReadsHeading(1, gap, title);
    TrimmedAction(Hashes(1) + Blanks(gap) + title);
  }

  lemma SectionLineOpens(style: Style, s: Section, k: nat)
    requires Takes(style, s, k)
    ensures OpensAs(LineAction(SectionLine(style, k, s.heading)), k, s.heading)
    ensures NoTotalLine(SectionLine(style, k, s.heading))
  {
    match style.opening
    case Hashed(level, gap) => ReadsHashSection(level, gap, style.naming, k, s.heading);
    case Bold => ReadsBoldSection(style.naming, k, s.heading);
    case Pointed(mark) => ReadsBulletSection(mark, style.naming, k, s.heading);
    TrimmedAction(SectionLine(style, k, s.heading));
  }

  /** A line with a goal or word label says what the label says. */
  lemma LabelLineActs(how: Label, name: string, value: string)
    requires LabelOk(how) && IsName(name) && Trimmed(value)
    requires !TitleLabel(Lower(name)) && !TotalLabel(Lower(name))
    requires LabelAction(Labelled(Lower(name), value)) != Ignore
    ensures var line := LabelLine(how, name, value);
            && LineAction(line) == LabelAction(Labelled(Lower(name), value))
            && NoTotalLine(line) && Trimmed(line)
  {
    var line := LabelLine(how, name, value);
    var l := Labelled(Lower(name), value);
    match how
    case Inline =>
      ReadsBoldInline(name, value);
      BoldInlineLabel(name, value);
      InlineAction(line, l);
    case Bulleted(mark, wrap) =>
      BulletShape(mark, wrap, name, value);
      ReadsBullet(mark, wrap, name, value);
      ActionOfLabelledBullet(line, l);
    TrimmedAction(line);
  }

  lemma GoalLineSets(style: Style, goal: string)
    requires StyleOk(style) && Trimmed(goal)
    ensures LineAction(GoalLine(style, goal)) == SetGoal(goal)
    ensures NoTotalLine(GoalLine(style, goal))
  {
    NamesAreNames(style.goalName);
    LabelLineActs(style.goalLabel, style.goalName, goal);
  }

  lemma CountIsRead(count: Count, words: nat)
    requires CountOk(count)
    ensures TargetWords(CountText(count, words)) == Some(words) && Trimmed(CountText(count, words))
  {
    match count
    case Alone(rest) =>
      ReadsWords(words, rest);
      DigitsThenTail("", words, rest);
    case Range(before, mark, after, upper, rest) =>
      ReadsRange(Numeral(words), before, mark, after, upper, rest);
      LoneNumber(words);
      DigitsThenTail(Numeral(words) + Blanks(before) + mark + Blanks(after), upper, rest);
  }

  lemma DigitsThenTail(before: string, n: nat, rest: string)
    requires Tail(rest) && (before != "" ==> IsAsciiDigit(before[0]))
    ensures Trimmed(before + Numeral(n) + rest) && Trimmed(Numeral(n) + rest)
  {
    var s := before + Numeral(n) + rest;
    assert s[0] == if before != "" then before[0] else Numeral(n)[0];
    assert s[|s| - 1] == if rest != "" then rest[|rest| - 1] else Numeral(n)[|Numeral(n)| - 1];
  }

  lemma WordsLineSets(style: Style, words: nat)
    requires StyleOk(style)
    ensures LineAction(WordsLine(style, words)) == SetTarget(Some(words))
    ensures NoTotalLine(WordsLine(style, words)) && Trimmed(WordsLine(style, words))
  {
    CountIsRead(style.count, words);
    NamesAreNames(style.wordsName);
    WordNameCounts(style.wordsName, CountText(style.count, words), words);
    LabelLineActs(style.wordsLabel, style.wordsName, CountText(style.count, words));
  }

  lemma WordNameCounts(name: string, value: string, words: nat)
    requires Lower(name) in WORD_NAMES && TargetWords(value) == Some(words)
    ensures LabelAction(Labelled(Lower(name), value)) == SetTarget(Some(words))
    ensures !TitleLabel(Lower(name)) && !TotalLabel(Lower(name))
  {
  }

  // --------------------------------------------------------------------- reading blocks

  lemma {:induction false} ReadConcat(st: State, a: seq<Action>, b: seq<Action>)
    ensures Read(st, a + b) == Read(Read(st, a), b)
  {
    if |b| == 0 {
      assert a + b == a;
    } else {
      assert (a + b)[..|a + b| - 1] == a + b[..|b| - 1];
      ReadConcat(st, a, b[..|b| - 1]);
    }
  }

  function DraftOf(s: Section): Draft {
    Draft(s.id, s.heading, Some(s.goal), Some(Some(s.targetWords)))
  }

  function Drafts(sections: seq<Section>): (ds: seq<Draft>)
    ensures |ds| == |sections|
    ensures forall i | 0 <= i < |ds| :: ds[i] == DraftOf(sections[i])
  {
    seq(|sections|, i requires 0 <= i < |sections| => DraftOf(sections[i]))
  }

  /** A heading, a goal and a target make one more section. */
  lemma FourActions(st: State, opening: Action, s: Section, k: nat)
    requires OpensAs(opening, k, s.heading) && Trimmed(s.heading) && s.id == "section_" + Numeral(k)
    ensures Read(st, [Ignore, opening, SetGoal(s.goal), SetTarget(Some(s.targetWords))])
         == State(st.title, st.sections + [DraftOf(s)], true)
  {
    TrimmedIsFixed(s.heading);
    var actions := [Ignore, opening, SetGoal(s.goal), SetTarget(Some(s.targetWords))];
    var begun := Act(st, opening);
    assert begun == State(st.title, st.sections + [Draft(s.id, s.heading, None, None)], true);
    assert actions[..1] == [Ignore] && actions[..2] == [Ignore, opening];
    assert actions[..3] == [Ignore, opening, SetGoal(s.goal)];
    assert actions[..3][..2] == actions[..2] && actions[..2][..1] == actions[..1] && actions[..1][..0] == [];
    assert Read(st, actions[..1]) == st;
    assert Read(st, actions[..2]) == begun;
    var aimed := Act(begun, SetGoal(s.goal));
    assert aimed == State(st.title, st.sections + [Draft(s.id, s.heading, Some(s.goal), None)], true);
    assert Read(st, actions[..3]) == aimed;
  }

  /** How a reader of single lines reads the lines of a block. */
  predicate BlockReadsAs(f: string -> Action, style: Style, s: Section, k: nat) {
    && f("") == Ignore
    && OpensAs(f(SectionLine(style, k, s.heading)), k, s.heading)
    && f(GoalLine(style, s.goal)) == SetGoal(s.goal)
    && f(WordsLine(style, s.targetWords)) == SetTarget(Some(s.targetWords))
  }

  lemma MapConcat<T, U>(f: T -> U, a: seq<T>, b: seq<T>)
    ensures Map(f, a + b) == Map(f, a) + Map(f, b)
  {
  }

  lemma BlockReads(f: string -> Action, style: Style, s: Section, k: nat, st: State)
    requires BlockReadsAs(f, style, s, k) && SectionOk(s, k)
    ensures Read(st, Map(f, Block(style, s, k))) == State(st.title, st.sections + [DraftOf(s)], true)
  {
    var actions := Map(f, Block(style, s, k));
    assert actions == [Ignore, actions[1], SetGoal(s.goal), SetTarget(Some(s.targetWords))];
    FourActions(st, actions[1], s, k);
  }

  lemma {:induction false} BlocksRead(f: string -> Action, form: Form, sections: seq<Section>, st: State)
    requires SectionsOk(sections)
    requires forall i | 0 <= i < |sections| :: BlockReadsAs(f, form.style(i + 1), sections[i], i + 1)
    ensures Read(st, Map(f, Blocks(form, sections)))
         == State(st.title, st.sections + Drafts(sections), st.open || |sections| > 0)
  {
    if |sections| == 0 {
      assert st.sections + Drafts(sections) == st.sections;
    } else {
      BlocksRead(f, form, sections[..|sections| - 1], st);
      NextBlockReads(f, form, sections, st);
    }
  }

  lemma NextBlockReads(f: string -> Action, form: Form, sections: seq<Section>, st: State)
    requires |sections| > 0 && SectionOk(sections[|sections| - 1], |sections|)
    requires BlockReadsAs(f, form.style(|sections|), sections[|sections| - 1], |sections|)
    requires var earlier := sections[..|sections| - 1];
             Read(st, Map(f, Blocks(form, earlier)))
             == State(st.title, st.sections + Drafts(earlier), st.open || |earlier| > 0)
    ensures Read(st, Map(f, Blocks(form, sections))) == State(st.title, st.sections + Drafts(sections), true)
  {
    var last := |sections| - 1;
    var earlier := Blocks(form, sections[..last]);
    var block := Block(form.style(|sections|), sections[last], |sections|);
    MapConcat(f, earlier, block);
    ReadConcat(st, Map(f, earlier), Map(f, block));
    BlockReads(f, form.style(|sections|), sections[last], |sections|, Read(st, Map(f, earlier)));
    DraftsGrow(sections);
  }

  lemma DraftsGrow(sections: seq<Section>)
    requires |sections| > 0
    ensures Drafts(sections) == Drafts(sections[..|sections| - 1]) + [DraftOf(sections[|sections| - 1])]
  {
  }

  lemma TitledBlocksRead(f: string -> Action, form: Form, o: Outline)
    requires SectionsOk(o.sections) && |o.sections| > 0
    requires forall i | 0 <= i < |o.sections| :: BlockReadsAs(f, form.style(i + 1), o.sections[i], i + 1)
    ensures var titled := Act(START, f(TitleLine(form, o.title)));
            Read(START, Map(f, Lines(form, o))) == State(titled.title, titled.sections + Drafts(o.sections), true)
  {
    var first := [TitleLine(form, o.title)];
    MapConcat(f, first, Blocks(form, o.sections));
    ReadConcat(START, Map(f, first), Map(f, Blocks(form, o.sections)));
    assert Map(f, first)[..0] == [];
    assert Read(START, Map(f, first)) == Act(START, f(TitleLine(form, o.title)));
    BlocksRead(f, form, o.sections, Act(START, f(TitleLine(form, o.title))));
  }

  lemma LineActionReads(style: Style, s: Section, k: nat)
    requires Takes(style, s, k)
    ensures BlockReadsAs(LineAction, style, s, k)
  {
    SectionLineOpens(style, s, k);
    GoalLineSets(style, s.goal);
    WordsLineSets(style, s.targetWords);
  }

  lemma LinesRead(form: Form, o: Outline)
    requires SectionsFit(form, o.sections) && |o.sections| > 0
    ensures var titled := Act(START, LineAction(TitleLine(form, o.title)));
            Read(START, Actions(Lines(form, o))) == State(titled.title, titled.sections + Drafts(o.sections), true)
  {
    forall i | 0 <= i < |o.sections|
      ensures BlockReadsAs(LineAction, form.style(i + 1), o.sections[i], i + 1) && SectionOk(o.sections[i], i + 1)
    {
      assert Takes(form.style(i + 1), o.sections[i], i + 1);
      LineActionReads(form.style(i + 1), o.sections[i], i + 1);
    }
    TitledBlocksRead(LineAction, form, o);
  }

  // ------------------------------------------------------------------- lines in a text

  /** A line the text can be split into again, with no fence in it. */
  predicate Clean(line: string) {
    OneLine(line) && NoFence(line)
  }

  predicate Plain(s: string) {
    forall i | 0 <= i < |s| :: s[i] != '`' && !IsBreak(s[i])
  }

  /** Plain text before and after a field. */
  lemma FramedField(before: string, s: string, after: string)
    requires Plain(before) && Plain(after) && OneLine(s) && NoFence(s)
    ensures OneLine(before + s + after) && NoFence(before + s + after)
  {
  }

  lemma PlainConcat(a: string, b: string)
    requires Plain(a) && Plain(b)
    ensures Plain(a + b)
  {
  }

  lemma PlainIsOk(s: string)
    requires Plain(s)
    ensures OneLine(s) && NoFence(s)
  {
  }

  lemma SpellingIsPlain(name: string, word: string)
    requires Lower(name) == word && Plain(word) && forall i | 0 <= i < |word| :: !('A' <= word[i] <= 'Z')
    requires forall i | 0 <= i < |word| :: word[i] == '_' || IsAsciiLetter(word[i]) || word[i] == ' '
    ensures Plain(name)
  {
    forall i | 0 <= i < |name| ensures name[i] != '`' && !IsBreak(name[i]) {
      assert LowerChar(name[i]) == word[i];
    }
  }

  lemma BodyIsPlain(n: Naming, k: nat)
    requires NamingOk(n)
    ensures Plain(NumberPart(n, k) + JointText(n.joint))
  {
    SpellingIsPlain(n.word, "section");
    PlainConcat(n.word, Blanks(n.gap));
    PlainConcat(n.word + Blanks(n.gap), Numeral(k));
    PlainConcat(NumberPart(n, k), JointText(n.joint));
  }

  lemma SectionLineIsClean(style: Style, s: Section, k: nat)
    requires Takes(style, s, k)
    ensures Clean(SectionLine(style, k, s.heading))
  {
    var part := NumberPart(style.naming, k) + JointText(style.naming.joint);
    BodyIsPlain(style.naming, k);
    match style.opening
    case Hashed(level, gap) =>
      PlainConcat(Hashes(level) + Blanks(gap), part);
      FramedField(Hashes(level) + Blanks(gap) + part, s.heading, "");
      assert SectionLine(style, k, s.heading) == Hashes(level) + Blanks(gap) + part + s.heading + "";
    case Bold =>
      PlainConcat("**", part);
      FramedField("**" + part, s.heading, "**");
      assert SectionLine(style, k, s.heading) == "**" + part + s.heading + "**";
    case Pointed(mark) =>
      PlainConcat([mark] + " ", part);
      FramedField([mark] + " " + part, s.heading, "");
      assert SectionLine(style, k, s.heading) == [mark] + " " + part + s.heading + "";
  }

  lemma LabelLineIsClean(how: Label, name: string, value: string)
    requires LabelOk(how) && IsName(name) && OneLine(value) && NoFence(value)
    ensures Clean(LabelLine(how, name, value))
  {
    assert Plain(name);
    match how
    case Inline =>
      FramedField("**" + name + ":** ", value, "");
      assert LabelLine(how, name, value) == "**" + name + ":** " + value + "";
    case Bulleted(mark, wrap) =>
      PlainConcat([mark] + " " + wrap, name);
      PlainConcat([mark] + " " + wrap + name, wrap + ": ");
      FramedField([mark] + " " + wrap + name + (wrap + ": "), value, "");
      assert LabelLine(how, name, value) == [mark] + " " + wrap + name + (wrap + ": ") + value + "";
  }

  lemma CountIsPlain(count: Count, words: nat)
    requires CountOk(count)
    ensures Plain(CountText(count, words))
  {
  }

  lemma WordsLineIsClean(style: Style, words: nat)
    requires StyleOk(style)
    ensures Clean(WordsLine(style, words))
  {
    NamesAreNames(style.wordsName);
    CountIsPlain(style.count, words);
    PlainIsOk(CountText(style.count, words));
    LabelLineIsClean(style.wordsLabel, style.wordsName, CountText(style.count, words));
  }

  /** A property of every line of a block. */
  predicate BlockAll(p: string -> bool, style: Style, s: Section, k: nat) {
    && p("") && p(SectionLine(style, k, s.heading))
    && p(GoalLine(style, s.goal)) && p(WordsLine(style, s.targetWords))
  }

  lemma {:induction false} BlocksAll(p: string -> bool, form: Form, sections: seq<Section>)
    requires forall i | 0 <= i < |sections| :: BlockAll(p, form.style(i + 1), sections[i], i + 1)
    ensures forall i | 0 <= i < |Blocks(form, sections)| :: p(Blocks(form, sections)[i])
  {
    if |sections| > 0 {
      var last := |sections| - 1;
      BlocksAll(p, form, sections[..last]);
      assert BlockAll(p, form.style(last + 1), sections[last], last + 1);
    }
  }

  lemma LinesAll(p: string -> bool, form: Form, o: Outline)
    requires p(TitleLine(form, o.title))
    requires forall i | 0 <= i < |o.sections| :: BlockAll(p, form.style(i + 1), o.sections[i], i + 1)
    ensures forall i | 0 <= i < |Lines(form, o)| :: p(Lines(form, o)[i])
  {
    BlocksAll(p, form, o.sections);
  }

  lemma BlockIsClean(style: Style, s: Section, k: nat)
    requires Takes(style, s, k)
    ensures BlockAll(Clean, style, s, k)
  {
    SectionLineIsClean(style, s, k);
    NamesAreNames(style.goalName);
    LabelLineIsClean(style.goalLabel, style.goalName, s.goal);
    WordsLineIsClean(style, s.targetWords);
  }

  lemma EmptyHasNoTotal()
    ensures NoTotalLine("")
  {
  }

  lemma BlockHasNoTotal(style: Style, s: Section, k: nat)
    requires Takes(style, s, k)
    ensures BlockAll(NoTotalLine, style, s, k)
  {
    EmptyHasNoTotal();
    SectionLineOpens(style, s, k);
    GoalLineSets(style, s.goal);
    WordsLineSets(style, s.targetWords);
  }

  lemma LinesAreClean(form: Form, o: Outline)
    requires Fits(form, o)
    ensures forall i | 0 <= i < |Lines(form, o)| :: Clean(Lines(form, o)[i])
  {
    TitleLineIsOk(form, o.title);
    forall i | 0 <= i < |o.sections| ensures BlockAll(Clean, form.style(i + 1), o.sections[i], i + 1) {
      assert Takes(form.style(i + 1), o.sections[i], i + 1);
      BlockIsClean(form.style(i + 1), o.sections[i], i + 1);
    }
    LinesAll(Clean, form, o);
  }

  lemma LinesHaveNoTotal(form: Form, o: Outline)
    requires Fits(form, o)
    ensures forall i | 0 <= i < |Lines(form, o)| :: NoTotalLine(Lines(form, o)[i])
  {
    TitleLineIsOk(form, o.title);
    forall i | 0 <= i < |o.sections| ensures BlockAll(NoTotalLine, form.style(i + 1), o.sections[i], i + 1) {
      assert Takes(form.style(i + 1), o.sections[i], i + 1);
      BlockHasNoTotal(form.style(i + 1), o.sections[i], i + 1);
    }
    LinesAll(NoTotalLine, form, o);
  }

  lemma LastLineIsTrimmed(form: Form, o: Outline)
    requires Fits(form, o)
    ensures Trimmed(Lines(form, o)[|Lines(form, o)| - 1])
  {
    var last := |o.sections| - 1;
    assert Takes(form.style(last + 1), o.sections[last], last + 1);
    WordsLineSets(form.style(last + 1), o.sections[last].targetWords);
  }

  lemma TitleLineIsOk(form: Form, title: string)
    requires TitleFits(form, title)
    ensures var line := TitleLine(form, title);
            Clean(line) && Trimmed(line) && line[0] != '{' && NoTotalLine(line)
  {
    match form.title
    case InBold(name) =>
      BoldTitleLine(name, title);
      NamesAreNames(name);
      LabelLineIsClean(Inline, name, title);
    case Named(name) =>
      NamedTitleLine(name, title);
      NamedTitleIsClean(name, title);
    case BehindHash(gap) =>
      HashTitleLine(gap, title);
      FramedField(Hashes(1) + Blanks(gap), title, "");
      assert TitleLine(form, title) == Hashes(1) + Blanks(gap) + title + "";
  }

  lemma NamedTitleIsClean(name: string, title: string)
    requires Lower(name) in TITLE_NAMES && FieldOk(title)
    ensures Clean(LabelText(name, title)) && LabelText(name, title)[0] != '{'
  {
    NamesAreNames(name);
    assert Plain(name);
    FramedField(name + ": ", title, "");
    assert LabelText(name, title) == name + ": " + title + "";
    assert LabelText(name, title)[0] == name[0];
  }

  lemma {:induction false} NoTotals(lines: seq<string>)
    requires forall i | 0 <= i < |lines| :: NoTotalLine(lines[i])
    ensures FindTotal(lines) == None
  {
    if lines != [] {
      NoTotals(lines[1..]);
    }
  }

  // ------------------------------------------------------------------- the whole text

  lemma {:induction false} NoFenceFound(s: string, i: nat)
    requires i <= |s| && NoFence(s)
    ensures FindFence(s, i) == |s|
    decreases |s| - i
  {
    if i + 3 <= |s| {
      NoFenceFound(s, i + 1);
    }
  }

  /** Joining adds no fence. */
  lemma {:induction false} JoinHasNoFence(lines: seq<string>)
    requires lines != [] && forall i | 0 <= i < |lines| :: NoFence(lines[i])
    ensures NoFence(Join(lines))
  {
    if |lines| > 1 {
      JoinHasNoFence(lines[1..]);
      NoFenceAcross(lines[0], Join(lines[1..]));
    }
  }

  lemma NoFenceAcross(a: string, b: string)
    requires NoFence(a) && NoFence(b)
    ensures NoFence(a + "\n" + b)
  {
  }

  lemma {:induction false} JoinEnds(lines: seq<string>)
    requires lines != [] && lines[|lines| - 1] != ""
    ensures Join(lines) != "" && Join(lines)[|Join(lines)| - 1] == lines[|lines| - 1][|lines[|lines| - 1]| - 1]
    ensures lines[0] != "" ==> Join(lines)[0] == lines[0][0]
  {
    if |lines| > 1 {
      JoinEnds(lines[1..]);
    }
  }

  /** A text without a fence that starts and ends with something reaches the parser as it is. */
  lemma StaysUnfenced(text: string)
    requires Trimmed(text) && NoFence(text)
    ensures StripFences(text) == text
  {
    TrimmedIsFixed(text);
    NoFenceFound(text, 0);
  }

  lemma NeitherEmptyNorJson(text: string)
    requires Trimmed(text) && text[0] != '{'
    ensures Trim(text) != "" && !Starts(SkipSpaces(text), "{")
  {
  }

  lemma ReachesParser(text: string, parsed: Parsed)
    requires Trim(text) != "" && !Starts(SkipSpaces(text), "{") && ParseMarkdown(text) == parsed
    ensures NormalizeText(text)
         == match parsed
            case ParseError(why) => Refused(why)
            case Parsed(payload) => Validate(payload)
  {
  }

  /** A printed outline is not changed by the stripping of fences. */
  lemma RenderUnfenced(form: Form, o: Outline)
    requires Fits(form, o)
    ensures NormalizeOutline(Render(form, o)) == NormalizeText(Render(form, o))
  {
    RenderShape(form, o);
    StaysUnfenced(Render(form, o));
  }

  lemma RenderShape(form: Form, o: Outline)
    requires Fits(form, o)
    ensures SplitLines(Render(form, o)) == Lines(form, o)
    ensures Trimmed(Render(form, o)) && NoFence(Render(form, o)) && Render(form, o)[0] != '{'
  {
    TitleLineIsOk(form, o.title);
    LinesAreClean(form, o);
    LastLineIsTrimmed(form, o);
    JoinShape(Lines(form, o));
  }

  lemma JoinShape(lines: seq<string>)
    requires lines != [] && forall i | 0 <= i < |lines| :: Clean(lines[i])
    requires Trimmed(lines[0]) && lines[0][0] != '{' && Trimmed(lines[|lines| - 1])
    ensures SplitLines(Join(lines)) == lines
    ensures Trimmed(Join(lines)) && NoFence(Join(lines)) && Join(lines)[0] != '{'
  {
    JoinEnds(lines);
    JoinHasNoFence(lines);
    SplitJoined(lines);
  }

  // -------------------------------------------------------------------- the round trip

  lemma {:induction false} SumOfDrafts(sections: seq<Section>)
    ensures TargetSum(Drafts(sections)) == WordSum(sections)
  {
    if |sections| > 0 {
      SumOfDrafts(sections[..|sections| - 1]);
      assert Drafts(sections)[..|sections| - 1] == Drafts(sections[..|sections| - 1]);
    }
  }

  lemma CompleteDrafts(sections: seq<Section>)
    ensures FirstIncomplete(Drafts(sections), 0) == |sections|
  {
  }

  lemma ParsesTo(text: string, title: string, sections: seq<Section>)
    requires FindTotal(SplitLines(text)) == None && |sections| > 0
    requires Read(START, Actions(SplitLines(text))) == State(Some(title), Drafts(sections), true)
    ensures ParseMarkdown(text) == Parsed(Payload(title, Drafts(sections), Some(WordSum(sections))))
  {
    SumOfDrafts(sections);
    CompleteDrafts(sections);
  }

  lemma ValidatesTo(o: Outline, title: string)
    requires Printable(o) && |title| <= MAX_TITLE
    ensures Validate(Payload(title, Drafts(o.sections), Some(o.totalWords))) == Accepted(o.(title := title))
  {
  }

  lemma TitledRoundTrip(form: Form, o: Outline)
    requires Printable(o) && Fits(form, o)
    requires var titled := Act(START, LineAction(TitleLine(form, o.title)));
             titled.title == Some(o.title) && titled.sections == []
    ensures NormalizeText(Render(form, o)) == Accepted(o)
  {
    var payload := Payload(o.title, Drafts(o.sections), Some(o.totalWords));
    TitledParses(form, o);
    RenderShape(form, o);
    NeitherEmptyNorJson(Render(form, o));
    ReachesParser(Render(form, o), Parsed(payload));
    ValidatesTo(o, o.title);
    assert o.(title := o.title) == o;
  }

  lemma TitledParses(form: Form, o: Outline)
    requires Printable(o) && Fits(form, o)
    requires var titled := Act(START, LineAction(TitleLine(form, o.title)));
             titled.title == Some(o.title) && titled.sections == []
    ensures ParseMarkdown(Render(form, o)) == Parsed(Payload(o.title, Drafts(o.sections), Some(o.totalWords)))
  {
    RenderShape(form, o);
    LinesRead(form, o);
    LinesHaveNoTotal(form, o);
    NoTotals(Lines(form, o));
    assert [] + Drafts(o.sections) == Drafts(o.sections);
    ParsesTo(Render(form, o), o.title, o.sections);
  }

  // ----------------------------------------------------------- titles after a single #

  /** The titles the heading form can carry: one that the parser takes neither for a
      section heading nor for a labelled title. */
  predicate PlainTitle(title: string) {
    && SectionPrefix(title).None?
    && (LooksLikeTitle(title) ==>
          Starts(Lower(title), "title") && (forall i | 0 <= i < |title| :: title[i] != ':') && !Starts(title, "Title "))
  }

  lemma {:induction false} TrimShortens(s: string)
    ensures |Trim(s)| <= |s|
  {
  }

  lemma LabelledTitleIs(title: string)
    requires Trimmed(title) && LooksLikeTitle(title)
    ensures LabelledTitle(title) == title
       <==> Starts(Lower(title), "title") && (forall i | 0 <= i < |title| :: title[i] != ':') && !Starts(title, "Title ")
  {
    FindFirst(IsColon, title, 0);
    TrimmedIsFixed(title);
    if Find(IsColon, title, 0) < |title| {
      TrimShortens(title[Find(IsColon, title, 0) + 1..]);
    } else if Starts(Lower(title), "title") {
      NotBlogTitle(title);
    } else {
      BlogTitleShortens(title);
    }
  }

  lemma NotBlogTitle(title: string)
    requires Starts(Lower(title), "title")
    ensures WithoutBlogTitle(title) == title
  {
  }

  lemma BlogTitleShortens(title: string)
    requires Starts(Lower(title), "blog title")
    ensures |WithoutBlogTitle(title)| < |title|
  {
    var lower := Lower(title);
    var word := "blog title";
    forall i | 0 <= i < 10 ensures LowerChar(title[i]) == word[i] {
      assert lower[..10][i] == lower[i];
    }
    assert title[4] == ' ';
    assert title[4..] == " " + title[5..];
    assert !IsSpace(title[5]);
    assert Blanks(1) == " ";
    SkipsBlanks(1, title[5..]);
    assert StartsNoCase(title, "blog") && StartsNoCase(title[5..], "title");
  }

  lemma HashTitle(title: string)
    requires Trimmed(title)
    ensures var titled := Act(START, TakeHeading(ReadHeading(title, 1)));
            && (titled.title == Some(title) <==> PlainTitle(title))
            && (PlainTitle(title) ==> titled.sections == [])
            && (titled.title.Some? ==> titled.sections == [])
  {
    if LooksLikeTitle(title) {
      LabelledTitleIs(title);
    }
  }

  /** What the title line leaves: the title, unless it stands behind # and is not plain. */
  lemma TitleIsRead(form: Form, title: string)
    requires TitleFits(form, title)
    ensures var titled := Act(START, LineAction(TitleLine(form, title)));
            var taken := form.title.BehindHash? ==> PlainTitle(title);
            && (titled.title == Some(title) <==> taken)
            && (taken ==> titled == State(Some(title), [], false))
  {
    match form.title
    case InBold(name) => BoldTitleLine(name, title);
    case Named(name) => NamedTitleLine(name, title);
    case BehindHash(gap) =>
      HashTitleLine(gap, title);
      HashTitle(title);
  }

  /** Printing a printable outline in any form and parsing it gives it back, a range giving
      its lower bound: exactly when the title, if it stands behind a single #, is plain. */
  lemma RoundTrip(form: Form, o: Outline)
    requires Printable(o) && Fits(form, o)
    ensures NormalizeOutline(Render(form, o)) == Accepted(o) <==> (form.title.BehindHash? ==> PlainTitle(o.title))
  {
    RenderUnfenced(form, o);
    TitleIsRead(form, o.title);
    if form.title.BehindHash? ==> PlainTitle(o.title) {
      TitledRoundTrip(form, o);
    } else {
      OtherTitle(form, o);
    }
  }

  lemma OtherTitle(form: Form, o: Outline)
    requires Printable(o) && Fits(form, o)
    requires var titled := Act(START, LineAction(TitleLine(form, o.title)));
             titled.title != Some(o.title)
    ensures NormalizeText(Render(form, o)) != Accepted(o)
  {
    var text := Render(form, o);
    RenderShape(form, o);
    LinesRead(form, o);
    NeitherEmptyNorJson(text);
    KeepsTitle(text, o);
    ReachesParser(text, ParseMarkdown(text));
  }

  /** What is parsed carries the title the lines gave. */
  lemma KeepsTitle(text: string, o: Outline)
    requires Read(START, Actions(SplitLines(text))).title != Some(o.title)
    ensures var parsed := ParseMarkdown(text);
            parsed.Parsed? ==> parsed.payload.title != o.title && Validate(parsed.payload) != Accepted(o)
  {
  }

  // ------------------------------------------------------------- the documented forms

  /** **Title:** ..., **Section 1: ...**, * Goal: ..., * Target Word Count: 150 words */
  const BOLD_STYLE: Style :=
    Style(Bold, Naming("Section", 1, Joint(0, ':', 1)), Bulleted('*', ""), "Goal",
          Bulleted('*', ""), "Target Word Count", Alone(" words"))

  const BOLD_FORM: Form := Form(InBold("Title"), k => BOLD_STYLE)

  /** # ..., ### Section 1 - ..., **Goal:** ..., **Target Word Count:** 120-180, with dashes. */
  function HeadingStyle(upper: nat): Style {
    Style(Hashed(3, 1), Naming("Section", 1, Joint(1, '\U{2013}', 1)), Inline, "Goal",
          Inline, "Target Word Count", Range(0, "\U{2013}", 0, upper, ""))
  }

  /** `upper` gives the upper end of the word range of each section. */
  function HeadingForm(upper: nat -> nat): Form {
    Form(BehindHash(1), (k: nat) => HeadingStyle(upper(k)))
  }

  lemma DocumentedStyles(upper: nat)
    ensures StyleOk(BOLD_STYLE) && StyleOk(HeadingStyle(upper))
  {
    assert GOAL_NAMES[0] == "goal" && WORD_NAMES[0] == "target word count";
    assert Lower("Section") == "section" && Lower("Goal") == "goal";
    assert Lower("Target Word Count") == "target word count";
  }

  /** Printing any printable outline in the bold form and parsing it gives it back. */
  lemma BoldRoundTrip(o: Outline)
    requires Printable(o)
    ensures NormalizeOutline(Render(BOLD_FORM, o)) == Accepted(o)
  {
    DocumentedStyles(0);
    assert TITLE_NAMES[0] == "title" && Lower("Title") == "title";
    forall i | 0 <= i < |o.sections| ensures Takes(BOLD_FORM.style(i + 1), o.sections[i], i + 1) {
      assert SectionOk(o.sections[i], i + 1);
    }
    RoundTrip(BOLD_FORM, o);
  }

  /** The heading form parses to the same outline, a range giving its lower bound, exactly
      for the titles it can carry. */
  lemma HeadingRoundTrip(o: Outline, upper: nat -> nat)
    requires Printable(o) && Bare(o.title)
    ensures NormalizeOutline(Render(HeadingForm(upper), o)) == Accepted(o) <==> PlainTitle(o.title)
  {
    forall i | 0 <= i < |o.sections| ensures Takes(HeadingForm(upper).style(i + 1), o.sections[i], i + 1) {
      DocumentedStyles(upper(i + 1));
      assert SectionOk(o.sections[i], i + 1);
    }
    RoundTrip(HeadingForm(upper), o);
  }

  // --------------------------------------------------------------------------- fences

  lemma {:induction false} FirstFence(s: string, i: nat, k: nat)
    requires i <= k && k + 3 <= |s| && s[k] == '`' && s[k + 1] == '`' && s[k + 2] == '`'
    requires forall j | i <= j < k :: !(s[j] == '`' && s[j + 1] == '`' && s[j + 2] == '`')
    ensures FindFence(s, i) == k
    decreases k - i
  {
    if i < k {
      FirstFence(s, i + 1, k);
    }
  }

  /** The text between a fence and the next one. */
  lemma FencedBody(text: string, after: string)
    requires Trimmed(text) && NoFence(text)
    ensures var inside := text + "\n```" + after;
            FindFence(inside, 0) == |text| + 1 && Trim(inside[..|text| + 1]) == text
  {
    var inside := text + "\n```" + after;
    forall j | 0 <= j < |text| + 1 ensures !(inside[j] == '`' && inside[j + 1] == '`' && inside[j + 2] == '`') {
      if j + 2 < |text| {
        assert inside[j] == text[j] && inside[j + 1] == text[j + 1] && inside[j + 2] == text[j + 2];
      } else {
        assert inside[|text|] == '\n';
      }
    }
    FirstFence(inside, 0, |text| + 1);
    assert inside[..|text| + 1] == text + "\n";
    TrimSpaceAfter(text);
  }

  lemma SkipNewline(s: string)
    requires s != "" && !IsSpace(s[0])
    ensures SkipSpaces("\n" + s) == s
  {
    assert ("\n" + s)[1..] == s && IsSpace(("\n" + s)[0]);
    assert DropLeft(IsSpace, "\n" + s) == DropLeft(IsSpace, s);
  }

  /** Prose that neither holds a fence nor runs into one. */
  predicate Prose(s: string) {
    NoFence(s) && (s != "" ==> s[|s| - 1] != '`')
  }

  lemma FenceOpens(before: string, tagged: string, text: string)
    requires Prose(before) && Fenced(FenceBody(tagged)) == Some(text)
    ensures StripFences(before + "```" + tagged) == text
  {
    var s := before + "```" + tagged;
    forall j | 0 <= j < |before| ensures !(s[j] == '`' && s[j + 1] == '`' && s[j + 2] == '`') {
      if j + 2 < |before| {
        assert s[j] == before[j] && s[j + 1] == before[j + 1] && s[j + 2] == before[j + 2];
      } else {
        assert s[|before| - 1] == before[|before| - 1];
      }
    }
    FirstFence(s, 0, |before|);
    assert s[|before| + 3..] == tagged;
  }

  lemma TagIsDropped(tag: string, rest: string)
    requires tag == "" || tag == "json" || tag == "JSON"
    requires rest != "" && rest[0] == '\n'
    ensures (if Starts(tag + rest, "json") || Starts(tag + rest, "JSON") then (tag + rest)[4..] else tag + rest) == rest
  {
    if tag == "" {
      assert tag + rest == rest;
      assert |rest| >= 4 ==> rest[..4][0] == '\n';
    } else {
      assert (tag + rest)[..4] == tag && (tag + rest)[4..] == rest;
    }
  }

  /** A text put into a fence, with or without a json tag and with any prose around it, is
      taken out of it again: what stands before the fence or behind it does not matter. */
  lemma FencedIsTheSame(before: string, tag: string, text: string, after: string)
    requires Prose(before) && Trimmed(text) && NoFence(text)
    requires tag == "" || tag == "json" || tag == "JSON"
    ensures StripFences(before + "```" + tag + "\n" + text + "\n```" + after) == text == StripFences(text)
  {
    var inside := text + "\n```" + after;
    var tagged := tag + ("\n" + inside);
    assert before + "```" + tag + "\n" + text + "\n```" + after == before + "```" + tagged;
    TagIsDropped(tag, "\n" + inside);
    SkipNewline(inside);
    FencedBody(text, after);
    assert FenceBody(tagged) == inside;
    FenceOpens(before, tagged, text);
    StaysUnfenced(text);
  }

  lemma TrimSpaceAfter(s: string)
    requires Trimmed(s)
    ensures Trim(s + "\n") == s
  {
    TrimmedIsFixed(s);
    assert SkipSpaces(s + "\n") == s + "\n";
    assert (s + "\n")[..|s + "\n"| - 1] == s;
    assert IsSpace('\n');
  }
}
