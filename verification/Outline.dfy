/** The Markdown outline parser: a fold over lines, and the line loop that computes it
    with section objects, one of which `current` aliases. */
module Outline {
  import opened Rows
  import opened Text
  import opened Matchers

  /** A section under construction: goal and target may be absent, and a target may be
      present without a number. */
  datatype Draft = Draft(id: string, heading: string, goal: Option<string>, target: Option<Option<nat>>)

  /** open: `current` is the last section, and not None. */
  datatype State = State(title: Option<string>, sections: seq<Draft>, open: bool)

  const START: State := State(None, [], false)

  // ------------------------------------------------------------------ one heading line

  /** The title a heading labelled `title` or `blog title` gives. */
  function LabelledTitle(body: string): string {
    var k := Find(IsColon, body, 0);
    if k < |body| then Trim(body[k + 1..])
    else
      var rest := WithoutBlogTitle(body);
      Trim(if Starts(rest, "Title ") then rest[6..] else rest)
  }

  predicate LooksLikeTitle(body: string) {
    Starts(Lower(body), "title") || Starts(Lower(body), "blog title")
  }

  function OpenSection(st: State, id: string, heading: string): State {
    st.(sections := st.sections + [Draft(id, heading, None, None)], open := true)
  }

  datatype HeadingKind =
    | OpensSection(id: string, heading: string)
    | GivesTitle(title: string)
    | StaysInLast

  /** What the text of a heading line offers; used as far as the state asks for it. */
  datatype HeadingLine = HeadingLine(
    body: string,
    level: nat,
    prefix: Option<Prefixed>,
    labelledTitle: Option<string>,
    isSection: bool,
    stripped: string)

  function ReadHeading(body: string, level: nat): HeadingLine {
    HeadingLine(body, level,
                SectionPrefix(body),
                if LooksLikeTitle(body) then Some(LabelledTitle(body)) else None,
                IsSectionHeading(body),
                Trim(WithoutPart(body)))
  }

  /** What a heading does, when so many sections are there already. */
  function Classify(h: HeadingLine, sections: nat, untitled: bool): HeadingKind {
    if h.prefix.Some? then OpensSection("section_" + h.prefix.value.number, Trim(h.prefix.value.rest))
    else if h.labelledTitle.Some? then GivesTitle(h.labelledTitle.value)
    else if h.level <= 1 && sections == 0 && untitled then GivesTitle(h.body)
    else if h.isSection || sections == 0 then
      OpensSection("section_" + Numeral(sections + 1), if h.stripped != "" then h.stripped else h.body)
    else StaysInLast
  }

  /** open afterwards means that `_consume_heading` returned the last section. */
  function Consume(st: State, kind: HeadingKind): State {
    match kind
    case OpensSection(id, heading) => OpenSection(st, id, heading)
    case GivesTitle(title) => st.(title := Some(title), open := false)
    case StaysInLast => st.(open := |st.sections| > 0)
  }

  function ConsumeHeading(h: HeadingLine, st: State): State {
    Consume(st, Classify(h, |st.sections|, st.title.None?))
  }

  // --------------------------------------------------------------------------- one line

  function WithGoal(st: State, goal: string): State {
    if !st.open || |st.sections| == 0 then st
    else
      var last := |st.sections| - 1;
      st.(sections := st.sections[last := st.sections[last].(goal := Some(goal))])
  }

  function WithTarget(st: State, target: Option<nat>): State {
    if !st.open || |st.sections| == 0 then st
    else
      var last := |st.sections| - 1;
      st.(sections := st.sections[last := st.sections[last].(target := Some(target))])
  }

  /** What a line asks for. */
  datatype Action =
    | TakeHeading(heading: HeadingLine)
    | SetTitle(title: string)
    | OfferTitle(title: string)      // taken only before the first section, and only once
    | SetGoal(goal: string)
    | OfferGoal(goal: string)        // taken only by a section without a goal
    | SetTarget(target: Option<nat>)
    | Ignore

  function LabelAction(l: Labelled): Action {
    if GoalLabel(l.name) then SetGoal(l.value)
    else if WordLabel(l.name) then SetTarget(TargetWords(l.value))
    else Ignore
  }

  /** A bullet without a goal or word label. */
  function BulletAction(text: string): Action {
    var body := CleanLabel(text);
    if IsSectionHeading(body) then TakeHeading(ReadHeading(body, 1)) else OfferGoal(body)
  }

  /** The branches of the loop body, on a line that is stripped and not empty. */
  function ActionOf(line: string): Action {
    var heading := Heading(line);
    var inline := BoldInline(line);
    var bullet := Bullet(line);
    var labelled := LabelledLine(line);
    if heading.Some? then TakeHeading(ReadHeading(CleanLabel(heading.value), HeadingLevel(line)))
    else if inline.Some? then
      if TitleLabel(inline.value.name) then SetTitle(inline.value.value) else LabelAction(inline.value)
    else if bullet.Some? then
      if labelled.Some? && LabelAction(labelled.value) != Ignore then LabelAction(labelled.value)
      else BulletAction(bullet.value)
    else if labelled.Some? then
      if TitleLabel(labelled.value.name) then OfferTitle(labelled.value.value) else Ignore
    else
      var bold := BoldLine(line);
      if bold.Some? && IsSectionHeading(CleanLabel(bold.value)) then TakeHeading(ReadHeading(CleanLabel(bold.value), 1))
      else Ignore
  }

  function Act(st: State, action: Action): State {
    match action
    case TakeHeading(heading) => ConsumeHeading(heading, st)
    case SetTitle(title) => st.(title := Some(title))
    case OfferTitle(title) => if !st.open && st.title.None? then st.(title := Some(title)) else st
    case SetGoal(goal) => WithGoal(st, goal)
    case OfferGoal(goal) =>
      if st.open && |st.sections| > 0 && st.sections[|st.sections| - 1].goal.None? then WithGoal(st, goal) else st
    case SetTarget(target) => WithTarget(st, target)
    case Ignore => st
  }

  /** The branch for bold lines is never reached: such a line is a bullet too. */
  lemma BoldLineIsBullet(line: string)
    requires BoldLine(line).Some?
    ensures Bullet(line).Some?
  {
    if line != "" && line[|line| - 1] == ':' {
      DropRightIsPrefix(IsSpace, line[..|line| - 1]);
      assert DropRight(IsSpace, line[..|line| - 1])[..2][0] == line[0];
    } else {
      assert line[..2][0] == line[0];
    }
  }

  function LineAction(raw: string): Action {
    if Trim(raw) == "" then Ignore else ActionOf(Trim(raw))
  }

  function Map<T, U>(f: T -> U, s: seq<T>): (r: seq<U>)
    ensures |r| == |s|
    ensures forall i | 0 <= i < |r| :: r[i] == f(s[i])
  {
    seq(|s|, i requires 0 <= i < |s| => f(s[i]))
  }

  function Actions(lines: seq<string>): seq<Action> { Map(LineAction, lines) }

  /** The state after a sequence of actions. */
  function Read(st: State, actions: seq<Action>): State {
    if |actions| == 0 then st
    else Act(Read(st, actions[..|actions| - 1]), actions[|actions| - 1])
  }

  /** _find_total: the number of the first line with a total label. */
  function FindTotal(lines: seq<string>): Option<nat> {
    if lines == [] then None
    else
      var labelled := LabelledLine(Trim(lines[0]));
      if labelled.Some? && TotalLabel(labelled.value.name) then AsInt(labelled.value.value)
      else FindTotal(lines[1..])
  }

  function TargetSum(sections: seq<Draft>): nat {
    if sections == [] then 0
    else
      var last := sections[|sections| - 1];
      TargetSum(sections[..|sections| - 1])
      + if last.target.Some? && last.target.value.Some? then last.target.value.value else 0
  }

  // ---------------------------------------------------------------------------- results

  datatype Section = Section(id: string, heading: string, goal: string, targetWords: nat)

  datatype Outline = Outline(title: string, sections: seq<Section>, totalWords: nat)

  datatype Refusal = NoOutput | NoTitle | Incomplete(section: nat) | SchemaError

  datatype Normalized =
    | Json(text: string)
    | Refused(why: Refusal)
    | Accepted(outline: Outline)

  /** What the Markdown parser hands to the schema. */
  datatype Payload = Payload(title: string, sections: seq<Draft>, total: Option<nat>)

  datatype Parsed = ParseError(why: Refusal) | Parsed(payload: Payload)

  predicate Complete(d: Draft) {
    d.goal.Some? && d.target.Some?
  }

  /** The index of the first incomplete section, or their number. */
  function FirstIncomplete(sections: seq<Draft>, i: nat): (k: nat)
    requires i <= |sections|
    ensures i <= k <= |sections|
    ensures forall j | i <= j < k :: Complete(sections[j])
    ensures k < |sections| ==> !Complete(sections[k])
    decreases |sections| - i
  {
    if i == |sections| || !Complete(sections[i]) then i else FirstIncomplete(sections, i + 1)
  }

  function ParseMarkdown(text: string): Parsed {
    var lines := SplitLines(text);
    var st := Read(START, Actions(lines));
    var declared := FindTotal(lines);
    var total := if declared.Some? then declared
                 else if st.sections != [] then Some(TargetSum(st.sections))
                 else None;
    var bad := FirstIncomplete(st.sections, 0);
    if st.title.None? then ParseError(NoTitle)
    else if bad < |st.sections| then ParseError(Incomplete(bad))
    else Parsed(Payload(st.title.value, st.sections, total))
  }

  const MAX_TITLE: nat := 120
  const MIN_SECTIONS: nat := 3
  const MAX_SECTIONS: nat := 7
  const MIN_TARGET: nat := 80
  const MAX_TARGET: nat := 300
  const MIN_TOTAL: nat := 300
  const MAX_TOTAL: nat := 2000

  predicate DraftOk(d: Draft) {
    && d.goal.Some? && d.target.Some? && d.target.value.Some?
    && MIN_TARGET <= d.target.value.value <= MAX_TARGET
  }

  function Finished(d: Draft): Section
    requires DraftOk(d)
  {
    Section(d.id, d.heading, d.goal.value, d.target.value.value)
  }

  /** OutlineSchema.model_validate on a parsed payload. */
  function Validate(p: Payload): Normalized {
    if && |p.title| <= MAX_TITLE
       && MIN_SECTIONS <= |p.sections| <= MAX_SECTIONS
       && (forall i | 0 <= i < |p.sections| :: DraftOk(p.sections[i]))
       && p.total.Some? && MIN_TOTAL <= p.total.value <= MAX_TOTAL
    then
      Accepted(Outline(p.title,
                       seq(|p.sections|, i requires 0 <= i < |p.sections| => Finished(p.sections[i])),
                       p.total.value))
    else Refused(SchemaError)
  }

  /** normalize_outline behind _strip_fences, up to the JSON branch. */
  function NormalizeText(text: string): Normalized {
    if Trim(text) == "" then Refused(NoOutput)
    else if Starts(SkipSpaces(text), "{") then Json(text)
    else
      match ParseMarkdown(text)
      case ParseError(why) => Refused(why)
      case Parsed(payload) => Validate(payload)
  }

  function NormalizeOutline(raw: string): Normalized {
    NormalizeText(StripFences(raw))
  }

  // -------------------------------------------------------------------------- the loop

  /** A section dictionary; several references may point to it. */
  class SectionNode {
    const id: string
    const heading: string
    var goal: Option<string>
    var target: Option<Option<nat>>

    constructor (id: string, heading: string)
      ensures this.id == id && this.heading == heading && goal == None && target == None
    {
      this.id, this.heading := id, heading;
      goal, target := None, None;
    }

    function View(): Draft
      reads this
    {
      Draft(id, heading, goal, target)
    }
  }

  /** The `state` dictionary. */
  class ParserState {
    var title: Option<string>
    var sections: seq<SectionNode>

    constructor ()
      ensures title == None && sections == []
    {
      title, sections := None, [];
    }

    function Views(): (ds: seq<Draft>)
      reads this, sections
      ensures |ds| == |sections|
    {
      seq(|sections|, i requires 0 <= i < |sections| reads this, sections => sections[i].View())
    }

    /** No two entries are the same object, and `current` is None or the last one. */
    ghost predicate Valid(current: SectionNode?)
      reads this
    {
      && (forall i, j | 0 <= i < j < |sections| :: sections[i] != sections[j])
      && (current != null ==> sections != [] && current == sections[|sections| - 1])
    }

    ghost function Value(current: SectionNode?): State
      reads this, sections
    {
      State(title, Views(), current != null)
    }

    /** Opens a section: a fresh object at the end of the list. */
    method Open(id: string, heading: string) returns (section: SectionNode)
      requires Valid(null)
      modifies this
      ensures fresh(section) && sections == old(sections) + [section]
      ensures Valid(section)
      ensures Value(section) == OpenSection(old(Value(null)), id, heading)
    {
      section := new SectionNode(id, heading);
      sections := sections + [section];
      assert forall i | 0 <= i < |old(sections)| :: sections[i].View() == old(sections[i].View());
    }

    method PutTitle(current: SectionNode?, value: string)
      requires Valid(current)
      modifies this`title
      ensures Valid(current)
      ensures Value(current) == old(Value(current)).(title := Some(value))
    {
      title := Some(value);
      assert forall i | 0 <= i < |sections| :: sections[i].View() == old(sections[i].View());
      assert Views() == old(Views());
    }

    method Enter(kind: HeadingKind) returns (current: SectionNode?)
      requires Valid(null)
      modifies this
      ensures Valid(current)
      ensures Value(current) == Consume(old(Value(null)), kind)
      ensures sections == old(sections) || (current != null && fresh(current) && sections == old(sections) + [current])
    {
      match kind
      case OpensSection(id, heading) =>
        current := Open(id, heading);
      case GivesTitle(title) =>
        PutTitle(null, title);
        current := null;
      case StaysInLast =>
        current := if |sections| > 0 then sections[|sections| - 1] else null;
    }

    /** _consume_heading */
    method ConsumeHeadingLine(h: HeadingLine) returns (current: SectionNode?)
      requires Valid(null)
      modifies this
      ensures Valid(current)
      ensures Value(current) == ConsumeHeading(h, old(Value(null)))
      ensures sections == old(sections) || (current != null && fresh(current) && sections == old(sections) + [current])
    {
      current := Enter(Classify(h, |sections|, title.None?));
    }

    method PutGoal(current: SectionNode?, goal: string)
      requires Valid(current)
      modifies current
      ensures Value(current) == WithGoal(old(Value(current)), goal)
    {
      if current != null {
        current.goal := Some(goal);
      }
      assert Views() == WithGoal(old(Value(current)), goal).sections;
    }

    method PutTarget(current: SectionNode?, target: Option<nat>)
      requires Valid(current)
      modifies current
      ensures Value(current) == WithTarget(old(Value(current)), target)
    {
      if current != null {
        current.target := Some(target);
      }
      assert Views() == WithTarget(old(Value(current)), target).sections;
    }

    /** One turn of the loop; `current` stays None or the last section. */
    method Perform(current: SectionNode?, action: Action) returns (next: SectionNode?)
      requires Valid(current)
      modifies this, current
      ensures Valid(next)
      ensures Value(next) == Act(old(Value(current)), action)
      ensures sections == old(sections) || (next != null && fresh(next) && sections == old(sections) + [next])
    {
      next := current;
      match action
      case TakeHeading(heading) =>
        assert Value(null) == Value(current).(open := false);
        next := ConsumeHeadingLine(heading);
      case SetTitle(title) => PutTitle(current, title);
      case OfferTitle(title) =>
        if current == null && this.title.None? {
          PutTitle(current, title);
        }
      case SetGoal(goal) => PutGoal(current, goal);
      case OfferGoal(goal) =>
        if current != null && current.goal.None? {
          PutGoal(current, goal);
        }
      case SetTarget(target) => PutTarget(current, target);
      case Ignore =>
    }

    /** The line loop of _parse_outline_markdown. */
    method ReadLines(actions: seq<Action>) returns (current: SectionNode?)
      requires title == None && sections == []
      modifies this
      ensures Valid(current)
      ensures Value(current) == Read(START, actions)
    {
      current := null;
      var i := 0;
      while i < |actions|
        invariant 0 <= i <= |actions|
        invariant Valid(current)
        invariant forall k | 0 <= k < |sections| :: fresh(sections[k])
        invariant Value(current) == Read(START, actions[..i])
      {
        assert actions[..i + 1][..i] == actions[..i];
        current := Perform(current, actions[i]);
        i := i + 1;
      }
      assert actions[..i] == actions;
    }
  }

  /** _parse_outline_markdown */
  method ParseOutlineMarkdown(text: string) returns (parsed: Parsed)
    ensures parsed == ParseMarkdown(text)
  {
    var state := new ParserState();
    var lines := SplitLines(text);
    var current := state.ReadLines(Actions(lines));
    var drafts := state.Views();
    var total := FindTotal(lines);
    if total.None? && drafts != [] {
      total := Some(TargetSum(drafts));
    }
    if state.title.None? {
      return ParseError(NoTitle);
    }
    var index := 0;
    while index < |drafts|
      invariant 0 <= index <= |drafts|
      invariant FirstIncomplete(drafts, 0) == FirstIncomplete(drafts, index)
    {
      if !Complete(drafts[index]) {
        return ParseError(Incomplete(index));
      }
      index := index + 1;
    }
    return Parsed(Payload(state.title.value, drafts, total));
  }

  /** normalize_outline, up to the JSON branch. */
  method Normalize(raw: string) returns (outcome: Normalized)
    ensures outcome == NormalizeOutline(raw)
  {
    var text := StripFences(raw);
    if Trim(text) == "" {
      return Refused(NoOutput);
    }
    if Starts(SkipSpaces(text), "{") {
      return Json(text);
    }
    var parsed := ParseOutlineMarkdown(text);
    match parsed
    case ParseError(why) => return Refused(why);
    case Parsed(payload) => return Validate(payload);
  }
}
