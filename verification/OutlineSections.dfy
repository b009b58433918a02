/** Once a later section opens no earlier one changes: every section is what its own
    lines make of it. */
module OutlineSections {
  import opened Rows
  import opened Text
  import opened Matchers
  import opened Outline

  predicate OpensNew(st: State, action: Action) {
    |Act(st, action).sections| > |st.sections|
  }

  /** The action either appended one empty section, or changed at most the goal and the
      target of the last one. */
  predicate AtMostLast(st: State, after: State) {
    var n := |st.sections|;
    if |after.sections| > n then
      && |after.sections| == n + 1 && after.sections[..n] == st.sections && after.open
      && after.sections[n].goal.None? && after.sections[n].target.None?
    else
      && |after.sections| == n
      && (forall i | 0 <= i < n - 1 :: after.sections[i] == st.sections[i])
      && (n > 0 ==> after.sections[n - 1].id == st.sections[n - 1].id
                    && after.sections[n - 1].heading == st.sections[n - 1].heading)
  }

  lemma OnlyLastChanges(st: State, action: Action)
    ensures AtMostLast(st, Act(st, action))
  {
  }

  /** Two states agree on their last section. */
  predicate SameLast(a: State, b: State) {
    && |a.sections| > 0 && |b.sections| > 0 && a.open == b.open
    && a.sections[|a.sections| - 1] == b.sections[|b.sections| - 1]
  }

  /** What an action does to the last section depends on nothing else. */
  lemma LastDependsOnLast(a: State, b: State, action: Action)
    requires SameLast(a, b)
    ensures OpensNew(a, action) <==> OpensNew(b, action)
    ensures !OpensNew(a, action) ==> SameLast(Act(a, action), Act(b, action))
  {
  }

  // ------------------------------------------------------------------------ own lines

  /** The action that opened section number i. */
  function OpenedAt(actions: seq<Action>, i: nat): (k: nat)
    requires i < |Read(START, actions).sections|
    ensures k < |actions|
  {
    var n := |actions| - 1;
    if i < |Read(START, actions[..n]).sections| then OpenedAt(actions[..n], i) else n
  }

  /** The action that opened the next section, or the end. */
  function ClosedAt(actions: seq<Action>, i: nat): (k: nat)
    requires i < |Read(START, actions).sections|
    ensures k <= |actions|
  {
    if i + 1 < |Read(START, actions).sections| then OpenedAt(actions, i + 1) else |actions|
  }

  /** A section on its own, as it is right after its heading. */
  function Opened(d: Draft): State {
    State(None, [d.(goal := None, target := None)], true)
  }

  /** The actions between the opening of section i and the next one. */
  function OwnActions(actions: seq<Action>, i: nat): seq<Action>
    requires i < |Read(START, actions).sections|
  {
    if OpenedAt(actions, i) < ClosedAt(actions, i) then actions[OpenedAt(actions, i) + 1..ClosedAt(actions, i)] else []
  }

  /** Alone, these actions make the section of its bare heading. */
  predicate Makes(own: seq<Action>, section: Draft, open: bool) {
    var alone := Read(Opened(section), own);
    alone.sections == [section] && alone.open == open
  }

  predicate OwnsItsLines(actions: seq<Action>, i: nat)
    requires i < |Read(START, actions).sections|
  {
    var whole := Read(START, actions);
    && OpenedAt(actions, i) < ClosedAt(actions, i)
    && Read(Opened(whole.sections[i]), OwnActions(actions, i)).sections == [whole.sections[i]]
    && (i == |whole.sections| - 1 ==> Makes(OwnActions(actions, i), whole.sections[i], whole.open))
  }

  /** Every section is what the lines between its own opening and the next one make of it,
      starting from its bare heading: no line outside them matters. */
  lemma {:induction false} SectionsOwnTheirLines(actions: seq<Action>, i: nat)
    requires i < |Read(START, actions).sections|
    ensures OwnsItsLines(actions, i)
  {
    var n := |actions| - 1;
    var st := Read(START, actions[..n]);
    OnlyLastChanges(st, actions[n]);
    if i == |st.sections| {
      NewSection(actions, i);
    } else {
      SectionsOwnTheirLines(actions[..n], i);
      if i + 1 < |Read(START, actions).sections| {
        EarlierSection(actions, i);
      } else {
        LastSection(actions, i);
      }
    }
  }

  lemma NewSection(actions: seq<Action>, i: nat)
    requires actions != [] && i == |Read(START, actions[..|actions| - 1]).sections|
    requires AtMostLast(Read(START, actions[..|actions| - 1]), Read(START, actions))
    requires |Read(START, actions).sections| == i + 1
    ensures OwnsItsLines(actions, i)
  {
  }

  lemma EarlierSection(actions: seq<Action>, i: nat)
    requires actions != [] && i < |Read(START, actions[..|actions| - 1]).sections|
    requires AtMostLast(Read(START, actions[..|actions| - 1]), Read(START, actions))
    requires i + 1 < |Read(START, actions).sections|
    requires OwnsItsLines(actions[..|actions| - 1], i)
    ensures OwnsItsLines(actions, i)
  {
    var before := actions[..|actions| - 1];
    assert OpenedAt(actions, i) == OpenedAt(before, i);
    assert ClosedAt(actions, i) == ClosedAt(before, i);
    assert OwnActions(actions, i) == OwnActions(before, i);
    assert Read(START, actions).sections[i] == Read(START, before).sections[i];
  }

  lemma LastSection(actions: seq<Action>, i: nat)
    requires actions != [] && i == |Read(START, actions[..|actions| - 1]).sections| - 1
    requires |Read(START, actions).sections| == i + 1
    requires OwnsItsLines(actions[..|actions| - 1], i)
    ensures OwnsItsLines(actions, i)
  {
    LastOwnGrows(actions, i);
    OneMore(OwnActions(actions[..|actions| - 1], i), Read(START, actions[..|actions| - 1]), actions[|actions| - 1]);
  }

  lemma LastOwnGrows(actions: seq<Action>, i: nat)
    requires actions != [] && i == |Read(START, actions[..|actions| - 1]).sections| - 1
    requires |Read(START, actions).sections| == i + 1
    requires OpenedAt(actions[..|actions| - 1], i) < ClosedAt(actions[..|actions| - 1], i)
    ensures OpenedAt(actions, i) < ClosedAt(actions, i)
    ensures OwnActions(actions, i) == OwnActions(actions[..|actions| - 1], i) + [actions[|actions| - 1]]
  {
    LastPositions(actions, i);
    SliceGrows(actions, OpenedAt(actions, i) + 1);
  }

  lemma LastPositions(actions: seq<Action>, i: nat)
    requires actions != [] && i == |Read(START, actions[..|actions| - 1]).sections| - 1
    requires |Read(START, actions).sections| == i + 1
    ensures OpenedAt(actions, i) == OpenedAt(actions[..|actions| - 1], i)
    ensures ClosedAt(actions, i) == |actions| && ClosedAt(actions[..|actions| - 1], i) == |actions| - 1
  {
  }

  lemma SliceGrows(actions: seq<Action>, k: nat)
    requires k < |actions|
    ensures actions[k..|actions|] == actions[..|actions| - 1][k..|actions| - 1] + [actions[|actions| - 1]]
  {
  }

  /** One more action of the last section. */
  lemma OneMore(own: seq<Action>, st: State, action: Action)
    requires |st.sections| > 0 && !OpensNew(st, action)
    requires Makes(own, st.sections[|st.sections| - 1], st.open)
    ensures var after := Act(st, action);
            && |after.sections| == |st.sections|
            && Makes(own + [action], after.sections[|st.sections| - 1], after.open)
  {
    var last := st.sections[|st.sections| - 1];
    var alone := Read(Opened(last), own);
    assert (own + [action])[..|own|] == own;
    LastDependsOnLast(st, alone, action);
    OnlyLastChanges(st, action);
    OnlyLastChanges(alone, action);
    assert Opened(Act(st, action).sections[|st.sections| - 1]) == Opened(last);
  }

  /** The goal and the target of a finished section come from these actions. */
  predicate GivenBy(own: seq<Action>, section: Section) {
    Read(State(None, [Draft(section.id, section.heading, None, None)], true), own).sections
    == [Draft(section.id, section.heading, Some(section.goal), Some(Some(section.targetWords)))]
  }

  /** Of an accepted outline, every goal and word target comes from the lines after its
      own section opened and before the next one opened. */
  lemma AcceptedSectionsOwnTheirLines(text: string, outline: Outline, i: nat)
    requires ParseMarkdown(text).Parsed? && Validate(ParseMarkdown(text).payload) == Accepted(outline)
    requires i < |outline.sections|
    ensures i < |Read(START, Actions(SplitLines(text))).sections|
    ensures GivenBy(OwnActions(Actions(SplitLines(text)), i), outline.sections[i])
  {
    AcceptedDraft(text, outline, i);
    DraftFromOwnLines(Actions(SplitLines(text)), i);
  }

  lemma DraftFromOwnLines(actions: seq<Action>, i: nat)
    requires i < |Read(START, actions).sections| && DraftOk(Read(START, actions).sections[i])
    ensures GivenBy(OwnActions(actions, i), Finished(Read(START, actions).sections[i]))
  {
    SectionsOwnTheirLines(actions, i);
  }

  lemma AcceptedDraft(text: string, outline: Outline, i: nat)
    requires ParseMarkdown(text).Parsed? && Validate(ParseMarkdown(text).payload) == Accepted(outline)
    requires i < |outline.sections|
    ensures var drafts := Read(START, Actions(SplitLines(text))).sections;
            i < |drafts| && DraftOk(drafts[i]) && outline.sections[i] == Finished(drafts[i])
  {
  }

  /** An accepted raw output was parsed, so the above is about all of them. */
  lemma AcceptedWasParsed(raw: string, outline: Outline)
    requires NormalizeOutline(raw) == Accepted(outline)
    ensures var parsed := ParseMarkdown(StripFences(raw));
            parsed.Parsed? && Validate(parsed.payload) == Accepted(outline)
  {
  }
}
