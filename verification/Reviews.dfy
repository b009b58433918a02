/** What the two reviews answer: when a review is accepted, and every row it changes then. */
module Reviews {
  import opened Rows
  import opened Tables
  import opened Workflow
  import opened Invariant
  import opened Transactions
  import Outbox

  /** The session is the user's own and waits for this review. */
  predicate Waits(db: Db, user: nat, s: nat, status: Status) {
    s < |db.sessions| && db.sessions[s].userId == user && db.sessions[s].status == status
  }

  /** The event a review leaves for the workers: PENDING, available now, for the phase. */
  function NewEvent(db: Db, user: nat, s: nat, phase: Phase): Event {
    Event(s, user, phase, EventPending, 0, db.clock, None, None, None, db.clock)
  }

  /** An outline review is accepted exactly for an outline, from the user of a session that
      waits for it.  Then the outline becomes the version's outline and its approved one,
      session and version are QUEUED for research, and one event asks for it. */
  lemma OutlineReviewAnswer(db: Db, user: nat, s: nat, outline: string)
    requires ProtocolOk(db)
    ensures var after := Next(db, ReviewOutline(user, s, outline));
            if Waits(db, user, s, AwaitingOutlineReview) && outline != "" then
              && ActiveVersion(db, s).Some?
              && var v := ActiveVersion(db, s).value;
                 after == db.(
                   sessions := db.sessions[s := db.sessions[s].(status := Queued, jobPhase := Some(ResearchPhase))],
                   versions := db.versions[v := db.versions[v].(
                     status := Queued, jobPhase := ResearchPhase, outlineData := outline, approvedOutline := outline)],
                   events := db.events + [NewEvent(db, user, s, ResearchPhase)])
            else after == db
  {
    OutlineReviewKeeps(db, user, s, outline);
    if s < |db.sessions| {
      assert ActiveVersionOk(db.sessions, s, db.versions);
    }
  }

  /** Why a review is refused: no such session, somebody else's, or not at this point. */
  lemma ReviewRefusals(db: Db, user: nat, s: nat, outline: string, action: ReviewAction)
    requires ProtocolOk(db)
    ensures !Waits(db, user, s, AwaitingOutlineReview) ==>
              SubmitOutlineReview(db, user, s, outline)
              == RolledBack(if s >= |db.sessions| then SessionNotFound
                            else if db.sessions[s].userId != user then AccessDenied else WrongStatus)
    ensures Waits(db, user, s, AwaitingOutlineReview) ==>
              (outline == "" <==> SubmitOutlineReview(db, user, s, outline) == RolledBack(InvalidOutline))
    ensures !Waits(db, user, s, AwaitingFinalReview) ==>
              SubmitFinalReview(db, user, s, action)
              == RolledBack(if s >= |db.sessions| then SessionNotFound
                            else if db.sessions[s].userId != user then AccessDenied else WrongStatus)
  {
  }

  /** A final review is accepted exactly from the user of a session that waits for it.  An
      approval completes session and version; a rejection ends both as REJECTED and clears the
      phase; a revision request queues the session for a revision, whose new version carries
      the next number and the documents of the one reviewed, and asks for it with one event. */
  lemma FinalReviewAnswer(db: Db, user: nat, s: nat, action: ReviewAction)
    requires ProtocolOk(db)
    ensures var after := Next(db, ReviewFinal(user, s, action));
            if Waits(db, user, s, AwaitingFinalReview) then
              && ActiveVersion(db, s).Some?
              && var v := ActiveVersion(db, s).value;
                 var row, version := db.sessions[s], db.versions[v];
                 match action
                 case Approve =>
                   after == db.(sessions := db.sessions[s := row.(status := Completed)],
                                versions := db.versions[v := version.(status := Completed)])
                 case Reject =>
                   after == db.(sessions := db.sessions[s := row.(status := Rejected, jobPhase := None)],
                                versions := db.versions[v := version.(status := Rejected)])
                 case RequestRevision =>
                   after == db.(
                     sessions := db.sessions[s := row.(status := Queued, jobPhase := Some(Revision),
                                                       activeVersion := Some(|db.versions|))],
                     versions := db.versions + [Version(s, version.number + 1, Queued, Revision, version.outlineData,
                                                        version.approvedOutline, version.draft, version.finalContent)],
                     events := db.events + [NewEvent(db, user, s, Revision)])
            else after == db
  {
    FinalReviewKeeps(db, user, s, action);
    if Waits(db, user, s, AwaitingFinalReview) {
      assert ActiveVersionOk(db.sessions, s, db.versions);
      if action == RequestRevision {
        RevisionRows(db, user, s);
      } else {
        VerdictRows(db, user, s, action);
      }
    }
  }

  lemma VerdictRows(db: Db, user: nat, s: nat, action: ReviewAction)
    requires Waits(db, user, s, AwaitingFinalReview) && ActiveVersionOk(db.sessions, s, db.versions)
    requires action != RequestRevision
    ensures ActiveVersion(db, s).Some?
    ensures var v := ActiveVersion(db, s).value;
            var row, version := db.sessions[s], db.versions[v];
            SubmitFinalReview(db, user, s, action) == Committed(
              if action == Approve then
                db.(sessions := db.sessions[s := row.(status := Completed)],
                    versions := db.versions[v := version.(status := Completed)])
              else
                db.(sessions := db.sessions[s := row.(status := Rejected, jobPhase := None)],
                    versions := db.versions[v := version.(status := Rejected)]))
  {
  }

  lemma RevisionRows(db: Db, user: nat, s: nat)
    requires Waits(db, user, s, AwaitingFinalReview) && ActiveVersionOk(db.sessions, s, db.versions)
    requires SubmitFinalReview(db, user, s, RequestRevision) != RolledBack(DuplicateActiveEvent)
    ensures ActiveVersion(db, s).Some?
    ensures var v := ActiveVersion(db, s).value;
            var row, version := db.sessions[s], db.versions[v];
            SubmitFinalReview(db, user, s, RequestRevision) == Committed(db.(
              sessions := db.sessions[s := row.(status := Queued, jobPhase := Some(Revision),
                                                activeVersion := Some(|db.versions|))],
              versions := db.versions + [Version(s, version.number + 1, Queued, Revision, version.outlineData,
                                                 version.approvedOutline, version.draft, version.finalContent)],
              events := db.events + [NewEvent(db, user, s, Revision)]))
  {
    var moved := db.sessions[s].(status := Queued, jobPhase := Some(Revision));
    assert db.sessions[s := moved][s := moved.(activeVersion := Some(|db.versions|))]
        == db.sessions[s := moved.(activeVersion := Some(|db.versions|))];
  }

  /** An accepted final review always changes something. */
  lemma FinalReviewActs(db: Db, user: nat, s: nat, action: ReviewAction)
    requires ProtocolOk(db)
    ensures Next(db, ReviewFinal(user, s, action)) != db <==> Waits(db, user, s, AwaitingFinalReview)
  {
    FinalReviewAnswer(db, user, s, action);
    if Waits(db, user, s, AwaitingFinalReview) {
      assert Next(db, ReviewFinal(user, s, action)).sessions[s].status != AwaitingFinalReview;
    }
  }
}
