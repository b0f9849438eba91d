/**
 What a session asks and takes: the stored question is the one that was proposed
 by the last reply, and it accepts exactly the answers that satisfy its control.
 */
module OnboardingQuestions {
  import opened Common
  import opened OnboardingTypes
  import opened OnboardingReadiness
  import opened OnboardingProtocol
  import opened OnboardingSafety
  import opened OnboardingTheorems

  /** The question says what the proposal said, and is marked as the location question exactly for that topic. */
  predicate IsProposed(q: Question, p: Proposal) {
    && q.prompt == p.prompt && q.key == Key(p.key) && q.kind == p.kind && q.dimensions == p.dimensions && q.control == p.control
    && (q.locationCode <==> p.key == AdaptiveLocation)
  }

  /** Everything but the questions, the next identifier and the generation is as before. */
  predicate OnlyAsks(s: Session, t: Session) {
    && t.status == s.status && t.reason == s.reason && t.answers == s.answers
    && t.inferred == s.inferred && t.destination == s.destination && t.generation == Idle
  }

  lemma NewIdIsFresh(questions: seq<Question>, answers: map<nat, Answer>, nextId: nat)
    requires Numbered(questions, nextId) && answers.Keys <= Ids(questions)
    ensures nextId !in answers
  {
    IdsContain(questions);
    hide Ids;
  }

  /** A validated proposal becomes the last question, as it was proposed, under the next position and an unused identifier. */
  lemma PersistedAsProposed(s: Session, p: Proposal)
    requires Tables(s.questions, s.answers, s.nextId) && AllAnswered(s.questions, s.answers)
    requires s.questions != [] && s.status != Skipped
    requires Validate(p, s.questions, Rows(s.questions, s.answers)).Valid?
    ensures var t := PersistNextQuestion(s, p);
      && |t.questions| == |s.questions| + 1 && t.questions[..|s.questions|] == s.questions
      && var q := t.questions[|s.questions|];
      && IsProposed(q, p) && q.position == |s.questions| + 1
      && q.id !in t.answers && (forall i :: 0 <= i < |s.questions| ==> s.questions[i].id != q.id)
      && OnlyAsks(s, t) && Tables(t.questions, t.answers, t.nextId)
  {
    PersistAppends(s, p);
    NewIdIsFresh(s.questions, s.answers, s.nextId);
    var t := PersistNextQuestion(s, p);
    LastIdDiffers(t.questions, t.nextId);
    hide Normal, Validate, Fresh, PersistNextQuestion, Paired, AllAnswered, Rows, Answered, Numbered;
  }

  lemma LastIdDiffers(questions: seq<Question>, nextId: nat)
    requires Numbered(questions, nextId) && questions != []
    ensures forall i :: 0 <= i < |questions| - 1 ==> questions[i].id != questions[|questions| - 1].id
  {
  }

  /** A question that is open is answered exactly by what its control admits; other answers are refused. */
  lemma OpenQuestionTakes(s: Session, k: nat, a: Answer)
    requires Numbered(s.questions, s.nextId) && k < |s.questions| && s.questions[k].id !in s.answers
    requires s.status == InProgress && s.generation != Generating
    ensures var r := Submit(s, s.questions[k].id, a); var q := s.questions[k];
      && (r.Accepted? <==> ValidAnswer(q.control, a))
      && (!r.Accepted? ==> r == Refused)
      && (r.Accepted? ==>
            && r.session.questions == s.questions && r.session.answers == s.answers[q.id := a]
            && r.session.generation == Generating && r.session.status == InProgress
            && r.session.destination == if q.locationCode then FieldText(a.value) else s.destination)
  {
    FindIsUnique(s.questions, s.nextId, k);
    hide Find, ValidAnswer, DeleteAfter, Numbered;
  }

  /** The question just stored accepts exactly the answers that satisfy the control the provider proposed. */
  lemma ProposedControlDecides(s: Session, p: Proposal, a: Answer)
    requires Tables(s.questions, s.answers, s.nextId) && AllAnswered(s.questions, s.answers)
    requires s.questions != [] && s.status == InProgress
    requires Validate(p, s.questions, Rows(s.questions, s.answers)).Valid?
    ensures var t := PersistNextQuestion(s, p); var id := t.questions[|t.questions| - 1].id;
      && (Submit(t, id, a).Accepted? <==> ValidAnswer(p.control, a))
      && (Submit(t, id, a).Accepted? ==> Submit(t, id, a).session.answers == s.answers[id := a])
      && (!ValidAnswer(p.control, a) ==> Submit(t, id, a) == Refused)
  {
    PersistedAsProposed(s, p);
    hide Normal, Validate, Fresh, PersistNextQuestion, Paired, AllAnswered, Rows, Numbered, Submit, ValidAnswer;
    var t := PersistNextQuestion(s, p);
    OpenQuestionTakes(t, |s.questions|, a);
  }

  /** A new session asks where the traveller is going, as free text, and takes any text that is not blank and not too long. */
  lemma FirstQuestionIsTheLocation(s: Session, a: Answer)
    requires SessionInv(s) && s.status == InProgress && s.questions == []
    ensures var t := GenerateFirst(s);
      && |t.questions| == 1 && OnlyAsks(s, t)
      && var q := t.questions[0];
      && q.prompt == LOCATION_PROMPT && q.key == Key(AdaptiveLocation) && q.locationCode && q.position == 1
      && q.kind == Standard && q.control == FreeText && q.dimensions == {OtherDimension("location")}
      && (Submit(t, q.id, a).Accepted? <==> ValidAnswer(FreeText, a))
      && (Submit(t, q.id, a).Accepted? ==> Submit(t, q.id, a).session.destination == FieldText(a.value))
      && (Submit(t, q.id, a).Accepted? ==> Submit(t, q.id, a).session.answers == map[q.id := a])
  {
    assert s.answers == map[];
    GenerateFirstKeeps(s);
    var t := GenerateFirst(s);
    OpenQuestionTakes(t, 0, a);
    hide Submit, ValidAnswer, Normal, Ready;
  }

  /** In an answered history exactly the proposals are valid that have a topic and a wording of their own, and do not ask for the location again. */
  lemma ValidIff(p: Proposal, questions: seq<Question>, answers: map<nat, Answer>)
    requires Fresh(questions) && AllAnswered(questions, answers)
    ensures var v := Validate(p, questions, Rows(questions, answers));
      var location := p.key == AdaptiveLocation || Normal(p.prompt) == Normal(LOCATION_PROMPT);
      && (v.ReplacesLocation? <==> location)
      && (v.Valid? <==>
            !location && forall i :: 0 <= i < |questions| ==>
              questions[i].key != Key(p.key) && Normal(questions[i].prompt) != Normal(p.prompt))
  {
    AnsweredTopicsAreKeys(questions, answers);
    TopicsAreOfQuestions(questions, answers);
    hide Normal, Rows, AnsweredTopics;
    assert forall q :: q in questions ==> exists i :: 0 <= i < |questions| && questions[i] == q;
  }

  lemma TopicsAreOfQuestions(questions: seq<Question>, answers: map<nat, Answer>)
    requires Fresh(questions) && AllAnswered(questions, answers)
    ensures forall t :: t in AnsweredTopics(Rows(questions, answers)) ==> exists i :: 0 <= i < |questions| && questions[i].key == Key(t)
  {
    hide Normal;
    var rows := Rows(questions, answers);
    AllHaveRows(questions, answers);
    forall t | t in AnsweredTopics(rows) ensures exists i :: 0 <= i < |questions| && questions[i].key == Key(t) {
      var r :| r in rows && KeyOf(r) == Some(t);
      var i :| 0 <= i < |rows| && rows[i] == r;
      assert questions[i].key == Key(t);
    }
  }

  // ----- where a question comes from

  /** The question keeps to the limits on late questions and on clarifications. */
  predicate WithinLimits(s: Session, p: Proposal) {
    && (|s.answers| >= MAX_QUESTIONS ==> p.kind == Clarification)
    && (p.kind == Clarification ==> Clarifications(s.questions) < MAX_CLARIFICATIONS)
  }

  lemma QuestionComesFrom(s: Session, rows: seq<Row>, inferred: Inferred, question: Option<Proposal>, next: Reply)
    requires rows == Rows(s.questions, s.answers)
    ensures var o := DecideQuestion(s, rows, inferred, question, next); var again := AsksAgain(s, rows, question);
      o.Persist? ==>
        if again then next.Decision? && !next.complete && next.question == Some(o.question)
        else question == Some(o.question) && WithinLimits(s, o.question)
  {
    hide Validate, Ready, Record, Rows, Clarifications;
  }

  /**
   A question is only ever asked as the last reply that was read proposes it. It
   keeps to the limits, unless it replaces a repeated question that did.
   */
  lemma AskedByTheLastReply(s: Session, r1: Reply, r2: Reply, r3: Reply)
    ensures var o := Decide(s, r1, r2, r3); var calls := CallsMade(s, r1, r2, r3);
      o.Persist? ==>
        && 1 <= calls <= 3
        && var last := [r1, r2, r3][calls - 1];
        && last.Decision? && !last.complete && last.question == Some(o.question)
        && (WithinLimits(s, o.question) || (calls >= 2 && Replaces(s, [r1, r2, r3][calls - 2])))
  {
    var rows := Rows(s.questions, s.answers);
    hide Validate, Ready, Record, Rows, Clarifications, DecideQuestion, AsksAgain, WithinLimits;
    if r1.Decision? {
      QuestionComesFrom(s, rows, Record(s.inferred, r1.signals), r1.question, r2);
      if r2.Decision? {
        QuestionComesFrom(s, rows, Record(Record(s.inferred, r1.signals), r2.signals), r2.question, r3);
      }
    }
  }

  /** The reply proposes a question within the limits that repeats an earlier one. */
  predicate Replaces(s: Session, r: Reply) {
    r.Decision? && AsksAgain(s, Rows(s.questions, s.answers), r.question)
  }

  /** After a generation the session asks nothing new, or the question of the last reply it read. */
  lemma ResolvedAsksTheLastReply(w: World, r1: Reply, r2: Reply, r3: Reply)
    requires Inv(w) && w.flight == Some(w.session)
    ensures var t := Step(w, Resolved(r1, r2, r3)).session; var calls := CallsMade(w.session, r1, r2, r3); var n := |w.session.questions|;
      t.questions == w.session.questions ||
        (&& |t.questions| == n + 1 && t.questions[..n] == w.session.questions && 1 <= calls <= 3
         && var last := [r1, r2, r3][calls - 1];
         && last.Decision? && last.question.Some? && IsProposed(t.questions[n], last.question.value)
         && t.questions[n].position == n + 1 && !t.questions[n].locationCode && t.answers == w.session.answers)
  {
    hide Decide, CallsMade, Normal, Ready, Validate, Tables, AllAnswered, Rows, GateOpenAtLastCall, Replaces, WithinLimits;
    hide PersistNextQuestion, Accumulated, ReadyAsStored;
    var s := w.session;
    DecideIsGated(s, r1, r2, r3);
    AskedByTheLastReply(s, r1, r2, r3);
    var o := Decide(s, r1, r2, r3);
    if o.Persist? {
      PersistedAsProposed(s, o.question);
      ValidIsNotTheLocation(s, o.question);
    }
  }

  lemma ValidIsNotTheLocation(s: Session, p: Proposal)
    requires Validate(p, s.questions, Rows(s.questions, s.answers)).Valid?
    ensures p.key != AdaptiveLocation
  {
  }

  /** With the gate still closed, a new question within the limits is asked. */
  lemma NewQuestionIsAsked(s: Session, r1: Reply, r2: Reply, r3: Reply, p: Proposal)
    requires SessionInv(s) && s.status == InProgress && s.generation == Generating && |s.answers| <= MAX_QUESTIONS
    requires r1.Decision? && !r1.complete && r1.question == Some(p) && WithinLimits(s, p)
    requires !ReadyAsStored(s) && !Ready(Rows(s.questions, s.answers), Record(map[], r1.signals), |s.answers|)
    requires Validate(p, s.questions, Rows(s.questions, s.answers)).Valid?
    ensures Decide(s, r1, r2, r3) == Persist(p) && CallsMade(s, r1, r2, r3) == 1
  {
    CountsAgree(s);
    hide Validate, Ready, Record, Rows, Clarifications, Tables, AllAnswered;
  }

  /** A repeated question is answered by one request for another, and the other is asked if it is new. */
  lemma RepeatedQuestionIsReplaced(s: Session, r1: Reply, r2: Reply, r3: Reply, p: Proposal)
    requires SessionInv(s) && s.status == InProgress && s.generation == Generating && |s.answers| <= MAX_QUESTIONS
    requires r1.Decision? && !r1.complete && Replaces(s, r1)
    requires r2.Decision? && !r2.complete && r2.question == Some(p)
    requires var rows := Rows(s.questions, s.answers); var known := Record(map[], r1.signals);
      !Ready(rows, map[], |s.answers|) && !Ready(rows, known, |s.answers|) && !Ready(rows, Record(known, r2.signals), |s.answers|)
    requires Validate(p, s.questions, Rows(s.questions, s.answers)).Valid?
    ensures Decide(s, r1, r2, r3) == Persist(p) && CallsMade(s, r1, r2, r3) == 2
  {
    CountsAgree(s);
    hide Validate, Ready, Record, Rows, Clarifications, Tables, AllAnswered;
  }

  // ----- endings

  /** A session declared ready on its stored answers asks the provider nothing and says why: everything is there, or no question is left. */
  lemma ReadyReason(w: World, r1: Reply, r2: Reply, r3: Reply)
    requires Inv(w) && w.flight == Some(w.session) && ReadyAsStored(w.session)
    ensures CallsMade(w.session, r1, r2, r3) == 0
    ensures Step(w, Resolved(r1, r2, r3)) == World(
      w.session.(
        status := ReadyToComplete, generation := Idle,
        reason := Some(if |w.session.answers| > MAX_QUESTIONS then MAX_REACHED else SIGNALS_COMPLETE)), None)
  {
    ReadyNeedsAnswers(w.session);
    hide Ready, Rows, Tables, AllAnswered;
  }

  /** A generation that fails leaves everything in place to be started over. */
  lemma FailureKeepsContents(w: World, r1: Reply, r2: Reply, r3: Reply)
    requires Inv(w) && w.flight == Some(w.session) && Decide(w.session, r1, r2, r3) == Fail
    ensures Step(w, Resolved(r1, r2, r3)) == World(w.session.(generation := Failed), None)
  {
    hide Decide, Tables, AllAnswered;
  }

  /** When the provider says that the questionnaire is complete and the gate is open, the session is ready for the provider's reason. */
  lemma ProviderReason(w: World, r1: Reply, r2: Reply, r3: Reply)
    requires Inv(w) && w.flight == Some(w.session) && |w.session.answers| >= MIN_QUESTIONS && !ReadyAsStored(w.session)
    requires |w.session.answers| <= MAX_QUESTIONS && r1.Decision? && r1.complete
    requires Ready(Rows(w.session.questions, w.session.answers), Record(map[], r1.signals), |w.session.answers|)
    ensures CallsMade(w.session, r1, r2, r3) == 1
    ensures Step(w, Resolved(r1, r2, r3)).session == w.session.(status := ReadyToComplete, generation := Idle, reason := r1.reason)
  {
    CountsAgree(w.session);
    hide Ready, Rows, Tables, AllAnswered, Record, AsksAgain, DecideQuestion;
  }

  /** A skip keeps everything that was asked and answered. */
  lemma SkipKeepsContents(s: Session)
    requires s.status != Completed
    ensures var t := Skip(s);
      && t.status == Skipped && t.generation == Idle && t.reason == Some(USER_SKIPPED)
      && t.questions == s.questions && t.answers == s.answers && t.destination == s.destination && t.nextId == s.nextId
  {
  }
}
