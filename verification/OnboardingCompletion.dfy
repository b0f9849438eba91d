/**
 Completion requests beside the questionnaire. A request first marks the session
 and then stores the profile, fails, or dies in between; which sessions it accepts,
 what it leaves behind, and which sessions only a skip can move.
 */
module OnboardingCompletion {
  import opened Common
  import opened OnboardingTypes
  import opened OnboardingReadiness
  import opened OnboardingProtocol
  import opened OnboardingSafety
  import opened OnboardingTheorems

  const PROFILE_GENERATED := "DETERMINISTIC_PROFILE_GENERATED"

  /** How the work of an accepted request ends. */
  datatype Ending = Built | NotBuilt | WorkerDied

  /** Whether a completion request passes its checks. */
  ghost predicate CompletionAccepted(s: Session) {
    && s.status != Skipped && s.status != Completed
    && s.generation != ProfileGenerating
    && (|s.answers| >= MIN_QUESTIONS || s.status == ReadyToComplete)
    && Ready(Rows(s.questions, s.answers), s.inferred, |s.answers|)
  }

  /** The first transaction of an accepted request. */
  function BeginCompletion(s: Session): Session {
    s.(generation := ProfileGenerating)
  }

  /** The second one, if there is one. */
  function EndCompletion(s: Session, ending: Ending): Session {
    match ending
    case Built =>
      s.(status := Completed, generation := Idle,
         reason := if s.reason.Some? && s.reason.value != "" then s.reason else Some(PROFILE_GENERATED))
    case NotBuilt => MarkGenerationFailed(s)
    case WorkerDied => s
  }

  /** A completion request with nothing else under way. */
  ghost function Complete(s: Session, ending: Ending): Session {
    if CompletionAccepted(s) then EndCompletion(BeginCompletion(s), ending) else s
  }

  /** A call is one of the protocol's steps, or a completion request. */
  datatype Call = Taken(event: Event) | CompletionRequested(ending: Ending)

  /** Completion requests beside a generation in flight are left out. */
  ghost function Respond(w: World, c: Call): World {
    match c
    case Taken(e) => Step(w, e)
    case CompletionRequested(ending) => if w.flight.Some? then w else w.(session := Complete(w.session, ending))
  }

  ghost function RespondAll(w: World, calls: seq<Call>): World {
    if calls == [] then w else Respond(RespondAll(w, calls[..|calls| - 1]), calls[|calls| - 1])
  }

  // ----- what every call keeps

  /** The answers are valid for their questions, the first of which is free. */
  predicate AnswersValid(s: Session) {
    && (s.questions != [] ==> s.questions[0].control == FreeText)
    && forall i :: 0 <= i < |s.questions| && s.questions[i].id in s.answers ==>
         ValidAnswer(s.questions[i].control, s.answers[s.questions[i].id])
  }

  /** Sessions that completion requests may have touched: only a session that is asked a question has one open. */
  ghost predicate Touched(s: Session) {
    && Tables(s.questions, s.answers, s.nextId) && s.inferred == map[] && |s.questions| <= MAX_QUESTIONS + 1
    && (s.status == InProgress && s.generation == Idle ==> SessionInv(s))
    && (s.status != Skipped && (s.status != InProgress || s.generation != Idle) ==>
          s.questions != [] && AllAnswered(s.questions, s.answers))
    && (s.status == Skipped || s.status == Completed ==> s.generation == Idle)
    && (s.status == ReadyToComplete ==> s.generation != Generating)
  }

  ghost predicate CallInv(w: World) {
    Touched(w.session) && AnswersValid(w.session) && FlightInv(w)
  }

  lemma KeptIsTouched(s: Session)
    requires SessionInv(s)
    ensures Touched(s)
  {
    hide Normal, Tables, AllAnswered;
  }

  lemma SubmitKeepsCalls(s: Session, id: nat, a: Answer)
    requires Touched(s) && AnswersValid(s) && Submit(s, id, a).Accepted?
    ensures var t := Submit(s, id, a).session;
      SessionInv(t) && AnswersValid(t) && t.generation == Generating && t.status == InProgress
  {
    hide Normal, ValidAnswer, Find, Ready, Numbered, Fresh, Paired, AllAnswered;
    var asked := if s.generation == Idle then s else s.(generation := Failed);
    assert Submit(asked, id, a) == Submit(s, id, a);
    var k := SubmitContents(asked, id, a);
    var t := Submit(s, id, a).session;
    IdsDiffer(s.questions, s.nextId, k);
    forall i | 0 <= i < |t.questions| && t.questions[i].id in t.answers
      ensures ValidAnswer(t.questions[i].control, t.answers[t.questions[i].id])
    {
      assert t.questions[i] == s.questions[i];
    }
  }

  lemma IdsDiffer(questions: seq<Question>, nextId: nat, k: nat)
    requires Numbered(questions, nextId) && k < |questions|
    ensures forall i :: 0 <= i < |questions| && i != k ==> questions[i].id != questions[k].id
  {
  }

  lemma CommitKeepsAnswers(s: Session, r1: Reply, r2: Reply, r3: Reply)
    requires SessionInv(s) && s.status == InProgress && s.generation == Generating && AnswersValid(s)
    ensures AnswersValid(Commit(s, Decide(s, r1, r2, r3)))
  {
    hide Normal, Validate, Ready, Decide, PersistNextQuestion, Tables, AllAnswered, ValidAnswer, GateOpenAtLastCall;
    DecideIsGated(s, r1, r2, r3);
    var o := Decide(s, r1, r2, r3);
    if o.Persist? {
      PersistAppends(s, o.question);
      hide ReadyAsStored, Rows;
      var t := PersistNextQuestion(s, o.question);
      assert t.questions[|s.questions|].id !in t.answers;
      assert forall i :: 0 <= i < |s.questions| ==> t.questions[i] == s.questions[i];
    }
  }

  lemma CompletionKeeps(s: Session, ending: Ending)
    requires Touched(s) && AnswersValid(s)
    ensures Touched(Complete(s, ending)) && AnswersValid(Complete(s, ending))
  {
    hide Normal, Tables, AllAnswered, ValidAnswer, Ready;
  }

  lemma StepKeepsCalls(w: World, e: Event)
    requires CallInv(w)
    ensures CallInv(Step(w, e))
  {
    hide Normal, Ready, Decide, Commit, Tables, AllAnswered, ValidAnswer, Submit;
    match e
    case Started =>
      if Step(w, e) != w {
        GenerateFirstKeeps(w.session);
        KeptIsTouched(GenerateFirst(w.session));
        NothingAnswered(w.session);
      }
    case Submitted(id, a) =>
      if Submit(w.session, id, a).Accepted? {
        SubmitKeepsCalls(w.session, id, a);
        KeptIsTouched(Submit(w.session, id, a).session);
      }
    case Resolved(r1, r2, r3) =>
      if w.flight.Some? {
        var s := w.flight.value;
        if w.session == s {
          CommitKeeps(s, r1, r2, r3);
          KeptIsTouched(Commit(s, Decide(s, r1, r2, r3)));
          CommitKeepsAnswers(s, r1, r2, r3);
        } else {
          SkippedIgnoresCommit(w.session, Decide(s, r1, r2, r3));
        }
      }
    case Abandoned =>
    case UserSkipped =>
  }

  lemma NothingAnswered(s: Session)
    requires Tables(s.questions, s.answers, s.nextId) && s.questions == []
    ensures AnswersValid(GenerateFirst(s))
  {
    hide Normal, ValidAnswer;
    assert s.answers == map[];
  }

  /** Every run of calls from a new session stays inside the invariant, whatever becomes of its completion requests. */
  lemma {:induction false} CallsKeep(w: World, calls: seq<Call>)
    requires CallInv(w)
    ensures CallInv(RespondAll(w, calls))
  {
    hide Touched, AnswersValid, FlightInv, Step, Complete;
    if calls != [] {
      var last := calls[|calls| - 1];
      CallsKeep(w, calls[..|calls| - 1]);
      var before := RespondAll(w, calls[..|calls| - 1]);
      if last.Taken? {
        StepKeepsCalls(before, last.event);
      } else if before.flight.None? {
        CompletionKeeps(before.session, last.ending);
        NoFlight(before.(session := Complete(before.session, last.ending)));
      }
    }
  }

  lemma NoFlight(w: World)
    requires w.flight.None?
    ensures FlightInv(w)
  {
  }

  lemma InitialIsKept()
    ensures CallInv(Initial)
  {
    InitialIsSafe();
    KeptIsTouched(NewSession());
  }

  // ----- which requests complete a session

  /** A request is accepted exactly for an unfinished session that is not being completed and whose stored answers pass the gate. */
  lemma AcceptedIff(w: World)
    requires CallInv(w)
    ensures CompletionAccepted(w.session) <==>
      && (w.session.status == InProgress || w.session.status == ReadyToComplete)
      && w.session.generation != ProfileGenerating && ReadyAsStored(w.session)
  {
    hide Normal, Tables, AllAnswered;
    ReadyNeedsAnswers(w.session);
    hide Ready;
  }

  /**
   With nothing else under way a session is completed exactly when it is not
   being completed already and its stored answers pass the gate. That it was
   declared ready is neither needed nor enough, because the signals that may have
   opened the gate are not stored.
   */
  lemma CompletesIffReadyAsStored(w: World, ending: Ending)
    requires CallInv(w) && w.flight.None? && w.session.status != Completed
    ensures var s := w.session; var after := Complete(s, ending);
      && (after.status == Completed <==>
            ending == Built && s.status != Skipped && s.generation != ProfileGenerating && ReadyAsStored(s))
      && (after.status == Completed ==> s.status == ReadyToComplete || s.generation == Generating || s.generation == Failed)
      && after.questions == s.questions && after.answers == s.answers
  {
    AcceptedIff(w);
    hide Normal, Tables, AllAnswered, Ready, CompletionAccepted;
  }

  /** A completed session keeps the reason its questionnaire ended with, or names the profile if there is none. */
  lemma CompletedKeepsReason(w: World)
    requires CallInv(w) && w.flight.None? && CompletionAccepted(w.session)
    ensures var s := w.session; var after := Complete(s, Built);
      && after.generation == Idle && after.destination == s.destination && after.nextId == s.nextId
      && (s.reason.Some? && s.reason.value != "" ==> after.reason == s.reason)
      && (s.reason.None? || s.reason.value == "" ==> after.reason == Some(PROFILE_GENERATED))
  {
    hide CompletionAccepted;
  }

  /** A completion that fails can be tried again, and then completes the session. */
  lemma FailedCompletionCanBeRetried(w: World)
    requires CallInv(w) && w.flight.None? && CompletionAccepted(w.session)
    ensures var failed := Complete(w.session, NotBuilt);
      failed == w.session.(generation := Failed) && CompletionAccepted(failed) && Complete(failed, Built).status == Completed
  {
    hide Ready, Rows;
  }

  // ----- which sessions are stuck

  predicate NoSkip(calls: seq<Call>) {
    forall i :: 0 <= i < |calls| ==> calls[i] != Taken(UserSkipped)
  }

  /** No sequence of calls without a skip moves the session. */
  ghost predicate Stuck(w: World) {
    forall calls :: NoSkip(calls) ==> RespondAll(w, calls) == w
  }

  /** What a stuck session looks like: finished, declared ready in vain, or abandoned by the worker it waits for. */
  ghost predicate Blocked(s: Session) {
    match s.status
    case Skipped | Completed => true
    case ReadyToComplete => s.generation == ProfileGenerating || !ReadyAsStored(s)
    case InProgress => s.generation == Generating && !ReadyAsStored(s)
  }

  lemma BlockedCallIsRefused(w: World, c: Call)
    requires CallInv(w) && w.flight.None? && Blocked(w.session) && c != Taken(UserSkipped)
    ensures Respond(w, c) == w
  {
    AcceptedIff(w);
    hide Normal, Tables, AllAnswered, Ready, Decide, ReadyAsStored, CompletionAccepted;
  }

  lemma {:induction false} BlockedStays(w: World, calls: seq<Call>)
    requires CallInv(w) && w.flight.None? && Blocked(w.session) && NoSkip(calls)
    ensures RespondAll(w, calls) == w
  {
    hide CallInv, Blocked, Respond;
    if calls != [] {
      BlockedStays(w, calls[..|calls| - 1]);
      BlockedCallIsRefused(w, calls[|calls| - 1]);
    }
  }

  /** The same answer with another key that is never read. */
  function Varied(a: Answer): Answer {
    a.(extra := a.extra + "x")
  }

  lemma VariedIsValid(control: Control, a: Answer)
    ensures ValidAnswer(control, Varied(a)) <==> ValidAnswer(control, a)
    ensures Varied(a) != a
  {
    assert |Varied(a).extra| != |a.extra|;
  }

  const HERE := Answer(Missing, One(Str(Text("x", Plain("x")))), "")

  lemma HereIsValid()
    ensures ValidAnswer(FreeText, HERE)
  {
    assert !Space('x');
    assert Strip("x") == "x";
  }

  /** While a session waits for answers, its first question can be answered, or answered anew. */
  lemma FirstQuestionTakesAnAnswer(s: Session) returns (id: nat, a: Answer)
    requires Touched(s) && AnswersValid(s) && s.status == InProgress && s.generation != Generating && s.questions != []
    ensures Submit(s, id, a).Accepted?
  {
    hide Normal, ValidAnswer, Find, Fresh, Paired, AllAnswered, Ready, DeleteAfter;
    var q := s.questions[0];
    FindIsUnique(s.questions, s.nextId, 0);
    HereIsValid();
    id := q.id;
    if id in s.answers {
      VariedIsValid(q.control, s.answers[id]);
      a := Varied(s.answers[id]);
    } else {
      a := HERE;
    }
  }

  /** A call that moves a session that is not blocked. */
  lemma UnblockedMoves(w: World) returns (c: Call)
    requires CallInv(w) && w.flight.None? && !Blocked(w.session)
    ensures c != Taken(UserSkipped) && Respond(w, c) != w
  {
    AcceptedIff(w);
    hide Normal, Tables, AllAnswered, Ready, Submit, ReadyAsStored, CompletionAccepted, AnswersValid;
    var s := w.session;
    if s.status == ReadyToComplete || s.generation == Generating {
      c := CompletionRequested(Built);
    } else if s.questions == [] {
      c := Taken(Started);
    } else {
      var id, a := FirstQuestionTakesAnAnswer(s);
      c := Taken(Submitted(id, a));
      AcceptedGenerates(s, id, a);
    }
  }

  lemma AcceptedGenerates(s: Session, id: nat, a: Answer)
    requires Submit(s, id, a).Accepted?
    ensures s.generation != Generating && Submit(s, id, a).session.generation == Generating
  {
    hide Find, ValidAnswer, DeleteAfter;
  }

  /**
   Of the sessions nothing is under way for, no call but a skip moves exactly
   these: finished ones, those declared ready that are left in profile generation
   or whose stored answers fail the gate, and those a generation was abandoned in
   whose stored answers fail the gate.
   */
  lemma StuckIff(w: World)
    requires CallInv(w) && w.flight.None?
    ensures Stuck(w) <==> Blocked(w.session)
  {
    hide CallInv, Blocked, Respond;
    if Blocked(w.session) {
      forall calls | NoSkip(calls) ensures RespondAll(w, calls) == w {
        BlockedStays(w, calls);
      }
    } else {
      var c := UnblockedMoves(w);
      assert [c][..0] == [];
      assert NoSkip([c]) && RespondAll(w, [c]) == Respond(w, c);
    }
  }

  /**
   A completion whose worker is gone leaves a session that was declared ready to
   a skip alone; a session still in progress takes a changed answer again.
   */
  lemma AbandonedCompletionIsStuckIff(w: World)
    requires CallInv(w) && w.flight.None? && w.session.generation == ProfileGenerating
    ensures Stuck(w) <==> w.session.status == ReadyToComplete
    ensures Respond(w, Taken(UserSkipped)).session.status == Skipped
  {
    StuckIff(w);
    hide Stuck, Tables, AllAnswered, AnswersValid, ReadyAsStored;
  }

  /**
   A generation whose worker is gone leaves a session that no call but a skip can
   move, exactly when its stored answers do not pass the gate; if they do, a
   completion request completes it.
   */
  lemma AbandonedGenerationIsStuckIff(w: World)
    requires CallInv(w) && w.flight.None? && w.session.generation == Generating
    ensures Stuck(w) <==> !ReadyAsStored(w.session)
    ensures ReadyAsStored(w.session) ==> Respond(w, CompletionRequested(Built)).session.status == Completed
  {
    StuckIff(w);
    CompletesIffReadyAsStored(w, Built);
    hide Stuck, Tables, AllAnswered, AnswersValid, ReadyAsStored, Complete;
  }

  /** Declared ready on signals that are not stored, a session refuses every answer and every completion. */
  lemma {:induction false} UnstoredSignalsDeadEnd(w: World, events: seq<Event>)
    requires Inv(w) && w.session.status == ReadyToComplete && !ReadyAsStored(w.session)
    requires UserSkipped !in events
    ensures var s := Run(w, events).session;
      s == w.session && !CompletionAccepted(s) && forall id, a :: Submit(s, id, a) == Refused
  {
    hide Decide, Ready, Normal, Tables;
    if events != [] {
      UnstoredSignalsDeadEnd(w, events[..|events| - 1]);
      RunKeeps(w, events[..|events| - 1]);
    }
  }
}
