/**
 A run from a new session into the dead end of declared readiness: five answers,
 then a reply whose inferred signals open the gate and are not stored.
 */
module OnboardingDeadEnd {
  import opened Common
  import opened OnboardingTypes
  import opened OnboardingReadiness
  import opened OnboardingProtocol
  import opened OnboardingSafety
  import opened OnboardingTheorems
  import opened OnboardingCompletion

  function TopicAt(i: nat): CanonicalTopic
    requires 0 < i < 6
  {
    if i == 1 then TravelGroup else if i == 2 then PriceValue else if i == 3 then TravelPace else if i == 4 then FoodPreference else BeachActivity
  }

  function PromptAt(i: nat): string
    requires 0 < i < 6
  {
    if i == 1 then "b" else if i == 2 then "c" else if i == 3 then "d" else if i == 4 then "e" else "f"
  }

  function ProposalAt(i: nat): Proposal
    requires 0 < i < 6
  {
    Proposal(PromptAt(i), TopicAt(i), Standard, DETAIL, FreeText)
  }

  /** A question has at least one dimension. */
  const DETAIL := {OtherDimension("detail")}

  function Asked(n: nat): seq<Question>
    requires 0 < n <= 6
    ensures |Asked(n)| == n
  {
    if n == 1 then
      [Question(0, 1, LOCATION_PROMPT, Key(AdaptiveLocation), true, Standard, {OtherDimension("location")}, FreeText)]
    else
      Asked(n - 1) + [Question(n - 1, n, PromptAt(n - 1), Key(TopicAt(n - 1)), false, Standard, DETAIL, FreeText)]
  }

  const SOLO := Text("solo", Solo)
  const SOLO_ANSWER := Answer(Missing, One(Str(SOLO)), "")

  function Given(n: nat): map<nat, Answer> {
    if n == 0 then map[] else Given(n - 1)[n - 1 := SOLO_ANSWER]
  }

  lemma {:induction false} GivenAt(n: nat)
    ensures |Given(n)| == n
    ensures forall id :: id in Given(n) <==> 0 <= id < n
    ensures forall id :: id in Given(n) ==> Given(n)[id] == SOLO_ANSWER
  {
    if n > 0 {
      GivenAt(n - 1);
    }
  }

  /** `n` questions asked and all but the last answered. */
  function Waiting(n: nat): World
    requires 0 < n <= 6
  {
    World(Session(InProgress, Idle, None, Asked(n), Given(n - 1), map[], if n == 1 then None else Some(SOLO), n), None)
  }

  /** The last of `n` questions has just been answered. */
  function Answering(n: nat): World
    requires 0 < n <= 6
  {
    var s := Session(InProgress, Generating, None, Asked(n), Given(n), map[], Some(SOLO), n);
    World(s, Some(s))
  }

  lemma {:induction false} AskedAt(n: nat, i: nat)
    requires i < n <= 6
    ensures Asked(n)[i].id == i && Asked(n)[i].position == i + 1 && Asked(n)[i].control == FreeText
    ensures Asked(n)[i].locationCode <==> i == 0
    ensures Asked(n)[i].kind == Standard
    ensures Asked(n)[i].key == if i == 0 then Key(AdaptiveLocation) else Key(TopicAt(i))
    ensures Asked(n)[i].prompt == if i == 0 then LOCATION_PROMPT else PromptAt(i)
  {
    if i < n - 1 {
      AskedAt(n - 1, i);
    }
  }

  lemma AllAskedAt(n: nat)
    requires 0 < n <= 6
    ensures Numbered(Asked(n), n)
    ensures forall i :: 0 <= i < n ==> Asked(n)[i].id == i && Asked(n)[i].control == FreeText
  {
    forall i | 0 <= i < n
      ensures Asked(n)[i].id == i && Asked(n)[i].position == i + 1 && Asked(n)[i].control == FreeText
    {
      AskedAt(n, i);
    }
  }

  lemma SoloIsValid()
    ensures ValidAnswer(FreeText, SOLO_ANSWER)
  {
    assert !Space('s') && !Space('o');
    assert Strip("solo") == "solo";
  }

  /** A first answer to a free question is stored and opens a generation. */
  lemma FirstAnswerIsTaken(s: Session, q: Question, a: Answer)
    requires s.status == InProgress && s.generation == Idle
    requires Find(s.questions, q.id) == Some(q) && q.id !in s.answers && ValidAnswer(q.control, a)
    ensures Submit(s, q.id, a) == Accepted(s.(
      answers := s.answers[q.id := a], destination := if q.locationCode then FieldText(a.value) else s.destination, generation := Generating))
  {
    hide Find, ValidAnswer, DeleteAfter;
  }

  lemma LastAsked(n: nat)
    requires 0 < n <= 6
    ensures var q := Asked(n)[n - 1];
      Find(Asked(n), n - 1) == Some(q) && q.id == n - 1 && q.control == FreeText && (q.locationCode <==> n == 1)
  {
    hide Asked, Find, Numbered, TopicAt, PromptAt;
    AllAskedAt(n);
    AskedAt(n, n - 1);
    FindIsUnique(Asked(n), n, n - 1);
  }

  lemma AnswerStep(n: nat)
    requires 0 < n <= 6
    ensures Step(Waiting(n), Submitted(n - 1, SOLO_ANSWER)) == Answering(n)
  {
    assert Given(n) == Given(n - 1)[n - 1 := SOLO_ANSWER];
    hide Submit, ValidAnswer, Asked, Find, Given, Numbered, TopicAt, PromptAt;
    LastAsked(n);
    assert ValidAnswer(FreeText, SOLO_ANSWER) by { SoloIsValid(); }
    assert n - 1 !in Given(n - 1) by { GivenAt(n - 1); }
    FirstAnswerIsTaken(Waiting(n).session, Asked(n)[n - 1], SOLO_ANSWER);
  }

  lemma NormalPrompts(i: nat)
    requires 0 < i < 6
    ensures Normal(PromptAt(i)) == PromptAt(i)
    ensures Normal(PromptAt(i)) != Normal(LOCATION_PROMPT)
  {
    assert Strip(PromptAt(i)) == PromptAt(i);
    assert Strip(LOCATION_PROMPT) == LOCATION_PROMPT by {
      assert !Space(LOCATION_PROMPT[0]) && !Space(LOCATION_PROMPT[|LOCATION_PROMPT| - 1]);
    }
  }

  lemma PromptsDiffer(i: nat, n: nat)
    requires 0 < i < n < 6
    ensures PromptAt(i) != PromptAt(n) && TopicAt(i) != TopicAt(n)
  {
  }

  lemma NextPromptIsNew(n: nat)
    requires 0 < n < 6
    ensures forall q :: q in Asked(n) ==> q.prompt != PromptAt(n) && Normal(q.prompt) != Normal(PromptAt(n))
  {
    hide Normal, Asked, PromptAt, TopicAt;
    NormalPrompts(n);
    forall i | 0 <= i < n
      ensures Asked(n)[i].prompt != PromptAt(n) && Normal(Asked(n)[i].prompt) != Normal(PromptAt(n))
    {
      AskedAt(n, i);
      if i > 0 {
        NormalPrompts(i);
        PromptsDiffer(i, n);
      }
    }
  }

  lemma RowsAsked(n: nat)
    requires 0 < n <= 6
    ensures var rows := Rows(Asked(n), Given(n));
      |rows| == n && forall i :: 0 <= i < n ==>
        && rows[i].question.locationCode == (i == 0)
        && rows[i].answer == SOLO_ANSWER
        && KeyOf(rows[i]) == Some(if i == 0 then AdaptiveLocation else TopicAt(i))
  {
    hide Asked, Rows;
    AllAskedAt(n);
    GivenAt(n);
    forall i | 0 <= i < n ensures Answered(Asked(n), Given(n), i) {
    }
    AllHaveRows(Asked(n), Given(n));
    var rows := Rows(Asked(n), Given(n));
    forall i | 0 <= i < n
      ensures rows[i].question.locationCode == (i == 0) && rows[i].answer == SOLO_ANSWER
      ensures KeyOf(rows[i]) == Some(if i == 0 then AdaptiveLocation else TopicAt(i))
    {
      AskedAt(n, i);
    }
  }

  lemma NextTopicIsNew(n: nat)
    requires 0 < n < 6
    ensures TopicAt(n) !in AnsweredTopics(Rows(Asked(n), Given(n)))
    ensures TopicAt(n) != AdaptiveLocation
  {
    assert TopicAt(n) != AdaptiveLocation;
    hide KeyOf, Rows, Asked, Given, TopicAt, PromptAt, AnsweredTopics;
    var rows := Rows(Asked(n), Given(n));
    RowsAsked(n);
    forall i | 0 <= i < n ensures KeyOf(rows[i]) != Some(TopicAt(n)) {
      if i > 0 {
        PromptsDiffer(i, n);
      }
    }
    TopicIsNew(rows, TopicAt(n));
  }

  lemma TopicIsNew(rows: seq<Row>, t: Topic)
    requires forall i :: 0 <= i < |rows| ==> KeyOf(rows[i]) != Some(t)
    ensures t !in AnsweredTopics(rows)
  {
    hide KeyOf;
  }

  lemma NextIsValid(n: nat)
    requires 0 < n < 6
    ensures Validate(ProposalAt(n), Asked(n), Rows(Asked(n), Given(n))) == Valid
  {
    NormalPrompts(n);
    NextPromptIsNew(n);
    NextTopicIsNew(n);
    hide Normal, Asked, PromptAt, TopicAt, Rows, AnsweredTopics, Given;
  }

  ghost predicate Interviewed(rows: seq<Row>) {
    |rows| == 5 && forall i :: 0 <= i < 5 ==>
      rows[i].answer == SOLO_ANSWER && KeyOf(rows[i]) == Some(if i == 0 then AdaptiveLocation else TopicAt(i))
  }

  lemma RowsSilentOnDestination(rows: seq<Row>)
    requires Interviewed(rows)
    ensures forall i :: 0 <= i < 5 ==> BranchOf(rows[i]).None? && !MatchesDestination(rows[i])
  {
    hide KeyOf;
  }

  lemma OnlyGroup(rows: seq<Row>)
    requires Interviewed(rows)
    ensures Group(rows) == NoBranch
  {
    hide KeyOf;
    LastSomeExists(rows, GroupOf);
    assert GroupOf(rows[1]) == Some(SOLO);
  }

  lemma NotReadyWithoutSignals(rows: seq<Row>)
    requires Interviewed(rows)
    ensures !Ready(rows, map[], 5)
  {
    RowsSilentOnDestination(rows);
    hide BranchOf, MatchesDestination, KeyOf, Group, GroupBranchSatisfied;
    assert !BranchSelected(rows, map[]);
  }

  /** Before the last question the stored answers do not pass the gate. */
  lemma NotReadyYet(n: nat)
    requires 0 < n < 6
    ensures !Ready(Rows(Asked(n), Given(n)), map[], n)
  {
    if n == 5 {
      RowsAsked(5);
      hide Rows, Asked, Given, KeyOf, Ready;
      NotReadyWithoutSignals(Rows(Asked(5), Given(5)));
    }
  }

  function AskNext(n: nat): Event
    requires 0 < n < 6
  {
    Resolved(Decision(false, [], None, Some(ProposalAt(n))), Unavailable, Unavailable)
  }

  lemma AskDecision(n: nat)
    requires 0 < n < 6
    ensures Decide(Answering(n).session, AskNext(n).r1, Unavailable, Unavailable) == Persist(ProposalAt(n))
  {
    hide Validate, Ready, Normal, Rows, Asked, Given, TopicAt, PromptAt;
    NextIsValid(n);
    GivenAt(n);
    NotReadyYet(n);
    RowsAsked(n);
    assert Record(map[], []) == map[];
  }

  lemma AskedNext(n: nat)
    requires 0 < n < 6
    ensures Asked(n + 1) == Asked(n) + [Question(n, n + 1, PromptAt(n), Key(TopicAt(n)), TopicAt(n) == AdaptiveLocation, Standard, DETAIL, FreeText)]
  {
    assert TopicAt(n) != AdaptiveLocation;
  }

  lemma PersistNext(n: nat)
    requires 0 < n < 6
    ensures PersistNextQuestion(Answering(n).session, ProposalAt(n)) == Waiting(n + 1).session
  {
    hide Normal, Given, PromptAt, TopicAt, MaxPosition, Asked;
    NextPromptIsNew(n);
    AllAskedAt(n);
    MaxPositionIsLength(Asked(n));
    AskedNext(n);
  }

  lemma AskStep(n: nat)
    requires 0 < n < 6
    ensures Step(Answering(n), AskNext(n)) == Waiting(n + 1)
  {
    hide Decide, PersistNextQuestion, Asked, Given, ProposalAt;
    AskDecision(n);
    PersistNext(n);
  }

  /** The events that ask and answer `n` questions. */
  function Interview(n: nat): seq<Event>
    requires 0 < n <= 6
  {
    if n == 1 then [Started, Submitted(0, SOLO_ANSWER)]
    else Interview(n - 1) + [AskNext(n - 1)] + [Submitted(n - 1, SOLO_ANSWER)]
  }

  lemma {:induction false} RunSnoc(w: World, events: seq<Event>, e: Event)
    ensures Run(w, events + [e]) == Step(Run(w, events), e)
  {
    assert (events + [e])[..|events|] == events;
  }

  lemma {:induction false} InterviewRuns(n: nat)
    requires 0 < n <= 6
    ensures Run(Initial, Interview(n)) == Answering(n)
  {
    hide Step;
    AnswerStep(n);
    if n == 1 {
      assert Step(Initial, Started) == Waiting(1) by { FirstStep(); }
      RunSnoc(Initial, [], Started);
      RunSnoc(Initial, [Started], Submitted(0, SOLO_ANSWER));
      assert [] + [Started] == [Started];
      assert [Started] + [Submitted(0, SOLO_ANSWER)] == Interview(1);
    } else {
      InterviewRuns(n - 1);
      AskStep(n - 1);
      RunSnoc(Initial, Interview(n - 1), AskNext(n - 1));
      RunSnoc(Initial, Interview(n - 1) + [AskNext(n - 1)], Submitted(n - 1, SOLO_ANSWER));
    }
  }

  lemma FirstStep()
    ensures Step(Initial, Started) == Waiting(1)
  {
    assert Given(0) == map[];
  }

  const SURE := Signal(Text("beach", Beach), 0.9)

  /** A reply that declares completion and reports two confident routing signals. */
  const CONFIDENT := Decision(true, [(DestinationBranch, SURE), (DestinationDetail, SURE)], Some("done"), None)

  lemma ConfidentSignals()
    ensures Record(map[], CONFIDENT.signals) == map[DestinationBranch := SURE, DestinationDetail := SURE]
  {
    var signals := CONFIDENT.signals;
    assert signals[..1] == [signals[0]] && signals[..1][..0] == [];
    assert Record(map[], signals[..1]) == map[DestinationBranch := SURE];
  }

  lemma ReadyWithSignals(rows: seq<Row>)
    requires Interviewed(rows) && rows[0].question.locationCode
    ensures Ready(rows, Record(map[], CONFIDENT.signals), 5)
  {
    hide BranchOf, MatchesDestination, KeyOf, Group, GroupBranchSatisfied;
    OnlyGroup(rows);
    ConfidentSignals();
    var inferred := Record(map[], CONFIDENT.signals);
    assert UsableSignal(inferred, DestinationDetail) && DestinationDetail.MatchesDestination();
    assert UsableSignal(inferred, DestinationBranch) && CanonicalBranch(SURE.value.word).Some?;
    forall t: Topic | Core(t) ensures TopicAnswered(rows, t) {
      assert Covers(rows[if t == PriceValue then 2 else if t == TravelPace then 3 else 4], t);
    }
  }

  lemma ConfidentReplyFinishes()
    ensures Decide(Answering(5).session, CONFIDENT, Unavailable, Unavailable) == Finish(Some("done"))
    ensures !ReadyAsStored(Answering(5).session)
  {
    GivenAt(5);
    RowsAsked(5);
    hide Ready, Rows, Asked, Given, KeyOf;
    NotReadyWithoutSignals(Rows(Asked(5), Given(5)));
    ReadyWithSignals(Rows(Asked(5), Given(5)));
  }

  /**
   There is a run that declares the questionnaire ready, after which every
   answer and every completion request is refused.
   */
  lemma DeadEndIsReachable() returns (events: seq<Event>)
    ensures var s := Run(Initial, events).session;
      s.status == ReadyToComplete && !CompletionAccepted(s) && forall id, a :: Submit(s, id, a) == Refused
  {
    hide Ready, Rows, Asked, Given, KeyOf, Decide, Run;
    var e := Resolved(CONFIDENT, Unavailable, Unavailable);
    events := Interview(5) + [e];
    InterviewRuns(5);
    RunSnoc(Initial, Interview(5), e);
    ConfidentReplyFinishes();
  }

  // ----- workers that die

  function Calls(events: seq<Event>): (calls: seq<Call>)
    ensures |calls| == |events|
  {
    seq(|events|, i requires 0 <= i < |events| => Taken(events[i]))
  }

  lemma {:induction false} CallsAreTheRun(w: World, events: seq<Event>)
    ensures RespondAll(w, Calls(events)) == Run(w, events)
  {
    if events != [] {
      var front := events[..|events| - 1];
      CallsAreTheRun(w, front);
      assert Calls(events)[..|front|] == Calls(front);
    }
  }

  /** One answer and a worker that dies while it generates: no call but a skip moves the session any more. */
  lemma AbandonedGenerationIsReachable()
    ensures var w := RespondAll(Initial, Calls([Started, Submitted(0, SOLO_ANSWER), Abandoned]));
      w.session.generation == Generating && |w.session.answers| == 1 && Stuck(w)
  {
    hide Step, Ready, Stuck, CallInv, Asked, Given;
    var events := [Started, Submitted(0, SOLO_ANSWER)];
    var all := events + [Abandoned];
    assert all == [Started, Submitted(0, SOLO_ANSWER), Abandoned];
    InterviewRuns(1);
    RunSnoc(Initial, events, Abandoned);
    CallsAreTheRun(Initial, all);
    InitialIsKept();
    CallsKeep(Initial, Calls(all));
    GivenAt(1);
    NotReadyYet(1);
    AbandonStep(Answering(1));
    AbandonedGenerationIsStuckIff(World(Answering(1).session, None));
  }

  lemma AbandonStep(w: World)
    ensures Step(w, Abandoned) == World(w.session, None)
  {
  }

  /** The sixth answer is about the beach, whatever it says, and completes the questionnaire without a signal. */
  lemma ReadyAfterSix(rows: seq<Row>)
    requires |rows| == 6 && rows[0].question.locationCode
    requires forall i :: 0 <= i < 6 ==>
      rows[i].answer == SOLO_ANSWER && KeyOf(rows[i]) == Some(if i == 0 then AdaptiveLocation else TopicAt(i))
    ensures Ready(rows, map[], 6)
  {
    hide KeyOf;
    assert BranchOf(rows[5]) == Some(BeachCoast) && MatchesDestination(rows[5]);
    LastSomeExists(rows, GroupOf);
    assert GroupOf(rows[1]) == Some(SOLO);
    hide BranchOf, MatchesDestination;
    forall t: Topic | Core(t) ensures TopicAnswered(rows, t) {
      assert Covers(rows[if t == PriceValue then 2 else if t == TravelPace then 3 else 4], t);
    }
  }

  /** Six answers, a finished questionnaire, and a worker that dies while it completes: no call but a skip moves the session. */
  lemma AbandonedCompletionIsReachable() returns (events: seq<Event>)
    ensures var w := RespondAll(Initial, Calls(events) + [CompletionRequested(WorkerDied)]);
      && w.session.status == ReadyToComplete && w.session.generation == ProfileGenerating
      && ReadyAsStored(w.session) && Stuck(w)
  {
    hide Step, Ready, Stuck, CallInv, Asked, Given, Interview, Rows, Complete, Touched, AnswersValid, RespondAll;
    var e := Resolved(Unavailable, Unavailable, Unavailable);
    events := Interview(6) + [e];
    InterviewRuns(6);
    RunSnoc(Initial, Interview(6), e);
    CallsAreTheRun(Initial, events);
    InitialIsKept();
    CallsKeep(Initial, Calls(events));
    SixSuffice();
    var finished := Run(Initial, events);
    var all := Calls(events) + [CompletionRequested(WorkerDied)];
    CallsKeep(Initial, all);
    OneMoreCall(Initial, Calls(events), CompletionRequested(WorkerDied));
    AcceptedDies(finished);
    AbandonedCompletionIsStuckIff(RespondAll(Initial, all));
  }

  lemma OneMoreCall(w: World, calls: seq<Call>, c: Call)
    ensures RespondAll(w, calls + [c]) == Respond(RespondAll(w, calls), c)
  {
    assert (calls + [c])[..|calls|] == calls;
  }

  /** After six answers the generation finishes without asking the provider. */
  lemma SixSuffice()
    ensures Step(Answering(6), Resolved(Unavailable, Unavailable, Unavailable)) ==
      World(Answering(6).session.(status := ReadyToComplete, generation := Idle, reason := Some(SIGNALS_COMPLETE)), None)
    ensures ReadyAsStored(Answering(6).session)
  {
    hide Ready, Rows, Asked, Given, KeyOf, TopicAt, DecideQuestion, Record;
    GivenAt(6);
    RowsAsked(6);
    ReadyAfterSix(Rows(Asked(6), Given(6)));
    ReadyFinishes(Answering(6), Resolved(Unavailable, Unavailable, Unavailable));
  }

  /** Stored answers that pass the gate finish a generation before its first call. */
  lemma ReadyFinishes(w: World, e: Event)
    requires w.flight == Some(w.session) && w.session.status == InProgress && w.session.inferred == map[] && e.Resolved?
    requires MIN_QUESTIONS <= |w.session.answers| <= MAX_QUESTIONS && ReadyAsStored(w.session)
    ensures Step(w, e) == World(w.session.(status := ReadyToComplete, generation := Idle, reason := Some(SIGNALS_COMPLETE)), None)
  {
    hide Ready, Rows, DecideQuestion, Record;
  }

  lemma AcceptedDies(w: World)
    requires CallInv(w) && w.flight.None? && w.session.status == ReadyToComplete && w.session.generation == Idle
    requires ReadyAsStored(w.session)
    ensures Respond(w, CompletionRequested(WorkerDied)) == w.(session := w.session.(generation := ProfileGenerating))
  {
    AcceptedIff(w);
    hide CompletionAccepted, Touched, AnswersValid, FlightInv, Ready;
  }
}
