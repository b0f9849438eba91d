/**
 The adaptive questionnaire as a transition system. One step is one committed
 transaction, and the provider and the clients may act in any order: an answer
 opens a generation, which ends in a later step or never, and a skip may commit
 in between.
 */
module OnboardingProtocol {
  import opened Common
  import opened OnboardingTypes
  import opened OnboardingReadiness

  datatype Status = InProgress | ReadyToComplete | Completed | Skipped

  datatype Generation = Idle | Generating | Failed | ProfileGenerating

  /** A session row with its question and answer tables; questions are listed by position. */
  datatype Session = Session(
    status: Status, generation: Generation, reason: Option<string>,
    questions: seq<Question>, answers: map<nat, Answer>,
    inferred: Inferred, destination: Option<Text>, nextId: nat)

  const MAX_REACHED := "MAX_QUESTIONS"
  const SIGNALS_COMPLETE := "CANONICAL_SIGNALS_COMPLETE"
  const SUFFICIENT_SIGNAL := "SUFFICIENT_SIGNAL"
  const USER_SKIPPED := "USER_SKIPPED"

  function NewSession(): Session {
    Session(InProgress, Idle, None, [], map[], map[], None, 0)
  }

  // ----- repository queries

  /** The questions that have an answer, each with its answer. */
  function Rows(questions: seq<Question>, answers: map<nat, Answer>): seq<Row> {
    if questions == [] then []
    else
      var last := questions[|questions| - 1];
      Rows(questions[..|questions| - 1], answers) + if last.id in answers then [Row(last, answers[last.id])] else []
  }

  function MaxPosition(questions: seq<Question>): int {
    if questions == [] then 0
    else
      var rest := MaxPosition(questions[..|questions| - 1]);
      var last := questions[|questions| - 1].position;
      if last > rest then last else rest
  }

  function QuestionsUpTo(questions: seq<Question>, position: int): seq<Question> {
    if questions == [] then []
    else
      var last := questions[|questions| - 1];
      QuestionsUpTo(questions[..|questions| - 1], position) + if last.position <= position then [last] else []
  }

  function QuestionsAfter(questions: seq<Question>, position: int): seq<Question> {
    if questions == [] then []
    else
      var last := questions[|questions| - 1];
      QuestionsAfter(questions[..|questions| - 1], position) + if last.position > position then [last] else []
  }

  function Ids(questions: seq<Question>): set<nat> {
    if questions == [] then {}
    else Ids(questions[..|questions| - 1]) + {questions[|questions| - 1].id}
  }

  function Find(questions: seq<Question>, id: nat): Option<Question> {
    LastSome(questions, (q: Question) => if q.id == id then Some(q) else None)
  }

  /** The deletion an edited answer causes: later questions go, and their answers with them. */
  function DeleteAfter(s: Session, position: int): Session {
    s.(questions := QuestionsUpTo(s.questions, position),
       answers := s.answers - Ids(QuestionsAfter(s.questions, position)))
  }

  function AddQuestion(s: Session, p: Proposal, position: int): Session {
    var q := Question(s.nextId, position, p.prompt, Key(p.key), p.key == AdaptiveLocation, p.kind, p.dimensions, p.control);
    s.(questions := s.questions + [q], nextId := s.nextId + 1)
  }

  // ----- transactions

  function GenerateFirst(s: Session): Session {
    (if s.questions == [] then AddQuestion(s, LocationProposal(), 1) else s).(generation := Idle)
  }

  datatype Submission = Refused | Unchanged | Accepted(session: Session)

  function Submit(s: Session, id: nat, a: Answer): Submission {
    if s.status != InProgress || s.generation == Generating then Refused
    else
      var found := Find(s.questions, id);
      if found.None? || !ValidAnswer(found.value.control, a) then Refused
      else
        var q := found.value;
        if q.id in s.answers && s.answers[q.id] == a && s.generation != Failed then Unchanged
        else
          var edited := q.id in s.answers && s.answers[q.id] != a;
          var kept := if edited then DeleteAfter(s, q.position).(inferred := map[]) else s;
          var destination := if q.locationCode then FieldText(a.value) else kept.destination;
          Accepted(kept.(answers := kept.answers[q.id := a], destination := destination, generation := Generating))
  }

  datatype Outcome = Persist(question: Proposal) | Finish(reason: Option<string>) | Fail

  function Record(inferred: Inferred, signals: seq<(Topic, Signal)>): Inferred {
    if signals == [] then inferred
    else Record(inferred, signals[..|signals| - 1])[signals[|signals| - 1].0 := signals[|signals| - 1].1]
  }

  datatype Validation = Valid | Duplicate | ReplacesLocation

  function AnsweredTopics(rows: seq<Row>): set<Topic> {
    set r <- rows | KeyOf(r).Some? :: KeyOf(r).value
  }

  function Validate(p: Proposal, questions: seq<Question>, rows: seq<Row>): Validation {
    if p.key == AdaptiveLocation || Normal(p.prompt) == Normal(LOCATION_PROMPT) then ReplacesLocation
    else if exists q <- questions :: Normal(q.prompt) == Normal(p.prompt) then Duplicate
    else if p.key in AnsweredTopics(rows) then Duplicate
    else Valid
  }

  function Clarifications(questions: seq<Question>): nat {
    Count(questions, (q: Question) => q.kind.Clarification?)
  }

  function SignalsOf(r: Reply): seq<(Topic, Signal)> {
    if r.Unavailable? then [] else r.signals
  }

  /** What the generation opened on `s` ends with, given what the provider says on each call. */
  ghost function Decide(s: Session, r1: Reply, r2: Reply, r3: Reply): Outcome {
    var answered := |s.answers|;
    var rows := Rows(s.questions, s.answers);
    if answered > MAX_QUESTIONS then
      if Ready(rows, s.inferred, answered) then Finish(Some(MAX_REACHED)) else Fail
    else if answered >= MIN_QUESTIONS && Ready(rows, s.inferred, answered) then Finish(Some(SIGNALS_COMPLETE))
    else if r1.Unavailable? then Fail
    else
      var inferred := Record(s.inferred, r1.signals);
      if answered >= MIN_QUESTIONS && Ready(rows, inferred, |rows|) then
        Finish(if r1.complete then r1.reason else Some(SIGNALS_COMPLETE))
      else if !r1.complete then DecideQuestion(s, rows, inferred, r1.question, r2)
      else if answered < MIN_QUESTIONS || r2.Unavailable? then Fail
      else
        var corrected := Record(inferred, r2.signals);
        if !r2.complete then DecideQuestion(s, rows, corrected, r2.question, r3)
        else if !Ready(rows, corrected, |rows|) then Fail
        else Finish(if r2.reason.Some? && r2.reason.value != "" then r2.reason else Some(SUFFICIENT_SIGNAL))
  }

  /** What a proposed question leads to; `next` answers the call a duplicate causes. */
  ghost function DecideQuestion(s: Session, rows: seq<Row>, inferred: Inferred, question: Option<Proposal>, next: Reply): Outcome {
    if question.None? then Fail
    else
      var p := question.value;
      if |s.answers| >= MAX_QUESTIONS && p.kind != Clarification then Fail
      else if p.kind == Clarification && Clarifications(s.questions) >= MAX_CLARIFICATIONS then Fail
      else
        match Validate(p, s.questions, rows)
        case Valid => Persist(p)
        case ReplacesLocation => Fail
        case Duplicate => if next.Unavailable? then Fail else DecideReplacement(s, rows, Record(inferred, next.signals), next)
  }

  ghost function DecideReplacement(s: Session, rows: seq<Row>, inferred: Inferred, r: Reply): Outcome
    requires r.Decision?
  {
    if |s.answers| >= MIN_QUESTIONS && Ready(rows, inferred, |rows|) then
      Finish(if r.complete then r.reason else Some(SIGNALS_COMPLETE))
    else if r.complete || r.question.None? then Fail
    else if Validate(r.question.value, s.questions, rows).Valid? then Persist(r.question.value)
    else Fail
  }

  /** How many of the replies the decision has read. */
  ghost function CallsMade(s: Session, r1: Reply, r2: Reply, r3: Reply): nat {
    var answered := |s.answers|;
    var rows := Rows(s.questions, s.answers);
    if answered > MAX_QUESTIONS || (answered >= MIN_QUESTIONS && Ready(rows, s.inferred, answered)) then 0
    else if r1.Unavailable? || (answered >= MIN_QUESTIONS && Ready(rows, Record(s.inferred, r1.signals), |rows|)) then 1
    else if !r1.complete then if AsksAgain(s, rows, r1.question) then 2 else 1
    else if answered < MIN_QUESTIONS then 1
    else if r2.Unavailable? || r2.complete || !AsksAgain(s, rows, r2.question) then 2
    else 3
  }

  /** The proposed question is admitted but repeats an earlier one, so the provider is asked for a replacement. */
  predicate AsksAgain(s: Session, rows: seq<Row>, question: Option<Proposal>) {
    && question.Some?
    && (|s.answers| >= MAX_QUESTIONS ==> question.value.kind == Clarification)
    && (question.value.kind == Clarification ==> Clarifications(s.questions) < MAX_CLARIFICATIONS)
    && Validate(question.value, s.questions, rows).Duplicate?
  }

  function PersistNextQuestion(s: Session, p: Proposal): Session {
    if s.status == Skipped then s
    else
      var added := if exists q <- s.questions :: q.prompt == p.prompt then s else AddQuestion(s, p, MaxPosition(s.questions) + 1);
      added.(generation := Idle)
  }

  function FinishQuestionnaire(s: Session, reason: Option<string>): Session {
    if s.status == Skipped then s
    else s.(status := ReadyToComplete, generation := Idle, reason := reason)
  }

  function MarkGenerationFailed(s: Session): Session {
    if s.status == Skipped then s else s.(generation := Failed)
  }

  function Commit(s: Session, o: Outcome): Session {
    match o
    case Persist(p) => PersistNextQuestion(s, p)
    case Finish(reason) => FinishQuestionnaire(s, reason)
    case Fail => MarkGenerationFailed(s)
  }

  function Skip(s: Session): Session {
    if s.status == Completed then s
    else s.(status := Skipped, generation := Idle, reason := Some(USER_SKIPPED))
  }

  // ----- runs

  /** The session, and the contents read by the generation that is in flight, if one is. */
  datatype World = World(session: Session, flight: Option<Session>)

  datatype Event =
    | Started
    | Submitted(id: nat, answer: Answer)
    | Resolved(r1: Reply, r2: Reply, r3: Reply)
    | Abandoned
    | UserSkipped

  ghost function Step(w: World, e: Event): World {
    match e
    case Started =>
      if (w.session.status == InProgress || w.session.status == ReadyToComplete)
         && w.session.generation != Generating && w.session.questions == []
      then w.(session := GenerateFirst(w.session)) else w
    case Submitted(id, a) =>
      (match Submit(w.session, id, a)
       case Accepted(s) => World(s, Some(s))
       case _ => w)
    case Resolved(r1, r2, r3) =>
      if w.flight.None? then w
      else World(Commit(w.session, Decide(w.flight.value, r1, r2, r3)), None)
    case Abandoned => w.(flight := None)
    case UserSkipped => w.(session := Skip(w.session))
  }

  ghost function Run(w: World, events: seq<Event>): World {
    if events == [] then w
    else Step(Run(w, events[..|events| - 1]), events[|events| - 1])
  }

  const Initial := World(NewSession(), None)

  // ----- the invariant

  predicate Answered(questions: seq<Question>, answers: map<nat, Answer>, i: nat)
    requires i < |questions|
  {
    questions[i].id in answers
  }

  predicate AllAnswered(questions: seq<Question>, answers: map<nat, Answer>) {
    forall i :: 0 <= i < |questions| ==> Answered(questions, answers, i)
  }

  /** Positions are 1..n and identifiers are used once. */
  predicate Numbered(questions: seq<Question>, nextId: nat) {
    && (forall i :: 0 <= i < |questions| ==> questions[i].position == i + 1)
    && (forall i :: 0 <= i < |questions| ==> questions[i].id < nextId)
    && (forall i, j :: 0 <= i < j < |questions| ==> questions[i].id != questions[j].id)
  }

  /** Answers belong to questions, and only the last question may be open. */
  predicate Paired(questions: seq<Question>, answers: map<nat, Answer>) {
    && answers.Keys <= Ids(questions)
    && (forall i :: 0 <= i < |questions| - 1 ==> Answered(questions, answers, i))
  }

  /** No topic and no wording is asked twice, and exactly the first question is the location question. */
  predicate Fresh(questions: seq<Question>) {
    && (forall i :: 0 <= i < |questions| ==> questions[i].key.Key? && questions[i].key.topic.Canonical())
    && (forall i, j :: 0 <= i < j < |questions| ==> questions[i].key != questions[j].key)
    && (forall i, j :: 0 <= i < j < |questions| ==> Normal(questions[i].prompt) != Normal(questions[j].prompt))
    && (forall i :: 0 <= i < |questions| ==> (questions[i].locationCode <==> i == 0))
  }

  predicate Tables(questions: seq<Question>, answers: map<nat, Answer>, nextId: nat) {
    Numbered(questions, nextId) && Paired(questions, answers) && Fresh(questions)
  }

  /** Which questions are open in which state. */
  predicate Phase(s: Session) {
    && (s.generation == Generating || s.generation == Failed ==> s.questions != [] && AllAnswered(s.questions, s.answers))
    && (s.status == InProgress && s.generation == Idle && s.questions != [] ==>
          !Answered(s.questions, s.answers, |s.questions| - 1))
    && (s.status == ReadyToComplete ==>
          s.generation == Idle && s.questions != [] && AllAnswered(s.questions, s.answers) && |s.answers| >= MIN_QUESTIONS)
    && (s.status != Completed && s.generation != ProfileGenerating)
    && (s.status == Skipped ==> s.generation == Idle)
  }

  /** The stored answers pass the gate by themselves, without any inferred signal. */
  ghost predicate ReadyAsStored(s: Session) {
    Ready(Rows(s.questions, s.answers), map[], |s.answers|)
  }

  ghost predicate SessionInv(s: Session) {
    && Tables(s.questions, s.answers, s.nextId) && Phase(s)
    && s.inferred == map[]
    && |s.questions| <= MAX_QUESTIONS + 1
    && (s.status == InProgress && s.generation != Generating ==> !ReadyAsStored(s))
  }

  /** A generation in flight has seen the current contents, whether or not a skip has overtaken it. */
  ghost predicate FlightInv(w: World) {
    w.flight.Some? ==>
      && SessionInv(w.flight.value)
      && w.flight.value.generation == Generating
      && w.flight.value.status == InProgress
      && (w.session == w.flight.value || w.session == Skip(w.flight.value))
  }

  ghost predicate Inv(w: World) {
    SessionInv(w.session) && FlightInv(w)
  }
}
