/**
 The questionnaire service over one stored session. Each method is one
 transaction, or the read-only decision between two of them, and is proved to
 take the step the protocol describes.
 */
module OnboardingService {
  import opened Common
  import opened OnboardingTypes
  import opened OnboardingReadiness
  import P = OnboardingProtocol
  import C = OnboardingCompletion

  datatype Receipt = Rejected | AlreadyStored | GenerationOpened

  class AdaptiveSession {
    var status: P.Status
    var generation: P.Generation
    var reason: Option<string>
    var questions: seq<Question>
    var answers: map<nat, Answer>
    var inferred: Inferred
    var destination: Option<Text>
    var nextId: nat

    ghost function View(): P.Session
      reads this
    {
      P.Session(status, generation, reason, questions, answers, inferred, destination, nextId)
    }

    constructor ()
      ensures View() == P.NewSession()
    {
      status, generation, reason := P.InProgress, P.Idle, None;
      questions, answers, inferred := [], map[], map[];
      destination, nextId := None, 0;
    }

    method AddQuestion(p: Proposal, position: int)
      modifies this
      ensures View() == P.AddQuestion(old(View()), p, position)
    {
      var q := Question(nextId, position, p.prompt, Key(p.key), p.key == AdaptiveLocation, p.kind, p.dimensions, p.control);
      questions := questions + [q];
      nextId := nextId + 1;
    }

    method GenerateFirst()
      modifies this
      ensures View() == P.GenerateFirst(old(View()))
    {
      if questions == [] {
        AddQuestion(LocationProposal(), 1);
      }
      generation := P.Idle;
    }

    method DeleteQuestionsAfter(position: int)
      modifies this
      ensures View() == P.DeleteAfter(old(View()), position)
    {
      answers := answers - P.Ids(P.QuestionsAfter(questions, position));
      questions := P.QuestionsUpTo(questions, position);
    }

    /** The first transaction of a submission. */
    method AcceptAnswer(id: nat, a: Answer) returns (receipt: Receipt)
      modifies this
      ensures match P.Submit(old(View()), id, a)
              case Refused => receipt == Rejected && View() == old(View())
              case Unchanged => receipt == AlreadyStored && View() == old(View())
              case Accepted(s) => receipt == GenerationOpened && View() == s
    {
      if status == P.Skipped || status == P.Completed || status == P.ReadyToComplete || generation == P.Generating {
        return Rejected;
      }
      var found := P.Find(questions, id);
      if found.None? || !ValidAnswer(found.value.control, a) {
        return Rejected;
      }
      var q := found.value;
      if q.id in answers && answers[q.id] == a && generation != P.Failed {
        return AlreadyStored;
      }
      if q.id in answers && answers[q.id] != a {
        DeleteQuestionsAfter(q.position);
        inferred := map[];
      }
      answers := answers[q.id := a];
      if q.locationCode {
        destination := FieldText(a.value);
      }
      generation := P.Generating;
      return GenerationOpened;
    }

    /** A completion request; its second transaction finds the session as the first one left it. */
    method AdaptiveComplete(ending: C.Ending) returns (accepted: bool)
      modifies this
      ensures View() == C.Complete(old(View()), ending)
      ensures accepted <==> C.CompletionAccepted(old(View()))
    {
      hide Ready;
      if status == P.Skipped || status == P.Completed || generation == P.ProfileGenerating {
        return false;
      }
      var answered := |answers|;
      if answered < MIN_QUESTIONS && status != P.ReadyToComplete {
        return false;
      }
      var ready, blockers := CompletionReadiness(P.Rows(questions, answers), inferred, answered);
      if !ready {
        return false;
      }
      generation := P.ProfileGenerating;
      if ending.Built? {
        status, generation := P.Completed, P.Idle;
        if reason.None? || reason.value == "" {
          reason := Some(C.PROFILE_GENERATED);
        }
      } else if ending.NotBuilt? {
        generation := P.Failed;
      }
      return true;
    }

    /** What the generation does with the provider's replies, up to its last transaction. */
    method DecideNext(r1: Reply, r2: Reply, r3: Reply) returns (outcome: P.Outcome)
      ensures outcome == P.Decide(View(), r1, r2, r3)
    {
      hide Ready, P.Validate, P.DecideQuestion;
      var answered := |answers|;
      var rows := P.Rows(questions, answers);
      var ready, blockers := CompletionReadiness(rows, inferred, answered);
      if answered > MAX_QUESTIONS {
        return if ready then P.Finish(Some(P.MAX_REACHED)) else P.Fail;
      }
      if answered >= MIN_QUESTIONS && ready {
        return P.Finish(Some(P.SIGNALS_COMPLETE));
      }
      if r1.Unavailable? {
        return P.Fail;
      }
      var known := P.Record(inferred, r1.signals);
      ready, blockers := CompletionReadiness(rows, known, |rows|);
      if answered >= MIN_QUESTIONS && ready {
        return P.Finish(if r1.complete then r1.reason else Some(P.SIGNALS_COMPLETE));
      }
      if !r1.complete {
        outcome := AskQuestion(known, r1.question, r2);
        return;
      }
      if answered < MIN_QUESTIONS || r2.Unavailable? {
        return P.Fail;
      }
      known := P.Record(known, r2.signals);
      if !r2.complete {
        outcome := AskQuestion(known, r2.question, r3);
        return;
      }
      ready, blockers := CompletionReadiness(rows, known, |rows|);
      if !ready {
        return P.Fail;
      }
      return P.Finish(if r2.reason.Some? && r2.reason.value != "" then r2.reason else Some(P.SUFFICIENT_SIGNAL));
    }

    /** A proposed question: accepted, refused, or sent back once for a replacement. */
    method AskQuestion(known: Inferred, question: Option<Proposal>, next: Reply) returns (outcome: P.Outcome)
      ensures outcome == P.DecideQuestion(View(), P.Rows(questions, answers), known, question, next)
    {
      hide Ready;
      if question.None? {
        return P.Fail;
      }
      var p := question.value;
      var answered := |answers|;
      if answered >= MAX_QUESTIONS && p.kind != Clarification {
        return P.Fail;
      }
      if p.kind == Clarification && P.Clarifications(questions) >= MAX_CLARIFICATIONS {
        return P.Fail;
      }
      var rows := P.Rows(questions, answers);
      var verdict := P.Validate(p, questions, rows);
      if verdict.Valid? {
        return P.Persist(p);
      }
      if verdict.ReplacesLocation? || next.Unavailable? {
        return P.Fail;
      }
      var merged := P.Record(known, next.signals);
      var ready, blockers := CompletionReadiness(rows, merged, |rows|);
      if answered >= MIN_QUESTIONS && ready {
        return P.Finish(if next.complete then next.reason else Some(P.SIGNALS_COMPLETE));
      }
      if next.complete || next.question.None? || !P.Validate(next.question.value, questions, rows).Valid? {
        return P.Fail;
      }
      return P.Persist(next.question.value);
    }

    method PersistNextQuestion(p: Proposal)
      modifies this
      ensures View() == P.PersistNextQuestion(old(View()), p)
    {
      if status == P.Skipped {
        return;
      }
      if !exists q <- questions :: q.prompt == p.prompt {
        AddQuestion(p, P.MaxPosition(questions) + 1);
      }
      generation := P.Idle;
    }

    method FinishQuestionnaire(why: Option<string>)
      modifies this
      ensures View() == P.FinishQuestionnaire(old(View()), why)
    {
      if status == P.Skipped {
        return;
      }
      status, generation, reason := P.ReadyToComplete, P.Idle, why;
    }

    method MarkGenerationFailed()
      modifies this
      ensures View() == P.MarkGenerationFailed(old(View()))
    {
      if status != P.Skipped {
        generation := P.Failed;
      }
    }

    method Skip()
      modifies this
      ensures View() == P.Skip(old(View()))
    {
      if status != P.Completed {
        status, generation, reason := P.Skipped, P.Idle, Some(P.USER_SKIPPED);
      }
    }

    /** A whole submission that nothing interrupts takes the protocol's two steps. */
    method SubmitAdaptive(id: nat, a: Answer, r1: Reply, r2: Reply, r3: Reply) returns (receipt: Receipt)
      modifies this
      ensures match P.Submit(old(View()), id, a)
              case Accepted(s) =>
                receipt == GenerationOpened && View() == P.Step(P.Step(P.World(old(View()), None), P.Submitted(id, a)), P.Resolved(r1, r2, r3)).session
              case Unchanged => receipt == AlreadyStored && View() == old(View())
              case Refused => receipt == Rejected && View() == old(View())
    {
      hide P.Decide, P.Submit, P.PersistNextQuestion;
      receipt := AcceptAnswer(id, a);
      if receipt != GenerationOpened {
        return;
      }
      var outcome := DecideNext(r1, r2, r3);
      match outcome {
        case Persist(p) => PersistNextQuestion(p);
        case Finish(why) => FinishQuestionnaire(why);
        case Fail => MarkGenerationFailed();
      }
    }
  }
}
