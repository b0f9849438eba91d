/**
 What holds in every reachable state of the questionnaire, whatever the
 provider replies and however answers, retries and skips interleave.
 */
module OnboardingSafety {
  import opened Common
  import opened OnboardingTypes
  import opened OnboardingReadiness
  import opened OnboardingProtocol

  // ----- tables

  lemma {:induction false} MaxPositionIsLength(questions: seq<Question>)
    requires forall i :: 0 <= i < |questions| ==> questions[i].position == i + 1
    ensures MaxPosition(questions) == |questions|
  {
    if questions != [] {
      MaxPositionIsLength(questions[..|questions| - 1]);
    }
  }

  lemma FrontAndLast(questions: seq<Question>, position: nat)
    requires questions != []
    ensures var front, last := questions[..|questions| - 1], questions[|questions| - 1];
      && front + [last] == questions
      && (position < |questions| ==> front[..position] == questions[..position] && front[position..] + [last] == questions[position..])
  {
  }

  lemma {:induction false} UpToIsPrefix(questions: seq<Question>, position: nat)
    requires forall i :: 0 <= i < |questions| ==> questions[i].position == i + 1
    ensures QuestionsUpTo(questions, position) == if position <= |questions| then questions[..position] else questions
  {
    if questions != [] {
      var front, last := questions[..|questions| - 1], questions[|questions| - 1];
      UpToIsPrefix(front, position);
      FrontAndLast(questions, position);
    }
  }

  lemma {:induction false} AfterIsSuffix(questions: seq<Question>, position: nat)
    requires forall i :: 0 <= i < |questions| ==> questions[i].position == i + 1
    ensures QuestionsAfter(questions, position) == if position <= |questions| then questions[position..] else []
  {
    if questions != [] {
      var front, last := questions[..|questions| - 1], questions[|questions| - 1];
      AfterIsSuffix(front, position);
      FrontAndLast(questions, position);
    }
  }

  lemma {:induction false} IdsContain(questions: seq<Question>)
    ensures forall i :: 0 <= i < |questions| ==> questions[i].id in Ids(questions)
    ensures forall id :: id in Ids(questions) ==> exists i :: 0 <= i < |questions| && questions[i].id == id
  {
    if questions != [] {
      var front := questions[..|questions| - 1];
      IdsContain(front);
      forall id | id in Ids(questions) ensures exists i :: 0 <= i < |questions| && questions[i].id == id {
        if id in Ids(front) {
          var i :| 0 <= i < |front| && front[i].id == id;
          assert questions[i].id == id;
        } else {
          assert questions[|questions| - 1].id == id;
        }
      }
    }
  }

  lemma FindLocates(questions: seq<Question>, id: nat)
    ensures Find(questions, id).Some? <==> exists i :: 0 <= i < |questions| && questions[i].id == id
    ensures Find(questions, id).Some? ==> Find(questions, id).value in questions && Find(questions, id).value.id == id
  {
    LastSomeExists(questions, (q: Question) => if q.id == id then Some(q) else None);
  }

  lemma {:induction false} RowsOfAnswered(questions: seq<Question>, answers: map<nat, Answer>)
    requires forall i :: 0 <= i < |questions| ==> questions[i].id in answers
    ensures |Rows(questions, answers)| == |questions|
    ensures forall i :: 0 <= i < |questions| ==> Rows(questions, answers)[i] == Row(questions[i], answers[questions[i].id])
  {
    if questions != [] {
      RowsOfAnswered(questions[..|questions| - 1], answers);
    }
  }

  lemma {:induction false} RowsIgnoreOthers(questions: seq<Question>, answers: map<nat, Answer>, id: nat)
    requires forall i :: 0 <= i < |questions| ==> questions[i].id != id
    ensures Rows(questions, answers - {id}) == Rows(questions, answers)
  {
    if questions != [] {
      RowsIgnoreOthers(questions[..|questions| - 1], answers, id);
    }
  }

  /** The answer count of the session is the number of answered rows. */
  lemma {:induction false} AnswerCountIsRowCount(questions: seq<Question>, answers: map<nat, Answer>)
    requires forall i, j :: 0 <= i < j < |questions| ==> questions[i].id != questions[j].id
    requires answers.Keys <= Ids(questions)
    ensures |answers| == |Rows(questions, answers)|
  {
    if questions == [] {
      assert answers == map[];
    } else {
      var front := questions[..|questions| - 1];
      var last := questions[|questions| - 1].id;
      var others := answers - {last};
      AnswerCountIsRowCount(front, others);
      RowsIgnoreOthers(front, answers, last);
      SizeWithout(answers, last);
      hide Ids;
    }
  }

  lemma CountsAgree(s: Session)
    requires Tables(s.questions, s.answers, s.nextId)
    ensures |s.answers| == |Rows(s.questions, s.answers)|
    ensures AllAnswered(s.questions, s.answers) ==> |s.answers| == |s.questions|
  {
    hide Normal;
    AnswerCountIsRowCount(s.questions, s.answers);
    if AllAnswered(s.questions, s.answers) {
      AllHaveRows(s.questions, s.answers);
    }
  }

  lemma AllHaveRows(questions: seq<Question>, answers: map<nat, Answer>)
    requires AllAnswered(questions, answers)
    ensures |Rows(questions, answers)| == |questions|
    ensures forall i :: 0 <= i < |questions| ==>
              questions[i].id in answers && Rows(questions, answers)[i] == Row(questions[i], answers[questions[i].id])
  {
    forall i | 0 <= i < |questions| ensures questions[i].id in answers {
      assert Answered(questions, answers, i);
    }
    RowsOfAnswered(questions, answers);
  }

  // ----- each transaction keeps the invariant

  lemma GenerateFirstKeeps(s: Session)
    requires SessionInv(s) && s.status == InProgress && s.questions == []
    ensures SessionInv(GenerateFirst(s))
  {
    assert s.answers == map[];
    var t := GenerateFirst(s);
    var q := t.questions[0];
    assert t == s.(questions := [q], nextId := s.nextId + 1, generation := Idle) && q.id == s.nextId && q.position == 1;
    assert q.key == Key(AdaptiveLocation) && q.locationCode;
    assert !ReadyAsStored(t);
    hide Normal, Ready, GenerateFirst, Rows, ReadyAsStored;
    FirstQuestion(q, s.nextId);
  }

  lemma FirstQuestion(q: Question, nextId: nat)
    requires q.id == nextId && q.position == 1 && q.key == Key(AdaptiveLocation) && q.locationCode
    ensures Tables([q], map[], nextId + 1) && !Answered([q], map[], 0)
  {
    hide Normal;
  }

  lemma PrefixKeeps(questions: seq<Question>, nextId: nat, n: nat)
    requires Numbered(questions, nextId) && Fresh(questions) && n <= |questions|
    ensures Numbered(questions[..n], nextId) && Fresh(questions[..n])
  {
    hide Normal;
  }

  /** Deleting by identifier what comes later keeps exactly the answers to the earlier questions. */
  lemma {:induction false} LaterIds(questions: seq<Question>, nextId: nat, n: nat)
    requires Numbered(questions, nextId) && n <= |questions|
    ensures Ids(questions[n..]) == Ids(questions) - Ids(questions[..n])
  {
    assert Ids([]) == {};
    hide Ids;
    if n == |questions| {
      assert questions[n..] == [] && questions[..n] == questions;
    } else {
      var front, last := questions[..|questions| - 1], questions[|questions| - 1];
      PrefixIsNumbered(questions, nextId, |questions| - 1);
      LastIdIsNew(questions, nextId, n);
      hide Numbered;
      LaterIds(front, nextId, n);
      FrontAndLast(questions, n);
      IdsOfMore(front, last);
      IdsOfMore(front[n..], last);
      JoinsDifference(Ids(front), Ids(front[..n]), last.id);
    }
  }

  lemma JoinsDifference(all: set<nat>, some: set<nat>, id: nat)
    requires id !in some
    ensures all - some + {id} == all + {id} - some
  {
  }

  lemma IdsOfMore(questions: seq<Question>, q: Question)
    ensures Ids(questions + [q]) == Ids(questions) + {q.id}
  {
    assert (questions + [q])[..|questions|] == questions;
  }

  lemma PrefixIsNumbered(questions: seq<Question>, nextId: nat, n: nat)
    requires Numbered(questions, nextId) && n <= |questions|
    ensures Numbered(questions[..n], nextId)
  {
  }

  lemma LastIdIsNew(questions: seq<Question>, nextId: nat, n: nat)
    requires Numbered(questions, nextId) && n < |questions|
    ensures questions[|questions| - 1].id !in Ids(questions[..n])
  {
    IdsContain(questions[..n]);
    hide Ids;
  }

  /** The first `n` questions with the answers that are left are answered, when they were. */
  lemma PrefixIsPaired(questions: seq<Question>, answers: map<nat, Answer>, nextId: nat, n: nat)
    requires Numbered(questions, nextId) && Paired(questions, answers) && n <= |questions|
    requires forall i :: 0 <= i < n ==> Answered(questions, answers, i)
    ensures var kept := answers - Ids(questions[n..]);
      Paired(questions[..n], kept) && AllAnswered(questions[..n], kept)
  {
    LaterIds(questions, nextId, n);
    IdsContain(questions[..n]);
    hide Ids, Numbered;
    var kept := answers - Ids(questions[n..]);
    forall i | 0 <= i < n ensures Answered(questions[..n], kept, i) {
      assert Answered(questions, answers, i) && questions[..n][i] == questions[i];
      assert questions[..n][i].id in Ids(questions[..n]);
    }
  }

  lemma DeletionIsCut(questions: seq<Question>, nextId: nat, k: nat)
    requires Numbered(questions, nextId) && k < |questions|
    ensures QuestionsUpTo(questions, questions[k].position) == questions[..k + 1]
    ensures QuestionsAfter(questions, questions[k].position) == questions[k + 1..]
  {
    UpToIsPrefix(questions, k + 1);
    AfterIsSuffix(questions, k + 1);
    hide QuestionsUpTo, QuestionsAfter;
  }

  lemma AnsweredBefore(questions: seq<Question>, answers: map<nat, Answer>, k: nat)
    requires Paired(questions, answers) && k < |questions| && Answered(questions, answers, k)
    ensures forall i :: 0 <= i < k + 1 ==> Answered(questions, answers, i)
  {
    hide Ids;
  }

  lemma DeleteAfterKeeps(s: Session, k: nat)
    requires Tables(s.questions, s.answers, s.nextId) && k < |s.questions| && Answered(s.questions, s.answers, k)
    ensures var t := DeleteAfter(s, s.questions[k].position);
      && Tables(t.questions, t.answers, t.nextId) && AllAnswered(t.questions, t.answers)
      && t.questions == s.questions[..k + 1]
      && t.answers == s.answers - Ids(s.questions[k + 1..])
      && t == s.(questions := t.questions, answers := t.answers)
  {
    hide Fresh, Numbered, Paired, Answered, AllAnswered, Ids, QuestionsUpTo, QuestionsAfter;
    DeletionIsCut(s.questions, s.nextId, k);
    AnsweredBefore(s.questions, s.answers, k);
    PrefixKeeps(s.questions, s.nextId, k + 1);
    PrefixIsPaired(s.questions, s.answers, s.nextId, k + 1);
  }

  /** Storing an answer to one of the questions. */
  lemma AnswerKeeps(questions: seq<Question>, answers: map<nat, Answer>, k: nat, a: Answer)
    requires Paired(questions, answers) && k < |questions|
    requires forall i :: 0 <= i < |questions| && i != k ==> Answered(questions, answers, i)
    ensures var stored := answers[questions[k].id := a]; Paired(questions, stored) && AllAnswered(questions, stored)
  {
    IdsContain(questions);
    var stored := answers[questions[k].id := a];
    forall i | 0 <= i < |questions| ensures Answered(questions, stored, i) {
      assert i != k ==> Answered(questions, answers, i);
    }
  }

  /** What an accepted answer leaves: on an edit the questions up to it, otherwise all; nothing open. */
  lemma SubmitContents(s: Session, id: nat, a: Answer) returns (k: nat)
    requires Tables(s.questions, s.answers, s.nextId) && Phase(s)
    requires Submit(s, id, a).Accepted?
    ensures k < |s.questions| && s.questions[k].id == id && ValidAnswer(s.questions[k].control, a)
    ensures var t := Submit(s, id, a).session;
      && Tables(t.questions, t.answers, t.nextId) && AllAnswered(t.questions, t.answers)
      && (if id in s.answers && s.answers[id] != a
          then t.questions == s.questions[..k + 1] && t.answers == (s.answers - Ids(s.questions[k + 1..]))[id := a]
          else t.questions == s.questions && t.answers == s.answers[id := a])
  {
    hide Fresh, ValidAnswer, Find, DeleteAfter;
    FindLocates(s.questions, id);
    var q := Find(s.questions, id).value;
    k :| 0 <= k < |s.questions| && s.questions[k] == q;
    if id in s.answers && s.answers[id] != a {
      assert Answered(s.questions, s.answers, k);
      DeleteAfterKeeps(s, k);
      var kept := DeleteAfter(s, q.position);
      assert kept.questions[k] == q;
      AnswerKeeps(kept.questions, kept.answers, k, a);
    } else {
      forall i | 0 <= i < |s.questions| && i != k ensures Answered(s.questions, s.answers, i) {
        assert k < |s.questions| - 1 ==> Answered(s.questions, s.answers, k);
      }
      AnswerKeeps(s.questions, s.answers, k, a);
    }
  }

  lemma SubmitKeeps(s: Session, id: nat, a: Answer)
    requires SessionInv(s) && Submit(s, id, a).Accepted?
    ensures var t := Submit(s, id, a).session; SessionInv(t) && t.generation == Generating && t.status == InProgress
  {
    hide Normal, ValidAnswer, Find, Ready, Tables, AllAnswered;
    var k := SubmitContents(s, id, a);
  }

  lemma AnsweredTopicsAreKeys(questions: seq<Question>, answers: map<nat, Answer>)
    requires Fresh(questions) && AllAnswered(questions, answers)
    ensures forall i :: 0 <= i < |questions| ==> questions[i].key.topic in AnsweredTopics(Rows(questions, answers))
  {
    hide Normal;
    var rows := Rows(questions, answers);
    AllHaveRows(questions, answers);
    forall i | 0 <= i < |questions| ensures questions[i].key.topic in AnsweredTopics(rows) {
      assert rows[i] in rows && KeyOf(rows[i]) == Some(questions[i].key.topic);
    }
  }

  /** A validated question has a topic and a wording not used before. */
  lemma ValidatedIsFresh(p: Proposal, questions: seq<Question>, answers: map<nat, Answer>)
    requires Fresh(questions) && AllAnswered(questions, answers)
    requires Validate(p, questions, Rows(questions, answers)).Valid?
    ensures p.key != AdaptiveLocation
    ensures forall i :: 0 <= i < |questions| ==>
      && questions[i].key != Key(p.key)
      && questions[i].prompt != p.prompt
      && Normal(questions[i].prompt) != Normal(p.prompt)
  {
    hide Normal, KeyOf;
    AnsweredTopicsAreKeys(questions, answers);
    forall i | 0 <= i < |questions|
      ensures questions[i].key != Key(p.key) && Normal(questions[i].prompt) != Normal(p.prompt)
    {
      assert questions[i] in questions;
    }
  }

  lemma AppendKeeps(questions: seq<Question>, nextId: nat, q: Question)
    requires Numbered(questions, nextId) && Fresh(questions) && questions != []
    requires q.id == nextId && q.position == |questions| + 1 && !q.locationCode && q.key.Key? && q.key.topic.Canonical()
    requires forall i :: 0 <= i < |questions| ==> questions[i].key != q.key && Normal(questions[i].prompt) != Normal(q.prompt)
    ensures Numbered(questions + [q], nextId + 1) && Fresh(questions + [q])
  {
    hide Normal;
  }

  /** An answered history stays paired when an open question joins it. */
  lemma OpenQuestionJoins(questions: seq<Question>, answers: map<nat, Answer>, nextId: nat, q: Question)
    requires Numbered(questions, nextId) && Paired(questions, answers) && AllAnswered(questions, answers)
    requires q.id == nextId
    ensures Paired(questions + [q], answers)
    ensures !Answered(questions + [q], answers, |questions|)
    ensures Rows(questions + [q], answers) == Rows(questions, answers)
  {
    var all := questions + [q];
    assert all[..|questions|] == questions;
    IdsContain(questions);
    assert nextId !in Ids(questions);
    forall i | 0 <= i < |questions| ensures Answered(all, answers, i) {
      assert Answered(questions, answers, i);
    }
  }

  lemma PersistAdds(s: Session, p: Proposal)
    requires Numbered(s.questions, s.nextId) && s.status != Skipped
    requires forall i :: 0 <= i < |s.questions| ==> s.questions[i].prompt != p.prompt
    ensures PersistNextQuestion(s, p) == AddQuestion(s, p, |s.questions| + 1).(generation := Idle)
  {
    MaxPositionIsLength(s.questions);
    assert forall q :: q in s.questions ==> q.prompt != p.prompt;
  }

  lemma PersistAppends(s: Session, p: Proposal)
    requires Tables(s.questions, s.answers, s.nextId) && AllAnswered(s.questions, s.answers)
    requires s.questions != [] && s.status != Skipped
    requires Validate(p, s.questions, Rows(s.questions, s.answers)).Valid?
    ensures var t := PersistNextQuestion(s, p);
      && t == AddQuestion(s, p, |s.questions| + 1).(generation := Idle)
      && Tables(t.questions, t.answers, t.nextId)
      && !Answered(t.questions, t.answers, |s.questions|)
      && Rows(t.questions, t.answers) == Rows(s.questions, s.answers)
  {
    hide Normal, Validate, Fresh, PersistNextQuestion, Numbered, Paired, AllAnswered, Rows, Answered;
    ValidatedIsFresh(p, s.questions, s.answers);
    PersistAdds(s, p);
    var q := AddQuestion(s, p, |s.questions| + 1).questions[|s.questions|];
    AppendKeeps(s.questions, s.nextId, q);
    OpenQuestionJoins(s.questions, s.answers, s.nextId, q);
  }

  lemma PersistKeeps(s: Session, p: Proposal)
    requires SessionInv(s) && s.status == InProgress && s.generation == Generating
    requires |s.answers| <= MAX_QUESTIONS && !ReadyAsStored(s)
    requires Validate(p, s.questions, Rows(s.questions, s.answers)).Valid?
    ensures SessionInv(PersistNextQuestion(s, p))
  {
    hide Normal, Validate, Ready, PersistNextQuestion, Tables, AllAnswered;
    CountsAgree(s);
    PersistAppends(s, p);
  }

  // ----- the gate

  /** The signals known after a generation has consumed these replies. */
  function Accumulated(inferred: Inferred, replies: seq<Reply>): Inferred {
    if replies == [] then inferred
    else Record(Accumulated(inferred, replies[..|replies| - 1]), SignalsOf(replies[|replies| - 1]))
  }

  /** At the last call it made, the answers together with the signals received by then left nothing missing. */
  ghost predicate GateOpenAtLastCall(s: Session, r1: Reply, r2: Reply, r3: Reply) {
    var calls := CallsMade(s, r1, r2, r3);
    calls <= 3 && Ready(Rows(s.questions, s.answers), Accumulated(map[], [r1, r2, r3][..calls]), |s.answers|)
  }

  lemma AccumulatedSteps(inferred: Inferred, r1: Reply, r2: Reply, r3: Reply)
    ensures Accumulated(inferred, [r1, r2, r3][..0]) == inferred
    ensures Accumulated(inferred, [r1, r2, r3][..1]) == Record(inferred, SignalsOf(r1))
    ensures Accumulated(inferred, [r1, r2, r3][..2]) == Record(Record(inferred, SignalsOf(r1)), SignalsOf(r2))
    ensures Accumulated(inferred, [r1, r2, r3][..3]) ==
              Record(Record(Record(inferred, SignalsOf(r1)), SignalsOf(r2)), SignalsOf(r3))
  {
    var all := [r1, r2, r3];
    assert all[..1][..0] == all[..0] && all[..2][..1] == all[..1] && all[..3][..2] == all[..2];
  }

  lemma DecideIsGated(s: Session, r1: Reply, r2: Reply, r3: Reply)
    requires SessionInv(s) && s.status == InProgress && s.generation == Generating
    ensures match Decide(s, r1, r2, r3)
      case Finish(_) => |s.answers| >= MIN_QUESTIONS && GateOpenAtLastCall(s, r1, r2, r3)
      case Persist(p) =>
        && |s.answers| <= MAX_QUESTIONS && !ReadyAsStored(s)
        && Validate(p, s.questions, Rows(s.questions, s.answers)).Valid?
      case Fail => !ReadyAsStored(s)
  {
    hide Normal, Validate, Ready, DecideQuestion, AsksAgain, Accumulated, Record, Tables, AllAnswered, Rows;
    CountsAgree(s);
    AccumulatedSteps(map[], r1, r2, r3);
    ReadyNeedsAnswers(s);
    var rows := Rows(s.questions, s.answers);
    if r1.Decision? {
      QuestionIsGated(s, rows, Record(map[], r1.signals), r1.question, r2);
      if r2.Decision? {
        QuestionIsGated(s, rows, Record(Record(map[], r1.signals), r2.signals), r2.question, r3);
      }
    }
  }

  lemma ReadyNeedsAnswers(s: Session)
    ensures ReadyAsStored(s) ==> |s.answers| >= MIN_QUESTIONS
  {
    hide Rows;
  }

  /** A proposed question ends the questionnaire only through the replacement that was asked for. */
  lemma QuestionIsGated(s: Session, rows: seq<Row>, inferred: Inferred, question: Option<Proposal>, next: Reply)
    ensures match DecideQuestion(s, rows, inferred, question, next)
      case Finish(_) =>
        && AsksAgain(s, rows, question) && |s.answers| >= MIN_QUESTIONS
        && Ready(rows, Record(inferred, SignalsOf(next)), |rows|)
      case Persist(p) => Validate(p, s.questions, rows).Valid?
      case Fail => true
  {
    hide Normal, Validate, Ready, Record;
  }

  /** A decision and the number of calls behind it depend on the replies to those calls only. */
  lemma LaterRepliesAreNotRead(s: Session, r1: Reply, r2: Reply, r3: Reply, q1: Reply, q2: Reply, q3: Reply)
    requires CallsMade(s, r1, r2, r3) >= 1 ==> q1 == r1
    requires CallsMade(s, r1, r2, r3) >= 2 ==> q2 == r2
    requires CallsMade(s, r1, r2, r3) >= 3 ==> q3 == r3
    ensures Decide(s, q1, q2, q3) == Decide(s, r1, r2, r3)
    ensures CallsMade(s, q1, q2, q3) == CallsMade(s, r1, r2, r3) <= 3
  {
    hide Normal, Validate, Ready, Record, Rows, Clarifications;
  }

  lemma CommitKeeps(s: Session, r1: Reply, r2: Reply, r3: Reply)
    requires SessionInv(s) && s.status == InProgress && s.generation == Generating
    ensures SessionInv(Commit(s, Decide(s, r1, r2, r3)))
  {
    hide Normal, Validate, Ready, Decide, PersistNextQuestion, Tables, GateOpenAtLastCall, AllAnswered;
    DecideIsGated(s, r1, r2, r3);
    var o := Decide(s, r1, r2, r3);
    match o
    case Persist(p) => PersistKeeps(s, p);
    case Finish(reason) =>
    case Fail =>
  }

  lemma SkippedIgnoresCommit(s: Session, o: Outcome)
    requires s.status == Skipped
    ensures Commit(s, o) == s
  {
  }

  lemma StepKeeps(w: World, e: Event)
    requires Inv(w)
    ensures Inv(Step(w, e))
  {
    hide Normal, Ready, Decide, Commit, Tables, AllAnswered, ValidAnswer;
    match e
    case Started =>
      if w.session.questions == [] && w.session.status == InProgress && w.session.generation != Generating {
        GenerateFirstKeeps(w.session);
      }
    case Submitted(id, a) =>
      if Submit(w.session, id, a).Accepted? {
        SubmitKeeps(w.session, id, a);
      }
    case Resolved(r1, r2, r3) =>
      if w.flight.Some? {
        var s := w.flight.value;
        if w.session == s {
          CommitKeeps(s, r1, r2, r3);
        } else {
          SkippedIgnoresCommit(w.session, Decide(s, r1, r2, r3));
        }
      }
    case Abandoned =>
    case UserSkipped =>
  }

  /** Every run from a new session stays inside the invariant. */
  lemma {:induction false} RunKeeps(w: World, events: seq<Event>)
    requires Inv(w)
    ensures Inv(Run(w, events))
  {
    hide Inv, Step;
    if events != [] {
      RunKeeps(w, events[..|events| - 1]);
      StepKeeps(Run(w, events[..|events| - 1]), events[|events| - 1]);
    }
  }
}
