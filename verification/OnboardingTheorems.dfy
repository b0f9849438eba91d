/**
 Consequences of the invariant for whole runs: the shape of every reachable
 session, the gate in front of readiness, and what a skip, an edit and a retry do.
 */
module OnboardingTheorems {
  import opened Common
  import opened OnboardingTypes
  import opened OnboardingReadiness
  import opened OnboardingProtocol
  import opened OnboardingSafety

  lemma InitialIsSafe()
    ensures Inv(Initial)
  {
    assert Rows([], map[]) == [];
  }

  /** Reachable sessions: numbering, open questions, the length bound, and no repetition. */
  lemma ReachableShape(events: seq<Event>)
    ensures var s := Run(Initial, events).session;
      && (forall i :: 0 <= i < |s.questions| ==> s.questions[i].position == i + 1)
      && (forall i :: 0 <= i < |s.questions| - 1 ==> s.questions[i].id in s.answers)
      && (s.generation == Generating || s.generation == Failed ==>
            forall i :: 0 <= i < |s.questions| ==> s.questions[i].id in s.answers)
      && (s.status == InProgress && s.generation == Idle && s.questions != [] ==>
            s.questions[|s.questions| - 1].id !in s.answers)
      && |s.questions| <= MAX_QUESTIONS + 1
      && (forall i, j :: 0 <= i < j < |s.questions| ==>
            && s.questions[i].key.Key? && s.questions[j].key.Key?
            && s.questions[i].key.topic != s.questions[j].key.topic
            && Normal(s.questions[i].prompt) != Normal(s.questions[j].prompt))
  {
    hide Normal, Ready, Step;
    InitialIsSafe();
    RunKeeps(Initial, events);
    var s := Run(Initial, events).session;
    forall i | 0 <= i < |s.questions| - 1 ensures s.questions[i].id in s.answers {
      assert Answered(s.questions, s.answers, i);
    }
    if s.generation == Generating || s.generation == Failed {
      AllHaveRows(s.questions, s.answers);
    }
  }

  // ----- completion gate

  /** The questionnaire is declared finished only by a generation that had seen everything required. */
  lemma ReadyOnlyThroughGate(w: World, e: Event)
    requires Inv(w)
    ensures w.session.status != ReadyToComplete && Step(w, e).session.status == ReadyToComplete ==>
      && e.Resolved? && w.session.generation == Generating
      && |w.session.answers| >= MIN_QUESTIONS && AllAnswered(w.session.questions, w.session.answers)
      && GateOpenAtLastCall(w.session, e.r1, e.r2, e.r3)
      && Step(w, e).session.questions == w.session.questions && Step(w, e).session.answers == w.session.answers
  {
    hide Normal, Ready, Decide, Tables, AllAnswered, GateOpenAtLastCall;
    if e.Resolved? && w.flight.Some? {
      DecideIsGated(w.flight.value, e.r1, e.r2, e.r3);
    }
  }

  /** Conversely, once the stored answers suffice, no reply can keep the questionnaire open. */
  lemma SufficientAnswersFinish(w: World, r1: Reply, r2: Reply, r3: Reply)
    requires Inv(w) && w.flight.Some? && w.session.status != Skipped && ReadyAsStored(w.session)
    ensures Step(w, Resolved(r1, r2, r3)).session.status == ReadyToComplete
  {
    assert |w.session.answers| >= MIN_QUESTIONS;
  }

  // ----- skipping

  /** After a skip nothing touches the session, not even a generation that was in flight. */
  lemma {:induction false} SkipIsFinal(w: World, events: seq<Event>)
    requires w.session.status != Completed
    ensures Run(Step(w, UserSkipped), events).session == Skip(w.session)
  {
    hide Decide;
    if events != [] {
      SkipIsFinal(w, events[..|events| - 1]);
      var before := Run(Step(w, UserSkipped), events[..|events| - 1]);
      var e := events[|events| - 1];
      if e.Resolved? && before.flight.Some? {
        SkippedIgnoresCommit(before.session, Decide(before.flight.value, e.r1, e.r2, e.r3));
      }
    }
  }

  // ----- editing and retrying

  /** Deleting behind position k and storing there leaves the earlier answers, and only them, beside the new one. */
  lemma EarlierAnswersSurvive(s: Session, k: nat, a: Answer)
    requires Tables(s.questions, s.answers, s.nextId) && k < |s.questions| && s.questions[k].id in s.answers
    ensures var stored := (s.answers - Ids(s.questions[k + 1..]))[s.questions[k].id := a];
      && stored.Keys == Ids(s.questions[..k + 1])
      && forall i :: 0 <= i < k ==> s.questions[i].id in s.answers && s.questions[i].id in stored &&
                                    stored[s.questions[i].id] == s.answers[s.questions[i].id]
  {
    assert Answered(s.questions, s.answers, k);
    hide Fresh, Ids, Answered, Numbered;
    AnsweredBefore(s.questions, s.answers, k);
    forall i | 0 <= i <= k ensures s.questions[i].id in s.answers {
      HasAnswer(s.questions, s.answers, i);
    }
    IdIsOwn(s.questions, s.nextId, k);
    KeptKeys(s.questions, s.answers, s.nextId, k);
  }

  lemma IdIsOwn(questions: seq<Question>, nextId: nat, k: nat)
    requires Numbered(questions, nextId) && k < |questions|
    ensures forall i :: 0 <= i < k ==> questions[i].id != questions[k].id
  {
  }

  lemma HasAnswer(questions: seq<Question>, answers: map<nat, Answer>, i: nat)
    requires i < |questions| && Answered(questions, answers, i)
    ensures questions[i].id in answers
  {
  }

  /** What is left of the answers behind question `k`. */
  lemma KeptKeys(questions: seq<Question>, answers: map<nat, Answer>, nextId: nat, k: nat)
    requires Numbered(questions, nextId) && Paired(questions, answers) && k < |questions|
    requires forall i :: 0 <= i <= k ==> questions[i].id in answers
    ensures var kept := answers - Ids(questions[k + 1..]);
      kept.Keys == Ids(questions[..k + 1]) && forall i :: 0 <= i <= k ==> questions[i].id in kept
  {
    LaterIds(questions, nextId, k + 1);
    IdsContain(questions[..k + 1]);
    hide Ids, Numbered;
    forall i | 0 <= i <= k ensures questions[i].id in Ids(questions[..k + 1]) {
      assert questions[..k + 1][i] == questions[i];
    }
    forall id | id in Ids(questions[..k + 1]) ensures id in answers {
      var i :| 0 <= i < k + 1 && questions[..k + 1][i].id == id;
      assert questions[i].id == id;
    }
  }

  /** A changed answer cuts the history behind it; the rest survives. */
  lemma EditTruncates(s: Session, k: nat, a: Answer)
    requires SessionInv(s) && s.status == InProgress && s.generation != Generating
    requires k < |s.questions| && s.questions[k].id in s.answers
    requires ValidAnswer(s.questions[k].control, a) && s.answers[s.questions[k].id] != a
    ensures Submit(s, s.questions[k].id, a).Accepted?
    ensures var t := Submit(s, s.questions[k].id, a).session;
      && t.questions == s.questions[..k + 1]
      && t.answers.Keys == Ids(s.questions[..k + 1])
      && t.answers[s.questions[k].id] == a
      && (forall i :: 0 <= i < k ==> s.questions[i].id in s.answers && s.questions[i].id in t.answers &&
                                     t.answers[s.questions[i].id] == s.answers[s.questions[i].id])
      && (k > 0 ==> t.destination == s.destination)
  {
    hide Ready, ValidAnswer, Fresh, Numbered, Paired, DeleteAfter;
    FindIsUnique(s.questions, s.nextId, k);
    if k > 0 { LocationIsFirst(s.questions, k); }
    EarlierAnswersSurvive(s, k, a);
    var id := s.questions[k].id;
    assert Submit(s, id, a).Accepted?;
    var j := SubmitContents(s, id, a);
    FindIsUnique(s.questions, s.nextId, j);
    assert s.questions[..j + 1] == s.questions[..k + 1] by {
      assert s.questions[j].position == s.questions[k].position;
      SamePosition(s.questions, s.nextId, j, k);
    }
    DeleteAfterKeeps(s, k);
  }

  lemma LocationIsFirst(questions: seq<Question>, k: nat)
    requires Fresh(questions) && 0 < k < |questions|
    ensures !questions[k].locationCode
  {
    hide Normal;
  }

  lemma SamePosition(questions: seq<Question>, nextId: nat, j: nat, k: nat)
    requires Numbered(questions, nextId) && j < |questions| && k < |questions|
    requires questions[j].position == questions[k].position
    ensures j == k
  {
  }

  lemma FindIsUnique(questions: seq<Question>, nextId: nat, k: nat)
    requires Numbered(questions, nextId) && k < |questions|
    ensures Find(questions, questions[k].id) == Some(questions[k])
  {
    FindLocates(questions, questions[k].id);
  }

  /** Resending a stored answer does nothing, except after a failure, where it starts over with nothing lost. */
  lemma ResendIsIdempotent(s: Session, k: nat)
    requires SessionInv(s) && s.status == InProgress && s.generation != Generating
    requires k < |s.questions| && s.questions[k].id in s.answers
    requires ValidAnswer(s.questions[k].control, s.answers[s.questions[k].id])
    ensures var r := Submit(s, s.questions[k].id, s.answers[s.questions[k].id]);
      if s.generation == Failed
      then r.Accepted? && r.session.generation == Generating
           && r.session.questions == s.questions && r.session.answers == s.answers
      else r == Unchanged
  {
    hide Normal, Ready, ValidAnswer;
    FindIsUnique(s.questions, s.nextId, k);
    assert s.answers[s.questions[k].id := s.answers[s.questions[k].id]] == s.answers;
  }

  // ----- inferred signals

  /** No session ever stores an inferred signal, nor does the generation in flight read one. */
  lemma SignalsAreNeverStored(events: seq<Event>)
    ensures var w := Run(Initial, events);
      w.session.inferred == map[] && (w.flight.Some? ==> w.flight.value.inferred == map[])
  {
    hide Normal, Ready, Step, Tables;
    InitialIsSafe();
    RunKeeps(Initial, events);
  }
}
