/**
 Chains of queued review-processing jobs: every chain ends, and it gives up
 exactly when six jobs ended with an error and only deaths came between them.
 */
module ReviewChains {
  import opened Common
  import opened ReviewProcessing
  import opened ReviewProcessingTheorems

  /** A chain of jobs that finishes has settled every review. */
  lemma {:induction false} FinishedMeansSettled(w: World, limit: nat, rounds: seq<Round>, known: map<string, nat>)
    requires Tasks(w, limit, rounds, known).end == Some(Finished)
    ensures AllPending(Tasks(w, limit, rounds, known).world.reviews) == []
  {
    if Tasks(w, limit, rounds[..|rounds| - 1], known).end.Some? {
      FinishedMeansSettled(w, limit, rounds[..|rounds| - 1], known);
    }
  }

  lemma {:induction false} RetriesAreBounded(w: World, limit: nat, rounds: seq<Round>, known: map<string, nat>)
    ensures Tasks(w, limit, rounds, known).retries <= MAX_RETRIES
  {
    hide Execute, Errs, Outcome;
    if rounds != [] {
      RetriesAreBounded(w, limit, rounds[..|rounds| - 1], known);
    }
  }

  // ----- termination

  /** The job dies, as it gets no reply for some review of its batch, and is delivered once more. */
  predicate Dies(w: World, limit: nat, round: Round) {
    !round.Busy? && !Errs(w, limit, round) && Outcome(w, limit, round.replies).Died?
  }

  predicate DiesSilently(w: World, limit: nat, round: Round) {
    Dies(w, limit, round) && RoundReplies(round) == []
  }

  /** A job that leaves the chain open has spent attempts, or a retry, or has died without a reply. */
  lemma TaskSpends(c: Chain, limit: nat, round: Round, known: map<string, nat>)
    requires limit >= 1 && c.end.None? && c.retries <= MAX_RETRIES
    ensures var next := Task(c, limit, round, known);
      next.end.None? ==>
        && next.retries <= MAX_RETRIES
        && 6 * Budget(next.world.reviews) + MAX_RETRIES - next.retries + (if DiesSilently(c.world, limit, round) then 0 else 1)
             <= 6 * Budget(c.world.reviews) + MAX_RETRIES - c.retries
        && (round.Served? && round.replies != [] ==> Budget(next.world.reviews) < Budget(c.world.reviews))
  {
    ExecuteSpends(c.world, limit, RoundReplies(round), known);
    BudgetIsSpent(c.world.reviews);
    BudgetIsSpent(Execute(c.world, limit, RoundReplies(round), known).reviews);
    SomeUnprocessed(c.world.reviews, limit);
    hide Execute, AllPending, Budget, EveryReplyFails, Unprocessed;
  }

  lemma SomeUnprocessed(reviews: seq<Review>, limit: nat)
    requires limit >= 1
    ensures Unprocessed(reviews, limit) == [] <==> AllPending(reviews) == []
  {
    hide AllPending;
  }

  /** How many jobs died without a reply. */
  function SilentDeaths(w: World, limit: nat, rounds: seq<Round>, known: map<string, nat>): nat {
    if rounds == [] then 0
    else
      var front := rounds[..|rounds| - 1];
      SilentDeaths(w, limit, front, known) +
        if DiesSilently(Tasks(w, limit, front, known).world, limit, rounds[|rounds| - 1]) then 1 else 0
  }

  /**
   Every chain ends, whatever the interpreter replies and however often jobs
   break or die, as long as it is served more jobs than die without a reply.
   */
  lemma {:induction false} ChainEnds(w: World, limit: nat, rounds: seq<Round>, known: map<string, nat>)
    requires limit >= 1
    ensures var c := Tasks(w, limit, rounds, known);
      c.end.None? ==>
        6 * Budget(c.world.reviews) + MAX_RETRIES - c.retries + |rounds|
          <= 6 * Budget(w.reviews) + MAX_RETRIES + SilentDeaths(w, limit, rounds, known)
    ensures |rounds| > 6 * Budget(w.reviews) + MAX_RETRIES + SilentDeaths(w, limit, rounds, known) ==>
      Tasks(w, limit, rounds, known).end.Some?
  {
    hide Task, Budget, DiesSilently;
    RetriesAreBounded(w, limit, rounds, known);
    if rounds != [] {
      var last := |rounds| - 1;
      ChainEnds(w, limit, rounds[..last], known);
      RetriesAreBounded(w, limit, rounds[..last], known);
      var c := Tasks(w, limit, rounds[..last], known);
      if c.end.None? {
        TaskSpends(c, limit, rounds[last], known);
      } else {
        EndIsFinal(c, limit, rounds[last], known);
      }
    }
  }

  lemma EndIsFinal(c: Chain, limit: nat, round: Round, known: map<string, nat>)
    requires c.end.Some?
    ensures Task(c, limit, round, known) == c
  {
  }

  /** Without breaks, one job more than there are attempts left is enough, if each gets a reply. */
  lemma {:induction false} ServedChainEnds(w: World, limit: nat, rounds: seq<Round>, known: map<string, nat>)
    requires limit >= 1
    requires forall k :: 0 <= k < |rounds| ==> rounds[k].Served? && rounds[k].replies != []
    ensures var c := Tasks(w, limit, rounds, known); c.end.None? ==> Budget(c.world.reviews) + |rounds| <= Budget(w.reviews)
    ensures |rounds| > Budget(w.reviews) ==> Tasks(w, limit, rounds, known).end.Some?
  {
    hide Task, Budget;
    if rounds != [] {
      var last := |rounds| - 1;
      assert rounds[last].Served? && rounds[last].replies != [];
      ServedChainEnds(w, limit, rounds[..last], known);
      RetriesAreBounded(w, limit, rounds[..last], known);
      var c := Tasks(w, limit, rounds[..last], known);
      if c.end.None? {
        TaskSpends(c, limit, rounds[last], known);
      } else {
        EndIsFinal(c, limit, rounds[last], known);
      }
    }
  }

  // ----- giving up

  /** Job number `k` ends with an error. */
  predicate Erred(w: World, limit: nat, rounds: seq<Round>, known: map<string, nat>, k: nat)
    requires k < |rounds|
  {
    Errs(Tasks(w, limit, rounds[..k], known).world, limit, rounds[k])
  }

  /** Job number `k` dies. */
  predicate Died(w: World, limit: nat, rounds: seq<Round>, known: map<string, nat>, k: nat)
    requires k < |rounds|
  {
    Dies(Tasks(w, limit, rounds[..k], known).world, limit, rounds[k])
  }

  /** From job number `a` on every job ended with an error or died. */
  predicate Failed(w: World, limit: nat, rounds: seq<Round>, known: map<string, nat>, a: nat) {
    forall k :: a <= k < |rounds| ==> Erred(w, limit, rounds, known, k) || Died(w, limit, rounds, known, k)
  }

  /** How many jobs ended with an error from job number `a` on. */
  function Errors(w: World, limit: nat, rounds: seq<Round>, known: map<string, nat>, a: nat): nat {
    if |rounds| <= a then 0
    else
      Errors(w, limit, rounds[..|rounds| - 1], known, a) + if Erred(w, limit, rounds, known, |rounds| - 1) then 1 else 0
  }

  /** The last of these jobs is the sixth to end with an error, with only deaths between, and finds the chain open. */
  predicate SixErrors(w: World, limit: nat, rounds: seq<Round>, known: map<string, nat>, a: nat)
    requires rounds != []
  {
    && Tasks(w, limit, rounds[..|rounds| - 1], known).end.None?
    && Erred(w, limit, rounds, known, |rounds| - 1)
    && Failed(w, limit, rounds, known, a) && Errors(w, limit, rounds, known, a) == 6
  }

  lemma LastTask(w: World, limit: nat, rounds: seq<Round>, known: map<string, nat>)
    requires rounds != []
    ensures Tasks(w, limit, rounds, known) ==
      Task(Tasks(w, limit, rounds[..|rounds| - 1], known), limit, rounds[|rounds| - 1], known)
  {
    hide Task;
  }

  /** An error uses a retry, a death keeps them, and any other job that goes on restores them. */
  lemma RetriesOfTask(c: Chain, limit: nat, round: Round, known: map<string, nat>)
    requires c.end.None? && c.retries <= MAX_RETRIES
    ensures var next := Task(c, limit, round, known);
      var errs, dies := Errs(c.world, limit, round), Dies(c.world, limit, round);
      && (next.end.None? ==> next.retries == if errs then c.retries + 1 else if dies then c.retries else 0)
      && (next.end == Some(GaveUp) <==> errs && c.retries == MAX_RETRIES)
      && !(errs && dies)
  {
    hide Execute, AllPending, EveryReplyFails, Unprocessed;
  }

  lemma UnprocessedIsLimited(reviews: seq<Review>, limit: nat)
    ensures |Unprocessed(reviews, limit)| <= limit
  {
    hide AllPending;
  }

  /** What the last job adds to the errors and deaths before it. */
  lemma OneMoreJob(w: World, limit: nat, rounds: seq<Round>, known: map<string, nat>, a: nat)
    requires a < |rounds|
    ensures var front := rounds[..|rounds| - 1]; var last := |rounds| - 1; var before := Tasks(w, limit, front, known).world;
      && Erred(w, limit, rounds, known, last) == Errs(before, limit, rounds[last])
      && Died(w, limit, rounds, known, last) == Dies(before, limit, rounds[last])
      && (Failed(w, limit, rounds, known, a) <==>
            Failed(w, limit, front, known, a) && (Errs(before, limit, rounds[last]) || Dies(before, limit, rounds[last])))
      && Errors(w, limit, rounds, known, a) ==
           Errors(w, limit, front, known, a) + if Errs(before, limit, rounds[last]) then 1 else 0
  {
    hide Tasks, Errs, Dies;
    var front := rounds[..|rounds| - 1];
    forall k | 0 <= k < |front|
      ensures Erred(w, limit, front, known, k) == Erred(w, limit, rounds, known, k)
      ensures Died(w, limit, front, known, k) == Died(w, limit, rounds, known, k)
    {
      assert front[..k] == rounds[..k];
    }
  }

  /** Where the errors and deaths just behind the chain begin. */
  function FailuresSince(w: World, limit: nat, rounds: seq<Round>, known: map<string, nat>): (a: nat)
    ensures a <= |rounds|
  {
    if rounds == [] then 0
    else
      var last := |rounds| - 1;
      if Erred(w, limit, rounds, known, last) || Died(w, limit, rounds, known, last)
      then FailuresSince(w, limit, rounds[..last], known) else |rounds|
  }

  /** The retries of an open chain are the errors just behind it with nothing but deaths between: so many, and never more. */
  lemma {:induction false} RetriesCountErrors(w: World, limit: nat, rounds: seq<Round>, known: map<string, nat>)
    requires Tasks(w, limit, rounds, known).end.None?
    ensures var retries := Tasks(w, limit, rounds, known).retries; var since := FailuresSince(w, limit, rounds, known);
      && Failed(w, limit, rounds, known, since) && Errors(w, limit, rounds, known, since) == retries
      && forall a :: 0 <= a <= |rounds| && Failed(w, limit, rounds, known, a) ==> Errors(w, limit, rounds, known, a) <= retries
  {
    assert Tasks(w, limit, [], known).retries == 0;
    hide Task, Tasks, Errs, Dies, Failed, Erred, Died;
    NothingBehind(w, limit, rounds, known);
    if rounds != [] {
      var last := |rounds| - 1;
      var front := rounds[..last];
      LastTask(w, limit, rounds, known);
      OpenBefore(w, limit, rounds, known);
      RetriesAreBounded(w, limit, front, known);
      RetriesOfTask(Tasks(w, limit, front, known), limit, rounds[last], known);
      RetriesCountErrors(w, limit, front, known);
      OneMoreJob(w, limit, rounds, known, FailuresSince(w, limit, front, known));
      forall a | 0 <= a <= |rounds| && Failed(w, limit, rounds, known, a)
        ensures Errors(w, limit, rounds, known, a) <= Tasks(w, limit, rounds, known).retries
      {
        if a < |rounds| {
          OneMoreJob(w, limit, rounds, known, a);
        }
      }
    }
  }

  lemma NothingBehind(w: World, limit: nat, rounds: seq<Round>, known: map<string, nat>)
    ensures Failed(w, limit, rounds, known, |rounds|) && Errors(w, limit, rounds, known, |rounds|) == 0
  {
  }

  lemma OpenBefore(w: World, limit: nat, rounds: seq<Round>, known: map<string, nat>)
    requires rounds != [] && Tasks(w, limit, rounds, known).end.None?
    ensures Tasks(w, limit, rounds[..|rounds| - 1], known).end.None?
  {
  }

  /** A chain gives up with its last job exactly when that job is the sixth error with only deaths between. */
  lemma GivesUpNow(w: World, limit: nat, rounds: seq<Round>, known: map<string, nat>)
    requires rounds != [] && Tasks(w, limit, rounds[..|rounds| - 1], known).end.None?
    ensures Tasks(w, limit, rounds, known).end == Some(GaveUp) <==>
      exists a :: 0 <= a < |rounds| && SixErrors(w, limit, rounds, known, a)
  {
    hide Task, Tasks, Errs, Dies, Failed, Erred, Died;
    var last := |rounds| - 1;
    var front := rounds[..last];
    LastTask(w, limit, rounds, known);
    RetriesAreBounded(w, limit, front, known);
    RetriesOfTask(Tasks(w, limit, front, known), limit, rounds[last], known);
    RetriesCountErrors(w, limit, front, known);
    forall a | 0 <= a < |rounds| && SixErrors(w, limit, rounds, known, a)
      ensures Tasks(w, limit, rounds, known).end == Some(GaveUp)
    {
      OneMoreJob(w, limit, rounds, known, a);
    }
    var since := FailuresSince(w, limit, front, known);
    OneMoreJob(w, limit, rounds, known, since);
    assert Tasks(w, limit, rounds, known).end == Some(GaveUp) ==> SixErrors(w, limit, rounds, known, since);
  }

  /** A chain has given up exactly when six jobs ended with an error, with only deaths between them, while it was open. */
  lemma {:induction false} GivesUpIff(w: World, limit: nat, rounds: seq<Round>, known: map<string, nat>)
    ensures Tasks(w, limit, rounds, known).end == Some(GaveUp) <==>
      exists a, m :: 0 <= a < m <= |rounds| && SixErrors(w, limit, rounds[..m], known, a)
  {
    if rounds == [] {
      assert Tasks(w, limit, rounds, known).end.None?;
    } else {
      hide SixErrors;
      var last := |rounds| - 1;
      var front := rounds[..last];
      GivesUpIff(w, limit, front, known);
      LastTask(w, limit, rounds, known);
      assert rounds[..|rounds|] == rounds;
      assert forall m :: 0 <= m <= last ==> front[..m] == rounds[..m];
      hide Tasks, Task;
      if Tasks(w, limit, front, known).end.None? {
        GivesUpNow(w, limit, rounds, known);
      } else {
        EndIsFinal(Tasks(w, limit, front, known), limit, rounds[last], known);
        NoMoreErrors(w, limit, rounds, known);
      }
      EarlierOrNow(w, limit, rounds, known);
    }
  }

  /** Six errors end with the last job or before it. */
  lemma EarlierOrNow(w: World, limit: nat, rounds: seq<Round>, known: map<string, nat>)
    requires rounds != []
    ensures var front := rounds[..|rounds| - 1];
      (exists a, m :: 0 <= a < m <= |rounds| && SixErrors(w, limit, rounds[..m], known, a)) <==>
        || (exists a, m :: 0 <= a < m <= |front| && SixErrors(w, limit, front[..m], known, a))
        || (exists a :: 0 <= a < |rounds| && SixErrors(w, limit, rounds, known, a))
  {
    hide SixErrors;
    var front := rounds[..|rounds| - 1];
    assert rounds[..|rounds|] == rounds;
    assert forall m :: 0 <= m <= |front| ==> front[..m] == rounds[..m];
  }

  lemma NoMoreErrors(w: World, limit: nat, rounds: seq<Round>, known: map<string, nat>)
    requires rounds != [] && Tasks(w, limit, rounds[..|rounds| - 1], known).end.Some?
    ensures forall a :: 0 <= a < |rounds| ==> !SixErrors(w, limit, rounds, known, a)
  {
  }

  /**
   A chain that gives up leaves reviews pending exactly when more attempts were
   left before its last job than that job spent; a job that ends by itself then
   spent one on every review of its batch.
   */
  lemma GivingUpLeavesPendingIff(w: World, limit: nat, rounds: seq<Round>, known: map<string, nat>)
    requires rounds != []
    requires Tasks(w, limit, rounds[..|rounds| - 1], known).end.None?
    requires Tasks(w, limit, rounds, known).end == Some(GaveUp)
    ensures var before := Tasks(w, limit, rounds[..|rounds| - 1], known).world;
      var last := rounds[|rounds| - 1];
      var batch := Unprocessed(before.reviews, limit);
      && InTable(before, batch)
      && (AllPending(Tasks(w, limit, rounds, known).world.reviews) != [] <==>
            Budget(before.reviews) > Spent(before.reviews, batch, RoundReplies(last)))
      && (last.Served? ==> Spent(before.reviews, batch, RoundReplies(last)) == |batch|)
  {
    var c := Tasks(w, limit, rounds[..|rounds| - 1], known);
    var last := rounds[|rounds| - 1];
    LastTask(w, limit, rounds, known);
    ExecuteSpends(c.world, limit, RoundReplies(last), known);
    ExecuteSpendsExactly(c.world, limit, RoundReplies(last), known);
    BudgetIsSpent(Tasks(w, limit, rounds, known).world.reviews);
    hide Tasks, Execute, AllPending, Budget, EveryReplyFails, Unprocessed, Spent;
  }

  /** A chain that a death interrupts still gives up: five broken jobs, one that dies, and one more broken job. */
  lemma DeathsKeepTheRetries(known: map<string, nat>)
    ensures var b := Broken([]);
      Tasks(World([Review(false, None)], []), 1, [b, b, b, b, b, Served([]), b], known).end == Some(GaveUp)
  {
    var w := World([Review(false, None)], []);
    var b := Broken([]);
    var rounds := [b, b, b, b, b, Served([]), b];
    OnePending(w);
    var c := Chain(w, 0, None);
    assert rounds[..0] == [];
    BrokenTask(w, 0, known);
    BrokenTask(w, 1, known);
    BrokenTask(w, 2, known);
    BrokenTask(w, 3, known);
    BrokenTask(w, 4, known);
    BrokenTask(w, 5, known);
    hide Task;
    assert rounds[..1][..0] == rounds[..0] && rounds[..2][..1] == rounds[..1] && rounds[..3][..2] == rounds[..2];
    assert rounds[..4][..3] == rounds[..3] && rounds[..5][..4] == rounds[..4] && rounds[..6][..5] == rounds[..5];
    assert Tasks(w, 1, rounds[..1], known) == Chain(w, 1, None);
    assert Tasks(w, 1, rounds[..2], known) == Chain(w, 2, None);
    assert Tasks(w, 1, rounds[..3], known) == Chain(w, 3, None);
    assert Tasks(w, 1, rounds[..4], known) == Chain(w, 4, None);
    assert Tasks(w, 1, rounds[..5], known) == Chain(w, 5, None);
    assert Tasks(w, 1, rounds[..6], known) == Chain(w, 5, None);
  }

  lemma OnePending(w: World)
    requires w.reviews == [Review(false, None)]
    ensures Unprocessed(w.reviews, 1) == [0]
  {
    assert AllPending(w.reviews[..0]) == [];
  }

  lemma BrokenTask(w: World, retries: nat, known: map<string, nat>)
    requires w.reviews == [Review(false, None)] && retries <= MAX_RETRIES
    ensures Task(Chain(w, retries, None), 1, Broken([]), known) ==
      if retries < MAX_RETRIES then Chain(w, retries + 1, None) else Chain(w, retries, Some(GaveUp))
    ensures Task(Chain(w, retries, None), 1, Served([]), known) == Chain(w, retries, None)
  {
    OnePending(w);
  }

  // ----- an interpreter that is down

  function Share(rounds: nat, limit: nat): nat {
    rounds * limit
  }

  lemma Shares(rounds: nat, limit: nat)
    ensures Share(rounds + 1, limit) == Share(rounds, limit) + limit
    ensures rounds <= 6 ==> Share(rounds, limit) <= 6 * limit
  {
    assert rounds <= 6 ==> (6 - rounds) * limit >= 0;
  }

  /** A served job has a reply for every review of its batch. */
  predicate FullRounds(rounds: seq<Round>, limit: nat) {
    forall k :: 0 <= k < |rounds| && rounds[k].Served? ==> |rounds[k].replies| >= limit
  }

  lemma FailingTask(c: Chain, limit: nat, round: Round, known: map<string, nat>)
    requires limit >= 1 && round.Served? && |round.replies| >= limit && EveryReplyFails(round.replies)
    requires c.end.None? && Budget(c.world.reviews) > 0
    ensures var next := Task(c, limit, round, known);
      && Budget(next.world.reviews) + limit >= Budget(c.world.reviews)
      && next.retries == (if c.retries < MAX_RETRIES then c.retries + 1 else c.retries)
      && next.end == (if c.retries < MAX_RETRIES then None else Some(GaveUp))
  {
    ExecuteSpends(c.world, limit, round.replies, known);
    BudgetIsSpent(c.world.reviews);
    SomeUnprocessed(c.world.reviews, limit);
    UnprocessedIsLimited(c.world.reviews, limit);
    FailingPrefix(round.replies, |Unprocessed(c.world.reviews, limit)|);
    hide Execute, AllPending, Budget, EveryReplyFails, Unprocessed;
  }

  lemma FailingPrefix(replies: seq<Reply>, n: nat)
    requires EveryReplyFails(replies)
    ensures n <= |replies| ==> EveryReplyFails(replies[..n])
  {
  }

  lemma {:induction false} FailingRoundsSpendLittle(w: World, limit: nat, rounds: seq<Round>, known: map<string, nat>)
    requires limit >= 1 && FullRounds(rounds, limit) && |rounds| <= 6 && Budget(w.reviews) > 6 * limit
    requires forall k :: 0 <= k < |rounds| ==> rounds[k].Served? && EveryReplyFails(rounds[k].replies)
    ensures var c := Tasks(w, limit, rounds, known);
      && Budget(c.world.reviews) + Share(|rounds|, limit) >= Budget(w.reviews)
      && c.retries == (if |rounds| <= 5 then |rounds| else 5)
      && c.end == (if |rounds| <= 5 then None else Some(GaveUp))
  {
    if rounds != [] {
      var last := |rounds| - 1;
      assert FullRounds(rounds[..last], limit);
      assert rounds[last].Served? && |rounds[last].replies| >= limit && EveryReplyFails(rounds[last].replies);
      LastTask(w, limit, rounds, known);
      hide Execute, Task, Tasks, Budget, EveryReplyFails, Share, FullRounds;
      FailingRoundsSpendLittle(w, limit, rounds[..last], known);
      Shares(last, limit);
      FailingTask(Tasks(w, limit, rounds[..last], known), limit, rounds[last], known);
    }
  }

  /** While the interpreter is down a chain stops after six jobs, with reviews pending whenever more than six batches of attempts were left. */
  lemma GivingUpLeavesReviews(w: World, limit: nat, rounds: seq<Round>, known: map<string, nat>)
    requires limit >= 1 && FullRounds(rounds, limit) && |rounds| == 6 && Budget(w.reviews) > 6 * limit
    requires forall k :: 0 <= k < |rounds| ==> rounds[k].Served? && EveryReplyFails(rounds[k].replies)
    ensures Tasks(w, limit, rounds, known).end == Some(GaveUp)
    ensures AllPending(Tasks(w, limit, rounds, known).world.reviews) != []
  {
    FailingRoundsSpendLittle(w, limit, rounds, known);
    Shares(6, limit);
    BudgetIsSpent(Tasks(w, limit, rounds, known).world.reviews);
  }
}
