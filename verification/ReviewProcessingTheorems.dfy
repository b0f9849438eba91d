/**
 Review processing terminates: every attempt uses up a little of a finite
 budget, so no review is tried too often and none waits forever.
 */
module ReviewProcessingTheorems {
  import opened Common
  import opened ReviewProcessing

  // ----- the budget

  /** The attempts a review may still cost. */
  function Left(r: Review): nat {
    if Pending(r) then MAX_ATTEMPTS - Attempts(r) else 0
  }

  function Budget(reviews: seq<Review>): nat {
    if reviews == [] then 0
    else Budget(reviews[..|reviews| - 1]) + Left(reviews[|reviews| - 1])
  }

  lemma {:induction false} BudgetUpdate(reviews: seq<Review>, i: nat, r: Review)
    requires i < |reviews|
    ensures Budget(reviews[i := r]) == Budget(reviews) - Left(reviews[i]) + Left(r)
  {
    var last := |reviews| - 1;
    if i == last {
      assert reviews[i := r][..last] == reviews[..last];
    } else {
      BudgetUpdate(reviews[..last], i, r);
      assert reviews[i := r][..last] == reviews[..last][i := r];
    }
  }

  lemma {:induction false} BudgetIsSpent(reviews: seq<Review>)
    ensures Budget(reviews) == 0 <==> AllPending(reviews) == []
  {
    if reviews != [] {
      BudgetIsSpent(reviews[..|reviews| - 1]);
    }
  }

  /** Distinct pending reviews. */
  ghost predicate Waiting(w: World, ids: seq<nat>) {
    && InTable(w, ids) && Distinct(ids)
    && forall k :: 0 <= k < |ids| ==> Pending(w.reviews[ids[k]])
  }

  lemma OneLeavesWaiting(w: World, ids: seq<nat>, reply: Reply, known: map<string, nat>)
    requires ids != [] && Waiting(w, ids)
    ensures Waiting(One(w, ids[0], reply, known), ids[1..])
  {
    forall k | 0 <= k < |ids[1..]| ensures ids[1..][k] < |w.reviews| && ids[1..][k] != ids[0] && Pending(w.reviews[ids[1..][k]]) {
      assert ids[1..][k] == ids[k + 1];
    }
  }

  lemma OneSpends(w: World, i: nat, reply: Reply, known: map<string, nat>, n: nat)
    requires i < n <= |w.reviews| && Pending(w.reviews[i])
    ensures Budget(One(w, i, reply, known).reviews[..n]) + 1 <= Budget(w.reviews[..n])
    ensures reply.Failing? ==> Budget(One(w, i, reply, known).reviews[..n]) + 1 == Budget(w.reviews[..n])
  {
    var after := One(w, i, reply, known).reviews;
    BudgetUpdate(w.reviews[..n], i, after[i]);
    assert after[..n] == w.reviews[..n][i := after[i]];
    hide Budget;
  }

  /** The reviews of a batch that get a reply. */
  function Reached(ids: seq<nat>, replies: seq<Reply>): seq<nat> {
    if |ids| <= |replies| then ids else ids[..|replies|]
  }

  /** Every reply costs some of the budget, a failing one exactly one attempt. */
  lemma {:induction false} BatchSpends(w: World, ids: seq<nat>, replies: seq<Reply>, known: map<string, nat>, n: nat)
    requires Waiting(w, ids) && n <= |w.reviews|
    requires forall k :: 0 <= k < |ids| ==> ids[k] < n
    ensures var reached := |Reached(ids, replies)|; var after := Batch(w, ids, replies, known).reviews[..n];
      && reached <= |replies| && Budget(after) + reached <= Budget(w.reviews[..n])
      && (EveryReplyFails(replies[..reached]) ==> Budget(after) + reached == Budget(w.reviews[..n]))
    decreases |ids|
  {
    if ids != [] && replies != [] {
      assert Pending(w.reviews[ids[0]]);
      hide One, Budget, Waiting, EveryReplyFails, Pending, Reached;
      OneSpends(w, ids[0], replies[0], known, n);
      OneLeavesWaiting(w, ids, replies[0], known);
      assert forall k :: 0 <= k < |ids[1..]| ==> ids[1..][k] == ids[k + 1];
      FirstAndRest(ids, replies);
      BatchSpends(One(w, ids[0], replies[0], known), ids[1..], replies[1..], known, n);
    }
  }

  lemma FirstAndRest(ids: seq<nat>, replies: seq<Reply>)
    requires ids != [] && replies != []
    ensures var n := |Reached(ids, replies)|; var m := |Reached(ids[1..], replies[1..])|;
      && n == m + 1 <= |replies| && m <= |replies[1..]|
      && (EveryReplyFails(replies[..n]) ==> replies[0].Failing? && EveryReplyFails(replies[1..][..m]))
  {
    var n := |Reached(ids, replies)|;
    assert replies[..n][0] == replies[0];
    var rest := replies[1..][..n - 1];
    assert forall k :: 0 <= k < |rest| ==> rest[k] == replies[..n][k + 1];
  }

  /** What the replies cost: an attempt for a failing one, and all attempts left for a review that is completed. */
  function Spent(reviews: seq<Review>, ids: seq<nat>, replies: seq<Reply>): nat
    requires forall k :: 0 <= k < |ids| ==> ids[k] < |reviews|
  {
    if ids == [] || replies == [] then 0
    else
      assert forall k :: 0 <= k < |ids[1..]| ==> ids[1..][k] == ids[k + 1];
      (if replies[0].Failing? then 1 else Left(reviews[ids[0]])) + Spent(reviews, ids[1..], replies[1..])
  }

  lemma {:induction false} SpentOnOthers(reviews: seq<Review>, i: nat, r: Review, ids: seq<nat>, replies: seq<Reply>)
    requires i < |reviews| && forall k :: 0 <= k < |ids| ==> ids[k] < |reviews| && ids[k] != i
    ensures Spent(reviews[i := r], ids, replies) == Spent(reviews, ids, replies)
  {
    hide Left;
    if ids != [] && replies != [] {
      assert forall k :: 0 <= k < |ids[1..]| ==> ids[1..][k] == ids[k + 1];
      SpentOnOthers(reviews, i, r, ids[1..], replies[1..]);
    }
  }

  lemma OneSpendsExactly(w: World, i: nat, reply: Reply, known: map<string, nat>)
    requires i < |w.reviews| && Pending(w.reviews[i])
    ensures Budget(One(w, i, reply, known).reviews) + (if reply.Failing? then 1 else Left(w.reviews[i])) == Budget(w.reviews)
  {
    BudgetUpdate(w.reviews, i, One(w, i, reply, known).reviews[i]);
    hide Budget;
  }

  lemma {:induction false} BatchSpendsExactly(w: World, ids: seq<nat>, replies: seq<Reply>, known: map<string, nat>)
    requires Waiting(w, ids)
    ensures Budget(Batch(w, ids, replies, known).reviews) + Spent(w.reviews, ids, replies) == Budget(w.reviews)
    decreases |ids|
  {
    if ids != [] && replies != [] {
      assert Pending(w.reviews[ids[0]]);
      assert forall k :: 0 <= k < |ids[1..]| ==> ids[1..][k] == ids[k + 1] && ids[1..][k] != ids[0];
      var next := One(w, ids[0], replies[0], known);
      assert next.reviews == w.reviews[ids[0] := next.reviews[ids[0]]];
      hide One, Budget, Waiting, Pending, Left;
      OneSpendsExactly(w, ids[0], replies[0], known);
      OneLeavesWaiting(w, ids, replies[0], known);
      SpentOnOthers(w.reviews, ids[0], next.reviews[ids[0]], ids[1..], replies[1..]);
      BatchSpendsExactly(next, ids[1..], replies[1..], known);
    }
  }

  /** A batch costs exactly what its replies cost. */
  lemma ExecuteSpendsExactly(w: World, limit: nat, replies: seq<Reply>, known: map<string, nat>)
    ensures InTable(w, Unprocessed(w.reviews, limit))
    ensures Budget(Execute(w, limit, replies, known).reviews) + Spent(w.reviews, Unprocessed(w.reviews, limit), replies) == Budget(w.reviews)
  {
    UnprocessedWaits(w, limit);
    BatchSpendsExactly(w, Unprocessed(w.reviews, limit), replies, known);
  }

  lemma ReachedFirst(ids: seq<nat>, replies: seq<Reply>, i: nat)
    requires ids != [] && replies != [] && Distinct(ids)
    ensures i in Reached(ids, replies) <==> i == ids[0] || i in Reached(ids[1..], replies[1..])
    ensures i in ids <==> i == ids[0] || i in ids[1..]
    ensures ids[0] !in Reached(ids[1..], replies[1..]) && ids[0] !in ids[1..]
  {
    assert Reached(ids, replies) == [ids[0]] + Reached(ids[1..], replies[1..]) && ids == [ids[0]] + ids[1..];
    assert Reached(ids[1..], replies[1..]) <= ids[1..];
  }

  /** A batch changes only its own reviews, and tries each of those it reaches once. */
  lemma {:induction false} BatchTouches(w: World, ids: seq<nat>, replies: seq<Reply>, known: map<string, nat>, i: nat)
    requires Waiting(w, ids) && i < |w.reviews|
    ensures var after := Batch(w, ids, replies, known).reviews[i];
      && Attempts(after) == Attempts(w.reviews[i]) + (if i in Reached(ids, replies) then 1 else 0)
      && (i !in ids ==> after == w.reviews[i])
    decreases |ids|
  {
    if ids != [] && replies != [] {
      OneLeavesWaiting(w, ids, replies[0], known);
      ReachedFirst(ids, replies, i);
      var next := One(w, ids[0], replies[0], known);
      assert i != ids[0] ==> next.reviews[i] == w.reviews[i];
      assert i == ids[0] ==> Attempts(next.reviews[i]) == Attempts(w.reviews[i]) + 1;
      hide One, Waiting, Attempts, Reached, Distinct;
      BatchTouches(next, ids[1..], replies[1..], known, i);
    }
  }

  lemma UnprocessedWaits(w: World, limit: nat)
    ensures Waiting(w, Unprocessed(w.reviews, limit))
  {
    PendingIsInTable(w.reviews);
  }

  // ----- runs of batches

  function Run(w: World, limit: nat, rounds: seq<seq<Reply>>, known: map<string, nat>): (r: World)
    ensures |r.reviews| == |w.reviews|
  {
    if rounds == [] then w
    else Execute(Run(w, limit, rounds[..|rounds| - 1], known), limit, rounds[|rounds| - 1], known)
  }

  /** Every round has a reply for every review of its batch. */
  predicate Full(rounds: seq<seq<Reply>>, limit: nat) {
    forall k :: 0 <= k < |rounds| ==> |rounds[k]| >= limit
  }

  /** A batch spends an attempt for every reply it gets, and exactly as many when all of them fail. */
  lemma ExecuteSpends(w: World, limit: nat, replies: seq<Reply>, known: map<string, nat>)
    ensures var n := |Reached(Unprocessed(w.reviews, limit), replies)|; var after := Execute(w, limit, replies, known).reviews;
      && n <= |replies| && (|replies| >= limit ==> n == |Unprocessed(w.reviews, limit)|)
      && Budget(after) + n <= Budget(w.reviews)
      && (EveryReplyFails(replies[..n]) ==> Budget(after) + n == Budget(w.reviews))
  {
    UnprocessedWaits(w, limit);
    var ids := Unprocessed(w.reviews, limit);
    BatchSpends(w, ids, replies, known, |w.reviews|);
    var after := Execute(w, limit, replies, known).reviews;
    assert after[..|after|] == after && w.reviews[..|w.reviews|] == w.reviews;
  }

  /** As many full rounds as there are attempts left settle every review. */
  lemma {:induction false} EveryReviewIsSettled(w: World, limit: nat, rounds: seq<seq<Reply>>, known: map<string, nat>)
    requires limit >= 1 && Full(rounds, limit)
    ensures AllPending(Run(w, limit, rounds, known).reviews) == [] || Budget(Run(w, limit, rounds, known).reviews) + |rounds| <= Budget(w.reviews)
    ensures |rounds| >= Budget(w.reviews) ==> AllPending(Run(w, limit, rounds, known).reviews) == []
  {
    BudgetIsSpent(Run(w, limit, rounds, known).reviews);
    if rounds != [] {
      var front := rounds[..|rounds| - 1];
      EveryReviewIsSettled(w, limit, front, known);
      var before := Run(w, limit, front, known);
      BudgetIsSpent(before.reviews);
      ExecuteSpends(before, limit, rounds[|rounds| - 1], known);
      hide Execute, AllPending, Budget;
    }
  }

  /** A batch either reaches the review or spends on the ones before it. */
  lemma BatchReachesOrSpends(w: World, limit: nat, replies: seq<Reply>, known: map<string, nat>, i: nat)
    requires limit >= 1 && |replies| >= limit && i < |w.reviews| && Pending(w.reviews[i])
    ensures var after := Execute(w, limit, replies, known).reviews;
      || Attempts(after[i]) == Attempts(w.reviews[i]) + 1
      || (after[i] == w.reviews[i] && Budget(after[..i]) < Budget(w.reviews[..i]))
  {
    var ids := Unprocessed(w.reviews, limit);
    UnprocessedWaits(w, limit);
    BatchTouches(w, ids, replies, known, i);
    if i !in ids {
      NotReached(w.reviews, limit, i);
      BatchSpends(w, ids, replies, known, i);
    }
  }

  lemma NotReached(reviews: seq<Review>, limit: nat, i: nat)
    requires limit >= 1 && i < |reviews| && Pending(reviews[i]) && i !in Unprocessed(reviews, limit)
    ensures |Unprocessed(reviews, limit)| >= 1
    ensures forall k :: 0 <= k < |Unprocessed(reviews, limit)| ==> Unprocessed(reviews, limit)[k] < i
  {
    PendingIsInTable(reviews);
    var all := AllPending(reviews);
    hide AllPending;
    assert i in all;
    var a :| 0 <= a < |all| && all[a] == i;
    var taken := Unprocessed(reviews, limit);
    assert forall k :: 0 <= k < |taken| ==> taken[k] == all[k];
    assert |taken| <= a;
  }

  lemma AttemptsOnlyGrow(w: World, limit: nat, replies: seq<Reply>, known: map<string, nat>, i: nat)
    requires i < |w.reviews|
    ensures Attempts(Execute(w, limit, replies, known).reviews[i]) >= Attempts(w.reviews[i])
  {
    UnprocessedWaits(w, limit);
    BatchTouches(w, Unprocessed(w.reviews, limit), replies, known, i);
  }

  /** No review starves: it is tried after at most as many rounds as the reviews before it have attempts left, plus one. */
  lemma {:induction false} NoReviewStarves(w: World, limit: nat, rounds: seq<seq<Reply>>, known: map<string, nat>, i: nat)
    requires limit >= 1 && Full(rounds, limit) && i < |w.reviews| && Pending(w.reviews[i])
    ensures var after := Run(w, limit, rounds, known).reviews;
      || Attempts(after[i]) > Attempts(w.reviews[i])
      || (after[i] == w.reviews[i] && Budget(after[..i]) + |rounds| <= Budget(w.reviews[..i]))
    ensures |rounds| > Budget(w.reviews[..i]) ==> Attempts(Run(w, limit, rounds, known).reviews[i]) > Attempts(w.reviews[i])
  {
    if rounds != [] {
      var front := rounds[..|rounds| - 1];
      NoReviewStarves(w, limit, front, known, i);
      var before := Run(w, limit, front, known);
      AttemptsOnlyGrow(before, limit, rounds[|rounds| - 1], known, i);
      if Attempts(before.reviews[i]) == Attempts(w.reviews[i]) {
        BatchReachesOrSpends(before, limit, rounds[|rounds| - 1], known, i);
      }
      hide Execute, Budget, Attempts;
    }
  }

  // ----- what a batch reports

  predicate IsCompleted(r: Review) {
    r.progress.Some? && r.progress.value.completed
  }

  lemma {:induction false} CountUpdate(reviews: seq<Review>, i: nat, r: Review)
    requires i < |reviews|
    ensures Count(reviews[i := r], IsCompleted) + (if IsCompleted(reviews[i]) then 1 else 0) ==
      Count(reviews, IsCompleted) + if IsCompleted(r) then 1 else 0
  {
    var last := |reviews| - 1;
    if i == last {
      assert reviews[i := r][..last] == reviews[..last];
    } else {
      CountUpdate(reviews[..last], i, r);
      assert reviews[i := r][..last] == reviews[..last][i := r];
    }
  }

  function Extractions(replies: seq<Reply>, n: nat): nat
    requires n <= |replies|
  {
    if n == 0 then 0 else (if replies[0].Extracted? then 1 else 0) + Extractions(replies[1..], n - 1)
  }

  lemma {:induction false} ExtractionsAreCounted(replies: seq<Reply>, n: nat)
    requires n <= |replies|
    ensures Extractions(replies, n) == Count(replies[..n], (r: Reply) => r.Extracted?)
  {
    if n > 0 {
      ExtractionsAreCounted(replies[1..], n - 1);
      assert replies[..n] == [replies[0]] + replies[1..][..n - 1];
      CountConcat([replies[0]], replies[1..][..n - 1], (r: Reply) => r.Extracted?);
      assert [replies[0]][..0] == [];
    }
  }

  /** Every extraction completes one review of the batch. */
  lemma {:induction false} BatchCompletes(w: World, ids: seq<nat>, replies: seq<Reply>, known: map<string, nat>)
    requires Waiting(w, ids)
    ensures |Reached(ids, replies)| <= |replies|
    ensures Count(Batch(w, ids, replies, known).reviews, IsCompleted) ==
      Count(w.reviews, IsCompleted) + Extractions(replies, |Reached(ids, replies)|)
    decreases |ids|
  {
    if ids != [] && replies != [] {
      assert Pending(w.reviews[ids[0]]);
      var next := One(w, ids[0], replies[0], known);
      assert next.reviews == w.reviews[ids[0] := next.reviews[ids[0]]];
      assert !IsCompleted(w.reviews[ids[0]]) && (IsCompleted(next.reviews[ids[0]]) <==> replies[0].Extracted?);
      CountUpdate(w.reviews, ids[0], next.reviews[ids[0]]);
      FirstAndRest(ids, replies);
      OneLeavesWaiting(w, ids, replies[0], known);
      hide One, Waiting, Pending, Reached, Count;
      BatchCompletes(next, ids[1..], replies[1..], known);
    }
  }

  /** A batch that reports how many reviews it processed has completed exactly so many, and one that reports a failure of all of them none. */
  lemma ReportedAreCompleted(w: World, limit: nat, replies: seq<Reply>, known: map<string, nat>)
    ensures var before := Count(w.reviews, IsCompleted); var after := Count(Execute(w, limit, replies, known).reviews, IsCompleted);
      match Outcome(w, limit, replies)
      case Processed(count) => after == before + count
      case AllFailed => after == before
      case Died => after >= before
  {
    var ids := Unprocessed(w.reviews, limit);
    UnprocessedWaits(w, limit);
    BatchCompletes(w, ids, replies, known);
    var n := |Reached(ids, replies)|;
    ExtractionsAreCounted(replies, n);
    NoneExtracted(replies[..n]);
    hide Unprocessed, Batch, Waiting, Extractions;
  }

  lemma {:induction false} NoneExtracted(replies: seq<Reply>)
    ensures EveryReplyFails(replies) ==> Count(replies, (r: Reply) => r.Extracted?) == 0
  {
    if replies != [] {
      NoneExtracted(replies[..|replies| - 1]);
    }
  }
}
