/**
 Background extraction of review mentions: batches of the first pending reviews,
 a bounded number of attempts for each, and a job that is queued again until
 nothing is pending.
 */
module ReviewProcessing {
  import opened Common

  const MAX_ATTEMPTS: nat := 5
  const MAX_RETRIES: nat := 5

  /** The processing state of a review for the active algorithm version. */
  datatype Progress = Progress(completed: bool, attempts: nat, mentions: nat)

  /** A review; its place in the table is its place in the order of identifiers. */
  datatype Review = Review(deleted: bool, progress: Option<Progress>)

  /** A stored mention, as far as its uniqueness constraint sees it. */
  datatype Mention = Mention(review: nat, attribute: nat, evidence: string)

  datatype World = World(reviews: seq<Review>, mentions: seq<Mention>)

  /** An attribute the interpreter found, with the words that show it. */
  datatype Output = Output(slug: string, evidence: string)

  /** What the interpreter makes of one review: attributes it found, or an error. */
  datatype Reply = Extracted(outputs: seq<Output>) | Failing

  datatype Result = Processed(count: nat) | AllFailed | Died

  function Attempts(r: Review): nat {
    if r.progress.Some? then r.progress.value.attempts else 0
  }

  predicate Settled(r: Review) {
    r.progress.Some? && (r.progress.value.completed || r.progress.value.attempts >= MAX_ATTEMPTS)
  }

  predicate Pending(r: Review) {
    !r.deleted && !Settled(r)
  }

  function AllPending(reviews: seq<Review>): seq<nat> {
    if reviews == [] then []
    else
      var front := AllPending(reviews[..|reviews| - 1]);
      if Pending(reviews[|reviews| - 1]) then front + [|reviews| - 1] else front
  }

  /** The first `limit` pending reviews. */
  function Unprocessed(reviews: seq<Review>, limit: nat): seq<nat> {
    if |AllPending(reviews)| <= limit then AllPending(reviews) else AllPending(reviews)[..limit]
  }

  /** The mentions of known attributes; other slugs are dropped. */
  function Kept(review: nat, outputs: seq<Output>, known: map<string, nat>): seq<Mention> {
    if outputs == [] then []
    else
      var front := Kept(review, outputs[..|outputs| - 1], known);
      var last := outputs[|outputs| - 1];
      if last.slug in known then front + [Mention(review, known[last.slug], last.evidence)] else front
  }

  /** Insertion that does nothing for a mention that is stored already. */
  function WithMentions(stored: seq<Mention>, more: seq<Mention>): seq<Mention> {
    if more == [] then stored
    else
      var front := WithMentions(stored, more[..|more| - 1]);
      var last := more[|more| - 1];
      if last in front then front else front + [last]
  }

  function Marked(r: Review, completed: bool, mentions: nat): Review {
    r.(progress := Some(Progress(completed, Attempts(r) + 1, mentions)))
  }

  function One(w: World, i: nat, reply: Reply, known: map<string, nat>): World
    requires i < |w.reviews|
  {
    match reply
    case Failing => w.(reviews := w.reviews[i := Marked(w.reviews[i], false, 0)])
    case Extracted(outputs) =>
      var kept := Kept(i, outputs, known);
      World(w.reviews[i := Marked(w.reviews[i], true, |kept|)], WithMentions(w.mentions, kept))
  }

  predicate InTable(w: World, ids: seq<nat>) {
    forall k :: 0 <= k < |ids| ==> ids[k] < |w.reviews|
  }

  /** The reviews of a batch one after the other, for as long as the worker lives to get replies. */
  function Batch(w: World, ids: seq<nat>, replies: seq<Reply>, known: map<string, nat>): (r: World)
    requires InTable(w, ids)
    ensures |r.reviews| == |w.reviews|
    decreases |ids|
  {
    if ids == [] || replies == [] then w
    else
      var next := One(w, ids[0], replies[0], known);
      assert forall k :: 0 <= k < |ids[1..]| ==> ids[1..][k] == ids[k + 1];
      Batch(next, ids[1..], replies[1..], known)
  }

  predicate EveryReplyFails(replies: seq<Reply>) {
    forall k :: 0 <= k < |replies| ==> replies[k].Failing?
  }

  function Execute(w: World, limit: nat, replies: seq<Reply>, known: map<string, nat>): (r: World)
    ensures |r.reviews| == |w.reviews|
  {
    PendingIsInTable(w.reviews);
    Batch(w, Unprocessed(w.reviews, limit), replies, known)
  }

  function Outcome(w: World, limit: nat, replies: seq<Reply>): Result {
    var n := |Unprocessed(w.reviews, limit)|;
    if |replies| < n then Died
    else if n > 0 && EveryReplyFails(replies[..n]) then AllFailed
    else Processed(Count(replies[..n], (r: Reply) => r.Extracted?))
  }

  lemma {:induction false} PendingIsInTable(reviews: seq<Review>)
    ensures forall i: nat :: i in AllPending(reviews) <==> i < |reviews| && Pending(reviews[i])
    ensures forall a, b :: 0 <= a < b < |AllPending(reviews)| ==> AllPending(reviews)[a] < AllPending(reviews)[b]
    ensures forall a :: 0 <= a < |AllPending(reviews)| ==> AllPending(reviews)[a] < |reviews| && Pending(reviews[AllPending(reviews)[a]])
  {
    if reviews != [] {
      var front := reviews[..|reviews| - 1];
      PendingIsInTable(front);
      assert forall i: nat :: i < |front| ==> front[i] == reviews[i];
    }
  }

  lemma NoReplyFails(replies: seq<Reply>)
    ensures EveryReplyFails(replies[..0])
  {
  }

  lemma OneMoreReply(replies: seq<Reply>, k: nat)
    requires k < |replies|
    ensures EveryReplyFails(replies[..k + 1]) <==> EveryReplyFails(replies[..k]) && replies[k].Failing?
  {
    assert forall j :: 0 <= j < k ==> replies[..k + 1][j] == replies[..k][j];
  }

  // ----- chains of queued jobs

  /**
   How one job of a chain goes: it gets these replies, stops with another error
   behind them, or finds that a job of another chain is at work.
   */
  datatype Round = Served(replies: seq<Reply>) | Broken(replies: seq<Reply>) | Busy

  datatype End = Finished | GaveUp | Yielded

  /** One chain of queued jobs: the table, the retries of the current job and how the chain ended. */
  datatype Chain = Chain(world: World, retries: nat, end: Option<End>)

  function RoundReplies(round: Round): seq<Reply> {
    if round.Busy? then [] else round.replies
  }

  /** The job ends with an error. */
  predicate Errs(w: World, limit: nat, round: Round) {
    round.Broken? || (round.Served? && Outcome(w, limit, round.replies).AllFailed?)
  }

  /** A job that dies is delivered once more with the retries it had. */
  function Task(c: Chain, limit: nat, round: Round, known: map<string, nat>): Chain {
    if c.end.Some? then c
    else if round.Busy? then c.(end := Some(Yielded))
    else
      var after := Execute(c.world, limit, round.replies, known);
      if Errs(c.world, limit, round) then
        if c.retries < MAX_RETRIES then Chain(after, c.retries + 1, None) else Chain(after, c.retries, Some(GaveUp))
      else if Outcome(c.world, limit, round.replies).Died? then c.(world := after)
      else if AllPending(after.reviews) != [] then Chain(after, 0, None)
      else Chain(after, c.retries, Some(Finished))
  }

  function Tasks(w: World, limit: nat, rounds: seq<Round>, known: map<string, nat>): Chain {
    if rounds == [] then Chain(w, 0, None)
    else Task(Tasks(w, limit, rounds[..|rounds| - 1], known), limit, rounds[|rounds| - 1], known)
  }

  class ReviewWorker {
    const known: map<string, nat>
    var reviews: seq<Review>
    var mentions: seq<Mention>
    var retries: nat
    var end: Option<End>

    ghost function View(): World
      reads this
    {
      World(reviews, mentions)
    }

    ghost function ChainView(): Chain
      reads this
    {
      Chain(View(), retries, end)
    }

    constructor (known: map<string, nat>, reviews: seq<Review>)
      ensures this.known == known && ChainView() == Chain(World(reviews, []), 0, None)
    {
      this.known := known;
      this.reviews, mentions, retries, end := reviews, [], 0, None;
    }

    method MarkProcessingStatus(i: nat, completed: bool, mentionCount: nat)
      requires i < |reviews|
      modifies this`reviews
      ensures reviews == old(reviews)[i := Marked(old(reviews)[i], completed, mentionCount)]
    {
      var r := reviews[i];
      if r.progress.None? {
        reviews := reviews[i := r.(progress := Some(Progress(completed, 1, mentionCount)))];
      } else {
        reviews := reviews[i := r.(progress := Some(Progress(completed, r.progress.value.attempts + 1, mentionCount)))];
      }
    }

    method MentionModels(i: nat, outputs: seq<Output>) returns (kept: seq<Mention>)
      ensures kept == Kept(i, outputs, known)
    {
      kept := [];
      for k := 0 to |outputs|
        invariant kept == Kept(i, outputs[..k], known)
      {
        assert outputs[..k + 1][..k] == outputs[..k];
        if outputs[k].slug in known {
          kept := kept + [Mention(i, known[outputs[k].slug], outputs[k].evidence)];
        }
      }
      assert outputs[..|outputs|] == outputs;
    }

    method AddMentions(more: seq<Mention>)
      modifies this`mentions
      ensures mentions == WithMentions(old(mentions), more)
    {
      for k := 0 to |more|
        invariant mentions == WithMentions(old(mentions), more[..k])
      {
        assert more[..k + 1][..k] == more[..k];
        if more[k] !in mentions {
          mentions := mentions + [more[k]];
        }
      }
      assert more[..|more|] == more;
    }

    method ProcessOne(i: nat, reply: Reply)
      requires i < |reviews|
      modifies this`reviews, this`mentions
      ensures View() == One(old(View()), i, reply, known)
    {
      if reply.Failing? {
        MarkProcessingStatus(i, false, 0);
        return;
      }
      var kept := MentionModels(i, reply.outputs);
      if kept != [] {
        AddMentions(kept);
      }
      MarkProcessingStatus(i, true, |kept|);
    }

    method ProcessReviews(limit: nat, replies: seq<Reply>) returns (r: Result)
      modifies this`reviews, this`mentions
      ensures View() == Execute(old(View()), limit, replies, known)
      ensures r == Outcome(old(View()), limit, replies)
    {
      PendingIsInTable(reviews);
      ghost var w := View();
      var batch := Unprocessed(reviews, limit);
      assert InTable(w, batch);
      assert batch[0..] == batch && replies[0..] == replies;
      hide Unprocessed, One, EveryReplyFails, AllPending;
      assert EveryReplyFails(replies[..0]) by { NoReplyFails(replies); }
      var processed, failed, k := 0, 0, 0;
      while k < |batch|
        invariant k <= |batch| && k <= |replies|
        invariant InTable(View(), batch[k..]) && InTable(w, batch)
        invariant Batch(w, batch, replies, known) == Batch(View(), batch[k..], replies[k..], known)
        invariant processed == Count(replies[..k], (r: Reply) => r.Extracted?)
        invariant failed <= k && (failed == k <==> EveryReplyFails(replies[..k]))
      {
        if k == |replies| {
          return Died;
        }
        assert batch[k..][1..] == batch[k + 1..] && replies[k..][1..] == replies[k + 1..];
        assert replies[..k + 1][..k] == replies[..k];
        OneMoreReply(replies, k);
        ProcessOne(batch[k], replies[k]);
        if replies[k].Failing? {
          failed := failed + 1;
        } else {
          processed := processed + 1;
        }
        k := k + 1;
      }
      if batch != [] && failed == |batch| {
        return AllFailed;
      }
      r := Processed(processed);
    }

    method RunTask(limit: nat, round: Round)
      requires end.None?
      modifies this
      ensures ChainView() == Task(old(ChainView()), limit, round, known)
    {
      hide Execute, AllPending, EveryReplyFails;
      if round.Busy? {
        end := Some(Yielded);
        return;
      }
      var r := ProcessReviews(limit, round.replies);
      if round.Broken? || r.AllFailed? {
        if retries < MAX_RETRIES {
          retries := retries + 1;
        } else {
          end := Some(GaveUp);
        }
      } else if r.Processed? {
        var pending := HasPending();
        if pending {
          retries := 0;
        } else {
          end := Some(Finished);
        }
      }
    }

    method HasPending() returns (pending: bool)
      ensures pending <==> AllPending(reviews) != []
    {
      pending := Unprocessed(reviews, 1) != [];
    }
  }
}
