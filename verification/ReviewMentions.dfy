/**
 The mentions review processing stores: a review is tried a bounded number of
 times, and its stored mentions are those its status counts, without repeats.
 */
module ReviewMentions {
  import opened Common
  import opened ReviewProcessing
  import opened ReviewProcessingTheorems

  function MentionsOf(mentions: seq<Mention>, i: nat): nat {
    if mentions == [] then 0
    else MentionsOf(mentions[..|mentions| - 1], i) + if mentions[|mentions| - 1].review == i then 1 else 0
  }

  /** The number of mentions the status claims. */
  function Claimed(r: Review): nat {
    if r.progress.Some? && r.progress.value.completed then r.progress.value.mentions else 0
  }

  /** No review was tried too often, and no more mentions are stored than its status claims. */
  ghost predicate Inv(w: World) {
    forall i :: 0 <= i < |w.reviews| ==>
      && Attempts(w.reviews[i]) <= MAX_ATTEMPTS
      && MentionsOf(w.mentions, i) <= Claimed(w.reviews[i])
  }

  // ----- storing without repeats

  lemma {:induction false} NoneStored(mentions: seq<Mention>, m: Mention)
    requires MentionsOf(mentions, m.review) == 0
    ensures m !in mentions
  {
    if mentions != [] {
      NoneStored(mentions[..|mentions| - 1], m);
    }
  }

  lemma {:induction false} StoredMembers(stored: seq<Mention>, more: seq<Mention>, m: Mention)
    ensures m in WithMentions(stored, more) <==> m in stored || m in more
  {
    if more != [] {
      StoredMembers(stored, more[..|more| - 1], m);
      assert more == more[..|more| - 1] + [more[|more| - 1]];
    }
  }

  lemma OneMoreMention(mentions: seq<Mention>, m: Mention, i: nat)
    ensures MentionsOf(mentions + [m], i) == MentionsOf(mentions, i) + if m.review == i then 1 else 0
  {
    assert (mentions + [m])[..|mentions|] == mentions;
  }

  predicate AllOf(mentions: seq<Mention>, i: nat) {
    forall k :: 0 <= k < |mentions| ==> mentions[k].review == i
  }

  /** What a review without mentions stores is what it would store alone; the others keep theirs. */
  lemma {:induction false} StoredForReview(stored: seq<Mention>, more: seq<Mention>, i: nat, j: nat)
    requires AllOf(more, i) && MentionsOf(stored, i) == 0
    ensures MentionsOf(WithMentions(stored, more), j) == if j == i then |WithMentions([], more)| else MentionsOf(stored, j)
  {
    if more != [] {
      var front := more[..|more| - 1];
      var last := more[|more| - 1];
      StoredForReview(stored, front, i, j);
      StoredMembers(stored, front, last);
      StoredMembers([], front, last);
      NoneStored(stored, last);
      OneMoreMention(WithMentions(stored, front), last, j);
    }
  }

  /** Storing loses nothing exactly when nothing is repeated. */
  lemma {:induction false} StoredAllIffDistinct(more: seq<Mention>)
    ensures |WithMentions([], more)| <= |more|
    ensures |WithMentions([], more)| == |more| <==> Distinct(more)
  {
    if more != [] {
      var front := more[..|more| - 1];
      StoredAllIffDistinct(front);
      StoredMembers([], front, more[|more| - 1]);
      DistinctLast(front, more[|more| - 1]);
      assert more == front + [more[|more| - 1]];
    }
  }

  lemma DistinctLast(s: seq<Mention>, m: Mention)
    ensures Distinct(s + [m]) <==> Distinct(s) && m !in s
  {
    var all := s + [m];
    if Distinct(all) {
      forall i, j | 0 <= i < j < |s| ensures s[i] != s[j] {
        assert all[i] != all[j];
      }
      forall i | 0 <= i < |s| ensures s[i] != m {
        assert all[i] != all[|s|];
      }
    }
  }

  /** The two outputs are one mention: the same known attribute and the same evidence. */
  predicate SameMention(o: Output, p: Output, known: map<string, nat>) {
    o.slug in known && p.slug in known && known[o.slug] == known[p.slug] && o.evidence == p.evidence
  }

  /** No known attribute is named twice with the same evidence. */
  predicate NamesNothingTwice(outputs: seq<Output>, known: map<string, nat>) {
    forall i, j :: 0 <= i < j < |outputs| ==> !SameMention(outputs[i], outputs[j], known)
  }

  lemma {:induction false} KeptMember(review: nat, outputs: seq<Output>, known: map<string, nat>, m: Mention)
    ensures AllOf(Kept(review, outputs, known), review)
    ensures m in Kept(review, outputs, known) <==>
      exists i :: 0 <= i < |outputs| && outputs[i].slug in known && m == Mention(review, known[outputs[i].slug], outputs[i].evidence)
  {
    if outputs != [] {
      var front := outputs[..|outputs| - 1];
      KeptMember(review, front, known, m);
      assert forall i :: 0 <= i < |front| ==> front[i] == outputs[i];
      var last := outputs[|outputs| - 1];
      assert last == outputs[|outputs| - 1];
    }
  }

  lemma TwiceLast(front: seq<Output>, last: Output, known: map<string, nat>)
    ensures NamesNothingTwice(front + [last], known) <==>
      NamesNothingTwice(front, known) && forall i :: 0 <= i < |front| ==> !SameMention(front[i], last, known)
  {
    var all := front + [last];
    assert forall i :: 0 <= i < |front| ==> all[i] == front[i];
    assert all[|front|] == last;
  }

  lemma {:induction false} DistinctIffNothingTwice(review: nat, outputs: seq<Output>, known: map<string, nat>)
    ensures Distinct(Kept(review, outputs, known)) <==> NamesNothingTwice(outputs, known)
  {
    if outputs != [] {
      var front := outputs[..|outputs| - 1];
      var last := outputs[|outputs| - 1];
      DistinctIffNothingTwice(review, front, known);
      assert outputs == front + [last];
      TwiceLast(front, last, known);
      if last.slug in known {
        var m := Mention(review, known[last.slug], last.evidence);
        KeptMember(review, front, known, m);
        DistinctLast(Kept(review, front, known), m);
        hide Distinct, NamesNothingTwice, Kept;
        assert m in Kept(review, front, known) <==> exists i :: 0 <= i < |front| && SameMention(front[i], last, known);
      }
    }
  }

  /** As many mentions are kept as outputs name a known attribute. */
  lemma {:induction false} KeptCount(review: nat, outputs: seq<Output>, known: map<string, nat>)
    ensures |Kept(review, outputs, known)| == Count(outputs, (o: Output) => o.slug in known)
  {
    if outputs != [] {
      KeptCount(review, outputs[..|outputs| - 1], known);
    }
  }

  // ----- one review, one batch

  /** What a reply leaves of a pending review and its mentions. */
  lemma OneStores(w: World, i: nat, reply: Reply, known: map<string, nat>, j: nat)
    requires Inv(w) && i < |w.reviews| && Pending(w.reviews[i]) && j < |w.reviews|
    ensures var after := One(w, i, reply, known);
      && (j != i ==> after.reviews[j] == w.reviews[j] && MentionsOf(after.mentions, j) == MentionsOf(w.mentions, j))
      && Attempts(after.reviews[i]) <= MAX_ATTEMPTS
      && Claimed(after.reviews[i]) == (if reply.Extracted? then |Kept(i, reply.outputs, known)| else 0)
      && MentionsOf(after.mentions, i) == (if reply.Extracted? then |WithMentions([], Kept(i, reply.outputs, known))| else 0)
      && (forall m: Mention :: m in after.mentions <==> m in w.mentions || (reply.Extracted? && m in Kept(i, reply.outputs, known)))
      && (forall m: Mention :: m in w.mentions ==> m.review != i)
      && (forall m: Mention :: reply.Extracted? && m in Kept(i, reply.outputs, known) ==> m.review == i)
  {
    forall m: Mention | m.review == i ensures m !in w.mentions {
      NoneStored(w.mentions, m);
    }
    assert Claimed(w.reviews[i]) == 0 && MentionsOf(w.mentions, i) == 0;
    if reply.Extracted? {
      var kept := Kept(i, reply.outputs, known);
      KeptMember(i, reply.outputs, known, Mention(i, 0, ""));
      StoredForReview(w.mentions, kept, i, i);
      StoredForReview(w.mentions, kept, i, j);
      forall m: Mention ensures m in WithMentions(w.mentions, kept) <==> m in w.mentions || m in kept {
        StoredMembers(w.mentions, kept, m);
      }
    }
  }

  lemma OneKeeps(w: World, i: nat, reply: Reply, known: map<string, nat>)
    requires Inv(w) && i < |w.reviews| && Pending(w.reviews[i])
    ensures Inv(One(w, i, reply, known))
  {
    forall j | 0 <= j < |w.reviews|
      ensures Attempts(One(w, i, reply, known).reviews[j]) <= MAX_ATTEMPTS
      ensures MentionsOf(One(w, i, reply, known).mentions, j) <= Claimed(One(w, i, reply, known).reviews[j])
    {
      OneStores(w, i, reply, known, j);
      if reply.Extracted? {
        StoredAllIffDistinct(Kept(i, reply.outputs, known));
      }
      hide One, MentionsOf, WithMentions, Kept, Distinct;
    }
  }

  lemma {:induction false} BatchKeeps(w: World, ids: seq<nat>, replies: seq<Reply>, known: map<string, nat>)
    requires Inv(w) && Waiting(w, ids)
    ensures Inv(Batch(w, ids, replies, known))
    decreases |ids|
  {
    if ids != [] && replies != [] {
      OneKeeps(w, ids[0], replies[0], known);
      OneLeavesWaiting(w, ids, replies[0], known);
      hide Inv, Waiting, One;
      BatchKeeps(One(w, ids[0], replies[0], known), ids[1..], replies[1..], known);
    }
  }

  /** The reply a review gets in a batch, if the worker reaches it. */
  function ReplyTo(ids: seq<nat>, replies: seq<Reply>, i: nat): Option<Reply> {
    if ids == [] || replies == [] then None
    else if ids[0] == i then Some(replies[0])
    else ReplyTo(ids[1..], replies[1..], i)
  }

  /** The review and its mentions are as this reply, if any, leaves them. */
  ghost predicate AsReplied(before: World, after: World, i: nat, reply: Option<Reply>, known: map<string, nat>)
    requires i < |before.reviews| == |after.reviews|
  {
    match reply
    case None =>
      && after.reviews[i] == before.reviews[i] && MentionsOf(after.mentions, i) == MentionsOf(before.mentions, i)
      && forall m: Mention :: m.review == i ==> (m in after.mentions <==> m in before.mentions)
    case Some(Failing) =>
      && Claimed(after.reviews[i]) == MentionsOf(after.mentions, i) == 0
      && forall m: Mention :: m in after.mentions ==> m.review != i
    case Some(Extracted(outputs)) =>
      && Claimed(after.reviews[i]) == |Kept(i, outputs, known)|
      && MentionsOf(after.mentions, i) == |WithMentions([], Kept(i, outputs, known))|
      && forall m: Mention :: m.review == i ==> (m in after.mentions <==> m in Kept(i, outputs, known))
  }

  lemma {:induction false} NoReplyOutside(ids: seq<nat>, replies: seq<Reply>, i: nat)
    requires i !in ids
    ensures ReplyTo(ids, replies, i) == None
  {
    if ids != [] && replies != [] {
      NoReplyOutside(ids[1..], replies[1..], i);
    }
  }

  lemma AsRepliedThen(w: World, mid: World, after: World, i: nat, first: Option<Reply>, second: Option<Reply>, known: map<string, nat>)
    requires i < |w.reviews| == |mid.reviews| == |after.reviews|
    requires AsReplied(w, mid, i, first, known) && AsReplied(mid, after, i, second, known)
    ensures AsReplied(w, after, i, if second.Some? then second else first, known)
  {
    hide MentionsOf, Claimed, WithMentions, Kept;
  }

  lemma OneAsReplied(w: World, i: nat, reply: Reply, known: map<string, nat>, j: nat)
    requires Inv(w) && i < |w.reviews| && Pending(w.reviews[i]) && j < |w.reviews|
    ensures AsReplied(w, One(w, i, reply, known), j, if i == j then Some(reply) else None, known)
  {
    OneStores(w, i, reply, known, j);
    hide Inv, One, MentionsOf, Claimed, WithMentions, Kept;
    hide Pending;
    OneSize(w, i, reply, known);
  }

  lemma OneSize(w: World, i: nat, reply: Reply, known: map<string, nat>)
    requires i < |w.reviews|
    ensures |One(w, i, reply, known).reviews| == |w.reviews|
  {
    hide Kept, WithMentions;
  }

  lemma FirstIsNotInRest(w: World, ids: seq<nat>)
    requires ids != [] && Waiting(w, ids)
    ensures ids[0] !in ids[1..] && ids[0] < |w.reviews| && Pending(w.reviews[ids[0]])
  {
  }

  lemma {:induction false} BatchStores(w: World, ids: seq<nat>, replies: seq<Reply>, known: map<string, nat>, i: nat)
    requires Inv(w) && Waiting(w, ids) && i < |w.reviews|
    ensures AsReplied(w, Batch(w, ids, replies, known), i, ReplyTo(ids, replies, i), known)
    decreases |ids|
  {
    if ids == [] || replies == [] {
      Unreplied(w, i, known);
    } else {
      FirstIsNotInRest(w, ids);
      var next := One(w, ids[0], replies[0], known);
      OneSize(w, ids[0], replies[0], known);
      OneKeeps(w, ids[0], replies[0], known);
      OneLeavesWaiting(w, ids, replies[0], known);
      OneAsReplied(w, ids[0], replies[0], known, i);
      hide Inv, Waiting, One, AsReplied, Pending;
      if ids[0] == i {
        NoReplyOutside(ids[1..], replies[1..], i);
      }
      BatchStores(next, ids[1..], replies[1..], known, i);
      AsRepliedThen(
        w, next, Batch(next, ids[1..], replies[1..], known), i,
        if ids[0] == i then Some(replies[0]) else None, ReplyTo(ids[1..], replies[1..], i), known);
    }
  }

  lemma Unreplied(w: World, i: nat, known: map<string, nat>)
    requires i < |w.reviews|
    ensures AsReplied(w, w, i, None, known)
  {
    hide MentionsOf;
  }

  // ----- runs

  /** Whatever the interpreter replies and wherever workers die, each review is tried at most five times and stores no more mentions than its status claims. */
  lemma {:induction false} RunKeeps(w: World, limit: nat, rounds: seq<seq<Reply>>, known: map<string, nat>)
    requires Inv(w)
    ensures Inv(Run(w, limit, rounds, known))
  {
    if rounds != [] {
      var before := Run(w, limit, rounds[..|rounds| - 1], known);
      RunKeeps(w, limit, rounds[..|rounds| - 1], known);
      UnprocessedWaits(before, limit);
      hide Inv;
      BatchKeeps(before, Unprocessed(before.reviews, limit), rounds[|rounds| - 1], known);
    }
  }

  /** The last reply a review got in a run. */
  function LastReply(w: World, limit: nat, rounds: seq<seq<Reply>>, known: map<string, nat>, i: nat): Option<Reply> {
    if rounds == [] then None
    else
      var front := rounds[..|rounds| - 1];
      var now := ReplyTo(Unprocessed(Run(w, limit, front, known).reviews, limit), rounds[|rounds| - 1], i);
      if now.Some? then now else LastReply(w, limit, front, known, i)
  }

  lemma {:induction false} RunStores(w: World, limit: nat, rounds: seq<seq<Reply>>, known: map<string, nat>, i: nat)
    requires Inv(w) && i < |w.reviews|
    ensures AsReplied(w, Run(w, limit, rounds, known), i, LastReply(w, limit, rounds, known, i), known)
  {
    if rounds == [] {
      Unreplied(w, i, known);
    } else {
      hide Inv, Batch, Unprocessed, AsReplied;
      var front := rounds[..|rounds| - 1];
      var last := rounds[|rounds| - 1];
      var before := Run(w, limit, front, known);
      var ids := Unprocessed(before.reviews, limit);
      RunStores(w, limit, front, known, i);
      RunKeeps(w, limit, front, known);
      UnprocessedWaits(before, limit);
      BatchStores(before, ids, last, known, i);
      AsRepliedThen(w, before, Batch(before, ids, last, known), i, LastReply(w, limit, front, known, i), ReplyTo(ids, last, i), known);
    }
  }

  /**
   In every run a review stores as many mentions as its status claims exactly
   when the reply that completed it names no known attribute twice with the
   same evidence, and otherwise it stores fewer.
   */
  lemma StoredAsClaimedIff(w: World, limit: nat, rounds: seq<seq<Reply>>, known: map<string, nat>, i: nat)
    requires Inv(w) && i < |w.reviews|
    ensures var after := Run(w, limit, rounds, known); var reply := LastReply(w, limit, rounds, known, i);
      && MentionsOf(after.mentions, i) <= Claimed(after.reviews[i])
      && (reply == Some(Failing) ==> MentionsOf(after.mentions, i) == Claimed(after.reviews[i]) == 0)
      && (reply.Some? && reply.value.Extracted? ==>
        && Claimed(after.reviews[i]) == Count(reply.value.outputs, (o: Output) => o.slug in known)
        && (MentionsOf(after.mentions, i) == Claimed(after.reviews[i]) <==> NamesNothingTwice(reply.value.outputs, known)))
  {
    RunKeeps(w, limit, rounds, known);
    RunStores(w, limit, rounds, known, i);
    var reply := LastReply(w, limit, rounds, known, i);
    if reply.Some? && reply.value.Extracted? {
      KeptCount(i, reply.value.outputs, known);
      StoredAllIffDistinct(Kept(i, reply.value.outputs, known));
      DistinctIffNothingTwice(i, reply.value.outputs, known);
    }
    hide Run, LastReply, MentionsOf, Claimed, WithMentions, Kept, Distinct, NamesNothingTwice;
  }

  /** The mentions stored for a review are exactly the known attributes its completing reply found, each with the words that show it. */
  lemma StoredMentionsAreFound(w: World, limit: nat, rounds: seq<seq<Reply>>, known: map<string, nat>, m: Mention)
    requires Inv(w) && m.review < |w.reviews|
    ensures var after := Run(w, limit, rounds, known); var reply := LastReply(w, limit, rounds, known, m.review);
      m in after.mentions <==>
        match reply
        case None => m in w.mentions
        case Some(Failing) => false
        case Some(Extracted(outputs)) =>
          exists k :: 0 <= k < |outputs| && outputs[k].slug in known && m.attribute == known[outputs[k].slug] && m.evidence == outputs[k].evidence
  {
    RunStores(w, limit, rounds, known, m.review);
    var reply := LastReply(w, limit, rounds, known, m.review);
    hide Run, LastReply, MentionsOf, Claimed, WithMentions, Kept;
    if reply.Some? && reply.value.Extracted? {
      KeptMember(m.review, reply.value.outputs, known, m);
    }
  }

  /** A reply that repeats itself is claimed twice and stored once. */
  lemma ARepeatedMentionIsStoredOnce(o: Output, known: map<string, nat>)
    requires o.slug in known
    ensures var w := World([Review(false, None)], []); var after := Run(w, 1, [[Extracted([o, o])]], known);
      Inv(w) && Claimed(after.reviews[0]) == 2 && MentionsOf(after.mentions, 0) == 1
  {
    var w := World([Review(false, None)], []);
    var m := Mention(0, known[o.slug], o.evidence);
    OneReviewRun(w, Extracted([o, o]), known);
    KeptTwice(o, known);
    StoredTwice(m);
    assert [m][..0] == [];
  }

  lemma KeptTwice(o: Output, known: map<string, nat>)
    requires o.slug in known
    ensures var m := Mention(0, known[o.slug], o.evidence); Kept(0, [o, o], known) == [m, m]
  {
    var one, two := [o], [o, o];
    assert one[..|one| - 1] == [] && two[..|two| - 1] == one;
    assert Kept(0, one, known) == [Mention(0, known[o.slug], o.evidence)];
  }

  lemma StoredTwice(m: Mention)
    ensures WithMentions([], [m, m]) == [m]
  {
    var one, two := [m], [m, m];
    assert one[..|one| - 1] == [] && two[..|two| - 1] == one;
    assert WithMentions([], one) == [m];
  }

  lemma OneReviewRun(w: World, reply: Reply, known: map<string, nat>)
    requires |w.reviews| == 1 && Pending(w.reviews[0])
    ensures Run(w, 1, [[reply]], known) == One(w, 0, reply, known)
  {
    assert w.reviews[..0] == [];
    assert AllPending(w.reviews) == [0];
    assert [[reply]][..0] == [];
    hide One;
    assert Run(w, 1, [[reply]], known) == Batch(w, [0], [reply], known);
  }
}
