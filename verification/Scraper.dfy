/**
 A scrape run: listing pages are fetched one at a time from the last committed
 offset, every page and every failure is committed on its own, and a worker may
 die or be started again at any point.
 */
module Scraper {
  import opened Common

  /** The bounds of a run as the API accepts them: at least one page of at least one entry. */
  datatype Scope = Scope(start: nat, size: nat, pages: nat) {
    predicate Valid() { size >= 1 && pages >= 1 }
  }

  datatype Status = Pending | Running | Partial | Completed | Failed

  datatype Mark = Mark(next: nat, pages: nat)

  datatype Failure = Failure(offset: nat, code: string, retries: nat, delay: nat, resolved: bool)

  /** The committed rows of one run, and the raw pages in the object store. */
  datatype World = World(
    status: Status, processed: nat, success: nat, failed: nat,
    mark: Option<Mark>, failures: seq<Failure>, objects: seq<nat>)

  /** What becomes of one page: fetched and committed, failed, or stored by a worker that dies before the commit. */
  datatype Attempt = Fetched | Failing(code: string) | Lost

  /** A worker runs until it finishes, fails, or its attempts run out because it dies. */
  datatype Order = Execute(attempts: seq<Attempt>) | MarkFailed

  datatype Ending = Finished(pages: nat) | Raised | Died

  const NEW_RUN := World(Pending, 0, 0, 0, None, [], [])

  function Done(w: World): nat {
    if w.mark.Some? then w.mark.value.pages else 0
  }

  function Offset(s: Scope, w: World): nat {
    if w.mark.Some? then w.mark.value.next else s.start
  }

  function Power(n: nat): (p: nat)
    ensures p >= 1
  {
    if n == 0 then 1 else 2 * Power(n - 1)
  }

  /** Seconds until the next retry: doubling from a minute up to an hour. */
  function Delay(retries: nat): nat {
    if 60 * Power(retries) < 3600 then 60 * Power(retries) else 3600
  }

  /** The first unresolved failure at the offset. */
  function Open(failures: seq<Failure>, offset: nat): (r: Option<nat>)
    ensures r.Some? ==> r.value < |failures| && failures[r.value].offset == offset && !failures[r.value].resolved
    ensures r.None? ==> forall i :: 0 <= i < |failures| && failures[i].offset == offset ==> failures[i].resolved
  {
    if failures == [] then None
    else
      var front := Open(failures[..|failures| - 1], offset);
      var last := failures[|failures| - 1];
      if front.Some? then front
      else if last.offset == offset && !last.resolved then Some(|failures| - 1)
      else None
  }

  function WithFailure(failures: seq<Failure>, offset: nat, code: string): seq<Failure> {
    match Open(failures, offset)
    case None => failures + [Failure(offset, code, 0, 60, false)]
    case Some(i) =>
      var f := failures[i];
      failures[i := f.(retries := f.retries + 1, code := code, delay := Delay(f.retries + 1))]
  }

  function WithResolved(failures: seq<Failure>, offset: nat): seq<Failure> {
    match Open(failures, offset)
    case None => failures
    case Some(i) => failures[i := failures[i].(resolved := true)]
  }

  function PageFailed(s: Scope, w: World, code: string): World {
    w.(status := Partial, processed := w.processed + 1, failed := w.failed + 1,
       failures := WithFailure(w.failures, Offset(s, w), code))
  }

  function PageDone(s: Scope, w: World): World {
    w.(processed := w.processed + 1, success := w.success + 1,
       failures := WithResolved(w.failures, Offset(s, w)),
       mark := Some(Mark(Offset(s, w) + s.size, Done(w) + 1)),
       objects := w.objects + [Offset(s, w)])
  }

  /** The rest of one worker's life. */
  function Pages(s: Scope, w: World, attempts: seq<Attempt>): World
    decreases |attempts|
  {
    if attempts == [] then w
    else if Done(w) >= s.pages then w.(status := Completed)
    else
      match attempts[0]
      case Fetched => Pages(s, PageDone(s, w), attempts[1..])
      case Failing(code) => PageFailed(s, w, code)
      case Lost => w.(objects := w.objects + [Offset(s, w)])
  }

  function Step(s: Scope, w: World, o: Order): World {
    if w.status.Completed? then w
    else
      match o
      case Execute(attempts) => Pages(s, w.(status := Running), attempts)
      case MarkFailed => w.(status := Failed)
  }

  function Run(s: Scope, orders: seq<Order>): World {
    if orders == [] then NEW_RUN else Step(s, Run(s, orders[..|orders| - 1]), orders[|orders| - 1])
  }

  // ----- the invariant

  /** The offset of page number `k`. */
  function OffsetAt(s: Scope, k: nat): nat {
    if k == 0 then s.start else OffsetAt(s, k - 1) + s.size
  }

  lemma {:induction false} OffsetsAreEvenlySpaced(s: Scope, k: nat)
    ensures OffsetAt(s, k) == s.start + k * s.size
  {
    if k > 0 {
      OffsetsAreEvenlySpaced(s, k - 1);
      assert k * s.size == (k - 1) * s.size + s.size;
    }
  }

  function Offsets(s: Scope, n: nat): (r: seq<nat>)
    ensures |r| == n
    ensures forall k :: 0 <= k < n ==> r[k] == OffsetAt(s, k)
  {
    if n == 0 then [] else Offsets(s, n - 1) + [OffsetAt(s, n - 1)]
  }

  /** How often the failures were recorded: once when new and once for every retry. */
  function Recorded(failures: seq<Failure>): nat {
    if failures == [] then 0
    else Recorded(failures[..|failures| - 1]) + failures[|failures| - 1].retries + 1
  }

  /** At most the last failure is unresolved, and that one is at the current offset; the others lie before it, one for an offset. */
  ghost predicate Ordered(failures: seq<Failure>, offset: nat, finished: bool) {
    && (forall i, j :: 0 <= i < j < |failures| ==> failures[i].offset < failures[j].offset)
    && (forall i :: 0 <= i < |failures| && failures[i].resolved ==> failures[i].offset < offset)
    && (forall i :: 0 <= i < |failures| && !failures[i].resolved ==> failures[i].offset == offset && !finished)
    && (forall i :: 0 <= i < |failures| ==> failures[i].delay == Delay(failures[i].retries))
  }

  ghost predicate Stores(s: Scope, objects: seq<nat>, done: nat) {
    && (forall k :: 0 <= k < done ==> OffsetAt(s, k) in objects)
    && (forall o :: o in objects ==> o in Offsets(s, if done < s.pages then done + 1 else done))
  }

  ghost predicate Inv(s: Scope, w: World) {
    && Done(w) <= s.pages && Offset(s, w) == OffsetAt(s, Done(w))
    && w.success == Done(w) && w.processed == w.success + w.failed
    && w.failed == Recorded(w.failures)
    && Ordered(w.failures, Offset(s, w), Done(w) == s.pages)
    && Stores(s, w.objects, Done(w))
    && (w.status.Completed? ==> Done(w) == s.pages)
  }

  lemma OpenIsLast(failures: seq<Failure>, offset: nat, finished: bool)
    requires Ordered(failures, offset, finished)
    ensures match Open(failures, offset)
      case None => forall i :: 0 <= i < |failures| ==> failures[i].resolved
      case Some(i) => i == |failures| - 1
  {
    assert failures != [] ==> failures[|failures| - 1].offset <= offset;
  }

  lemma FailureKeeps(failures: seq<Failure>, offset: nat, code: string)
    requires Ordered(failures, offset, false)
    ensures Ordered(WithFailure(failures, offset, code), offset, false)
    ensures Recorded(WithFailure(failures, offset, code)) == Recorded(failures) + 1
  {
    OpenIsLast(failures, offset, false);
    var after := WithFailure(failures, offset, code);
    assert Delay(0) == 60;
    hide Delay, Open, Recorded;
    LastWrite(failures, after);
  }

  /** Writing one row at the end changes the number of recordings by what that row contributes. */
  lemma LastWrite(failures: seq<Failure>, after: seq<Failure>)
    requires after != [] && (|after| == |failures| || |after| == |failures| + 1)
    requires after[..|after| - 1] == failures[..|after| - 1]
    ensures Recorded(after) + (if |after| == |failures| then failures[|failures| - 1].retries + 1 else 0)
      == Recorded(failures) + after[|after| - 1].retries + 1
  {
    assert failures[..|failures|] == failures;
  }

  /** Retries wait a minute at first, twice as long each time, and never more than an hour. */
  lemma DelayDoubles(retries: nat)
    ensures Delay(0) == 60
    ensures Delay(retries + 1) == if 2 * Delay(retries) < 3600 then 2 * Delay(retries) else 3600
    ensures 60 <= Delay(retries) <= 3600
  {
    assert Power(retries + 1) == 2 * Power(retries);
  }

  /** A failing page leaves its code and delay with the last failure, which is open at the current offset: a new one, or the open one with one retry more. */
  lemma FailureIsRecorded(s: Scope, w: World, code: string)
    requires Inv(s, w) && Done(w) < s.pages
    ensures var before := w.failures; var after := PageFailed(s, w, code).failures;
      && after != [] && var f := after[|after| - 1];
      && f.offset == Offset(s, w) && f.code == code && !f.resolved && f.delay == Delay(f.retries)
      && if before != [] && !before[|before| - 1].resolved
         then after[..|after| - 1] == before[..|before| - 1] && |after| == |before| && f.retries == before[|before| - 1].retries + 1
         else after[..|after| - 1] == before && f.retries == 0
    ensures PageFailed(s, w, code) ==
      w.(status := Partial, processed := w.processed + 1, failed := w.failed + 1, failures := PageFailed(s, w, code).failures)
  {
    hide Stores, OffsetAt, Offsets, Recorded;
    OpenIsLast(w.failures, Offset(s, w), false);
    DelayDoubles(0);
    hide Delay;
  }

  lemma ResolveKeeps(failures: seq<Failure>, offset: nat, next: nat, finished: bool)
    requires Ordered(failures, offset, false) && offset < next
    ensures Ordered(WithResolved(failures, offset), next, finished)
    ensures Recorded(WithResolved(failures, offset)) == Recorded(failures)
  {
    OpenIsLast(failures, offset, false);
    var after := WithResolved(failures, offset);
    hide Delay, Open, Recorded;
    if Open(failures, offset).Some? {
      LastWrite(failures, after);
    }
  }

  lemma NextOffset(s: Scope, k: nat)
    ensures OffsetAt(s, k + 1) == OffsetAt(s, k) + s.size
  {
  }

  lemma PageDoneKeeps(s: Scope, w: World)
    requires s.Valid() && Inv(s, w) && Done(w) < s.pages
    ensures Inv(s, PageDone(s, w).(status := Running))
  {
    hide Ordered, Recorded, WithResolved, Stores, OffsetAt, Offsets;
    var next := Offset(s, w) + s.size;
    NextOffset(s, Done(w));
    ResolveKeeps(w.failures, Offset(s, w), next, Done(w) + 1 == s.pages);
    StoresNext(s, w.objects, Done(w));
  }

  lemma StoresNext(s: Scope, objects: seq<nat>, done: nat)
    requires Stores(s, objects, done) && done < s.pages
    ensures Stores(s, objects + [OffsetAt(s, done)], done + 1)
    ensures Stores(s, objects + [OffsetAt(s, done)], done)
  {
    hide OffsetAt;
    var after := objects + [OffsetAt(s, done)];
    var now := Offsets(s, done + 1);
    var later := Offsets(s, if done + 1 < s.pages then done + 2 else done + 1);
    assert now[done] == OffsetAt(s, done);
    forall o | o in after ensures o in now && o in later {
      assert o in now;
      var k :| 0 <= k < |now| && now[k] == o;
      assert later[k] == o;
    }
  }

  lemma PageFailedKeeps(s: Scope, w: World, code: string)
    requires Inv(s, w) && Done(w) < s.pages
    ensures Inv(s, PageFailed(s, w, code))
  {
    hide Ordered, Recorded, WithFailure, Stores, OffsetAt, Offsets;
    FailureKeeps(w.failures, Offset(s, w), code);
  }

  lemma {:induction false} PagesKeep(s: Scope, w: World, attempts: seq<Attempt>)
    requires s.Valid() && Inv(s, w) && w.status.Running?
    ensures Inv(s, Pages(s, w, attempts))
    decreases |attempts|
  {
    if attempts != [] && Done(w) < s.pages {
      match attempts[0] {
        case Fetched =>
          PageDoneKeeps(s, w);
          hide Inv;
          assert PageDone(s, w) == PageDone(s, w).(status := Running);
          PagesKeep(s, PageDone(s, w), attempts[1..]);
        case Failing(code) =>
          PageFailedKeeps(s, w, code);
          hide Inv;
        case Lost =>
          StoresNext(s, w.objects, Done(w));
          hide Ordered, Stores;
      }
    }
  }

  lemma StepKeeps(s: Scope, w: World, o: Order)
    requires s.Valid() && Inv(s, w)
    ensures Inv(s, Step(s, w, o))
  {
    hide Ordered, Stores;
    if o.Execute? && !w.status.Completed? {
      PagesKeep(s, w.(status := Running), o.attempts);
    }
  }

  lemma {:induction false} RunKeeps(s: Scope, orders: seq<Order>)
    requires s.Valid()
    ensures Inv(s, Run(s, orders))
  {
    if orders != [] {
      RunKeeps(s, orders[..|orders| - 1]);
      hide Inv;
      StepKeeps(s, Run(s, orders[..|orders| - 1]), orders[|orders| - 1]);
    }
  }

  // ----- what a run amounts to

  /** Whatever failed, died or was restarted: a completed run got every page, exactly once by its counters, with no failure left. */
  lemma CompletedRunIsWhole(s: Scope, orders: seq<Order>)
    requires s.Valid() && Run(s, orders).status.Completed?
    ensures var w := Run(s, orders);
      && w.success == s.pages && w.processed == s.pages + Recorded(w.failures)
      && w.mark == Some(Mark(OffsetAt(s, s.pages), s.pages))
      && (forall i :: 0 <= i < |w.failures| ==> w.failures[i].resolved)
      && (forall o :: o in w.objects <==> o in Offsets(s, s.pages))
  {
    RunKeeps(s, orders);
    var w := Run(s, orders);
    hide Run;
    forall o | o in Offsets(s, s.pages) ensures o in w.objects {
      var k :| 0 <= k < s.pages && Offsets(s, s.pages)[k] == o;
      assert OffsetAt(s, k) in w.objects;
    }
  }

  /** A completed run is never touched again. */
  lemma {:induction false} CompletedIsFinal(s: Scope, orders: seq<Order>, later: seq<Order>)
    requires Run(s, orders).status.Completed?
    ensures Run(s, orders + later) == Run(s, orders)
  {
    if later == [] {
      assert orders + later == orders;
    } else {
      CompletedIsFinal(s, orders, later[..|later| - 1]);
      assert (orders + later)[..|orders + later| - 1] == orders + later[..|later| - 1];
    }
  }

  // ----- restarts

  predicate AllFetched(attempts: seq<Attempt>) {
    forall i :: 0 <= i < |attempts| ==> attempts[i].Fetched?
  }

  /** A worker that dies between pages and one that takes over do together what a single worker would have done. */
  lemma {:induction false} RestartIsInvisible(s: Scope, w: World, before: seq<Attempt>, after: seq<Attempt>)
    requires AllFetched(before) && Done(w) + |before| <= s.pages
    ensures Pages(s, Pages(s, w, before), after) == Pages(s, w, before + after)
    ensures Pages(s, w, before).status == w.status
    ensures Done(Pages(s, w, before)) == Done(w) + |before|
    decreases |before|
  {
    if before == [] {
      assert before + after == after;
    } else {
      RestartIsInvisible(s, PageDone(s, w), before[1..], after);
      assert (before + after)[1..] == before[1..] + after;
    }
  }

  lemma ResumedRunIsTheSameRun(s: Scope, orders: seq<Order>, before: seq<Attempt>, after: seq<Attempt>)
    requires AllFetched(before) && Done(Run(s, orders)) + |before| <= s.pages
    ensures Run(s, orders + [Execute(before), Execute(after)]) == Run(s, orders + [Execute(before + after)])
  {
    var w := Run(s, orders);
    RestartIsInvisible(s, w.(status := Running), before, after);
    assert (orders + [Execute(before), Execute(after)])[..|orders| + 1] == orders + [Execute(before)];
    assert (orders + [Execute(before)])[..|orders|] == orders;
    assert (orders + [Execute(before + after)])[..|orders|] == orders;
    hide Pages;
    var mid := Pages(s, w.(status := Running), before);
    assert Run(s, orders + [Execute(before)]) == if w.status.Completed? then w else mid;
    assert mid.(status := Running) == mid;
  }

  /** Enough successful fetches complete the run from wherever it stands. */
  lemma EnoughFetchesComplete(s: Scope, orders: seq<Order>, attempts: seq<Attempt>)
    requires s.Valid() && AllFetched(attempts) && |attempts| > s.pages - Done(Run(s, orders))
    ensures Run(s, orders + [Execute(attempts)]).status.Completed?
  {
    RunKeeps(s, orders);
    var w := Run(s, orders);
    var rest := s.pages - Done(w);
    RestartIsInvisible(s, w.(status := Running), attempts[..rest], attempts[rest..]);
    assert attempts[..rest] + attempts[rest..] == attempts;
    assert (orders + [Execute(attempts)])[..|orders|] == orders;
  }

  // ----- the object store

  /** The offsets at which a worker dies between storing a page and committing it. */
  function LostBy(s: Scope, w: World, attempts: seq<Attempt>): seq<nat>
    decreases |attempts|
  {
    if attempts == [] || Done(w) >= s.pages then []
    else
      match attempts[0]
      case Fetched => LostBy(s, PageDone(s, w), attempts[1..])
      case Failing(_) => []
      case Lost => [Offset(s, w)]
  }

  function LostIn(s: Scope, w: World, o: Order): seq<nat> {
    if w.status.Completed? || o.MarkFailed? then [] else LostBy(s, w.(status := Running), o.attempts)
  }

  /** The offsets of all lost commits of a run. */
  function Losses(s: Scope, orders: seq<Order>): seq<nat> {
    if orders == [] then []
    else
      var front := orders[..|orders| - 1];
      Losses(s, front) + LostIn(s, Run(s, front), orders[|orders| - 1])
  }

  /** How often the page at the offset is in the list. */
  function Copies(offsets: seq<nat>, offset: nat): nat {
    if offsets == [] then 0
    else Copies(offsets[..|offsets| - 1], offset) + if offsets[|offsets| - 1] == offset then 1 else 0
  }

  lemma {:induction false} CopiesAppend(offsets: seq<nat>, more: seq<nat>, offset: nat)
    ensures Copies(offsets + more, offset) == Copies(offsets, offset) + Copies(more, offset)
  {
    if more == [] {
      assert offsets + more == offsets;
    } else {
      assert (offsets + more)[..|offsets + more| - 1] == offsets + more[..|more| - 1];
      CopiesAppend(offsets, more[..|more| - 1], offset);
    }
  }

  lemma {:induction false} CopiesPositive(offsets: seq<nat>, offset: nat)
    ensures Copies(offsets, offset) > 0 <==> offset in offsets
  {
    if offsets != [] {
      CopiesPositive(offsets[..|offsets| - 1], offset);
      assert offsets == offsets[..|offsets| - 1] + [offsets[|offsets| - 1]];
    }
  }

  /** From `w` to `after` the copies at the offset grew by its committed pages and the lost ones, and all objects by all of them. */
  predicate Accounts(s: Scope, w: World, after: World, lost: seq<nat>, offset: nat) {
    && Copies(after.objects, offset) + Copies(Offsets(s, Done(w)), offset)
      == Copies(w.objects, offset) + Copies(Offsets(s, Done(after)), offset) + Copies(lost, offset)
    && |after.objects| + Done(w) == |w.objects| + Done(after) + |lost|
  }

  lemma SameAccounts(s: Scope, w: World, after: World, offset: nat)
    requires after.objects == w.objects && Done(after) == Done(w)
    ensures Accounts(s, w, after, [], offset)
  {
  }

  lemma LossAccounts(s: Scope, w: World, offset: nat)
    ensures Accounts(s, w, w.(objects := w.objects + [Offset(s, w)]), [Offset(s, w)], offset)
  {
    CopiesAppend(w.objects, [Offset(s, w)], offset);
    hide Copies, Offsets;
  }

  lemma PageAccounts(s: Scope, w: World, offset: nat)
    requires Offset(s, w) == OffsetAt(s, Done(w))
    ensures Offset(s, PageDone(s, w)) == OffsetAt(s, Done(PageDone(s, w)))
    ensures Accounts(s, w, PageDone(s, w), [], offset)
  {
    assert Offsets(s, Done(w) + 1) == Offsets(s, Done(w)) + [OffsetAt(s, Done(w))];
    assert Copies([], offset) == 0;
    CopiesAppend(w.objects, [OffsetAt(s, Done(w))], offset);
    CopiesAppend(Offsets(s, Done(w)), [OffsetAt(s, Done(w))], offset);
    hide Copies, Offsets;
  }

  lemma ThenAccounts(s: Scope, w: World, mid: World, after: World, lost: seq<nat>, offset: nat)
    requires Accounts(s, w, mid, [], offset) && Accounts(s, mid, after, lost, offset)
    ensures Accounts(s, w, after, lost, offset)
  {
    assert Copies([], offset) == 0;
    hide Copies, Offsets;
  }

  lemma {:induction false} PagesAccount(s: Scope, w: World, attempts: seq<Attempt>, offset: nat)
    requires Offset(s, w) == OffsetAt(s, Done(w))
    ensures Accounts(s, w, Pages(s, w, attempts), LostBy(s, w, attempts), offset)
    decreases |attempts|
  {
    hide Accounts, OffsetAt;
    if attempts == [] || Done(w) >= s.pages || attempts[0].Failing? {
      SameAccounts(s, w, Pages(s, w, attempts), offset);
    } else if attempts[0].Lost? {
      LossAccounts(s, w, offset);
    } else {
      PageAccounts(s, w, offset);
      PagesAccount(s, PageDone(s, w), attempts[1..], offset);
      ThenAccounts(s, w, PageDone(s, w), Pages(s, w, attempts), LostBy(s, w, attempts), offset);
    }
  }

  lemma StepAccounts(s: Scope, w: World, o: Order, offset: nat)
    requires Offset(s, w) == OffsetAt(s, Done(w))
    ensures Accounts(s, w, Step(s, w, o), LostIn(s, w, o), offset)
  {
    hide Accounts, OffsetAt, Pages, LostBy;
    if o.Execute? && !w.status.Completed? {
      var running := w.(status := Running);
      PagesAccount(s, running, o.attempts, offset);
      SameAccounts(s, w, running, offset);
      ThenAccounts(s, w, running, Step(s, w, o), LostIn(s, w, o), offset);
    } else {
      SameAccounts(s, w, Step(s, w, o), offset);
    }
  }

  /** In every run a page is stored once when it is committed and once for each commit lost at it, and nothing else is stored. */
  lemma {:induction false} ObjectsAreAccountedFor(s: Scope, orders: seq<Order>, offset: nat)
    requires s.Valid()
    ensures var w := Run(s, orders);
      && Copies(w.objects, offset) == Copies(Offsets(s, Done(w)), offset) + Copies(Losses(s, orders), offset)
      && |w.objects| == Done(w) + |Losses(s, orders)|
  {
    if orders != [] {
      var front := orders[..|orders| - 1];
      var o := orders[|orders| - 1];
      ObjectsAreAccountedFor(s, front, offset);
      RunKeeps(s, front);
      CopiesAppend(Losses(s, front), LostIn(s, Run(s, front), o), offset);
      StepAccounts(s, Run(s, front), o, offset);
      hide Copies, Offsets, OffsetAt, Step, LostIn, Ordered, Stores;
    }
  }

  lemma {:induction false} PagesStoreInOrder(s: Scope, w: World, attempts: seq<Attempt>)
    requires Offset(s, w) == OffsetAt(s, Done(w)) && w.objects == Offsets(s, Done(w)) && LostBy(s, w, attempts) == []
    ensures var after := Pages(s, w, attempts); after.objects == Offsets(s, Done(after))
    decreases |attempts|
  {
    if attempts != [] && Done(w) < s.pages && attempts[0].Fetched? {
      assert OffsetAt(s, Done(w) + 1) == OffsetAt(s, Done(w)) + s.size;
      assert Offsets(s, Done(w) + 1) == Offsets(s, Done(w)) + [OffsetAt(s, Done(w))];
      hide Offsets, OffsetAt, WithResolved;
      PagesStoreInOrder(s, PageDone(s, w), attempts[1..]);
    }
  }

  /** While no commit is lost the pages are stored in order. */
  lemma {:induction false} PagesAreStoredInOrder(s: Scope, orders: seq<Order>)
    requires s.Valid() && Losses(s, orders) == []
    ensures var w := Run(s, orders); w.objects == Offsets(s, Done(w))
  {
    if orders != [] {
      var front := orders[..|orders| - 1];
      var o := orders[|orders| - 1];
      var before := Run(s, front);
      PagesAreStoredInOrder(s, front);
      RunKeeps(s, front);
      hide Pages, LostBy, Ordered, Stores;
      if o.Execute? && !before.status.Completed? {
        PagesStoreInOrder(s, before.(status := Running), o.attempts);
      }
    }
  }

  lemma {:induction false} OffsetsAreDistinct(s: Scope, n: nat, k: nat)
    requires s.Valid() && k < n
    ensures Copies(Offsets(s, n), OffsetAt(s, k)) == 1
  {
    hide Copies, OffsetAt, Offsets;
    var front := Offsets(s, n - 1);
    OffsetsLast(s, n - 1);
    CopiesAppend(front, [OffsetAt(s, n - 1)], OffsetAt(s, k));
    CopiesOfOne(OffsetAt(s, n - 1), OffsetAt(s, k));
    if k < n - 1 {
      OffsetsAreDistinct(s, n - 1, k);
      OffsetsAscend(s, k, n - 1);
    } else {
      forall j | 0 <= j < n - 1 ensures front[j] != OffsetAt(s, k) {
        OffsetsAscend(s, j, k);
      }
      CopiesPositive(front, OffsetAt(s, k));
    }
  }

  lemma OffsetsLast(s: Scope, n: nat)
    ensures Offsets(s, n + 1) == Offsets(s, n) + [OffsetAt(s, n)]
  {
    hide OffsetAt;
  }

  lemma CopiesOfOne(one: nat, offset: nat)
    ensures Copies([one], offset) == if one == offset then 1 else 0
  {
    assert [one][..0] == [];
  }

  lemma {:induction false} OffsetsAscend(s: Scope, j: nat, k: nat)
    requires s.Valid() && j < k
    ensures OffsetAt(s, j) < OffsetAt(s, k)
  {
    if j < k - 1 {
      OffsetsAscend(s, j, k - 1);
    }
  }

  /** In a completed run each page is stored once and once more for every commit lost at it; so exactly once each, exactly when no commit was lost. */
  lemma PagesAreStoredOnceIff(s: Scope, orders: seq<Order>)
    requires s.Valid() && Run(s, orders).status.Completed?
    ensures var objects := Run(s, orders).objects;
      && (forall k :: 0 <= k < s.pages ==> Copies(objects, OffsetAt(s, k)) == 1 + Copies(Losses(s, orders), OffsetAt(s, k)))
      && ((forall k :: 0 <= k < s.pages ==> Copies(objects, OffsetAt(s, k)) == 1) <==> Losses(s, orders) == [])
  {
    var losses := Losses(s, orders);
    var objects := Run(s, orders).objects;
    CompletedRunIsWhole(s, orders);
    assert Done(Run(s, orders)) == s.pages;
    forall offset: nat ensures Copies(objects, offset) == Copies(Offsets(s, s.pages), offset) + Copies(losses, offset) {
      ObjectsAreAccountedFor(s, orders, offset);
    }
    hide Run, Losses, Copies, OffsetAt, Offsets;
    forall k | 0 <= k < s.pages ensures Copies(objects, OffsetAt(s, k)) == 1 + Copies(losses, OffsetAt(s, k)) {
      OffsetsAreDistinct(s, s.pages, k);
    }
    if losses == [] {
      forall k | 0 <= k < s.pages ensures Copies(objects, OffsetAt(s, k)) == 1 {
        CopiesPositive(losses, OffsetAt(s, k));
      }
    } else {
      CopiesPositive(losses, losses[0]);
      CopiesPositive(objects, losses[0]);
      assert losses[0] in Offsets(s, s.pages);
      var k :| 0 <= k < s.pages && Offsets(s, s.pages)[k] == losses[0];
      assert Copies(objects, OffsetAt(s, k)) == 1 + Copies(losses, losses[0]);
    }
  }

  /** A lost commit stores its page a second time. */
  lemma ALostCommitStoresTwice()
    ensures Run(Scope(0, 30, 1), [Execute([Lost]), Execute([Fetched, Fetched])]).objects == [0, 0]
  {
    var s := Scope(0, 30, 1);
    var orders := [Execute([Lost]), Execute([Fetched, Fetched])];
    assert orders[..1][..0] == [] && orders[..1] == [Execute([Lost])];
    assert Run(s, orders[..1]) == NEW_RUN.(status := Running, objects := [0]);
    assert [Fetched, Fetched][1..] == [Fetched];
  }

  // ----- the worker

  class ScrapeRun {
    const scope: Scope
    var status: Status
    var processed: nat
    var success: nat
    var failed: nat
    var mark: Option<Mark>
    var failures: seq<Failure>
    var objects: seq<nat>

    ghost function View(): World
      reads this
    {
      World(status, processed, success, failed, mark, failures, objects)
    }

    constructor (scope: Scope)
      ensures this.scope == scope && View() == NEW_RUN
    {
      this.scope := scope;
      status, processed, success, failed := Pending, 0, 0, 0;
      mark, failures, objects := None, [], [];
    }

    method Execute(attempts: seq<Attempt>) returns (r: Ending)
      modifies this
      ensures View() == Step(scope, old(View()), Order.Execute(attempts))
      ensures r.Finished? ==> status.Completed? && r.pages == success
      ensures r.Raised? ==> status.Partial?
    {
      if status.Completed? {
        return Finished(success);
      }
      var offset := if mark.Some? then mark.value.next else scope.start;
      var pagesCompleted := if mark.Some? then mark.value.pages else 0;
      status := Running;
      ghost var begun := View();
      var i := 0;
      while pagesCompleted < scope.pages
        invariant i <= |attempts|
        invariant offset == Offset(scope, View()) && pagesCompleted == Done(View())
        invariant Pages(scope, begun, attempts) == Pages(scope, View(), attempts[i..])
        decreases |attempts| - i
      {
        if i == |attempts| {
          return Died;
        }
        assert attempts[i..][1..] == attempts[i + 1..];
        match attempts[i] {
          case Failing(code) =>
            RecordFailure(offset, code);
            return Raised;
          case Lost =>
            objects := objects + [offset];
            return Died;
          case Fetched =>
            CommitPage(offset, pagesCompleted);
            pagesCompleted := pagesCompleted + 1;
            offset := offset + scope.size;
        }
        i := i + 1;
      }
      if i == |attempts| {
        return Died;
      }
      status := Completed;
      r := Finished(success);
    }

    method CommitPage(offset: nat, pagesCompleted: nat)
      requires offset == Offset(scope, View()) && pagesCompleted == Done(View())
      modifies this`processed, this`success, this`mark, this`failures, this`objects
      ensures View() == PageDone(scope, old(View()))
    {
      objects := objects + [offset];
      var open := Open(failures, offset);
      if open.Some? {
        failures := failures[open.value := failures[open.value].(resolved := true)];
      }
      processed := processed + 1;
      success := success + 1;
      mark := Some(Mark(offset + scope.size, pagesCompleted + 1));
    }

    method RecordFailure(offset: nat, code: string)
      requires offset == Offset(scope, View())
      modifies this`status, this`processed, this`failed, this`failures
      ensures View() == PageFailed(scope, old(View()), code)
    {
      var open := Open(failures, offset);
      if open.None? {
        failures := failures + [Failure(offset, code, 0, 60, false)];
      } else {
        var f := failures[open.value];
        failures := failures[open.value := f.(retries := f.retries + 1, code := code, delay := Delay(f.retries + 1))];
      }
      processed := processed + 1;
      failed := failed + 1;
      status := Partial;
    }

    method MarkFailed()
      modifies this`status
      ensures View() == Step(scope, old(View()), Order.MarkFailed)
    {
      if !status.Completed? {
        status := Failed;
      }
    }
  }
}
