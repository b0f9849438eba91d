/**
 A file import that commits at line numbers divisible by the batch size and
 starts over behind its last committed line. `step` is the whole effect of one
 line on the stored state; blank lines have none and do not move the checkpoint.
 */
module Checkpointing {

  /** What one commit stores together: the effects so far and the last line they include. */
  datatype Job<S> = Job(state: S, checkpoint: nat)

  datatype Line<R> = Blank | Record(record: R)

  /** Lines 1..n have been read on top of `job`: the state in the open transaction. */
  function Working<R, S>(job: Job<S>, lines: seq<Line<R>>, step: (S, nat, R) -> S, n: nat): Job<S>
    requires n <= |lines|
  {
    if n <= job.checkpoint then job
    else
      var w := Working(job, lines, step, n - 1);
      match lines[n - 1]
      case Blank => w
      case Record(r) => Job(step(w.state, n, r), n)
  }

  /** The same position as left by the last commit. */
  function Committed<R, S>(job: Job<S>, lines: seq<Line<R>>, step: (S, nat, R) -> S, batch: nat, n: nat): Job<S>
    requires n <= |lines| && batch > 0
  {
    if n <= job.checkpoint then job
    else if lines[n - 1].Record? && n % batch == 0 then Working(job, lines, step, n)
    else Committed(job, lines, step, batch, n - 1)
  }

  /** What is stored after attempts that each died having read `stops[i]` lines. */
  function AfterCrashes<R, S>(job: Job<S>, lines: seq<Line<R>>, step: (S, nat, R) -> S, batch: nat, stops: seq<nat>): Job<S>
    requires batch > 0
    requires forall i :: 0 <= i < |stops| ==> stops[i] <= |lines|
  {
    if stops == [] then job
    else
      var last := |stops| - 1;
      Committed(AfterCrashes(job, lines, step, batch, stops[..last]), lines, step, batch, stops[last])
  }

  /** A committed position is one the attempt went through. */
  lemma {:induction false} CommittedIsWorking<R, S>(job: Job<S>, lines: seq<Line<R>>, step: (S, nat, R) -> S, batch: nat, n: nat)
    requires n <= |lines| && batch > 0
    ensures var c := Committed(job, lines, step, batch, n);
      && job.checkpoint <= c.checkpoint && (c.checkpoint <= n || c == job)
      && (c.checkpoint <= n ==> c == Working(job, lines, step, c.checkpoint))
  {
    if n > job.checkpoint && !(lines[n - 1].Record? && n % batch == 0) {
      CommittedIsWorking(job, lines, step, batch, n - 1);
    }
  }

  /** Every full batch that was read is committed, and nothing is committed at other lines. */
  lemma {:induction false} BatchesAreCommitted<R, S>(job: Job<S>, lines: seq<Line<R>>, step: (S, nat, R) -> S, batch: nat, n: nat, k: nat)
    requires n <= |lines| && batch > 0 && job.checkpoint < k <= n
    ensures var c := Committed(job, lines, step, batch, n);
      && (lines[k - 1].Record? && k % batch == 0 ==> k <= c.checkpoint)
      && (c.checkpoint == k ==> lines[k - 1].Record? && k % batch == 0 && c == Working(job, lines, step, k))
  {
    if lines[n - 1].Record? && n % batch == 0 {
      assert Committed(job, lines, step, batch, n) == Working(job, lines, step, n);
    } else {
      CommittedIsWorking(job, lines, step, batch, n - 1);
      if k < n {
        BatchesAreCommitted(job, lines, step, batch, n - 1, k);
      }
    }
  }

  /** A death among records that are not blank loses less than a batch of lines. */
  lemma {:induction false} LessThanABatchIsLost<R, S>(job: Job<S>, lines: seq<Line<R>>, step: (S, nat, R) -> S, batch: nat, n: nat)
    requires job.checkpoint <= n <= |lines| && batch > 0
    requires forall i :: job.checkpoint <= i < n ==> lines[i].Record?
    ensures n < Committed(job, lines, step, batch, n).checkpoint + batch
  {
    var last := n - n % batch;
    if job.checkpoint < last {
      assert last % batch == 0 by { MultipleBelow(n, batch); }
      BatchesAreCommitted(job, lines, step, batch, n, last);
    } else {
      CommittedIsWorking(job, lines, step, batch, n);
    }
  }

  lemma MultipleBelow(n: nat, batch: nat)
    requires batch > 0
    ensures (n - n % batch) % batch == 0
  {
    var m := n - n % batch;
    assert m == Times(batch, n / batch);
    assert m == Times(batch, m / batch) + m % batch;
    if m / batch < n / batch {
      MoreTimes(batch, m / batch, n / batch);
    } else if m / batch > n / batch {
      MoreTimes(batch, n / batch, m / batch);
    }
  }

  function Times(batch: nat, k: nat): nat {
    batch * k
  }

  lemma MoreTimes(batch: nat, k: nat, m: nat)
    requires k < m
    ensures Times(batch, k) + batch <= Times(batch, m)
  {
    assert batch * (m - k - 1) >= 0;
  }

  /** Starting over at a position the file passes through ends where going on would. */
  lemma {:induction false} ResumeReaches<R, S>(job: Job<S>, lines: seq<Line<R>>, step: (S, nat, R) -> S, c: Job<S>, n: nat)
    requires c.checkpoint <= n <= |lines|
    requires c == Working(job, lines, step, c.checkpoint) && job.checkpoint <= c.checkpoint
    ensures Working(c, lines, step, n) == Working(job, lines, step, n)
  {
    if n > c.checkpoint {
      ResumeReaches(job, lines, step, c, n - 1);
    }
  }

  /** However often the import dies and resumes, the pass that ends it leaves what one uninterrupted pass leaves. */
  lemma {:induction false} CrashesAreInvisible<R, S>(job: Job<S>, lines: seq<Line<R>>, step: (S, nat, R) -> S, batch: nat, stops: seq<nat>)
    requires batch > 0 && job.checkpoint <= |lines|
    requires forall i :: 0 <= i < |stops| ==> stops[i] <= |lines|
    ensures AfterCrashes(job, lines, step, batch, stops).checkpoint <= |lines|
    ensures Working(AfterCrashes(job, lines, step, batch, stops), lines, step, |lines|) == Working(job, lines, step, |lines|)
  {
    if stops != [] {
      var last := |stops| - 1;
      var before := AfterCrashes(job, lines, step, batch, stops[..last]);
      CrashesAreInvisible(job, lines, step, batch, stops[..last]);
      CommittedIsWorking(before, lines, step, batch, stops[last]);
      var c := Committed(before, lines, step, batch, stops[last]);
      if c != before {
        ResumeReaches(before, lines, step, c, |lines|);
      }
    }
  }

  /** Whatever is stored after any crashes is a position of the uninterrupted pass. */
  lemma {:induction false} StoredIsOnThePath<R, S>(job: Job<S>, lines: seq<Line<R>>, step: (S, nat, R) -> S, batch: nat, stops: seq<nat>)
    requires batch > 0 && job.checkpoint <= |lines|
    requires forall i :: 0 <= i < |stops| ==> stops[i] <= |lines|
    ensures var stored := AfterCrashes(job, lines, step, batch, stops);
      && job.checkpoint <= stored.checkpoint <= |lines|
      && stored == Working(job, lines, step, stored.checkpoint)
  {
    if stops != [] {
      var last := |stops| - 1;
      var before := AfterCrashes(job, lines, step, batch, stops[..last]);
      StoredIsOnThePath(job, lines, step, batch, stops[..last]);
      CommittedIsWorking(before, lines, step, batch, stops[last]);
      var c := Committed(before, lines, step, batch, stops[last]);
      if c != before {
        ResumeReaches(job, lines, step, before, c.checkpoint);
      }
    }
  }
}
