/**
 * The batch fan-in: both variants loop over the per-video outcomes (an
 * output path, or None when the conversion failed), append every truthy
 * one to `processed_paths`, and advance a completion counter that drives
 * the progress bar. Version2.py takes the outcomes from `executor.map`, in
 * submission order; version.py takes them from `as_completed`, in whatever
 * order the conversions finish. The thread pool itself is not modelled:
 * the outcomes arrive as a sequence in the order the loop sees them.
 */
module Batch {
  import opened Wrappers

  /** Python's `if result:` on an outcome: present and not the empty string. */
  predicate Truthy(o: Option<string>)
  {
    o.Some? && o.value != ""
  }

  /**
   * The paths the loop collects, in the order it sees them; each collected
   * path is non-empty.
   */
  function Successes(outcomes: seq<Option<string>>): (paths: seq<string>)
    ensures |paths| <= |outcomes|
    ensures forall k :: 0 <= k < |paths| ==> paths[k] != ""
    decreases |outcomes|
  {
    if outcomes == [] then []
    else
      var init, last := outcomes[..|outcomes| - 1], outcomes[|outcomes| - 1];
      assert outcomes == init + [last];
      if Truthy(last) then Successes(init) + [last.value] else Successes(init)
  }

  /** Collection follows the outcome order: it distributes over concatenation. */
  lemma {:induction false} SuccessesAppend(a: seq<Option<string>>, b: seq<Option<string>>)
    ensures Successes(a + b) == Successes(a) + Successes(b)
    decreases |b|
  {
    if b == [] {
      assert a + b == a;
    } else {
      var init := b[..|b| - 1];
      assert (a + b)[..|a + b| - 1] == a + init;
      assert (a + b)[|a + b| - 1] == b[|b| - 1];
      SuccessesAppend(a, init);
    }
  }

  /** One more outcome collects one more path when it is truthy. */
  lemma SuccessesStep(outcomes: seq<Option<string>>, n: nat)
    requires n < |outcomes|
    ensures Successes(outcomes[..n + 1])
         == Successes(outcomes[..n]) + (if Truthy(outcomes[n]) then [outcomes[n].value] else [])
  {
    var prefix := outcomes[..n + 1];
    assert prefix[..|prefix| - 1] == outcomes[..n];
  }

  /** A non-empty path is collected exactly as often as it occurs as an outcome. */
  lemma {:induction false} SuccessesCount(outcomes: seq<Option<string>>, p: string)
    requires p != ""
    ensures multiset(Successes(outcomes))[p] == multiset(outcomes)[Some(p)]
    decreases |outcomes|
  {
    if outcomes != [] {
      var init := outcomes[..|outcomes| - 1];
      assert outcomes == init + [outcomes[|outcomes| - 1]];
      SuccessesCount(init, p);
    }
  }

  /** Outcomes that are the same up to order yield the same collected paths up to order. */
  lemma SuccessesPermutation(a: seq<Option<string>>, b: seq<Option<string>>)
    requires multiset(a) == multiset(b)
    ensures multiset(Successes(a)) == multiset(Successes(b))
  {
    var sa, sb := Successes(a), Successes(b);
    forall p ensures multiset(sa)[p] == multiset(sb)[p] {
      if p == "" {
        assert p !in sa && p !in sb;
      } else {
        SuccessesCount(a, p);
        SuccessesCount(b, p);
      }
    }
  }

  /**
   * The collection loop. `processed` holds the truthy outcomes in the order
   * the loop sees them, `completed` ends at the number of jobs, and
   * `progress` records the counter at each progress-bar update: it rises by
   * exactly one per job, from 1 up to the total.
   */
  method FanIn(outcomes: seq<Option<string>>) returns (processed: seq<string>, completed: nat, progress: seq<nat>)
    ensures processed == Successes(outcomes)
    ensures completed == |outcomes|
    ensures |progress| == |outcomes|
    ensures forall k :: 0 <= k < |progress| ==> progress[k] == k + 1
    ensures forall k :: 0 <= k < |progress| ==> 0 < progress[k] <= completed
  {
    processed, completed, progress := [], 0, [];
    while completed < |outcomes|
      invariant completed <= |outcomes|
      invariant processed == Successes(outcomes[..completed])
      invariant |progress| == completed
      invariant forall k :: 0 <= k < completed ==> progress[k] == k + 1
    {
      var result := outcomes[completed];
      SuccessesStep(outcomes, completed);
      if Truthy(result) {
        processed := processed + [result.value];
      }
      completed := completed + 1;
      progress := progress + [completed];
    }
    assert outcomes[..completed] == outcomes;
  }

  /**
   * version.py's `as_completed` loop: every submitted job's outcome is seen
   * exactly once, in any order. The same paths are collected as in
   * submission order, as a multiset, and the counter still ends at the
   * number of jobs.
   */
  method FanInAsCompleted(submitted: seq<Option<string>>, completions: seq<Option<string>>)
    returns (processed: seq<string>, completed: nat, progress: seq<nat>)
    requires multiset(completions) == multiset(submitted)
    ensures processed == Successes(completions)
    ensures multiset(processed) == multiset(Successes(submitted))
    ensures completed == |submitted|
    ensures |progress| == |submitted|
    ensures forall k :: 0 <= k < |progress| ==> progress[k] == k + 1
  {
    assert |completions| == |multiset(completions)| == |submitted|;
    processed, completed, progress := FanIn(completions);
    SuccessesPermutation(completions, submitted);
  }

  /** What the form reports once the loop is done. */
  datatype Verdict = Archived(count: nat) | ProcessingFailed

  /** `if processed_paths:` zip and report the count, else "Processing failed.". */
  function BatchVerdict(processed: seq<string>): Verdict
  {
    if processed != [] then Archived(|processed|) else ProcessingFailed
  }

  /** The batch fails exactly when no job produced a (truthy) output path. */
  lemma {:induction false} FailsIffNothingConverted(outcomes: seq<Option<string>>)
    ensures BatchVerdict(Successes(outcomes)) == ProcessingFailed
        <==> forall k :: 0 <= k < |outcomes| ==> !Truthy(outcomes[k])
    decreases |outcomes|
  {
    if outcomes != [] {
      var init := outcomes[..|outcomes| - 1];
      FailsIffNothingConverted(init);
      assert forall k :: 0 <= k < |init| ==> init[k] == outcomes[k];
    }
  }
}
