/**
 * `process_repositories` (lines 134-147): run `process_repository` on each
 * URL in order and append every record it returns. `None` results are
 * skipped; an exception that escapes `process_repository` is not caught
 * here and ends the whole run.
 */
module Aggregate {
  import opened Wrappers
  import opened Repository

  /** The outcome of each input under `process`, in input order. */
  function Outcomes<U>(inputs: seq<U>, process: U -> Outcome): (os: seq<Outcome>)
    ensures |os| == |inputs|
    ensures forall i :: 0 <= i < |inputs| ==> os[i] == process(inputs[i])
  {
    seq(|inputs|, i requires 0 <= i < |inputs| => process(inputs[i]))
  }

  /** The records among `os`, in order (the `if repo_data:` filter). */
  function Records(os: seq<Outcome>): seq<Record>
  {
    if os == [] then []
    else
      var last := os[|os| - 1];
      Records(os[..|os| - 1]) + (if last.Produced? then [last.record] else [])
  }

  /** How many outcomes are records, counted from the front. */
  function ProducedCount(os: seq<Outcome>): nat
  {
    if os == [] then 0 else (if os[0].Produced? then 1 else 0) + ProducedCount(os[1..])
  }

  /** Filtering distributes over concatenation: records keep their input order. */
  lemma {:induction false} RecordsAppend(a: seq<Outcome>, b: seq<Outcome>)
    ensures Records(a + b) == Records(a) + Records(b)
  {
    if b == [] {
      assert a + b == a;
    } else {
      var b' := b[..|b| - 1];
      assert (a + b)[..|a + b| - 1] == a + b';
      RecordsAppend(a, b');
    }
  }

  /** One record per input that produced one, and no others. */
  lemma {:induction false} RecordsLength(os: seq<Outcome>)
    ensures |Records(os)| == ProducedCount(os)
  {
    if os != [] {
      assert os == [os[0]] + os[1..];
      RecordsAppend([os[0]], os[1..]);
      assert [os[0]][..0] == [];
      RecordsLength(os[1..]);
    }
  }

  /** A record is in the report exactly when some input produced it. */
  lemma {:induction false} RecordsMembership(os: seq<Outcome>, r: Record)
    ensures r in Records(os) <==> Produced(r) in os
  {
    if os != [] {
      var front := os[..|os| - 1];
      assert os == front + [os[|os| - 1]];
      RecordsMembership(front, r);
    }
  }

  /** One more input adds its record, if it has one, at the end. */
  lemma RecordsStep<U>(inputs: seq<U>, process: U -> Outcome, i: nat)
    requires i < |inputs|
    ensures Records(Outcomes(inputs[..i + 1], process)) ==
      Records(Outcomes(inputs[..i], process)) +
      (if process(inputs[i]).Produced? then [process(inputs[i]).record] else [])
  {
    var os := Outcomes(inputs[..i + 1], process);
    assert os[..i] == Outcomes(inputs[..i], process);
  }

  /**
   * The loop of lines 142-147 with the per-URL step `process` as a
   * parameter: the records, in input order, when no step raises; otherwise
   * the first exception, which is not caught and ends the run.
   */
  method CollectRecords<U>(inputs: seq<U>, process: U -> Outcome) returns (result: Result<seq<Record>, Error>)
    ensures result.Ok? <==> forall i :: 0 <= i < |inputs| ==> !process(inputs[i]).Raised?
    ensures result.Ok? ==> result.value == Records(Outcomes(inputs, process))
    ensures result.Err? ==>
      exists k :: 0 <= k < |inputs| && process(inputs[k]) == Raised(result.error) &&
                  forall j :: 0 <= j < k ==> !process(inputs[j]).Raised?
  {
    var output: seq<Record> := [];
    var i := 0;
    while i < |inputs|
      invariant 0 <= i <= |inputs|
      invariant forall j :: 0 <= j < i ==> !process(inputs[j]).Raised?
      invariant output == Records(Outcomes(inputs[..i], process))
    {
      var repoData := process(inputs[i]);
      if repoData.Raised? {
        return Err(repoData.error);
      }
      RecordsStep(inputs, process, i);
      if repoData.Produced? {
        output := output + [repoData.record];
      }
      i := i + 1;
    }
    assert inputs[..i] == inputs;
    result := Ok(output);
  }

  /** `process_repositories(repo_urls)`: `CollectRecords` with `process_repository` as the step. */
  method ProcessRepositories(inputs: seq<RepoInput>) returns (result: Result<seq<Record>, Error>)
    ensures result.Ok? <==> forall i :: 0 <= i < |inputs| ==> !ProcessRepository(inputs[i]).Raised?
    ensures result.Ok? ==> result.value == Records(Outcomes(inputs, ProcessRepository))
    ensures result.Err? ==>
      exists k :: 0 <= k < |inputs| && ProcessRepository(inputs[k]) == Raised(result.error) &&
                  forall j :: 0 <= j < k ==> !ProcessRepository(inputs[j]).Raised?
  {
    result := CollectRecords(inputs, ProcessRepository);
  }
}
