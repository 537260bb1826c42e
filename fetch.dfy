/** Stage three of the synchroniser: one forced, resumable download per
    planned file, each failure caught on its own (hf_download.py:114-135). */
module Fetch {
  import opened Wrappers
  import opened Reconcile

  /** What was reported for one planned file: `Success` with the path the
      download call returned, or `Failure` with the message of the error it
      raised. */
  datatype FetchOutcome = FetchOutcome(remotePath: string, result: Result<string, string>) {
    predicate Downloaded() {
      result.Success?
    }
  }

  /** The reports for a whole plan: one per item, in plan order, each decided
      by that item's own download call alone. */
  function FetchAll(plan: seq<PlanItem>, fetch: string -> Result<string, string>): (r: seq<FetchOutcome>)
    ensures |r| == |plan|
    ensures forall i :: 0 <= i < |plan| ==> r[i].remotePath == plan[i].remotePath
    ensures forall i :: 0 <= i < |plan| ==> r[i].result == fetch(plan[i].remotePath)
  {
    if plan == [] then []
    else FetchAll(plan[..|plan| - 1], fetch) + [FetchOutcome(plan[|plan| - 1].remotePath, fetch(plan[|plan| - 1].remotePath))]
  }

  /** The download loop over `files_to_download`; the `try`/`except` around
      each call turns an error into a failure report and moves on. */
  method DownloadAll(filesToDownload: seq<PlanItem>, fetch: string -> Result<string, string>)
    returns (outcomes: seq<FetchOutcome>)
    ensures outcomes == FetchAll(filesToDownload, fetch)
  {
    outcomes := [];
    for i := 0 to |filesToDownload|
      invariant outcomes == FetchAll(filesToDownload[..i], fetch)
    {
      var item := filesToDownload[i];
      assert filesToDownload[..i + 1][..i] == filesToDownload[..i];
      var result := fetch(item.remotePath);
      outcomes := outcomes + [FetchOutcome(item.remotePath, result)];
    }
    assert filesToDownload[..|filesToDownload|] == filesToDownload;
  }

  /** Per-item isolation: the report for item `j` depends only on the download
      call for item `j`, so failures elsewhere in the plan cannot change it. */
  lemma FailureIsIsolated(plan: seq<PlanItem>, fetch1: string -> Result<string, string>, fetch2: string -> Result<string, string>, j: int)
    requires 0 <= j < |plan|
    requires fetch1(plan[j].remotePath) == fetch2(plan[j].remotePath)
    ensures FetchAll(plan, fetch1)[j] == FetchAll(plan, fetch2)[j]
  {
  }
}
