/** Stage two of the synchroniser: pairing each filtered path with its place
    under the local directory and keeping the pairs whose local copy is
    missing or does not verify (hf_download.py:83-109). */
module Reconcile {
  import opened Strings

  /** One file to fetch: the path in the repository and where it goes. */
  datatype PlanItem = PlanItem(remotePath: string, localPath: string)

  /** `Path(root) / path`: an absolute path stands alone, an empty root
      contributes nothing, otherwise the two are joined by one separator. */
  function LocalPath(root: string, path: string): (r: string)
    ensures EndsWith(r, path)
    ensures !StartsWith(path, "/") ==> StartsWith(r, root)
  {
    if StartsWith(path, "/") || root == "" then path
    else if EndsWith(root, "/") then root + path
    else root + "/" + path
  }

  /** The local copy of `path` has to be fetched: it is not there, or it is
      there but the verify-only lookup rejects it. */
  predicate NeedsDownload(path: string, root: string, pathExists: string -> bool, verifies: string -> bool) {
    !pathExists(LocalPath(root, path)) || !verifies(path)
  }

  /** The download plan for `files`, in their order. */
  function Plan(files: seq<string>, root: string, pathExists: string -> bool, verifies: string -> bool): (r: seq<PlanItem>)
    ensures |r| <= |files|
  {
    if files == [] then []
    else
      var rest := Plan(files[..|files| - 1], root, pathExists, verifies);
      var last := files[|files| - 1];
      if NeedsDownload(last, root, pathExists, verifies) then rest + [PlanItem(last, LocalPath(root, last))] else rest
  }

  /** Builds `files_to_download`. The verify-only lookup is made only for
      files that exist locally, as in the source. */
  method BuildPlan(filesToCheck: seq<string>, localDir: string, pathExists: string -> bool, verifies: string -> bool)
    returns (filesToDownload: seq<PlanItem>)
    ensures filesToDownload == Plan(filesToCheck, localDir, pathExists, verifies)
  {
    filesToDownload := [];
    for i := 0 to |filesToCheck|
      invariant filesToDownload == Plan(filesToCheck[..i], localDir, pathExists, verifies)
    {
      var filePath := filesToCheck[i];
      assert filesToCheck[..i + 1][..i] == filesToCheck[..i];
      var localFilePath := LocalPath(localDir, filePath);
      var remoteFilePath := filePath;
      if !pathExists(localFilePath) {
        filesToDownload := filesToDownload + [PlanItem(remoteFilePath, localFilePath)];
        continue;
      }
      var valid := verifies(remoteFilePath);
      if valid {
        continue;
      }
      filesToDownload := filesToDownload + [PlanItem(remoteFilePath, localFilePath)];
    }
    assert filesToCheck[..|filesToCheck|] == filesToCheck;
  }

  // ----- Properties of the plan -----

  /** A pair is planned exactly when its path was checked, its local side is
      the join of the root and the path, and the local copy needs fetching. */
  lemma {:induction false} PlanMembership(files: seq<string>, root: string, pathExists: string -> bool, verifies: string -> bool, item: PlanItem)
    ensures item in Plan(files, root, pathExists, verifies) <==>
      && item.remotePath in files
      && item.localPath == LocalPath(root, item.remotePath)
      && NeedsDownload(item.remotePath, root, pathExists, verifies)
  {
    if files != [] {
      var init := files[..|files| - 1];
      PlanMembership(init, root, pathExists, verifies, item);
      assert files == init + [files[|files| - 1]];
    }
  }

  /** The plan is empty exactly when every checked file is present and
      verifies. */
  lemma {:induction false} PlanEmptyIffAllValid(files: seq<string>, root: string, pathExists: string -> bool, verifies: string -> bool)
    ensures Plan(files, root, pathExists, verifies) == [] <==> forall p :: p in files ==> !NeedsDownload(p, root, pathExists, verifies)
  {
    if exists p :: p in files && NeedsDownload(p, root, pathExists, verifies) {
      var p :| p in files && NeedsDownload(p, root, pathExists, verifies);
      PlanMembership(files, root, pathExists, verifies, PlanItem(p, LocalPath(root, p)));
    }
    var plan := Plan(files, root, pathExists, verifies);
    if plan != [] {
      assert plan[0] in plan;
      PlanMembership(files, root, pathExists, verifies, plan[0]);
    }
  }

  /** Planning a concatenation plans each part in turn: the plan keeps the
      order of the checked files. */
  lemma {:induction false} PlanAppend(a: seq<string>, b: seq<string>, root: string, pathExists: string -> bool, verifies: string -> bool)
    ensures Plan(a + b, root, pathExists, verifies) == Plan(a, root, pathExists, verifies) + Plan(b, root, pathExists, verifies)
    decreases |b|
  {
    if b == [] {
      assert a + b == a;
    } else {
      var init, last := b[..|b| - 1], b[|b| - 1];
      PlanAppend(a, init, root, pathExists, verifies);
      var ab := a + b;
      assert ab[..|ab| - 1] == a + init && ab[|ab| - 1] == last;
      var tail := if NeedsDownload(last, root, pathExists, verifies) then [PlanItem(last, LocalPath(root, last))] else [];
      calc {
        Plan(ab, root, pathExists, verifies);
        Plan(a + init, root, pathExists, verifies) + tail;
        Plan(a, root, pathExists, verifies) + Plan(init, root, pathExists, verifies) + tail;
        Plan(a, root, pathExists, verifies) + Plan(b, root, pathExists, verifies);
      }
    }
  }

  /** The plan for a one-element list. */
  lemma PlanSingle(p: string, root: string, pathExists: string -> bool, verifies: string -> bool)
    ensures Plan([p], root, pathExists, verifies) == if NeedsDownload(p, root, pathExists, verifies) then [PlanItem(p, LocalPath(root, p))] else []
  {
  }

  /** Repeated checked paths that need fetching are planned once per
      occurrence: the plan does not merge duplicates. */
  lemma {:induction false} PlanKeepsDuplicates(files: seq<string>, root: string, pathExists: string -> bool, verifies: string -> bool, p: string)
    ensures multiset(Plan(files, root, pathExists, verifies))[PlanItem(p, LocalPath(root, p))]
      == if NeedsDownload(p, root, pathExists, verifies) then multiset(files)[p] else 0
  {
    if files != [] {
      var init := files[..|files| - 1];
      PlanKeepsDuplicates(init, root, pathExists, verifies, p);
      assert files == init + [files[|files| - 1]];
    }
  }
}
