/** The whole synchronisation run, `check_and_download_missing_files`
    (hf_download.py:24-138): list the repository, filter, plan, fetch. */
module Session {
  import opened Wrappers
  import opened Strings
  import opened PathFilter
  import opened Reconcile
  import opened Fetch

  /** What a run reports. A failed listing ends the run with its message;
      otherwise the run reports how many files were listed, the files it
      checked, the plan it built and one outcome per planned file. */
  datatype SessionReport =
    | ListingFailed(message: string)
    | Completed(listed: nat, checked: seq<string>, plan: seq<PlanItem>, outcomes: seq<FetchOutcome>)

  /** One run. `listing` is what the repository listing call returned,
      `pathExists` says whether a local path exists, `verifies` whether the
      verify-only lookup of a remote path succeeds, and `fetch` what the
      forced, resumable download of a remote path returns. */
  method CheckAndDownloadMissingFiles(
    listing: Result<seq<string>, string>,
    localDir: string,
    includePatterns: Option<seq<string>>,
    excludePatterns: Option<seq<string>>,
    pathExists: string -> bool,
    verifies: string -> bool,
    fetch: string -> Result<string, string>)
    returns (report: SessionReport)
    ensures listing.Failure? <==> report.ListingFailed?
    ensures listing.Failure? ==> report.message == listing.error
    ensures listing.Success? ==>
      && report.listed == |listing.value|
      && report.checked == Filter(listing.value, includePatterns, excludePatterns)
      && report.plan == Plan(report.checked, localDir, pathExists, verifies)
      && report.outcomes == FetchAll(report.plan, fetch)
  {
    match listing {
      case Failure(message) =>
        report := ListingFailed(message);
      case Success(allFiles) =>
        var filesToCheck := FilterFiles(allFiles, includePatterns, excludePatterns);
        var filesToDownload := BuildPlan(filesToCheck, localDir, pathExists, verifies);
        var outcomes := [];
        if |filesToDownload| > 0 {
          outcomes := DownloadAll(filesToDownload, fetch);
        }
        report := Completed(|allFiles|, filesToCheck, filesToDownload, outcomes);
    }
  }

  /** Nothing is fetched when every checked file is already present and
      verifies; otherwise every checked file that is missing or fails
      verification is fetched. */
  lemma FetchesExactlyTheInvalid(checked: seq<string>, root: string, pathExists: string -> bool, verifies: string -> bool, fetch: string -> Result<string, string>, p: string)
    requires p in checked
    ensures NeedsDownload(p, root, pathExists, verifies) <==>
      exists o :: o in FetchAll(Plan(checked, root, pathExists, verifies), fetch) && o.remotePath == p
  {
    var plan := Plan(checked, root, pathExists, verifies);
    var outcomes := FetchAll(plan, fetch);
    PlanMembership(checked, root, pathExists, verifies, PlanItem(p, LocalPath(root, p)));
    if NeedsDownload(p, root, pathExists, verifies) {
      var j :| 0 <= j < |plan| && plan[j] == PlanItem(p, LocalPath(root, p));
      assert outcomes[j] in outcomes;
    }
    if exists o :: o in outcomes && o.remotePath == p {
      var o :| o in outcomes && o.remotePath == p;
      var j :| 0 <= j < |outcomes| && outcomes[j] == o;
      assert plan[j] in plan;
      PlanMembership(checked, root, pathExists, verifies, plan[j]);
    }
  }

  /** Running again after a run in which every download succeeded plans
      nothing, provided that a file found valid stays valid and that a
      successful forced download leaves a valid file. */
  lemma {:induction false} RerunAfterFullSuccessPlansNothing(
    checked: seq<string>, root: string,
    pathExists1: string -> bool, verifies1: string -> bool,
    fetch: string -> Result<string, string>,
    pathExists2: string -> bool, verifies2: string -> bool)
    requires forall o :: o in FetchAll(Plan(checked, root, pathExists1, verifies1), fetch) ==> o.Downloaded()
    requires forall p :: p in checked && !NeedsDownload(p, root, pathExists1, verifies1) ==> !NeedsDownload(p, root, pathExists2, verifies2)
    requires forall p :: p in checked && fetch(p).Success? ==> !NeedsDownload(p, root, pathExists2, verifies2)
    ensures Plan(checked, root, pathExists2, verifies2) == []
  {
    var plan := Plan(checked, root, pathExists1, verifies1);
    var outcomes := FetchAll(plan, fetch);
    forall p | p in checked
      ensures !NeedsDownload(p, root, pathExists2, verifies2)
    {
      if NeedsDownload(p, root, pathExists1, verifies1) {
        PlanMembership(checked, root, pathExists1, verifies1, PlanItem(p, LocalPath(root, p)));
        var j :| 0 <= j < |plan| && plan[j] == PlanItem(p, LocalPath(root, p));
        assert outcomes[j] in outcomes;
      }
    }
    PlanEmptyIffAllValid(checked, root, pathExists2, verifies2);
  }

  /** `dir/name.ext` holds no `/.` when its directory and base name hold no
      `/` or `.`, the base name is not empty and the extension holds no `/`. */
  lemma NoDotSegment(dir: string, name: string, ext: string)
    requires '/' !in dir && '.' !in dir && '/' !in name && '.' !in name && name != "" && '/' !in ext
    ensures !IsHidden(dir + "/" + name + ext)
  {
    var slashName := "/" + name;
    var front := dir + slashName;
    var path := front + ext;
    assert dir + "/" + name + ext == path;
    assert path[0] == if dir == "" then '/' else dir[0];
    MissingCharNotContained(dir + "/", "/.", 1);
    if dir != "" {
      MissingCharNotContained(dir, "/.", 0);
    }
    MissingCharNotContained(slashName, "/.", 1);
    MissingCharNotContained(ext, "/.", 0);
    PairNotContainedInJoin(dir, slashName, "/.");
    assert front[|front| - 1] == name[|name| - 1];
    PairNotContainedInJoin(front, ext, "/.");
  }

  /** The filter's worked example, for every `dir/name.safetensors` whose
      directory holds no `/`, `.` or `*` and whose base name holds no `/` or
      `.` (`models/a.safetensors`, say): `*.safetensors` keeps it, and
      excluding `dir/` drops it. */
  lemma SafetensorsExample(dir: string, name: string)
    requires '/' !in dir && '.' !in dir && '*' !in dir && '/' !in name && '.' !in name && name != ""
    ensures PassesFilter(dir + "/" + name + ".safetensors", Some(["*.safetensors"]), None)
    ensures !PassesFilter(dir + "/" + name + ".safetensors", Some(["*.safetensors"]), Some([dir + "/"]))
  {
    var path := dir + "/" + name + ".safetensors";
    NoDotSegment(dir, name, ".safetensors");
    var inc, ext := ["*.safetensors"], ".safetensors";
    assert inc[0][1..] == ext && path[|path| - |ext|..] == ext;
    assert Matches(inc[0], path);
    var exc := [dir + "/"];
    assert !StartsWith(exc[0], "*") by {
      if dir != "" {
        assert exc[0][0] == dir[0];
      }
    }
    ContainsIffOccurs(path, exc[0]);
    assert OccursAt(path, exc[0], 0);
    assert Matches(exc[0], path);
  }

  /** `cache/.lock` is never kept, whatever the pattern lists are. */
  lemma LockFileExample(includePatterns: Option<seq<string>>, excludePatterns: Option<seq<string>>)
    ensures !PassesFilter("cache/.lock", includePatterns, excludePatterns)
  {
  }

  /** Filtering `[a, b, a]` when `a` passes and `b` does not. */
  lemma FilterRepeated(a: string, b: string, includePatterns: Option<seq<string>>)
    requires PassesFilter(a, includePatterns, None) && !PassesFilter(b, includePatterns, None)
    ensures Filter([a, b, a], includePatterns, None) == [a, a]
  {
    FilterSingle(a, includePatterns, None);
    FilterSingle(b, includePatterns, None);
    FilterAppend([a], [b], includePatterns, None);
    FilterAppend([a, b], [a], includePatterns, None);
    assert [a] + [b] + [a] == [a, b, a];
  }

  /** Planning `[a, a]` when `a` needs fetching. */
  lemma PlanRepeated(a: string, root: string, pathExists: string -> bool, verifies: string -> bool)
    requires NeedsDownload(a, root, pathExists, verifies)
    ensures Plan([a, a], root, pathExists, verifies) == [PlanItem(a, LocalPath(root, a)), PlanItem(a, LocalPath(root, a))]
  {
  }

  /** A listing that repeats a file plans it once per occurrence. With
      `a = a.safetensors`, `b = b.json`, `*.safetensors` included and nothing
      on disk, the listing `a, b, a` plans `a` twice. */
  lemma DuplicateListingIsFetchedTwice(
    a: string, b: string, includePatterns: Option<seq<string>>,
    root: string, pathExists: string -> bool, verifies: string -> bool)
    requires PassesFilter(a, includePatterns, None) && !PassesFilter(b, includePatterns, None)
    requires NeedsDownload(a, root, pathExists, verifies)
    ensures Plan(Filter([a, b, a], includePatterns, None), root, pathExists, verifies)
      == [PlanItem(a, LocalPath(root, a)), PlanItem(a, LocalPath(root, a))]
  {
    FilterRepeated(a, b, includePatterns);
    PlanRepeated(a, root, pathExists, verifies);
  }
}
