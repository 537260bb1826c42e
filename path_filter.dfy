/** Stage one of the synchroniser: deciding from its name whether a remote
    path is in scope (hf_download.py:44-78). */
module PathFilter {
  import opened Wrappers
  import opened Strings

  /** A hidden file at the top level, or anything under or named by a
      dot-segment further down. */
  predicate IsHidden(path: string) {
    StartsWith(path, ".") || Contains(path, "/.")
  }

  /** The two-case pattern rule: a leading `*` asks for a suffix, anything
      else for a substring. */
  predicate Matches(pattern: string, path: string) {
    if StartsWith(pattern, "*") then EndsWith(path, pattern[1..])
    else Contains(path, pattern)
  }

  /** Some pattern of the list matches the path. */
  predicate AnyMatch(patterns: seq<string>, path: string) {
    exists i :: 0 <= i < |patterns| && Matches(patterns[i], path)
  }

  /** A pattern list takes part in filtering only when it is given and not
      empty: an absent list and an empty one are both "no constraint". */
  predicate IsActive(patterns: Option<seq<string>>) {
    patterns.Some? && |patterns.value| > 0
  }

  /** Whether one listed path survives the filter. */
  predicate PassesFilter(path: string, includePatterns: Option<seq<string>>, excludePatterns: Option<seq<string>>) {
    && !IsHidden(path)
    && (IsActive(includePatterns) ==> AnyMatch(includePatterns.value, path))
    && !(IsActive(excludePatterns) && AnyMatch(excludePatterns.value, path))
  }

  /** The paths of `files` that survive the filter, in listing order. */
  function Filter(files: seq<string>, includePatterns: Option<seq<string>>, excludePatterns: Option<seq<string>>): (r: seq<string>)
    ensures |r| <= |files|
  {
    if files == [] then []
    else
      var rest := Filter(files[..|files| - 1], includePatterns, excludePatterns);
      var last := files[|files| - 1];
      if PassesFilter(last, includePatterns, excludePatterns) then rest + [last] else rest
  }

  /** The pattern loop with its `include`/`exclude` flag and early `break`
      (hf_download.py:52-60 and 66-74, the same code for both lists). */
  method AnyPatternMatches(patterns: seq<string>, path: string) returns (found: bool)
    ensures found <==> AnyMatch(patterns, path)
  {
    found := false;
    for i := 0 to |patterns|
      invariant !found
      invariant forall j :: 0 <= j < i ==> !Matches(patterns[j], path)
    {
      var pattern := patterns[i];
      if StartsWith(pattern, "*") {
        if EndsWith(path, pattern[1..]) {
          found := true;
          break;
        }
      } else if Contains(path, pattern) {
        found := true;
        break;
      }
    }
  }

  /** Builds `files_to_check` from the repository listing. */
  method FilterFiles(allFiles: seq<string>, includePatterns: Option<seq<string>>, excludePatterns: Option<seq<string>>)
    returns (filesToCheck: seq<string>)
    ensures filesToCheck == Filter(allFiles, includePatterns, excludePatterns)
  {
    filesToCheck := [];
    for i := 0 to |allFiles|
      invariant filesToCheck == Filter(allFiles[..i], includePatterns, excludePatterns)
    {
      var filePath := allFiles[i];
      assert allFiles[..i + 1][..i] == allFiles[..i];
      if StartsWith(filePath, ".") || Contains(filePath, "/.") {
        continue;
      }
      if includePatterns.Some? && |includePatterns.value| > 0 {
        var included := AnyPatternMatches(includePatterns.value, filePath);
        if !included {
          continue;
        }
      }
      if excludePatterns.Some? && |excludePatterns.value| > 0 {
        var excluded := AnyPatternMatches(excludePatterns.value, filePath);
        if excluded {
          continue;
        }
      }
      filesToCheck := filesToCheck + [filePath];
    }
    assert allFiles[..|allFiles|] == allFiles;
  }

  // ----- Properties of the pattern rule -----

  /** A `*`-led pattern matches exactly the paths ending in the rest of the
      pattern; any other pattern matches exactly where it occurs in the path. */
  lemma MatchesByRule(pattern: string, path: string)
    ensures |pattern| > 0 && pattern[0] == '*' ==> (Matches(pattern, path) <==> EndsWith(path, pattern[1..]))
    ensures (|pattern| == 0 || pattern[0] != '*') ==> (Matches(pattern, path) <==> OccursIn(pattern, path))
  {
    ContainsIffOccurs(path, pattern);
  }

  /** `*` alone matches every path, and so does the empty pattern. */
  lemma LoneStarMatchesEverything(path: string)
    ensures Matches("*", path)
    ensures Matches("", path)
  {
  }

  /** A `*` anywhere but at the front is an ordinary character, whether or
      not the pattern itself starts with `*`: a path that such a pattern
      matches contains a literal `*`. */
  lemma InnerStarIsLiteral(pattern: string, path: string, i: int)
    requires 0 < i < |pattern| && pattern[i] == '*'
    requires Matches(pattern, path)
    ensures '*' in path
  {
    if StartsWith(pattern, "*") {
      var rest := pattern[1..];
      assert rest[i - 1] == '*';
      assert path[|path| - |rest|..] == rest;
      assert path[|path| - |rest| + i - 1] == '*';
    } else if '*' !in path {
      MissingCharNotContained(path, pattern, i);
    }
  }

  // ----- Properties of the filter on one path -----

  /** Hidden paths are rejected whatever the pattern lists are. */
  lemma HiddenNeverPasses(path: string, includePatterns: Option<seq<string>>, excludePatterns: Option<seq<string>>)
    requires (|path| > 0 && path[0] == '.') || OccursIn("/.", path)
    ensures !PassesFilter(path, includePatterns, excludePatterns)
  {
    ContainsIffOccurs(path, "/.");
  }

  /** An active include list is an any-match gate; an inactive one lets
      every visible path through to the exclude stage. */
  lemma IncludeIsAnyMatchGate(path: string, includePatterns: Option<seq<string>>)
    requires !IsHidden(path)
    ensures PassesFilter(path, includePatterns, None) <==> (!IsActive(includePatterns) || exists q :: q in includePatterns.value && Matches(q, path))
  {
  }

  /** A path matched by an active exclude list is rejected even when an
      include pattern matches it; an inactive exclude list rejects nothing. */
  lemma ExcludeVetoes(path: string, includePatterns: Option<seq<string>>, excludePatterns: Option<seq<string>>)
    ensures IsActive(excludePatterns) && AnyMatch(excludePatterns.value, path) ==> !PassesFilter(path, includePatterns, excludePatterns)
    ensures !IsActive(excludePatterns) ==> (PassesFilter(path, includePatterns, excludePatterns) <==> PassesFilter(path, includePatterns, None))
  {
  }

  /** An absent list and an empty list filter alike. */
  lemma AbsentEqualsEmpty(path: string, includePatterns: Option<seq<string>>, excludePatterns: Option<seq<string>>)
    ensures PassesFilter(path, None, excludePatterns) == PassesFilter(path, Some([]), excludePatterns)
    ensures PassesFilter(path, includePatterns, None) == PassesFilter(path, includePatterns, Some([]))
  {
  }

  /** The early `break` only saves work: listing the same patterns in another
      order, or repeating some, does not change the verdict. */
  lemma PatternOrderIrrelevant(patterns1: seq<string>, patterns2: seq<string>, path: string)
    requires forall q :: q in patterns1 <==> q in patterns2
    ensures AnyMatch(patterns1, path) == AnyMatch(patterns2, path)
  {
    if AnyMatch(patterns1, path) {
      var i :| 0 <= i < |patterns1| && Matches(patterns1[i], path);
      assert patterns1[i] in patterns2;
    }
    if AnyMatch(patterns2, path) {
      var i :| 0 <= i < |patterns2| && Matches(patterns2[i], path);
      assert patterns2[i] in patterns1;
    }
  }

  // ----- Properties of the filtered listing -----

  /** A path is in the filtered listing exactly when it was listed and passes. */
  lemma {:induction false} FilterMembership(files: seq<string>, includePatterns: Option<seq<string>>, excludePatterns: Option<seq<string>>, p: string)
    ensures p in Filter(files, includePatterns, excludePatterns) <==> p in files && PassesFilter(p, includePatterns, excludePatterns)
  {
    if files != [] {
      var init := files[..|files| - 1];
      FilterMembership(init, includePatterns, excludePatterns, p);
      assert files == init + [files[|files| - 1]];
    }
  }

  /** Filtering a concatenation filters each part in turn: the filter keeps
      listing order. */
  lemma {:induction false} FilterAppend(a: seq<string>, b: seq<string>, includePatterns: Option<seq<string>>, excludePatterns: Option<seq<string>>)
    ensures Filter(a + b, includePatterns, excludePatterns) == Filter(a, includePatterns, excludePatterns) + Filter(b, includePatterns, excludePatterns)
    decreases |b|
  {
    if b == [] {
      assert a + b == a;
    } else {
      var init, last := b[..|b| - 1], b[|b| - 1];
      FilterAppend(a, init, includePatterns, excludePatterns);
      var ab := a + b;
      assert ab[..|ab| - 1] == a + init && ab[|ab| - 1] == last;
    }
  }

  /** Repeated listing entries are kept, each as often as it was listed. */
  lemma {:induction false} FilterKeepsDuplicates(files: seq<string>, includePatterns: Option<seq<string>>, excludePatterns: Option<seq<string>>, p: string)
    ensures multiset(Filter(files, includePatterns, excludePatterns))[p] == if PassesFilter(p, includePatterns, excludePatterns) then multiset(files)[p] else 0
  {
    if files != [] {
      var init := files[..|files| - 1];
      FilterKeepsDuplicates(init, includePatterns, excludePatterns, p);
      assert files == init + [files[|files| - 1]];
    }
  }

  /** The filtered one-element listing. */
  lemma FilterSingle(p: string, includePatterns: Option<seq<string>>, excludePatterns: Option<seq<string>>)
    ensures Filter([p], includePatterns, excludePatterns) == if PassesFilter(p, includePatterns, excludePatterns) then [p] else []
  {
  }

  /** No hidden path reaches the filtered listing. */
  lemma FilterHasNoHidden(files: seq<string>, includePatterns: Option<seq<string>>, excludePatterns: Option<seq<string>>)
    ensures forall i :: 0 <= i < |Filter(files, includePatterns, excludePatterns)| ==> !IsHidden(Filter(files, includePatterns, excludePatterns)[i])
  {
  }
}
