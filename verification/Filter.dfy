// Which files an incremental run presents for extraction: the hash path, and the path that trusts git.
module Filter {
  import opened Wrappers
  import opened Manifest

  // What git answers. `status`: the files that differ from HEAD or are untracked, if git can tell.
  // `since`: the files that differ between the manifest's commit and HEAD, if git can tell.
  datatype Git = Git(status: Option<set<string>>, head: string, since: Option<set<string>>)

  // The files git reports; None when every file has to be hashed.
  function Report(git: Git, commit: string): Option<set<string>> {
    if git.status.None? then None
    else if commit == "" || git.head == "" || git.head == commit then git.status
    else if git.since.None? then None
    else Some(git.status.value + git.since.value)
  }

  // The files handed to the hash check: those reported, and those due for a retry.
  predicate Suspect(files: Files, report: Option<set<string>>, f: string) {
    report.None? || f in report.value || (f in files && RetryDue(files[f]))
  }

  // A file that cannot be read counts as changed.
  predicate Differs(files: Files, disk: map<string, nat>, f: string) {
    f !in disk || IsChanged(files, f, disk[f])
  }

  function Dirty(files: Files, disk: map<string, nat>, walk: set<string>, report: Option<set<string>>): set<string> {
    set f | f in walk && Suspect(files, report, f) && Differs(files, disk, f)
  }

  function Bases(base: string -> string, fs: set<string>): set<string> {
    set f | f in fs :: base(f)
  }

  // Is f looked at again for a dirty file of the same base name? With git, a suspect file is not.
  predicate Rechecked(files: Files, report: Option<set<string>>, f: string) {
    report.None? || !Suspect(files, report, f)
  }

  // What the run re-extracts, and what it reports as unchanged.
  function Presented(base: string -> string, files: Files, disk: map<string, nat>, walk: set<string>,
                     report: Option<set<string>>): set<string>
  {
    var dirty := Dirty(files, disk, walk, report);
    set f | f in walk && (f in dirty || (Rechecked(files, report, f) && base(f) in Bases(base, dirty)))
  }

  function Unchanged(base: string -> string, files: Files, disk: map<string, nat>, walk: set<string>,
                     report: Option<set<string>>): set<string>
  {
    set f | f in walk && f !in Presented(base, files, disk, walk, report) && Rechecked(files, report, f)
  }

  // A retry that is due reaches the run whatever git reports.
  lemma RetryIsPresented(base: string -> string, files: Files, disk: map<string, nat>, walk: set<string>,
                         report: Option<set<string>>, f: string)
    requires f in walk && f in files && RetryDue(files[f])
    ensures f in Presented(base, files, disk, walk, report)
  {
    assert f in Dirty(files, disk, walk, report);
  }

  // The elements of `walk` that are in `s`, in the order of the walk.
  function Select(walk: seq<string>, s: set<string>): (out: seq<string>)
    ensures forall f :: f in out <==> f in walk && f in s
  {
    if walk == [] then []
    else
      assert walk == walk[..|walk| - 1] + [walk[|walk| - 1]];
      Select(walk[..|walk| - 1], s) + (if walk[|walk| - 1] in s then [walk[|walk| - 1]] else [])
  }

  function SetOf(walk: seq<string>): set<string> {
    set f | f in walk
  }

  lemma {:induction false} SelectAgree(walk: seq<string>, s: set<string>, s': set<string>)
    requires forall f :: f in walk ==> (f in s <==> f in s')
    ensures Select(walk, s) == Select(walk, s')
  {
    if walk != [] {
      SelectAgree(walk[..|walk| - 1], s, s');
    }
  }

  method SelectFrom(walk: seq<string>, s: set<string>) returns (out: seq<string>)
    ensures out == Select(walk, s)
  {
    out := [];
    for n := 0 to |walk|
      invariant out == Select(walk[..n], s)
    {
      assert walk[..n + 1][..n] == walk[..n];
      if walk[n] in s {
        out := out + [walk[n]];
      }
    }
    assert walk[..|walk|] == walk;
  }

  // The files of `walk` that `s` holds and that differ from the manifest.
  method HashCheck(walk: seq<string>, files: Files, disk: map<string, nat>) returns (dirty: set<string>)
    ensures dirty == set f | f in walk && Differs(files, disk, f)
  {
    dirty := {};
    for n := 0 to |walk|
      invariant dirty == set f | f in walk[..n] && Differs(files, disk, f)
    {
      assert walk[..n + 1] == walk[..n] + [walk[n]];
      if Differs(files, disk, walk[n]) {
        dirty := dirty + {walk[n]};
      }
    }
    assert walk[..|walk|] == walk;
  }

  // The files of `clean` whose base name a dirty file has.
  method SameBase(clean: seq<string>, base: string -> string, bases: set<string>) returns (again: set<string>)
    ensures again == set f | f in clean && base(f) in bases
  {
    again := {};
    for n := 0 to |clean|
      invariant again == set f | f in clean[..n] && base(f) in bases
    {
      assert clean[..n + 1] == clean[..n] + [clean[n]];
      if base(clean[n]) in bases {
        again := again + {clean[n]};
      }
    }
    assert clean[..|clean|] == clean;
  }

  // The hash path: every file of the walk is checked.
  method FilterByHash(base: string -> string, walk: seq<string>, files: Files, disk: map<string, nat>)
    returns (changed: seq<string>, kept: seq<string>)
    ensures changed == Select(walk, Presented(base, files, disk, SetOf(walk), None))
    ensures kept == Select(walk, Unchanged(base, files, disk, SetOf(walk), None))
  {
    var dirty := HashCheck(walk, files, disk);
    assert dirty == Dirty(files, disk, SetOf(walk), None);
    var again := SameBase(walk, base, Bases(base, dirty));
    changed := SelectFrom(walk, dirty + again);
    kept := SelectFrom(walk, SetOf(walk) - dirty - again);
    SelectAgree(walk, dirty + again, Presented(base, files, disk, SetOf(walk), None));
    SelectAgree(walk, SetOf(walk) - dirty - again, Unchanged(base, files, disk, SetOf(walk), None));
  }

  // The retries a manifest asks for.
  method RetriesDue(files: Files) returns (due: set<string>)
    ensures due == set f | f in files && RetryDue(files[f])
  {
    due := {};
    var todo := files.Keys;
    while todo != {}
      invariant todo <= files.Keys
      invariant due == set f | f in files && f !in todo && RetryDue(files[f])
      decreases todo
    {
      var f :| f in todo;
      todo := todo - {f};
      if RetryDue(files[f]) {
        due := due + {f};
      }
    }
  }

  // The path that trusts git: only what git reports, or what is due for a retry, is hashed.
  method FilterReported(base: string -> string, walk: seq<string>, files: Files, disk: map<string, nat>,
                        reported: set<string>) returns (changed: seq<string>, kept: seq<string>)
    ensures changed == Select(walk, Presented(base, files, disk, SetOf(walk), Some(reported)))
    ensures kept == Select(walk, Unchanged(base, files, disk, SetOf(walk), Some(reported)))
  {
    var due := RetriesDue(files);
    var suspects := SelectFrom(walk, reported + due);
    var clean := SelectFrom(walk, SetOf(walk) - (reported + due));
    var dirty := HashCheck(suspects, files, disk);
    assert dirty == Dirty(files, disk, SetOf(walk), Some(reported));
    var again := SameBase(clean, base, Bases(base, dirty));
    changed := SelectFrom(walk, dirty + again);
    kept := SelectFrom(walk, SetOf(clean) - again);
    SelectAgree(walk, dirty + again, Presented(base, files, disk, SetOf(walk), Some(reported)));
    SelectAgree(walk, SetOf(clean) - again, Unchanged(base, files, disk, SetOf(walk), Some(reported)));
  }

  method FilterWithGit(base: string -> string, walk: seq<string>, files: Files, commit: string,
                       disk: map<string, nat>, git: Git) returns (changed: seq<string>, kept: seq<string>)
    ensures changed == Select(walk, Presented(base, files, disk, SetOf(walk), Report(git, commit)))
    ensures kept == Select(walk, Unchanged(base, files, disk, SetOf(walk), Report(git, commit)))
  {
    if git.status.None? {
      changed, kept := FilterByHash(base, walk, files, disk);
      return;
    }
    var reported := git.status.value;
    if commit != "" {
      if git.head != "" && git.head != commit {
        if git.since.None? {
          changed, kept := FilterByHash(base, walk, files, disk);
          return;
        }
        reported := reported + git.since.value;
      }
    }
    changed, kept := FilterReported(base, walk, files, disk, reported);
  }

  // ---------------------------------------------------------------------------------------------
  // What the run presents, said of one file.

  // Git cannot tell: not at all, or not what lies between the manifest's commit and another HEAD.
  predicate HashesAll(git: Git, commit: string) {
    git.status.None? || (commit != "" && git.head != "" && commit != git.head && git.since.None?)
  }

  // Git reports the file as different from HEAD, or HEAD's version as different from the manifest's commit's.
  predicate Reported(git: Git, commit: string, f: string) {
    || (git.status.Some? && f in git.status.value)
    || (commit != "" && git.head != "" && commit != git.head && git.since.Some? && f in git.since.value)
  }

  // The file is looked at, ...
  predicate LookedAt(files: Files, git: Git, commit: string, f: string) {
    HashesAll(git, commit) || Reported(git, commit, f) || (f in files && 0 < files[f].failures <= 2)
  }

  // ... and is gone, has no entry, is due for a retry, or has neither the stat nor the hash of its entry.
  predicate Outdated(files: Files, disk: map<string, nat>, f: string) {
    || f !in disk || f !in files || 0 < files[f].failures <= 2
    || (disk[f] != files[f].stat && disk[f] != files[f].hash)
  }

  // Some file of the walk that is looked at and outdated has this base name.
  ghost predicate SharesBase(base: string -> string, files: Files, disk: map<string, nat>, walk: set<string>,
                             git: Git, commit: string, f: string)
  {
    exists g :: g in walk && LookedAt(files, git, commit, g) && Outdated(files, disk, g) && base(g) == base(f)
  }

  lemma DirtyIff(files: Files, disk: map<string, nat>, walk: set<string>, git: Git, commit: string, f: string)
    ensures f in Dirty(files, disk, walk, Report(git, commit)) <==>
      f in walk && LookedAt(files, git, commit, f) && Outdated(files, disk, f)
    ensures Report(git, commit).None? <==> HashesAll(git, commit)
    ensures Suspect(files, Report(git, commit), f) <==> LookedAt(files, git, commit, f)
  {
  }

  lemma BaseIff(base: string -> string, files: Files, disk: map<string, nat>, walk: set<string>, git: Git,
                commit: string, f: string)
    ensures base(f) in Bases(base, Dirty(files, disk, walk, Report(git, commit))) <==>
      SharesBase(base, files, disk, walk, git, commit, f)
  {
    var dirty := Dirty(files, disk, walk, Report(git, commit));
    if base(f) in Bases(base, dirty) {
      var g :| g in dirty && base(g) == base(f);
      DirtyIff(files, disk, walk, git, commit, g);
    }
    if SharesBase(base, files, disk, walk, git, commit, f) {
      var g :| g in walk && LookedAt(files, git, commit, g) && Outdated(files, disk, g) && base(g) == base(f);
      DirtyIff(files, disk, walk, git, commit, g);
    }
  }

  // A file of the walk is presented if and only if it is looked at and outdated, or it shares its base name
  // with one that is and was not itself looked at on git's word.
  lemma PresentedIff(base: string -> string, files: Files, disk: map<string, nat>, walk: set<string>, git: Git,
                     commit: string, f: string)
    ensures f in Presented(base, files, disk, walk, Report(git, commit)) <==>
      f in walk
      && ((LookedAt(files, git, commit, f) && Outdated(files, disk, f))
          || ((HashesAll(git, commit) || !LookedAt(files, git, commit, f))
              && SharesBase(base, files, disk, walk, git, commit, f)))
  {
    DirtyIff(files, disk, walk, git, commit, f);
    BaseIff(base, files, disk, walk, git, commit, f);
  }

  // And reported as unchanged if and only if no file that is looked at and outdated shares its base name, and
  // it is not looked at, or every file is and it is not outdated.
  lemma UnchangedIff(base: string -> string, files: Files, disk: map<string, nat>, walk: set<string>, git: Git,
                     commit: string, f: string)
    ensures f in Unchanged(base, files, disk, walk, Report(git, commit)) <==>
      f in walk && !SharesBase(base, files, disk, walk, git, commit, f)
      && if HashesAll(git, commit) then !Outdated(files, disk, f) else !LookedAt(files, git, commit, f)
  {
    DirtyIff(files, disk, walk, git, commit, f);
    BaseIff(base, files, disk, walk, git, commit, f);
  }

  // `out` is what stands in the walk at the positions `at`: those of the elements of s, in order.
  ghost predicate Picks(walk: seq<string>, s: set<string>, at: seq<nat>, out: seq<string>) {
    && |at| == |out| && (forall m, n :: 0 <= m < n < |at| ==> at[m] < at[n])
    && (forall m :: 0 <= m < |at| ==> at[m] < |walk| && walk[at[m]] == out[m] && out[m] in s)
    && (forall i: nat :: i < |walk| && walk[i] in s ==> i in at)
  }

  lemma PicksSnoc(init: seq<string>, f: string, s: set<string>, at: seq<nat>, out: seq<string>)
    requires Picks(init, s, at, out)
    ensures f !in s ==> Picks(init + [f], s, at, out)
    ensures f in s ==> Picks(init + [f], s, at + [|init|], out + [f])
  {
    var walk, n := init + [f], |init|;
    assert walk[n] == f && forall i: nat :: i < n ==> walk[i] == init[i];
    if f in s {
      var at' := at + [n];
      assert at'[|at|] == n;
      forall i: nat | i < |walk| && walk[i] in s ensures i in at' {
        if i < n {
          assert init[i] in s && i in at;
        }
      }
    }
  }

  // A selection keeps the order of the walk, and every occurrence.
  lemma {:induction false} SelectInOrder(walk: seq<string>, s: set<string>) returns (at: seq<nat>)
    ensures Picks(walk, s, at, Select(walk, s))
  {
    if walk == [] {
      at := [];
    } else {
      var n := |walk| - 1;
      var init, f := walk[..n], walk[n];
      assert walk == init + [f];
      at := SelectInOrder(init, s);
      PicksSnoc(init, f, s, at, Select(init, s));
      at := if f in s then at + [n] else at;
      assert Select(init, s) + [] == Select(init, s);
    }
  }

  // ---------------------------------------------------------------------------------------------
  // What the two paths miss.

  // The two results make up the walk if and only if git reports no file that the hash finds unchanged;
  // such a file is in neither.
  lemma PartitionIff(base: string -> string, files: Files, disk: map<string, nat>, walk: set<string>,
                     report: Option<set<string>>)
    ensures Presented(base, files, disk, walk, report) + Unchanged(base, files, disk, walk, report) == walk <==>
      report.None? || forall f :: f in walk && Suspect(files, report, f) ==> Differs(files, disk, f)
  {
    var presented, kept := Presented(base, files, disk, walk, report), Unchanged(base, files, disk, walk, report);
    if report.Some? {
      forall f | f in walk && Suspect(files, report, f)
        ensures f in presented + kept <==> Differs(files, disk, f)
      {
        assert f in presented <==> f in Dirty(files, disk, walk, report);
      }
      if presented + kept == walk {
        forall f | f in walk && Suspect(files, report, f) ensures Differs(files, disk, f) {
          assert f in presented + kept;
        }
      }
    }
  }

  type Tree = map<string, nat>

  // What git says at best of a working tree, its HEAD and the commit the manifest names.
  function GitOf(head: string, headTree: Tree, commitTree: Tree, disk: map<string, nat>, walk: set<string>): Git {
    Git(Some(set f | f in walk && Lookup(headTree, f) != Lookup(disk, f)), head,
        Some(set f | f in commitTree.Keys + headTree.Keys && Lookup(commitTree, f) != Lookup(headTree, f)))
  }

  // Even then git is silent on a file as soon as HEAD, and the manifest's commit if it is another one,
  // have the content on disk: whatever the manifest says of the file.
  lemma SilentIff(head: string, headTree: Tree, commit: string, commitTree: Tree, disk: map<string, nat>,
                  walk: set<string>, f: string)
    requires f in walk && f in disk && head != ""
    ensures var report := Report(GitOf(head, headTree, commitTree, disk, walk), commit);
      && report.Some?
      && (f !in report.value <==>
           && Lookup(headTree, f) == Some(disk[f])
           && (commit != "" && commit != head ==> Lookup(commitTree, f) == Some(disk[f])))
  {
    var git := GitOf(head, headTree, commitTree, disk, walk);
    assert f in git.status.value <==> Lookup(headTree, f) != Some(disk[f]);
    if f in commitTree.Keys + headTree.Keys {
      assert f in git.since.value <==> Lookup(commitTree, f) != Lookup(headTree, f);
    }
  }
}
