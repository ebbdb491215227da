// The class fold followed by the file fold.
module Folds {
  import opened Graph
  import opened Records
  import opened Edges
  import opened EdgeLaws
  import opened ClassKinds
  import opened ClassFold
  import opened FileFold
  import ClassFoldLaws
  import FileFoldLaws

  // What the class fold leaves is still stamped, so the file fold may follow it.
  lemma ClassFoldKeepsStamps(kinds: Kinds, rs: seq<Record>)
    requires Identified(rs) && FilesNamed(rs)
    ensures Identified(FoldedRecords(kinds, rs)) && FilesNamed(FoldedRecords(kinds, rs))
  {
    var out := FoldedRecords(kinds, rs);
    forall r | r in out ensures exists q :: q in rs && SameIdentity(r, q) {
      var q := Source(kinds, rs, r);
    }
    forall r, s | r in out && s in out ensures Agree(r, s) {
      var q :| q in rs && SameIdentity(r, q);
      var t :| t in rs && SameIdentity(s, t);
      assert Agree(q, t);
    }
  }

  // The input record that an output record was.
  lemma Source(kinds: Kinds, rs: seq<Record>, r: Record) returns (q: Record)
    requires r in FoldedRecords(kinds, rs)
    ensures q in rs && SameIdentity(r, q)
  {
    var all := RepointAll(ClassFold.Rho(kinds, rs), Progresses(kinds, rs, |rs|));
    KeptMembers(all, ClassFold.FoldedSet(kinds, rs));
    var k :| 0 <= k < |all| && all[k] == r;
    q := rs[k];
    assert SameIdentity(Progress(kinds, rs, |rs|, k), q);
  }

  // An ID that named an input record names a record after both folds, once renamed twice.
  lemma BothFoldsResolve(cv: Naming, rs: seq<Record>, k: nat)
    requires Identified(rs) && FilesNamed(rs) && k < |rs|
    ensures var mid := FoldedRecords(cv.kinds, rs);
      Renamed(FileFold.Rho(cv, mid, |mid|), Renamed(ClassFold.Rho(cv.kinds, rs), rs[k].id)) in
        IdsOf(FoldedFiles(cv, mid))
  {
    var mid := FoldedRecords(cv.kinds, rs);
    ClassFoldKeepsStamps(cv.kinds, rs);
    ClassFoldLaws.EveryIdResolves(cv.kinds, rs, k);
    ResolvesAgain(cv, mid, Renamed(ClassFold.Rho(cv.kinds, rs), rs[k].id));
  }

  lemma ResolvesAgain(cv: Naming, mid: seq<Record>, x: Id)
    requires Identified(mid) && FilesNamed(mid) && x in IdsOf(mid)
    ensures Renamed(FileFold.Rho(cv, mid, |mid|), x) in IdsOf(FoldedFiles(cv, mid))
  {
    var r :| r in mid && r.id == x;
    var j :| 0 <= j < |mid| && mid[j] == r;
    FileFoldLaws.EveryIdResolves(cv, mid, j);
  }
}
