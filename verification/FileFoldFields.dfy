// What the file fold does to each record, said of the records' own fields.
module FileFoldFields {
  import opened Wrappers
  import opened Graph
  import opened Records
  import opened Edges
  import opened EdgeLaws
  import opened ClassKinds
  import opened FileFold
  import FileFoldLaws

  // ---------------------------------------------------------------------------------------------
  // Which declarations go.

  predicate FileRecord(r: Record) {
    r.kind == "SCOPE.Component" && r.subtype == "file" && r.id != ""
  }

  // The file record of f is the last one there is.
  ghost predicate RecordOf(rs: seq<Record>, f: string, w: nat) {
    && w < |rs| && FileRecord(rs[w]) && rs[w].file == f
    && forall k: nat :: w < k < |rs| && FileRecord(rs[k]) ==> rs[k].file != f
  }

  // A class-like component other than a file record.
  predicate ClassComponent(cv: Naming, r: Record) {
    && r.kind == "SCOPE.Component" && r.subtype != "file"
    && (cv.kinds.classLike(r.subtype) || ("role" in r.props && r.props["role"] == "class"))
  }

  // Record k is the class its file, with record w, is named after and exists to export.
  ghost predicate Declares(cv: Naming, rs: seq<Record>, w: nat, k: nat) {
    && k < |rs| && RecordOf(rs, rs[k].file, w) && ClassComponent(cv, rs[k])
    && rs[k].name != "" && rs[k].id != "" && rs[k].id != rs[w].id
    && cv.lower(rs[k].name) == cv.stem(rs[k].file)
    && cv.isDeclaration(rs[k].file, rs[k].name, cv.exported(rs[w].props))
  }

  lemma {:induction false} OwnerIff(rs: seq<Record>, f: string, w: nat)
    ensures Owner(rs, f) == w <==> RecordOf(rs, f, w)
    ensures Owner(rs, f) < 0 <==> forall v: nat :: !RecordOf(rs, f, v)
  {
    OwnerIsLast(rs, f);
    var o := Owner(rs, f);
    if o >= 0 {
      assert RecordOf(rs, f, o);
    }
  }

  lemma {:induction false} OwnerIsLast(rs: seq<Record>, f: string)
    ensures Owner(rs, f) >= 0 ==> RecordOf(rs, f, Owner(rs, f))
    ensures Owner(rs, f) < 0 ==> forall k: nat :: k < |rs| && FileRecord(rs[k]) ==> rs[k].file != f
  {
    if rs != [] {
      var n := |rs| - 1;
      assert forall k: nat :: k < n ==> rs[..n][k] == rs[k];
      OwnerIsLast(rs[..n], f);
    }
  }

  lemma FoldsIff(cv: Naming, rs: seq<Record>, k: nat)
    ensures Folds(cv, rs, k) ==> Declares(cv, rs, Owner(rs, rs[k].file), k)
    ensures forall w: nat :: Declares(cv, rs, w, k) ==> Folds(cv, rs, k) && Owner(rs, rs[k].file) == w
  {
    if k < |rs| {
      forall w: nat ensures Owner(rs, rs[k].file) == w <==> RecordOf(rs, rs[k].file, w) {
        OwnerIff(rs, rs[k].file, w);
      }
    }
  }

  // The fold leaves all records but the declarations, in order, each edge sent where the renaming says.
  lemma FoldLeaves(cv: Naming, rs: seq<Record>) returns (at: seq<nat>)
    ensures Compacted(RepointAll(Rho(cv, rs, |rs|), Settled(cv, rs)), FoldedSet(cv, rs, |rs|), at, FoldedFiles(cv, rs))
    ensures forall k: nat :: k in FoldedSet(cv, rs, |rs|) <==> exists w: nat :: Declares(cv, rs, w, k)
  {
    at := KeptInOrder(RepointAll(Rho(cv, rs, |rs|), Settled(cv, rs)), FoldedSet(cv, rs, |rs|));
    forall k: nat ensures k in FoldedSet(cv, rs, |rs|) <==> exists w: nat :: Declares(cv, rs, w, k) {
      FoldsIff(cv, rs, k);
    }
  }

  // The ID of a declaration is sent to its file record's; no other ID is sent anywhere.
  lemma RenamedIff(cv: Naming, rs: seq<Record>, x: Id)
    requires Identified(rs)
    ensures x in Rho(cv, rs, |rs|) <==> exists k: nat, w: nat :: Declares(cv, rs, w, k) && rs[k].id == x
    ensures forall k: nat, w: nat :: Declares(cv, rs, w, k) && rs[k].id == x ==>
      x in Rho(cv, rs, |rs|) && Rho(cv, rs, |rs|)[x] == rs[w].id
  {
    if x in Rho(cv, rs, |rs|) {
      var k := RhoSource(cv, rs, |rs|, x);
      FoldsIff(cv, rs, k);
    }
    forall k: nat, w: nat | Declares(cv, rs, w, k) && rs[k].id == x
      ensures x in Rho(cv, rs, |rs|) && Rho(cv, rs, |rs|)[x] == rs[w].id
    {
      FoldsIff(cv, rs, k);
      RhoAt(cv, rs, k);
    }
  }

  // ---------------------------------------------------------------------------------------------
  // What the file record takes over.

  ghost predicate Says<T(!new)>(cv: Naming, rs: seq<Record>, n: nat, w: nat, get: Record -> T, empty: T, k: nat) {
    k < n && Declares(cv, rs, w, k) && get(rs[k]) != empty
  }

  // Is declaration k the first of the first n records to say something here?
  ghost predicate SaysFirst<T(!new)>(cv: Naming, rs: seq<Record>, n: nat, w: nat, get: Record -> T, empty: T, k: nat) {
    Says(cv, rs, n, w, get, empty, k) && forall i: nat :: i < k ==> !Says(cv, rs, n, w, get, empty, i)
  }

  // v is the file record's own value, else the first one a declaration has, else none.
  ghost predicate FirstSaid<T(!new)>(cv: Naming, rs: seq<Record>, n: nat, w: nat, get: Record -> T, empty: T, v: T)
    requires w < |rs|
  {
    if get(rs[w]) != empty then v == get(rs[w])
    else
      && (v == empty <==> forall k: nat :: !Says(cv, rs, n, w, get, empty, k))
      && forall k: nat :: SaysFirst(cv, rs, n, w, get, empty, k) ==> v == get(rs[k])
  }

  // Adopting a declaration gives the record a value here exactly if it has none.
  ghost predicate Fills<T(!new)>(cv: Naming, get: Record -> T, empty: T) {
    forall sv, r :: get(Adopt(cv, sv, r)) == if get(sv) == empty then get(r) else get(sv)
  }

  lemma SaidNext<T(!new)>(cv: Naming, rs: seq<Record>, n: nat, w: nat, get: Record -> T, empty: T, v: T, v': T, n': nat)
    requires w < |rs| && n < |rs| && n' == n + 1 && FirstSaid(cv, rs, n, w, get, empty, v)
    requires v' == if Declares(cv, rs, w, n) && v == empty then get(rs[n]) else v
    ensures FirstSaid(cv, rs, n', w, get, empty, v')
  {
    assert forall k: nat :: Says(cv, rs, n', w, get, empty, k) <==>
      Says(cv, rs, n, w, get, empty, k) || (k == n && Declares(cv, rs, w, n) && get(rs[n]) != empty);
    forall k: nat | SaysFirst(cv, rs, n', w, get, empty, k)
      ensures SaysFirst(cv, rs, n, w, get, empty, k) || (k == n && v == empty) || get(rs[w]) != empty
    {
    }
  }

  lemma {:induction false} GatheredSaid<T(!new)>(cv: Naming, rs: seq<Record>, n: nat, w: nat, get: Record -> T,
                                                 empty: T)
    requires n <= |rs| && w < |rs| && Fills(cv, get, empty)
    ensures FirstSaid(cv, rs, n, w, get, empty, get(Gathered(cv, rs, n, w)))
  {
    if n > 0 {
      var m := n - 1;
      GatheredSaid(cv, rs, m, w, get, empty);
      FoldsIff(cv, rs, m);
      SaidNext(cv, rs, m, w, get, empty, get(Gathered(cv, rs, m, w)), get(Gathered(cv, rs, n, w)), n);
    }
  }

  // ---------------------------------------------------------------------------------------------
  // Each field of a file record.

  lemma {:induction false} OwnKept(cv: Naming, rs: seq<Record>, n: nat, w: nat, key: string)
    requires n <= |rs| && w < |rs|
    ensures var r, own := Gathered(cv, rs, n, w), rs[w];
      && r == own.(props := r.props, startLine := r.startLine, endLine := r.endLine, qualifiedName := r.qualifiedName,
                   signature := r.signature, rels := r.rels)
      && (!cv.copied(key) ==> TheProp(key)(r) == TheProp(key)(own))
  {
    if n > 0 {
      OwnKept(cv, rs, n - 1, w, key);
    }
  }

  // A surviving declaration with a line that is named after the file of w.
  ghost predicate DonorFor(cv: Naming, rs: seq<Record>, w: nat, d: nat) {
    && w < |rs| && d < |rs| && d != w && rs[d].file == rs[w].file && rs[d].startLine > 0
    && rs[d].name != "" && cv.lower(rs[d].name) == cv.stem(rs[w].file)
    && (cv.kinds.priority(rs[d].kind) > 0 || ClassComponent(cv, rs[d]))
    && forall v: nat :: !Declares(cv, rs, v, d)
  }

  // The donor that starts first, of those the one that reaches furthest, of those the one of the smallest ID.
  ghost predicate Lends(cv: Naming, rs: seq<Record>, w: nat, d: nat) {
    && DonorFor(cv, rs, w, d)
    && forall k: nat :: DonorFor(cv, rs, w, k) ==>
         && rs[d].startLine <= rs[k].startLine
         && (rs[d].startLine == rs[k].startLine ==> rs[d].endLine >= rs[k].endLine)
         && (rs[d].startLine == rs[k].startLine && rs[d].endLine == rs[k].endLine ==>
              rs[d].id == rs[k].id || Before(rs[d].id, rs[k].id))
  }

  lemma DonorIff(cv: Naming, rs: seq<Record>, w: nat, k: nat)
    requires w < |rs|
    ensures IsDonor(cv, rs, w, k) <==> DonorFor(cv, rs, w, k)
  {
    FoldsIff(cv, rs, k);
  }

  lemma DonorLends(cv: Naming, rs: seq<Record>, w: nat)
    requires w < |rs|
    ensures var d := Donor(cv, rs, w, |rs|);
      if d >= 0 then Lends(cv, rs, w, d) else forall k: nat :: !DonorFor(cv, rs, w, k)
  {
    var d := Donor(cv, rs, w, |rs|);
    forall k: nat | DonorFor(cv, rs, w, k) ensures d >= 0 && !Sooner(rs[k], rs[d]) {
      DonorIff(cv, rs, w, k);
      FileFoldLaws.DonorIsBest(cv, rs, w, |rs|, k);
    }
    if d >= 0 {
      DonorIff(cv, rs, w, d);
      forall k: nat | DonorFor(cv, rs, w, k)
        ensures rs[d].id == rs[k].id || Before(rs[d].id, rs[k].id) || Before(rs[k].id, rs[d].id)
      {
        BeforeTotal(rs[d].id, rs[k].id);
      }
    }
  }

  // Start and end of a file record: what it and its declarations say, and if none has a line the donor's span.
  ghost predicate Spans(cv: Naming, rs: seq<Record>, w: nat, r: Record, start: nat, end: nat)
    requires w < |rs|
  {
    && FirstSaid(cv, rs, |rs|, w, TheStart(), 0, start) && FirstSaid(cv, rs, |rs|, w, TheEnd(), 0, end)
    && if start > 0 || forall d: nat :: !Lends(cv, rs, w, d) then r.startLine == start && r.endLine == end
       else exists d: nat :: Lends(cv, rs, w, d) && r.startLine == rs[d].startLine
                             && r.endLine == if end > 0 then end else rs[d].endLine
  }

  lemma PlacedSpans(cv: Naming, rs: seq<Record>, w: nat)
    requires w < |rs| && RecordOf(rs, rs[w].file, w)
    ensures var g := Gathered(cv, rs, |rs|, w); Spans(cv, rs, w, Placed(cv, rs, w), g.startLine, g.endLine)
  {
    OwnerIff(rs, rs[w].file, w);
    GatheredSaid(cv, rs, |rs|, w, TheStart(), 0);
    GatheredSaid(cv, rs, |rs|, w, TheEnd(), 0);
    DonorLends(cv, rs, w);
  }

  // A file record once the fold is over. It keeps what names it; every property, the qualified name and the
  // signature are its own, or else those of the first declaration that has them under a copied key; so is its
  // span, or else a donor's.
  lemma FileRecordTakes(cv: Naming, rs: seq<Record>, w: nat, key: string) returns (start: nat, end: nat)
    requires w < |rs| && RecordOf(rs, rs[w].file, w)
    ensures var r, own := Placed(cv, rs, w), rs[w];
      && r == own.(props := r.props, startLine := r.startLine, endLine := r.endLine, qualifiedName := r.qualifiedName,
                   signature := r.signature, rels := r.rels)
      && (if cv.copied(key) then FirstSaid(cv, rs, |rs|, w, TheProp(key), None, TheProp(key)(r))
          else TheProp(key)(r) == TheProp(key)(own))
      && FirstSaid(cv, rs, |rs|, w, TheQualifiedName(), "", r.qualifiedName)
      && FirstSaid(cv, rs, |rs|, w, TheSignature(), "", r.signature)
      && Spans(cv, rs, w, r, start, end)
  {
    var g := Gathered(cv, rs, |rs|, w);
    start, end := g.startLine, g.endLine;
    OwnerIff(rs, rs[w].file, w);
    OwnKept(cv, rs, |rs|, w, key);
    PlacedSpans(cv, rs, w);
    GatheredSaid(cv, rs, |rs|, w, TheQualifiedName(), "");
    GatheredSaid(cv, rs, |rs|, w, TheSignature(), "");
    if cv.copied(key) {
      GatheredSaid(cv, rs, |rs|, w, TheProp(key), None);
    }
  }

  // Every other record that stays, stays as it is.
  lemma OthersStay(cv: Naming, rs: seq<Record>, k: nat)
    requires k < |rs| && !RecordOf(rs, rs[k].file, k) && forall w: nat :: !Declares(cv, rs, w, k)
    ensures Placed(cv, rs, k) == rs[k]
  {
    OwnerIff(rs, rs[k].file, k);
    FoldsIff(cv, rs, k);
  }
}
