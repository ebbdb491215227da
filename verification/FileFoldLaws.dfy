// What the file fold guarantees: no edge lost or invented, every name still resolves, nothing the folded
// declaration said is lost, and the span a file record borrows does not depend on any order.
module FileFoldLaws {
  import opened Graph
  import opened Records
  import opened Edges
  import opened EdgeLaws
  import opened ClassKinds
  import opened FileFold
  import FileNames

  // ---------------------------------------------------------------------------------------------
  // Conservation.

  // The renaming identifies a folded declaration with its file record.
  predicate LeadsHome(cv: Naming, rs: seq<Record>, rho: Renaming, k: nat) {
    Folds(cv, rs, k) ==>
      var home := rs[Owner(rs, rs[k].file)].id; home != "" && Renamed(rho, rs[k].id) == Renamed(rho, home)
  }

  lemma RhoLeadsHome(cv: Naming, rs: seq<Record>, k: nat)
    requires Identified(rs) && FilesNamed(rs)
    ensures LeadsHome(cv, rs, Rho(cv, rs, |rs|), k)
  {
    if Folds(cv, rs, k) {
      RhoAt(cv, rs, k);
      OwnerStays(cv, rs, Owner(rs, rs[k].file));
    }
  }

  lemma {:induction false} PartialsKeepLedger(cv: Naming, rs: seq<Record>, rho: Renaming, n: nat)
    requires n <= |rs|
    requires forall k: nat :: k < |rs| ==> LeadsHome(cv, rs, rho, k)
    ensures Ledger(rho, Partials(cv, rs, n)) == Ledger(rho, rs)
    decreases n
  {
    if n == 0 {
      PartialsStart(cv, rs);
    } else {
      var m: nat := n - 1;
      PartialsKeepLedger(cv, rs, rho, m);
      StepKeepsLedger(cv, rs, rho, m, n);
    }
  }

  lemma StepKeepsLedger(cv: Naming, rs: seq<Record>, rho: Renaming, n: nat, m: nat)
    requires n < |rs| && m == n + 1
    requires LeadsHome(cv, rs, rho, n)
    ensures Ledger(rho, Partials(cv, rs, m)) == Ledger(rho, Partials(cv, rs, n))
  {
    if Folds(cv, rs, n) {
      FoldKeepsLedger(cv, rs, rho, n, Partials(cv, rs, n));
    } else {
      PartialsSkip(cv, rs, n);
    }
  }

  lemma FoldKeepsLedger(cv: Naming, rs: seq<Record>, rho: Renaming, k: nat, cur: seq<Record>)
    requires LeadsHome(cv, rs, rho, k) && Folds(cv, rs, k) && cur == Partials(cv, rs, k)
    ensures Ledger(rho, Partials(cv, rs, k + 1)) == Ledger(rho, cur)
  {
    var w := Owner(rs, rs[k].file);
    PartialsFold(cv, rs, k, w, cur);
    assert cur[w] == Partial(cv, rs, k, w);
    MoveKeepsLedger(rho, cur, k, w, Adopt(cv, cur[w], rs[k]));
  }

  lemma PlacedOwns(cv: Naming, rs: seq<Record>, rho: Renaming)
    ensures Ledger(rho, Settled(cv, rs)) == Ledger(rho, Partials(cv, rs, |rs|))
  {
    var a, b := Settled(cv, rs), Partials(cv, rs, |rs|);
    forall k: nat | k < |rs| ensures Owned(rho, a[k]) == Owned(rho, b[k]) {
      assert a[k] == Placed(cv, rs, k) && b[k] == Partial(cv, rs, |rs|, k);
    }
    assert Parts(rho, a) == Parts(rho, b);
  }

  lemma RepointedEmpty(cv: Naming, rs: seq<Record>, rho: Renaming)
    ensures forall k :: 0 <= k < |rs| && k in FoldedSet(cv, rs, |rs|) ==> RepointAll(rho, Settled(cv, rs))[k].rels == []
  {
    DroppedAreEmpty(cv, rs);
  }

  // Binding empty sources and applying the renaming, input and output hold the same edges, as multisets.
  lemma EdgesConserved(cv: Naming, rs: seq<Record>, pass2: seq<Edge>)
    requires Identified(rs) && FilesNamed(rs)
    ensures Balance(Rho(cv, rs, |rs|), FoldedFiles(cv, rs), FoldedEdges(cv, rs, pass2)) ==
      Balance(Rho(cv, rs, |rs|), rs, pass2)
  {
    var rho := Rho(cv, rs, |rs|);
    RhoFlat(cv, rs);
    forall k: nat | k < |rs| ensures LeadsHome(cv, rs, rho, k) {
      RhoLeadsHome(cv, rs, k);
    }
    PartialsKeepLedger(cv, rs, rho, |rs|);
    PlacedOwns(cv, rs, rho);
    RepointKeepsLedger(rho, Settled(cv, rs));
    RepointedEmpty(cv, rs, rho);
    KeptLedger(rho, RepointAll(rho, Settled(cv, rs)), FoldedSet(cv, rs, |rs|));
    RewriteSettles(rho, "x", pass2);
  }

  // No edge of the output names a folded declaration.
  lemma NoFoldedEndpoint(cv: Naming, rs: seq<Record>, pass2: seq<Edge>)
    requires Identified(rs) && FilesNamed(rs)
    ensures Clean(Rho(cv, rs, |rs|), FoldedFiles(cv, rs), FoldedEdges(cv, rs, pass2))
  {
    var rho := Rho(cv, rs, |rs|);
    RhoFlat(cv, rs);
    CleanEdges(rho, Settled(cv, rs), pass2);
    KeptMembers(RepointAll(rho, Settled(cv, rs)), FoldedSet(cv, rs, |rs|));
  }

  // Record k is not folded, has the ID of a declaration that is, and owns an edge through an empty source.
  predicate Worn(cv: Naming, rs: seq<Record>, k: nat) {
    && k < |rs| && !Folds(cv, rs, k) && (exists e :: e in rs[k].rels && e.from == "")
    && exists j: nat :: j < |rs| && Folds(cv, rs, j) && rs[j].id == rs[k].id
  }

  lemma FoldedIdIff(cv: Naming, rs: seq<Record>, x: Id)
    ensures x in Rho(cv, rs, |rs|) <==> exists j: nat :: j < |rs| && Folds(cv, rs, j) && rs[j].id == x
  {
    if x in Rho(cv, rs, |rs|) {
      var j := RhoSource(cv, rs, |rs|, x);
    }
    if j: nat :| j < |rs| && Folds(cv, rs, j) && rs[j].id == x {
      RhoHas(cv, rs, |rs|, j);
    }
  }

  // A record that wears a folded ID is no file record, so it takes over nothing.
  lemma WearerUnchanged(cv: Naming, rs: seq<Record>, k: nat)
    requires Identified(rs) && FilesNamed(rs) && k < |rs| && !Folds(cv, rs, k) && rs[k].id in Rho(cv, rs, |rs|)
    ensures Placed(cv, rs, k) == rs[k]
  {
    if Owner(rs, rs[k].file) == k {
      OwnerStays(cv, rs, k);
    }
  }

  lemma WornIff(cv: Naming, rs: seq<Record>, k: nat)
    requires Identified(rs) && FilesNamed(rs) && k < |rs| && !Folds(cv, rs, k)
    ensures WearsRenamed(Rho(cv, rs, |rs|), RewriteRecord(Rho(cv, rs, |rs|), Placed(cv, rs, k))) <==> Worn(cv, rs, k)
  {
    var rho := Rho(cv, rs, |rs|);
    RhoFlat(cv, rs);
    FoldedIdIff(cv, rs, rs[k].id);
    if rs[k].id in rho {
      WearerUnchanged(cv, rs, k);
      EmptySources(rho, rs[k].rels);
    }
  }

  // Read as assembly reads them, the output's edges are the renamed input edges if and only if no input
  // record is worn.
  lemma ExactUnlessWorn(cv: Naming, rs: seq<Record>, pass2: seq<Edge>)
    requires Identified(rs) && FilesNamed(rs)
    ensures Plain(FoldedFiles(cv, rs), FoldedEdges(cv, rs, pass2)) == Balance(Rho(cv, rs, |rs|), rs, pass2) <==>
      forall k: nat :: !Worn(cv, rs, k)
  {
    var rho, out := Rho(cv, rs, |rs|), FoldedFiles(cv, rs);
    var all := RepointAll(rho, Settled(cv, rs));
    RhoFlat(cv, rs);
    EdgesConserved(cv, rs, pass2);
    NoFoldedEndpoint(cv, rs, pass2);
    KeptMembers(all, FoldedSet(cv, rs, |rs|));
    if k: nat :| Worn(cv, rs, k) {
      WornIff(cv, rs, k);
      assert all[k] in out;
      WornIsNotPlain(rho, out, FoldedEdges(cv, rs, pass2), all[k]);
    } else {
      forall r | r in out ensures !WearsRenamed(rho, r) {
        var k :| 0 <= k < |all| && k !in FoldedSet(cv, rs, |rs|) && all[k] == r;
        WornIff(cv, rs, k);
      }
      UnwornIsPlain(rho, out, FoldedEdges(cv, rs, pass2));
    }
  }

  // Such an input: a file record, the declaration the file is for, and a placeholder of that declaration's
  // kind, name and file which owns an edge.
  predicate Wears(cv: Naming, rs: seq<Record>) {
    && |rs| == 3 && IsFile(rs[0]) && !IsFile(rs[1]) && !IsFile(rs[2]) && rs[0].id != rs[1].id
    && rs[0].file == rs[1].file && rs[1].id == rs[2].id != ""
    && IsClass(cv, rs[1]) && !IsClass(cv, rs[2]) && rs[1].name != ""
    && cv.lower(rs[1].name) == cv.stem(rs[1].file)
    && cv.isDeclaration(rs[1].file, rs[1].name, cv.exported(rs[0].props))
    && exists e :: e in rs[2].rels && e.from == ""
  }

  lemma WearerIsWorn(cv: Naming, rs: seq<Record>)
    requires Wears(cv, rs)
    ensures Worn(cv, rs, 2)
  {
    assert rs[..2][..1][0] == rs[0] && Owner(rs[..2][..1], rs[1].file) == 0;
    assert Owner(rs[..2], rs[1].file) == 0;
    assert Owner(rs, rs[1].file) == 0;
    assert Folds(cv, rs, 1);
  }

  // With the program's conventions: any file whose extension names a component format, the component it is
  // named after, and a placeholder of that component.
  lemma PlaceholderIsWorn(lower: string -> string, repo: string, dir: string, name: string, ext: string,
                          blank: Record, e: Edge) returns (rs: seq<Record>)
    requires FileNames.IsPath(dir, name, ext) && name != "" && ext != "" && FileNames.ComponentExtension(lower(ext))
    requires NulFree(repo) && NulFree(name) && NulFree(dir + name + ext)
    requires e.from == "" && blank.props == map[]
    ensures var cv := FileNames.Conventions(lower);
      && |rs| == 3 && Identified(rs) && FilesNamed(rs) && Worn(cv, rs, 2)
      && (forall r :: r in rs ==> r.file == dir + name + ext && r.id == FinalID(repo, r))
      && Plain(FoldedFiles(cv, rs), FoldedEdges(cv, rs, [])) != Balance(Rho(cv, rs, |rs|), rs, [])
  {
    var path := dir + name + ext;
    FileIsForIt(lower, dir, name, ext, path);
    assert NulFree(COMPONENT);
    rs := PlaceholderInput(lower, repo, path, name, blank, e);
    WearerIsWorn(FileNames.Conventions(lower), rs);
    ExactUnlessWorn(FileNames.Conventions(lower), rs, []);
  }

  lemma FileIsForIt(lower: string -> string, dir: string, name: string, ext: string, path: string)
    requires FileNames.IsPath(dir, name, ext) && ext != "" && FileNames.ComponentExtension(lower(ext))
    requires path == dir + name + ext
    ensures var cv := FileNames.Conventions(lower);
      cv.stem(path) == lower(name) && forall binding :: cv.isDeclaration(path, name, binding)
    ensures name != path
  {
    FileNames.PathParts(dir, name, ext);
    FileNames.StemOf(lower, path, name, ext);
  }

  lemma PlaceholderInput(lower: string -> string, repo: string, path: string, name: string, blank: Record, e: Edge)
    returns (rs: seq<Record>)
    requires var cv := FileNames.Conventions(lower);
      cv.stem(path) == lower(name) && forall binding :: cv.isDeclaration(path, name, binding)
    requires name != "" && path != "" && name != path && e.from == "" && blank.props == map[]
    requires NulFree(repo) && NulFree(COMPONENT) && NulFree(name) && NulFree(path)
    ensures |rs| == 3 && Identified(rs) && FilesNamed(rs) && Wears(FileNames.Conventions(lower), rs)
    ensures forall r :: r in rs ==> r.file == path && r.id == FinalID(repo, r)
  {
    var file := blank.(id := EntityID(repo, COMPONENT, path, path), kind := COMPONENT, name := path, file := path,
                       subtype := "file", rels := []);
    var declaration := file.(id := EntityID(repo, COMPONENT, name, path), name := name, subtype := "class");
    var placeholder := declaration.(subtype := "placeholder", rels := [e]);
    rs := [file, declaration, placeholder];
    OtherName(repo, COMPONENT, path, name, path);
    assert e in placeholder.rels;
    forall r | r in rs ensures r in {file, declaration, placeholder} {
    }
  }

  // ---------------------------------------------------------------------------------------------
  // Closure.

  lemma RemainingId(cv: Naming, rs: seq<Record>, k: nat)
    requires k < |rs| && !Folds(cv, rs, k)
    ensures rs[k].id in IdsOf(FoldedFiles(cv, rs))
  {
    var all := RepointAll(Rho(cv, rs, |rs|), Settled(cv, rs));
    KeptMembers(all, FoldedSet(cv, rs, |rs|));
    assert Settled(cv, rs)[k] == Placed(cv, rs, k) && all[k].id == rs[k].id;
    assert all[k] in FoldedFiles(cv, rs);
  }

  // Every endpoint that named an input record names, after the renaming, an output record.
  lemma EveryIdResolves(cv: Naming, rs: seq<Record>, k: nat)
    requires Identified(rs) && FilesNamed(rs) && k < |rs|
    ensures Renamed(Rho(cv, rs, |rs|), rs[k].id) in IdsOf(FoldedFiles(cv, rs))
  {
    if rs[k].id in Rho(cv, rs, |rs|) {
      var j := RhoSource(cv, rs, |rs|, rs[k].id);
      RemainingId(cv, rs, Owner(rs, rs[j].file));
    } else {
      if Folds(cv, rs, k) {
        RhoHas(cv, rs, |rs|, k);
        assert false;
      }
      RemainingId(cv, rs, k);
    }
  }

  // ---------------------------------------------------------------------------------------------
  // What the file record takes over.

  // Everything the declaration said beyond its own description, the file record has an answer for.
  ghost predicate Speaks(cv: Naming, home: Record, r: Record) {
    && (forall key :: key in r.props && cv.copied(key) ==> key in home.props)
    && (r.signature != "" ==> home.signature != "") && (r.qualifiedName != "" ==> home.qualifiedName != "")
    && (r.startLine > 0 ==> home.startLine > 0) && (r.endLine > 0 ==> home.endLine > 0)
  }

  // The file record keeps what it had.
  ghost predicate Retains(sv: Record, home: Record) {
    && (forall key :: key in sv.props ==> key in home.props && home.props[key] == sv.props[key])
    && (sv.signature != "" ==> home.signature == sv.signature)
    && (sv.qualifiedName != "" ==> home.qualifiedName == sv.qualifiedName)
    && (sv.startLine > 0 ==> home.startLine == sv.startLine) && (sv.endLine > 0 ==> home.endLine == sv.endLine)
  }

  lemma AdoptRetains(cv: Naming, sv0: Record, sv: Record, r: Record)
    requires Retains(sv0, sv)
    ensures Retains(sv0, Adopt(cv, sv, r))
  {
  }

  lemma AdoptSpeaks(cv: Naming, sv: Record, r: Record, q: Record)
    requires q == r || Speaks(cv, sv, q)
    ensures Speaks(cv, Adopt(cv, sv, r), q)
  {
  }

  lemma {:induction false} GatheredRetains(cv: Naming, rs: seq<Record>, n: nat, w: nat)
    requires n <= |rs| && w < |rs|
    ensures Retains(rs[w], Gathered(cv, rs, n, w))
  {
    if n > 0 {
      GatheredRetains(cv, rs, n - 1, w);
      AdoptRetains(cv, rs[w], Gathered(cv, rs, n - 1, w), rs[n - 1]);
    }
  }

  lemma {:induction false} GatheredSpeaks(cv: Naming, rs: seq<Record>, n: nat, w: nat, k: nat)
    requires k < n <= |rs| && w < |rs| && Folds(cv, rs, k) && Owner(rs, rs[k].file) == w
    ensures Speaks(cv, Gathered(cv, rs, n, w), rs[k])
  {
    if k < n - 1 {
      GatheredSpeaks(cv, rs, n - 1, w, k);
    }
    AdoptSpeaks(cv, Gathered(cv, rs, n - 1, w), rs[n - 1], rs[k]);
  }

  lemma DonatedSpeaks(cv: Naming, sv0: Record, sv: Record, d: Record)
    requires sv.startLine == 0 && d.startLine > 0 && Retains(sv0, sv)
    ensures Retains(sv0, Donated(sv, d)) && forall q :: Speaks(cv, sv, q) ==> Speaks(cv, Donated(sv, d), q)
  {
  }

  // The file record of a folded declaration remains, keeps what it had, and speaks for the declaration.
  lemma NothingSaidIsLost(cv: Naming, rs: seq<Record>, k: nat)
    requires Folds(cv, rs, k)
    ensures var w := Owner(rs, rs[k].file);
      !Folds(cv, rs, w) && Retains(rs[w], Placed(cv, rs, w)) && Speaks(cv, Placed(cv, rs, w), rs[k])
  {
    var w, n := Owner(rs, rs[k].file), |rs|;
    GatheredRetains(cv, rs, n, w);
    GatheredSpeaks(cv, rs, n, w, k);
    var d := Donor(cv, rs, w, n);
    if Gathered(cv, rs, n, w).startLine == 0 && d >= 0 {
      DonatedSpeaks(cv, rs[w], Gathered(cv, rs, n, w), rs[d]);
    }
  }

  // ---------------------------------------------------------------------------------------------
  // The borrowed span.

  lemma SoonerIsTotal(a: Record, b: Record)
    ensures Sooner(a, b) || Sooner(b, a) || (a.startLine == b.startLine && a.endLine == b.endLine && a.id == b.id)
    ensures !(Sooner(a, b) && Sooner(b, a)) && !Sooner(a, a)
  {
    BeforeTotal(a.id, b.id);
    BeforeTotal(a.id, a.id);
  }

  lemma SoonerIsTransitive(a: Record, b: Record, c: Record)
    requires !Sooner(b, a) && !Sooner(c, b)
    ensures !Sooner(c, a)
  {
    BeforeTotal(a.id, b.id);
    BeforeTotal(b.id, c.id);
    BeforeTotal(a.id, c.id);
    if Before(a.id, b.id) && Before(b.id, c.id) {
      BeforeTransitive(a.id, b.id, c.id);
    }
  }

  // The scan ends at a donor none is preferred to, if there is a donor at all.
  lemma {:induction false} DonorIsBest(cv: Naming, rs: seq<Record>, w: nat, n: nat, k: nat)
    requires w < |rs| && k < n <= |rs| && IsDonor(cv, rs, w, k)
    ensures Donor(cv, rs, w, n) >= 0 && !Sooner(rs[k], rs[Donor(cv, rs, w, n)])
  {
    SoonerIsTotal(rs[k], rs[k]);
    var d := Donor(cv, rs, w, n - 1);
    if k < n - 1 {
      DonorIsBest(cv, rs, w, n - 1, k);
      SoonerIsTotal(rs[n - 1], rs[d]);
      if Sooner(rs[n - 1], rs[d]) {
        SoonerIsTransitive(rs[n - 1], rs[d], rs[k]);
      }
    } else if d >= 0 {
      SoonerIsTotal(rs[k], rs[d]);
    }
  }

  // A file record is left without a line exactly when neither it, nor a declaration folded into it, nor any
  // donor has one.
  lemma LeftWithoutLine(cv: Naming, rs: seq<Record>, w: nat)
    requires w < |rs| && Owner(rs, rs[w].file) == w
    ensures Placed(cv, rs, w).startLine == 0 <==>
      && rs[w].startLine == 0 && (forall k: nat :: !IsDonor(cv, rs, w, k))
      && forall k: nat :: Folds(cv, rs, k) && rs[k].file == rs[w].file ==> rs[k].startLine == 0
  {
    var n := |rs|;
    assert IsFile(rs[w]) && !Folds(cv, rs, w);
    GatheredLine(cv, rs, n, w);
    if k: nat :| IsDonor(cv, rs, w, k) {
      DonorIsBest(cv, rs, w, n, k);
    }
  }

  lemma {:induction false} GatheredLine(cv: Naming, rs: seq<Record>, n: nat, w: nat)
    requires n <= |rs| && w < |rs| && Owner(rs, rs[w].file) == w
    ensures Gathered(cv, rs, n, w).startLine == 0 <==>
      rs[w].startLine == 0 && forall k: nat :: k < n && Folds(cv, rs, k) && rs[k].file == rs[w].file ==>
        rs[k].startLine == 0
  {
    if n > 0 {
      GatheredLine(cv, rs, n - 1, w);
    }
  }

  // A borrowed span starts where the first donor starts, and reaches as far as any donor starting there.
  lemma BorrowedSpan(cv: Naming, rs: seq<Record>, w: nat, k: nat)
    requires w < |rs| && Owner(rs, rs[w].file) == w && IsDonor(cv, rs, w, k)
    requires Gathered(cv, rs, |rs|, w).startLine == 0
    ensures 0 < Placed(cv, rs, w).startLine <= rs[k].startLine
    ensures Placed(cv, rs, w).startLine == rs[k].startLine ==>
      Placed(cv, rs, w).endLine >= rs[k].endLine || Gathered(cv, rs, |rs|, w).endLine > 0
    ensures exists d: nat :: IsDonor(cv, rs, w, d) && Placed(cv, rs, w).startLine == rs[d].startLine
              && (Gathered(cv, rs, |rs|, w).endLine == 0 ==> Placed(cv, rs, w).endLine == rs[d].endLine)
  {
    assert IsFile(rs[w]) && !Folds(cv, rs, w);
    DonorIsBest(cv, rs, w, |rs|, k);
    var d: nat := Donor(cv, rs, w, |rs|);
    assert IsDonor(cv, rs, w, d);
  }
}
