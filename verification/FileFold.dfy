// foldFileComponentDuplicates: folds a class-like component into its file's record where the file is the
// declaration, and lends a positionless file record the span of a declaration named after it.
module FileFold {
  import opened Graph
  import opened Records
  import opened Edges
  import opened ClassKinds

  // The tables and conventions the fold consults; FileNames has the ones the program uses.
  datatype Naming = Naming(
    kinds: Kinds,
    lower: string -> string,
    stem: string -> string,
    isDeclaration: (string, string, string) -> bool,
    exported: Props -> string,
    copied: string -> bool)

  // ---------------------------------------------------------------------------------------------
  // What the fold decides, as a function of the input.

  predicate IsFile(r: Record) {
    r.kind == COMPONENT && r.subtype == "file" && r.id != ""
  }

  // Extractors name a file record after its file.
  predicate FilesNamed(rs: seq<Record>) {
    forall r :: r in rs && IsFile(r) ==> r.name != ""
  }

  // The file record of `file`: the last one. -1 if it has none.
  function Owner(rs: seq<Record>, file: string): (w: int)
    ensures -1 <= w < |rs|
    ensures w >= 0 ==> IsFile(rs[w]) && rs[w].file == file
  {
    if rs == [] then -1
    else if IsFile(rs[|rs| - 1]) && rs[|rs| - 1].file == file then |rs| - 1
    else Owner(rs[..|rs| - 1], file)
  }

  predicate IsClass(cv: Naming, r: Record) {
    r.kind == COMPONENT && r.subtype != "file" && cv.kinds.IsClassLike(r)
  }

  // Record k is the declaration its file exists to export.
  predicate Folds(cv: Naming, rs: seq<Record>, k: nat) {
    && k < |rs| && IsClass(cv, rs[k]) && rs[k].name != "" && rs[k].id != ""
    && var w := Owner(rs, rs[k].file);
       && w >= 0 && cv.lower(rs[k].name) == cv.stem(rs[k].file)
       && cv.isDeclaration(rs[k].file, rs[k].name, cv.exported(rs[w].props))
       && rs[w].id != rs[k].id
  }

  // Folded ID to file ID, over the first n records.
  function Rho(cv: Naming, rs: seq<Record>, n: nat): Renaming
    requires n <= |rs|
  {
    if n == 0 then map[]
    else if Folds(cv, rs, n - 1) then Rho(cv, rs, n - 1)[rs[n - 1].id := rs[Owner(rs, rs[n - 1].file)].id]
    else Rho(cv, rs, n - 1)
  }

  function FillFile(cv: Naming, mine: Props, theirs: Props): Props {
    (map key | key in theirs && cv.copied(key) :: theirs[key]) + mine
  }

  // The file record after taking over a declaration.
  function Adopt(cv: Naming, sv: Record, r: Record): Record {
    sv.(props := FillFile(cv, sv.props, r.props),
        startLine := if sv.startLine == 0 then r.startLine else sv.startLine,
        endLine := if sv.endLine == 0 then r.endLine else sv.endLine,
        qualifiedName := if sv.qualifiedName == "" then r.qualifiedName else sv.qualifiedName,
        signature := if sv.signature == "" then r.signature else sv.signature,
        rels := sv.rels + RehomeAll(r.rels, r.id, sv.id))
  }

  // A file record keeps what names it.
  predicate SameFile(a: Record, b: Record) {
    a.id == b.id && a.kind == b.kind && a.name == b.name && a.file == b.file && a.subtype == b.subtype
  }

  // Record w after the first n records have been folded.
  function Gathered(cv: Naming, rs: seq<Record>, n: nat, w: nat): (r: Record)
    requires n <= |rs| && w < |rs|
    ensures SameFile(r, rs[w])
    ensures Owner(rs, rs[w].file) != w ==> r == rs[w]
  {
    if n == 0 then rs[w]
    else
      var init := Gathered(cv, rs, n - 1, w);
      if Folds(cv, rs, n - 1) && Owner(rs, rs[n - 1].file) == w then Adopt(cv, init, rs[n - 1]) else init
  }

  function Partial(cv: Naming, rs: seq<Record>, n: nat, k: nat): (r: Record)
    requires n <= |rs| && k < |rs|
    ensures SameFile(r, rs[k])
  {
    if Folds(cv, rs, k) && k < n then Emptied(rs[k]) else Gathered(cv, rs, n, k)
  }

  function Partials(cv: Naming, rs: seq<Record>, n: nat): (out: seq<Record>)
    requires n <= |rs|
    ensures |out| == |rs| && forall k :: 0 <= k < |rs| ==> out[k] == Partial(cv, rs, n, k)
  {
    seq(|rs|, k requires 0 <= k < |rs| => Partial(cv, rs, n, k))
  }

  // ---------------------------------------------------------------------------------------------
  // Span donation.

  // A surviving declaration in the file of record w, named after the file.
  predicate IsDonor(cv: Naming, rs: seq<Record>, w: nat, k: nat)
    requires w < |rs|
  {
    && k < |rs| && k != w && !Folds(cv, rs, k) && rs[k].startLine > 0 && rs[k].file == rs[w].file
    && rs[k].name != "" && cv.lower(rs[k].name) == cv.stem(rs[w].file)
    && (cv.kinds.IsFramework(rs[k].kind) || IsClass(cv, rs[k]))
  }

  // `r` is preferred to `d`: smaller start line, then larger end line, then smaller ID.
  predicate Sooner(r: Record, d: Record) {
    if r.startLine != d.startLine then r.startLine < d.startLine
    else if r.endLine != d.endLine then r.endLine > d.endLine
    else Before(r.id, d.id)
  }

  // The scan for a donor among the first n records. -1 if there is none.
  function Donor(cv: Naming, rs: seq<Record>, w: nat, n: nat): (d: int)
    requires w < |rs| && n <= |rs|
    ensures -1 <= d < n && (d >= 0 ==> IsDonor(cv, rs, w, d))
  {
    if n == 0 then -1
    else
      var d := Donor(cv, rs, w, n - 1);
      if IsDonor(cv, rs, w, n - 1) && (d < 0 || Sooner(rs[n - 1], rs[d])) then n - 1 else d
  }

  function Donated(sv: Record, d: Record): Record {
    sv.(startLine := d.startLine, endLine := if sv.endLine == 0 then d.endLine else sv.endLine)
  }

  // A file record once its file has been visited.
  function Placed(cv: Naming, rs: seq<Record>, w: nat): (r: Record)
    requires w < |rs|
    ensures SameFile(r, rs[w])
  {
    var sv, d := Partial(cv, rs, |rs|, w), Donor(cv, rs, w, |rs|);
    if Owner(rs, rs[w].file) == w && sv.startLine == 0 && d >= 0 then Donated(sv, rs[d]) else sv
  }

  // The records after folding and donation, before edges are repointed.
  function Settled(cv: Naming, rs: seq<Record>): (out: seq<Record>)
    ensures |out| == |rs| && forall k :: 0 <= k < |rs| ==> out[k] == Placed(cv, rs, k)
  {
    seq(|rs|, k requires 0 <= k < |rs| => Placed(cv, rs, k))
  }

  function FoldedSet(cv: Naming, rs: seq<Record>, n: nat): set<nat> {
    set k: nat | k < n && Folds(cv, rs, k)
  }

  // The fold's whole effect on the records, and on the standalone edges.
  function FoldedFiles(cv: Naming, rs: seq<Record>): seq<Record> {
    Kept(RepointAll(Rho(cv, rs, |rs|), Settled(cv, rs)), FoldedSet(cv, rs, |rs|))
  }

  function FoldedEdges(cv: Naming, rs: seq<Record>, pass2: seq<Edge>): seq<Edge> {
    RewriteAll(Rho(cv, rs, |rs|), pass2)
  }

  // ---------------------------------------------------------------------------------------------
  // The renaming is flat: nothing is renamed to a renamed ID.

  lemma {:induction false} RhoSource(cv: Naming, rs: seq<Record>, n: nat, x: Id) returns (k: nat)
    requires n <= |rs| && x in Rho(cv, rs, n)
    ensures k < n && Folds(cv, rs, k) && rs[k].id == x && Rho(cv, rs, n)[x] == rs[Owner(rs, rs[k].file)].id
  {
    if Folds(cv, rs, n - 1) && rs[n - 1].id == x {
      k := n - 1;
    } else {
      k := RhoSource(cv, rs, n - 1, x);
    }
  }

  lemma {:induction false} RhoHas(cv: Naming, rs: seq<Record>, n: nat, k: nat)
    requires k < n <= |rs| && Folds(cv, rs, k)
    ensures rs[k].id in Rho(cv, rs, n)
  {
    if k < n - 1 {
      RhoHas(cv, rs, n - 1, k);
    }
  }

  lemma SameDeclaration(rs: seq<Record>, j: nat, k: nat)
    requires Identified(rs) && j < |rs| && k < |rs| && rs[j].name != "" && rs[k].name != "" && rs[j].id == rs[k].id
    ensures rs[j].kind == rs[k].kind && rs[j].name == rs[k].name && rs[j].file == rs[k].file
  {
    assert rs[j] in rs && rs[k] in rs && Agree(rs[j], rs[k]);
  }

  lemma RhoAt(cv: Naming, rs: seq<Record>, k: nat)
    requires Identified(rs) && Folds(cv, rs, k)
    ensures rs[k].id in Rho(cv, rs, |rs|) && Rho(cv, rs, |rs|)[rs[k].id] == rs[Owner(rs, rs[k].file)].id
  {
    RhoHas(cv, rs, |rs|, k);
    var j := RhoSource(cv, rs, |rs|, rs[k].id);
    SameDeclaration(rs, j, k);
  }

  lemma OwnerStays(cv: Naming, rs: seq<Record>, w: nat)
    requires Identified(rs) && FilesNamed(rs) && w < |rs| && Owner(rs, rs[w].file) == w
    ensures rs[w].id !in Rho(cv, rs, |rs|) && rs[w].id != ""
  {
    if rs[w].id in Rho(cv, rs, |rs|) {
      var k := RhoSource(cv, rs, |rs|, rs[w].id);
      assert rs[w] in rs;
      SameDeclaration(rs, k, w);
      assert false;
    }
  }

  lemma TargetStays(cv: Naming, rs: seq<Record>, x: Id)
    requires Identified(rs) && FilesNamed(rs) && x in Rho(cv, rs, |rs|)
    ensures Rho(cv, rs, |rs|)[x] !in Rho(cv, rs, |rs|) && Rho(cv, rs, |rs|)[x] != "" && x != ""
  {
    var k := RhoSource(cv, rs, |rs|, x);
    OwnerStays(cv, rs, Owner(rs, rs[k].file));
  }

  lemma RhoFlat(cv: Naming, rs: seq<Record>)
    requires Identified(rs) && FilesNamed(rs)
    ensures Flat(Rho(cv, rs, |rs|)) && "" !in Rho(cv, rs, |rs|)
    ensures forall x :: x in Rho(cv, rs, |rs|) ==> Rho(cv, rs, |rs|)[x] != ""
  {
    forall x | x in Rho(cv, rs, |rs|)
      ensures Rho(cv, rs, |rs|)[x] !in Rho(cv, rs, |rs|) && Rho(cv, rs, |rs|)[x] != "" && x != ""
    {
      TargetStays(cv, rs, x);
    }
  }

  // ---------------------------------------------------------------------------------------------
  // The fold, phase by phase.

  // What the fold remembers of a file record: its default export before anything is copied onto it.
  datatype FileEnt = FileEnt(idx: nat, id: Id, stem: string, defaultExport: string)

  function EntOf(cv: Naming, rs: seq<Record>, w: nat): FileEnt
    requires w < |rs|
  {
    FileEnt(w, rs[w].id, cv.stem(rs[w].file), cv.exported(rs[w].props))
  }

  ghost predicate EntAt(cv: Naming, rs: seq<Record>, n: nat, files: map<string, FileEnt>, f: string)
    requires n <= |rs|
  {
    var w := Owner(rs[..n], f);
    (f in files <==> w >= 0) && (f in files ==> files[f] == EntOf(cv, rs, w))
  }

  ghost predicate Ents(cv: Naming, rs: seq<Record>, n: nat, files: map<string, FileEnt>)
    requires n <= |rs|
  {
    forall f :: EntAt(cv, rs, n, files, f)
  }

  method IndexFiles(cv: Naming, merged: array<Record>) returns (files: map<string, FileEnt>)
    ensures Ents(cv, merged[..], merged.Length, files)
  {
    files := map[];
    ghost var rs := merged[..];
    for k := 0 to merged.Length
      invariant Ents(cv, rs, k, files)
    {
      var r := merged[k];
      ghost var was, n := files, k + 1;
      if r.kind == COMPONENT && r.subtype == "file" && r.id != "" {
        files := files[r.file := FileEnt(k, r.id, cv.stem(r.file), cv.exported(r.props))];
      }
      forall f ensures EntAt(cv, rs, n, files, f) {
        assert EntAt(cv, rs, k, was, f);
        assert rs[..n][..k] == rs[..k];
      }
    }
  }

  lemma EntIs(cv: Naming, rs: seq<Record>, files: map<string, FileEnt>, f: string)
    requires Ents(cv, rs, |rs|, files)
    ensures var w := Owner(rs, f); (f in files <==> w >= 0) && (f in files ==> files[f] == EntOf(cv, rs, w))
  {
    assert EntAt(cv, rs, |rs|, files, f);
    assert rs[..|rs|] == rs;
  }

  lemma PartialsStart(cv: Naming, rs: seq<Record>)
    ensures Partials(cv, rs, 0) == rs
  {
  }

  lemma {:induction false} PartialsSkip(cv: Naming, rs: seq<Record>, n: nat)
    requires n < |rs| && !Folds(cv, rs, n)
    ensures Partials(cv, rs, n + 1) == Partials(cv, rs, n)
  {
  }

  // A record not yet visited is as it was, unless it is a file record.
  lemma {:induction false} Untouched(cv: Naming, rs: seq<Record>, n: nat, k: nat)
    requires n <= |rs| && k < |rs| && !IsFile(rs[k]) && (n <= k || !Folds(cv, rs, k))
    ensures Partial(cv, rs, n, k) == rs[k]
  {
  }

  lemma {:induction false} PartialFold(cv: Naming, rs: seq<Record>, n: nat, w: nat, k: nat)
    requires n < |rs| && Folds(cv, rs, n) && w == Owner(rs, rs[n].file) && k < |rs|
    ensures w < |rs| && w != n
    ensures k == n ==> Partial(cv, rs, n, k) == rs[n] && Partial(cv, rs, n + 1, k) == Emptied(rs[n])
    ensures k == w ==> Partial(cv, rs, n + 1, k) == Adopt(cv, Partial(cv, rs, n, k), rs[n])
    ensures k != n && k != w ==> Partial(cv, rs, n + 1, k) == Partial(cv, rs, n, k)
  {
    Untouched(cv, rs, n, n);
  }

  lemma {:induction false} PartialsFold(cv: Naming, rs: seq<Record>, n: nat, w: nat, cur: seq<Record>)
    requires n < |rs| && Folds(cv, rs, n) && w == Owner(rs, rs[n].file) && cur == Partials(cv, rs, n)
    ensures w < |rs| && w != n && cur[n] == rs[n]
    ensures Partials(cv, rs, n + 1) == cur[w := Adopt(cv, cur[w], rs[n])][n := Emptied(rs[n])]
  {
    PartialFold(cv, rs, n, w, n);
    var n' := n + 1;
    var next, next' := Partials(cv, rs, n'), cur[w := Adopt(cv, cur[w], rs[n])][n := Emptied(rs[n])];
    forall k: nat | k < |rs| ensures next[k] == next'[k] {
      PartialFold(cv, rs, n, w, k);
      assert next[k] == Partial(cv, rs, n', k) && cur[k] == Partial(cv, rs, n, k);
    }
  }

  // The declaration test of the loop, on what it remembers of the file record.
  lemma Decision(cv: Naming, rs: seq<Record>, files: map<string, FileEnt>, k: nat)
    requires k < |rs| && Ents(cv, rs, |rs|, files)
    ensures Folds(cv, rs, k) <==>
      && IsClass(cv, rs[k]) && rs[k].name != "" && rs[k].id != "" && rs[k].file in files
      && var fe := files[rs[k].file];
         && cv.lower(rs[k].name) == fe.stem && cv.isDeclaration(rs[k].file, rs[k].name, fe.defaultExport)
         && fe.id != rs[k].id
    ensures Folds(cv, rs, k) ==>
      var w := Owner(rs, rs[k].file); files[rs[k].file].idx == w && files[rs[k].file].id == rs[w].id
  {
    EntIs(cv, rs, files, rs[k].file);
  }

  method FoldDeclaration(cv: Naming, merged: array<Record>, k: nat, files: map<string, FileEnt>, drop0: set<nat>,
                         remap0: Renaming, ghost rs: seq<Record>)
    returns (drop: set<nat>, remap: Renaming)
    requires k < |rs| == merged.Length && merged[..] == Partials(cv, rs, k) && Ents(cv, rs, |rs|, files)
    requires drop0 == FoldedSet(cv, rs, k) && remap0 == Rho(cv, rs, k)
    modifies merged
    ensures merged[..] == Partials(cv, rs, k + 1)
    ensures drop == FoldedSet(cv, rs, k + 1) && remap == Rho(cv, rs, k + 1)
  {
    drop, remap := drop0, remap0;
    var r := merged[k];
    assert r == Partial(cv, rs, k, k);
    Decision(cv, rs, files, k);
    if r.kind != COMPONENT || r.subtype == "file" {
      PartialsSkip(cv, rs, k);
      return;
    }
    Untouched(cv, rs, k, k);
    if !cv.kinds.IsClassLike(r) || r.name == "" || r.id == "" || r.file !in files {
      PartialsSkip(cv, rs, k);
      return;
    }
    var fe := files[r.file];
    if cv.lower(r.name) != fe.stem || !cv.isDeclaration(r.file, r.name, fe.defaultExport) || fe.id == r.id {
      PartialsSkip(cv, rs, k);
      return;
    }
    drop, remap := drop + {k}, remap[r.id := fe.id];
    PartialsFold(cv, rs, k, fe.idx, merged[..]);
    AdoptAt(cv, merged, k, fe.idx);
  }

  method AdoptAt(cv: Naming, merged: array<Record>, k: nat, w: nat)
    requires k < merged.Length && w < merged.Length && k != w
    modifies merged
    ensures merged[..] == old(merged[..])[w := Adopt(cv, old(merged[w]), old(merged[k]))][k := Emptied(old(merged[k]))]
  {
    merged[w] := Adopt(cv, merged[w], merged[k]);
    merged[k] := merged[k].(rels := []);
  }

  // One record while some files are still to be visited.
  ghost predicate VisitedAt(cv: Naming, rs: seq<Record>, cur: seq<Record>, todo: set<string>, k: nat)
    requires k < |rs| == |cur|
  {
    cur[k] == if rs[k].file in todo then Partial(cv, rs, |rs|, k) else Placed(cv, rs, k)
  }

  ghost predicate Visited(cv: Naming, rs: seq<Record>, cur: seq<Record>, todo: set<string>) {
    |cur| == |rs| && forall k: nat :: k < |rs| ==> VisitedAt(cv, rs, cur, todo, k)
  }

  // What the donor test sees of a record has not changed since the input.
  predicate DonorLooks(cv: Naming, r: Record, stem: string, file: string) {
    && r.startLine > 0 && r.file == file && r.name != "" && cv.lower(r.name) == stem
    && (cv.kinds.IsFramework(r.kind) || IsClass(cv, r))
  }

  lemma {:induction false} DonorTest(cv: Naming, rs: seq<Record>, cur: seq<Record>, todo: set<string>, w: nat, k: nat)
    requires cv.kinds.Generic() && Visited(cv, rs, cur, todo) && w < |rs| && k < |rs|
    ensures SameFile(cur[k], rs[k])
    ensures IsDonor(cv, rs, w, k) ==> cur[k] == rs[k]
    ensures IsDonor(cv, rs, w, k) <==>
      k != w && !Folds(cv, rs, k) && DonorLooks(cv, cur[k], cv.stem(rs[w].file), rs[w].file)
  {
    assert VisitedAt(cv, rs, cur, todo, k);
    if !IsFile(rs[k]) && !Folds(cv, rs, k) {
      Untouched(cv, rs, |rs|, k);
    }
  }

  method FindDonor(cv: Naming, merged: array<Record>, fe: FileEnt, drop: set<nat>, ghost rs: seq<Record>,
                   ghost todo: set<string>)
    returns (donor: int)
    requires cv.kinds.Generic() && Visited(cv, rs, merged[..], todo) && fe.idx < |rs| && fe == EntOf(cv, rs, fe.idx)
    requires drop == FoldedSet(cv, rs, |rs|)
    ensures donor == Donor(cv, rs, fe.idx, |rs|)
    ensures donor >= 0 ==> merged[donor] == rs[donor]
  {
    donor := -1;
    DonorTest(cv, rs, merged[..], todo, fe.idx, fe.idx);
    for k := 0 to merged.Length
      invariant donor == Donor(cv, rs, fe.idx, k)
      invariant donor >= 0 ==> merged[donor] == rs[donor]
    {
      DonorTest(cv, rs, merged[..], todo, fe.idx, k);
      if k == fe.idx || k in drop || !DonorLooks(cv, merged[k], fe.stem, merged[fe.idx].file) {
        continue;
      }
      if donor < 0 || Sooner(merged[k], merged[donor]) {
        donor := k;
      }
    }
  }

  lemma VisitOther(cv: Naming, rs: seq<Record>, f: string, k: nat)
    requires k < |rs| && Owner(rs, f) != k && rs[k].file == f
    ensures Placed(cv, rs, k) == Partial(cv, rs, |rs|, k)
  {
  }

  lemma {:induction false} VisitDone(cv: Naming, rs: seq<Record>, before: seq<Record>, cur: seq<Record>,
                                     todo: set<string>, w: nat)
    requires Visited(cv, rs, before, todo) && |cur| == |rs| && w < |rs| && Owner(rs, rs[w].file) == w
    requires cur[w] == Placed(cv, rs, w) && forall k :: 0 <= k < |cur| && k != w ==> cur[k] == before[k]
    ensures Visited(cv, rs, cur, todo - {rs[w].file})
  {
    forall k: nat | k < |rs| ensures VisitedAt(cv, rs, cur, todo - {rs[w].file}, k) {
      assert VisitedAt(cv, rs, before, todo, k);
      if k != w && rs[k].file == rs[w].file {
        VisitOther(cv, rs, rs[w].file, k);
      }
    }
  }

  method VisitFile(cv: Naming, merged: array<Record>, fe: FileEnt, drop: set<nat>, ghost rs: seq<Record>,
                   ghost todo: set<string>)
    requires cv.kinds.Generic() && Visited(cv, rs, merged[..], todo) && fe.idx < |rs| && fe == EntOf(cv, rs, fe.idx)
    requires Owner(rs, rs[fe.idx].file) == fe.idx && rs[fe.idx].file in todo && drop == FoldedSet(cv, rs, |rs|)
    modifies merged
    ensures Visited(cv, rs, merged[..], todo - {rs[fe.idx].file})
  {
    ghost var before := merged[..];
    assert VisitedAt(cv, rs, before, todo, fe.idx);
    var sv := merged[fe.idx];
    if sv.startLine > 0 || fe.idx in drop {
      VisitDone(cv, rs, before, merged[..], todo, fe.idx);
      return;
    }
    var donor := FindDonor(cv, merged, fe, drop, rs, todo);
    if donor >= 0 {
      merged[fe.idx] := Donated(sv, merged[donor]);
    }
    VisitDone(cv, rs, before, merged[..], todo, fe.idx);
  }

  lemma AllVisited(cv: Naming, rs: seq<Record>, cur: seq<Record>)
    requires Visited(cv, rs, cur, {})
    ensures cur == Settled(cv, rs)
  {
    forall k: nat | k < |rs| ensures cur[k] == Settled(cv, rs)[k] {
      assert VisitedAt(cv, rs, cur, {}, k);
    }
  }

  // Lends spans to the file records, in whatever order the map of files is walked.
  method DonateSpans(cv: Naming, merged: array<Record>, files: map<string, FileEnt>, drop: set<nat>,
                     ghost rs: seq<Record>)
    requires cv.kinds.Generic() && Ents(cv, rs, |rs|, files) && merged[..] == Partials(cv, rs, |rs|)
    requires drop == FoldedSet(cv, rs, |rs|)
    modifies merged
    ensures merged[..] == Settled(cv, rs)
  {
    var todo := files.Keys;
    VisitStart(cv, rs, files);
    while todo != {}
      invariant todo <= files.Keys && Visited(cv, rs, merged[..], todo)
      decreases todo
    {
      var f :| f in todo;
      EntIs(cv, rs, files, f);
      VisitFile(cv, merged, files[f], drop, rs, todo);
      todo := todo - {f};
    }
    AllVisited(cv, rs, merged[..]);
  }

  // A record whose file has no file record is placed already.
  lemma VisitStart(cv: Naming, rs: seq<Record>, files: map<string, FileEnt>)
    requires Ents(cv, rs, |rs|, files)
    ensures Visited(cv, rs, Partials(cv, rs, |rs|), files.Keys)
  {
    forall k: nat | k < |rs| ensures VisitedAt(cv, rs, Partials(cv, rs, |rs|), files.Keys, k) {
      EntIs(cv, rs, files, rs[k].file);
    }
  }

  lemma NoneFolds(cv: Naming, rs: seq<Record>)
    requires Rho(cv, rs, |rs|) == map[]
    ensures FoldedSet(cv, rs, |rs|) == {}
  {
    forall k: nat | k < |rs| ensures !Folds(cv, rs, k) {
      if Folds(cv, rs, k) {
        RhoHas(cv, rs, |rs|, k);
      }
    }
  }

  // With nothing renamed there is nothing to repoint or drop.
  lemma NothingFolded(cv: Naming, rs: seq<Record>, pass2: seq<Edge>)
    requires Rho(cv, rs, |rs|) == map[]
    ensures FoldedFiles(cv, rs) == Settled(cv, rs) && FoldedEdges(cv, rs, pass2) == pass2
  {
    NoneFolds(cv, rs);
    RepointNothing(Settled(cv, rs));
    KeptAll(Settled(cv, rs));
  }

  lemma {:induction false} NothingRenamed(cv: Naming, rs: seq<Record>, n: nat)
    requires n <= |rs| && forall k: nat :: k < n ==> !Folds(cv, rs, k)
    ensures Rho(cv, rs, n) == map[]
  {
    if n > 0 {
      NothingRenamed(cv, rs, n - 1);
    }
  }

  // Without file records nothing folds and nothing is lent.
  lemma NoFiles(cv: Naming, rs: seq<Record>, files: map<string, FileEnt>)
    requires Ents(cv, rs, |rs|, files) && files == map[]
    ensures Settled(cv, rs) == rs && Rho(cv, rs, |rs|) == map[]
  {
    forall k: nat | k < |rs| ensures !Folds(cv, rs, k) && Placed(cv, rs, k) == rs[k] {
      EntIs(cv, rs, files, rs[k].file);
    }
    NothingRenamed(cv, rs, |rs|);
    assert Settled(cv, rs) == rs;
  }

  lemma DroppedAreEmpty(cv: Naming, rs: seq<Record>)
    ensures forall k :: 0 <= k < |rs| && k in FoldedSet(cv, rs, |rs|) ==> Settled(cv, rs)[k].rels == []
  {
    forall k | 0 <= k < |rs| && k in FoldedSet(cv, rs, |rs|) ensures Placed(cv, rs, k).rels == [] {
      assert Folds(cv, rs, k);
    }
  }

  method FoldDeclarations(cv: Naming, merged: array<Record>, files: map<string, FileEnt>)
    returns (drop: set<nat>, remap: Renaming)
    requires Ents(cv, merged[..], merged.Length, files)
    modifies merged
    ensures merged[..] == Partials(cv, old(merged[..]), merged.Length)
    ensures drop == FoldedSet(cv, old(merged[..]), merged.Length) && remap == Rho(cv, old(merged[..]), merged.Length)
  {
    ghost var rs := merged[..];
    drop, remap := {}, map[];
    PartialsStart(cv, rs);
    for k := 0 to merged.Length
      invariant merged[..] == Partials(cv, rs, k)
      invariant drop == FoldedSet(cv, rs, k) && remap == Rho(cv, rs, k)
    {
      drop, remap := FoldDeclaration(cv, merged, k, files, drop, remap, rs);
    }
  }

  method FoldFileComponentDuplicates(cv: Naming, merged: array<Record>, pass2: seq<Edge>)
    returns (n: nat, pass2': seq<Edge>)
    requires cv.kinds.Generic() && Identified(merged[..]) && FilesNamed(merged[..])
    modifies merged
    ensures n <= merged.Length && merged[..n] == FoldedFiles(cv, old(merged[..]))
    ensures pass2' == FoldedEdges(cv, old(merged[..]), pass2)
  {
    ghost var rs := merged[..];
    n, pass2' := merged.Length, pass2;
    var files := IndexFiles(cv, merged);
    if |files| == 0 {
      NoFiles(cv, rs, files);
      NothingFolded(cv, rs, pass2);
      assert merged[..n] == rs;
      return;
    }
    var drop, remap := FoldDeclarations(cv, merged, files);
    DonateSpans(cv, merged, files, drop, rs);
    if |remap| == 0 {
      NothingFolded(cv, rs, pass2);
      assert merged[..n] == merged[..];
      return;
    }
    DroppedAreEmpty(cv, rs);
    Repoint(merged, drop, remap);
    assert merged[..] == RepointAll(remap, Settled(cv, rs));
    pass2' := RewriteAll(remap, pass2);
    n := Compact(merged, drop);
  }
}
