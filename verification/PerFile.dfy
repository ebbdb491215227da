// Assembly works file by file: the document of many files is the union of the documents of each, and each of
// these is what the incremental merge asks of an extracted file.
module PerFile {
  import opened Graph
  import opened Records
  import opened Assembly
  import opened AssemblyLaws
  import opened Rebuild
  import opened Edges
  import opened EdgeLaws
  import opened ClassFold
  import opened FileFold
  import opened Folds
  import opened Pipeline
  import ClassFoldLaws
  import FileFoldLaws

  // ---------------------------------------------------------------------------------------------
  // What can be read back from an ID.

  function Before(s: string): string {
    if s == [] || s[0] == '\0' then [] else [s[0]] + Before(s[1..])
  }

  function Behind(s: string): string {
    if s == [] then [] else if s[0] == '\0' then s[1..] else Behind(s[1..])
  }

  lemma {:induction false} AtNul(a: string, b: string)
    requires NulFree(a)
    ensures Before(a + NUL + b) == a && Behind(a + NUL + b) == b
  {
    var s := a + NUL + b;
    if a == [] {
      assert s[1..] == b;
    } else {
      assert s[0] == a[0] && a[0] in a && s[1..] == a[1..] + NUL + b;
      AtNul(a[1..], b);
    }
  }

  // The file of an entity ID, and the entity ID a relationship ID starts with.
  function FileOf(x: Id): string {
    Before(Behind(Behind(Behind(x))))
  }

  function SourceOf(x: Id): Id {
    EntityID(Before(x), Before(Behind(x)), Before(Behind(Behind(x))), FileOf(x))
  }

  // An ID made of NUL-free fields.
  ghost predicate Made(x: Id) {
    exists repo, kind, name, file ::
      NulFree(repo) && NulFree(kind) && NulFree(name) && NulFree(file) && x == EntityID(repo, kind, name, file)
  }

  // The same text, grouped from its end.
  lemma Regroup(repo: string, kind: string, name: string, last: string)
    ensures EntityID(repo, kind, name, last) == repo + NUL + (kind + NUL + (name + NUL + last))
  {
  }

  lemma FieldsReadBack(repo: string, kind: string, name: string, last: string)
    requires NulFree(repo) && NulFree(kind) && NulFree(name)
    ensures var x := EntityID(repo, kind, name, last);
      && Before(x) == repo && Before(Behind(x)) == kind && Before(Behind(Behind(x))) == name
      && Behind(Behind(Behind(x))) == last
  {
    var behindKind := name + NUL + last;
    var behindRepo := kind + NUL + behindKind;
    Regroup(repo, kind, name, last);
    AtNul(name, last);
    AtNul(kind, behindKind);
    AtNul(repo, behindRepo);
  }

  lemma ReadBack(repo: string, kind: string, name: string, file: string, more: string)
    requires NulFree(repo) && NulFree(kind) && NulFree(name) && NulFree(file)
    ensures SourceOf(EntityID(repo, kind, name, file) + NUL + more) == EntityID(repo, kind, name, file)
  {
    var last := file + NUL + more;
    Append(repo, kind, name, file, more);
    FieldsReadBack(repo, kind, name, last);
    AtNul(file, more);
  }

  lemma Append(repo: string, kind: string, name: string, file: string, more: string)
    ensures EntityID(repo, kind, name, file) + NUL + more == EntityID(repo, kind, name, file + NUL + more)
  {
  }

  lemma {:induction false} NoNul(a: string)
    requires NulFree(a)
    ensures Before(a) == a
  {
    if a != [] {
      assert a[0] in a;
      NoNul(a[1..]);
      assert a == [a[0]] + a[1..];
    }
  }

  lemma FileReadBack(site: Site, r: Record)
    requires Legible(site, r)
    ensures Made(IdOf(site, r)) && FileOf(IdOf(site, r)) == r.file && !NulFree(IdOf(site, r))
  {
    FieldsReadBack(site.repo, r.kind, r.name, r.file);
    NoNul(r.file);
    Regroup(site.repo, r.kind, r.name, r.file);
    assert IdOf(site, r)[|site.repo|] == '\0';
  }

  predicate Legible(site: Site, r: Record) {
    NulFree(site.repo) && NulFree(r.kind) && NulFree(r.name) && NulFree(r.file)
  }

  // A relationship ID determines the source when that is an entity ID.
  lemma RowSource(from: Id, to: Id, kind: string)
    requires Made(from)
    ensures SourceOf(RelationshipID(from, to, kind)) == from
  {
    var repo, k, name, file :| NulFree(repo) && NulFree(k) && NulFree(name) && NulFree(file)
                               && from == EntityID(repo, k, name, file);
    ReadBack(repo, k, name, file, to + NUL + kind);
    assert RelationshipID(from, to, kind) == from + NUL + (to + NUL + kind);
  }

  // A text that ends in a NUL-free part: the part starts after the last NUL.
  lemma NoNulBehind(a: string, k: string)
    requires NulFree(k)
    ensures (a + NUL + k)[|a|] == '\0' && forall i :: |a| < i < |a + NUL + k| ==> (a + NUL + k)[i] != '\0'
  {
    forall i | |a| < i < |a + NUL + k| ensures (a + NUL + k)[i] != '\0' {
      assert (a + NUL + k)[i] == k[i - |a| - 1] && k[i - |a| - 1] in k;
    }
  }

  lemma SamePlace(a: string, k: string, b: string, l: string)
    requires NulFree(k) && NulFree(l) && a + NUL + k == b + NUL + l
    ensures |a| == |b|
  {
    NoNulBehind(a, k);
    NoNulBehind(b, l);
  }

  lemma LastNul(a: string, k: string, b: string, l: string)
    requires NulFree(k) && NulFree(l) && a + NUL + k == b + NUL + l
    ensures a == b && k == l
  {
    SamePlace(a, k, b, l);
    assert a == (a + NUL + k)[..|a|] && b == (b + NUL + l)[..|a|];
    assert k == (a + NUL + k)[|a| + 1..] && l == (b + NUL + l)[|a| + 1..];
  }

  lemma AfterPrefix(x: string, a: string, b: string)
    requires x + a == x + b
    ensures a == b
  {
    assert a == (x + a)[|x|..] && b == (x + b)[|x|..];
  }

  lemma SameSource(from: Id, to: Id, kind: string, from': Id, to': Id, kind': string)
    requires Made(from) && Made(from') && RelationshipID(from, to, kind) == RelationshipID(from', to', kind')
    ensures from == from'
  {
    RowSource(from, to, kind);
    RowSource(from', to', kind');
  }

  lemma RestOfRow(from: Id, to: Id, kind: string)
    ensures RelationshipID(from, to, kind) == (from + NUL) + (to + NUL + kind)
  {
  }

  lemma SameTarget(x: string, to: Id, kind: string, to': Id, kind': string)
    requires NulFree(kind) && NulFree(kind') && x + (to + NUL + kind) == x + (to' + NUL + kind')
    ensures to == to' && kind == kind'
  {
    AfterPrefix(x, to + NUL + kind, to' + NUL + kind');
    LastNul(to, kind, to', kind');
  }

  // With NUL-free kinds, and sources that are entity IDs, a relationship ID determines all three of its parts.
  lemma RelationshipIDInjective(from: Id, to: Id, kind: string, from': Id, to': Id, kind': string)
    requires Made(from) && Made(from') && NulFree(kind) && NulFree(kind')
    requires RelationshipID(from, to, kind) == RelationshipID(from', to', kind')
    ensures from == from' && to == to' && kind == kind'
  {
    SameSource(from, to, kind, from', to', kind');
    RestOfRow(from, to, kind);
    RestOfRow(from, to', kind');
    SameTarget(from + NUL, to, kind, to', kind');
  }

  // ---------------------------------------------------------------------------------------------
  // The document of some files.

  function OfFile(rs: seq<Record>, f: string): (out: seq<Record>)
    ensures forall r :: r in out <==> r in rs && r.file == f
  {
    if rs == [] then []
    else
      var init, r := OfFile(rs[..|rs| - 1], f), rs[|rs| - 1];
      assert rs == rs[..|rs| - 1] + [r];
      if r.file == f then init + [r] else init
  }

  function Leaving(es: seq<Edge>, f: string): (out: seq<Edge>)
    ensures forall e :: e in out <==> e in es && FileOf(e.from) == f
  {
    if es == [] then []
    else
      var init, e := Leaving(es[..|es| - 1], f), es[|es| - 1];
      assert es == es[..|es| - 1] + [e];
      if FileOf(e.from) == f then init + [e] else init
  }

  // What the merge sees of an entity; `body` stands for its other fields.
  function Entities(body: Node -> string, nodes: seq<Node>): (out: seq<Entity>)
    ensures |out| == |nodes|
    ensures forall i :: 0 <= i < |nodes| ==> out[i] == Entity(nodes[i].id, nodes[i].file, body(nodes[i]))
  {
    seq(|nodes|, i requires 0 <= i < |nodes| => Entity(nodes[i].id, nodes[i].file, body(nodes[i])))
  }

  function DocOf(site: Site, body: Node -> string, rs: seq<Record>, es: seq<Edge>): Doc {
    Doc(Entities(body, Nodes(site, rs)), DropHierarchySelfLoops(Rows(es)))
  }

  lemma EntityNode(site: Site, body: Node -> string, rs: seq<Record>, e: Entity) returns (n: Node)
    requires e in Entities(body, Nodes(site, rs))
    ensures n in Nodes(site, rs) && e == Entity(n.id, n.file, body(n))
  {
    var i :| 0 <= i < |Nodes(site, rs)| && Entities(body, Nodes(site, rs))[i] == e;
    n := Nodes(site, rs)[i];
  }

  lemma NodeEntity(site: Site, body: Node -> string, rs: seq<Record>, n: Node)
    requires n in Nodes(site, rs)
    ensures Entity(n.id, n.file, body(n)) in Entities(body, Nodes(site, rs))
  {
    var i :| 0 <= i < |Nodes(site, rs)| && Nodes(site, rs)[i] == n;
    assert Entities(body, Nodes(site, rs))[i] == Entity(n.id, n.file, body(n));
  }

  // ---------------------------------------------------------------------------------------------
  // Entities, file by file.

  lemma NodeIff(site: Site, rs: seq<Record>, n: Node)
    ensures n in Nodes(site, rs) <==> Dups(site, rs, n.id) != [] && n == NodeOf(site, Dups(site, rs, n.id))
  {
    var ids, nodes := Order(site, rs), Nodes(site, rs);
    if n in nodes {
      var i :| 0 <= i < |nodes| && nodes[i] == n;
      NodeHasItsId(site, rs, i);
    }
    if Dups(site, rs, n.id) != [] && n == NodeOf(site, Dups(site, rs, n.id)) {
      assert n.id in ids;
      var i :| 0 <= i < |ids| && ids[i] == n.id;
      assert nodes[i] == NodeAt(site, rs, i) == n;
    }
  }

  // The duplicates of an ID are all in one file.
  lemma {:induction false} DupsOfFile(site: Site, rs: seq<Record>, f: string, x: Id)
    requires FileOf(x) == f && forall r :: r in rs ==> Legible(site, r)
    ensures Dups(site, OfFile(rs, f), x) == Dups(site, rs, x)
  {
    if rs != [] {
      var init, r := rs[..|rs| - 1], rs[|rs| - 1];
      DupsOfFile(site, init, f, x);
      FileReadBack(site, r);
      if r.file == f {
        var out := OfFile(rs, f);
        assert out[..|out| - 1] == OfFile(init, f) && out[|out| - 1] == r;
      }
    }
  }

  lemma NodeHome(site: Site, rs: seq<Record>, n: Node)
    requires n in Nodes(site, rs) && forall r :: r in rs ==> Legible(site, r)
    ensures FileOf(n.id) == n.file && !NulFree(n.id) && exists r :: r in rs && r.file == n.file
  {
    NodeIff(site, rs, n);
    var r := Dups(site, rs, n.id)[0];
    assert r in Dups(site, rs, n.id);
    FileReadBack(site, r);
  }

  lemma NodesOfFile(site: Site, rs: seq<Record>, f: string, n: Node)
    requires forall r :: r in rs ==> Legible(site, r)
    ensures n in Nodes(site, OfFile(rs, f)) <==> n in Nodes(site, rs) && n.file == f
  {
    if n in Nodes(site, OfFile(rs, f)) {
      NodeHome(site, OfFile(rs, f), n);
    }
    if n in Nodes(site, rs) {
      NodeHome(site, rs, n);
    }
    if FileOf(n.id) == f {
      DupsOfFile(site, rs, f, n.id);
      NodeIff(site, rs, n);
      NodeIff(site, OfFile(rs, f), n);
    }
  }

  // ---------------------------------------------------------------------------------------------
  // Relationships, file by file.

  lemma RowOrigin(es: seq<Edge>, r: Rel) returns (e: Edge)
    requires r in Rows(es)
    ensures e in es && r == RowOf(e)
  {
    RowsAreFirst(es);
    var k :| FirstOf(es, k, r);
    e := es[k];
  }

  // A relationship whose ID has been met leaves from the same entity as the one met.
  lemma SameIdSameSource(es: seq<Edge>, r: Rel, row: Rel)
    requires r in Rows(es) && (forall e :: e in es ==> Made(e.from))
    requires r.id == row.id && row.id == RelationshipID(row.from, row.to, row.kind) && Made(row.from)
    ensures r.from == row.from
  {
    var e := RowOrigin(es, r);
    RowSource(r.from, r.to, r.kind);
    RowSource(row.from, row.to, row.kind);
  }

  lemma {:induction false} RowsLeaving(es: seq<Edge>, f: string, r: Rel)
    requires forall e :: e in es ==> Made(e.from)
    ensures r in Rows(Leaving(es, f)) <==> r in Rows(es) && FileOf(r.from) == f
    decreases |es|, 0
  {
    if es != [] {
      var init, e := es[..|es| - 1], es[|es| - 1];
      assert es == init + [e];
      RowsLeaving(init, f, r);
      if FileOf(e.from) == f {
        var out := Leaving(es, f);
        assert out[..|out| - 1] == Leaving(init, f) && out[|out| - 1] == e;
        AllRowsLeaving(init, f);
        MetInFile(init, f, RowOf(e), Rows(init), Rows(Leaving(init, f)));
      }
    }
  }

  lemma AllRowsLeaving(es: seq<Edge>, f: string)
    requires forall e :: e in es ==> Made(e.from)
    ensures forall r :: r in Rows(Leaving(es, f)) <==> r in Rows(es) && FileOf(r.from) == f
    decreases |es|, 1
  {
    forall r ensures r in Rows(Leaving(es, f)) <==> r in Rows(es) && FileOf(r.from) == f {
      RowsLeaving(es, f, r);
    }
  }

  // An ID has been met among all edges if and only if it has been met among those of its file.
  lemma MetInFile(es: seq<Edge>, f: string, row: Rel, all: seq<Rel>, mine: seq<Rel>)
    requires (forall e :: e in es ==> Made(e.from)) && all == Rows(es)
    requires forall r :: r in mine <==> r in all && FileOf(r.from) == f
    requires row.id == RelationshipID(row.from, row.to, row.kind) && Made(row.from) && FileOf(row.from) == f
    ensures row.id in RowIds(all) <==> row.id in RowIds(mine)
  {
    if row.id in RowIds(all) {
      var r :| r in all && r.id == row.id;
      SameIdSameSource(es, r, row);
      assert r in mine;
    }
  }

  // ---------------------------------------------------------------------------------------------
  // The two halves meet.

  // Every edge leaves from a record.
  ghost predicate Rooted(site: Site, rs: seq<Record>, es: seq<Edge>) {
    && (forall r :: r in rs ==> Legible(site, r))
    && (forall e :: e in es ==> exists r :: r in rs && e.from == IdOf(site, r))
  }

  lemma RootedIsMade(site: Site, rs: seq<Record>, es: seq<Edge>)
    requires Rooted(site, rs, es)
    ensures forall e :: e in es ==> Made(e.from)
  {
    forall e | e in es ensures Made(e.from) {
      var r :| r in rs && e.from == IdOf(site, r);
      FileReadBack(site, r);
    }
  }

  // The identity schemes: what they embed, and that an external name is no identity of either.
  ghost predicate Schemes(w: World) {
    forall x: Id :: w.owner(x) == FileOf(x) && w.source(x) == SourceOf(x) && (w.external(x) ==> NulFree(x))
  }

  // The document of one file is what Rebuild asks of extraction.
  lemma FileIsWellExtracted(w: World, site: Site, body: Node -> string, rs: seq<Record>, es: seq<Edge>, f: string)
    requires Schemes(w) && Rooted(site, rs, es)
    ensures WellExtracted(w, f, DocOf(site, body, OfFile(rs, f), Leaving(es, f)))
  {
    var mine, out := OfFile(rs, f), Leaving(es, f);
    var d := DocOf(site, body, mine, out);
    RootedIsMade(site, rs, es);
    forall e | e in d.entities ensures e.file == f && w.owner(e.id) == f && !w.external(e.id) {
      var n := EntityNode(site, body, mine, e);
      NodeHome(site, mine, n);
    }
    forall e, e' | e in d.entities && e' in d.entities && e.id == e'.id ensures e == e' {
      var n := EntityNode(site, body, mine, e);
      var n' := EntityNode(site, body, mine, e');
      NodeIff(site, mine, n);
      NodeIff(site, mine, n');
    }
    forall r | r in d.rels
      ensures r.id != "" && r.from in Ids(d.entities) && w.source(r.id) == r.from && !HierarchySelfLoop(r)
    {
      RelOfFile(site, body, rs, es, f, r);
    }
    forall r, r' | r in d.rels && r' in d.rels && r.id == r'.id ensures r == r' {
      RowsAreFirst(out);
    }
  }

  lemma RelOfFile(site: Site, body: Node -> string, rs: seq<Record>, es: seq<Edge>, f: string, r: Rel)
    requires Rooted(site, rs, es) && r in DropHierarchySelfLoops(Rows(Leaving(es, f)))
    ensures r.id != "" && SourceOf(r.id) == r.from
    ensures r.from in Ids(Entities(body, Nodes(site, OfFile(rs, f))))
  {
    RootedIsMade(site, rs, es);
    var e := RowOrigin(Leaving(es, f), r);
    RowSource(e.from, e.to, e.kind);
    assert |r.id| >= 2;
    var q :| q in rs && e.from == IdOf(site, q);
    FileReadBack(site, q);
    assert q in OfFile(rs, f);
    ExactlyTheIds(site, OfFile(rs, f), r.from);
    var n :| n in Nodes(site, OfFile(rs, f)) && n.id == r.from;
    NodeEntity(site, body, OfFile(rs, f), n);
  }

  // The document of all records is built from the documents of their files.
  lemma DocumentAssembles(w: World, pieces: Pieces, fs: set<string>, site: Site, body: Node -> string,
                          rs: seq<Record>, es: seq<Edge>)
    requires Rooted(site, rs, es) && forall r :: r in rs ==> r.file in fs
    requires forall f :: f in fs ==>
      f in pieces && Part(w, f, pieces[f]) == DocOf(site, body, OfFile(rs, f), Leaving(es, f))
    ensures Assembles(w, pieces, fs, DocOf(site, body, rs, es))
  {
    var d := DocOf(site, body, rs, es);
    forall e ensures e in d.entities <==> HasEntity(w, pieces, fs, e) {
      EntityPerFile(w, pieces, fs, site, body, rs, es, e);
    }
    forall r ensures r in d.rels <==> HasRel(w, pieces, fs, r) {
      RelPerFile(w, pieces, fs, site, body, rs, es, r);
    }
  }

  lemma EntityPerFile(w: World, pieces: Pieces, fs: set<string>, site: Site, body: Node -> string,
                      rs: seq<Record>, es: seq<Edge>, e: Entity)
    requires Rooted(site, rs, es) && forall r :: r in rs ==> r.file in fs
    requires forall f :: f in fs ==>
      f in pieces && Part(w, f, pieces[f]) == DocOf(site, body, OfFile(rs, f), Leaving(es, f))
    ensures e in Entities(body, Nodes(site, rs)) <==> HasEntity(w, pieces, fs, e)
  {
    if e in Entities(body, Nodes(site, rs)) {
      var n := EntityNode(site, body, rs, e);
      NodeHome(site, rs, n);
      NodesOfFile(site, rs, n.file, n);
      NodeEntity(site, body, OfFile(rs, n.file), n);
      assert e in Part(w, n.file, pieces[n.file]).entities;
    }
    if f :| f in fs && f in pieces && e in Part(w, f, pieces[f]).entities {
      var n := EntityNode(site, body, OfFile(rs, f), e);
      NodesOfFile(site, rs, f, n);
      NodeEntity(site, body, rs, n);
    }
  }

  lemma RelPerFile(w: World, pieces: Pieces, fs: set<string>, site: Site, body: Node -> string,
                   rs: seq<Record>, es: seq<Edge>, r: Rel)
    requires Rooted(site, rs, es) && forall q :: q in rs ==> q.file in fs
    requires forall f :: f in fs ==>
      f in pieces && Part(w, f, pieces[f]) == DocOf(site, body, OfFile(rs, f), Leaving(es, f))
    ensures r in DropHierarchySelfLoops(Rows(es)) <==> HasRel(w, pieces, fs, r)
  {
    RootedIsMade(site, rs, es);
    if r in DropHierarchySelfLoops(Rows(es)) {
      var e := RowOrigin(es, r);
      var q :| q in rs && e.from == IdOf(site, q);
      FileReadBack(site, q);
      RowsLeaving(es, q.file, r);
      assert r in Part(w, q.file, pieces[q.file]).rels;
    }
    if f :| f in fs && f in pieces && r in Part(w, f, pieces[f]).rels {
      RowsLeaving(es, f, r);
    }
  }

  // ---------------------------------------------------------------------------------------------
  // What the folds leave meets the demands of both.

  lemma FoldsKeepSources(cv: Naming, rs: seq<Record>, pass0: seq<Edge>)
    requires Identified(rs) && FilesNamed(rs) && FromRecords(rs, pass0)
    ensures var mid := FoldedRecords(cv.kinds, rs);
      FromRecords(FoldedFiles(cv, mid), FoldedEdges(cv, mid, FoldedStream(cv.kinds, rs, pass0)))
  {
    var mid, pass1 := FoldedRecords(cv.kinds, rs), FoldedStream(cv.kinds, rs, pass0);
    var out := FoldedFiles(cv, mid);
    var rho1, rho2 := ClassFold.Rho(cv.kinds, rs), FileFold.Rho(cv, mid, |mid|);
    ClassFoldKeepsStamps(cv.kinds, rs);
    ClassFoldLaws.EdgesConserved(cv.kinds, rs, pass0);
    ClassFoldLaws.NoRenamedEndpoint(cv.kinds, rs, pass0);
    forall k | 0 <= k < |rs| ensures Renamed(rho1, rs[k].id) in IdsOf(mid) {
      ClassFoldLaws.EveryIdResolves(cv.kinds, rs, k);
    }
    FoldKeepsSources(rho1, rs, pass0, mid, pass1);
    FileFoldLaws.EdgesConserved(cv, mid, pass1);
    FileFoldLaws.NoFoldedEndpoint(cv, mid, pass1);
    forall k | 0 <= k < |mid| ensures Renamed(rho2, mid[k].id) in IdsOf(out) {
      FileFoldLaws.EveryIdResolves(cv, mid, k);
    }
    FoldKeepsSources(rho2, mid, pass1, out, FoldedEdges(cv, mid, pass1));
  }

  // Where an output record of both folds comes from.
  lemma FoldedFrom(site: Site, cv: Naming, rs: seq<Record>, r: Record) returns (q: Record)
    requires r in FoldedFiles(cv, FoldedRecords(cv.kinds, rs))
    ensures q in rs && r.kind == q.kind && r.name == q.name && r.file == q.file
  {
    var mid := FoldedRecords(cv.kinds, rs);
    var all := RepointAll(FileFold.Rho(cv, mid, |mid|), Settled(cv, mid));
    KeptMembers(all, FileFold.FoldedSet(cv, mid, |mid|));
    var k :| 0 <= k < |all| && all[k] == r;
    assert SameFile(FileFold.Placed(cv, mid, k), mid[k]) && mid[k] in mid;
    q := Folds.Source(cv.kinds, rs, mid[k]);
  }

  // If every edge leaves from a record before the folds, every edge of the document leaves from a record
  // after them: the document is built file by file.
  lemma DocumentIsRooted(site: Site, cv: Naming, rs: seq<Record>, pass0: seq<Edge>, contains: seq<Edge>,
                         joins: seq<Edge>)
    requires Identified(rs) && FilesNamed(rs) && WearsItsId(site, rs) && FromRecords(rs, pass0)
    requires forall r :: r in rs ==> Legible(site, r)
    requires forall e :: e in contains + joins ==> e.from in IdsOf(FoldedFiles(cv, FoldedRecords(cv.kinds, rs)))
    ensures var out := FoldedFiles(cv, FoldedRecords(cv.kinds, rs));
      Rooted(site, out, DocumentEdges(site, cv, rs, pass0, contains, joins))
  {
    var mid := FoldedRecords(cv.kinds, rs);
    var out, pass2 := FoldedFiles(cv, mid), FoldedEdges(cv, mid, FoldedStream(cv.kinds, rs, pass0));
    var es := DocumentEdges(site, cv, rs, pass0, contains, joins);
    FoldsKeepSources(cv, rs, pass0);
    ClassFoldKeepsIds(site, cv.kinds, rs);
    FileFoldKeepsIds(site, cv, mid);
    AssemblyReadsThePlainEdges(site, out, pass2, contains, joins);
    forall r | r in out ensures Legible(site, r) {
      var q := FoldedFrom(site, cv, rs, r);
    }
    forall e | e in es ensures e.from in IdsOf(out) {
      assert e in multiset(es);
      if e !in Plain(out, pass2) {
        LateSource(contains, joins, e);
      }
    }
  }

  lemma LateSource(contains: seq<Edge>, joins: seq<Edge>, e: Edge)
    requires e in Unrated(contains) || e in Unrated(joins)
    ensures exists late :: late in contains + joins && late.from == e.from
  {
    if e in Unrated(contains) {
      var i :| 0 <= i < |contains| && Unrated(contains)[i] == e;
      assert contains[i] in contains + joins;
    } else {
      var i :| 0 <= i < |joins| && Unrated(joins)[i] == e;
      assert joins[i] in contains + joins;
    }
  }

  // ---------------------------------------------------------------------------------------------
  // From records to relationships.

  lemma RootedDetermines(site: Site, rs: seq<Record>, es: seq<Edge>)
    requires Rooted(site, rs, es) && forall e :: e in es ==> NulFree(e.kind)
    ensures Determines(es)
  {
    RootedIsMade(site, rs, es);
    forall e, d | e in es && d in es && RowOf(e).id == RowOf(d).id ensures TripleOf(e) == TripleOf(d) {
      RelationshipIDInjective(e.from, e.to, e.kind, d.from, d.to, d.kind);
    }
  }

  // If every edge leaves from a record and fields hold no NUL, each input edge, bound and renamed by both folds,
  // and each late one has exactly one relationship unless it is a hierarchy self-loop, and there is no other.
  lemma EachEdgeHasItsRow(site: Site, cv: Naming, rs: seq<Record>, pass0: seq<Edge>, contains: seq<Edge>,
                          joins: seq<Edge>, t: Triple)
    requires Identified(rs) && FilesNamed(rs) && WearsItsId(site, rs) && FromRecords(rs, pass0) && Unworn(cv, rs)
    requires forall r :: r in rs ==> Legible(site, r)
    requires forall e :: e in contains + joins ==> e.from in IdsOf(FoldedFiles(cv, FoldedRecords(cv.kinds, rs)))
    requires forall e :: e in DocumentEdges(site, cv, rs, pass0, contains, joins) ==> NulFree(e.kind)
    ensures var rels := DropHierarchySelfLoops(Rows(DocumentEdges(site, cv, rs, pass0, contains, joins)));
      && ((exists r :: r in rels && RowTriple(r) == t) <==>
           !SelfLoop(t) && ((exists b :: b in Plain(rs, pass0) && TripleOf(Sent(cv, rs, b)) == t)
                            || exists e :: e in contains + joins && TripleOf(e) == t))
      && forall i, j :: 0 <= i < j < |rels| ==> RowTriple(rels[i]) != RowTriple(rels[j])
  {
    var out := FoldedFiles(cv, FoldedRecords(cv.kinds, rs));
    DocumentIsRooted(site, cv, rs, pass0, contains, joins);
    RootedDetermines(site, out, DocumentEdges(site, cv, rs, pass0, contains, joins));
    EveryEdgeOnce(site, cv, rs, pass0, contains, joins, t);
  }
}
