// The passes together: stamping, the class fold, the file fold and assembly, from the extraction records to
// the relationships of the document.
module Pipeline {
  import opened Graph
  import opened Records
  import opened Edges
  import opened EdgeLaws
  import opened ClassKinds
  import opened ClassFold
  import opened FileFold
  import opened Assembly
  import opened AssemblyLaws
  import opened Folds
  import ClassFoldLaws
  import FileFoldLaws
  import Stamp

  // Records whose fields hold no NUL, so that their final ID determines them.
  predicate Clear(repo: string, rs: seq<Record>) {
    NulFree(repo) && forall r :: r in rs ==> NulFree(r.kind) && NulFree(r.name)
  }

  // Stamping leaves what the folds and assembly ask for.
  lemma StampingIdentifies(site: Site, rs: seq<Record>)
    requires Clear(site.repo, rs) && forall r :: r in rs ==> r.name != ""
    ensures var out := Stamp.Stamped(site.repo, rs); Identified(out) && WearsItsId(site, out)
  {
    var out := Stamp.Stamped(site.repo, rs);
    forall r | r in out ensures r.id == IdOf(site, r) != "" && r.name != "" && NulFree(r.kind) && NulFree(r.name) {
      var k :| 0 <= k < |out| && out[k] == r;
      assert rs[k] in rs;
    }
    forall r, q | r in out && q in out ensures Agree(r, q) {
      if r.id == q.id {
        EntityIDInjective(site.repo, r.kind, r.name, r.file, q.kind, q.name, q.file);
      }
    }
  }

  // The class fold changes neither an ID nor what it is made of.
  lemma ClassFoldKeepsIds(site: Site, kinds: Kinds, rs: seq<Record>)
    requires WearsItsId(site, rs)
    ensures WearsItsId(site, FoldedRecords(kinds, rs))
  {
    forall r | r in FoldedRecords(kinds, rs) ensures r.id == IdOf(site, r) {
      var q := Source(kinds, rs, r);
    }
  }

  lemma FileFoldKeepsIds(site: Site, cv: Naming, rs: seq<Record>)
    requires WearsItsId(site, rs)
    ensures WearsItsId(site, FoldedFiles(cv, rs))
  {
    var all := RepointAll(FileFold.Rho(cv, rs, |rs|), Settled(cv, rs));
    KeptMembers(all, FileFold.FoldedSet(cv, rs, |rs|));
    forall r | r in FoldedFiles(cv, rs) ensures r.id == IdOf(site, r) {
      var k :| 0 <= k < |all| && all[k] == r;
      assert SameFile(FileFold.Placed(cv, rs, k), rs[k]) && rs[k] in rs;
    }
  }

  // The document's edges: what assembly makes of the records and standalone edges that the folds leave.
  ghost function DocumentEdges(site: Site, cv: Naming, rs: seq<Record>, pass0: seq<Edge>, contains: seq<Edge>,
                               joins: seq<Edge>): seq<Edge>
  {
    var mid := FoldedRecords(cv.kinds, rs);
    AllEdges(site, FoldedFiles(cv, mid), FoldedEdges(cv, mid, FoldedStream(cv.kinds, rs, pass0)), contains, joins)
  }

  // Where both folds together send an edge.
  ghost function Sent(cv: Naming, rs: seq<Record>, b: Edge): Edge {
    var mid := FoldedRecords(cv.kinds, rs);
    Rewrite(FileFold.Rho(cv, mid, |mid|), Rewrite(ClassFold.Rho(cv.kinds, rs), b))
  }

  // No placeholder wears a folded ID, in either fold.
  ghost predicate Unworn(cv: Naming, rs: seq<Record>) {
    && (forall k: nat :: !ClassFoldLaws.Worn(cv.kinds, rs, k))
    && (forall k: nat :: !FileFoldLaws.Worn(cv, FoldedRecords(cv.kinds, rs), k))
  }

  ghost function SentAll(cv: Naming, rs: seq<Record>, es: seq<Edge>): (out: seq<Edge>)
    ensures |out| == |es| && forall i :: 0 <= i < |es| ==> out[i] == Sent(cv, rs, es[i])
  {
    seq(|es|, i requires 0 <= i < |es| => Sent(cv, rs, es[i]))
  }

  // The edges both folds leave are the input edges, in whatever order these are listed: each bound to its
  // record, sent where the folds say, and as often as it was there.
  lemma FoldsSendEdges(cv: Naming, rs: seq<Record>, pass0: seq<Edge>, input: seq<Edge>)
    requires Identified(rs) && FilesNamed(rs) && Unworn(cv, rs) && multiset(input) == Plain(rs, pass0)
    ensures var mid := FoldedRecords(cv.kinds, rs);
      Plain(FoldedFiles(cv, mid), FoldedEdges(cv, mid, FoldedStream(cv.kinds, rs, pass0))) ==
        multiset(SentAll(cv, rs, input))
  {
    var mid, pass1 := FoldedRecords(cv.kinds, rs), FoldedStream(cv.kinds, rs, pass0);
    var rho1, rho2 := ClassFold.Rho(cv.kinds, rs), FileFold.Rho(cv, mid, |mid|);
    ClassFoldKeepsStamps(cv.kinds, rs);
    ClassFoldLaws.ExactUnlessWorn(cv.kinds, rs, pass0);
    FileFoldLaws.ExactUnlessWorn(cv, mid, pass1);
    RenamesThePlain(rho1, rs, pass0, input);
    RenamesThePlain(rho2, mid, pass1, RewriteAll(rho1, input));
    assert SentAll(cv, rs, input) == RewriteAll(rho2, RewriteAll(rho1, input));
  }

  // Membership alone, for one edge.
  lemma FoldsSendEdge(cv: Naming, rs: seq<Record>, pass0: seq<Edge>, e: Edge)
    requires Identified(rs) && FilesNamed(rs) && Unworn(cv, rs)
    ensures var mid := FoldedRecords(cv.kinds, rs);
      e in Plain(FoldedFiles(cv, mid), FoldedEdges(cv, mid, FoldedStream(cv.kinds, rs, pass0))) <==>
        exists b :: b in Plain(rs, pass0) && e == Sent(cv, rs, b)
  {
    var input := PlainIsListed(rs, pass0);
    FoldsSendEdges(cv, rs, pass0, input);
    var sent := SentAll(cv, rs, input);
    assert e in multiset(sent) <==> e in sent;
    if e in sent {
      var i :| 0 <= i < |sent| && sent[i] == e;
      assert input[i] in multiset(input);
    }
    if b :| b in Plain(rs, pass0) && e == Sent(cv, rs, b) {
      assert b in input;
      var i :| 0 <= i < |input| && input[i] == b;
      assert sent[i] in sent;
    }
  }

  // The edges of the document, then: the input's, sent where the folds say, and those of the late streams.
  lemma DocumentHasSent(site: Site, cv: Naming, rs: seq<Record>, pass0: seq<Edge>, contains: seq<Edge>,
                        joins: seq<Edge>, t: Triple)
    requires Identified(rs) && FilesNamed(rs) && WearsItsId(site, rs) && Unworn(cv, rs)
    ensures (exists e :: e in DocumentEdges(site, cv, rs, pass0, contains, joins) && TripleOf(e) == t) <==>
      || (exists b :: b in Plain(rs, pass0) && TripleOf(Sent(cv, rs, b)) == t)
      || (exists e :: e in contains + joins && TripleOf(e) == t)
  {
    var mid := FoldedRecords(cv.kinds, rs);
    var out, pass2 := FoldedFiles(cv, mid), FoldedEdges(cv, mid, FoldedStream(cv.kinds, rs, pass0));
    var es := DocumentEdges(site, cv, rs, pass0, contains, joins);
    ClassFoldKeepsIds(site, cv.kinds, rs);
    FileFoldKeepsIds(site, cv, mid);
    AssemblyReadsThePlainEdges(site, out, pass2, contains, joins);
    assert forall e :: e in es <==> e in multiset(es);
    if e :| e in es && TripleOf(e) == t {
      if e in Plain(out, pass2) {
        FoldsSendEdge(cv, rs, pass0, e);
      } else {
        LateTriple(contains, joins, t);
      }
    }
    if b :| b in Plain(rs, pass0) && TripleOf(Sent(cv, rs, b)) == t {
      FoldsSendEdge(cv, rs, pass0, Sent(cv, rs, b));
      assert Sent(cv, rs, b) in es;
    }
    LateTriple(contains, joins, t);
  }

  // Dropping the confidence keeps the triple.
  lemma LateTriple(contains: seq<Edge>, joins: seq<Edge>, t: Triple)
    ensures (exists e :: e in contains + joins && TripleOf(e) == t) <==>
      exists e :: (e in Unrated(contains) || e in Unrated(joins)) && TripleOf(e) == t
  {
    SameTriples(contains, t);
    SameTriples(joins, t);
  }

  lemma SameTriples(es: seq<Edge>, t: Triple)
    ensures (exists e :: e in es && TripleOf(e) == t) <==> exists e :: e in Unrated(es) && TripleOf(e) == t
  {
    if e :| e in es && TripleOf(e) == t {
      var i :| 0 <= i < |es| && es[i] == e;
      assert Unrated(es)[i] in Unrated(es) && TripleOf(Unrated(es)[i]) == t;
    }
    if e :| e in Unrated(es) && TripleOf(e) == t {
      var i :| 0 <= i < |es| && Unrated(es)[i] == e;
      assert es[i] in es && TripleOf(es[i]) == t;
    }
  }

  // From records to relationships: each input edge, bound to its record and sent where both folds say, has
  // exactly one relationship, unless it has become a hierarchy self-loop; and there is no other relationship.
  lemma EveryEdgeOnce(site: Site, cv: Naming, rs: seq<Record>, pass0: seq<Edge>, contains: seq<Edge>,
                      joins: seq<Edge>, t: Triple)
    requires Identified(rs) && FilesNamed(rs) && WearsItsId(site, rs) && Unworn(cv, rs)
    requires Determines(DocumentEdges(site, cv, rs, pass0, contains, joins))
    ensures var rels := DropHierarchySelfLoops(Rows(DocumentEdges(site, cv, rs, pass0, contains, joins)));
      && ((exists r :: r in rels && RowTriple(r) == t) <==>
           !SelfLoop(t) && ((exists b :: b in Plain(rs, pass0) && TripleOf(Sent(cv, rs, b)) == t)
                            || exists e :: e in contains + joins && TripleOf(e) == t))
      && forall i, j :: 0 <= i < j < |rels| ==> RowTriple(rels[i]) != RowTriple(rels[j])
  {
    EachTripleOnce(DocumentEdges(site, cv, rs, pass0, contains, joins), t);
    DocumentHasSent(site, cv, rs, pass0, contains, joins, t);
  }
}
