// What assembly guarantees of its entities and relationships.
module AssemblyLaws {
  import opened Graph
  import opened Records
  import opened Edges
  import opened EdgeLaws
  import opened Assembly

  // ---------------------------------------------------------------------------------------------
  // Entities: exactly the input IDs, once each, in order of first occurrence.

  lemma ExactlyTheIds(site: Site, rs: seq<Record>, x: Id)
    ensures (exists n :: n in Nodes(site, rs) && n.id == x) <==> exists r :: r in rs && IdOf(site, r) == x
    ensures forall i, j :: 0 <= i < j < |Nodes(site, rs)| ==> Nodes(site, rs)[i].id != Nodes(site, rs)[j].id
  {
    var nodes, ids := Nodes(site, rs), Order(site, rs);
    forall i: nat | i < |ids| ensures nodes[i].id == ids[i] {
      NodeHasItsId(site, rs, i);
    }
    if r :| r in rs && IdOf(site, r) == x {
      assert r in Dups(site, rs, x);
      var i :| 0 <= i < |ids| && ids[i] == x;
      assert nodes[i] in nodes;
    }
    if n :| n in nodes && n.id == x {
      var i :| 0 <= i < |nodes| && nodes[i] == n;
      var r := HasRecord(site, rs, x);
    }
  }

  lemma HasRecord(site: Site, rs: seq<Record>, x: Id) returns (r: Record)
    requires x in Order(site, rs)
    ensures r in rs && IdOf(site, r) == x
  {
    r := Dups(site, rs, x)[0];
    assert r in Dups(site, rs, x);
  }

  lemma NodeHasItsId(site: Site, rs: seq<Record>, i: nat)
    requires i < |Order(site, rs)|
    ensures NodeAt(site, rs, i).id == Order(site, rs)[i]
  {
    var x := Order(site, rs)[i];
    assert x in Order(site, rs);
    assert Dups(site, rs, x)[0] in Dups(site, rs, x);
  }

  lemma Appears(site: Site, rs: seq<Record>, x: Id) returns (k: nat)
    requires x in Order(site, rs)
    ensures k < |rs| && IdOf(site, rs[k]) == x
  {
    var r := Dups(site, rs, x)[0];
    assert r in Dups(site, rs, x);
    k :| 0 <= k < |rs| && rs[k] == r;
  }

  lemma Absent(site: Site, rs: seq<Record>, y: Id, m: nat)
    requires y !in Order(site, rs) && m < |rs|
    ensures IdOf(site, rs[m]) != y
  {
    assert rs[m] in rs && rs[m] !in Dups(site, rs, y);
  }

  lemma OrderGrows(site: Site, rs: seq<Record>, j: nat)
    requires j < |Order(site, rs)|
    ensures rs != [] && var ids := Order(site, rs[..|rs| - 1]);
      if j < |ids| then Order(site, rs)[j] == ids[j] else j == |ids| && Order(site, rs)[j] !in ids
  {
  }

  // An entity before another was met before it: some record of the first precedes every record of the second.
  lemma {:induction false} FirstOccurrenceOrder(site: Site, rs: seq<Record>, i: nat, j: nat) returns (k: nat)
    requires i < j < |Order(site, rs)|
    ensures k < |rs| && IdOf(site, rs[k]) == Order(site, rs)[i]
    ensures forall m :: 0 <= m <= k ==> IdOf(site, rs[m]) != Order(site, rs)[j]
  {
    OrderGrows(site, rs, i);
    OrderGrows(site, rs, j);
    var init := rs[..|rs| - 1];
    if j < |Order(site, init)| {
      k := FirstOccurrenceOrder(site, init, i, j);
    } else {
      k := BeforeNewcomer(site, init, i, Order(site, rs)[j]);
    }
    assert forall m :: 0 <= m <= k ==> rs[m] == init[m];
  }

  lemma BeforeNewcomer(site: Site, rs: seq<Record>, i: nat, y: Id) returns (k: nat)
    requires i < |Order(site, rs)| && y !in Order(site, rs)
    ensures k < |rs| && IdOf(site, rs[k]) == Order(site, rs)[i]
    ensures forall m :: 0 <= m <= k ==> IdOf(site, rs[m]) != y
  {
    k := Appears(site, rs, Order(site, rs)[i]);
    forall m | 0 <= m <= k ensures IdOf(site, rs[m]) != y {
      Absent(site, rs, y, m);
    }
  }

  // ---------------------------------------------------------------------------------------------
  // Fields.

  // A text field is the first non-empty value among the records of the ID.
  lemma {:induction false} FirstTextMeans(f: Text, ds: seq<Record>)
    ensures FirstText(f, ds) == "" <==> forall r :: r in ds ==> Get(f, r) == ""
    ensures FirstText(f, ds) != "" ==> exists j :: 0 <= j < |ds| && Get(f, ds[j]) == FirstText(f, ds)
                                                  && forall i :: 0 <= i < j ==> Get(f, ds[i]) == ""
  {
    if ds != [] {
      assert ds == [ds[0]] + ds[1..];
      FirstTextMeans(f, ds[1..]);
      if Get(f, ds[0]) == "" && FirstText(f, ds) != "" {
        var j :| 0 <= j < |ds| - 1 && Get(f, ds[1..][j]) == FirstText(f, ds)
                 && forall i :: 0 <= i < j ==> Get(f, ds[1..][i]) == "";
        forall i | 0 <= i < j + 1 ensures Get(f, ds[i]) == "" {
          assert i > 0 ==> ds[i] == ds[1..][i - 1];
        }
        assert Get(f, ds[j + 1]) == FirstText(f, ds);
      }
    }
  }

  lemma {:induction false} FirstLineMeans(f: Line, ds: seq<Record>)
    ensures FirstLine(f, ds) == 0 <==> forall r :: r in ds ==> LineOf(f, r) == 0
    ensures FirstLine(f, ds) != 0 ==> exists j :: 0 <= j < |ds| && LineOf(f, ds[j]) == FirstLine(f, ds)
                                                 && forall i :: 0 <= i < j ==> LineOf(f, ds[i]) == 0
  {
    if ds != [] {
      assert ds == [ds[0]] + ds[1..];
      FirstLineMeans(f, ds[1..]);
      if LineOf(f, ds[0]) == 0 && FirstLine(f, ds) != 0 {
        var j :| 0 <= j < |ds| - 1 && LineOf(f, ds[1..][j]) == FirstLine(f, ds)
                 && forall i :: 0 <= i < j ==> LineOf(f, ds[1..][i]) == 0;
        forall i | 0 <= i < j + 1 ensures LineOf(f, ds[i]) == 0 {
          assert i > 0 ==> ds[i] == ds[1..][i - 1];
        }
        assert LineOf(f, ds[j + 1]) == FirstLine(f, ds);
      }
    }
  }

  // A sentinel never outranks a real subtype: the subtype is the sentinel's only when no record has a real one.
  lemma RealSubtypeWins(site: Site, ds: seq<Record>)
    requires site.sentinel != ""
    ensures SubtypeOf(site, ds) == site.sentinel <==> HasSentinel(site, ds) && forall r :: r in ds ==> !Genuine(site, r)
    ensures SubtypeOf(site, ds) == "" <==> forall r :: r in ds ==> r.subtype == ""
    ensures SubtypeOf(site, ds) !in ["", site.sentinel] ==>
      exists j :: 0 <= j < |ds| && ds[j].subtype == SubtypeOf(site, ds)
                  && forall i :: 0 <= i < j ==> !Genuine(site, ds[i])
  {
    var j := FirstGenuine(site, ds);
    if j < |ds| {
      assert ds[j] in ds;
    } else {
      NoneGenuine(site, ds);
    }
  }

  // A qualified name that any record has is never lost.
  lemma NameNeverLost(site: Site, ds: seq<Record>)
    ensures QualifiedNameOf(site, ds) == "" <==> forall r :: r in ds ==> r.qualifiedName == ""
    ensures QualifiedNameOf(site, ds) != "" ==> exists r :: r in ds && r.qualifiedName == QualifiedNameOf(site, ds)
  {
    FirstTextMeans(QualifiedName, ds);
    var j := FirstGenuine(site, ds);
    if j < |ds| {
      assert ds[j] in ds;
    }
    if FirstText(QualifiedName, ds) != "" {
      var i :| 0 <= i < |ds| && Get(QualifiedName, ds[i]) == FirstText(QualifiedName, ds);
      assert ds[i] in ds;
    }
  }

  lemma {:induction false} AddedTags(tags: seq<string>, more: seq<string>)
    ensures forall t :: t in AddTags(tags, more) <==> t in tags || t in more
    ensures tags <= AddTags(tags, more)
    ensures forall i, j :: |tags| <= i < |AddTags(tags, more)| && 0 <= j < i ==>
      AddTags(tags, more)[i] != AddTags(tags, more)[j]
  {
    if more != [] {
      assert more == more[..|more| - 1] + [more[|more| - 1]];
      AddedTags(tags, more[..|more| - 1]);
    }
  }

  // The tags are those of all records: the first record's as they are, then each other tag once.
  lemma {:induction false} TagsMeans(ds: seq<Record>)
    requires ds != []
    ensures forall t :: t in TagsOf(ds) <==> exists r :: r in ds && t in r.tags
    ensures ds[0].tags <= TagsOf(ds)
    ensures forall i, j :: |ds[0].tags| <= i < |TagsOf(ds)| && 0 <= j < i ==> TagsOf(ds)[i] != TagsOf(ds)[j]
  {
    if |ds| > 1 {
      var init, last := ds[..|ds| - 1], ds[|ds| - 1];
      assert ds == init + [last];
      TagsMeans(init);
      AddedTags(TagsOf(init), last.tags);
      TagsStayOnce(TagsOf(init), last.tags, |ds[0].tags|);
      forall t ensures t in TagsOf(ds) <==> exists r :: r in ds && t in r.tags {
        if t in last.tags {
          assert last in ds;
        }
        if r :| r in ds && t in r.tags {
          assert r in init || r == last;
        }
        if t in TagsOf(init) {
          var r :| r in init && t in r.tags;
          assert r in ds;
        }
      }
    }
  }

  lemma TagsStayOnce(tags: seq<string>, more: seq<string>, n: nat)
    requires n <= |tags| && forall i, j :: n <= i < |tags| && 0 <= j < i ==> tags[i] != tags[j]
    ensures var out := AddTags(tags, more);
      forall i, j :: n <= i < |out| && 0 <= j < i ==> out[i] != out[j]
  {
    AddedTags(tags, more);
  }

  // What one record contributes to the properties.
  function Given(site: Site, ds: seq<Record>, i: nat): Props
    requires i < |ds|
  {
    if i == 0 then Moduled(site, ds[0]) else ds[i].props
  }

  // Properties are the union over all records; of several values the first record's wins.
  lemma {:induction false} FirstPropertyWins(site: Site, ds: seq<Record>, key: string)
    ensures key in PropsOf(site, ds) <==> exists i: nat :: i < |ds| && key in Given(site, ds, i)
    ensures key in PropsOf(site, ds) ==>
      exists i: nat :: i < |ds| && key in Given(site, ds, i) && Given(site, ds, i)[key] == PropsOf(site, ds)[key]
                       && forall j: nat :: j < i ==> key !in Given(site, ds, j)
  {
    if |ds| == 1 {
      assert Given(site, ds, 0) == PropsOf(site, ds);
    } else if |ds| > 1 {
      var n := |ds| - 1;
      var init := ds[..n];
      FirstPropertyWins(site, init, key);
      assert forall i: nat :: i < n ==> Given(site, init, i) == Given(site, ds, i);
      assert Given(site, ds, n) == ds[n].props;
      if key in PropsOf(site, init) {
        var i: nat :| i < n && key in Given(site, init, i) && Given(site, init, i)[key] == PropsOf(site, init)[key]
                      && forall j: nat :: j < i ==> key !in Given(site, init, j);
        assert key in Given(site, ds, i) && Given(site, ds, i)[key] == PropsOf(site, ds)[key];
        forall j: nat | j < i ensures key !in Given(site, ds, j) {
          assert Given(site, init, j) == Given(site, ds, j);
        }
      }
    }
  }

  // ---------------------------------------------------------------------------------------------
  // Relationships.

  type Triple = (Id, Id, string)

  function TripleOf(e: Edge): Triple {
    (e.from, e.to, e.kind)
  }

  function RowTriple(r: Rel): Triple {
    (r.from, r.to, r.kind)
  }

  // Relationship IDs tell the triples of these edges apart.
  ghost predicate Determines(es: seq<Edge>) {
    forall a, b :: a in es && b in es && RowOf(a).id == RowOf(b).id ==> TripleOf(a) == TripleOf(b)
  }

  predicate DistinctIds(rows: seq<Rel>) {
    forall i, j :: 0 <= i < j < |rows| ==> rows[i].id != rows[j].id
  }

  lemma DistinctSnoc(rows: seq<Rel>, r: Rel)
    requires DistinctIds(rows) && r.id !in RowIds(rows)
    ensures DistinctIds(rows + [r])
  {
    forall i | 0 <= i < |rows| ensures rows[i].id != r.id {
      assert rows[i] in rows;
    }
  }

  // Rows have distinct IDs; each is the row of the first edge of its ID, and no edge's ID is missing.
  lemma {:induction false} RowsAreFirst(es: seq<Edge>)
    ensures DistinctIds(Rows(es))
    ensures forall e :: e in es ==> RowOf(e).id in RowIds(Rows(es))
    ensures forall r :: r in Rows(es) ==> exists k :: FirstOf(es, k, r)
  {
    if es != [] {
      var n := |es| - 1;
      var init, e := es[..n], es[n];
      assert es == init + [e];
      RowsAreFirst(init);
      if RowOf(e).id !in RowIds(Rows(init)) {
        DistinctSnoc(Rows(init), RowOf(e));
      }
      forall r | r in Rows(es) ensures exists k :: FirstOf(es, k, r) {
        if r in Rows(init) {
          var k :| FirstOf(init, k, r);
          assert FirstOf(es, k, r);
        } else {
          forall m | 0 <= m < n ensures RowOf(es[m]).id != r.id {
            assert init[m] in init && es[m] == init[m];
          }
          assert FirstOf(es, n, r);
        }
      }
    }
  }

  ghost predicate FirstOf(es: seq<Edge>, k: int, r: Rel) {
    0 <= k < |es| && RowOf(es[k]) == r && forall m :: 0 <= m < k ==> RowOf(es[m]).id != r.id
  }

  lemma {:induction false} FilterKeepsDistinct(rows: seq<Rel>)
    requires DistinctIds(rows)
    ensures DistinctIds(DropHierarchySelfLoops(rows))
  {
    if rows != [] {
      var init, last := rows[..|rows| - 1], rows[|rows| - 1];
      FilterKeepsDistinct(init);
      var kept := DropHierarchySelfLoops(init);
      forall r | r in kept ensures r.id != last.id {
        var k :| 0 <= k < |init| && init[k] == r;
        assert rows[k] == r;
      }
      if !HierarchySelfLoop(last) {
        DistinctSnoc(kept, last);
      }
    }
  }

  predicate SelfLoop(t: Triple) {
    HierarchySelfLoop(Rel("", t.0, t.1, t.2, map[], 0.0))
  }

  lemma SelfLoopOf(r: Rel)
    ensures HierarchySelfLoop(r) == SelfLoop(RowTriple(r))
  {
  }

  // Which edge a relationship comes from.
  lemma Origin(es: seq<Edge>, r: Rel) returns (e: Edge)
    requires r in DropHierarchySelfLoops(Rows(es))
    ensures e in es && RowOf(e) == r && TripleOf(e) == RowTriple(r) && !SelfLoop(TripleOf(e))
  {
    RowsAreFirst(es);
    SelfLoopOf(r);
    var k :| FirstOf(es, k, r);
    e := es[k];
  }

  lemma KeptUnlessLoop(rows: seq<Rel>, r: Rel)
    requires r in rows && !SelfLoop(RowTriple(r))
    ensures r in DropHierarchySelfLoops(rows)
  {
    SelfLoopOf(r);
  }

  lemma RowFor(es: seq<Edge>, e: Edge) returns (r: Rel)
    requires Determines(es) && e in es
    ensures r in Rows(es) && RowTriple(r) == TripleOf(e)
  {
    RowsAreFirst(es);
    r :| r in Rows(es) && r.id == RowOf(e).id;
    var k :| FirstOf(es, k, r);
    assert es[k] in es;
  }

  // Every triple that is no hierarchy self-loop reaches the output.
  lemma Reaches(es: seq<Edge>, e: Edge) returns (r: Rel)
    requires Determines(es) && e in es && !SelfLoop(TripleOf(e))
    ensures r in DropHierarchySelfLoops(Rows(es)) && RowTriple(r) == TripleOf(e)
  {
    r := RowFor(es, e);
    KeptUnlessLoop(Rows(es), r);
  }

  // Each triple that is no hierarchy self-loop has exactly one relationship, and no other triple has any.
  lemma EachTripleOnce(es: seq<Edge>, t: Triple)
    requires Determines(es)
    ensures (exists r :: r in DropHierarchySelfLoops(Rows(es)) && RowTriple(r) == t) <==>
      (exists e :: e in es && TripleOf(e) == t) && !SelfLoop(t)
    ensures var rels := DropHierarchySelfLoops(Rows(es));
      forall i, j :: 0 <= i < j < |rels| ==> RowTriple(rels[i]) != RowTriple(rels[j])
  {
    var rels := DropHierarchySelfLoops(Rows(es));
    RowsAreFirst(es);
    FilterKeepsDistinct(Rows(es));
    forall i, j | 0 <= i < j < |rels| ensures RowTriple(rels[i]) != RowTriple(rels[j]) {
      var a := Origin(es, rels[i]);
      var b := Origin(es, rels[j]);
    }
    if r :| r in rels && RowTriple(r) == t {
      var e := Origin(es, r);
    }
    if e :| e in es && TripleOf(e) == t && !SelfLoop(t) {
      var r := Reaches(es, e);
    }
  }

  // ---------------------------------------------------------------------------------------------
  // From the folds to the document.

  // Stamped records carry the ID that assembly gives them.
  ghost predicate WearsItsId(site: Site, rs: seq<Record>) {
    forall r :: r in rs ==> r.id == IdOf(site, r)
  }

  lemma {:induction false} EmbeddedIsLedger(site: Site, rs: seq<Record>)
    requires WearsItsId(site, rs)
    ensures multiset(Embedded(site, rs)) == Ledger(map[], rs)
  {
    if rs == [] {
      assert Parts(map[], rs) == [];
    } else {
      var init, r := rs[..|rs| - 1], rs[|rs| - 1];
      EmbeddedIsLedger(site, init);
      assert rs == init + [r];
      LedgerSnoc(map[], init, r);
      assert Settle(map[], r.id, r.rels) == BindAll(r.rels, r.id);
    }
  }

  // What the folds call the edges of their output, and the two late streams, are the edges assembly turns
  // into relationships.
  lemma AssemblyReadsThePlainEdges(site: Site, rs: seq<Record>, pass2: seq<Edge>, contains: seq<Edge>, joins: seq<Edge>)
    requires WearsItsId(site, rs)
    ensures multiset(AllEdges(site, rs, pass2, contains, joins)) ==
      Plain(rs, pass2) + multiset(Unrated(contains)) + multiset(Unrated(joins))
  {
    EmbeddedIsLedger(site, rs);
    assert RewriteAll(map[], pass2) == pass2;
  }
}
