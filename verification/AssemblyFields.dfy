// What assembly makes of the records of one ID, said of the records' own fields.
module AssemblyFields {
  import opened Wrappers
  import opened Graph
  import opened Records
  import opened Edges
  import opened Assembly
  import opened AssemblyLaws

  // ---------------------------------------------------------------------------------------------
  // The records of one ID.

  // `ds` is what stands at the positions `at`: those of the records of ID x, in order.
  ghost predicate Duplicates(site: Site, rs: seq<Record>, x: Id, at: seq<nat>, ds: seq<Record>) {
    && |at| == |ds| && (forall m, n :: 0 <= m < n < |at| ==> at[m] < at[n])
    && (forall m :: 0 <= m < |at| ==> at[m] < |rs| && ds[m] == rs[at[m]] && IdOf(site, ds[m]) == x)
    && (forall k: nat :: k < |rs| && IdOf(site, rs[k]) == x ==> k in at)
  }

  lemma DuplicatesSnoc(site: Site, init: seq<Record>, r: Record, x: Id, at: seq<nat>, ds: seq<Record>)
    requires Duplicates(site, init, x, at, ds)
    ensures IdOf(site, r) != x ==> Duplicates(site, init + [r], x, at, ds)
    ensures IdOf(site, r) == x ==> Duplicates(site, init + [r], x, at + [|init|], ds + [r])
  {
    var rs, n := init + [r], |init|;
    assert rs[n] == r && forall k: nat :: k < n ==> rs[k] == init[k];
    if IdOf(site, r) == x {
      var at' := at + [n];
      assert at'[|at|] == n;
      forall k: nat | k < |rs| && IdOf(site, rs[k]) == x ensures k in at' {
        assert k < n ==> k in at;
      }
    }
  }

  lemma {:induction false} DupsInOrder(site: Site, rs: seq<Record>, x: Id) returns (at: seq<nat>)
    ensures Duplicates(site, rs, x, at, Dups(site, rs, x))
  {
    if rs == [] {
      at := [];
    } else {
      var n := |rs| - 1;
      var init, r := rs[..n], rs[n];
      assert rs == init + [r];
      at := DupsInOrder(site, init, x);
      DuplicatesSnoc(site, init, r, x, at, Dups(site, init, x));
      at := if IdOf(site, r) == x then at + [n] else at;
    }
  }

  // ---------------------------------------------------------------------------------------------
  // Each field of the entity.

  ghost predicate FirstAt<T(!new)>(ds: seq<Record>, get: Record -> T, empty: T, k: nat) {
    k < |ds| && get(ds[k]) != empty && forall i: nat :: i < k ==> get(ds[i]) == empty
  }

  // v is the first value there is.
  ghost predicate FirstValue<T(!new)>(ds: seq<Record>, get: Record -> T, empty: T, v: T) {
    && (v == empty <==> forall k: nat :: k < |ds| ==> get(ds[k]) == empty)
    && forall k: nat :: FirstAt(ds, get, empty, k) ==> v == get(ds[k])
  }

  lemma {:induction false} FirstValueNext<T(!new)>(ds: seq<Record>, get: Record -> T, empty: T, v: T, v': T)
    requires ds != [] && FirstValue(ds[1..], get, empty, v)
    requires v' == if get(ds[0]) != empty then get(ds[0]) else v
    ensures FirstValue(ds, get, empty, v')
  {
    var rest := ds[1..];
    assert forall k: nat :: 0 < k < |ds| ==> ds[k] == rest[k - 1];
    forall k: nat | FirstAt(ds, get, empty, k) ensures v' == get(ds[k]) {
      if k > 0 {
        forall i: nat | i < k - 1 ensures get(rest[i]) == empty {
          assert rest[i] == ds[i + 1];
        }
        assert FirstAt(rest, get, empty, k - 1);
      }
    }
    if get(ds[0]) == empty && forall k: nat :: k < |rest| ==> get(rest[k]) == empty {
      forall k: nat | k < |ds| ensures get(ds[k]) == empty {
        assert k > 0 ==> ds[k] == rest[k - 1];
      }
    }
    if forall k: nat :: k < |ds| ==> get(ds[k]) == empty {
      forall k: nat | k < |rest| ensures get(rest[k]) == empty {
        assert rest[k] == ds[k + 1];
      }
    }
  }

  lemma {:induction false} TextIsFirst(f: Text, ds: seq<Record>, get: Record -> string)
    requires forall r :: get(r) == Get(f, r)
    ensures FirstValue(ds, get, "", FirstText(f, ds))
  {
    if ds != [] {
      TextIsFirst(f, ds[1..], get);
      FirstValueNext(ds, get, "", FirstText(f, ds[1..]), FirstText(f, ds));
    }
  }

  lemma {:induction false} LineIsFirst(f: Line, ds: seq<Record>, get: Record -> nat)
    requires forall r :: get(r) == LineOf(f, r)
    ensures FirstValue(ds, get, 0, FirstLine(f, ds))
  {
    if ds != [] {
      LineIsFirst(f, ds[1..], get);
      FirstValueNext(ds, get, 0, FirstLine(f, ds[1..]), FirstLine(f, ds));
    }
  }

  // Record k is the first with a subtype that is neither empty nor the sentinel's.
  ghost predicate FirstReal(site: Site, ds: seq<Record>, k: nat) {
    && k < |ds| && ds[k].subtype != "" && ds[k].subtype != site.sentinel
    && forall i: nat :: i < k ==> ds[i].subtype == "" || ds[i].subtype == site.sentinel
  }

  // The entity's names, span, signature and language: each the first there is, but that the first real subtype
  // beats the sentinel's, and brings its qualified name along if a sentinel came before it and it has one.
  lemma NodeInFields(site: Site, ds: seq<Record>)
    requires site.sentinel != "" && ds != []
    ensures var n := NodeOf(site, ds);
      && n.id == EntityID(site.repo, ds[0].kind, ds[0].name, ds[0].file)
      && n.kind == ds[0].kind && n.name == ds[0].name && n.file == ds[0].file
      && FirstValue(ds, TheStart(), 0, n.startLine) && FirstValue(ds, TheEnd(), 0, n.endLine)
      && FirstValue(ds, TheSignature(), "", n.signature) && FirstValue(ds, TheLanguage(), "", n.language)
    ensures var n := NodeOf(site, ds);
      && (forall k: nat :: FirstReal(site, ds, k) ==> n.subtype == ds[k].subtype)
      && ((forall k: nat :: !FirstReal(site, ds, k)) ==> FirstValue(ds, TheSubtype(), "", n.subtype))
    ensures var n := NodeOf(site, ds);
      if exists k: nat, i: nat :: FirstReal(site, ds, k) && i < k && ds[i].subtype == site.sentinel
                                  && ds[k].qualifiedName != ""
      then forall k: nat :: FirstReal(site, ds, k) ==> n.qualifiedName == ds[k].qualifiedName
      else FirstValue(ds, TheQualifiedName(), "", n.qualifiedName)
  {
    LineIsFirst(Start, ds, TheStart());
    LineIsFirst(End, ds, TheEnd());
    TextIsFirst(Signature, ds, TheSignature());
    TextIsFirst(Language, ds, TheLanguage());
    TextIsFirst(Subtype, ds, TheSubtype());
    TextIsFirst(QualifiedName, ds, TheQualifiedName());
    RealIsGenuine(site, ds);
  }

  lemma RealIsGenuine(site: Site, ds: seq<Record>)
    ensures var j := FirstGenuine(site, ds); forall k: nat :: FirstReal(site, ds, k) <==> k == j && j < |ds|
    ensures HasSentinel(site, ds[..FirstGenuine(site, ds)]) <==>
      exists i: nat :: i < FirstGenuine(site, ds) && ds[i].subtype == site.sentinel
  {
    var j := FirstGenuine(site, ds);
    if HasSentinel(site, ds[..j]) {
      var r :| r in ds[..j] && r.subtype == site.sentinel;
      var i :| 0 <= i < j && ds[..j][i] == r;
    }
    if i: nat :| i < j && ds[i].subtype == site.sentinel {
      assert ds[..j][i] in ds[..j];
    }
  }

  // The entity's properties: under every key the first value there is; but the module is the repository's one
  // module for a sourced record, else the first record's own, else derived from its file.
  lemma {:induction false} PropsInFields(site: Site, ds: seq<Record>, key: string)
    requires ds != []
    ensures var props := PropsOf(site, ds);
      if key == "module"
      then key in props && props[key] == (if site.unit != "" && ds[0].file != "" then site.unit
                                          else if key in ds[0].props then ds[0].props[key]
                                          else site.derive(ds[0].file))
      else FirstValue(ds, TheProp(key), None, if key in props then Some(props[key]) else None)
  {
    var props := PropsOf(site, ds);
    if |ds| == 1 {
    } else {
      var init, last := ds[..|ds| - 1], ds[|ds| - 1];
      PropsInFields(site, init, key);
      if key != "module" {
        var v, v' := Lookup(PropsOf(site, init), key), Lookup(props, key);
        assert ds == init + [last];
        FirstValueSnoc(init, last, TheProp(key), None, v, v');
      }
    }
  }

  lemma FirstValueSnoc<T(!new)>(init: seq<Record>, last: Record, get: Record -> T, empty: T, v: T, v': T)
    requires FirstValue(init, get, empty, v) && v' == if v != empty then v else get(last)
    ensures FirstValue(init + [last], get, empty, v')
  {
    var ds, n := init + [last], |init|;
    assert ds[n] == last && forall k: nat :: k < n ==> ds[k] == init[k];
    forall k: nat | FirstAt(ds, get, empty, k) ensures v' == get(ds[k]) {
      if k < n {
        assert FirstAt(init, get, empty, k);
      }
    }
  }

  // ---------------------------------------------------------------------------------------------
  // The relationships.

  // Edge k is the first of its relationship ID.
  ghost predicate FirstEdge(es: seq<Edge>, k: nat) {
    k < |es| && forall i: nat :: i < k ==> IdText(es[i]) != IdText(es[k])
  }

  function IdText(e: Edge): string {
    e.from + NUL + e.to + NUL + e.kind
  }

  // Row m says of edge at[m] all that the edge says.
  ghost predicate RowsOf(es: seq<Edge>, at: seq<nat>, rows: seq<Rel>) {
    && |at| == |rows| && (forall m, n :: 0 <= m < n < |at| ==> at[m] < at[n])
    && (forall m :: 0 <= m < |at| ==> FirstEdge(es, at[m]) && Says(rows[m], es[at[m]]))
    && (forall k: nat :: FirstEdge(es, k) ==> k in at)
  }

  predicate Says(r: Rel, e: Edge) {
    r.id == IdText(e) && r.from == e.from && r.to == e.to && r.kind == e.kind && r.props == e.props
    && r.confidence == e.confidence
  }

  lemma RowsOfSnoc(init: seq<Edge>, e: Edge, at: seq<nat>, rows: seq<Rel>)
    requires RowsOf(init, at, rows)
    ensures (exists r :: r in rows && r.id == IdText(e)) ==> RowsOf(init + [e], at, rows)
    ensures (forall r :: r in rows ==> r.id != IdText(e)) ==> RowsOf(init + [e], at + [|init|], rows + [RowOf(e)])
  {
    var es, n := init + [e], |init|;
    assert es[n] == e && forall k: nat :: k < n ==> es[k] == init[k];
    forall k: nat ensures k < n ==> (FirstEdge(es, k) <==> FirstEdge(init, k)) {
    }
    MetIff(init, at, rows, e);
  }

  // The ID of an edge has a row if and only if an edge before it has that ID.
  lemma MetIff(es: seq<Edge>, at: seq<nat>, rows: seq<Rel>, e: Edge)
    requires RowsOf(es, at, rows)
    ensures (exists r :: r in rows && r.id == IdText(e)) <==> exists i: nat :: i < |es| && IdText(es[i]) == IdText(e)
  {
    if r :| r in rows && r.id == IdText(e) {
      var m :| 0 <= m < |rows| && rows[m] == r;
      assert IdText(es[at[m]]) == IdText(e);
    }
    if i: nat :| i < |es| && IdText(es[i]) == IdText(e) {
      var k := EarliestEdge(es, i);
      assert k in at;
      var m :| 0 <= m < |at| && at[m] == k;
      assert rows[m] in rows;
    }
  }

  lemma {:induction false} EarliestEdge(es: seq<Edge>, i: nat) returns (k: nat)
    requires i < |es|
    ensures k <= i && FirstEdge(es, k) && IdText(es[k]) == IdText(es[i])
    decreases i
  {
    if j: nat :| j < i && IdText(es[j]) == IdText(es[i]) {
      k := EarliestEdge(es, j);
    } else {
      k := i;
    }
  }

  // There is one row for the first edge of each ID, in order, and it has that edge's payload.
  lemma {:induction false} RowsInOrder(es: seq<Edge>) returns (at: seq<nat>)
    ensures RowsOf(es, at, Rows(es))
  {
    if es == [] {
      at := [];
    } else {
      var n := |es| - 1;
      var init, e := es[..n], es[n];
      assert es == init + [e];
      at := RowsInOrder(init);
      RowsOfSnoc(init, e, at, Rows(init));
      at := if RowOf(e).id in RowIds(Rows(init)) then at else at + [n];
    }
  }

  // The edges of a record are met at its place, an empty source standing for the record's ID.
  lemma {:induction false} EmbeddedConcat(site: Site, a: seq<Record>, b: seq<Record>)
    ensures Embedded(site, a + b) == Embedded(site, a) + Embedded(site, b)
  {
    if b == [] {
      assert a + b == a && Embedded(site, a) + [] == Embedded(site, a);
    } else {
      var init, last := b[..|b| - 1], b[|b| - 1];
      assert (a + b)[..|a + b| - 1] == a + init;
      EmbeddedConcat(site, a, init);
    }
  }

  lemma EmbeddedOne(site: Site, rs: seq<Record>, r: Record)
    requires rs == [r]
    ensures var es := Embedded(site, rs);
      && |es| == |r.rels|
      && forall i :: 0 <= i < |es| ==>
           es[i] == if r.rels[i].from == "" then r.rels[i].(from := EntityID(site.repo, r.kind, r.name, r.file))
                    else r.rels[i]
  {
    var none := rs[..0];
    assert Embedded(site, none) == [];
    assert Embedded(site, rs) == BindAll(r.rels, IdOf(site, r));
  }

  // The edges are met stream by stream; so an edge of a record beats any other of its ID, a standalone edge the
  // late ones, and these have lost their confidence.
  lemma StreamsInOrder(site: Site, rs: seq<Record>, pass2: seq<Edge>, contains: seq<Edge>, joins: seq<Edge>, i: nat)
    requires i < |AllEdges(site, rs, pass2, contains, joins)|
    ensures var es, m := AllEdges(site, rs, pass2, contains, joins), |Embedded(site, rs)|;
      && |es| == m + |pass2| + |contains| + |joins|
      && es[i] == if i < m then Embedded(site, rs)[i]
                  else if i < m + |pass2| then pass2[i - m]
                  else if i < m + |pass2| + |contains| then contains[i - m - |pass2|].(confidence := 0.0)
                  else joins[i - m - |pass2| - |contains|].(confidence := 0.0)
  {
  }
}
