// What the incremental merge guarantees: no new dangling edge and no growth.
module MergeLaws {
  import opened Graph
  import opened Merge

  // ---------------------------------------------------------------------------------------------
  // No new dangling edge.

  // Every endpoint of a surviving edge that was an entity before is an entity after. This covers rows
  // that end up deduplicated or superseded: their synthetic endpoints are re-attached all the same.
  lemma NoNewDangling(emitted: Doc, prev: Doc, changed: set<string>, carried: seq<Rel>, out: Doc)
    requires Merged(emitted, prev, changed, carried, out)
    ensures forall r, x :: r in Stream(emitted, prev, changed) && x in {r.from, r.to} && x in Ids(prev.entities) ==>
      x in Ids(out.entities)
    ensures forall r, x :: r in carried && x in {r.from, r.to} && x in Ids(prev.entities) ==> x in Ids(out.entities)
  {
    forall r, x | r in Stream(emitted, prev, changed) && x in {r.from, r.to} && x in Ids(prev.entities)
      ensures x in Ids(out.entities)
    {
      EndpointLives(emitted, prev, changed, r, x);
    }
  }

  lemma EndpointLives(emitted: Doc, prev: Doc, changed: set<string>, r: Rel, x: Id)
    requires r in Stream(emitted, prev, changed) && x in {r.from, r.to} && x in Ids(prev.entities)
    ensures x in Ids(MergedEntities(emitted, prev, changed))
  {
    var live := LiveIds(emitted, prev, changed);
    var attached := AttachedSynthetics(prev.entities, live, Endpoints(Stream(emitted, prev, changed)));
    assert !Stale(r, ChangedIds(prev.entities, changed), live);
    var e :| e in prev.entities && e.id == x;
    if e.file != "" && e.file in changed {
      assert x in ChangedIds(prev.entities, changed);
    }
    assert x in live + Ids(attached);
  }

  // ---------------------------------------------------------------------------------------------
  // No growth.

  lemma DistinctInitKeys(init: seq<Rel>, r: Rel)
    requires DistinctKeys(init + [r])
    ensures DistinctKeys(init) && KeyOf(r) !in Keys(init)
  {
    var rs := init + [r];
    assert forall i :: 0 <= i < |init| ==> rs[i] == init[i];
    forall q | q in init ensures KeyOf(q) != KeyOf(r) {
      var i :| 0 <= i < |init| && init[i] == q;
      assert rs[i] == q && rs[|init|] == r;
    }
  }

  lemma {:induction false} Subset<T>(a: set<T>, b: set<T>)
    requires a <= b
    ensures |a| <= |b|
  {
    if a != {} {
      var x :| x in a;
      Subset(a - {x}, b - {x});
    }
  }

  ghost predicate IdDeterminesTriple(rs: seq<Rel>) {
    forall r, q :: r in rs && q in rs && RelID(r) == RelID(q) ==> r.from == q.from && r.to == q.to && r.kind == q.kind
  }

  // No row leaves from an ID that the fresh graph anchors in a re-extracted file.
  ghost predicate OwnersKept(emitted: Doc, changed: set<string>, rows: seq<Rel>) {
    forall r :: r in rows ==> r.from !in ChangedIds(emitted.entities, changed)
  }

  lemma {:induction false} HitsConcat(a: seq<Rel>, b: seq<Rel>, emittedKeys: set<RelKey>, id: Id)
    ensures Hits(a + b, emittedKeys, id) == Hits(a, emittedKeys, id) + Hits(b, emittedKeys, id)
  {
    if b == [] {
      assert a + b == a;
    } else {
      assert (a + b)[..|a + b| - 1] == a + b[..|b| - 1];
      HitsConcat(a, b[..|b| - 1], emittedKeys, id);
    }
  }

  lemma {:induction false} SurvivorsConcat(a: seq<Rel>, b: seq<Rel>, changedIds: set<Id>, live: set<Id>)
    ensures Survivors(a + b, changedIds, live) == Survivors(a, changedIds, live) + Survivors(b, changedIds, live)
  {
    if b == [] {
      assert a + b == a;
    } else {
      var init, r := b[..|b| - 1], b[|b| - 1];
      assert a + b == a + init + [r] && b == init + [r];
      SurvivorsConcat(a, init, changedIds, live);
      SurvivorsSnoc(a + init, r, changedIds, live);
      SurvivorsSnoc(init, r, changedIds, live);
    }
  }

  lemma DropSnoc(init: seq<Rel>, r: Rel)
    ensures DropHierarchySelfLoops(init + [r]) ==
      if HierarchySelfLoop(r) then DropHierarchySelfLoops(init) else DropHierarchySelfLoops(init) + [r]
  {
    assert (init + [r])[..|init|] == init;
  }

  // What one more fresh row leaves in the second stream.
  lemma BackSnoc(init: seq<Rel>, r: Rel, changedIds: set<Id>, live: set<Id>)
    ensures var back := Survivors(DropHierarchySelfLoops(init), changedIds, live);
      Survivors(DropHierarchySelfLoops(init + [r]), changedIds, live) ==
        if HierarchySelfLoop(r) || Stale(r, changedIds, live) then back else back + [Normal(r)]
  {
    DropSnoc(init, r);
    SurvivorsSnoc(DropHierarchySelfLoops(init), r, changedIds, live);
  }

  // That row hits its identity once.
  lemma OneMoreHit(back: seq<Rel>, back': seq<Rel>, r: Rel, emittedKeys: set<RelKey>, lost: bool, id: Id)
    requires back' == (if lost then back else back + [Normal(r)]) && KeyOf(r) in emittedKeys
      && (RelID(r) == id ==> !lost)
    ensures Hits(back', emittedKeys, id) == Hits(back, emittedKeys, id) + if RelID(r) == id then 1 else 0
  {
    if !lost {
      assert back'[..|back|] == back && back'[|back|] == Normal(r);
      assert KeyOf(Normal(r)) == KeyOf(r) && RelID(Normal(r)) == RelID(r);
    }
  }

  // Fresh rows of an identity that are neither self-loops nor stale all come back as duplicates.
  lemma {:induction false} FreshRowsHit(rs: seq<Rel>, emittedKeys: set<RelKey>, changedIds: set<Id>, live: set<Id>,
                                        id: Id)
    requires forall r :: r in rs ==> KeyOf(r) in emittedKeys
    requires forall r :: r in rs && RelID(r) == id ==> !HierarchySelfLoop(r) && !Stale(r, changedIds, live)
    ensures Hits(Survivors(DropHierarchySelfLoops(rs), changedIds, live), emittedKeys, id) == Budget(rs, id)
  {
    if rs != [] {
      var init, r := rs[..|rs| - 1], rs[|rs| - 1];
      assert rs == init + [r];
      FreshRowsHit(init, emittedKeys, changedIds, live, id);
      BackSnoc(init, r, changedIds, live);
      OneMoreHit(Survivors(DropHierarchySelfLoops(init), changedIds, live),
                 Survivors(DropHierarchySelfLoops(rs), changedIds, live), r, emittedKeys,
                 HierarchySelfLoop(r) || Stale(r, changedIds, live), id);
    }
  }

  lemma {:induction false} NothingStale(rs: seq<Rel>, changedIds: set<Id>, live: set<Id>)
    requires forall r :: r in rs ==> r == Normal(r) && !Stale(r, changedIds, live)
    ensures Survivors(rs, changedIds, live) == rs
  {
    if rs != [] {
      assert rs == rs[..|rs| - 1] + [rs[|rs| - 1]];
      NothingStale(rs[..|rs| - 1], changedIds, live);
    }
  }

  lemma SameChangedIds(emitted: Doc, prev: Doc, changed: set<string>)
    ensures ChangedIds(MergedEntities(emitted, prev, changed), changed) == ChangedIds(emitted.entities, changed)
  {
  }

  // The second merge sees every carried row again, and every fresh row as an exact duplicate, so its
  // budget is spent before any sibling could be.
  lemma SecondStream(emitted: Doc, prev: Doc, changed: set<string>, carried: seq<Rel>, out: Doc)
    requires Merged(emitted, prev, changed, carried, out)
    requires OwnersKept(emitted, changed, DropHierarchySelfLoops(carried))
    ensures ChangedIds(out.entities, changed) == ChangedIds(emitted.entities, changed)
    ensures Stream(emitted, out, changed) ==
      Survivors(DropHierarchySelfLoops(emitted.rels), ChangedIds(emitted.entities, changed),
        LiveIds(emitted, out, changed))
      + DropHierarchySelfLoops(carried)
  {
    var changedIds, live := ChangedIds(emitted.entities, changed), LiveIds(emitted, out, changed);
    SameChangedIds(emitted, prev, changed);
    DropHierarchySelfLoopsConcat(emitted.rels, carried);
    var kept := DropHierarchySelfLoops(carried);
    SurvivorsConcat(DropHierarchySelfLoops(emitted.rels), kept, changedIds, live);
    forall r | r in kept ensures r == Normal(r) && !Stale(r, changedIds, live) {
      assert r in carried && r in Stream(emitted, prev, changed);
      assert changedIds <= live;
    }
    NothingStale(kept, changedIds, live);
  }

  lemma BudgetComesBack(emitted: Doc, prev: Doc, changed: set<string>, carried: seq<Rel>, out: Doc, r: Rel)
    requires Merged(emitted, prev, changed, carried, out)
    requires IdDeterminesTriple(emitted.rels + prev.rels)
    requires OwnersKept(emitted, changed, DropHierarchySelfLoops(carried))
    requires r in DropHierarchySelfLoops(carried)
    ensures Budget(emitted.rels, RelID(r)) <= Hits(Stream(emitted, out, changed), Keys(emitted.rels), RelID(r))
  {
    var changedIds, live := ChangedIds(emitted.entities, changed), LiveIds(emitted, out, changed);
    SecondStream(emitted, prev, changed, carried, out);
    assert r in Stream(emitted, prev, changed);
    forall q | q in emitted.rels && RelID(q) == RelID(r)
      ensures !HierarchySelfLoop(q) && !Stale(q, changedIds, live)
    {
      SameTriple(emitted, prev, changed, q, r);
      assert changedIds <= live;
    }
    FreshRowsHit(emitted.rels, Keys(emitted.rels), changedIds, live, RelID(r));
    HitsConcat(Survivors(DropHierarchySelfLoops(emitted.rels), changedIds, live), DropHierarchySelfLoops(carried),
               Keys(emitted.rels), RelID(r));
  }

  // What the second merge can still lose or carry is exactly what the first one carried.
  lemma SecondContender(emitted: Doc, prev: Doc, changed: set<string>, carried: seq<Rel>, out: Doc, r: Rel)
    requires Merged(emitted, prev, changed, carried, out)
    requires OwnersKept(emitted, changed, DropHierarchySelfLoops(carried))
    ensures r in Stream(emitted, out, changed) && KeyOf(r) !in Keys(emitted.rels) <==>
      r in DropHierarchySelfLoops(carried)
  {
    SecondStream(emitted, prev, changed, carried, out);
    var changedIds, live := ChangedIds(emitted.entities, changed), LiveIds(emitted, out, changed);
    if r in Survivors(DropHierarchySelfLoops(emitted.rels), changedIds, live) {
      DuplicateOfFresh(emitted.rels, changedIds, live, r);
    }
  }

  // A stream whose budgets are all spent by exact duplicates loses nothing.
  lemma SpentStream(emitted: seq<Rel>, stream: seq<Rel>, kept: seq<Rel>, carried: seq<Rel>)
    requires CarriesExactly(emitted, stream, carried)
    requires forall r :: r in stream && KeyOf(r) !in Keys(emitted) <==> r in kept
    requires forall r :: r in kept ==> Budget(emitted, RelID(r)) <= Hits(stream, Keys(emitted), RelID(r))
    ensures forall r :: r in carried ==> r in kept
    ensures forall r :: r in kept ==> KeyOf(r) in Keys(carried)
  {
    forall r | r in kept ensures KeyOf(r) in Keys(carried) {
      var contenders := Contenders(stream, Keys(emitted), RelID(r));
      assert contenders[0..] == contenders && r in contenders;
      assert KeyOf(r) in Keys(Settled(emitted, stream, KeyOf(r).id));
    }
  }

  // Duplicate-free sequences with the same members have the same multiset.
  lemma {:induction false} SameRows(a: seq<Rel>, b: seq<Rel>)
    requires DistinctKeys(a) && DistinctKeys(b)
    requires forall r :: r in a <==> r in b
    ensures multiset(a) == multiset(b)
  {
    forall r ensures multiset(a)[r] == multiset(b)[r] {
      OnceEach(a, r);
      OnceEach(b, r);
    }
  }

  lemma {:induction false} OnceEach(a: seq<Rel>, r: Rel)
    requires DistinctKeys(a)
    ensures multiset(a)[r] == if r in a then 1 else 0
  {
    if a != [] {
      var init, last := a[..|a| - 1], a[|a| - 1];
      assert a == init + [last];
      DistinctInitKeys(init, last);
      OnceEach(init, r);
    }
  }

  // Merging the same fresh graph again, into the outcome of the first merge, gives the same rows again
  // exactly when no row the first merge carried leaves from an ID the fresh graph re-extracted.
  lemma NoGrowthRels(emitted: Doc, prev: Doc, changed: set<string>, carried: seq<Rel>, out: Doc,
                     carried': seq<Rel>, out': Doc)
    requires Merged(emitted, prev, changed, carried, out) && Merged(emitted, out, changed, carried', out')
    requires IdDeterminesTriple(emitted.rels + prev.rels)
    ensures multiset(out'.rels) == multiset(out.rels) <==>
      OwnersKept(emitted, changed, DropHierarchySelfLoops(carried))
  {
    if OwnersKept(emitted, changed, DropHierarchySelfLoops(carried)) {
      SameRowsAgain(emitted, prev, changed, carried, out, carried', out');
    } else {
      var r :| r in DropHierarchySelfLoops(carried) && r.from in ChangedIds(emitted.entities, changed);
      RowLost(emitted, prev, changed, carried, out, carried', out', r);
      OtherRows(out.rels, out'.rels, r);
    }
  }

  lemma OtherRows(a: seq<Rel>, b: seq<Rel>, r: Rel)
    requires r in a && r !in b
    ensures multiset(a) != multiset(b)
  {
    assert multiset(a)[r] > 0 && multiset(b)[r] == 0;
  }

  lemma RowLost(emitted: Doc, prev: Doc, changed: set<string>, carried: seq<Rel>, out: Doc,
                carried': seq<Rel>, out': Doc, r: Rel)
    requires Merged(emitted, prev, changed, carried, out) && Merged(emitted, out, changed, carried', out')
    requires r in DropHierarchySelfLoops(carried) && r.from in ChangedIds(emitted.entities, changed)
    ensures r in out.rels && r !in out'.rels
  {
    var e :| e in emitted.entities && e.file != "" && e.file in changed && e.id == r.from;
    assert e in out.entities && r.from in ChangedIds(out.entities, changed);
    assert r in carried && KeyOf(r) !in Keys(emitted.rels);
    assert Stale(r, ChangedIds(out.entities, changed), LiveIds(emitted, out, changed));
  }

  lemma SameRowsAgain(emitted: Doc, prev: Doc, changed: set<string>, carried: seq<Rel>, out: Doc,
                      carried': seq<Rel>, out': Doc)
    requires Merged(emitted, prev, changed, carried, out) && Merged(emitted, out, changed, carried', out')
    requires IdDeterminesTriple(emitted.rels + prev.rels)
    requires OwnersKept(emitted, changed, DropHierarchySelfLoops(carried))
    ensures multiset(out'.rels) == multiset(out.rels)
  {
    var kept := DropHierarchySelfLoops(carried);
    DistinctSubsequence(carried);
    forall r {
      SecondContender(emitted, prev, changed, carried, out, r);
    }
    forall r | r in kept {
      BudgetComesBack(emitted, prev, changed, carried, out, r);
    }
    SpentStream(emitted.rels, Stream(emitted, out, changed), kept, carried');
    forall r | r in kept ensures r in carried' {
      var q :| q in carried' && KeyOf(q) == KeyOf(r);
      SameKeySameRow(kept, q, r);
    }
    SameRows(carried', kept);
    DropHierarchySelfLoopsConcat(emitted.rels, carried);
    DropHierarchySelfLoopsConcat(emitted.rels, carried');
    NothingToDrop(carried');
  }

  lemma SameKeySameRow(rs: seq<Rel>, q: Rel, r: Rel)
    requires DistinctKeys(rs) && q in rs && r in rs && KeyOf(q) == KeyOf(r)
    ensures q == r
  {
    var i :| 0 <= i < |rs| && rs[i] == q;
    var j :| 0 <= j < |rs| && rs[j] == r;
  }

  lemma {:induction false} DistinctSubsequence(rs: seq<Rel>)
    requires DistinctKeys(rs)
    ensures DistinctKeys(DropHierarchySelfLoops(rs))
  {
    if rs != [] {
      var init, r := rs[..|rs| - 1], rs[|rs| - 1];
      assert rs == init + [r];
      DistinctInitKeys(init, r);
      DistinctSubsequence(init);
    }
  }

  lemma DuplicateOfFresh(rs: seq<Rel>, changedIds: set<Id>, live: set<Id>, r: Rel)
    requires r in Survivors(DropHierarchySelfLoops(rs), changedIds, live)
    ensures KeyOf(r) in Keys(rs)
  {
    var p :| p in DropHierarchySelfLoops(rs) && r == Normal(p);
    assert p in rs && KeyOf(p) == KeyOf(r);
  }

  // A stream row shares endpoints and kind with every fresh row of its identity.
  lemma SameTriple(emitted: Doc, prev: Doc, changed: set<string>, q: Rel, r: Rel)
    requires IdDeterminesTriple(emitted.rels + prev.rels)
    requires q in emitted.rels && r in Stream(emitted, prev, changed) && RelID(q) == RelID(r)
    ensures q.from == r.from && q.to == r.to && q.kind == r.kind
  {
    var p :| p in prev.rels && r == Normal(p);
    assert q in emitted.rels + prev.rels && p in emitted.rels + prev.rels;
  }

  ghost predicate DistinctIds(es: seq<Entity>) {
    forall i, j :: 0 <= i < |es| && 0 <= j < |es| && es[i].id == es[j].id ==> i == j
  }

  lemma DistinctInit(init: seq<Entity>, e: Entity)
    requires DistinctIds(init + [e])
    ensures DistinctIds(init) && e.id !in Ids(init)
  {
    var b := init + [e];
    forall i, j | 0 <= i < |init| && 0 <= j < |init| && init[i].id == init[j].id ensures i == j {
      assert b[i].id == b[j].id;
    }
    forall q | q in init ensures q.id != e.id {
      var i :| 0 <= i < |init| && init[i] == q;
      assert b[i] == q && b[|init|] == e;
    }
  }

  // Entities the first pass skips leave no trace; entities it keeps are appended in order.
  lemma {:induction false} CarriedSkips(a: seq<Entity>, b: seq<Entity>, changed: set<string>, emitted: set<Id>)
    requires forall e :: e in b ==> e.file == "" || e.file in changed || e.id in emitted
    ensures CarriedEntities(a + b, changed, emitted) == CarriedEntities(a, changed, emitted)
  {
    if b == [] {
      assert a + b == a;
    } else {
      assert a + b == a + b[..|b| - 1] + [b[|b| - 1]];
      CarriedSkips(a, b[..|b| - 1], changed, emitted);
      CarriedSnoc(a + b[..|b| - 1], b[|b| - 1], changed, emitted);
    }
  }

  lemma {:induction false} CarriedKeeps(a: seq<Entity>, b: seq<Entity>, changed: set<string>, emitted: set<Id>)
    requires CarriedEntities(a, changed, emitted) == []
    requires forall e :: e in b ==> e.file != "" && e.file !in changed && e.id !in emitted
    requires DistinctIds(b)
    ensures CarriedEntities(a + b, changed, emitted) == b
  {
    if b == [] {
      assert a + b == a;
    } else {
      var init, e := b[..|b| - 1], b[|b| - 1];
      assert a + b == a + init + [e] && b == init + [e];
      DistinctInit(init, e);
      CarriedKeeps(a, init, changed, emitted);
      CarriedSnoc(a + init, e, changed, emitted);
    }
  }

  lemma {:induction false} AttachedSkips(a: seq<Entity>, b: seq<Entity>, live: set<Id>, referenced: set<Id>)
    requires forall e :: e in b ==> e.file != "" || e.id in live
    ensures AttachedSynthetics(a + b, live, referenced) == AttachedSynthetics(a, live, referenced)
  {
    if b == [] {
      assert a + b == a;
    } else {
      assert a + b == a + b[..|b| - 1] + [b[|b| - 1]];
      AttachedSkips(a, b[..|b| - 1], live, referenced);
      AttachedSnoc(a + b[..|b| - 1], b[|b| - 1], live, referenced);
    }
  }

  lemma {:induction false} AttachedKeeps(a: seq<Entity>, b: seq<Entity>, live: set<Id>, referenced: set<Id>)
    requires AttachedSynthetics(a, live, referenced) == []
    requires forall e :: e in b ==> e.file == "" && e.id in referenced && e.id !in live
    requires DistinctIds(b)
    ensures AttachedSynthetics(a + b, live, referenced) == b
  {
    if b == [] {
      assert a + b == a;
    } else {
      var init, e := b[..|b| - 1], b[|b| - 1];
      assert a + b == a + init + [e] && b == init + [e];
      DistinctInit(init, e);
      AttachedKeeps(a, init, live, referenced);
      AttachedSnoc(a + init, e, live, referenced);
    }
  }

  // Every endpoint of a surviving row is still referenced the second time round, even if the row itself
  // was deduplicated or superseded: the fresh row it gave way to has the same endpoints.
  lemma StillReferenced(emitted: Doc, prev: Doc, changed: set<string>, carried: seq<Rel>, out: Doc, r: Rel)
    requires Merged(emitted, prev, changed, carried, out)
    requires IdDeterminesTriple(emitted.rels + prev.rels)
    requires OwnersKept(emitted, changed, Stream(emitted, prev, changed))
    requires r in Stream(emitted, prev, changed) && !HierarchySelfLoop(r)
    ensures {r.from, r.to} <= Endpoints(Stream(emitted, out, changed))
  {
    SecondStream(emitted, prev, changed, carried, out);
    var again := DropHierarchySelfLoops(emitted.rels);
    var changedIds, live := ChangedIds(emitted.entities, changed), LiveIds(emitted, out, changed);
    if KeyOf(r) in Keys(carried) {
      var q :| q in carried && KeyOf(q) == KeyOf(r);
      assert q in DropHierarchySelfLoops(carried);
      RowReferenced(Survivors(again, changedIds, live) + DropHierarchySelfLoops(carried), q);
    } else {
      var q := FreshWitness(emitted.rels, Stream(emitted, prev, changed), carried, r);
      SameTriple(emitted, prev, changed, q, r);
      FreshSurvives(emitted.rels, changedIds, live, q);
      RowReferenced(Survivors(again, changedIds, live) + DropHierarchySelfLoops(carried), Normal(q));
    }
  }

  lemma RowReferenced(stream: seq<Rel>, r: Rel)
    requires r in stream
    ensures {r.from, r.to} <= Endpoints(stream)
  {
  }

  lemma FreshSurvives(rs: seq<Rel>, changedIds: set<Id>, live: set<Id>, q: Rel)
    requires q in rs && !HierarchySelfLoop(q) && q.from !in changedIds && changedIds <= live
    ensures Normal(q) in Survivors(DropHierarchySelfLoops(rs), changedIds, live)
  {
    assert q in DropHierarchySelfLoops(rs);
  }

  // A stream row that was not carried gave way to a fresh row of its identity.
  lemma FreshWitness(emitted: seq<Rel>, stream: seq<Rel>, carried: seq<Rel>, r: Rel) returns (q: Rel)
    requires CarriesExactly(emitted, stream, carried)
    requires r in stream && KeyOf(r) !in Keys(carried)
    ensures q in emitted && RelID(q) == RelID(r)
  {
    if KeyOf(r) in Keys(emitted) {
      q :| q in emitted && KeyOf(q) == KeyOf(r);
    } else {
      var contenders := Contenders(stream, Keys(emitted), RelID(r));
      assert r in contenders && contenders[0..] == contenders;
      assert KeyOf(r) !in Keys(Settled(emitted, stream, KeyOf(r).id));
      assert Budget(emitted, RelID(r)) > 0;
      q := BudgetWitness(emitted, RelID(r));
    }
  }

  lemma {:induction false} BudgetWitness(emitted: seq<Rel>, id: Id) returns (q: Rel)
    requires Budget(emitted, id) > 0
    ensures q in emitted && RelID(q) == id
  {
    if RelID(emitted[|emitted| - 1]) == id {
      q := emitted[|emitted| - 1];
    } else {
      q := BudgetWitness(emitted[..|emitted| - 1], id);
      assert emitted == emitted[..|emitted| - 1] + [emitted[|emitted| - 1]];
    }
  }

  // x is an endpoint of a row that leaves from an ID the fresh graph did not re-extract.
  predicate Held(emitted: Doc, changed: set<string>, rels: seq<Rel>, x: Id) {
    exists r :: r in rels && r.from !in ChangedIds(emitted.entities, changed) && x in {r.from, r.to}
  }

  // What the second merge still references.
  lemma HeldIff(emitted: Doc, prev: Doc, changed: set<string>, carried: seq<Rel>, out: Doc, x: Id)
    requires Merged(emitted, prev, changed, carried, out)
    ensures x in Endpoints(Stream(emitted, out, changed)) <==> Held(emitted, changed, out.rels, x)
  {
    SameChangedIds(emitted, prev, changed);
    var changedIds, live := ChangedIds(emitted.entities, changed), LiveIds(emitted, out, changed);
    assert changedIds <= live;
    if x in Endpoints(Stream(emitted, out, changed)) {
      var r :| r in Stream(emitted, out, changed) && x in {r.from, r.to};
      var p :| p in out.rels && r == Normal(p);
      assert p.from !in changedIds && x in {p.from, p.to};
    }
    if Held(emitted, changed, out.rels, x) {
      var r :| r in out.rels && r.from !in changedIds && x in {r.from, r.to};
      RowReferenced(Stream(emitted, out, changed), Normal(r));
    }
  }

  // The placeholders the first merge attached.
  function Attached(emitted: Doc, prev: Doc, changed: set<string>): seq<Entity> {
    AttachedSynthetics(prev.entities, LiveIds(emitted, prev, changed), Endpoints(Stream(emitted, prev, changed)))
  }

  // The entity rows come back as well, in the same order, if and only if the rows of the first result that
  // do not leave from a re-extracted ID hold every placeholder attached.
  lemma NoGrowthEntities(emitted: Doc, prev: Doc, changed: set<string>, carried: seq<Rel>, out: Doc,
                         carried': seq<Rel>, out': Doc)
    requires Merged(emitted, prev, changed, carried, out) && Merged(emitted, out, changed, carried', out')
    ensures out'.entities == out.entities <==>
      forall e :: e in Attached(emitted, prev, changed) ==> Held(emitted, changed, out.rels, e.id)
  {
    if forall e :: e in Attached(emitted, prev, changed) ==> Held(emitted, changed, out.rels, e.id) {
      HeldComeBack(emitted, prev, changed, carried, out);
    } else {
      var e :| e in Attached(emitted, prev, changed) && !Held(emitted, changed, out.rels, e.id);
      HeldIff(emitted, prev, changed, carried, out, e.id);
      PlaceholderGone(emitted, prev, changed, carried, out, e);
      assert e in out.entities;
    }
  }

  lemma HeldComeBack(emitted: Doc, prev: Doc, changed: set<string>, carried: seq<Rel>, out: Doc)
    requires Merged(emitted, prev, changed, carried, out)
    requires forall e :: e in Attached(emitted, prev, changed) ==> Held(emitted, changed, out.rels, e.id)
    ensures MergedEntities(emitted, out, changed) == out.entities
  {
    var referenced := Endpoints(Stream(emitted, out, changed));
    forall e | e in Attached(emitted, prev, changed) ensures e.id in referenced {
      HeldIff(emitted, prev, changed, carried, out, e.id);
    }
    SameEntitiesAgain(emitted.entities, CarriedEntities(prev.entities, changed, Ids(emitted.entities)),
                      Attached(emitted, prev, changed), changed, referenced);
  }

  lemma PlaceholderGone(emitted: Doc, prev: Doc, changed: set<string>, carried: seq<Rel>, out: Doc, e: Entity)
    requires Merged(emitted, prev, changed, carried, out) && e in Attached(emitted, prev, changed)
    requires e.id !in Endpoints(Stream(emitted, out, changed))
    ensures e !in MergedEntities(emitted, out, changed)
  {
  }

  // If no surviving row at all leaves from a re-extracted ID, every placeholder is held.
  lemma OwnersKeptHold(emitted: Doc, prev: Doc, changed: set<string>, carried: seq<Rel>, out: Doc, e: Entity)
    requires Merged(emitted, prev, changed, carried, out) && e in Attached(emitted, prev, changed)
    requires IdDeterminesTriple(emitted.rels + prev.rels)
    requires OwnersKept(emitted, changed, Stream(emitted, prev, changed))
    requires forall r :: r in prev.rels ==> !HierarchySelfLoop(r)
    ensures Held(emitted, changed, out.rels, e.id)
  {
    var r :| r in Stream(emitted, prev, changed) && e.id in {r.from, r.to};
    assert exists p :: p in prev.rels && r == Normal(p);
    StillReferenced(emitted, prev, changed, carried, out, r);
    HeldIff(emitted, prev, changed, carried, out, e.id);
  }

  // An entity of a changed file and a row from it to a placeholder; the previous graph holds that very row
  // and the placeholder, and the entity is new to the file.
  predicate OneEdge(emitted: Doc, prev: Doc, changed: set<string>, entity: Entity, placeholder: Entity, row: Rel) {
    && emitted == Doc([entity], [row]) && prev == Doc([placeholder], [row])
    && entity.file in changed && entity.file != "" && placeholder.file == "" && entity.id != placeholder.id
    && row.from == entity.id && row.to == placeholder.id
  }

  // The first merge attaches the placeholder and carries no row.
  lemma FirstAttaches(emitted: Doc, prev: Doc, changed: set<string>, entity: Entity, placeholder: Entity, row: Rel,
                      carried: seq<Rel>, out: Doc)
    requires OneEdge(emitted, prev, changed, entity, placeholder, row) && Merged(emitted, prev, changed, carried, out)
    ensures placeholder.id in Ids(out.entities) && entity in out.entities
      && row.from in ChangedIds(out.entities, changed)
    ensures forall e :: e in out.entities ==> e in [entity, placeholder]
  {
    assert row in prev.rels && entity in emitted.entities && placeholder in prev.entities;
    RowReferenced(Stream(emitted, prev, changed), Normal(row));
  }

  lemma OnlyItsRow(emitted: Doc, prev: Doc, changed: set<string>, entity: Entity, placeholder: Entity, row: Rel,
                   carried: seq<Rel>, out: Doc)
    requires OneEdge(emitted, prev, changed, entity, placeholder, row) && Merged(emitted, prev, changed, carried, out)
    ensures forall r :: r !in carried
    ensures forall r :: r in out.rels ==> r == row
  {
    forall r | r in Stream(emitted, prev, changed) ensures KeyOf(r) in Keys(emitted.rels) {
      assert r == Normal(row) && KeyOf(r) == KeyOf(row) && row in emitted.rels;
    }
  }

  // The rows come back and the placeholder is lost.
  lemma PlaceholderLost(emitted: Doc, prev: Doc, changed: set<string>, entity: Entity, placeholder: Entity, row: Rel,
                        carried: seq<Rel>, out: Doc, carried': seq<Rel>, out': Doc)
    requires OneEdge(emitted, prev, changed, entity, placeholder, row)
    requires Merged(emitted, prev, changed, carried, out) && Merged(emitted, out, changed, carried', out')
    ensures multiset(out'.rels) == multiset(out.rels)
    ensures placeholder.id in Ids(out.entities) && placeholder.id !in Ids(out'.entities)
  {
    FirstAttaches(emitted, prev, changed, entity, placeholder, row, carried, out);
    OnlyItsRow(emitted, prev, changed, entity, placeholder, row, carried, out);
    SecondForgets(emitted, out, changed, entity, placeholder, row, carried', out');
    NoGrowthRels(emitted, prev, changed, carried, out, carried', out');
  }

  lemma SecondForgets(emitted: Doc, prev: Doc, changed: set<string>, entity: Entity, placeholder: Entity, row: Rel,
                      carried: seq<Rel>, out: Doc)
    requires emitted.entities == [entity] && entity.id != placeholder.id && Merged(emitted, prev, changed, carried, out)
    requires entity.file in changed && placeholder.file == ""
    requires forall e :: e in prev.entities ==> e in [entity, placeholder]
    requires row.from in ChangedIds(prev.entities, changed) && forall r :: r in prev.rels ==> r == row
    ensures placeholder.id !in Ids(out.entities)
  {
    forall r ensures r !in Stream(emitted, prev, changed) {
    }
  }

  // The passes find the same entities in what they left behind.
  lemma SameEntitiesAgain(a: seq<Entity>, c: seq<Entity>, y: seq<Entity>, changed: set<string>, referenced: set<Id>)
    requires forall e :: e in c ==> e.file != "" && e.file !in changed && e.id !in Ids(a)
    requires forall e :: e in y ==> e.file == "" && e.id in referenced && e.id !in Ids(a) + Ids(c)
    requires DistinctIds(c) && DistinctIds(y)
    ensures CarriedEntities(a + c + y, changed, Ids(a)) == c
    ensures AttachedSynthetics(a + c + y, Ids(a) + Ids(c), referenced) == y
  {
    CarriedSkips([], a, changed, Ids(a));
    assert [] + a == a;
    CarriedKeeps(a, c, changed, Ids(a));
    CarriedSkips(a + c, y, changed, Ids(a));
    AttachedSkips([], a + c, Ids(a) + Ids(c), referenced);
    assert [] + (a + c) == a + c;
    AttachedKeeps(a + c, y, Ids(a) + Ids(c), referenced);
  }

  // Without any proviso the graph still never grows: a re-run can only give back rows it already had.
  lemma NeverGrows(emitted: Doc, prev: Doc, changed: set<string>, carried: seq<Rel>, out: Doc,
                   carried': seq<Rel>, out': Doc)
    requires Merged(emitted, prev, changed, carried, out) && Merged(emitted, out, changed, carried', out')
    ensures multiset(out'.rels) <= multiset(out.rels)
    ensures Ids(out'.entities) <= Ids(out.entities)
  {
    DropHierarchySelfLoopsConcat(emitted.rels, carried);
    DropHierarchySelfLoopsConcat(emitted.rels, carried');
    DistinctSubsequence(carried);
    DistinctSubsequence(carried');
    var kept, kept' := DropHierarchySelfLoops(carried), DropHierarchySelfLoops(carried');
    forall r | r in kept' ensures r in kept {
      RerunSource(emitted, prev, changed, carried, out, r);
    }
    forall r ensures multiset(kept')[r] <= multiset(kept)[r] {
      OnceEach(kept, r);
      OnceEach(kept', r);
    }
  }

  lemma RerunSource(emitted: Doc, prev: Doc, changed: set<string>, carried: seq<Rel>, out: Doc, r: Rel)
    requires Merged(emitted, prev, changed, carried, out)
    requires r in Stream(emitted, out, changed) && KeyOf(r) !in Keys(emitted.rels)
    ensures r in DropHierarchySelfLoops(carried)
  {
    var p :| p in out.rels && r == Normal(p);
    assert KeyOf(p) == KeyOf(r);
    if p in carried {
      assert p in Stream(emitted, prev, changed);
    }
  }

  // ---------------------------------------------------------------------------------------------
  // Every merge has an outcome.

  predicate MustCarry(emitted: seq<Rel>, stream: seq<Rel>, r: Rel) {
    KeyOf(r) in Keys(Settled(emitted, stream, RelID(r)))
  }

  // One row for each of the needed keys that the rows have.
  lemma {:induction false} OncePerKey(rows: seq<Rel>, need: set<RelKey>) returns (carried: seq<Rel>)
    ensures DistinctKeys(carried)
    ensures forall r :: r in carried ==> r in rows && KeyOf(r) in need
    ensures forall r :: r in rows && KeyOf(r) in need ==> KeyOf(r) in Keys(carried)
  {
    if rows == [] {
      carried := [];
    } else {
      var init, last := rows[..|rows| - 1], rows[|rows| - 1];
      assert rows == init + [last];
      carried := OncePerKey(init, need);
      if KeyOf(last) in need && KeyOf(last) !in Keys(carried) {
        DistinctMore(carried, last);
        carried := carried + [last];
      }
    }
  }

  lemma DistinctMore(rs: seq<Rel>, r: Rel)
    requires DistinctKeys(rs) && KeyOf(r) !in Keys(rs)
    ensures DistinctKeys(rs + [r]) && Keys(rs + [r]) == Keys(rs) + {KeyOf(r)}
  {
    forall i | 0 <= i < |rs| ensures KeyOf(rs[i]) != KeyOf(r) {
      assert rs[i] in rs;
    }
  }

  lemma SettledInStream(emitted: seq<Rel>, stream: seq<Rel>, id: Id, r: Rel)
    requires r in Settled(emitted, stream, id)
    ensures r in stream && RelID(r) == id && KeyOf(r) !in Keys(emitted)
  {
    assert r in Contenders(stream, Keys(emitted), id);
  }

  lemma CarriesAll(emitted: seq<Rel>, stream: seq<Rel>) returns (carried: seq<Rel>)
    ensures CarriesExactly(emitted, stream, carried)
  {
    var need := set r | r in stream && MustCarry(emitted, stream, r) :: KeyOf(r);
    carried := OncePerKey(stream, need);
    forall r | r in carried ensures KeyOf(r) !in Keys(emitted) {
      var q :| q in Settled(emitted, stream, RelID(r)) && KeyOf(q) == KeyOf(r);
      SettledInStream(emitted, stream, RelID(r), q);
    }
    forall k: RelKey ensures k in Keys(carried) <==> k in Keys(Settled(emitted, stream, k.id)) {
      if k in Keys(Settled(emitted, stream, k.id)) {
        var q :| q in Settled(emitted, stream, k.id) && KeyOf(q) == k;
        SettledInStream(emitted, stream, k.id, q);
        assert MustCarry(emitted, stream, q);
      }
    }
  }

  lemma HasOutcome(emitted: Doc, prev: Doc, changed: set<string>) returns (carried: seq<Rel>, out: Doc)
    ensures Merged(emitted, prev, changed, carried, out)
  {
    carried := CarriesAll(emitted.rels, Stream(emitted, prev, changed));
    out := Doc(MergedEntities(emitted, prev, changed), DropHierarchySelfLoops(emitted.rels + carried));
  }
}
