// Which previous rows and entities the merge carries, said of their fields and positions alone.
module MergeRows {
  import opened Graph
  import opened Merge
  import opened MergeLaws

  // ---------------------------------------------------------------------------------------------
  // What two rows have to share.

  predicate OfIdentity(r: Rel, id: Id) {
    id == if r.id != "" then r.id else r.from + NUL + r.to + NUL + r.kind
  }

  // One row up to confidence: endpoints, kind, identity and payload.
  ghost predicate Alike(r: Rel, q: Rel) {
    && r.from == q.from && r.to == q.to && r.kind == q.kind && r.props == q.props
    && forall id :: OfIdentity(r, id) <==> OfIdentity(q, id)
  }

  lemma IdentityIff(r: Rel, id: Id)
    ensures RelID(r) == id <==> OfIdentity(r, id)
  {
  }

  // The merge takes two rows for one if and only if they are alike.
  lemma SameKeyIff(r: Rel, q: Rel)
    ensures KeyOf(r) == KeyOf(q) <==> Alike(r, q)
  {
    IdentityIff(r, RelID(r));
    IdentityIff(q, RelID(r));
    IdentityIff(q, RelID(q));
    if KeyOf(r) == KeyOf(q) {
      forall id ensures OfIdentity(r, id) <==> OfIdentity(q, id) {
        IdentityIff(r, id);
        IdentityIff(q, id);
      }
    }
  }

  ghost predicate HasAlike(rs: seq<Rel>, r: Rel) {
    exists q :: q in rs && Alike(q, r)
  }

  lemma HasKeyIff(rs: seq<Rel>, r: Rel)
    ensures KeyOf(r) in Keys(rs) <==> HasAlike(rs, r)
  {
    if KeyOf(r) in Keys(rs) {
      var q :| q in rs && KeyOf(q) == KeyOf(r);
      SameKeyIff(q, r);
    }
    if q :| q in rs && Alike(q, r) {
      SameKeyIff(q, r);
    }
  }

  // Every row of a family is kept unless the fresh graph competes for its identity: whatever its payload.
  lemma UncontestedAreCarried(emitted: seq<Rel>, stream: seq<Rel>, carried: seq<Rel>, r: Rel)
    requires CarriesExactly(emitted, stream, carried) && r in stream
    requires forall q, id :: q in emitted && OfIdentity(q, id) ==> !OfIdentity(r, id)
    ensures HasAlike(carried, r)
  {
    var id := RelID(r);
    IdentityIff(r, id);
    forall q | q in emitted ensures RelID(q) != id {
      IdentityIff(q, id);
    }
    NoBudget(emitted, id);
    var contenders := Contenders(stream, Keys(emitted), id);
    assert r in contenders && contenders[0..] == contenders;
    assert KeyOf(r) in Keys(Settled(emitted, stream, KeyOf(r).id));
    HasKeyIff(carried, r);
  }

  lemma {:induction false} NoBudget(emitted: seq<Rel>, id: Id)
    requires forall q :: q in emitted ==> RelID(q) != id
    ensures Budget(emitted, id) == 0 && forall k :: k in Keys(emitted) ==> k.id != id
  {
    if emitted != [] {
      NoBudget(emitted[..|emitted| - 1], id);
    }
  }

  // ---------------------------------------------------------------------------------------------
  // Positions.

  // Where in `rs` the rows are for which p holds.
  ghost function Where(rs: seq<Rel>, p: Rel -> bool): set<nat> {
    set i: nat | i < |rs| && p(rs[i])
  }

  lemma WhereSnoc(init: seq<Rel>, r: Rel, p: Rel -> bool)
    ensures Where(init + [r], p) == Where(init, p) + (if p(r) then {|init|} else {})
    ensures |Where(init + [r], p)| == |Where(init, p)| + (if p(r) then 1 else 0)
  {
    var rs := init + [r];
    assert rs[|init|] == r && forall i: nat :: i < |init| ==> rs[i] == init[i];
    assert Where(rs, p) == Where(init, p) + (if p(r) then {|init|} else {});
    assert |init| !in Where(init, p);
  }

  lemma WhereSame(rs: seq<Rel>, p: Rel -> bool, p': Rel -> bool)
    requires forall r :: r in rs ==> p(r) == p'(r)
    ensures Where(rs, p) == Where(rs, p')
  {
  }

  ghost function Named(id: Id): Rel -> bool {
    r => RelID(r) == id
  }

  // Not dropped on sight, as the loops decide it.
  ghost function Rival(emitted: seq<Rel>, changedIds: set<Id>, live: set<Id>, id: Id): Rel -> bool {
    r => !Stale(r, changedIds, live) && RelID(r) == id && KeyOf(r) !in Keys(emitted)
  }

  ghost function Repeat(emitted: seq<Rel>, changedIds: set<Id>, live: set<Id>, id: Id): Rel -> bool {
    r => !Stale(r, changedIds, live) && RelID(r) == id && KeyOf(r) in Keys(emitted)
  }

  lemma {:induction false} BudgetCounts(emitted: seq<Rel>, id: Id)
    ensures Budget(emitted, id) == |Where(emitted, Named(id))|
  {
    if emitted != [] {
      var init, r := emitted[..|emitted| - 1], emitted[|emitted| - 1];
      assert emitted == init + [r];
      BudgetCounts(init, id);
      WhereSnoc(init, r, Named(id));
    }
  }

  lemma NormalKey(r: Rel)
    ensures RelID(Normal(r)) == RelID(r) && KeyOf(Normal(r)) == KeyOf(r)
  {
  }

  lemma {:induction false} HitsCount(emitted: seq<Rel>, rows: seq<Rel>, changedIds: set<Id>, live: set<Id>, id: Id)
    ensures Hits(Survivors(rows, changedIds, live), Keys(emitted), id) ==
      |Where(rows, Repeat(emitted, changedIds, live, id))|
  {
    if rows != [] {
      var init, r := rows[..|rows| - 1], rows[|rows| - 1];
      assert rows == init + [r];
      HitsCount(emitted, init, changedIds, live, id);
      WhereSnoc(init, r, Repeat(emitted, changedIds, live, id));
      NormalKey(r);
    }
  }

  // The contenders are the rivals, in order.
  lemma {:induction false} ContendersSnoc(emitted: seq<Rel>, init: seq<Rel>, r: Rel, changedIds: set<Id>,
                                          live: set<Id>, id: Id)
    ensures Contenders(Survivors(init + [r], changedIds, live), Keys(emitted), id) ==
      Contenders(Survivors(init, changedIds, live), Keys(emitted), id)
      + (if Rival(emitted, changedIds, live, id)(r) then [Normal(r)] else [])
  {
    assert (init + [r])[..|init|] == init;
    NormalKey(r);
    var before := Survivors(init, changedIds, live);
    assert (before + [Normal(r)])[..|before|] == before;
  }

  lemma {:induction false} RivalsCount(emitted: seq<Rel>, rows: seq<Rel>, changedIds: set<Id>, live: set<Id>, id: Id)
    ensures |Contenders(Survivors(rows, changedIds, live), Keys(emitted), id)| ==
      |Where(rows, Rival(emitted, changedIds, live, id))|
  {
    if rows != [] {
      var init, r := rows[..|rows| - 1], rows[|rows| - 1];
      assert rows == init + [r];
      RivalsCount(emitted, init, changedIds, live, id);
      ContendersSnoc(emitted, init, r, changedIds, live, id);
      WhereSnoc(init, r, Rival(emitted, changedIds, live, id));
    }
  }

  // A rival's place among the contenders is the number of rivals before it, ...
  lemma {:induction false} PlaceOf(emitted: seq<Rel>, rows: seq<Rel>, changedIds: set<Id>, live: set<Id>, id: Id,
                                   i: nat)
    requires i < |rows| && Rival(emitted, changedIds, live, id)(rows[i])
    ensures var c, m := Contenders(Survivors(rows, changedIds, live), Keys(emitted), id),
                        |Where(rows[..i], Rival(emitted, changedIds, live, id))|;
      m < |c| && c[m] == Normal(rows[i])
  {
    var n := |rows| - 1;
    var init, r := rows[..n], rows[n];
    assert rows == init + [r] && rows[..i] == init[..i];
    ContendersSnoc(emitted, init, r, changedIds, live, id);
    if i < n {
      PlaceOf(emitted, init, changedIds, live, id, i);
    } else {
      assert init[..i] == init;
      RivalsCount(emitted, init, changedIds, live, id);
    }
  }

  // ... and every place is some rival's.
  lemma {:induction false} RivalAt(rows: seq<Rel>, p: Rel -> bool, m: nat) returns (i: nat)
    requires m < |Where(rows, p)|
    ensures i < |rows| && p(rows[i]) && |Where(rows[..i], p)| == m
  {
    var n := |rows| - 1;
    var init, r := rows[..n], rows[n];
    assert rows == init + [r];
    WhereSnoc(init, r, p);
    if m < |Where(init, p)| {
      i := RivalAt(init, p, m);
      assert rows[..i] == init[..i];
    } else {
      i := n;
    }
  }

  // The same decision on positions, with the loops' own tests.
  ghost predicate Spared(emitted: seq<Rel>, rows: seq<Rel>, changedIds: set<Id>, live: set<Id>, id: Id, i: nat) {
    && i < |rows| && Rival(emitted, changedIds, live, id)(rows[i])
    && |Where(emitted, Named(id))| <=
       |Where(rows, Repeat(emitted, changedIds, live, id))| + |Where(rows[..i], Rival(emitted, changedIds, live, id))|
  }

  // How many of its contenders an identity loses is settled by counting.
  lemma SupersededCounts(emitted: seq<Rel>, rows: seq<Rel>, changedIds: set<Id>, live: set<Id>, id: Id, m: nat)
    requires m < |Contenders(Survivors(rows, changedIds, live), Keys(emitted), id)|
    ensures Superseded(emitted, Survivors(rows, changedIds, live), id) <= m <==>
      |Where(emitted, Named(id))| <= |Where(rows, Repeat(emitted, changedIds, live, id))| + m
  {
    BudgetCounts(emitted, id);
    HitsCount(emitted, rows, changedIds, live, id);
  }

  lemma SettledIsSpared(emitted: seq<Rel>, rows: seq<Rel>, changedIds: set<Id>, live: set<Id>, k: RelKey)
    returns (i: nat)
    requires k in Keys(Settled(emitted, Survivors(rows, changedIds, live), k.id))
    ensures Spared(emitted, rows, changedIds, live, k.id, i) && KeyOf(rows[i]) == k
  {
    var stream := Survivors(rows, changedIds, live);
    var c, n := Contenders(stream, Keys(emitted), k.id), Superseded(emitted, stream, k.id);
    var r :| r in c[n..] && KeyOf(r) == k;
    var m: nat :| m < |c| && n <= m && c[m] == r;
    RivalsCount(emitted, rows, changedIds, live, k.id);
    i := RivalAt(rows, Rival(emitted, changedIds, live, k.id), m);
    PlaceOf(emitted, rows, changedIds, live, k.id, i);
    NormalKey(rows[i]);
    SupersededCounts(emitted, rows, changedIds, live, k.id, m);
  }

  lemma SparedIsSettled(emitted: seq<Rel>, rows: seq<Rel>, changedIds: set<Id>, live: set<Id>, k: RelKey, i: nat)
    requires Spared(emitted, rows, changedIds, live, k.id, i) && KeyOf(rows[i]) == k
    ensures k in Keys(Settled(emitted, Survivors(rows, changedIds, live), k.id))
  {
    var stream := Survivors(rows, changedIds, live);
    var c, n := Contenders(stream, Keys(emitted), k.id), Superseded(emitted, stream, k.id);
    var m := |Where(rows[..i], Rival(emitted, changedIds, live, k.id))|;
    PlaceOf(emitted, rows, changedIds, live, k.id, i);
    NormalKey(rows[i]);
    SupersededCounts(emitted, rows, changedIds, live, k.id, m);
    InTail(c, n, m);
  }

  lemma InTail(c: seq<Rel>, n: nat, m: nat)
    requires n <= m < |c|
    ensures KeyOf(c[m]) in Keys(c[n..])
  {
    assert c[n..][m - n] == c[m];
  }

  // ---------------------------------------------------------------------------------------------
  // Which rows are carried.

  // Anchored by the previous graph in a file that was re-extracted.
  ghost predicate Reanchored(prev: Doc, changed: set<string>, x: Id) {
    exists e :: e in prev.entities && e.file != "" && e.file in changed && e.id == x
  }

  // An entity of the fresh graph, or of a file that was not re-extracted.
  ghost predicate Alive(emitted: Doc, prev: Doc, changed: set<string>, x: Id) {
    || (exists e :: e in emitted.entities && e.id == x)
    || (exists e :: e in prev.entities && e.file != "" && e.file !in changed && e.id == x)
  }

  // A previous row survives if its owner was not re-extracted and its target was not destroyed.
  ghost predicate Survives(emitted: Doc, prev: Doc, changed: set<string>, r: Rel) {
    !Reanchored(prev, changed, r.from) && (Reanchored(prev, changed, r.to) ==> Alive(emitted, prev, changed, r.to))
  }

  // The surviving previous rows of an identity that are alike to a fresh row, and those that are not.
  ghost function Repeats(emitted: Doc, prev: Doc, changed: set<string>, id: Id): set<nat> {
    set i: nat | i < |prev.rels| && Survives(emitted, prev, changed, prev.rels[i])
                 && OfIdentity(prev.rels[i], id) && HasAlike(emitted.rels, prev.rels[i])
  }

  ghost function RivalsBefore(emitted: Doc, prev: Doc, changed: set<string>, id: Id, n: nat): set<nat> {
    set i: nat | i < n && i < |prev.rels| && Survives(emitted, prev, changed, prev.rels[i])
                 && OfIdentity(prev.rels[i], id) && !HasAlike(emitted.rels, prev.rels[i])
  }

  ghost function Fresh(emitted: Doc, id: Id): set<nat> {
    set i: nat | i < |emitted.rels| && OfIdentity(emitted.rels[i], id)
  }

  // Row i of the previous graph is carried: it survives, no fresh row is alike to it, and the fresh rows of
  // its identity are used up by the rows that repeat them and by the rivals before it.
  ghost predicate Carries(emitted: Doc, prev: Doc, changed: set<string>, i: nat) {
    && i < |prev.rels| && Survives(emitted, prev, changed, prev.rels[i]) && !HasAlike(emitted.rels, prev.rels[i])
    && forall id :: OfIdentity(prev.rels[i], id) ==>
         |Fresh(emitted, id)| <= |Repeats(emitted, prev, changed, id)| + |RivalsBefore(emitted, prev, changed, id, i)|
  }

  lemma SurvivesIff(emitted: Doc, prev: Doc, changed: set<string>, r: Rel)
    ensures Survives(emitted, prev, changed, r) <==>
      !Stale(r, ChangedIds(prev.entities, changed), LiveIds(emitted, prev, changed))
  {
    AliveIff(emitted, prev, changed, r.to);
  }

  lemma AliveIff(emitted: Doc, prev: Doc, changed: set<string>, x: Id)
    ensures Alive(emitted, prev, changed, x) <==> x in LiveIds(emitted, prev, changed)
  {
  }

  lemma SparedIff(emitted: Doc, prev: Doc, changed: set<string>, i: nat)
    requires i < |prev.rels|
    ensures Carries(emitted, prev, changed, i) <==>
      Spared(emitted.rels, prev.rels, ChangedIds(prev.entities, changed), LiveIds(emitted, prev, changed),
             RelID(prev.rels[i]), i)
  {
    var id, r := RelID(prev.rels[i]), prev.rels[i];
    var changedIds, live := ChangedIds(prev.entities, changed), LiveIds(emitted, prev, changed);
    IdentityIff(r, id);
    SurvivesIff(emitted, prev, changed, r);
    HasKeyIff(emitted.rels, r);
    FreshIs(emitted, id);
    RepeatsIs(emitted, prev, changed, id);
    RivalsIs(emitted, prev, changed, id, i);
    forall x | OfIdentity(r, x) ensures x == id {
      IdentityIff(r, x);
    }
  }

  lemma FreshIs(emitted: Doc, id: Id)
    ensures Where(emitted.rels, Named(id)) == Fresh(emitted, id)
  {
    forall i: nat | i < |emitted.rels| ensures Named(id)(emitted.rels[i]) == OfIdentity(emitted.rels[i], id) {
      IdentityIff(emitted.rels[i], id);
    }
  }

  lemma RepeatsIs(emitted: Doc, prev: Doc, changed: set<string>, id: Id)
    ensures var changedIds, live := ChangedIds(prev.entities, changed), LiveIds(emitted, prev, changed);
      Where(prev.rels, Repeat(emitted.rels, changedIds, live, id)) == Repeats(emitted, prev, changed, id)
  {
    var changedIds, live := ChangedIds(prev.entities, changed), LiveIds(emitted, prev, changed);
    forall i: nat | i < |prev.rels|
      ensures Repeat(emitted.rels, changedIds, live, id)(prev.rels[i]) ==
        (Survives(emitted, prev, changed, prev.rels[i]) && OfIdentity(prev.rels[i], id)
         && HasAlike(emitted.rels, prev.rels[i]))
    {
      IdentityIff(prev.rels[i], id);
      SurvivesIff(emitted, prev, changed, prev.rels[i]);
      HasKeyIff(emitted.rels, prev.rels[i]);
    }
  }

  lemma RivalsIs(emitted: Doc, prev: Doc, changed: set<string>, id: Id, n: nat)
    requires n <= |prev.rels|
    ensures var changedIds, live := ChangedIds(prev.entities, changed), LiveIds(emitted, prev, changed);
      Where(prev.rels[..n], Rival(emitted.rels, changedIds, live, id)) == RivalsBefore(emitted, prev, changed, id, n)
  {
    var changedIds, live := ChangedIds(prev.entities, changed), LiveIds(emitted, prev, changed);
    forall i: nat | i < |prev.rels|
      ensures Rival(emitted.rels, changedIds, live, id)(prev.rels[i]) ==
        (Survives(emitted, prev, changed, prev.rels[i]) && OfIdentity(prev.rels[i], id)
         && !HasAlike(emitted.rels, prev.rels[i]))
    {
      IdentityIff(prev.rels[i], id);
      SurvivesIff(emitted, prev, changed, prev.rels[i]);
      HasKeyIff(emitted.rels, prev.rels[i]);
    }
  }

  // The relationship pass without its loops: a row is carried if and only if it is alike to a previous row
  // that the rule above keeps.
  lemma CarriedIff(emitted: Doc, prev: Doc, changed: set<string>, carried: seq<Rel>, out: Doc, q: Rel)
    requires Merged(emitted, prev, changed, carried, out)
    ensures HasAlike(carried, q) <==>
      exists i: nat :: Carries(emitted, prev, changed, i) && Alike(prev.rels[i], q)
  {
    var k := KeyOf(q);
    var changedIds, live := ChangedIds(prev.entities, changed), LiveIds(emitted, prev, changed);
    HasKeyIff(carried, q);
    if k in Keys(carried) {
      var i := SettledIsSpared(emitted.rels, prev.rels, changedIds, live, k);
      SparedIff(emitted, prev, changed, i);
      SameKeyIff(prev.rels[i], q);
    }
    if i: nat :| Carries(emitted, prev, changed, i) && Alike(prev.rels[i], q) {
      SparedIff(emitted, prev, changed, i);
      SameKeyIff(prev.rels[i], q);
      SparedIsSettled(emitted.rels, prev.rels, changedIds, live, k, i);
    }
  }

  // If the rows that repeat fresh rows of an identity are as many as these, no differing row of it is lost.
  lemma DuplicatesProtectSiblings(emitted: Doc, prev: Doc, changed: set<string>, carried: seq<Rel>, out: Doc, id: Id,
                                  r: Rel)
    requires Merged(emitted, prev, changed, carried, out)
    requires |Fresh(emitted, id)| <= |Repeats(emitted, prev, changed, id)|
    requires r in prev.rels && Survives(emitted, prev, changed, r) && OfIdentity(r, id)
    ensures HasAlike(emitted.rels, r) || HasAlike(carried, r)
  {
    if !HasAlike(emitted.rels, r) {
      var i :| 0 <= i < |prev.rels| && prev.rels[i] == r;
      assert Carries(emitted, prev, changed, i) && Alike(r, r);
      CarriedIff(emitted, prev, changed, carried, out, r);
    }
  }

  // They are as many if each fresh row of the identity has its own repetition, wherever that is.
  lemma EnoughRepeats(emitted: Doc, prev: Doc, changed: set<string>, id: Id, own: map<nat, nat>)
    requires own.Keys == Fresh(emitted, id)
    requires forall i :: i in own ==> own[i] in Repeats(emitted, prev, changed, id)
    requires forall i, j :: i in own && j in own && own[i] == own[j] ==> i == j
    ensures |Fresh(emitted, id)| <= |Repeats(emitted, prev, changed, id)|
  {
    InjectionFits(own, Fresh(emitted, id), Repeats(emitted, prev, changed, id));
  }

  lemma {:induction false} InjectionFits(f: map<nat, nat>, a: set<nat>, b: set<nat>)
    requires forall i :: i in a ==> i in f && f[i] in b
    requires forall i, j :: i in a && j in a && f[i] == f[j] ==> i == j
    ensures |a| <= |b|
    decreases |a|
  {
    if a != {} {
      var i :| i in a;
      InjectionFits(f, a - {i}, b - {f[i]});
    }
  }

  // The positions of the rivals whose like is not carried.
  ghost function LostAt(emitted: Doc, prev: Doc, changed: set<string>, carried: seq<Rel>, id: Id): set<nat> {
    set i | i in RivalsBefore(emitted, prev, changed, id, |prev.rels|) && !HasAlike(carried, prev.rels[i])
  }

  ghost function Open(emitted: Doc, prev: Doc, changed: set<string>, id: Id): nat {
    Less(|Fresh(emitted, id)|, |Repeats(emitted, prev, changed, id)|)
  }

  // The first m positions for which p holds.
  ghost function FirstWhere(rows: seq<Rel>, p: Rel -> bool, m: nat): set<nat> {
    set i: nat | i < |rows| && p(rows[i]) && |Where(rows[..i], p)| < m
  }

  lemma {:induction false} FirstWhereCounts(rows: seq<Rel>, p: Rel -> bool, m: nat)
    ensures |FirstWhere(rows, p, m)| == if |Where(rows, p)| < m then |Where(rows, p)| else m
  {
    if rows == [] {
      assert FirstWhere(rows, p, m) == {} && Where(rows, p) == {};
    } else {
      var n := |rows| - 1;
      var init, r := rows[..n], rows[n];
      assert rows == init + [r];
      FirstWhereCounts(init, p, m);
      WhereSnoc(init, r, p);
      FirstWhereSnoc(init, r, p, m);
    }
  }

  lemma FirstWhereIff(init: seq<Rel>, r: Rel, p: Rel -> bool, m: nat, i: nat)
    ensures i in FirstWhere(init + [r], p, m) <==>
      i in FirstWhere(init, p, m) || (i == |init| && p(r) && |Where(init, p)| < m)
  {
    var rows := init + [r];
    if i < |init| {
      assert rows[..i] == init[..i] && rows[i] == init[i];
    } else if i == |init| {
      assert rows[..i] == init && rows[i] == r;
    }
  }

  lemma FirstWhereSnoc(init: seq<Rel>, r: Rel, p: Rel -> bool, m: nat)
    ensures |FirstWhere(init + [r], p, m)| ==
      |FirstWhere(init, p, m)| + (if p(r) && |Where(init, p)| < m then 1 else 0)
  {
    var before, n := FirstWhere(init, p, m), |init|;
    var all := FirstWhere(init + [r], p, m);
    forall i: nat ensures i in all <==> i in before || (i == n && p(r) && |Where(init, p)| < m) {
      FirstWhereIff(init, r, p, m, i);
    }
    assert n !in before;
    assert all == if p(r) && |Where(init, p)| < m then before + {n} else before;
  }

  // The lost ones are among the first rivals, as many as are open.
  lemma LostIsFirst(emitted: Doc, prev: Doc, changed: set<string>, carried: seq<Rel>, out: Doc, id: Id)
    returns (first: set<nat>)
    requires Merged(emitted, prev, changed, carried, out)
    ensures var rivals, open := RivalsBefore(emitted, prev, changed, id, |prev.rels|), Open(emitted, prev, changed, id);
      |first| == if |rivals| < open then |rivals| else open
    ensures LostAt(emitted, prev, changed, carried, id) <= first
    ensures Unalike(emitted, prev, changed, id) ==> LostAt(emitted, prev, changed, carried, id) == first
  {
    var p := Rival(emitted.rels, ChangedIds(prev.entities, changed), LiveIds(emitted, prev, changed), id);
    first := FirstWhere(prev.rels, p, Open(emitted, prev, changed, id));
    RivalsIs(emitted, prev, changed, id, |prev.rels|);
    assert prev.rels[..|prev.rels|] == prev.rels;
    FirstWhereCounts(prev.rels, p, Open(emitted, prev, changed, id));
    forall i | i in LostAt(emitted, prev, changed, carried, id) ensures i in first {
      LostIsEarly(emitted, prev, changed, carried, out, id, i);
    }
    if Unalike(emitted, prev, changed, id) {
      forall i | i in first ensures i in LostAt(emitted, prev, changed, carried, id) {
        EarlyIsLost(emitted, prev, changed, carried, out, id, i);
      }
    }
  }

  // No two rivals are one row up to confidence.
  ghost predicate Unalike(emitted: Doc, prev: Doc, changed: set<string>, id: Id) {
    var rivals := RivalsBefore(emitted, prev, changed, id, |prev.rels|);
    forall i, j :: i in rivals && j in rivals && Alike(prev.rels[i], prev.rels[j]) ==> i == j
  }

  // Supersession is per row: at most as many rows are lost as there are fresh rows of the identity beyond those
  // repeated, and exactly as many, as far as there are rivals, if no two of these are alike.
  lemma SupersessionIsPerRow(emitted: Doc, prev: Doc, changed: set<string>, carried: seq<Rel>, out: Doc, id: Id)
    requires Merged(emitted, prev, changed, carried, out)
    ensures |LostAt(emitted, prev, changed, carried, id)| <= Open(emitted, prev, changed, id)
    ensures Unalike(emitted, prev, changed, id) ==>
      |LostAt(emitted, prev, changed, carried, id)| ==
      var rivals, open := |RivalsBefore(emitted, prev, changed, id, |prev.rels|)|, Open(emitted, prev, changed, id);
      if rivals < open then rivals else open
  {
    var first := LostIsFirst(emitted, prev, changed, carried, out, id);
    Subset(LostAt(emitted, prev, changed, carried, id), first);
  }

  lemma LostIsEarly(emitted: Doc, prev: Doc, changed: set<string>, carried: seq<Rel>, out: Doc, id: Id, i: nat)
    requires Merged(emitted, prev, changed, carried, out) && i in LostAt(emitted, prev, changed, carried, id)
    ensures var p := Rival(emitted.rels, ChangedIds(prev.entities, changed), LiveIds(emitted, prev, changed), id);
      i in FirstWhere(prev.rels, p, Open(emitted, prev, changed, id))
  {
    var r := prev.rels[i];
    RivalsIs(emitted, prev, changed, id, i);
    RivalsIs(emitted, prev, changed, id, |prev.rels|);
    assert prev.rels[..|prev.rels|] == prev.rels;
    CarriedIff(emitted, prev, changed, carried, out, r);
    OnlyIdentity(r, id);
    assert Alike(r, r) && !Carries(emitted, prev, changed, i);
  }

  lemma OnlyIdentity(r: Rel, id: Id)
    requires OfIdentity(r, id)
    ensures forall x :: OfIdentity(r, x) ==> x == id
  {
  }

  lemma OnlyItself(emitted: Doc, prev: Doc, changed: set<string>, id: Id, i: nat)
    requires Unalike(emitted, prev, changed, id) && i in RivalsBefore(emitted, prev, changed, id, |prev.rels|)
    ensures forall j: nat :: Carries(emitted, prev, changed, j) && Alike(prev.rels[j], prev.rels[i]) ==> j == i
  {
    forall j: nat | Carries(emitted, prev, changed, j) && Alike(prev.rels[j], prev.rels[i]) ensures j == i {
      assert OfIdentity(prev.rels[j], id);
      assert j in RivalsBefore(emitted, prev, changed, id, |prev.rels|);
    }
  }

  lemma EarlyIsNotCarried(emitted: Doc, prev: Doc, changed: set<string>, id: Id, i: nat)
    requires var p := Rival(emitted.rels, ChangedIds(prev.entities, changed), LiveIds(emitted, prev, changed), id);
      i in FirstWhere(prev.rels, p, Open(emitted, prev, changed, id))
    ensures i in RivalsBefore(emitted, prev, changed, id, |prev.rels|) && !Carries(emitted, prev, changed, i)
  {
    RivalsIs(emitted, prev, changed, id, i);
    RivalsIs(emitted, prev, changed, id, |prev.rels|);
    assert prev.rels[..|prev.rels|] == prev.rels;
    assert OfIdentity(prev.rels[i], id);
  }

  lemma EarlyIsLost(emitted: Doc, prev: Doc, changed: set<string>, carried: seq<Rel>, out: Doc, id: Id, i: nat)
    requires Merged(emitted, prev, changed, carried, out) && Unalike(emitted, prev, changed, id)
    requires var p := Rival(emitted.rels, ChangedIds(prev.entities, changed), LiveIds(emitted, prev, changed), id);
      i in FirstWhere(prev.rels, p, Open(emitted, prev, changed, id))
    ensures i in LostAt(emitted, prev, changed, carried, id)
  {
    EarlyIsNotCarried(emitted, prev, changed, id, i);
    OnlyItself(emitted, prev, changed, id, i);
    CarriedIff(emitted, prev, changed, carried, out, prev.rels[i]);
  }

  // ---------------------------------------------------------------------------------------------
  // Which entities are carried, and in what order.

  ghost predicate Increasing(ps: seq<nat>) {
    forall m, n :: 0 <= m < n < |ps| ==> ps[m] < ps[n]
  }

  // The entities at the given positions.
  ghost function At(es: seq<Entity>, ps: seq<nat>): (out: seq<Entity>)
    requires forall m :: 0 <= m < |ps| ==> ps[m] < |es|
    ensures |out| == |ps| && forall m :: 0 <= m < |ps| ==> out[m] == es[ps[m]]
  {
    seq(|ps|, m requires 0 <= m < |ps| => es[ps[m]])
  }

  // p holds of the entity at i and of no earlier one of the same ID.
  ghost predicate FirstAt(es: seq<Entity>, p: Entity -> bool, i: nat) {
    i < |es| && p(es[i]) && forall j: nat :: j < i && es[j].id == es[i].id ==> !p(es[j])
  }

  // `ps` are those positions, in order.
  ghost predicate Firsts(es: seq<Entity>, p: Entity -> bool, ps: seq<nat>) {
    && Increasing(ps)
    && forall i: nat :: i in ps <==> FirstAt(es, p, i)
  }

  // Is e the first of its ID after `init` for which p holds?
  ghost predicate NewTo(init: seq<Entity>, p: Entity -> bool, e: Entity) {
    p(e) && forall d :: d in init && d.id == e.id ==> !p(d)
  }

  lemma FirstsSnoc(init: seq<Entity>, e: Entity, p: Entity -> bool, ps: seq<nat>)
    requires Firsts(init, p, ps)
    ensures Firsts(init + [e], p, if NewTo(init, p, e) then ps + [|init|] else ps)
  {
    var es, ps' := init + [e], if NewTo(init, p, e) then ps + [|init|] else ps;
    assert forall i: nat :: i < |init| ==> es[i] == init[i];
    assert es[|init|] == e;
    assert FirstAt(es, p, |init|) <==> NewTo(init, p, e);
    forall m | 0 <= m < |ps| ensures ps[m] < |init| {
      assert ps[m] in ps;
    }
    forall i: nat ensures i in ps' <==> FirstAt(es, p, i) {
      if i < |init| {
        assert FirstAt(es, p, i) <==> FirstAt(init, p, i);
      }
    }
  }

  lemma FirstsSame(es: seq<Entity>, p: Entity -> bool, p': Entity -> bool, ps: seq<nat>)
    requires Firsts(es, p, ps) && forall e :: p(e) == p'(e)
    ensures Firsts(es, p', ps)
  {
    forall i: nat ensures FirstAt(es, p, i) <==> FirstAt(es, p', i) {
    }
  }

  lemma AtMore(init: seq<Entity>, e: Entity, ps: seq<nat>)
    requires forall m :: 0 <= m < |ps| ==> ps[m] < |init|
    ensures At(init + [e], ps) == At(init, ps) && At(init + [e], ps + [|init|]) == At(init, ps) + [e]
  {
  }

  // Of a file that was not re-extracted, and of an ID the fresh graph does not have.
  ghost function Kept(changed: set<string>, ids: set<Id>): Entity -> bool {
    (e: Entity) => e.file != "" && e.file !in changed && e.id !in ids
  }

  lemma NewCarried(init: seq<Entity>, changed: set<string>, ids: set<Id>, e: Entity)
    ensures NewTo(init, Kept(changed, ids), e) <==>
      Kept(changed, ids)(e) && e.id !in Ids(CarriedEntities(init, changed, ids))
  {
  }

  lemma {:induction false} CarriedPositions(prev: seq<Entity>, changed: set<string>, ids: set<Id>)
    returns (ps: seq<nat>)
    ensures Firsts(prev, Kept(changed, ids), ps) && forall m :: 0 <= m < |ps| ==> ps[m] < |prev|
    ensures CarriedEntities(prev, changed, ids) == At(prev, ps)
  {
    if prev == [] {
      ps := [];
    } else {
      var init, e, p := prev[..|prev| - 1], prev[|prev| - 1], Kept(changed, ids);
      assert prev == init + [e];
      ps := CarriedPositions(init, changed, ids);
      NewCarried(init, changed, ids, e);
      FirstsSnoc(init, e, p, ps);
      AtMore(init, e, ps);
      ps := if NewTo(init, p, e) then ps + [|init|] else ps;
    }
  }

  // Without a source, referenced by a surviving row, and not of the ID of a live entity.
  ghost function Held(live: set<Id>, referenced: set<Id>): Entity -> bool {
    (e: Entity) => e.file == "" && e.id in referenced && e.id !in live
  }

  lemma NewAttached(init: seq<Entity>, live: set<Id>, referenced: set<Id>, e: Entity)
    ensures NewTo(init, Held(live, referenced), e) <==>
      Held(live, referenced)(e) && e.id !in Ids(AttachedSynthetics(init, live, referenced))
  {
  }

  lemma {:induction false} AttachedPositions(prev: seq<Entity>, live: set<Id>, referenced: set<Id>)
    returns (ps: seq<nat>)
    ensures Firsts(prev, Held(live, referenced), ps) && forall m :: 0 <= m < |ps| ==> ps[m] < |prev|
    ensures AttachedSynthetics(prev, live, referenced) == At(prev, ps)
  {
    if prev == [] {
      ps := [];
    } else {
      var init, e, p := prev[..|prev| - 1], prev[|prev| - 1], Held(live, referenced);
      assert prev == init + [e];
      ps := AttachedPositions(init, live, referenced);
      NewAttached(init, live, referenced, e);
      FirstsSnoc(init, e, p, ps);
      AtMore(init, e, ps);
      ps := if NewTo(init, p, e) then ps + [|init|] else ps;
    }
  }

  ghost function StaysIn(emitted: Doc, changed: set<string>): Entity -> bool {
    (e: Entity) => e.file != "" && e.file !in changed && forall d :: d in emitted.entities ==> d.id != e.id
  }

  ghost function PointedAt(emitted: Doc, prev: Doc, changed: set<string>): Entity -> bool {
    (e: Entity) => e.file == "" && !Alive(emitted, prev, changed, e.id)
      && exists r :: r in prev.rels && Survives(emitted, prev, changed, r) && e.id in {r.from, r.to}
  }

  // The entities of the result: the fresh ones, then the first previous one of each ID that stays, then the
  // first placeholder of each ID that a surviving row still points at and nothing live has; each in order.
  lemma EntitiesOut(emitted: Doc, prev: Doc, changed: set<string>, carried: seq<Rel>, out: Doc)
    returns (kept: seq<nat>, held: seq<nat>)
    requires Merged(emitted, prev, changed, carried, out)
    ensures Firsts(prev.entities, StaysIn(emitted, changed), kept)
    ensures Firsts(prev.entities, PointedAt(emitted, prev, changed), held)
    ensures (forall m :: 0 <= m < |kept| ==> kept[m] < |prev.entities|)
      && (forall m :: 0 <= m < |held| ==> held[m] < |prev.entities|)
      && out.entities == emitted.entities + At(prev.entities, kept) + At(prev.entities, held)
  {
    var changedIds, live := ChangedIds(prev.entities, changed), LiveIds(emitted, prev, changed);
    kept := CarriedPositions(prev.entities, changed, Ids(emitted.entities));
    held := AttachedPositions(prev.entities, live, Endpoints(Stream(emitted, prev, changed)));
    forall x: Id ensures x in Endpoints(Stream(emitted, prev, changed)) <==>
                         exists r :: r in prev.rels && Survives(emitted, prev, changed, r) && x in {r.from, r.to}
    {
      ReferencedIff(emitted, prev, changed, x);
    }
    forall x: Id ensures Alive(emitted, prev, changed, x) <==> x in live {
      AliveIff(emitted, prev, changed, x);
    }
    FirstsSame(prev.entities, Kept(changed, Ids(emitted.entities)), StaysIn(emitted, changed), kept);
    FirstsSame(prev.entities, Held(live, Endpoints(Stream(emitted, prev, changed))),
               PointedAt(emitted, prev, changed), held);
  }

  lemma ReferencedIff(emitted: Doc, prev: Doc, changed: set<string>, x: Id)
    ensures x in Endpoints(Stream(emitted, prev, changed)) <==>
      exists r :: r in prev.rels && Survives(emitted, prev, changed, r) && x in {r.from, r.to}
  {
    var stream := Stream(emitted, prev, changed);
    if x in Endpoints(stream) {
      var q :| q in stream && x in {q.from, q.to};
      var r :| r in prev.rels && q == Normal(r);
      SurvivesIff(emitted, prev, changed, r);
    }
    if r :| r in prev.rels && Survives(emitted, prev, changed, r) && x in {r.from, r.to} {
      SurvivesIff(emitted, prev, changed, r);
      assert Normal(r) in stream;
    }
  }
}
