// foldClassHierarchyShadows: folds generic and inferred class records, and all but the strongest of several
// framework-typed ones, into one record per class symbol.
module ClassFold {
  import opened Graph
  import opened Records
  import opened Edges
  import opened ClassKinds
  import opened Canonical

  // ---------------------------------------------------------------------------------------------
  // Absorbing one record into another.

  // Properties the survivor lacks are copied over, except what described the absorbed record only.
  function Fill(mine: Props, theirs: Props): Props {
    (map key | key in theirs && key != "provenance" && key != "ref" :: theirs[key]) + mine
  }

  function Absorb(sv: Record, r: Record): Record {
    sv.(props := Fill(sv.props, r.props), rels := sv.rels + RehomeAll(r.rels, r.id, sv.id))
  }

  // Everything but properties and edges.
  predicate SameIdentity(a: Record, b: Record) {
    a == b.(props := a.props, rels := a.rels)
  }

  // ---------------------------------------------------------------------------------------------
  // The sibling fold: a symbol with several candidates keeps one.

  ghost predicate Loser(kinds: Kinds, rs: seq<Record>, k: nat) {
    k < |rs| && IsCand(kinds, rs[k]) && Home(kinds, rs, SymbolOf(rs[k])) != k
  }

  // The survivor after absorbing the given candidates, in their order.
  function Collected(rs: seq<Record>, w: nat, cands: seq<Cand>): (r: Record)
    requires w < |rs| && forall c :: c in cands ==> c.idx < |rs|
    ensures SameIdentity(r, rs[w])
  {
    if cands == [] then rs[w]
    else
      var init, c := Collected(rs, w, cands[..|cands| - 1]), cands[|cands| - 1];
      if c.idx == w then init else Absorb(init, rs[c.idx])
  }

  // The records after the sibling fold: a function of the input alone.
  function Sibling(kinds: Kinds, rs: seq<Record>, k: nat): (r: Record)
    requires k < |rs|
    ensures SameIdentity(r, rs[k])
  {
    if !IsCand(kinds, rs[k]) then rs[k]
    else
      assert CandOf(kinds, rs, k) in CandsOf(kinds, rs, SymbolOf(rs[k]));
      if Home(kinds, rs, SymbolOf(rs[k])) == k then Collected(rs, k, CandsOf(kinds, rs, SymbolOf(rs[k])))
      else Emptied(rs[k])
  }

  function Siblings(kinds: Kinds, rs: seq<Record>): (out: seq<Record>)
    ensures |out| == |rs| && forall k :: 0 <= k < |rs| ==> out[k] == Sibling(kinds, rs, k)
  {
    seq(|rs|, k requires 0 <= k < |rs| => Sibling(kinds, rs, k))
  }

  // IDs that some facet names as its anchor.
  function Anchors(rs: seq<Record>): set<Id> {
    set r | r in rs && IsTwin(r) :: Prop(r, TWIN_OF)
  }

  // ---------------------------------------------------------------------------------------------
  // What the fold decides, as a function of the input.

  // A generic or inferred class record with a survivor to fold into, unless a facet needs it as anchor.
  ghost predicate Folded(kinds: Kinds, rs: seq<Record>, k: nat) {
    && k < |rs| && !Loser(kinds, rs, k) && kinds.IsFoldSource(rs[k])
    && Survives(kinds, rs, SymbolOf(rs[k]))
    && rs[k].id !in Anchors(Siblings(kinds, rs))
    && rs[Home(kinds, rs, SymbolOf(rs[k]))].id != rs[k].id
  }

  // An inferred class record with no survivor, but with a real record of the same ID to defer to.
  ghost predicate Deferred(kinds: Kinds, rs: seq<Record>, k: nat) {
    && k < |rs| && rs[k].name != "" && IsShadow(rs[k]) && !Survives(kinds, rs, SymbolOf(rs[k]))
    && exists q :: q in rs && !IsShadow(q) && q.id == rs[k].id
  }

  ghost predicate Dropped(kinds: Kinds, rs: seq<Record>, k: nat) {
    Loser(kinds, rs, k) || Folded(kinds, rs, k) || Deferred(kinds, rs, k)
  }

  ghost predicate Renames(kinds: Kinds, rs: seq<Record>, k: nat) {
    && (Loser(kinds, rs, k) || Folded(kinds, rs, k))
    && rs[Home(kinds, rs, SymbolOf(rs[k]))].id != rs[k].id
  }

  ghost predicate RenamedId(kinds: Kinds, rs: seq<Record>, x: Id) {
    exists k: nat :: k < |rs| && Renames(kinds, rs, k) && rs[k].id == x
  }

  ghost function HomeId(kinds: Kinds, rs: seq<Record>, x: Id): Id
    requires RenamedId(kinds, rs, x)
  {
    var k: nat :| k < |rs| && Renames(kinds, rs, k) && rs[k].id == x;
    rs[Home(kinds, rs, SymbolOf(rs[k]))].id
  }

  // Folded ID to survivor ID.
  ghost function Rho(kinds: Kinds, rs: seq<Record>): Renaming {
    map x | x in (set r | r in rs :: r.id) && RenamedId(kinds, rs, x) :: HomeId(kinds, rs, x)
  }

  lemma SameSymbol(rs: seq<Record>, j: nat, k: nat)
    requires Identified(rs) && j < |rs| && k < |rs| && rs[j].name != "" && rs[k].name != "" && rs[j].id == rs[k].id
    ensures SymbolOf(rs[j]) == SymbolOf(rs[k])
  {
    assert rs[j] in rs && rs[k] in rs && Agree(rs[j], rs[k]);
  }

  lemma HomeIdOf(kinds: Kinds, rs: seq<Record>, k: nat)
    requires Identified(rs) && k < |rs| && rs[k].name != "" && RenamedId(kinds, rs, rs[k].id)
    ensures Survives(kinds, rs, SymbolOf(rs[k]))
    ensures HomeId(kinds, rs, rs[k].id) == rs[Home(kinds, rs, SymbolOf(rs[k]))].id
  {
    var j: nat :| j < |rs| && Renames(kinds, rs, j) && rs[j].id == rs[k].id
                  && HomeId(kinds, rs, rs[k].id) == rs[Home(kinds, rs, SymbolOf(rs[j]))].id;
    SameSymbol(rs, j, k);
  }

  lemma RenamedAt(kinds: Kinds, rs: seq<Record>, k: nat)
    requires k < |rs| && Renames(kinds, rs, k)
    ensures RenamedId(kinds, rs, rs[k].id) && rs[k].id in Rho(kinds, rs)
  {
    assert rs[k] in rs;
  }

  // All records of one ID fold into one home, so the renaming is what it says for every record.
  lemma RhoAt(kinds: Kinds, rs: seq<Record>, k: nat)
    requires Identified(rs) && k < |rs| && (Loser(kinds, rs, k) || Folded(kinds, rs, k))
    ensures Renamed(Rho(kinds, rs), rs[k].id) == rs[Home(kinds, rs, SymbolOf(rs[k]))].id
  {
    if rs[Home(kinds, rs, SymbolOf(rs[k]))].id != rs[k].id {
      RenamedAt(kinds, rs, k);
    }
    if RenamedId(kinds, rs, rs[k].id) {
      HomeIdOf(kinds, rs, k);
    }
  }

  // No survivor is itself renamed.
  lemma RhoFlat(kinds: Kinds, rs: seq<Record>)
    requires Identified(rs)
    ensures Flat(Rho(kinds, rs)) && "" !in Rho(kinds, rs) && forall x :: x in Rho(kinds, rs) ==> Rho(kinds, rs)[x] != ""
    ensures forall k :: 0 <= k < |rs| && IsCand(kinds, rs[k]) && Home(kinds, rs, SymbolOf(rs[k])) == k ==>
      rs[k].id !in Rho(kinds, rs)
  {
    forall k | 0 <= k < |rs| && IsCand(kinds, rs[k]) && Home(kinds, rs, SymbolOf(rs[k])) == k
      ensures rs[k].id !in Rho(kinds, rs)
    {
      HomeStays(kinds, rs, k);
    }
    forall x | x in Rho(kinds, rs)
      ensures Rho(kinds, rs)[x] !in Rho(kinds, rs) && Rho(kinds, rs)[x] != "" && x != ""
    {
      TargetStays(kinds, rs, x);
    }
  }

  lemma TargetStays(kinds: Kinds, rs: seq<Record>, x: Id)
    requires Identified(rs) && x in Rho(kinds, rs)
    ensures Rho(kinds, rs)[x] !in Rho(kinds, rs) && Rho(kinds, rs)[x] != "" && x != ""
  {
    var j: nat :| j < |rs| && Renames(kinds, rs, j) && rs[j].id == x;
    var w := Home(kinds, rs, SymbolOf(rs[j]));
    RhoAt(kinds, rs, j);
    HomeStays(kinds, rs, w);
    assert rs[j] in rs && rs[w] in rs;
  }

  lemma HomeStays(kinds: Kinds, rs: seq<Record>, w: nat)
    requires Identified(rs) && w < |rs| && IsCand(kinds, rs[w]) && Home(kinds, rs, SymbolOf(rs[w])) == w
    ensures rs[w].id !in Rho(kinds, rs)
  {
    if RenamedId(kinds, rs, rs[w].id) {
      var j: nat :| j < |rs| && Renames(kinds, rs, j) && rs[j].id == rs[w].id;
      SameSymbol(rs, j, w);
      assert false;
    }
  }

  // ---------------------------------------------------------------------------------------------
  // The fold, phase by phase.

  ghost predicate Indexed(kinds: Kinds, rs: seq<Record>, bySymbol: map<Symbol, seq<Cand>>) {
    forall sym :: (sym in bySymbol <==> Survives(kinds, rs, sym)) &&
                  (sym in bySymbol ==> bySymbol[sym] == CandsOf(kinds, rs, sym))
  }

  method IndexCandidates(kinds: Kinds, merged: array<Record>) returns (bySymbol: map<Symbol, seq<Cand>>)
    ensures Indexed(kinds, merged[..], bySymbol)
  {
    bySymbol := map[];
    for k := 0 to merged.Length
      invariant Indexed(kinds, merged[..k], bySymbol)
    {
      assert merged[..k + 1][..k] == merged[..k];
      var r := merged[k];
      if r.name == "" || IsTwin(r) || !kinds.IsFramework(r.kind) {
        continue;
      }
      var sym := SymbolOf(r);
      var c := Cand(k, r.id, kinds.priority(r.kind), kinds.rank(r.kind), r.startLine);
      bySymbol := bySymbol[sym := (if sym in bySymbol then bySymbol[sym] else []) + [c]];
    }
    assert merged[..merged.Length] == merged[..];
  }

  // The renaming sends every candidate of these to the home record's ID, which it leaves alone.
  predicate Gathers(rs: seq<Record>, rho: Renaming, cands: seq<Cand>, w: nat) {
    && w < |rs| && rs[w].id != "" && Renamed(rho, rs[w].id) == rs[w].id
    && forall c :: c in cands ==> c.idx < |rs| && rs[c.idx].id != "" && Renamed(rho, rs[c.idx].id) == rs[w].id
  }

  // Renamings decided so far.
  predicate PartOf(remap: Renaming, rho: Renaming) {
    forall x :: x in remap ==> x in rho && remap[x] == rho[x]
  }

  // One symbol while it is being collapsed: the candidates met so far are absorbed into record w.
  ghost predicate Collapsed(rs: seq<Record>, before: seq<Record>, cur: seq<Record>, w: nat, cands: seq<Cand>,
                            drop: set<nat>)
  {
    && |rs| == |before| == |cur| && w < |rs| && (forall c :: c in cands ==> c.idx < |rs|)
    && drop == (set c | c in cands && c.idx != w :: c.idx)
    && cur[w] == Collected(rs, w, cands)
    && (forall k :: k in drop ==> cur[k] == Emptied(rs[k]))
    && (forall k :: 0 <= k < |cur| && k != w && k !in drop ==> cur[k] == before[k])
  }

  lemma CollapseSnoc(rs: seq<Record>, before: seq<Record>, cur: seq<Record>, w: nat, cands: seq<Cand>,
                     drop: set<nat>, c: Cand)
    requires Collapsed(rs, before, cur, w, cands, drop) && c.idx < |rs|
    requires c.idx !in drop && before[c.idx] == rs[c.idx]
    ensures c.idx == w ==> Collapsed(rs, before, cur, w, cands + [c], drop)
    ensures c.idx != w ==> cur[c.idx] == rs[c.idx]
    ensures c.idx != w ==>
      Collapsed(rs, before, cur[w := Absorb(cur[w], rs[c.idx])][c.idx := Emptied(rs[c.idx])], w, cands + [c],
        drop + {c.idx})
  {
    assert (cands + [c])[..|cands|] == cands;
  }

  // The IDs of the dropped records are remembered, except where the survivor has the same.
  ghost predicate Noted(rs: seq<Record>, w: nat, drop: set<nat>, remap: Renaming) {
    forall k :: k in drop ==> k < |rs| && w < |rs| && (rs[k].id == rs[w].id || rs[k].id in remap)
  }

  lemma NotedMore(rs: seq<Record>, w: nat, drop: set<nat>, remap: Renaming, k: nat, remap': Renaming)
    requires Noted(rs, w, drop, remap) && remap.Keys <= remap'.Keys && k < |rs| && w < |rs|
    requires rs[k].id == rs[w].id || rs[k].id in remap'
    ensures Noted(rs, w, drop + {k}, remap')
  {
  }

  // One symbol: the winner absorbs the other candidates, in order.
  method Collapse(merged: array<Record>, cands: seq<Cand>, w: nat, remap0: Renaming, ghost rs: seq<Record>,
                  ghost rho: Renaming)
    returns (drop: set<nat>, remap: Renaming)
    requires |rs| == merged.Length && Gathers(rs, rho, cands, w)
    requires merged[w] == rs[w] && forall c :: c in cands ==> merged[c.idx] == rs[c.idx]
    requires forall i, j :: 0 <= i < j < |cands| ==> cands[i].idx != cands[j].idx
    requires PartOf(remap0, rho)
    modifies merged
    ensures Collapsed(rs, old(merged[..]), merged[..], w, cands, drop)
    ensures PartOf(remap, rho) && remap0.Keys <= remap.Keys
    ensures Noted(rs, w, drop, remap)
  {
    drop, remap := {}, remap0;
    ghost var before := merged[..];
    for n := 0 to |cands|
      invariant Collapsed(rs, before, merged[..], w, cands[..n], drop)
      invariant PartOf(remap, rho) && remap0.Keys <= remap.Keys && Noted(rs, w, drop, remap)
    {
      var c := cands[n];
      TakeSnoc(cands, n);
      NotMetYet(cands, n, w);
      assert before[c.idx] == rs[c.idx];
      GathersOne(rs, rho, cands, w, c);
      drop, remap := CollapseOne(merged, c, w, drop, remap, cands[..n], before, rs, rho);
    }
    assert cands[..|cands|] == cands;
  }

  lemma NotMetYet(cands: seq<Cand>, n: nat, w: nat)
    requires n < |cands| && forall i, j :: 0 <= i < j < |cands| ==> cands[i].idx != cands[j].idx
    ensures cands[n].idx !in (set c | c in cands[..n] && c.idx != w :: c.idx)
  {
    forall c | c in cands[..n] ensures c.idx != cands[n].idx {
      var i :| 0 <= i < n && cands[i] == c;
    }
  }

  lemma GathersOne(rs: seq<Record>, rho: Renaming, cands: seq<Cand>, w: nat, c: Cand)
    requires Gathers(rs, rho, cands, w) && c in cands
    ensures Gathers(rs, rho, [c], w)
  {
  }

  method CollapseOne(merged: array<Record>, c: Cand, w: nat, drop0: set<nat>, remap0: Renaming,
                     ghost seen: seq<Cand>, ghost before: seq<Record>, ghost rs: seq<Record>, ghost rho: Renaming)
    returns (drop: set<nat>, remap: Renaming)
    requires Gathers(rs, rho, [c], w) && |rs| == merged.Length
    requires Collapsed(rs, before, merged[..], w, seen, drop0) && c.idx < |rs| && c.idx !in drop0
      && before[c.idx] == rs[c.idx]
    requires PartOf(remap0, rho) && Noted(rs, w, drop0, remap0)
    modifies merged
    ensures Collapsed(rs, before, merged[..], w, seen + [c], drop)
    ensures PartOf(remap, rho) && remap0.Keys <= remap.Keys && Noted(rs, w, drop, remap)
  {
    drop, remap := drop0, remap0;
    CollapseSnoc(rs, before, merged[..], w, seen, drop, c);
    if c.idx == w {
      return;
    }
    assert c in [c];
    assert SameIdentity(merged[w], rs[w]);
    remap := Merge(merged, c.idx, w, remap0, rho);
    NotedMore(rs, w, drop0, remap0, c.idx, remap);
    drop := drop0 + {c.idx};
  }

  method Merge(merged: array<Record>, k: nat, w: nat, remap0: Renaming, ghost rho: Renaming) returns (remap: Renaming)
    requires k < merged.Length && w < merged.Length && k != w && merged[w].id != "" && merged[k].id != ""
    requires Renamed(rho, merged[k].id) == merged[w].id && Renamed(rho, merged[w].id) == merged[w].id
    requires PartOf(remap0, rho)
    modifies merged
    ensures merged[..] ==
      old(merged[..])[w := Absorb(old(merged[w]), old(merged[k]))][k := Emptied(old(merged[k]))]
    ensures PartOf(remap, rho) && remap0.Keys <= remap.Keys
    ensures old(merged[k]).id != old(merged[w]).id ==> old(merged[k]).id in remap
  {
    remap := Remember(remap0, merged[k].id, merged[w].id, rho);
    AbsorbAt(merged, k, w);
  }

  method Remember(remap0: Renaming, id: Id, home: Id, ghost rho: Renaming) returns (remap: Renaming)
    requires PartOf(remap0, rho) && id != "" && Renamed(rho, id) == home
    ensures PartOf(remap, rho) && remap0.Keys <= remap.Keys
    ensures id != home ==> id in remap
  {
    remap := remap0;
    if id != "" && id != home {
      remap := remap[id := home];
    }
  }

  // Moves record k's properties and edges to record w.
  method AbsorbAt(merged: array<Record>, k: nat, w: nat)
    requires k < merged.Length && w < merged.Length && k != w
    modifies merged
    ensures merged[..] ==
      old(merged[..])[w := Absorb(old(merged[w]), old(merged[k]))][k := Emptied(old(merged[k]))]
  {
    var sv, r := merged[w], merged[k];
    merged[w] := sv.(props := Fill(sv.props, r.props), rels := sv.rels + RehomeAll(r.rels, r.id, sv.id));
    merged[k] := r.(rels := []);
    assert merged[..] == old(merged[..])[w := Absorb(sv, r)][k := Emptied(r)];
  }

  // One record while some symbols are still to be collapsed.
  ghost predicate SiblingAt(kinds: Kinds, rs: seq<Record>, cur: seq<Record>, todo: set<Symbol>, drop: set<nat>, k: nat)
    requires k < |rs| == |cur|
  {
    var pending := IsCand(kinds, rs[k]) && SymbolOf(rs[k]) in todo;
    && cur[k] == (if pending then rs[k] else Sibling(kinds, rs, k))
    && (k in drop <==> !pending && Loser(kinds, rs, k))
  }

  ghost predicate SiblingState(kinds: Kinds, rs: seq<Record>, cur: seq<Record>, todo: set<Symbol>, drop: set<nat>) {
    && |cur| == |rs| && (forall k :: k in drop ==> k < |rs|)
    && forall k: nat :: k < |rs| ==> SiblingAt(kinds, rs, cur, todo, drop, k)
  }

  lemma SiblingStep(kinds: Kinds, rs: seq<Record>, before: seq<Record>, cur: seq<Record>, todo: set<Symbol>,
                    drop: set<nat>, sym: Symbol, more: set<nat>)
    requires SiblingState(kinds, rs, before, todo, drop) && sym in todo && Survives(kinds, rs, sym)
    requires Collapsed(rs, before, cur, Home(kinds, rs, sym), CandsOf(kinds, rs, sym), more)
    ensures SiblingState(kinds, rs, cur, todo - {sym}, drop + more)
  {
    forall k: nat | k < |rs| ensures SiblingAt(kinds, rs, cur, todo - {sym}, drop + more, k) {
      assert SiblingAt(kinds, rs, before, todo, drop, k);
      CollapsedAt(kinds, rs, before, cur, sym, more, k);
      SiblingMoves(kinds, rs, before, cur, todo, drop, sym, more, k);
    }
  }

  lemma SiblingMoves(kinds: Kinds, rs: seq<Record>, before: seq<Record>, cur: seq<Record>, todo: set<Symbol>,
                     drop: set<nat>, sym: Symbol, more: set<nat>, k: nat)
    requires k < |rs| == |before| == |cur| && sym in todo && SiblingAt(kinds, rs, before, todo, drop, k)
    requires if IsCand(kinds, rs[k]) && SymbolOf(rs[k]) == sym
             then cur[k] == Sibling(kinds, rs, k) && (k in more <==> Loser(kinds, rs, k))
             else cur[k] == before[k] && k !in more
    ensures SiblingAt(kinds, rs, cur, todo - {sym}, drop + more, k)
  {
  }

  lemma CollapsedAt(kinds: Kinds, rs: seq<Record>, before: seq<Record>, cur: seq<Record>, sym: Symbol,
                    more: set<nat>, k: nat)
    requires k < |rs| && Survives(kinds, rs, sym)
    requires Collapsed(rs, before, cur, Home(kinds, rs, sym), CandsOf(kinds, rs, sym), more)
    ensures if IsCand(kinds, rs[k]) && SymbolOf(rs[k]) == sym
            then cur[k] == Sibling(kinds, rs, k) && (k in more <==> Loser(kinds, rs, k))
            else cur[k] == before[k] && k !in more
  {
    if IsCand(kinds, rs[k]) && SymbolOf(rs[k]) == sym {
      assert CandOf(kinds, rs, k) in CandsOf(kinds, rs, sym);
    }
  }

  lemma AloneStays(kinds: Kinds, rs: seq<Record>, k: nat)
    requires k < |rs| && (IsCand(kinds, rs[k]) ==> CandsOf(kinds, rs, SymbolOf(rs[k])) == [CandOf(kinds, rs, k)])
    ensures Sibling(kinds, rs, k) == rs[k]
  {
    if IsCand(kinds, rs[k]) {
      var c := CandOf(kinds, rs, k);
      assert [c][..0] == [];
      assert Collected(rs, k, [c]) == rs[k];
    }
  }

  // A symbol with one candidate is collapsed already.
  lemma SingleCandidate(kinds: Kinds, rs: seq<Record>, before: seq<Record>, todo: set<Symbol>, drop: set<nat>,
                        sym: Symbol)
    requires SiblingState(kinds, rs, before, todo, drop) && sym in todo && |CandsOf(kinds, rs, sym)| == 1
    ensures SiblingState(kinds, rs, before, todo - {sym}, drop)
  {
    var rest := todo - {sym};
    forall k: nat | k < |rs| ensures SiblingAt(kinds, rs, before, rest, drop, k) {
      assert SiblingAt(kinds, rs, before, todo, drop, k);
      AloneAt(kinds, rs, before, todo, drop, sym, rest, k);
    }
  }

  lemma AloneAt(kinds: Kinds, rs: seq<Record>, before: seq<Record>, todo: set<Symbol>, drop: set<nat>, sym: Symbol,
                rest: set<Symbol>, k: nat)
    requires k < |rs| == |before| && SiblingAt(kinds, rs, before, todo, drop, k)
    requires sym in todo && rest == todo - {sym} && |CandsOf(kinds, rs, sym)| == 1
    ensures SiblingAt(kinds, rs, before, rest, drop, k)
  {
    if IsCand(kinds, rs[k]) && SymbolOf(rs[k]) == sym {
      OnlyItself(kinds, rs, k);
      AloneStays(kinds, rs, k);
    }
  }

  lemma OnlyItself(kinds: Kinds, rs: seq<Record>, k: nat)
    requires k < |rs| && IsCand(kinds, rs[k]) && |CandsOf(kinds, rs, SymbolOf(rs[k]))| == 1
    ensures CandsOf(kinds, rs, SymbolOf(rs[k])) == [CandOf(kinds, rs, k)] && !Loser(kinds, rs, k)
  {
    assert CandOf(kinds, rs, k) in CandsOf(kinds, rs, SymbolOf(rs[k]));
  }

  // The renaming gathers the candidates of every symbol.
  lemma GathersSymbol(kinds: Kinds, rs: seq<Record>, sym: Symbol)
    requires Identified(rs) && Survives(kinds, rs, sym)
    ensures Gathers(rs, Rho(kinds, rs), CandsOf(kinds, rs, sym), Home(kinds, rs, sym))
  {
    var w := Home(kinds, rs, sym);
    HomeStays(kinds, rs, w);
    assert rs[w] in rs;
    forall c | c in CandsOf(kinds, rs, sym)
      ensures rs[c.idx].id != "" && Renamed(Rho(kinds, rs), rs[c.idx].id) == rs[w].id
    {
      assert rs[c.idx] in rs;
      if c.idx != w {
        RhoAt(kinds, rs, c.idx);
      }
    }
  }

  // The renamings of the given dropped records have been remembered.
  ghost predicate Remembers(kinds: Kinds, rs: seq<Record>, remap: Renaming, drop: set<nat>) {
    && PartOf(remap, Rho(kinds, rs))
    && forall k: nat :: k in drop && Renames(kinds, rs, k) ==> rs[k].id in remap
  }

  method FoldSymbol(kinds: Kinds, merged: array<Record>, cands: seq<Cand>, drop0: set<nat>, remap0: Renaming,
                    ghost sym: Symbol, ghost todo: set<Symbol>, ghost rs: seq<Record>)
    returns (drop: set<nat>, remap: Renaming, win: Cand)
    requires Identified(rs) && Survives(kinds, rs, sym) && cands == CandsOf(kinds, rs, sym) && sym in todo
    requires SiblingState(kinds, rs, merged[..], todo, drop0) && Remembers(kinds, rs, remap0, drop0)
    modifies merged
    ensures SiblingState(kinds, rs, merged[..], todo - {sym}, drop) && Remembers(kinds, rs, remap, drop)
    ensures win == BestOf(cands)
  {
    win := BestCand(cands);
    GathersSymbol(kinds, rs, sym);
    forall c | c in cands ensures merged[c.idx] == rs[c.idx] {
      assert SiblingAt(kinds, rs, merged[..], todo, drop0, c.idx);
    }
    ghost var before := merged[..];
    var more;
    more, remap := Collapse(merged, cands, win.idx, remap0, rs, Rho(kinds, rs));
    SiblingStep(kinds, rs, before, merged[..], todo, drop0, sym, more);
    drop := drop0 + more;
  }

  // The index still leads every symbol to its home.
  ghost predicate Head(kinds: Kinds, rs: seq<Record>, heads: map<Symbol, seq<Cand>>, sym: Symbol) {
    && (sym in heads <==> Survives(kinds, rs, sym))
    && (sym in heads ==> heads[sym] != [] && BestOf(heads[sym]) == BestOf(CandsOf(kinds, rs, sym)))
  }

  ghost predicate Heads(kinds: Kinds, rs: seq<Record>, heads: map<Symbol, seq<Cand>>) {
    forall sym :: Head(kinds, rs, heads, sym)
  }

  lemma IndexedHeads(kinds: Kinds, rs: seq<Record>, bySymbol: map<Symbol, seq<Cand>>)
    requires Indexed(kinds, rs, bySymbol)
    ensures Heads(kinds, rs, bySymbol)
  {
  }

  lemma HeadKept(kinds: Kinds, rs: seq<Record>, heads: map<Symbol, seq<Cand>>, sym: Symbol)
    requires Heads(kinds, rs, heads) && Survives(kinds, rs, sym)
    ensures Heads(kinds, rs, heads[sym := [BestOf(CandsOf(kinds, rs, sym))]])
  {
    var heads' := heads[sym := [BestOf(CandsOf(kinds, rs, sym))]];
    forall s ensures Head(kinds, rs, heads', s) {
      assert Head(kinds, rs, heads, s);
    }
  }

  lemma AllCollapsed(kinds: Kinds, rs: seq<Record>, cur: seq<Record>, drop: set<nat>)
    requires SiblingState(kinds, rs, cur, {}, drop)
    ensures cur == Siblings(kinds, rs) && forall k: nat :: k in drop <==> Loser(kinds, rs, k)
  {
    forall k: nat | k < |rs| ensures cur[k] == Siblings(kinds, rs)[k] {
      assert SiblingAt(kinds, rs, cur, {}, drop, k);
    }
    forall k: nat ensures k in drop <==> Loser(kinds, rs, k) {
      if k < |rs| {
        assert SiblingAt(kinds, rs, cur, {}, drop, k);
      }
    }
  }

  lemma Uncollapsed(kinds: Kinds, rs: seq<Record>, todo: set<Symbol>)
    requires forall sym :: sym in todo <==> Survives(kinds, rs, sym)
    ensures SiblingState(kinds, rs, rs, todo, {})
  {
    forall k: nat | k < |rs| ensures SiblingAt(kinds, rs, rs, todo, {}, k) {
      if IsCand(kinds, rs[k]) {
        assert CandOf(kinds, rs, k) in CandsOf(kinds, rs, SymbolOf(rs[k]));
      }
    }
  }

  // The sibling fold, in whatever order the map of symbols is walked.
  method SiblingFold(kinds: Kinds, merged: array<Record>, bySymbol: map<Symbol, seq<Cand>>)
    returns (drop: set<nat>, remap: Renaming, heads: map<Symbol, seq<Cand>>)
    requires Indexed(kinds, merged[..], bySymbol) && Identified(merged[..])
    modifies merged
    ensures merged[..] == Siblings(kinds, old(merged[..]))
    ensures forall k: nat :: k in drop <==> Loser(kinds, old(merged[..]), k)
    ensures Remembers(kinds, old(merged[..]), remap, drop) && Heads(kinds, old(merged[..]), heads)
  {
    ghost var rs := merged[..];
    drop, remap, heads := {}, map[], bySymbol;
    var todo := bySymbol.Keys;
    Uncollapsed(kinds, rs, todo);
    IndexedHeads(kinds, rs, bySymbol);
    while todo != {}
      invariant todo <= bySymbol.Keys
      invariant SiblingState(kinds, rs, merged[..], todo, drop)
      invariant Remembers(kinds, rs, remap, drop) && Heads(kinds, rs, heads)
      decreases todo
    {
      var sym :| sym in todo;
      var cands := bySymbol[sym];
      if |cands| < 2 {
        SingleCandidate(kinds, rs, merged[..], todo, drop, sym);
      } else {
        var win;
        drop, remap, win := FoldSymbol(kinds, merged, cands, drop, remap, sym, todo, rs);
        HeadKept(kinds, rs, heads, sym);
        heads := heads[sym := [win]];
      }
      todo := todo - {sym};
    }
    AllCollapsed(kinds, rs, merged[..], drop);
  }

  // ---------------------------------------------------------------------------------------------
  // Fold sources.

  // An inferred class record that stays, and has a real line: it is not called inferred any more.
  ghost predicate Bared(kinds: Kinds, rs: seq<Record>, k: nat) {
    && k < |rs| && rs[k].name != "" && IsShadow(rs[k]) && !Survives(kinds, rs, SymbolOf(rs[k]))
    && !Deferred(kinds, rs, k) && rs[k].startLine > 0
  }

  function Stripped(r: Record): Record {
    r.(props := r.props - {"provenance"})
  }

  // Record w after the sibling fold and the fold sources among the first n records.
  ghost function Absorbed(kinds: Kinds, rs: seq<Record>, n: nat, w: nat): (r: Record)
    requires n <= |rs| && w < |rs|
    ensures SameIdentity(r, rs[w])
  {
    if n == 0 then Sibling(kinds, rs, w)
    else
      var init := Absorbed(kinds, rs, n - 1, w);
      if Folded(kinds, rs, n - 1) && Home(kinds, rs, SymbolOf(rs[n - 1])) == w then Absorb(init, rs[n - 1]) else init
  }

  // Any record at that point.
  ghost function Progress(kinds: Kinds, rs: seq<Record>, n: nat, k: nat): (r: Record)
    requires n <= |rs| && k < |rs|
    ensures SameIdentity(r, rs[k])
  {
    if k < n && (Folded(kinds, rs, k) || Deferred(kinds, rs, k)) then Emptied(rs[k])
    else if k < n && Bared(kinds, rs, k) then Stripped(rs[k])
    else Absorbed(kinds, rs, n, k)
  }

  ghost function Progresses(kinds: Kinds, rs: seq<Record>, n: nat): (out: seq<Record>)
    requires n <= |rs|
    ensures |out| == |rs| && forall k :: 0 <= k < |rs| ==> out[k] == Progress(kinds, rs, n, k)
  {
    seq(|rs|, k requires 0 <= k < |rs| => Progress(kinds, rs, n, k))
  }

  ghost predicate DroppedBy(kinds: Kinds, rs: seq<Record>, n: nat, k: nat) {
    Loser(kinds, rs, k) || (k < n && Dropped(kinds, rs, k))
  }

  // The dropped records at that point.
  ghost predicate Drops(kinds: Kinds, rs: seq<Record>, n: nat, drop: set<nat>) {
    forall k: nat :: k in drop <==> DroppedBy(kinds, rs, n, k)
  }

  // The edges that deferring records have moved to the standalone stream.
  ghost function Moved(kinds: Kinds, rs: seq<Record>, n: nat): seq<Edge>
    requires n <= |rs|
  {
    if n == 0 then []
    else Moved(kinds, rs, n - 1) + if Deferred(kinds, rs, n - 1) then BindAll(rs[n - 1].rels, rs[n - 1].id) else []
  }

  // ---------------------------------------------------------------------------------------------
  // One record at a time.

  lemma ProgressStart(kinds: Kinds, rs: seq<Record>)
    ensures Progresses(kinds, rs, 0) == Siblings(kinds, rs)
  {
  }

  // Only survivors absorb anything.
  lemma {:induction false} NoCandidateNoChange(kinds: Kinds, rs: seq<Record>, n: nat, k: nat)
    requires n <= |rs| && k < |rs| && !IsCand(kinds, rs[k])
    ensures Absorbed(kinds, rs, n, k) == rs[k]
  {
    if n > 0 {
      NoCandidateNoChange(kinds, rs, n - 1, k);
    }
  }

  lemma CandSurvives(kinds: Kinds, rs: seq<Record>, k: nat)
    requires k < |rs|
    ensures IsCand(kinds, rs[k]) ==> Survives(kinds, rs, SymbolOf(rs[k]))
  {
    if IsCand(kinds, rs[k]) {
      assert CandOf(kinds, rs, k) in CandsOf(kinds, rs, SymbolOf(rs[k]));
    }
  }

  // What is folded, deferred or bared is no candidate, so it has not changed before.
  lemma SourceUntouched(kinds: Kinds, rs: seq<Record>, n: nat, k: nat)
    requires n <= |rs| && (Folded(kinds, rs, k) || Deferred(kinds, rs, k) || Bared(kinds, rs, k))
    ensures !IsCand(kinds, rs[k]) && Absorbed(kinds, rs, n, k) == rs[k]
  {
    CandSurvives(kinds, rs, k);
    NoCandidateNoChange(kinds, rs, n, k);
  }

  lemma {:induction false} ProgressKeeps(kinds: Kinds, rs: seq<Record>, n: nat, k: nat)
    requires n < |rs| && k < |rs| && k != n && (Folded(kinds, rs, n) ==> Home(kinds, rs, SymbolOf(rs[n])) != k)
    ensures Progress(kinds, rs, n + 1, k) == Progress(kinds, rs, n, k)
  {
  }

  lemma {:induction false} ProgressSkip(kinds: Kinds, rs: seq<Record>, n: nat)
    requires n < |rs| && !Folded(kinds, rs, n) && !Deferred(kinds, rs, n) && !Bared(kinds, rs, n)
    ensures Progresses(kinds, rs, n + 1) == Progresses(kinds, rs, n)
    ensures Moved(kinds, rs, n + 1) == Moved(kinds, rs, n)
  {
    var n' := n + 1;
    forall k: nat | k < |rs| ensures Progress(kinds, rs, n', k) == Progress(kinds, rs, n, k) {
      if k != n {
        ProgressKeeps(kinds, rs, n, k);
      }
    }
    assert Moved(kinds, rs, n) + [] == Moved(kinds, rs, n);
  }

  // The sequence after one record has changed, and with it its home if it folds.
  lemma {:induction false} ProgressOne(kinds: Kinds, rs: seq<Record>, n: nat, r: Record)
    requires n < |rs| && !Folded(kinds, rs, n) && r == Progress(kinds, rs, n + 1, n)
    ensures Progresses(kinds, rs, n + 1) == Progresses(kinds, rs, n)[n := r]
  {
    var cur, next := Progresses(kinds, rs, n), Progresses(kinds, rs, n + 1);
    forall k: nat | k < |rs| ensures next[k] == cur[n := r][k] {
      if k != n {
        ProgressKeeps(kinds, rs, n, k);
      }
    }
  }

  lemma {:induction false} ProgressFold(kinds: Kinds, rs: seq<Record>, n: nat, w: nat, cur: seq<Record>)
    requires Folded(kinds, rs, n) && w == Home(kinds, rs, SymbolOf(rs[n])) && cur == Progresses(kinds, rs, n)
    ensures w != n && cur[n] == rs[n] && SameIdentity(cur[w], rs[w])
    ensures Progresses(kinds, rs, n + 1) == cur[w := Absorb(cur[w], rs[n])][n := Emptied(rs[n])]
  {
    SourceUntouched(kinds, rs, n, n);
    HomeAbsorbs(kinds, rs, n, w);
    var next := Progresses(kinds, rs, n + 1);
    var next' := cur[w := Absorb(cur[w], rs[n])][n := Emptied(rs[n])];
    forall k: nat | k < |rs| ensures next[k] == next'[k] {
      if k != n && k != w {
        ProgressKeeps(kinds, rs, n, k);
      }
    }
  }

  lemma {:induction false} HomeAbsorbs(kinds: Kinds, rs: seq<Record>, n: nat, w: nat)
    requires Folded(kinds, rs, n) && w == Home(kinds, rs, SymbolOf(rs[n]))
    ensures w != n && !Dropped(kinds, rs, w) && !Bared(kinds, rs, w)
    ensures Progress(kinds, rs, n, w) == Absorbed(kinds, rs, n, w)
    ensures Progress(kinds, rs, n + 1, w) == Absorb(Absorbed(kinds, rs, n, w), rs[n])
  {
    SurvivorStays(kinds, rs, SymbolOf(rs[n]));
  }

  lemma SurvivorStays(kinds: Kinds, rs: seq<Record>, sym: Symbol)
    requires Survives(kinds, rs, sym)
    ensures var w := Home(kinds, rs, sym); !Dropped(kinds, rs, w) && !Bared(kinds, rs, w)
  {
  }

  // ---------------------------------------------------------------------------------------------
  // What the fold-source test sees.

  // A record keeps its identity and every property except possibly the provenance of an inferred one.
  ghost predicate Keeps(r: Record, cur: Record) {
    && SameIdentity(cur, r)
    && forall key :: key in r.props && key != "provenance" ==> key in cur.props && cur.props[key] == r.props[key]
  }

  lemma AbsorbKeeps(sv0: Record, sv: Record, r: Record)
    requires Keeps(sv0, sv)
    ensures Keeps(sv0, Absorb(sv, r)) && Prop(Absorb(sv, r), "provenance") == Prop(sv, "provenance")
  {
  }

  lemma {:induction false} CollectedKeeps(rs: seq<Record>, w: nat, cands: seq<Cand>)
    requires w < |rs| && forall c :: c in cands ==> c.idx < |rs|
    ensures var r := Collected(rs, w, cands); Keeps(rs[w], r) && Prop(r, "provenance") == Prop(rs[w], "provenance")
  {
    if cands != [] {
      var init, c := cands[..|cands| - 1], cands[|cands| - 1];
      assert cands == init + [c];
      CollectedKeeps(rs, w, init);
      AbsorbKeeps(rs[w], Collected(rs, w, init), rs[c.idx]);
    }
  }

  lemma SiblingKeeps(kinds: Kinds, rs: seq<Record>, k: nat)
    requires k < |rs|
    ensures Keeps(rs[k], Sibling(kinds, rs, k))
      && Prop(Sibling(kinds, rs, k), "provenance") == Prop(rs[k], "provenance")
  {
    if IsCand(kinds, rs[k]) {
      assert CandOf(kinds, rs, k) in CandsOf(kinds, rs, SymbolOf(rs[k]));
      CollectedKeeps(rs, Home(kinds, rs, SymbolOf(rs[k])), CandsOf(kinds, rs, SymbolOf(rs[k])));
    }
  }

  // Keeps, and as inferred as before.
  ghost predicate StaysAs(r: Record, cur: Record) {
    Keeps(r, cur) && Prop(cur, "provenance") == Prop(r, "provenance")
  }

  lemma StaysAbsorbing(kinds: Kinds, rs: seq<Record>, n: nat, w: nat, m: nat)
    requires n < |rs| && w < |rs| && m == n + 1
    requires StaysAs(rs[w], Absorbed(kinds, rs, n, w))
    ensures StaysAs(rs[w], Absorbed(kinds, rs, m, w))
  {
    AbsorbKeeps(rs[w], Absorbed(kinds, rs, n, w), rs[n]);
  }

  lemma {:induction false} AbsorbedKeeps(kinds: Kinds, rs: seq<Record>, n: nat, w: nat)
    requires n <= |rs| && w < |rs|
    ensures StaysAs(rs[w], Absorbed(kinds, rs, n, w))
    decreases n
  {
    if n == 0 {
      SiblingKeeps(kinds, rs, w);
    } else {
      var m: nat := n - 1;
      AbsorbedKeeps(kinds, rs, m, w);
      StaysAbsorbing(kinds, rs, m, w, n);
    }
  }

  // Whether record n is a fold source has not changed since the input.
  lemma {:induction false} SourceTest(kinds: Kinds, rs: seq<Record>, n: nat)
    requires kinds.Generic() && n < |rs|
    ensures var r := Progress(kinds, rs, n, n);
      kinds.IsFoldSource(r) == kinds.IsFoldSource(rs[n]) && IsShadow(r) == IsShadow(rs[n])
  {
    AbsorbedKeeps(kinds, rs, n, n);
    if !IsCand(kinds, rs[n]) {
      NoCandidateNoChange(kinds, rs, n, n);
    }
  }

  function RealIds(rs: seq<Record>): set<Id> {
    set r | r in rs && r.id != "" && !IsShadow(r) :: r.id
  }

  lemma RealIdsOfSiblings(kinds: Kinds, rs: seq<Record>)
    ensures RealIds(Siblings(kinds, rs)) == RealIds(rs)
  {
    var sib := Siblings(kinds, rs);
    forall x ensures x in RealIds(sib) <==> x in RealIds(rs) {
      if x in RealIds(sib) {
        var k :| 0 <= k < |sib| && sib[k].id == x && !IsShadow(sib[k]);
        SiblingKeeps(kinds, rs, k);
        assert rs[k] in rs;
      }
      if x in RealIds(rs) {
        var k :| 0 <= k < |rs| && rs[k].id == x && !IsShadow(rs[k]);
        SiblingKeeps(kinds, rs, k);
        assert sib[k] in sib;
      }
    }
  }

  // ---------------------------------------------------------------------------------------------
  // The loop over the fold sources.

  // Everything the loop keeps.
  ghost predicate AtSource(kinds: Kinds, rs: seq<Record>, n: nat, cur: seq<Record>, drop: set<nat>, remap: Renaming,
                           pass0: seq<Edge>, pass2: seq<Edge>)
  {
    && n <= |rs| && cur == Progresses(kinds, rs, n) && Drops(kinds, rs, n, drop)
    && Remembers(kinds, rs, remap, drop) && pass2 == pass0 + Moved(kinds, rs, n)
  }

  lemma {:induction false} SkipSource(kinds: Kinds, rs: seq<Record>, n: nat, cur: seq<Record>, drop: set<nat>,
                                      remap: Renaming, pass0: seq<Edge>, pass2: seq<Edge>)
    requires n < |rs| && AtSource(kinds, rs, n, cur, drop, remap, pass0, pass2)
    requires !Folded(kinds, rs, n) && !Deferred(kinds, rs, n) && !Bared(kinds, rs, n)
    ensures AtSource(kinds, rs, n + 1, cur, drop, remap, pass0, pass2)
  {
    ProgressSkip(kinds, rs, n);
    DropNone(kinds, rs, n, drop);
  }

  lemma DroppedSame(kinds: Kinds, rs: seq<Record>, n: nat, k: nat, m: nat)
    requires m == n + 1 && (Dropped(kinds, rs, n) ==> Loser(kinds, rs, n))
    ensures DroppedBy(kinds, rs, m, k) == DroppedBy(kinds, rs, n, k)
  {
  }

  lemma {:induction false} DropNone(kinds: Kinds, rs: seq<Record>, n: nat, drop: set<nat>)
    requires Drops(kinds, rs, n, drop) && !Folded(kinds, rs, n) && !Deferred(kinds, rs, n)
    ensures Drops(kinds, rs, n + 1, drop)
  {
    var m := n + 1;
    forall k: nat ensures k in drop <==> DroppedBy(kinds, rs, m, k) {
      assert k in drop <==> DroppedBy(kinds, rs, n, k);
      DroppedSame(kinds, rs, n, k, m);
    }
  }

  lemma {:induction false} DroppedMore(kinds: Kinds, rs: seq<Record>, n: nat, k: nat, m: nat)
    requires m == n + 1
    requires Dropped(kinds, rs, n)
    ensures DroppedBy(kinds, rs, m, k) <==> DroppedBy(kinds, rs, n, k) || k == n
  {
  }

  lemma {:induction false} DropOne(kinds: Kinds, rs: seq<Record>, n: nat, drop: set<nat>)
    requires n < |rs|
    requires Drops(kinds, rs, n, drop)
    requires Dropped(kinds, rs, n)
    ensures Drops(kinds, rs, n + 1, drop + {n})
  {
    var n', drop' := n + 1, drop + {n};
    forall k: nat ensures k in drop' <==> DroppedBy(kinds, rs, n', k) {
      assert k in drop <==> DroppedBy(kinds, rs, n, k);
      DroppedMore(kinds, rs, n, k, n');
    }
  }

  lemma {:induction false} RemembersMore(kinds: Kinds, rs: seq<Record>, remap: Renaming, drop: set<nat>,
                                         remap': Renaming, n: nat)
    requires Remembers(kinds, rs, remap, drop) && PartOf(remap', Rho(kinds, rs)) && remap.Keys <= remap'.Keys
    requires n < |rs| && (rs[n].id in remap' || !Renames(kinds, rs, n))
    ensures Remembers(kinds, rs, remap', drop + {n})
  {
  }

  // The ways a fold source with a survivor is decided.
  lemma {:induction false} Decided(kinds: Kinds, rs: seq<Record>, n: nat)
    requires n < |rs| && !Loser(kinds, rs, n) && Survives(kinds, rs, SymbolOf(rs[n]))
    ensures !Deferred(kinds, rs, n) && !Bared(kinds, rs, n) && (Dropped(kinds, rs, n) <==> Folded(kinds, rs, n))
    ensures Folded(kinds, rs, n) <==>
      kinds.IsFoldSource(rs[n]) && rs[n].id !in Anchors(Siblings(kinds, rs))
      && rs[Home(kinds, rs, SymbolOf(rs[n]))].id != rs[n].id
  {
  }

  lemma NotASource(kinds: Kinds, rs: seq<Record>, n: nat)
    requires n < |rs| && (Loser(kinds, rs, n) || !kinds.IsFoldSource(rs[n]))
    ensures !Folded(kinds, rs, n) && !Deferred(kinds, rs, n) && !Bared(kinds, rs, n)
  {
    CandSurvives(kinds, rs, n);
  }

  lemma MergeReady(kinds: Kinds, rs: seq<Record>, n: nat, w: nat)
    requires Identified(rs) && Folded(kinds, rs, n) && w == Home(kinds, rs, SymbolOf(rs[n]))
    ensures rs[w].id != "" && rs[n].id != "" && rs[n].id != rs[w].id
    ensures Renamed(Rho(kinds, rs), rs[n].id) == rs[w].id && Renamed(Rho(kinds, rs), rs[w].id) == rs[w].id
  {
    RhoAt(kinds, rs, n);
    HomeStays(kinds, rs, w);
    assert rs[w] in rs && rs[n] in rs;
  }

  method FoldInto(kinds: Kinds, merged: array<Record>, n: nat, w: nat, drop0: set<nat>, remap0: Renaming,
                  pass2: seq<Edge>, ghost pass0: seq<Edge>, ghost rs: seq<Record>)
    returns (drop: set<nat>, remap: Renaming)
    requires Identified(rs) && Folded(kinds, rs, n) && w == Home(kinds, rs, SymbolOf(rs[n]))
    requires AtSource(kinds, rs, n, merged[..], drop0, remap0, pass0, pass2)
    modifies merged
    ensures AtSource(kinds, rs, n + 1, merged[..], drop, remap, pass0, pass2)
  {
    ProgressFold(kinds, rs, n, w, merged[..]);
    MergeReady(kinds, rs, n, w);
    SourceUntouched(kinds, rs, n, n);
    assert Moved(kinds, rs, n) + [] == Moved(kinds, rs, n);
    remap := Merge(merged, n, w, remap0, Rho(kinds, rs));
    RemembersMore(kinds, rs, remap0, drop0, remap, n);
    DropOne(kinds, rs, n, drop0);
    drop := drop0 + {n};
  }

  // A class record with no framework-typed survivor: an inferred one defers to a real record of its ID, or
  // stays, without the provenance if it has a real line.
  method KeepOrDefer(kinds: Kinds, merged: array<Record>, n: nat, actual: set<Id>, drop0: set<nat>, pass1: seq<Edge>,
                     ghost remap: Renaming, ghost pass0: seq<Edge>, ghost rs: seq<Record>)
    returns (drop: set<nat>, pass2: seq<Edge>)
    requires Identified(rs) && n < |rs| && actual == RealIds(rs) && !Survives(kinds, rs, SymbolOf(rs[n]))
    requires rs[n].name != "" && rs[n] in rs
    requires AtSource(kinds, rs, n, merged[..], drop0, remap, pass0, pass1)
    modifies merged
    ensures AtSource(kinds, rs, n + 1, merged[..], drop, remap, pass0, pass2)
  {
    drop, pass2 := drop0, pass1;
    NoSurvivorUntouched(kinds, rs, n);
    var r := merged[n];
    if IsShadow(r) && r.id in actual {
      DeferOne(kinds, rs, n, merged[..], drop, remap, pass0, pass2);
      drop, pass2 := drop + {n}, pass2 + BindAll(r.rels, r.id);
      merged[n] := Emptied(r);
      return;
    }
    if IsShadow(r) && r.startLine > 0 {
      StripOne(kinds, rs, n, merged[..], drop, remap, pass0, pass2);
      merged[n] := Stripped(r);
      return;
    }
    SkipSource(kinds, rs, n, merged[..], drop, remap, pass0, pass2);
  }

  lemma {:induction false} DeferOne(kinds: Kinds, rs: seq<Record>, n: nat, cur: seq<Record>, drop: set<nat>,
                                    remap: Renaming, pass0: seq<Edge>, pass2: seq<Edge>)
    requires AtSource(kinds, rs, n, cur, drop, remap, pass0, pass2)
    requires Deferred(kinds, rs, n)
    ensures cur[n] == rs[n]
    ensures AtSource(kinds, rs, n + 1, cur[n := Emptied(rs[n])], drop + {n}, remap, pass0,
      pass2 + BindAll(rs[n].rels, rs[n].id))
  {
    SourceUntouched(kinds, rs, n, n);
    ProgressOne(kinds, rs, n, Emptied(rs[n]));
    DropOne(kinds, rs, n, drop);
    RemembersMore(kinds, rs, remap, drop, remap, n);
    MovedMore(kinds, rs, n, pass0);
  }

  lemma MovedMore(kinds: Kinds, rs: seq<Record>, n: nat, pass0: seq<Edge>)
    requires n < |rs| && Deferred(kinds, rs, n)
    ensures pass0 + Moved(kinds, rs, n) + BindAll(rs[n].rels, rs[n].id) == pass0 + Moved(kinds, rs, n + 1)
  {
    var moved, more := Moved(kinds, rs, n), BindAll(rs[n].rels, rs[n].id);
    assert pass0 + moved + more == pass0 + (moved + more);
  }

  lemma NoSurvivorUntouched(kinds: Kinds, rs: seq<Record>, n: nat)
    requires n < |rs| && !Survives(kinds, rs, SymbolOf(rs[n])) && Identified(rs) && rs[n].name != "" && rs[n] in rs
    ensures Progress(kinds, rs, n, n) == rs[n] && !Folded(kinds, rs, n) && !Loser(kinds, rs, n)
      && !Renames(kinds, rs, n)
    ensures Deferred(kinds, rs, n) <==> IsShadow(rs[n]) && rs[n].id in RealIds(rs)
  {
    CandSurvives(kinds, rs, n);
    NoCandidateNoChange(kinds, rs, n, n);
  }

  lemma {:induction false} StripOne(kinds: Kinds, rs: seq<Record>, n: nat, cur: seq<Record>, drop: set<nat>,
                                    remap: Renaming, pass0: seq<Edge>, pass2: seq<Edge>)
    requires AtSource(kinds, rs, n, cur, drop, remap, pass0, pass2) && Bared(kinds, rs, n)
    ensures cur[n] == rs[n]
    ensures AtSource(kinds, rs, n + 1, cur[n := Stripped(rs[n])], drop, remap, pass0, pass2)
  {
    SourceUntouched(kinds, rs, n, n);
    ProgressOne(kinds, rs, n, Stripped(rs[n]));
    var n' := n + 1;
    forall k: nat ensures DroppedBy(kinds, rs, n, k) == DroppedBy(kinds, rs, n', k) {
    }
    assert Moved(kinds, rs, n) + [] == Moved(kinds, rs, n);
  }

  // A class record with a framework-typed survivor folds, unless it is an anchor or shares the survivor's ID.
  method FoldOrKeep(kinds: Kinds, merged: array<Record>, n: nat, heads: map<Symbol, seq<Cand>>, anchors: set<Id>,
                    drop0: set<nat>, remap0: Renaming, pass2: seq<Edge>, ghost pass0: seq<Edge>, ghost rs: seq<Record>)
    returns (drop: set<nat>, remap: Renaming)
    requires Identified(rs) && n < |rs| && !Loser(kinds, rs, n) && kinds.IsFoldSource(rs[n])
    requires SymbolOf(rs[n]) in heads && Head(kinds, rs, heads, SymbolOf(rs[n]))
    requires anchors == Anchors(Siblings(kinds, rs)) && |rs| == merged.Length && SameIdentity(merged[n], rs[n])
    requires AtSource(kinds, rs, n, merged[..], drop0, remap0, pass0, pass2)
    modifies merged
    ensures AtSource(kinds, rs, n + 1, merged[..], drop, remap, pass0, pass2)
  {
    drop, remap := drop0, remap0;
    Decided(kinds, rs, n);
    if merged[n].id in anchors {
      SkipSource(kinds, rs, n, merged[..], drop, remap, pass0, pass2);
      return;
    }
    var best := BestCand(heads[SymbolOf(merged[n])]);
    if best.id == merged[n].id {
      SkipSource(kinds, rs, n, merged[..], drop, remap, pass0, pass2);
      return;
    }
    drop, remap := FoldInto(kinds, merged, n, best.idx, drop, remap, pass2, pass0, rs);
  }

  method FoldSource(kinds: Kinds, merged: array<Record>, n: nat, heads: map<Symbol, seq<Cand>>, anchors: set<Id>,
                    actual: set<Id>, drop0: set<nat>, remap0: Renaming, pass1: seq<Edge>, ghost pass0: seq<Edge>,
                    ghost rs: seq<Record>)
    returns (drop: set<nat>, remap: Renaming, pass2: seq<Edge>)
    requires kinds.Generic() && Identified(rs) && n < |rs| == merged.Length && Heads(kinds, rs, heads)
    requires anchors == Anchors(Siblings(kinds, rs)) && actual == RealIds(rs)
    requires AtSource(kinds, rs, n, merged[..], drop0, remap0, pass0, pass1)
    modifies merged
    ensures AtSource(kinds, rs, n + 1, merged[..], drop, remap, pass0, pass2)
  {
    drop, remap, pass2 := drop0, remap0, pass1;
    SourceTest(kinds, rs, n);
    var r := merged[n];
    assert r == Progress(kinds, rs, n, n);
    assert n in drop <==> DroppedBy(kinds, rs, n, n);
    if n in drop || !kinds.IsFoldSource(r) {
      NotASource(kinds, rs, n);
      SkipSource(kinds, rs, n, merged[..], drop, remap, pass0, pass2);
      return;
    }
    assert Head(kinds, rs, heads, SymbolOf(r)) && rs[n] in rs;
    if SymbolOf(r) !in heads {
      drop, pass2 := KeepOrDefer(kinds, merged, n, actual, drop, pass2, remap, pass0, rs);
      return;
    }
    drop, remap := FoldOrKeep(kinds, merged, n, heads, anchors, drop, remap, pass2, pass0, rs);
  }

  lemma NoSourceYet(kinds: Kinds, rs: seq<Record>, drop: set<nat>, remap: Renaming, pass0: seq<Edge>)
    requires (forall k: nat :: k in drop <==> Loser(kinds, rs, k)) && Remembers(kinds, rs, remap, drop)
    ensures AtSource(kinds, rs, 0, Siblings(kinds, rs), drop, remap, pass0, pass0)
  {
    ProgressStart(kinds, rs);
    assert pass0 + [] == pass0;
  }

  method FoldSources(kinds: Kinds, merged: array<Record>, pass0: seq<Edge>, heads: map<Symbol, seq<Cand>>,
                     drop0: set<nat>, remap0: Renaming, ghost rs: seq<Record>)
    returns (drop: set<nat>, remap: Renaming, pass2: seq<Edge>)
    requires kinds.Generic() && Identified(rs) && merged[..] == Siblings(kinds, rs) && Heads(kinds, rs, heads)
    requires (forall k: nat :: k in drop0 <==> Loser(kinds, rs, k)) && Remembers(kinds, rs, remap0, drop0)
    modifies merged
    ensures AtSource(kinds, rs, |rs|, merged[..], drop, remap, pass0, pass2)
  {
    drop, remap, pass2 := drop0, remap0, pass0;
    var anchors, actual := Anchors(merged[..]), RealIds(merged[..]);
    RealIdsOfSiblings(kinds, rs);
    NoSourceYet(kinds, rs, drop, remap, pass0);
    for n := 0 to merged.Length
      invariant AtSource(kinds, rs, n, merged[..], drop, remap, pass0, pass2)
    {
      drop, remap, pass2 := FoldSource(kinds, merged, n, heads, anchors, actual, drop, remap, pass2, pass0, rs);
    }
  }

  // ---------------------------------------------------------------------------------------------
  // The whole fold.

  ghost function FoldedSet(kinds: Kinds, rs: seq<Record>): set<nat> {
    set k: nat | k < |rs| && Dropped(kinds, rs, k)
  }

  // The fold's whole effect on the records, and on the standalone edges.
  ghost function FoldedRecords(kinds: Kinds, rs: seq<Record>): seq<Record> {
    Kept(RepointAll(Rho(kinds, rs), Progresses(kinds, rs, |rs|)), FoldedSet(kinds, rs))
  }

  ghost function FoldedStream(kinds: Kinds, rs: seq<Record>, pass0: seq<Edge>): seq<Edge> {
    RewriteAll(Rho(kinds, rs), pass0 + Moved(kinds, rs, |rs|))
  }

  lemma RemapComplete(kinds: Kinds, rs: seq<Record>, remap: Renaming, drop: set<nat>)
    requires Remembers(kinds, rs, remap, drop) && forall k: nat :: Renames(kinds, rs, k) ==> k in drop
    ensures remap == Rho(kinds, rs)
  {
    forall x | x in Rho(kinds, rs) ensures x in remap {
      RememberedAt(kinds, rs, remap, drop, x);
    }
    AllOf(remap, Rho(kinds, rs));
  }

  lemma AllOf(remap: Renaming, rho: Renaming)
    requires PartOf(remap, rho) && forall x :: x in rho ==> x in remap
    ensures remap == rho
  {
  }

  lemma RememberedAt(kinds: Kinds, rs: seq<Record>, remap: Renaming, drop: set<nat>, x: Id)
    requires Remembers(kinds, rs, remap, drop) && forall k: nat :: Renames(kinds, rs, k) ==> k in drop
    requires x in Rho(kinds, rs)
    ensures x in remap
  {
    var k: nat :| k < |rs| && Renames(kinds, rs, k) && rs[k].id == x;
  }

  lemma Outcome(kinds: Kinds, rs: seq<Record>, remap: Renaming, drop: set<nat>)
    requires Drops(kinds, rs, |rs|, drop) && Remembers(kinds, rs, remap, drop)
    ensures drop == FoldedSet(kinds, rs) && remap == Rho(kinds, rs)
  {
    forall k: nat ensures k in drop <==> k < |rs| && Dropped(kinds, rs, k) {
      assert k in drop <==> DroppedBy(kinds, rs, |rs|, k);
    }
    forall k: nat | Renames(kinds, rs, k) ensures k in drop {
      assert DroppedBy(kinds, rs, |rs|, k);
    }
    RemapComplete(kinds, rs, remap, drop);
  }

  // Dropped records own no edge any more.
  lemma DroppedAreEmpty(kinds: Kinds, rs: seq<Record>)
    ensures forall k :: 0 <= k < |rs| && k in FoldedSet(kinds, rs) ==> Progresses(kinds, rs, |rs|)[k].rels == []
  {
    forall k: nat | k in FoldedSet(kinds, rs) ensures Progress(kinds, rs, |rs|, k).rels == [] {
      if Loser(kinds, rs, k) {
        LoserStays(kinds, rs, |rs|, k);
        NotASource(kinds, rs, k);
      }
    }
  }

  lemma LoserIsNoHome(kinds: Kinds, rs: seq<Record>, sym: Symbol, k: nat)
    requires Loser(kinds, rs, k) && Survives(kinds, rs, sym)
    ensures Home(kinds, rs, sym) != k
  {
  }

  lemma {:induction false} AbsorbedSkips(kinds: Kinds, rs: seq<Record>, n: nat, k: nat)
    requires n < |rs| && k < |rs| && (Folded(kinds, rs, n) ==> Home(kinds, rs, SymbolOf(rs[n])) != k)
    ensures Absorbed(kinds, rs, n + 1, k) == Absorbed(kinds, rs, n, k)
  {
  }

  // Nothing folds into a loser.
  lemma {:induction false} LoserStays(kinds: Kinds, rs: seq<Record>, n: nat, k: nat)
    requires n <= |rs| && Loser(kinds, rs, k)
    ensures Absorbed(kinds, rs, n, k) == Sibling(kinds, rs, k)
  {
    if n > 0 {
      var m := n - 1;
      LoserStays(kinds, rs, m, k);
      if Folded(kinds, rs, m) {
        LoserIsNoHome(kinds, rs, SymbolOf(rs[m]), k);
      }
      AbsorbedSkips(kinds, rs, m, k);
    }
  }

  // With nothing dropped or renamed there is nothing to repoint or compact.
  lemma NothingFolded(kinds: Kinds, rs: seq<Record>, pass0: seq<Edge>)
    requires Rho(kinds, rs) == map[] && FoldedSet(kinds, rs) == {}
    ensures FoldedRecords(kinds, rs) == Progresses(kinds, rs, |rs|)
    ensures FoldedStream(kinds, rs, pass0) == pass0 + Moved(kinds, rs, |rs|)
  {
    RepointNothing(Progresses(kinds, rs, |rs|));
    KeptAll(Progresses(kinds, rs, |rs|));
  }

  method FoldClassHierarchyShadows(kinds: Kinds, merged: array<Record>, pass2: seq<Edge>)
    returns (n: nat, pass2': seq<Edge>)
    requires kinds.Generic() && Identified(merged[..])
    modifies merged
    ensures n <= merged.Length && merged[..n] == FoldedRecords(kinds, old(merged[..]))
    ensures pass2' == FoldedStream(kinds, old(merged[..]), pass2)
  {
    ghost var rs := merged[..];
    var drop, remap, rest := Decide(kinds, merged, pass2);
    Outcome(kinds, rs, remap, drop);
    n, pass2' := Finish(kinds, merged, drop, remap, rest, rs, pass2);
  }

  // Repoints every remaining edge, then drops the folded records in place.
  method Finish(kinds: Kinds, merged: array<Record>, drop: set<nat>, remap: Renaming, rest: seq<Edge>,
                ghost rs: seq<Record>, ghost pass0: seq<Edge>)
    returns (n: nat, pass2: seq<Edge>)
    requires merged[..] == Progresses(kinds, rs, |rs|) && rest == pass0 + Moved(kinds, rs, |rs|)
    requires drop == FoldedSet(kinds, rs) && remap == Rho(kinds, rs)
    modifies merged
    ensures n <= merged.Length && merged[..n] == FoldedRecords(kinds, rs)
    ensures pass2 == FoldedStream(kinds, rs, pass0)
  {
    n, pass2 := merged.Length, rest;
    if |remap| == 0 && |drop| == 0 {
      NothingFolded(kinds, rs, pass0);
      assert merged[..n] == merged[..];
      return;
    }
    DroppedAreEmpty(kinds, rs);
    Repoint(merged, drop, remap);
    assert merged[..] == RepointAll(remap, Progresses(kinds, rs, |rs|));
    pass2 := RewriteAll(remap, rest);
    n := Compact(merged, drop);
  }

  method Decide(kinds: Kinds, merged: array<Record>, pass0: seq<Edge>)
    returns (drop: set<nat>, remap: Renaming, pass2: seq<Edge>)
    requires kinds.Generic() && Identified(merged[..])
    modifies merged
    ensures AtSource(kinds, old(merged[..]), merged.Length, merged[..], drop, remap, pass0, pass2)
  {
    ghost var rs := merged[..];
    var bySymbol := IndexCandidates(kinds, merged);
    var heads;
    drop, remap, heads := SiblingFold(kinds, merged, bySymbol);
    drop, remap, pass2 := FoldSources(kinds, merged, pass0, heads, drop, remap, rs);
  }
}
