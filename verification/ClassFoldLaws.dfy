// What the class fold guarantees: no edge lost or invented, every name still resolves, one record per class.
module ClassFoldLaws {
  import opened Graph
  import opened Records
  import opened Edges
  import opened EdgeLaws
  import opened ClassKinds
  import opened Canonical
  import opened ClassFold

  // ---------------------------------------------------------------------------------------------
  // Conservation.

  // Collapsing one symbol moves edges to its winner and loses none.
  lemma {:induction false} CollapseLedger(rs: seq<Record>, before: seq<Record>, w: nat, cands: seq<Cand>, rho: Renaming)
    returns (cur: seq<Record>, drop: set<nat>)
    requires |before| == |rs| && Gathers(rs, rho, cands, w) && before[w] == rs[w]
    requires forall c :: c in cands ==> before[c.idx] == rs[c.idx]
    requires forall i, j :: 0 <= i < j < |cands| ==> cands[i].idx != cands[j].idx
    ensures Collapsed(rs, before, cur, w, cands, drop) && Ledger(rho, cur) == Ledger(rho, before)
  {
    if cands == [] {
      return before, {};
    }
    var n := |cands| - 1;
    var init, c := cands[..n], cands[n];
    assert cands == init + [c];
    NotMetYet(cands, n, w);
    cur, drop := CollapseLedger(rs, before, w, init, rho);
    CollapseSnoc(rs, before, cur, w, init, drop, c);
    if c.idx != w {
      GathersOne(rs, rho, cands, w, c);
      MoveLedger(rs, cur, w, c, rho);
      cur, drop := cur[w := Absorb(cur[w], rs[c.idx])][c.idx := Emptied(rs[c.idx])], drop + {c.idx};
    }
  }

  lemma MoveLedger(rs: seq<Record>, cur: seq<Record>, w: nat, c: Cand, rho: Renaming)
    requires |cur| == |rs| && Gathers(rs, rho, [c], w) && c.idx < |rs| && c.idx != w
    requires cur[c.idx] == rs[c.idx] && SameIdentity(cur[w], rs[w])
    ensures Ledger(rho, cur[w := Absorb(cur[w], rs[c.idx])][c.idx := Emptied(rs[c.idx])]) == Ledger(rho, cur)
  {
    assert c in [c];
    MoveKeepsLedger(rho, cur, c.idx, w, Absorb(cur[w], rs[c.idx]));
  }

  // So does the whole sibling fold, symbol by symbol.
  lemma {:induction false} SiblingsLedger(kinds: Kinds, rs: seq<Record>, before: seq<Record>, todo: set<Symbol>,
                                          drop: set<nat>)
    requires Identified(rs) && SiblingState(kinds, rs, before, todo, drop)
    requires forall sym :: sym in todo ==> Survives(kinds, rs, sym)
    ensures Ledger(Rho(kinds, rs), Siblings(kinds, rs)) == Ledger(Rho(kinds, rs), before)
    decreases todo
  {
    if todo == {} {
      AllCollapsed(kinds, rs, before, drop);
    } else {
      var sym :| sym in todo;
      var cur, more := SymbolLedger(kinds, rs, before, todo, drop, sym);
      SiblingsLedger(kinds, rs, cur, todo - {sym}, drop + more);
    }
  }

  lemma SymbolLedger(kinds: Kinds, rs: seq<Record>, before: seq<Record>, todo: set<Symbol>, drop: set<nat>, sym: Symbol)
    returns (cur: seq<Record>, more: set<nat>)
    requires Identified(rs) && SiblingState(kinds, rs, before, todo, drop) && sym in todo && Survives(kinds, rs, sym)
    ensures SiblingState(kinds, rs, cur, todo - {sym}, drop + more)
    ensures Ledger(Rho(kinds, rs), cur) == Ledger(Rho(kinds, rs), before)
  {
    var cands, w := CandsOf(kinds, rs, sym), Home(kinds, rs, sym);
    GathersSymbol(kinds, rs, sym);
    forall k: nat | k < |rs| && IsCand(kinds, rs[k]) && SymbolOf(rs[k]) == sym ensures before[k] == rs[k] {
      assert SiblingAt(kinds, rs, before, todo, drop, k);
    }
    cur, more := CollapseLedger(rs, before, w, cands, Rho(kinds, rs));
    SiblingStep(kinds, rs, before, cur, todo, drop, sym, more);
  }

  lemma AllSymbols(kinds: Kinds, rs: seq<Record>) returns (todo: set<Symbol>)
    ensures forall sym :: sym in todo <==> Survives(kinds, rs, sym)
  {
    todo := set k | 0 <= k < |rs| && IsCand(kinds, rs[k]) :: SymbolOf(rs[k]);
    forall sym ensures sym in todo <==> Survives(kinds, rs, sym) {
      if sym in todo {
        var k :| 0 <= k < |rs| && IsCand(kinds, rs[k]) && SymbolOf(rs[k]) == sym;
        CandSurvives(kinds, rs, k);
      }
      if Survives(kinds, rs, sym) {
        assert IsCand(kinds, rs[Home(kinds, rs, sym)]);
      }
    }
  }

  lemma SiblingFoldConserves(kinds: Kinds, rs: seq<Record>)
    requires Identified(rs)
    ensures Ledger(Rho(kinds, rs), Siblings(kinds, rs)) == Ledger(Rho(kinds, rs), rs)
  {
    var todo := AllSymbols(kinds, rs);
    Uncollapsed(kinds, rs, todo);
    SiblingsLedger(kinds, rs, rs, todo, {});
  }

  // A deferring record's edges move to the standalone stream, bound to its ID.
  lemma DeferKeepsBalance(rho: Renaming, cur: seq<Record>, pass2: seq<Edge>, k: nat)
    requires k < |cur|
    ensures Balance(rho, cur[k := Emptied(cur[k])], pass2 + BindAll(cur[k].rels, cur[k].id)) == Balance(rho, cur, pass2)
  {
    var mine, cur' := Owned(rho, cur[k]), cur[k := Emptied(cur[k])];
    LedgerUpdate(rho, cur, k, Emptied(cur[k]));
    assert Owned(rho, Emptied(cur[k])) == multiset{};
    assert Ledger(rho, cur') + mine == Ledger(rho, cur);
    BoundSettles(rho, pass2, cur[k].rels, cur[k].id);
    var rest := multiset(RewriteAll(rho, pass2));
    assert Ledger(rho, cur') + (rest + mine) == Ledger(rho, cur') + mine + rest;
  }

  lemma BoundSettles(rho: Renaming, pass2: seq<Edge>, es: seq<Edge>, owner: Id)
    ensures multiset(RewriteAll(rho, pass2 + BindAll(es, owner))) ==
      multiset(RewriteAll(rho, pass2)) + multiset(Settle(rho, owner, es))
  {
    assert RewriteAll(rho, pass2 + BindAll(es, owner)) == RewriteAll(rho, pass2) + Settle(rho, owner, es);
  }

  lemma StripKeepsLedger(rho: Renaming, cur: seq<Record>, k: nat)
    requires k < |cur|
    ensures Ledger(rho, cur[k := Stripped(cur[k])]) == Ledger(rho, cur)
  {
    LedgerUpdate(rho, cur, k, Stripped(cur[k]));
    assert Owned(rho, Stripped(cur[k])) == Owned(rho, cur[k]);
    Cancel(Ledger(rho, cur[k := Stripped(cur[k])]), Ledger(rho, cur), Owned(rho, cur[k]));
  }

  lemma FoldStepBalance(kinds: Kinds, rs: seq<Record>, n: nat, pass2: seq<Edge>)
    requires Identified(rs) && Folded(kinds, rs, n)
    ensures Balance(Rho(kinds, rs), Progresses(kinds, rs, n + 1), pass2) ==
      Balance(Rho(kinds, rs), Progresses(kinds, rs, n), pass2)
  {
    var cur, w := Progresses(kinds, rs, n), Home(kinds, rs, SymbolOf(rs[n]));
    ProgressFold(kinds, rs, n, w, cur);
    MergeReady(kinds, rs, n, w);
    MoveKeepsLedger(Rho(kinds, rs), cur, n, w, Absorb(cur[w], rs[n]));
  }

  // All edges once the first n fold sources are done.
  ghost function BalanceAt(kinds: Kinds, rs: seq<Record>, n: nat, pass0: seq<Edge>): multiset<Edge>
    requires n <= |rs|
  {
    Balance(Rho(kinds, rs), Progresses(kinds, rs, n), pass0 + Moved(kinds, rs, n))
  }

  lemma FoldBalance(kinds: Kinds, rs: seq<Record>, n: nat, pass2: seq<Edge>, m: nat)
    requires Identified(rs) && Folded(kinds, rs, n) && m == n + 1
    ensures Balance(Rho(kinds, rs), Progresses(kinds, rs, m), pass2) ==
      Balance(Rho(kinds, rs), Progresses(kinds, rs, n), pass2)
    ensures Moved(kinds, rs, m) == Moved(kinds, rs, n)
  {
    SourceUntouched(kinds, rs, n, n);
    assert Moved(kinds, rs, n) + [] == Moved(kinds, rs, n);
    FoldStepBalance(kinds, rs, n, pass2);
  }

  lemma DeferBalance(kinds: Kinds, rs: seq<Record>, n: nat, pass2: seq<Edge>, m: nat)
    requires n < |rs| && Deferred(kinds, rs, n) && m == n + 1
    ensures var more := BindAll(rs[n].rels, rs[n].id);
      && Balance(Rho(kinds, rs), Progresses(kinds, rs, m), pass2 + more) ==
        Balance(Rho(kinds, rs), Progresses(kinds, rs, n), pass2)
      && Moved(kinds, rs, m) == Moved(kinds, rs, n) + more
  {
    SourceUntouched(kinds, rs, n, n);
    ProgressOne(kinds, rs, n, Emptied(rs[n]));
    DeferKeepsBalance(Rho(kinds, rs), Progresses(kinds, rs, n), pass2, n);
  }

  lemma StripBalance(kinds: Kinds, rs: seq<Record>, n: nat, pass2: seq<Edge>, m: nat)
    requires n < |rs| && Bared(kinds, rs, n) && m == n + 1
    ensures Balance(Rho(kinds, rs), Progresses(kinds, rs, m), pass2) ==
      Balance(Rho(kinds, rs), Progresses(kinds, rs, n), pass2)
    ensures Moved(kinds, rs, m) == Moved(kinds, rs, n)
  {
    SourceUntouched(kinds, rs, n, n);
    assert Moved(kinds, rs, n) + [] == Moved(kinds, rs, n);
    ProgressOne(kinds, rs, n, Stripped(rs[n]));
    StripKeepsLedger(Rho(kinds, rs), Progresses(kinds, rs, n), n);
  }

  lemma StepBalance(kinds: Kinds, rs: seq<Record>, n: nat, pass0: seq<Edge>, m: nat)
    requires Identified(rs) && n < |rs| && m == n + 1
    ensures BalanceAt(kinds, rs, m, pass0) == BalanceAt(kinds, rs, n, pass0)
  {
    var pass2 := pass0 + Moved(kinds, rs, n);
    if Folded(kinds, rs, n) {
      FoldBalance(kinds, rs, n, pass2, m);
    } else if Deferred(kinds, rs, n) {
      DeferBalance(kinds, rs, n, pass2, m);
      Associates(pass0, Moved(kinds, rs, n), BindAll(rs[n].rels, rs[n].id));
    } else if Bared(kinds, rs, n) {
      StripBalance(kinds, rs, n, pass2, m);
    } else {
      ProgressSkip(kinds, rs, n);
    }
  }

  lemma Associates(a: seq<Edge>, b: seq<Edge>, c: seq<Edge>)
    ensures a + b + c == a + (b + c)
  {
  }

  lemma StartBalance(kinds: Kinds, rs: seq<Record>, n: nat, pass0: seq<Edge>)
    requires Identified(rs) && n == 0
    ensures BalanceAt(kinds, rs, n, pass0) == Balance(Rho(kinds, rs), rs, pass0)
  {
    ProgressStart(kinds, rs);
    SiblingFoldConserves(kinds, rs);
    assert pass0 + Moved(kinds, rs, n) == pass0;
  }

  lemma {:induction false} ProgressBalance(kinds: Kinds, rs: seq<Record>, n: nat, pass0: seq<Edge>, b: multiset<Edge>)
    requires Identified(rs) && n <= |rs| && b == Balance(Rho(kinds, rs), rs, pass0)
    ensures BalanceAt(kinds, rs, n, pass0) == b
    decreases n
  {
    if n == 0 {
      StartBalance(kinds, rs, n, pass0);
    } else {
      ProgressBalance(kinds, rs, n - 1, pass0, b);
      StepBalance(kinds, rs, n - 1, pass0, n);
    }
  }

  // Binding empty sources and applying the renaming, input and output hold the same edges, as multisets.
  lemma EdgesConserved(kinds: Kinds, rs: seq<Record>, pass0: seq<Edge>)
    requires Identified(rs)
    ensures Balance(Rho(kinds, rs), FoldedRecords(kinds, rs), FoldedStream(kinds, rs, pass0)) ==
      Balance(Rho(kinds, rs), rs, pass0)
  {
    var rho, cur := Rho(kinds, rs), Progresses(kinds, rs, |rs|);
    RhoFlat(kinds, rs);
    ProgressBalance(kinds, rs, |rs|, pass0, Balance(rho, rs, pass0));
    RepointKeepsLedger(rho, cur);
    DroppedAreEmpty(kinds, rs);
    KeptLedger(rho, RepointAll(rho, cur), FoldedSet(kinds, rs));
    RewriteSettles(rho, "x", pass0 + Moved(kinds, rs, |rs|));
  }

  // No edge of the output names a renamed ID.
  lemma NoRenamedEndpoint(kinds: Kinds, rs: seq<Record>, pass0: seq<Edge>)
    requires Identified(rs)
    ensures Clean(Rho(kinds, rs), FoldedRecords(kinds, rs), FoldedStream(kinds, rs, pass0))
  {
    var rho, cur := Rho(kinds, rs), Progresses(kinds, rs, |rs|);
    RhoFlat(kinds, rs);
    CleanEdges(rho, cur, pass0 + Moved(kinds, rs, |rs|));
    KeptMembers(RepointAll(rho, cur), FoldedSet(kinds, rs));
  }

  // Record k is no fold source, has the same ID as one that is folded, and owns an edge through an empty
  // source. A sentinel record of the same kind, name and file as a folded class is such a record.
  ghost predicate Worn(kinds: Kinds, rs: seq<Record>, k: nat) {
    && k < |rs| && !Dropped(kinds, rs, k) && RenamedId(kinds, rs, rs[k].id)
    && exists e :: e in rs[k].rels && e.from == ""
  }

  // A record that wears a renamed ID is no survivor, so it takes over nothing.
  lemma WearerIsNoCand(kinds: Kinds, rs: seq<Record>, k: nat)
    requires Identified(rs) && k < |rs| && !Loser(kinds, rs, k) && rs[k].id in Rho(kinds, rs)
    ensures !IsCand(kinds, rs[k])
  {
    if IsCand(kinds, rs[k]) {
      CandSurvives(kinds, rs, k);
      HomeStays(kinds, rs, k);
    }
  }

  lemma StayerUnchanged(kinds: Kinds, rs: seq<Record>, k: nat)
    requires k < |rs| && !Dropped(kinds, rs, k) && !IsCand(kinds, rs[k])
    ensures Progress(kinds, rs, |rs|, k).rels == rs[k].rels
  {
    NoCandidateNoChange(kinds, rs, |rs|, k);
  }

  lemma WornIff(kinds: Kinds, rs: seq<Record>, k: nat)
    requires Identified(rs) && k < |rs| && !Dropped(kinds, rs, k)
    ensures WearsRenamed(Rho(kinds, rs), RewriteRecord(Rho(kinds, rs), Progress(kinds, rs, |rs|, k))) <==>
      Worn(kinds, rs, k)
  {
    var rho := Rho(kinds, rs);
    RhoFlat(kinds, rs);
    assert rs[k] in rs;
    if rs[k].id in rho {
      WearerIsNoCand(kinds, rs, k);
      StayerUnchanged(kinds, rs, k);
      EmptySources(rho, rs[k].rels);
    }
  }

  // Read as assembly reads them, the output's edges are the renamed input edges if and only if no input
  // record is worn.
  lemma ExactUnlessWorn(kinds: Kinds, rs: seq<Record>, pass0: seq<Edge>)
    requires Identified(rs)
    ensures Plain(FoldedRecords(kinds, rs), FoldedStream(kinds, rs, pass0)) == Balance(Rho(kinds, rs), rs, pass0) <==>
      forall k: nat :: !Worn(kinds, rs, k)
  {
    var rho, out, pass2 := Rho(kinds, rs), FoldedRecords(kinds, rs), FoldedStream(kinds, rs, pass0);
    var all := RepointAll(rho, Progresses(kinds, rs, |rs|));
    RhoFlat(kinds, rs);
    EdgesConserved(kinds, rs, pass0);
    NoRenamedEndpoint(kinds, rs, pass0);
    KeptMembers(all, FoldedSet(kinds, rs));
    if k: nat :| Worn(kinds, rs, k) {
      WornIff(kinds, rs, k);
      assert all[k] in out;
      WornIsNotPlain(rho, out, pass2, all[k]);
    } else {
      forall r | r in out ensures !WearsRenamed(rho, r) {
        var k :| 0 <= k < |all| && k !in FoldedSet(kinds, rs) && all[k] == r;
        WornIff(kinds, rs, k);
      }
      UnwornIsPlain(rho, out, pass2);
    }
  }

  // Such an input: a framework record, the generic class record that folds into it, and a placeholder of
  // the class's kind, name and file that owns an edge.
  predicate Wears(kinds: Kinds, rs: seq<Record>) {
    && |rs| == 3 && rs[0].id != "" && rs[0].id != rs[1].id && rs[1].id == rs[2].id != ""
    && SymbolOf(rs[0]) == SymbolOf(rs[1]) && rs[1].kind == rs[2].kind == COMPONENT && rs[0].name != ""
    && rs[1].name == rs[2].name && rs[1].file == rs[2].file
    && kinds.IsFramework(rs[0].kind) && !kinds.IsFramework(COMPONENT)
    && kinds.IsClassLike(rs[1]) && !kinds.IsClassLike(rs[2])
    && (forall r :: r in rs ==> !IsTwin(r) && !IsShadow(r)) && exists e :: e in rs[2].rels && e.from == ""
  }

  lemma OneCandidate(kinds: Kinds, rs: seq<Record>)
    requires Wears(kinds, rs)
    ensures Survives(kinds, rs, SymbolOf(rs[1])) && Home(kinds, rs, SymbolOf(rs[1])) == 0
  {
    assert IsCand(kinds, rs[0]) by {
      assert rs[0] in rs;
    }
    assert CandOf(kinds, rs, 0) in CandsOf(kinds, rs, SymbolOf(rs[1]));
    assert !IsCand(kinds, rs[1]) && !IsCand(kinds, rs[2]);
  }

  lemma TwoCandidates(cands: seq<Cand>)
    requires |cands| > 1 && forall i, j :: 0 <= i < j < |cands| ==> cands[i].idx < cands[j].idx
    ensures exists c, d :: c in cands && d in cands && c.idx != d.idx
  {
    assert cands[0] in cands && cands[1] in cands && cands[0].idx < cands[1].idx;
  }

  // With one candidate the sibling fold does nothing.
  lemma SoleCandidate(kinds: Kinds, rs: seq<Record>)
    requires Wears(kinds, rs)
    ensures CandsOf(kinds, rs, SymbolOf(rs[1])) == [CandOf(kinds, rs, 0)]
  {
    OneCandidate(kinds, rs);
    var cands := CandsOf(kinds, rs, SymbolOf(rs[1]));
    forall c | c in cands ensures c == CandOf(kinds, rs, 0) {
    }
    if |cands| > 1 {
      TwoCandidates(cands);
    }
    assert cands[0] in cands;
  }

  lemma NoSiblings(kinds: Kinds, rs: seq<Record>)
    requires Wears(kinds, rs)
    ensures Siblings(kinds, rs) == rs
  {
    SoleCandidate(kinds, rs);
    AloneStays(kinds, rs, 0);
    AloneStays(kinds, rs, 1);
    AloneStays(kinds, rs, 2);
  }

  lemma WearerIsWorn(kinds: Kinds, rs: seq<Record>)
    requires Wears(kinds, rs) && Identified(rs)
    ensures Worn(kinds, rs, 2)
  {
    OneCandidate(kinds, rs);
    NoSiblings(kinds, rs);
    assert Anchors(rs) == {};
    assert rs[1] in rs && rs[2] in rs;
    assert Folded(kinds, rs, 1) && Renames(kinds, rs, 1);
    assert !kinds.IsFoldSource(rs[2]) && !Loser(kinds, rs, 2);
  }

  // With the program's tables: a model, its generic class record, and the placeholder the ORM linker leaves.
  // The placeholder's edge stays at the folded ID.
  lemma SentinelIsWorn(repo: string, blank: Record, e: Edge) returns (rs: seq<Record>)
    requires blank.name != "" && e.from == "" && blank.props == map[]
    requires NulFree(repo) && NulFree(blank.name)
    ensures |rs| == 3 && Identified(rs) && Worn(Vocabulary(), rs, 2)
    ensures forall r :: r in rs ==> r.name == blank.name && r.file == blank.file && r.id == FinalID(repo, r)
    ensures Plain(FoldedRecords(Vocabulary(), rs), FoldedStream(Vocabulary(), rs, [])) !=
      Balance(Rho(Vocabulary(), rs), rs, [])
  {
    rs := SentinelInput(repo, blank, e);
    WearerIsWorn(Vocabulary(), rs);
    ExactUnlessWorn(Vocabulary(), rs, []);
  }

  lemma SentinelInput(repo: string, blank: Record, e: Edge) returns (rs: seq<Record>)
    requires blank.name != "" && e.from == "" && blank.props == map[]
    requires NulFree(repo) && NulFree(blank.name)
    ensures |rs| == 3 && Identified(rs) && Wears(Vocabulary(), rs)
    ensures forall r :: r in rs ==> r.name == blank.name && r.file == blank.file && r.id == FinalID(repo, r)
  {
    var model := blank.(id := EntityID(repo, "Model", blank.name, blank.file), kind := "Model");
    var generic := blank.(id := EntityID(repo, COMPONENT, blank.name, blank.file), kind := COMPONENT,
                          subtype := "class");
    var sentinel := generic.(subtype := "orm_model_sentinel", rels := [e]);
    rs := [model, generic, sentinel];
    if model.id == generic.id {
      EntityIDInjective(repo, "Model", blank.name, blank.file, COMPONENT, blank.name, blank.file);
    }
    assert e in sentinel.rels;
    forall r | r in rs ensures r in {model, generic, sentinel} {
    }
    NotComponent();
  }

  lemma NotComponent()
    ensures Vocabulary().IsFramework("Model") && !Vocabulary().IsFramework(COMPONENT)
    ensures Vocabulary().classLike("class") && !Vocabulary().classLike("orm_model_sentinel")
  {
    assert |"orm_model_sentinel"| == 18;
  }

  // ---------------------------------------------------------------------------------------------
  // Closure.

  lemma RemainingId(kinds: Kinds, rs: seq<Record>, k: nat)
    requires k < |rs| && !Dropped(kinds, rs, k)
    ensures rs[k].id in IdsOf(FoldedRecords(kinds, rs))
  {
    var all := RepointAll(Rho(kinds, rs), Progresses(kinds, rs, |rs|));
    KeptMembers(all, FoldedSet(kinds, rs));
    assert all[k] in FoldedRecords(kinds, rs) && all[k].id == rs[k].id;
  }

  lemma FoldedResolves(kinds: Kinds, rs: seq<Record>, k: nat)
    requires Identified(rs) && (Loser(kinds, rs, k) || Folded(kinds, rs, k))
    ensures Renamed(Rho(kinds, rs), rs[k].id) in IdsOf(FoldedRecords(kinds, rs))
  {
    RhoAt(kinds, rs, k);
    SurvivorStays(kinds, rs, SymbolOf(rs[k]));
    RemainingId(kinds, rs, Home(kinds, rs, SymbolOf(rs[k])));
  }

  // Every endpoint that named an input record names, after the renaming, an output record.
  lemma EveryIdResolves(kinds: Kinds, rs: seq<Record>, k: nat)
    requires Identified(rs) && k < |rs|
    ensures Renamed(Rho(kinds, rs), rs[k].id) in IdsOf(FoldedRecords(kinds, rs))
  {
    var x := rs[k].id;
    if x in Rho(kinds, rs) {
      var j: nat :| j < |rs| && Renames(kinds, rs, j) && rs[j].id == x;
      FoldedResolves(kinds, rs, j);
    } else if Dropped(kinds, rs, k) {
      if Deferred(kinds, rs, k) {
        var j := RealRecord(kinds, rs, k);
        RemainingId(kinds, rs, j);
      } else {
        FoldedResolves(kinds, rs, k);
      }
    } else {
      RemainingId(kinds, rs, k);
    }
  }

  // The record an inferred one defers to remains.
  lemma RealRecord(kinds: Kinds, rs: seq<Record>, k: nat) returns (j: nat)
    requires Identified(rs) && Deferred(kinds, rs, k)
    ensures j < |rs| && rs[j].id == rs[k].id && !Dropped(kinds, rs, j)
  {
    var q :| q in rs && !IsShadow(q) && q.id == rs[k].id;
    j :| 0 <= j < |rs| && rs[j] == q;
    if q.name != "" {
      SameSymbol(rs, j, k);
    }
    CandSurvives(kinds, rs, j);
  }

  // ---------------------------------------------------------------------------------------------
  // What the records keep, and what survivors take over.

  lemma FinalKeeps(kinds: Kinds, rs: seq<Record>, k: nat)
    requires k < |rs|
    ensures Keeps(rs[k], Progress(kinds, rs, |rs|, k))
  {
    AbsorbedKeeps(kinds, rs, |rs|, k);
  }

  // A property a dropped record brings along.
  predicate Brings(r: Record, key: string) {
    key in r.props && key != "provenance" && key != "ref"
  }

  // A property of the survivor is its own, or that of a record folded into it that brings it.
  ghost predicate From(kinds: Kinds, rs: seq<Record>, w: nat, key: string, value: string, j: nat) {
    && j < |rs| && w < |rs| && key in rs[j].props && rs[j].props[key] == value
    && (j == w
        || ((Loser(kinds, rs, j) || Folded(kinds, rs, j)) && Home(kinds, rs, SymbolOf(rs[j])) == w
            && Brings(rs[j], key)))
  }

  // The same while the candidates of one symbol are collected.
  ghost predicate FromCands(rs: seq<Record>, w: nat, cands: seq<Cand>, key: string, value: string, j: nat) {
    && j < |rs| && key in rs[j].props && rs[j].props[key] == value
    && (j == w || (Brings(rs[j], key) && exists c :: c in cands && c.idx == j))
  }

  lemma {:induction false} CollectedFrom(rs: seq<Record>, w: nat, cands: seq<Cand>, key: string)
    requires w < |rs| && forall c :: c in cands ==> c.idx < |rs|
    ensures var r := Collected(rs, w, cands);
      && (forall c :: c in cands && c.idx != w && Brings(rs[c.idx], key) ==> key in r.props)
      && (key in r.props ==> exists j: nat :: FromCands(rs, w, cands, key, r.props[key], j))
  {
    var r := Collected(rs, w, cands);
    if cands == [] {
      assert key in r.props ==> FromCands(rs, w, cands, key, r.props[key], w);
    } else {
      var init, c := cands[..|cands| - 1], cands[|cands| - 1];
      assert cands == init + [c];
      CollectedFrom(rs, w, init, key);
      if key in Collected(rs, w, init).props {
        var j: nat :| FromCands(rs, w, init, key, Collected(rs, w, init).props[key], j);
        assert FromCands(rs, w, cands, key, r.props[key], j);
      } else if c.idx != w && Brings(rs[c.idx], key) {
        assert c in cands && FromCands(rs, w, cands, key, r.props[key], c.idx);
      }
    }
  }

  lemma SiblingFrom(kinds: Kinds, rs: seq<Record>, w: nat, key: string)
    requires w < |rs| && IsCand(kinds, rs[w]) && Survives(kinds, rs, SymbolOf(rs[w]))
      && Home(kinds, rs, SymbolOf(rs[w])) == w
    ensures key in Sibling(kinds, rs, w).props ==>
      exists j: nat :: From(kinds, rs, w, key, Sibling(kinds, rs, w).props[key], j)
    ensures forall k: nat :: Loser(kinds, rs, k) && Home(kinds, rs, SymbolOf(rs[k])) == w && Brings(rs[k], key) ==>
      key in Sibling(kinds, rs, w).props
  {
    var cands := CandsOf(kinds, rs, SymbolOf(rs[w]));
    CollectedFrom(rs, w, cands, key);
    forall k: nat | Loser(kinds, rs, k) && Home(kinds, rs, SymbolOf(rs[k])) == w && Brings(rs[k], key)
      ensures key in Sibling(kinds, rs, w).props
    {
      CandSurvives(kinds, rs, k);
      assert CandOf(kinds, rs, k) in cands;
    }
    if key in Sibling(kinds, rs, w).props {
      var value := Sibling(kinds, rs, w).props[key];
      var j: nat :| FromCands(rs, w, cands, key, value, j);
      assert From(kinds, rs, w, key, value, j);
    }
  }

  // What survivor w says under `key` comes from itself or from what folded into it.
  ghost predicate Sourced(kinds: Kinds, rs: seq<Record>, w: nat, key: string, r: Record) {
    key in r.props ==> exists j: nat :: From(kinds, rs, w, key, r.props[key], j)
  }

  // After any number of fold sources that holds, ...
  lemma {:induction false} AbsorbedFrom(kinds: Kinds, rs: seq<Record>, n: nat, w: nat, key: string)
    requires n <= |rs| && w < |rs| && IsCand(kinds, rs[w]) && Survives(kinds, rs, SymbolOf(rs[w]))
    requires Home(kinds, rs, SymbolOf(rs[w])) == w
    ensures Sourced(kinds, rs, w, key, Absorbed(kinds, rs, n, w))
  {
    if n == 0 {
      SiblingFrom(kinds, rs, w, key);
    } else {
      AbsorbedFrom(kinds, rs, n - 1, w, key);
      AbsorbFrom(kinds, rs, n - 1, w, key, n);
    }
  }

  lemma AbsorbFrom(kinds: Kinds, rs: seq<Record>, n: nat, w: nat, key: string, m: nat)
    requires n < |rs| && w < |rs| && m == n + 1 && Sourced(kinds, rs, w, key, Absorbed(kinds, rs, n, w))
    ensures Sourced(kinds, rs, w, key, Absorbed(kinds, rs, m, w))
  {
    var r := Absorbed(kinds, rs, m, w);
    if key !in Absorbed(kinds, rs, n, w).props && key in r.props {
      assert From(kinds, rs, w, key, r.props[key], n);
    }
  }

  ghost predicate Extends(a: Record, b: Record) {
    forall key :: key in a.props ==> key in b.props && b.props[key] == a.props[key]
  }

  lemma ExtendsTransitively(a: Record, b: Record, c: Record)
    requires Extends(a, b) && Extends(b, c)
    ensures Extends(a, c)
  {
  }

  lemma AbsorbExtends(sv: Record, r: Record)
    ensures Extends(sv, Absorb(sv, r)) && Extends(sv, sv)
  {
  }

  lemma AbsorbedNext(kinds: Kinds, rs: seq<Record>, n: nat, w: nat, m: nat)
    requires n < |rs| && w < |rs| && m == n + 1
    ensures Extends(Absorbed(kinds, rs, n, w), Absorbed(kinds, rs, m, w))
  {
    AbsorbExtends(Absorbed(kinds, rs, n, w), rs[n]);
  }

  lemma {:induction false} AbsorbedGrows(kinds: Kinds, rs: seq<Record>, m: nat, n: nat, w: nat)
    requires m <= n <= |rs| && w < |rs|
    ensures Extends(Absorbed(kinds, rs, m, w), Absorbed(kinds, rs, n, w))
    decreases n
  {
    if m < n {
      var k: nat := n - 1;
      AbsorbedGrows(kinds, rs, m, k, w);
      AbsorbedNext(kinds, rs, k, w, n);
      GrowsOnce(kinds, rs, m, k, n, w);
    }
  }

  lemma GrowsOnce(kinds: Kinds, rs: seq<Record>, m: nat, k: nat, n: nat, w: nat)
    requires m <= |rs| && k <= |rs| && n <= |rs| && w < |rs|
    requires Extends(Absorbed(kinds, rs, m, w), Absorbed(kinds, rs, k, w))
    requires Extends(Absorbed(kinds, rs, k, w), Absorbed(kinds, rs, n, w))
    ensures Extends(Absorbed(kinds, rs, m, w), Absorbed(kinds, rs, n, w))
  {
    ExtendsTransitively(Absorbed(kinds, rs, m, w), Absorbed(kinds, rs, k, w), Absorbed(kinds, rs, n, w));
  }

  lemma AbsorbedNow(kinds: Kinds, rs: seq<Record>, k: nat, w: nat, key: string, n: nat)
    requires Folded(kinds, rs, k) && Home(kinds, rs, SymbolOf(rs[k])) == w && n == k + 1
    requires Brings(rs[k], key)
    ensures key in Absorbed(kinds, rs, n, w).props
  {
  }

  // ... and everything those brought is there.
  lemma AbsorbedHas(kinds: Kinds, rs: seq<Record>, k: nat, w: nat, key: string)
    requires Loser(kinds, rs, k) || Folded(kinds, rs, k)
    requires Survives(kinds, rs, SymbolOf(rs[k])) && Home(kinds, rs, SymbolOf(rs[k])) == w
    requires Brings(rs[k], key)
    ensures key in Absorbed(kinds, rs, |rs|, w).props
  {
    if Folded(kinds, rs, k) {
      AbsorbedNow(kinds, rs, k, w, key, k + 1);
      AbsorbedGrows(kinds, rs, k + 1, |rs|, w);
    } else {
      SiblingFrom(kinds, rs, w, key);
      AbsorbedGrows(kinds, rs, 0, |rs|, w);
    }
  }

  // The survivor of a dropped record remains, answers for every property it brought, keeps its own values, and
  // has no property from anywhere else.
  lemma SurvivorInherits(kinds: Kinds, rs: seq<Record>, k: nat, key: string)
    requires Loser(kinds, rs, k) || Folded(kinds, rs, k)
    ensures var w := Home(kinds, rs, SymbolOf(rs[k]));
      && !Dropped(kinds, rs, w) && Keeps(rs[w], Progress(kinds, rs, |rs|, w))
      && (Brings(rs[k], key) ==> key in Progress(kinds, rs, |rs|, w).props)
      && Sourced(kinds, rs, w, key, Progress(kinds, rs, |rs|, w))
  {
    CandSurvives(kinds, rs, k);
    var w, n := Home(kinds, rs, SymbolOf(rs[k])), |rs|;
    SurvivorStays(kinds, rs, SymbolOf(rs[k]));
    FinalKeeps(kinds, rs, w);
    AbsorbedFrom(kinds, rs, n, w, key);
    if Brings(rs[k], key) {
      AbsorbedHas(kinds, rs, k, w, key);
    }
    assert Progress(kinds, rs, n, w) == Absorbed(kinds, rs, n, w);
  }

  // ---------------------------------------------------------------------------------------------
  // One record per class.

  lemma StillTwin(r: Record, cur: Record)
    requires Keeps(r, cur) && IsTwin(r)
    ensures IsTwin(cur)
  {
    assert TWIN_OF[0] == 'g' && "provenance"[0] == 'p';
    assert TWIN_OF in r.props;
  }

  // A remaining record that is framework-typed and no facet.
  ghost predicate Framework(kinds: Kinds, rs: seq<Record>, k: nat) {
    && k < |rs| && !Dropped(kinds, rs, k)
    && var r := Progress(kinds, rs, |rs|, k); r.name != "" && kinds.IsFramework(r.kind) && !IsTwin(r)
  }

  lemma FrameworkIsHome(kinds: Kinds, rs: seq<Record>, k: nat)
    requires Framework(kinds, rs, k)
    ensures Survives(kinds, rs, SymbolOf(rs[k])) && Home(kinds, rs, SymbolOf(rs[k])) == k
  {
    FinalKeeps(kinds, rs, k);
    if IsTwin(rs[k]) {
      StillTwin(rs[k], Progress(kinds, rs, |rs|, k));
    }
    CandSurvives(kinds, rs, k);
  }

  // Of one file and name, at most one remaining record is framework-typed and not a facet.
  lemma OneFrameworkRecord(kinds: Kinds, rs: seq<Record>, j: nat, k: nat)
    requires Framework(kinds, rs, j) && Framework(kinds, rs, k) && SymbolOf(rs[j]) == SymbolOf(rs[k])
    ensures j == k
  {
    FrameworkIsHome(kinds, rs, j);
    FrameworkIsHome(kinds, rs, k);
  }

  // A generic class record remains beside a framework-typed one only as the anchor of a facet, and an
  // inferred one only as that or under the framework record's own ID.
  lemma NoGenericBeside(kinds: Kinds, rs: seq<Record>, k: nat)
    requires kinds.Generic() && Identified(rs) && k < |rs| && !Dropped(kinds, rs, k)
    requires kinds.IsFoldSource(rs[k]) && Survives(kinds, rs, SymbolOf(rs[k]))
    ensures rs[k].id in Anchors(Siblings(kinds, rs)) || rs[k].id == rs[Home(kinds, rs, SymbolOf(rs[k]))].id
    ensures rs[k].kind == COMPONENT ==> rs[k].id in Anchors(Siblings(kinds, rs))
  {
    Decided(kinds, rs, k);
    var w := Home(kinds, rs, SymbolOf(rs[k]));
    assert rs[k] in rs && rs[w] in rs && Agree(rs[k], rs[w]);
  }

  // A generic class ID that a facet names as its anchor is not renamed, and still names a record.
  lemma AnchorsRemain(kinds: Kinds, rs: seq<Record>, t: nat, k: nat)
    requires kinds.Generic() && Identified(rs)
    requires t < |rs| && k < |rs| && IsTwin(rs[t]) && Prop(rs[t], TWIN_OF) == rs[k].id
    requires rs[k].name != "" && rs[k].kind == COMPONENT
    ensures rs[k].id !in Rho(kinds, rs) && rs[k].id in IdsOf(FoldedRecords(kinds, rs))
  {
    assert Siblings(kinds, rs)[t] == rs[t] && Siblings(kinds, rs)[t] in Siblings(kinds, rs);
    AnchorNotRenamed(kinds, rs, k);
    EveryIdResolves(kinds, rs, k);
  }

  lemma AnchorNotRenamed(kinds: Kinds, rs: seq<Record>, k: nat)
    requires kinds.Generic() && Identified(rs) && k < |rs| && rs[k].name != "" && rs[k].kind == COMPONENT
    requires rs[k].id in Anchors(Siblings(kinds, rs))
    ensures rs[k].id !in Rho(kinds, rs)
  {
    assert rs[k] in rs;
    forall j: nat | j < |rs| && Renames(kinds, rs, j) ensures rs[j].id != rs[k].id {
      assert rs[j] in rs && Agree(rs[j], rs[k]);
    }
  }
}
