// What the class fold does to each record, said of the records' own fields.
module ClassFoldFields {
  import opened Graph
  import opened Records
  import opened Edges
  import opened EdgeLaws
  import opened ClassKinds
  import opened Canonical
  import opened ClassFold
  import ClassFoldLaws

  // ---------------------------------------------------------------------------------------------
  // Which record of a class is chosen.

  predicate SameClass(r: Record, q: Record) {
    r.file == q.file && r.name == q.name
  }

  // Named, of a framework kind, and no facet of another record.
  predicate Candidate(kinds: Kinds, r: Record) {
    && r.name != "" && kinds.priority(r.kind) > 0
    && (TWIN_OF in r.props ==> r.props[TWIN_OF] == "" || r.props[TWIN_OF] == r.id)
  }

  // Line 0 is no line.
  predicate Nearer(a: nat, b: nat) {
    a > 0 && (b == 0 || a < b)
  }

  // The record at i is preferred to that at j: stronger kind, then stronger role, then smaller real line, then
  // smaller ID, then the earlier one.
  ghost predicate Leads(kinds: Kinds, rs: seq<Record>, i: nat, j: nat)
    requires i < |rs| && j < |rs|
  {
    var c, d := rs[i], rs[j];
    if kinds.priority(c.kind) != kinds.priority(d.kind) then kinds.priority(c.kind) > kinds.priority(d.kind)
    else if kinds.rank(c.kind) != kinds.rank(d.kind) then kinds.rank(c.kind) > kinds.rank(d.kind)
    else if c.startLine != d.startLine then Nearer(c.startLine, d.startLine)
    else Before(c.id, d.id) || (c.id == d.id && i <= j)
  }

  ghost predicate Chosen(kinds: Kinds, rs: seq<Record>, w: nat) {
    && w < |rs| && Candidate(kinds, rs[w])
    && forall j: nat :: j < |rs| && Candidate(kinds, rs[j]) && SameClass(rs[j], rs[w]) ==> Leads(kinds, rs, w, j)
  }

  lemma CandidateIff(kinds: Kinds, r: Record)
    ensures IsCand(kinds, r) <==> Candidate(kinds, r)
  {
  }

  lemma CandIndex(kinds: Kinds, rs: seq<Record>, k: nat) returns (i: nat)
    requires k < |rs| && IsCand(kinds, rs[k])
    ensures var cands := CandsOf(kinds, rs, SymbolOf(rs[k])); i < |cands| && cands[i] == CandOf(kinds, rs, k)
  {
    var cands := CandsOf(kinds, rs, SymbolOf(rs[k]));
    assert CandOf(kinds, rs, k) in cands;
    i :| 0 <= i < |cands| && cands[i] == CandOf(kinds, rs, k);
  }

  // The home leads every candidate of its class.
  lemma HomeLeads(kinds: Kinds, rs: seq<Record>, k: nat)
    requires k < |rs| && IsCand(kinds, rs[k])
    ensures Survives(kinds, rs, SymbolOf(rs[k])) && Leads(kinds, rs, Home(kinds, rs, SymbolOf(rs[k])), k)
  {
    var sym := SymbolOf(rs[k]);
    var cands, c := CandsOf(kinds, rs, sym), CandOf(kinds, rs, k);
    var i := CandIndex(kinds, rs, k);
    var best := BestOf(cands);
    BestIsMaximal(cands, c);
    BetterIsTotal(c, best);
    if Rating(c) == Rating(best) {
      FirstIsEarliest(cands, i);
    }
    BetterLeads(kinds, rs, best, c);
  }

  lemma FirstIsEarliest(cands: seq<Cand>, i: nat)
    requires i < |cands| && Rating(cands[i]) == Rating(BestOf(cands))
    requires forall m, n :: 0 <= m < n < |cands| ==> cands[m].idx < cands[n].idx
    ensures BestOf(cands).idx <= cands[i].idx
  {
    BestIsFirst(cands, i);
    var j: nat :| j <= i && cands[j] == BestOf(cands);
  }

  lemma BetterLeads(kinds: Kinds, rs: seq<Record>, b: Cand, c: Cand)
    requires b.idx < |rs| && b == CandOf(kinds, rs, b.idx) && c.idx < |rs| && c == CandOf(kinds, rs, c.idx)
    requires Better(b, c) || (Rating(b) == Rating(c) && b.idx <= c.idx)
    ensures Leads(kinds, rs, b.idx, c.idx)
  {
  }

  lemma LeadsBothWays(kinds: Kinds, rs: seq<Record>, i: nat, j: nat)
    requires i < |rs| && j < |rs| && Leads(kinds, rs, i, j) && Leads(kinds, rs, j, i)
    ensures i == j
  {
    BeforeTotal(rs[i].id, rs[j].id);
  }

  // The record every class record folds into is the one that leads.
  lemma ChosenIff(kinds: Kinds, rs: seq<Record>, w: nat)
    requires w < |rs|
    ensures Chosen(kinds, rs, w) <==>
      IsCand(kinds, rs[w]) && Survives(kinds, rs, SymbolOf(rs[w])) && Home(kinds, rs, SymbolOf(rs[w])) == w
  {
    forall r ensures IsCand(kinds, r) <==> Candidate(kinds, r) {
      CandidateIff(kinds, r);
    }
    if IsCand(kinds, rs[w]) {
      HomeLeads(kinds, rs, w);
      var h := Home(kinds, rs, SymbolOf(rs[w]));
      if Chosen(kinds, rs, w) {
        LeadsBothWays(kinds, rs, w, h);
      }
      if h == w {
        forall j: nat | j < |rs| && Candidate(kinds, rs[j]) && SameClass(rs[j], rs[w]) ensures Leads(kinds, rs, w, j) {
          HomeLeads(kinds, rs, j);
        }
      }
    }
  }

  // With the program's tables: of the records of one class a Model leads a Controller, whichever comes first and
  // whatever their lines, and either leads a Schema, which leads a Task.
  lemma ModelLeads(rs: seq<Record>, i: nat, j: nat)
    requires i < |rs| && j < |rs|
    requires (rs[i].kind, rs[j].kind) in [("Model", "Controller"), ("Model", "Schema"), ("Controller", "Schema"),
                                          ("Schema", "Task")]
    ensures Leads(Vocabulary(), rs, i, j) && !Leads(Vocabulary(), rs, j, i)
  {
    assert Priority("Model") == Priority("Controller") == 100 && Priority("Schema") == 80 && Priority("Task") == 70;
    assert CanonRank("Model") == 5 && CanonRank("Controller") == 0;
  }

  // ---------------------------------------------------------------------------------------------
  // Which records go.

  predicate Inferred(r: Record) {
    "provenance" in r.props && r.props["provenance"] == "INFERRED_FROM_CLASS_HIERARCHY"
  }

  // A named record that says of a class no more than that it is one: inferred, or a class-like component.
  predicate ClassRecord(kinds: Kinds, r: Record) {
    && r.name != ""
    && (Inferred(r)
        || (r.kind == "SCOPE.Component"
            && (kinds.classLike(r.subtype) || ("role" in r.props && r.props["role"] == "class"))))
  }

  // Some record names x as what it is a facet of, once siblings have been merged.
  ghost predicate Anchor(kinds: Kinds, rs: seq<Record>, x: Id) {
    exists s :: s in Siblings(kinds, rs) && TWIN_OF in s.props && s.props[TWIN_OF] == x && x != "" && x != s.id
  }

  // A weaker framework record of the class.
  ghost predicate Outdone(kinds: Kinds, rs: seq<Record>, k: nat) {
    k < |rs| && Candidate(kinds, rs[k]) && !Chosen(kinds, rs, k)
  }

  // A class record beside a chosen one with another ID, that no facet needs.
  ghost predicate FoldsInto(kinds: Kinds, rs: seq<Record>, k: nat, w: nat) {
    && k < |rs| && Chosen(kinds, rs, w) && SameClass(rs[w], rs[k]) && ClassRecord(kinds, rs[k])
    && rs[w].id != rs[k].id && !Anchor(kinds, rs, rs[k].id)
  }

  // An inferred record with no framework record of its class, and with a real one of its own ID.
  ghost predicate GivesWay(kinds: Kinds, rs: seq<Record>, k: nat) {
    && k < |rs| && rs[k].name != "" && Inferred(rs[k])
    && (forall j: nat :: j < |rs| && Candidate(kinds, rs[j]) ==> !SameClass(rs[j], rs[k]))
    && exists q :: q in rs && !Inferred(q) && q.id == rs[k].id
  }

  lemma LeafTests(kinds: Kinds, r: Record)
    requires kinds.Generic()
    ensures IsShadow(r) <==> Inferred(r)
    ensures kinds.IsFoldSource(r) <==> ClassRecord(kinds, r)
    ensures IsTwin(r) <==> TWIN_OF in r.props && r.props[TWIN_OF] != "" && r.props[TWIN_OF] != r.id
  {
  }

  lemma AnchorIff(kinds: Kinds, rs: seq<Record>, x: Id)
    requires kinds.Generic()
    ensures x in Anchors(Siblings(kinds, rs)) <==> Anchor(kinds, rs, x)
  {
    if x in Anchors(Siblings(kinds, rs)) {
      var s :| s in Siblings(kinds, rs) && IsTwin(s) && Prop(s, TWIN_OF) == x;
      LeafTests(kinds, s);
    }
    if s :| s in Siblings(kinds, rs) && TWIN_OF in s.props && s.props[TWIN_OF] == x && x != "" && x != s.id {
      LeafTests(kinds, s);
    }
  }

  // A class has a survivor if and only if it has a candidate, and then the home is the chosen one.
  lemma SurvivesIff(kinds: Kinds, rs: seq<Record>, k: nat)
    requires k < |rs|
    ensures Survives(kinds, rs, SymbolOf(rs[k])) <==>
      exists j: nat :: j < |rs| && Candidate(kinds, rs[j]) && SameClass(rs[j], rs[k])
    ensures Survives(kinds, rs, SymbolOf(rs[k])) ==> var w := Home(kinds, rs, SymbolOf(rs[k]));
      && Chosen(kinds, rs, w) && SameClass(rs[w], rs[k])
      && forall v: nat :: Chosen(kinds, rs, v) && SameClass(rs[v], rs[k]) ==> v == w
  {
    var sym := SymbolOf(rs[k]);
    if Survives(kinds, rs, sym) {
      var w := Home(kinds, rs, sym);
      CandidateIff(kinds, rs[w]);
      ChosenIff(kinds, rs, w);
      assert SameClass(rs[w], rs[k]) && Candidate(kinds, rs[w]);
      forall v: nat | Chosen(kinds, rs, v) && SameClass(rs[v], rs[k]) ensures v == w {
        LeadsBothWays(kinds, rs, v, w);
      }
    }
    if j: nat :| j < |rs| && Candidate(kinds, rs[j]) && SameClass(rs[j], rs[k]) {
      CandidateIff(kinds, rs[j]);
      HomeLeads(kinds, rs, j);
    }
  }

  lemma LoserIff(kinds: Kinds, rs: seq<Record>, k: nat)
    requires k < |rs|
    ensures Loser(kinds, rs, k) <==> Outdone(kinds, rs, k)
  {
    CandidateIff(kinds, rs[k]);
    ChosenIff(kinds, rs, k);
    CandSurvives(kinds, rs, k);
  }

  lemma FoldedIff(kinds: Kinds, rs: seq<Record>, k: nat)
    requires kinds.Generic() && k < |rs|
    ensures Folded(kinds, rs, k) ==> FoldsInto(kinds, rs, k, Home(kinds, rs, SymbolOf(rs[k])))
    ensures (exists w: nat :: FoldsInto(kinds, rs, k, w)) ==> Folded(kinds, rs, k) || Outdone(kinds, rs, k)
  {
    LeafTests(kinds, rs[k]);
    AnchorIff(kinds, rs, rs[k].id);
    SurvivesIff(kinds, rs, k);
    LoserIff(kinds, rs, k);
    if w: nat :| FoldsInto(kinds, rs, k, w) {
      assert Candidate(kinds, rs[w]) && SameClass(rs[w], rs[k]);
    }
  }

  lemma DeferredIff(kinds: Kinds, rs: seq<Record>, k: nat)
    requires kinds.Generic() && k < |rs|
    ensures Deferred(kinds, rs, k) <==> GivesWay(kinds, rs, k)
  {
    forall r ensures IsShadow(r) <==> Inferred(r) {
      LeafTests(kinds, r);
    }
    SurvivesIff(kinds, rs, k);
  }

  // A record goes if and only if a better framework record of its class is there, or it is a mere class record
  // beside one, or it gives way to a real record of its ID.
  lemma GoesIff(kinds: Kinds, rs: seq<Record>, k: nat)
    requires kinds.Generic() && k < |rs|
    ensures Dropped(kinds, rs, k) <==>
      Outdone(kinds, rs, k) || (exists w: nat :: FoldsInto(kinds, rs, k, w)) || GivesWay(kinds, rs, k)
  {
    LoserIff(kinds, rs, k);
    FoldedIff(kinds, rs, k);
    DeferredIff(kinds, rs, k);
  }

  // ---------------------------------------------------------------------------------------------
  // What the chosen record takes over.

  // A property a record brings along.
  predicate Brings(r: Record, key: string) {
    key in r.props && key != "provenance" && key != "ref"
  }

  // Record j's properties are offered to the chosen record w.
  ghost predicate Gives(kinds: Kinds, rs: seq<Record>, w: nat, j: nat) {
    && Chosen(kinds, rs, w) && j < |rs|
    && ((Outdone(kinds, rs, j) && SameClass(rs[j], rs[w])) || FoldsInto(kinds, rs, j, w))
  }

  // First the weaker framework records in their order, then the class records in theirs.
  ghost predicate Earlier(kinds: Kinds, rs: seq<Record>, i: nat, j: nat) {
    if Outdone(kinds, rs, i) == Outdone(kinds, rs, j) then i < j else Outdone(kinds, rs, i)
  }

  // Candidate m of the list brings the key to w.
  ghost predicate BringsAt(rs: seq<Record>, w: nat, cands: seq<Cand>, m: nat, key: string) {
    m < |cands| && cands[m].idx < |rs| && cands[m].idx != w && Brings(rs[cands[m].idx], key)
  }

  ghost predicate FirstBringer(rs: seq<Record>, w: nat, cands: seq<Cand>, m: nat, key: string) {
    BringsAt(rs, w, cands, m, key) && forall l: nat :: l < m ==> !BringsAt(rs, w, cands, l, key)
  }

  // The value under `key` after collecting: the record's own, else the first one brought, else none.
  ghost predicate Taken(rs: seq<Record>, w: nat, cands: seq<Cand>, key: string, r: Record)
    requires w < |rs|
  {
    if key in rs[w].props then key in r.props && r.props[key] == rs[w].props[key]
    else
      && (key in r.props <==> exists m: nat :: BringsAt(rs, w, cands, m, key))
      && forall m: nat :: FirstBringer(rs, w, cands, m, key) ==> r.props[key] == rs[cands[m].idx].props[key]
  }

  lemma TakenSnoc(rs: seq<Record>, w: nat, init: seq<Cand>, c: Cand, key: string, r: Record)
    requires w < |rs| && c.idx < |rs| && Taken(rs, w, init, key, r)
    ensures Taken(rs, w, init + [c], key, if c.idx == w then r else Absorb(r, rs[c.idx]))
  {
    var cands, n := init + [c], |init|;
    assert cands[n] == c && forall m: nat :: m < n ==> cands[m] == init[m];
    assert forall m: nat :: m < n ==> (BringsAt(rs, w, cands, m, key) <==> BringsAt(rs, w, init, m, key));
    assert BringsAt(rs, w, cands, n, key) <==> c.idx != w && Brings(rs[c.idx], key);
    assert forall m: nat :: m < n ==> (FirstBringer(rs, w, cands, m, key) <==> FirstBringer(rs, w, init, m, key));
  }

  lemma {:induction false} CollectedTakes(rs: seq<Record>, w: nat, cands: seq<Cand>, key: string)
    requires w < |rs| && forall c :: c in cands ==> c.idx < |rs|
    ensures Taken(rs, w, cands, key, Collected(rs, w, cands))
  {
    if cands != [] {
      var init, c := cands[..|cands| - 1], cands[|cands| - 1];
      assert cands == init + [c];
      CollectedTakes(rs, w, init, key);
      TakenSnoc(rs, w, init, c, key, Collected(rs, w, init));
    }
  }

  // The offers met once the weaker framework records and the first n class records have been.
  ghost predicate Offered(kinds: Kinds, rs: seq<Record>, n: nat, w: nat, j: nat) {
    Gives(kinds, rs, w, j) && (Outdone(kinds, rs, j) || j < n)
  }

  ghost predicate Offering(kinds: Kinds, rs: seq<Record>, n: nat, w: nat, key: string, j: nat) {
    Offered(kinds, rs, n, w, j) && Brings(rs[j], key)
  }

  ghost predicate FirstOffering(kinds: Kinds, rs: seq<Record>, n: nat, w: nat, key: string, j: nat) {
    && Offering(kinds, rs, n, w, key, j)
    && forall i: nat :: Offering(kinds, rs, n, w, key, i) ==> !Earlier(kinds, rs, i, j)
  }

  // The record's own value under `key`, else the first one offered, else none.
  ghost predicate Takes(kinds: Kinds, rs: seq<Record>, n: nat, w: nat, key: string, r: Record)
    requires w < |rs|
  {
    if key in rs[w].props then key in r.props && r.props[key] == rs[w].props[key]
    else
      && (key in r.props <==> exists j: nat :: Offering(kinds, rs, n, w, key, j))
      && forall j: nat :: FirstOffering(kinds, rs, n, w, key, j) ==> r.props[key] == rs[j].props[key]
  }

  // Before any class record: the candidates of the class other than w.
  lemma OfferingAt(kinds: Kinds, rs: seq<Record>, w: nat, key: string, j: nat) returns (m: nat)
    requires Chosen(kinds, rs, w) && Offering(kinds, rs, 0, w, key, j)
    ensures BringsAt(rs, w, CandsOf(kinds, rs, SymbolOf(rs[w])), m, key)
    ensures CandsOf(kinds, rs, SymbolOf(rs[w]))[m].idx == j
  {
    CandidateIff(kinds, rs[j]);
    m := CandIndex(kinds, rs, j);
  }

  lemma BringsIsOffering(kinds: Kinds, rs: seq<Record>, w: nat, key: string, m: nat)
    requires Chosen(kinds, rs, w) && BringsAt(rs, w, CandsOf(kinds, rs, SymbolOf(rs[w])), m, key)
    ensures Offering(kinds, rs, 0, w, key, CandsOf(kinds, rs, SymbolOf(rs[w]))[m].idx)
  {
    var cands := CandsOf(kinds, rs, SymbolOf(rs[w]));
    var j := cands[m].idx;
    assert cands[m] in cands;
    CandidateIff(kinds, rs[j]);
    if Chosen(kinds, rs, j) {
      LeadsBothWays(kinds, rs, w, j);
    }
  }

  lemma FirstIsFirst(kinds: Kinds, rs: seq<Record>, w: nat, key: string, j: nat, m: nat)
    requires Chosen(kinds, rs, w) && FirstOffering(kinds, rs, 0, w, key, j)
    requires BringsAt(rs, w, CandsOf(kinds, rs, SymbolOf(rs[w])), m, key)
    requires CandsOf(kinds, rs, SymbolOf(rs[w]))[m].idx == j
    ensures FirstBringer(rs, w, CandsOf(kinds, rs, SymbolOf(rs[w])), m, key)
  {
    var cands := CandsOf(kinds, rs, SymbolOf(rs[w]));
    forall l: nat | l < m ensures !BringsAt(rs, w, cands, l, key) {
      if BringsAt(rs, w, cands, l, key) {
        BringsIsOffering(kinds, rs, w, key, l);
        assert cands[l].idx < cands[m].idx;
        assert Earlier(kinds, rs, cands[l].idx, j);
      }
    }
  }

  lemma SiblingTakes(kinds: Kinds, rs: seq<Record>, w: nat, key: string)
    requires Chosen(kinds, rs, w)
    ensures Takes(kinds, rs, 0, w, key, Sibling(kinds, rs, w))
  {
    var cands, r := CandsOf(kinds, rs, SymbolOf(rs[w])), Sibling(kinds, rs, w);
    CandidateIff(kinds, rs[w]);
    ChosenIff(kinds, rs, w);
    CollectedTakes(rs, w, cands, key);
    if key !in rs[w].props {
      forall j: nat | Offering(kinds, rs, 0, w, key, j) ensures key in r.props {
        var m := OfferingAt(kinds, rs, w, key, j);
      }
      if key in r.props {
        var m: nat :| BringsAt(rs, w, cands, m, key);
        BringsIsOffering(kinds, rs, w, key, m);
      }
      forall j: nat | FirstOffering(kinds, rs, 0, w, key, j) ensures r.props[key] == rs[j].props[key] {
        var m := OfferingAt(kinds, rs, w, key, j);
        FirstIsFirst(kinds, rs, w, key, j, m);
      }
    }
  }

  // One more class record: it offers if it folds into w, and after everything offered so far.
  lemma OfferedNext(kinds: Kinds, rs: seq<Record>, n: nat, w: nat, j: nat, n': nat)
    requires kinds.Generic() && n < |rs| && Chosen(kinds, rs, w) && n' == n + 1
    ensures Offered(kinds, rs, n', w, j) <==>
      Offered(kinds, rs, n, w, j) || (j == n && Folded(kinds, rs, n) && Home(kinds, rs, SymbolOf(rs[n])) == w)
  {
    if j == n {
      FoldedIff(kinds, rs, n);
      LoserIff(kinds, rs, n);
      SurvivesIff(kinds, rs, n);
    }
  }

  lemma TakesNext(kinds: Kinds, rs: seq<Record>, n: nat, w: nat, key: string, r: Record, n': nat, r': Record)
    requires kinds.Generic() && n < |rs| && Chosen(kinds, rs, w) && n' == n + 1 && Takes(kinds, rs, n, w, key, r)
    requires r' == if Folded(kinds, rs, n) && Home(kinds, rs, SymbolOf(rs[n])) == w then Absorb(r, rs[n]) else r
    ensures Takes(kinds, rs, n', w, key, r')
  {
    var folds := Folded(kinds, rs, n) && Home(kinds, rs, SymbolOf(rs[n])) == w;
    OfferingNext(kinds, rs, n, w, key, n', folds);
    AbsorbValue(r, rs[n], key);
    if key !in rs[w].props {
      StillOffered(kinds, rs, n, w, key, n', folds);
      forall j: nat | FirstOffering(kinds, rs, n', w, key, j) ensures r'.props[key] == rs[j].props[key] {
        FirstNext(kinds, rs, n, w, key, n', folds, j);
      }
    }
  }

  lemma AbsorbValue(r: Record, q: Record, key: string)
    ensures key in Absorb(r, q).props <==> key in r.props || Brings(q, key)
    ensures key in r.props ==> Absorb(r, q).props[key] == r.props[key]
    ensures key !in r.props && Brings(q, key) ==> Absorb(r, q).props[key] == q.props[key]
  {
  }

  lemma StillOffered(kinds: Kinds, rs: seq<Record>, n: nat, w: nat, key: string, n': nat, folds: bool)
    requires n < |rs|
    requires forall i: nat :: Offering(kinds, rs, n', w, key, i) <==>
      Offering(kinds, rs, n, w, key, i) || (i == n && folds && Brings(rs[n], key))
    ensures (exists i: nat :: Offering(kinds, rs, n', w, key, i)) <==>
      (exists i: nat :: Offering(kinds, rs, n, w, key, i)) || (folds && Brings(rs[n], key))
  {
    if folds && Brings(rs[n], key) {
      assert Offering(kinds, rs, n', w, key, n);
    }
  }

  lemma OfferingNext(kinds: Kinds, rs: seq<Record>, n: nat, w: nat, key: string, n': nat, folds: bool)
    requires kinds.Generic() && n < |rs| && Chosen(kinds, rs, w) && n' == n + 1
    requires folds == (Folded(kinds, rs, n) && Home(kinds, rs, SymbolOf(rs[n])) == w)
    ensures forall j: nat :: Offering(kinds, rs, n', w, key, j) <==>
      Offering(kinds, rs, n, w, key, j) || (j == n && folds && Brings(rs[n], key))
  {
    forall j: nat ensures Offering(kinds, rs, n', w, key, j) <==>
                          Offering(kinds, rs, n, w, key, j) || (j == n && folds && Brings(rs[n], key))
    {
      OfferedNext(kinds, rs, n, w, j, n');
    }
  }

  lemma FirstNext(kinds: Kinds, rs: seq<Record>, n: nat, w: nat, key: string, n': nat, folds: bool, j: nat)
    requires n < |rs| && FirstOffering(kinds, rs, n', w, key, j)
    requires folds ==> Folded(kinds, rs, n)
    requires forall i: nat :: Offering(kinds, rs, n', w, key, i) <==>
      Offering(kinds, rs, n, w, key, i) || (i == n && folds && Brings(rs[n], key))
    ensures FirstOffering(kinds, rs, n, w, key, j)
      || (j == n && folds && Brings(rs[n], key) && forall i: nat :: !Offering(kinds, rs, n, w, key, i))
  {
    if j == n && folds {
      LoserIff(kinds, rs, n);
      OfferedEarlier(kinds, rs, n, w, key);
    }
  }

  lemma OfferedEarlier(kinds: Kinds, rs: seq<Record>, n: nat, w: nat, key: string)
    requires !Outdone(kinds, rs, n)
    ensures forall i: nat :: Offering(kinds, rs, n, w, key, i) ==> Earlier(kinds, rs, i, n)
  {
  }

  lemma AbsorbedNext(kinds: Kinds, rs: seq<Record>, m: nat, w: nat, n: nat)
    requires m < |rs| && w < |rs| && n == m + 1
    ensures Absorbed(kinds, rs, n, w) ==
      if Folded(kinds, rs, m) && Home(kinds, rs, SymbolOf(rs[m])) == w
      then Absorb(Absorbed(kinds, rs, m, w), rs[m]) else Absorbed(kinds, rs, m, w)
  {
  }

  lemma {:induction false} AbsorbedTakes(kinds: Kinds, rs: seq<Record>, n: nat, w: nat, key: string)
    requires kinds.Generic() && n <= |rs| && Chosen(kinds, rs, w)
    ensures Takes(kinds, rs, n, w, key, Absorbed(kinds, rs, n, w))
  {
    if n == 0 {
      SiblingTakes(kinds, rs, w, key);
    } else {
      var m: nat := n - 1;
      AbsorbedTakes(kinds, rs, m, w, key);
      AbsorbedNext(kinds, rs, m, w, n);
      TakesNext(kinds, rs, m, w, key, Absorbed(kinds, rs, m, w), n, Absorbed(kinds, rs, n, w));
    }
  }

  ghost predicate GivesKey(kinds: Kinds, rs: seq<Record>, w: nat, j: nat, key: string) {
    Gives(kinds, rs, w, j) && Brings(rs[j], key)
  }

  ghost predicate GivesFirst(kinds: Kinds, rs: seq<Record>, w: nat, j: nat, key: string) {
    && GivesKey(kinds, rs, w, j, key)
    && forall i: nat :: GivesKey(kinds, rs, w, i, key) ==> !Earlier(kinds, rs, i, j)
  }

  // A chosen record changes in nothing but its properties and edges. Under every key it has its own value, else
  // that of the first record that gives one, and nothing else.
  lemma ChosenTakes(kinds: Kinds, rs: seq<Record>, w: nat, key: string)
    requires kinds.Generic() && Chosen(kinds, rs, w)
    ensures var r := Progress(kinds, rs, |rs|, w);
      && r == rs[w].(props := r.props, rels := r.rels)
      && (key in rs[w].props ==> key in r.props && r.props[key] == rs[w].props[key])
      && (key !in rs[w].props ==>
           && (key in r.props <==> exists j: nat :: GivesKey(kinds, rs, w, j, key))
           && forall j: nat :: GivesFirst(kinds, rs, w, j, key) ==> r.props[key] == rs[j].props[key])
  {
    ChosenIff(kinds, rs, w);
    SurvivorStays(kinds, rs, SymbolOf(rs[w]));
    AbsorbedTakes(kinds, rs, |rs|, w, key);
    forall j: nat ensures Offering(kinds, rs, |rs|, w, key, j) <==> GivesKey(kinds, rs, w, j, key) {
    }
  }

  // A record that stays and is not chosen stays as it is, except that an inferred one with a real line, alone
  // of its class, is not called inferred any more.
  lemma OthersStay(kinds: Kinds, rs: seq<Record>, k: nat)
    requires kinds.Generic() && k < |rs| && !Dropped(kinds, rs, k) && !Chosen(kinds, rs, k)
    ensures var r := Progress(kinds, rs, |rs|, k);
      if rs[k].name != "" && Inferred(rs[k]) && rs[k].startLine > 0
         && forall j: nat :: j < |rs| && Candidate(kinds, rs[j]) ==> !SameClass(rs[j], rs[k])
      then r == rs[k].(props := r.props)
           && forall key :: (key in r.props <==> key in rs[k].props && key != "provenance")
                            && (key in r.props ==> r.props[key] == rs[k].props[key])
      else r == rs[k]
  {
    LeafTests(kinds, rs[k]);
    LoserIff(kinds, rs, k);
    CandidateIff(kinds, rs[k]);
    SurvivesIff(kinds, rs, k);
    NoCandidateNoChange(kinds, rs, |rs|, k);
  }

  // ---------------------------------------------------------------------------------------------
  // Where IDs are sent, and what is left.

  // The ID of a record that folds is sent to the chosen record's; no other ID is sent anywhere.
  lemma RenamedIff(kinds: Kinds, rs: seq<Record>, x: Id)
    requires kinds.Generic() && Identified(rs)
    ensures x in Rho(kinds, rs) <==>
      exists k: nat, w: nat :: Gives(kinds, rs, w, k) && rs[k].id == x && rs[w].id != x
    ensures forall k: nat, w: nat :: Gives(kinds, rs, w, k) && rs[k].id == x && rs[w].id != x ==>
      x in Rho(kinds, rs) && Rho(kinds, rs)[x] == rs[w].id
  {
    if x in Rho(kinds, rs) {
      var k: nat :| k < |rs| && Renames(kinds, rs, k) && rs[k].id == x;
      RenamesGives(kinds, rs, k);
      assert Gives(kinds, rs, Home(kinds, rs, SymbolOf(rs[k])), k);
    }
    forall k: nat, w: nat | Gives(kinds, rs, w, k) && rs[k].id == x && rs[w].id != x
      ensures x in Rho(kinds, rs) && Rho(kinds, rs)[x] == rs[w].id
    {
      GivesRenames(kinds, rs, k, w);
      RhoAt(kinds, rs, k);
      RenamedAt(kinds, rs, k);
    }
  }

  lemma RenamesGives(kinds: Kinds, rs: seq<Record>, k: nat)
    requires kinds.Generic() && k < |rs| && Renames(kinds, rs, k)
    ensures var w := Home(kinds, rs, SymbolOf(rs[k])); Gives(kinds, rs, w, k) && rs[w].id != rs[k].id
  {
    LoserIff(kinds, rs, k);
    FoldedIff(kinds, rs, k);
    CandSurvives(kinds, rs, k);
    SurvivesIff(kinds, rs, k);
  }

  lemma GivesRenames(kinds: Kinds, rs: seq<Record>, k: nat, w: nat)
    requires kinds.Generic() && Gives(kinds, rs, w, k) && rs[w].id != rs[k].id
    ensures Loser(kinds, rs, k) || Folded(kinds, rs, k)
    ensures Survives(kinds, rs, SymbolOf(rs[k])) && Home(kinds, rs, SymbolOf(rs[k])) == w && Renames(kinds, rs, k)
  {
    LoserIff(kinds, rs, k);
    FoldedIff(kinds, rs, k);
    SurvivesIff(kinds, rs, k);
    assert Candidate(kinds, rs[w]) && SameClass(rs[w], rs[k]);
  }

  // The fold leaves the records that do not go, in order, each edge sent where the renaming says.
  lemma FoldLeaves(kinds: Kinds, rs: seq<Record>) returns (at: seq<nat>)
    ensures Compacted(RepointAll(Rho(kinds, rs), Progresses(kinds, rs, |rs|)),
                      (set k: nat | k < |rs| && Dropped(kinds, rs, k)), at, FoldedRecords(kinds, rs))
  {
    at := KeptInOrder(RepointAll(Rho(kinds, rs), Progresses(kinds, rs, |rs|)), FoldedSet(kinds, rs));
  }
}
