// The canonical survivor among the framework-typed candidates of one class symbol.
module Canonical {
  import opened Graph
  import opened Records
  import opened ClassKinds

  datatype Cand = Cand(idx: nat, id: Id, pri: nat, rank: nat, line: nat)

  type Symbol = (string, string)

  function SymbolOf(r: Record): Symbol {
    (r.file, r.name)
  }

  // `c` displaces `best`: stronger kind, stronger role, smaller real line (0 is no line), smaller ID.
  predicate Better(c: Cand, best: Cand) {
    if c.pri != best.pri then c.pri > best.pri
    else if c.rank != best.rank then c.rank > best.rank
    else if c.line != best.line then (best.line == 0 && c.line > 0) || (c.line > 0 && c.line < best.line)
    else Before(c.id, best.id)
  }

  // What the order looks at; candidates that agree on it are interchangeable.
  function Rating(c: Cand): (nat, nat, nat, Id) {
    (c.pri, c.rank, c.line, c.id)
  }

  lemma BetterIsTotal(a: Cand, b: Cand)
    ensures Better(a, b) || Better(b, a) || Rating(a) == Rating(b)
    ensures !(Better(a, b) && Better(b, a))
  {
    BeforeTotal(a.id, b.id);
  }

  lemma BetterIsTransitive(a: Cand, b: Cand, c: Cand)
    requires !Better(b, a) && !Better(c, b)
    ensures !Better(c, a)
  {
    BeforeTotal(a.id, b.id);
    BeforeTotal(b.id, c.id);
    BeforeTotal(a.id, c.id);
    if Before(a.id, b.id) && Before(b.id, c.id) {
      BeforeTransitive(a.id, b.id, c.id);
    }
  }

  // The scan itself: the first candidate no later one displaces.
  function BestOf(cands: seq<Cand>): (best: Cand)
    requires cands != []
    ensures best in cands
  {
    if |cands| == 1 then cands[0]
    else
      var best := BestOf(cands[..|cands| - 1]);
      if Better(cands[|cands| - 1], best) then cands[|cands| - 1] else best
  }

  method BestCand(cands: seq<Cand>) returns (best: Cand)
    requires cands != []
    ensures best == BestOf(cands)
  {
    best := cands[0];
    for n := 1 to |cands|
      invariant best == BestOf(cands[..n])
    {
      assert cands[..n + 1][..n] == cands[..n];
      if Better(cands[n], best) {
        best := cands[n];
      }
    }
    assert cands[..|cands|] == cands;
  }

  // No candidate is better than the chosen one.
  lemma {:induction false} BestIsMaximal(cands: seq<Cand>, c: Cand)
    requires c in cands
    ensures !Better(c, BestOf(cands))
  {
    var last := cands[|cands| - 1];
    BetterIsTotal(c, c);
    if |cands| > 1 {
      var best := BestOf(cands[..|cands| - 1]);
      BetterIsTotal(last, best);
      assert cands == cands[..|cands| - 1] + [last];
      if c in cands[..|cands| - 1] {
        BestIsMaximal(cands[..|cands| - 1], c);
        if Better(last, best) {
          BetterIsTransitive(last, best, c);
        }
      }
    }
  }

  // The chosen candidate has the greatest priority; among those of that priority the greatest rank; among
  // those the smallest real line, and no line only if none has one; and among those the smallest ID.
  lemma BestInFields(cands: seq<Cand>, c: Cand)
    requires c in cands
    ensures var best := BestOf(cands);
      && c.pri <= best.pri
      && (c.pri == best.pri ==> c.rank <= best.rank)
      && (c.pri == best.pri && c.rank == best.rank && c.line > 0 ==> 0 < best.line <= c.line)
      && (c.pri == best.pri && c.rank == best.rank && c.line == best.line ==> c.id == best.id || Before(best.id, c.id))
  {
    BestIsMaximal(cands, c);
    BeforeTotal(c.id, BestOf(cands).id);
  }

  // Of candidates that agree on all of that, the first is chosen.
  lemma {:induction false} BestIsFirst(cands: seq<Cand>, i: nat)
    requires i < |cands| && Rating(cands[i]) == Rating(BestOf(cands))
    ensures exists j: nat :: j <= i && cands[j] == BestOf(cands)
  {
    var n := |cands| - 1;
    if n > 0 {
      var init, last := cands[..n], cands[n];
      if Better(last, BestOf(init)) {
        assert i < n ==> init[i] in init;
        if i < n {
          BestIsMaximal(init, init[i]);
          SameRatingSame(init[i], last, BestOf(init));
        }
      } else {
        if i < n {
          BestIsFirst(init, i);
          var j: nat :| j <= i && init[j] == BestOf(init);
          assert cands[j] == BestOf(cands);
        } else {
          var j :| 0 <= j < |init| && init[j] == BestOf(init);
          assert cands[j] == BestOf(cands);
        }
      }
    }
  }

  // The order sees nothing but the rating.
  lemma SameRatingSame(a: Cand, b: Cand, c: Cand)
    requires Rating(a) == Rating(b)
    ensures Better(a, c) == Better(b, c) && Better(c, a) == Better(c, b)
  {
  }

  // Whatever order the candidates are met in, the chosen one has the same rating.
  lemma CanonicalChoice(cands: seq<Cand>, cands': seq<Cand>)
    requires cands != [] && multiset(cands) == multiset(cands')
    ensures cands' != [] && Rating(BestOf(cands)) == Rating(BestOf(cands'))
  {
    assert cands[0] in multiset(cands');
    var a, b := BestOf(cands), BestOf(cands');
    assert a in multiset(cands') && b in multiset(cands);
    BestIsMaximal(cands, b);
    BestIsMaximal(cands', a);
    BetterIsTotal(a, b);
  }

  predicate IsCand(kinds: Kinds, r: Record) {
    r.name != "" && !IsTwin(r) && kinds.IsFramework(r.kind)
  }

  function CandOf(kinds: Kinds, rs: seq<Record>, k: nat): Cand
    requires k < |rs|
  {
    Cand(k, rs[k].id, kinds.priority(rs[k].kind), kinds.rank(rs[k].kind), rs[k].startLine)
  }

  // The candidates of one symbol, in record order.
  function CandsOf(kinds: Kinds, rs: seq<Record>, sym: Symbol): (cands: seq<Cand>)
    ensures forall c :: c in cands ==>
      c.idx < |rs| && IsCand(kinds, rs[c.idx]) && SymbolOf(rs[c.idx]) == sym && c == CandOf(kinds, rs, c.idx)
    ensures forall k :: 0 <= k < |rs| && IsCand(kinds, rs[k]) && SymbolOf(rs[k]) == sym ==>
      CandOf(kinds, rs, k) in cands
    ensures forall i, j :: 0 <= i < j < |cands| ==> cands[i].idx < cands[j].idx
  {
    if rs == [] then []
    else
      var n := |rs| - 1;
      var init := CandsOf(kinds, rs[..n], sym);
      assert forall k :: 0 <= k < n ==> rs[..n][k] == rs[k] && CandOf(kinds, rs[..n], k) == CandOf(kinds, rs, k);
      if IsCand(kinds, rs[n]) && SymbolOf(rs[n]) == sym then init + [CandOf(kinds, rs, n)] else init
  }

  predicate Survives(kinds: Kinds, rs: seq<Record>, sym: Symbol) {
    CandsOf(kinds, rs, sym) != []
  }

  // The index of the record every class record of the symbol folds into.
  function Home(kinds: Kinds, rs: seq<Record>, sym: Symbol): (w: nat)
    requires Survives(kinds, rs, sym)
    ensures w < |rs| && IsCand(kinds, rs[w]) && SymbolOf(rs[w]) == sym
  {
    BestOf(CandsOf(kinds, rs, sym)).idx
  }
}
