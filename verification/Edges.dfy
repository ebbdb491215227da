// Edge bookkeeping shared by the two folds: who owns an edge, where a renaming sends it, and the ledger of
// all edges that a fold must keep.
module Edges {
  import opened Graph
  import opened Records

  // The element a loop meets next, as the end of the prefix it has then seen.
  lemma TakeSnoc<T>(s: seq<T>, n: nat)
    requires n < |s|
    ensures s[..n + 1] == s[..n] + [s[n]] && s[n] in s
  {
  }

  type Renaming = map<Id, Id>

  function Renamed(rho: Renaming, x: Id): Id {
    if x in rho then rho[x] else x
  }

  // No target of the renaming is itself renamed.
  predicate Flat(rho: Renaming) {
    forall x :: x in rho ==> rho[x] !in rho
  }

  // An edge embedded in a record may leave its source empty; it then leaves from the record.
  function Bound(e: Edge, owner: Id): Edge {
    if e.from == "" then e.(from := owner) else e
  }

  function BindAll(es: seq<Edge>, owner: Id): (out: seq<Edge>)
    ensures |out| == |es| && forall i :: 0 <= i < |es| ==> out[i] == Bound(es[i], owner)
  {
    seq(|es|, i requires 0 <= i < |es| => Bound(es[i], owner))
  }

  function Rewrite(rho: Renaming, e: Edge): Edge {
    e.(from := Renamed(rho, e.from), to := Renamed(rho, e.to))
  }

  function RewriteAll(rho: Renaming, es: seq<Edge>): (out: seq<Edge>)
    ensures |out| == |es|
    ensures forall i :: 0 <= i < |es| ==> out[i] == Rewrite(rho, es[i])
  {
    seq(|es|, i requires 0 <= i < |es| => Rewrite(rho, es[i]))
  }

  function Settle(rho: Renaming, owner: Id, es: seq<Edge>): (out: seq<Edge>)
    ensures |out| == |es|
    ensures forall i :: 0 <= i < |es| ==> out[i] == Rewrite(rho, Bound(es[i], owner))
  {
    seq(|es|, i requires 0 <= i < |es| => Rewrite(rho, Bound(es[i], owner)))
  }

  function Owned(rho: Renaming, r: Record): multiset<Edge> {
    multiset(Settle(rho, r.id, r.rels))
  }

  lemma Cancel<T>(a: multiset<T>, b: multiset<T>, c: multiset<T>)
    requires a + c == b + c
    ensures a == b
  {
    assert a == (a + c) - c && b == (b + c) - c;
  }

  function Sum(ms: seq<multiset<Edge>>): multiset<Edge> {
    if ms == [] then multiset{} else Sum(ms[..|ms| - 1]) + ms[|ms| - 1]
  }

  lemma {:induction false} SumUpdate(ms: seq<multiset<Edge>>, k: nat, m: multiset<Edge>)
    requires k < |ms|
    ensures Sum(ms[k := m]) + ms[k] == Sum(ms) + m
  {
    var ms' := ms[k := m];
    if k == |ms| - 1 {
      assert ms'[..k] == ms[..k];
    } else {
      var init, last := ms[..|ms| - 1], ms[|ms| - 1];
      assert ms'[..|ms| - 1] == init[k := m] && ms'[|ms| - 1] == last;
      SumUpdate(init, k, m);
      assert Sum(ms') + ms[k] == Sum(init[k := m]) + init[k] + last;
      assert Sum(ms) + m == Sum(init) + m + last;
    }
  }

  lemma {:induction false} SumConcat(a: seq<multiset<Edge>>, b: seq<multiset<Edge>>)
    ensures Sum(a + b) == Sum(a) + Sum(b)
  {
    if b == [] {
      assert a + b == a;
      assert Sum(b) == multiset{} && Sum(a) + multiset{} == Sum(a);
    } else {
      var c := a + b;
      assert c[..|c| - 1] == a + b[..|b| - 1] && c[|c| - 1] == b[|b| - 1];
      assert Sum(c) == Sum(c[..|c| - 1]) + c[|c| - 1];
      SumConcat(a, b[..|b| - 1]);
    }
  }

  function Parts(rho: Renaming, rs: seq<Record>): (ms: seq<multiset<Edge>>)
    ensures |ms| == |rs| && forall i :: 0 <= i < |rs| ==> ms[i] == Owned(rho, rs[i])
  {
    seq(|rs|, i requires 0 <= i < |rs| => Owned(rho, rs[i]))
  }

  // Every edge embedded in the records, bound to its owner and renamed.
  function Ledger(rho: Renaming, rs: seq<Record>): multiset<Edge> {
    Sum(Parts(rho, rs))
  }

  lemma LedgerUpdate(rho: Renaming, rs: seq<Record>, k: nat, r: Record)
    requires k < |rs|
    ensures Ledger(rho, rs[k := r]) + Owned(rho, rs[k]) == Ledger(rho, rs) + Owned(rho, r)
  {
    assert Parts(rho, rs[k := r]) == Parts(rho, rs)[k := Owned(rho, r)];
    SumUpdate(Parts(rho, rs), k, Owned(rho, r));
  }

  // An edge moved from a dropped record to its survivor keeps its place in the ledger.
  function Rehomed(e: Edge, owner: Id, home: Id): Edge {
    if e.from == "" || e.from == owner then e.(from := home) else e
  }

  function RehomeAll(es: seq<Edge>, owner: Id, home: Id): (out: seq<Edge>)
    ensures |out| == |es|
    ensures forall i :: 0 <= i < |es| ==> out[i] == Rehomed(es[i], owner, home)
  {
    seq(|es|, i requires 0 <= i < |es| => Rehomed(es[i], owner, home))
  }

  lemma RehomeSettles(rho: Renaming, es: seq<Edge>, owner: Id, home: Id, mine: seq<Edge>)
    requires home != "" && Renamed(rho, owner) == Renamed(rho, home)
    ensures Settle(rho, home, mine + RehomeAll(es, owner, home)) == Settle(rho, home, mine) + Settle(rho, owner, es)
  {
  }

  function Emptied(r: Record): Record {
    r.(rels := [])
  }

  // Re-homing one record's edges onto another that the renaming identifies with it keeps the ledger.
  lemma MoveKeepsLedger(rho: Renaming, rs: seq<Record>, k: nat, w: nat, sv: Record)
    requires k < |rs| && w < |rs| && k != w && rs[w].id != ""
    requires Renamed(rho, rs[k].id) == Renamed(rho, rs[w].id)
    requires sv.id == rs[w].id && sv.rels == rs[w].rels + RehomeAll(rs[k].rels, rs[k].id, rs[w].id)
    ensures Ledger(rho, rs[w := sv][k := Emptied(rs[k])]) == Ledger(rho, rs)
  {
    var rs' := rs[w := sv];
    var rs'' := rs'[k := Emptied(rs[k])];
    var mine, theirs := Owned(rho, rs[w]), Owned(rho, rs[k]);
    LedgerUpdate(rho, rs, w, sv);
    LedgerUpdate(rho, rs', k, Emptied(rs[k]));
    RehomeSettles(rho, rs[k].rels, rs[k].id, rs[w].id, rs[w].rels);
    assert Owned(rho, sv) == mine + theirs;
    assert Owned(rho, Emptied(rs[k])) == multiset{};
    assert Ledger(rho, rs') + mine == Ledger(rho, rs) + theirs + mine;
    Cancel(Ledger(rho, rs'), Ledger(rho, rs) + theirs, mine);
    assert Ledger(rho, rs'') + theirs == Ledger(rho, rs');
    Cancel(Ledger(rho, rs''), Ledger(rho, rs), theirs);
  }

  // The ledger of embedded and standalone edges together.
  function Balance(rho: Renaming, rs: seq<Record>, pass2: seq<Edge>): multiset<Edge> {
    Ledger(rho, rs) + multiset(RewriteAll(rho, pass2))
  }

  // No edge names a renamed ID.
  predicate Clean(rho: Renaming, rs: seq<Record>, pass2: seq<Edge>) {
    && (forall r :: r in rs ==> forall e :: e in r.rels ==> e.from !in rho && e.to !in rho)
    && (forall e :: e in pass2 ==> e.from !in rho && e.to !in rho)
  }

  lemma CleanEdges(rho: Renaming, rs: seq<Record>, pass2: seq<Edge>)
    requires Flat(rho)
    ensures Clean(rho, RepointAll(rho, rs), RewriteAll(rho, pass2))
  {
    var cur := RepointAll(rho, rs);
    forall r, e | r in cur && e in r.rels ensures e.from !in rho && e.to !in rho {
      var k :| 0 <= k < |cur| && cur[k] == r;
    }
  }

  // Rewriting edges by a flat renaming changes nothing the ledger sees.
  lemma RewriteSettles(rho: Renaming, owner: Id, es: seq<Edge>)
    requires Flat(rho) && "" !in rho && forall x :: x in rho ==> rho[x] != ""
    ensures Settle(rho, owner, RewriteAll(rho, es)) == Settle(rho, owner, es)
    ensures RewriteAll(rho, RewriteAll(rho, es)) == RewriteAll(rho, es)
  {
  }

  function RewriteRecord(rho: Renaming, r: Record): Record {
    r.(rels := RewriteAll(rho, r.rels))
  }

  function RepointAll(rho: Renaming, rs: seq<Record>): (out: seq<Record>)
    ensures |out| == |rs| && forall k :: 0 <= k < |rs| ==> out[k] == RewriteRecord(rho, rs[k])
  {
    seq(|rs|, k requires 0 <= k < |rs| => RewriteRecord(rho, rs[k]))
  }

  lemma RepointNothing(rs: seq<Record>)
    ensures RepointAll(map[], rs) == rs && forall es :: RewriteAll(map[], es) == es
  {
    forall es ensures RewriteAll(map[], es) == es {
    }
    forall k: nat | k < |rs| ensures RewriteRecord(map[], rs[k]) == rs[k] {
      assert RewriteAll(map[], rs[k].rels) == rs[k].rels;
    }
  }

  lemma RepointKeepsLedger(rho: Renaming, rs: seq<Record>)
    requires Flat(rho) && "" !in rho && forall x :: x in rho ==> rho[x] != ""
    ensures Ledger(rho, RepointAll(rho, rs)) == Ledger(rho, rs)
  {
    var out := RepointAll(rho, rs);
    forall k: nat | k < |rs| ensures Owned(rho, out[k]) == Owned(rho, rs[k]) {
      RewriteSettles(rho, rs[k].id, rs[k].rels);
    }
    assert Parts(rho, out) == Parts(rho, rs);
  }

  // Repoints the edges of every remaining record.
  method Repoint(merged: array<Record>, drop: set<nat>, rho: Renaming)
    requires forall k :: 0 <= k < merged.Length && k in drop ==> merged[k].rels == []
    modifies merged
    ensures forall k :: 0 <= k < merged.Length ==> merged[k] == RewriteRecord(rho, old(merged[k]))
  {
    for k := 0 to merged.Length
      invariant forall i :: 0 <= i < k ==> merged[i] == RewriteRecord(rho, old(merged[i]))
      invariant forall i :: k <= i < merged.Length ==> merged[i] == old(merged[i])
    {
      if k in drop {
        assert RewriteAll(rho, []) == [];
        continue;
      }
      merged[k] := merged[k].(rels := RewriteAll(rho, merged[k].rels));
    }
  }

  // The records left once the dropped ones are compacted away.
  function Kept(rs: seq<Record>, drop: set<nat>): (out: seq<Record>)
    ensures |out| <= |rs|
  {
    if rs == [] then []
    else
      var n := |rs| - 1;
      Kept(rs[..n], drop) + if n in drop then [] else [rs[n]]
  }

  lemma {:induction false} KeptAll(rs: seq<Record>)
    ensures Kept(rs, {}) == rs
  {
    if rs != [] {
      KeptAll(rs[..|rs| - 1]);
      assert rs == rs[..|rs| - 1] + [rs[|rs| - 1]];
    }
  }

  lemma {:induction false} KeptMembers(rs: seq<Record>, drop: set<nat>)
    ensures forall r :: r in Kept(rs, drop) ==> exists k :: 0 <= k < |rs| && k !in drop && rs[k] == r
    ensures forall k :: 0 <= k < |rs| && k !in drop ==> rs[k] in Kept(rs, drop)
  {
    if rs != [] {
      var n := |rs| - 1;
      KeptMembers(rs[..n], drop);
      forall r | r in Kept(rs, drop) ensures exists k :: 0 <= k < |rs| && k !in drop && rs[k] == r {
        if r in Kept(rs[..n], drop) {
          var k :| 0 <= k < n && k !in drop && rs[..n][k] == r;
          assert rs[k] == r;
        } else {
          assert rs[n] == r;
        }
      }
      forall k | 0 <= k < |rs| && k !in drop ensures rs[k] in Kept(rs, drop) {
        if k < n {
          assert rs[..n][k] in Kept(rs[..n], drop);
        }
      }
    }
  }

  lemma LedgerSnoc(rho: Renaming, rs: seq<Record>, r: Record)
    ensures Ledger(rho, rs + [r]) == Ledger(rho, rs) + Owned(rho, r)
  {
    var ms := Parts(rho, rs + [r]);
    assert ms[..|ms| - 1] == Parts(rho, rs) && ms[|ms| - 1] == Owned(rho, r);
  }

  lemma NothingOwned(rho: Renaming, r: Record)
    requires r.rels == []
    ensures Owned(rho, r) == multiset{}
  {
    assert Settle(rho, r.id, r.rels) == [];
  }

  lemma KeptSnoc(init: seq<Record>, last: Record, drop: set<nat>)
    ensures Kept(init + [last], drop) == Kept(init, drop) + if |init| in drop then [] else [last]
  {
    assert (init + [last])[..|init|] == init;
  }

  lemma LedgerExtend(rho: Renaming, init: seq<Record>, last: Record, kept: seq<Record>, skip: bool)
    requires Ledger(rho, kept) == Ledger(rho, init) && (skip ==> last.rels == [])
    ensures Ledger(rho, if skip then kept else kept + [last]) == Ledger(rho, init + [last])
  {
    LedgerSnoc(rho, init, last);
    if skip {
      NothingOwned(rho, last);
    } else {
      LedgerSnoc(rho, kept, last);
    }
  }

  lemma {:induction false} KeptLedger(rho: Renaming, rs: seq<Record>, drop: set<nat>)
    requires forall k :: 0 <= k < |rs| && k in drop ==> rs[k].rels == []
    ensures Ledger(rho, Kept(rs, drop)) == Ledger(rho, rs)
  {
    if rs != [] {
      var n := |rs| - 1;
      var init, last := rs[..n], rs[n];
      KeptLedger(rho, init, drop);
      LedgerExtend(rho, init, last, Kept(init, drop), n in drop);
      KeptSnoc(init, last, drop);
      assert rs == init + [last];
      assert Kept(init, drop) + [] == Kept(init, drop);
    }
  }

  // Drops the marked records in place.
  method Compact(merged: array<Record>, drop: set<nat>) returns (n: nat)
    modifies merged
    ensures n <= merged.Length && merged[..n] == Kept(old(merged[..]), drop)
  {
    n := 0;
    ghost var rs := merged[..];
    for k := 0 to merged.Length
      invariant n <= k && merged[..n] == Kept(rs[..k], drop)
      invariant merged[k..] == rs[k..]
    {
      assert rs[..k + 1][..k] == rs[..k] && merged[k] == merged[k..][0] == rs[k];
      ghost var kept := merged[..n];
      if k in drop {
        continue;
      }
      merged[n] := merged[k];
      assert merged[..n + 1] == kept + [rs[k]];
      n := n + 1;
    }
    assert rs[..|rs|] == rs;
  }
}
