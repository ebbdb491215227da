// When the renamed ledger of a fold is what assembly will read from its output.
module EdgeLaws {
  import opened Graph
  import opened Records
  import opened Edges

  // The edges as assembly reads them: empty sources bound to their owner, nothing renamed any more.
  function Plain(rs: seq<Record>, pass2: seq<Edge>): multiset<Edge> {
    Balance(map[], rs, pass2)
  }

  // A remaining record whose own ID was renamed away, and which still owns an edge through an empty source.
  predicate WearsRenamed(rho: Renaming, r: Record) {
    r.id in rho && exists e :: e in r.rels && e.from == ""
  }

  lemma {:induction false} SumMembers(ms: seq<multiset<Edge>>, e: Edge)
    ensures e in Sum(ms) <==> exists i :: 0 <= i < |ms| && e in ms[i]
  {
    if ms != [] {
      var init := ms[..|ms| - 1];
      SumMembers(init, e);
      if e in Sum(init) {
        var i :| 0 <= i < |init| && e in init[i];
        assert e in ms[i];
      }
      if i :| 0 <= i < |ms| && e in ms[i] && i < |ms| - 1 {
        assert e in init[i];
      }
    }
  }

  lemma LedgerMembers(rho: Renaming, rs: seq<Record>, e: Edge)
    ensures e in Ledger(rho, rs) <==> exists r :: r in rs && e in Settle(rho, r.id, r.rels)
  {
    SumMembers(Parts(rho, rs), e);
    if i :| 0 <= i < |rs| && e in Parts(rho, rs)[i] {
      assert e in Settle(rho, rs[i].id, rs[i].rels);
    }
    if r :| r in rs && e in Settle(rho, r.id, r.rels) {
      var i :| 0 <= i < |rs| && rs[i] == r;
      assert e in Parts(rho, rs)[i];
    }
  }

  // A flat renaming leaves no edge that starts at a renamed ID.
  lemma BalanceIsClean(rho: Renaming, rs: seq<Record>, pass2: seq<Edge>, e: Edge)
    requires Flat(rho) && e in Balance(rho, rs, pass2)
    ensures e.from !in rho
  {
    if e in Ledger(rho, rs) {
      LedgerMembers(rho, rs, e);
    } else {
      assert e in RewriteAll(rho, pass2);
    }
  }

  lemma {:induction false} SameLedger(rho: Renaming, rs: seq<Record>)
    requires forall r :: r in rs ==> Settle(rho, r.id, r.rels) == Settle(map[], r.id, r.rels)
    ensures Ledger(rho, rs) == Ledger(map[], rs)
  {
    assert Parts(rho, rs) == Parts(map[], rs);
  }

  lemma UnwornIsPlain(rho: Renaming, out: seq<Record>, pass2: seq<Edge>)
    requires Clean(rho, out, pass2) && forall r :: r in out ==> !WearsRenamed(rho, r)
    ensures Plain(out, pass2) == Balance(rho, out, pass2)
  {
    forall r | r in out ensures Settle(rho, r.id, r.rels) == Settle(map[], r.id, r.rels) {
      UnwornEdges(rho, r);
    }
    SameLedger(rho, out);
    assert RewriteAll(rho, pass2) == RewriteAll(map[], pass2);
  }

  lemma WornIsNotPlain(rho: Renaming, out: seq<Record>, pass2: seq<Edge>, r: Record)
    requires Flat(rho) && r in out && WearsRenamed(rho, r)
    ensures Plain(out, pass2) != Balance(rho, out, pass2)
  {
    var e :| e in r.rels && e.from == "";
    var i :| 0 <= i < |r.rels| && r.rels[i] == e;
    var worn := Settle(map[], r.id, r.rels)[i];
    LedgerMembers(map[], out, worn);
    assert worn.from == r.id && worn in Plain(out, pass2);
    if worn in Balance(rho, out, pass2) {
      BalanceIsClean(rho, out, pass2, worn);
    }
  }

  lemma UnwornEdges(rho: Renaming, r: Record)
    requires !WearsRenamed(rho, r) && forall e :: e in r.rels ==> e.from !in rho && e.to !in rho
    ensures Settle(rho, r.id, r.rels) == Settle(map[], r.id, r.rels)
  {
  }

  // Rewriting neither empties nor fills a source.
  lemma EmptySources(rho: Renaming, es: seq<Edge>)
    requires "" !in rho && forall x :: x in rho ==> rho[x] != ""
    ensures (exists e :: e in RewriteAll(rho, es) && e.from == "") <==> (exists e :: e in es && e.from == "")
  {
    var out := RewriteAll(rho, es);
    if e :| e in out && e.from == "" {
      var i :| 0 <= i < |out| && out[i] == e;
      assert es[i] in es && es[i].from == "";
    }
    if e :| e in es && e.from == "" {
      var i :| 0 <= i < |es| && es[i] == e;
      assert out[i] in out && out[i].from == "";
    }
  }

  function IdsOf(rs: seq<Record>): set<Id> {
    set r | r in rs :: r.id
  }

  // The edges embedded in the records, bound and renamed, one after another.
  function Listing(rho: Renaming, rs: seq<Record>): seq<Edge> {
    if rs == [] then [] else Listing(rho, rs[..|rs| - 1]) + Settle(rho, rs[|rs| - 1].id, rs[|rs| - 1].rels)
  }

  lemma {:induction false} ListingIsLedger(rho: Renaming, rs: seq<Record>)
    ensures multiset(Listing(rho, rs)) == Ledger(rho, rs)
    ensures RewriteAll(rho, Listing(map[], rs)) == Listing(rho, rs)
  {
    if rs != [] {
      var init, last := rs[..|rs| - 1], rs[|rs| - 1];
      ListingIsLedger(rho, init);
      LedgerSnoc(rho, init, last);
      assert rs == init + [last];
      assert RewriteAll(rho, Settle(map[], last.id, last.rels)) == Settle(rho, last.id, last.rels);
      RewriteConcat(rho, Listing(map[], init), Settle(map[], last.id, last.rels));
    }
  }

  lemma RewriteConcat(rho: Renaming, a: seq<Edge>, b: seq<Edge>)
    ensures RewriteAll(rho, a + b) == RewriteAll(rho, a) + RewriteAll(rho, b)
  {
  }

  // Renaming does not care in what order edges are listed.
  lemma {:induction false} RewriteAnyOrder(rho: Renaming, a: seq<Edge>, b: seq<Edge>)
    requires multiset(a) == multiset(b)
    ensures multiset(RewriteAll(rho, a)) == multiset(RewriteAll(rho, b))
    decreases |a|
  {
    if a == [] {
      assert |multiset(b)| == |b| == 0;
    } else {
      var init, last := a[..|a| - 1], a[|a| - 1];
      assert a == init + [last];
      assert multiset(a) == multiset(init) + multiset{last};
      var before, after := SplitAt(b, last);
      assert multiset(before + [last] + after) == multiset(before + after) + multiset{last};
      Cancel(multiset(init), multiset(before + after), multiset{last});
      RewriteAnyOrder(rho, init, before + after);
      RewriteLast(rho, init, last);
      RewriteMiddle(rho, before, last, after);
    }
  }

  lemma SplitAt(b: seq<Edge>, e: Edge) returns (before: seq<Edge>, after: seq<Edge>)
    requires e in multiset(b)
    ensures b == before + [e] + after
  {
    var j :| 0 <= j < |b| && b[j] == e;
    before, after := b[..j], b[j + 1..];
  }

  lemma RewriteLast(rho: Renaming, a: seq<Edge>, e: Edge)
    ensures multiset(RewriteAll(rho, a + [e])) == multiset(RewriteAll(rho, a)) + multiset{Rewrite(rho, e)}
  {
    RewriteConcat(rho, a, [e]);
    assert RewriteAll(rho, [e]) == [Rewrite(rho, e)];
  }

  lemma RewriteMiddle(rho: Renaming, a: seq<Edge>, e: Edge, b: seq<Edge>)
    ensures multiset(RewriteAll(rho, a + [e] + b)) == multiset(RewriteAll(rho, a + b)) + multiset{Rewrite(rho, e)}
  {
    RewriteConcat(rho, a + [e], b);
    RewriteLast(rho, a, e);
    RewriteConcat(rho, a, b);
  }

  // Binding and renaming at once, or binding first: the same edges.
  lemma RenamesThePlain(rho: Renaming, rs: seq<Record>, pass2: seq<Edge>, plain: seq<Edge>)
    requires multiset(plain) == Plain(rs, pass2)
    ensures multiset(RewriteAll(rho, plain)) == Balance(rho, rs, pass2)
  {
    var listed := Listing(map[], rs) + RewriteAll(map[], pass2);
    ListingIsLedger(map[], rs);
    ListingIsLedger(rho, rs);
    RewriteAnyOrder(rho, plain, listed);
    RewriteConcat(rho, Listing(map[], rs), RewriteAll(map[], pass2));
    assert RewriteAll(rho, RewriteAll(map[], pass2)) == RewriteAll(rho, pass2);
  }

  lemma PlainIsListed(rs: seq<Record>, pass2: seq<Edge>) returns (plain: seq<Edge>)
    ensures multiset(plain) == Plain(rs, pass2)
  {
    ListingIsLedger(map[], rs);
    plain := Listing(map[], rs) + RewriteAll(map[], pass2);
  }

  // Every edge leaves from a record.
  ghost predicate FromRecords(rs: seq<Record>, pass2: seq<Edge>) {
    forall e :: e in Plain(rs, pass2) ==> e.from in IdsOf(rs)
  }

  // A fold that conserves the edges, renames all of them and loses no ID keeps that so.
  lemma FoldKeepsSources(rho: Renaming, rs: seq<Record>, pass0: seq<Edge>, out: seq<Record>, pass1: seq<Edge>)
    requires Balance(rho, out, pass1) == Balance(rho, rs, pass0) && Clean(rho, out, pass1)
    requires forall k :: 0 <= k < |rs| ==> Renamed(rho, rs[k].id) in IdsOf(out)
    requires FromRecords(rs, pass0)
    ensures FromRecords(out, pass1)
  {
    forall e | e in Plain(out, pass1) ensures e.from in IdsOf(out) {
      var spelled := NotOwned(rho, out, pass1, e);
      if spelled {
        SourceKept(rho, rs, pass0, out, pass1, e);
      }
    }
  }

  // An edge leaves from its own record, or it is spelled out and so has been renamed.
  lemma NotOwned(rho: Renaming, out: seq<Record>, pass1: seq<Edge>, e: Edge) returns (spelled: bool)
    requires Clean(rho, out, pass1) && e in Plain(out, pass1)
    ensures if spelled then e.from !in rho else e.from in IdsOf(out)
  {
    spelled := true;
    if e in Ledger(map[], out) {
      LedgerMembers(map[], out, e);
      var r :| r in out && e in Settle(map[], r.id, r.rels);
      var i :| 0 <= i < |r.rels| && Settle(map[], r.id, r.rels)[i] == e;
      assert r.rels[i] in r.rels && e.from == Bound(r.rels[i], r.id).from;
      spelled := r.rels[i].from != "";
    } else {
      var i :| 0 <= i < |pass1| && RewriteAll(map[], pass1)[i] == e;
      assert pass1[i] in pass1;
    }
  }

  lemma SourceKept(rho: Renaming, rs: seq<Record>, pass0: seq<Edge>, out: seq<Record>, pass1: seq<Edge>, e: Edge)
    requires Balance(rho, out, pass1) == Balance(rho, rs, pass0) && FromRecords(rs, pass0)
    requires forall k :: 0 <= k < |rs| ==> Renamed(rho, rs[k].id) in IdsOf(out)
    requires e in Plain(out, pass1) && e.from !in rho
    ensures e.from in IdsOf(out)
  {
    var plain := PlainIsListed(out, pass1);
    var input := PlainIsListed(rs, pass0);
    RenamesThePlain(rho, out, pass1, plain);
    RenamesThePlain(rho, rs, pass0, input);
    assert e in plain;
    var j :| 0 <= j < |plain| && plain[j] == e;
    var sent := RewriteAll(rho, input);
    assert RewriteAll(rho, plain)[j] in multiset(RewriteAll(rho, plain));
    assert RewriteAll(rho, plain)[j] in sent;
    var i :| 0 <= i < |sent| && sent[i] == RewriteAll(rho, plain)[j];
    assert input[i] in multiset(input);
    var r :| r in rs && r.id == input[i].from;
    var k :| 0 <= k < |rs| && rs[k] == r;
  }

  // ---------------------------------------------------------------------------------------------
  // What compaction leaves.

  // `out` is what stands at the positions `at`: all but those of `drop`, in order.
  ghost predicate Compacted(rs: seq<Record>, drop: set<nat>, at: seq<nat>, out: seq<Record>) {
    && |at| == |out| && (forall m, n :: 0 <= m < n < |at| ==> at[m] < at[n])
    && (forall m :: 0 <= m < |at| ==> at[m] < |rs| && at[m] !in drop && out[m] == rs[at[m]])
    && (forall k: nat :: k < |rs| && k !in drop ==> k in at)
  }

  lemma CompactedSnoc(init: seq<Record>, r: Record, drop: set<nat>, at: seq<nat>, out: seq<Record>)
    requires Compacted(init, drop, at, out)
    ensures |init| in drop ==> Compacted(init + [r], drop, at, out)
    ensures |init| !in drop ==> Compacted(init + [r], drop, at + [|init|], out + [r])
  {
    var rs, n := init + [r], |init|;
    assert rs[n] == r && forall k: nat :: k < n ==> rs[k] == init[k];
    if n !in drop {
      var at' := at + [n];
      assert at'[|at|] == n;
      forall k: nat | k < |rs| && k !in drop ensures k in at' {
        assert k < n ==> k in at;
      }
    }
  }

  lemma {:induction false} KeptInOrder(rs: seq<Record>, drop: set<nat>) returns (at: seq<nat>)
    ensures Compacted(rs, drop, at, Kept(rs, drop))
  {
    if rs == [] {
      at := [];
    } else {
      var n := |rs| - 1;
      var init, r := rs[..n], rs[n];
      assert rs == init + [r];
      at := KeptInOrder(init, drop);
      CompactedSnoc(init, r, drop, at, Kept(init, drop));
      at := if n in drop then at else at + [n];
      assert Kept(init, drop) + [] == Kept(init, drop);
    }
  }
}
