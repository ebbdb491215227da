// stampEntityIDs: gives every named record its final ID and repoints twin_of at final IDs.
module Stamp {
  import opened Graph
  import opened Records

  // The final IDs claimed by the named records that share a pre-stamp ID.
  function Finals(repo: string, rs: seq<Record>, pre: Id): set<Id> {
    set r | r in rs && r.name != "" && ComputeID(r) == pre :: FinalID(repo, r)
  }

  // Where a twin_of value ends up: at the final ID its sharers agree on, or where it was.
  function Repointed(repo: string, rs: seq<Record>, twin: Id): (id: Id)
    ensures (exists y :: Finals(repo, rs, twin) == {y}) ==> Finals(repo, rs, twin) == {id}
    ensures (forall y :: Finals(repo, rs, twin) != {y}) ==> id == twin
  {
    var finals := Finals(repo, rs, twin);
    if |finals| == 1 then
      var y :| y in finals;
      assert finals == {y} by { OneMember(finals, y); }
      y
    else twin
  }

  lemma OneMember<T>(s: set<T>, y: T)
    requires |s| == 1 && y in s
    ensures s == {y}
  {
    assert |s - {y}| == 0;
  }

  function StampID(repo: string, r: Record): Record {
    if r.name == "" then r else r.(id := FinalID(repo, r))
  }

  function StampTwin(repo: string, rs: seq<Record>, r: Record): Record {
    if Prop(r, TWIN_OF) == "" then r else r.(props := r.props[TWIN_OF := Repointed(repo, rs, r.props[TWIN_OF])])
  }

  function Stamped(repo: string, rs: seq<Record>): seq<Record> {
    seq(|rs|, i requires 0 <= i < |rs| => StampTwin(repo, rs, StampID(repo, rs[i])))
  }

  // Pre-stamp and final IDs live apart. Equal ones would need two different preimages with one sum.
  ghost predicate Apart(repo: string, rs: seq<Record>) {
    forall r, q :: r in rs && q in rs ==> FinalID(repo, r) != ComputeID(q)
  }

  predicate HasTwinOf(rs: seq<Record>) {
    exists i :: 0 <= i < |rs| && Prop(rs[i], TWIN_OF) != ""
  }

  // What the remap loop knows of one pre-stamp ID after the records `rs`.
  ghost predicate Known(repo: string, rs: seq<Record>, final: map<Id, Id>, ambiguous: set<Id>, pre: Id) {
    var finals := Finals(repo, rs, pre);
    && (pre in final <==> finals != {})
    && (pre in final ==> final[pre] in finals)
    && (pre in ambiguous <==> exists y :: y in finals && y != final[pre])
  }

  lemma KnownSnoc(repo: string, rs: seq<Record>, r: Record, final: map<Id, Id>, ambiguous: set<Id>, pre: Id)
    requires Apart(repo, rs + [r]) && Known(repo, rs, final, ambiguous, pre)
    ensures r.name == "" || ComputeID(r) != pre ==> Known(repo, rs + [r], final, ambiguous, pre)
    ensures r.name != "" && ComputeID(r) == pre && pre in final && final[pre] != FinalID(repo, r) ==>
      Known(repo, rs + [r], final, ambiguous + {pre}, pre)
    ensures r.name != "" && ComputeID(r) == pre && !(pre in final && final[pre] != FinalID(repo, r)) ==>
      Known(repo, rs + [r], final[pre := FinalID(repo, r)], ambiguous, pre)
  {
    assert Finals(repo, rs + [r], pre) ==
      Finals(repo, rs, pre) + if r.name != "" && ComputeID(r) == pre then {FinalID(repo, r)} else {};
  }

  // What is known of one pre-stamp ID decides where a twin_of naming it goes.
  lemma KnownDecides(repo: string, rs: seq<Record>, final: map<Id, Id>, ambiguous: set<Id>, twin: Id)
    requires Known(repo, rs, final, ambiguous, twin)
    ensures Repointed(repo, rs, twin) == if twin in ambiguous || twin !in final then twin else final[twin]
  {
    var finals := Finals(repo, rs, twin);
    if twin in final && twin !in ambiguous {
      assert finals == {final[twin]};
    }
  }

  ghost predicate KnownAll(repo: string, rs: seq<Record>, final: map<Id, Id>, ambiguous: set<Id>) {
    forall pre :: Known(repo, rs, final, ambiguous, pre)
  }

  // One more record, skipped, found ambiguous, or learnt.
  lemma Learn(repo: string, rs: seq<Record>, r: Record, final: map<Id, Id>, ambiguous: set<Id>)
    requires Apart(repo, rs + [r]) && KnownAll(repo, rs, final, ambiguous)
    ensures var pre, id := ComputeID(r), FinalID(repo, r);
      if r.name == "" then KnownAll(repo, rs + [r], final, ambiguous)
      else if pre in final && final[pre] != id then KnownAll(repo, rs + [r], final, ambiguous + {pre})
      else pre != id && KnownAll(repo, rs + [r], final[pre := id], ambiguous)
  {
    assert r in rs + [r];
    var clash := r.name != "" && ComputeID(r) in final && final[ComputeID(r)] != FinalID(repo, r);
    var final' := if r.name == "" || clash then final else final[ComputeID(r) := FinalID(repo, r)];
    var ambiguous' := if clash then ambiguous + {ComputeID(r)} else ambiguous;
    forall pre ensures Known(repo, rs + [r], final', ambiguous', pre)
    {
      assert Known(repo, rs, final, ambiguous, pre);
      KnownSnoc(repo, rs, r, final, ambiguous, pre);
    }
  }

  // What the last loop does with one record.
  function RepointBy(final: map<Id, Id>, ambiguous: set<Id>, r: Record): Record {
    var twin := Prop(r, TWIN_OF);
    if twin == "" || twin in ambiguous || twin !in final then r
    else r.(props := r.props[TWIN_OF := final[twin]])
  }

  lemma RepointByDecides(repo: string, rs: seq<Record>, final: map<Id, Id>, ambiguous: set<Id>, r: Record)
    requires KnownAll(repo, rs, final, ambiguous)
    ensures RepointBy(final, ambiguous, r) == StampTwin(repo, rs, r)
  {
    var twin := Prop(r, TWIN_OF);
    if twin != "" {
      assert Known(repo, rs, final, ambiguous, twin);
      KnownDecides(repo, rs, final, ambiguous, twin);
      assert r.props[TWIN_OF := twin] == r.props;
    }
  }

  class Batch {
    var records: seq<Record>

    constructor (records: seq<Record>)
      ensures this.records == records
    {
      this.records := records;
    }

    // The path taken when no record carries a twin_of: IDs only.
    method StampOnly(repo: string)
      modifies this
      ensures |records| == |old(records)|
      ensures forall i :: 0 <= i < |records| ==> records[i] == StampID(repo, old(records)[i])
    {
      for k := 0 to |records|
        invariant |records| == |old(records)|
        invariant forall i :: 0 <= i < k ==> records[i] == StampID(repo, old(records)[i])
        invariant forall i :: k <= i < |records| ==> records[i] == old(records)[i]
      {
        var r := records[k];
        if r.name == "" {
          continue;
        }
        records := records[k := r.(id := FinalID(repo, r))];
      }
    }

    // The path that also learns which final ID each pre-stamp ID became, and which became several.
    method StampAndLearn(repo: string) returns (final: map<Id, Id>, ambiguous: set<Id>)
      modifies this
      ensures |records| == |old(records)|
      ensures forall i :: 0 <= i < |records| ==> records[i] == StampID(repo, old(records)[i])
      ensures Apart(repo, old(records)) ==> KnownAll(repo, old(records), final, ambiguous)
    {
      final, ambiguous := map[], {};
      ghost var rs := records;
      for k := 0 to |records|
        invariant |records| == |rs|
        invariant forall i :: 0 <= i < k ==> records[i] == StampID(repo, rs[i])
        invariant forall i :: k <= i < |records| ==> records[i] == rs[i]
        invariant Learnt(repo, rs, rs[..k], final, ambiguous)
      {
        var r := records[k];
        assert rs[..k + 1] == rs[..k] + [r] && r in rs;
        final, ambiguous := LearnOne(repo, rs, rs[..k], r, final, ambiguous);
        records := records[k := StampID(repo, r)];
      }
      assert rs[..|rs|] == rs;
    }

    // What is known after some of the records, if the two ID spaces are apart.
    static ghost predicate Learnt(repo: string, rs: seq<Record>, seen: seq<Record>, final: map<Id, Id>,
                                  ambiguous: set<Id>)
    {
      Apart(repo, rs) ==> KnownAll(repo, seen, final, ambiguous)
    }

    static method LearnOne(repo: string, ghost rs: seq<Record>, ghost seen: seq<Record>, r: Record, final: map<Id, Id>,
                           ambiguous: set<Id>)
      returns (final': map<Id, Id>, ambiguous': set<Id>)
      requires r in rs && (forall q :: q in seen ==> q in rs) && Learnt(repo, rs, seen, final, ambiguous)
      ensures Learnt(repo, rs, seen + [r], final', ambiguous')
    {
      final', ambiguous' := final, ambiguous;
      if Apart(repo, rs) {
        Learn(repo, seen, r, final, ambiguous);
      }
      if r.name == "" {
        return;
      }
      var preStampID, finalID := ComputeID(r), FinalID(repo, r);
      if preStampID in final && final[preStampID] != finalID {
        ambiguous' := ambiguous + {preStampID};
        return;
      }
      if preStampID != finalID {
        final' := final[preStampID := finalID];
      }
    }

    method Repoint(final: map<Id, Id>, ambiguous: set<Id>)
      modifies this
      ensures |records| == |old(records)|
      ensures forall i :: 0 <= i < |records| ==> records[i] == RepointBy(final, ambiguous, old(records)[i])
    {
      for k := 0 to |records|
        invariant |records| == |old(records)|
        invariant forall i :: 0 <= i < k ==> records[i] == RepointBy(final, ambiguous, old(records)[i])
        invariant forall i :: k <= i < |records| ==> records[i] == old(records)[i]
      {
        var r := records[k];
        var twin := Prop(r, TWIN_OF);
        if twin == "" || twin in ambiguous {
          continue;
        }
        if twin in final {
          records := records[k := r.(props := r.props[TWIN_OF := final[twin]])];
        }
      }
    }

    method RecordsHaveTwinOf() returns (found: bool)
      ensures found <==> HasTwinOf(records)
    {
      for k := 0 to |records|
        invariant forall i :: 0 <= i < k ==> Prop(records[i], TWIN_OF) == ""
      {
        if Prop(records[k], TWIN_OF) != "" {
          return true;
        }
      }
      return false;
    }

    // Both paths stamp the same records with the same IDs, and a twin_of goes where its sharers agree.
    method StampEntityIDs(repo: string)
      modifies this
      ensures |records| == |old(records)|
      ensures forall i :: 0 <= i < |records| ==> records[i].id == StampID(repo, old(records)[i]).id
      ensures Apart(repo, old(records)) ==> records == Stamped(repo, old(records))
    {
      var rs := records;
      var slow := RecordsHaveTwinOf();
      if !slow {
        StampOnly(repo);
        assert records == Stamped(repo, rs);
        return;
      }
      var final, ambiguous := StampAndLearn(repo);
      if |final| == 0 {
        if Apart(repo, rs) {
          NothingLearnt(repo, rs, final, ambiguous);
          assert records == Stamped(repo, rs);
        }
        return;
      }
      Repoint(final, ambiguous);
      if Apart(repo, rs) {
        forall i | 0 <= i < |rs| ensures records[i] == Stamped(repo, rs)[i] {
          RepointByDecides(repo, rs, final, ambiguous, StampID(repo, rs[i]));
        }
      }
    }
  }

  lemma NothingLearnt(repo: string, rs: seq<Record>, final: map<Id, Id>, ambiguous: set<Id>)
    requires KnownAll(repo, rs, final, ambiguous) && |final| == 0
    ensures forall r: Record :: StampTwin(repo, rs, r) == r
  {
    forall r: Record ensures StampTwin(repo, rs, r) == r {
      RepointByDecides(repo, rs, final, ambiguous, r);
    }
  }

  // ---------------------------------------------------------------------------------------------
  // What the specification amounts to.

  predicate Sharer(r: Record, twin: Id) {
    r.name != "" && ComputeID(r) == twin
  }

  // A twin_of is rewritten exactly when the named records sharing its pre-stamp ID exist and all agree on
  // one final ID, and then it is rewritten to that one.
  lemma RewrittenIffAgreed(repo: string, rs: seq<Record>, twin: Id, r: Record)
    requires Apart(repo, rs) && r in rs && Sharer(r, twin)
    ensures (forall q :: q in rs && Sharer(q, twin) ==> FinalID(repo, q) == FinalID(repo, r)) <==>
      Repointed(repo, rs, twin) == FinalID(repo, r)
    ensures Repointed(repo, rs, twin) != twin ==> Repointed(repo, rs, twin) == FinalID(repo, r)
  {
    var finals := Finals(repo, rs, twin);
    assert FinalID(repo, r) in finals;
    if forall q :: q in rs && Sharer(q, twin) ==> FinalID(repo, q) == FinalID(repo, r) {
      assert finals == {FinalID(repo, r)};
    } else {
      var q :| q in rs && Sharer(q, twin) && FinalID(repo, q) != FinalID(repo, r);
      assert FinalID(repo, q) in finals;
      assert Repointed(repo, rs, twin) == twin;
    }
  }

  lemma UnsharedStays(repo: string, rs: seq<Record>, twin: Id)
    requires forall r :: r in rs ==> !Sharer(r, twin)
    ensures Repointed(repo, rs, twin) == twin
  {
    assert Finals(repo, rs, twin) == {};
  }

  // The decision does not depend on the order of the records.
  lemma OrderIndependent(repo: string, rs: seq<Record>, rs': seq<Record>, twin: Id)
    requires multiset(rs) == multiset(rs')
    ensures Repointed(repo, rs, twin) == Repointed(repo, rs', twin)
  {
    forall r ensures r in rs <==> r in rs' {
      assert r in rs <==> r in multiset(rs);
      assert r in rs' <==> r in multiset(rs');
    }
    assert Finals(repo, rs, twin) == Finals(repo, rs', twin);
  }

  // Records built from NUL-free fields keep the two ID spaces apart.
  lemma NulFreeIsApart(repo: string, rs: seq<Record>)
    requires forall r :: r in rs ==> NulFree(r.owner) && NulFree(r.file) && NulFree(r.kind) && NulFree(r.name)
    ensures Apart(repo, rs)
  {
    forall r, q | r in rs && q in rs ensures FinalID(repo, r) != ComputeID(q) {
      FinalIsNotPreStamp(repo, r, q);
    }
  }

  // What stamping changes of a record: a named one gets the ID of its kind, name and file, an unnamed one keeps
  // what it has; a non-empty twin_of is repointed; everything else stays.
  lemma StampedFields(repo: string, rs: seq<Record>, i: nat)
    requires i < |rs|
    ensures var r, out := rs[i], Stamped(repo, rs)[i];
      && out == r.(id := if r.name != "" then EntityID(repo, r.kind, r.name, r.file) else r.id, props := out.props)
      && (forall key :: key != TWIN_OF ==> (key in out.props <==> key in r.props)
                                           && (key in r.props ==> out.props[key] == r.props[key]))
      && (TWIN_OF in out.props <==> TWIN_OF in r.props)
      && (TWIN_OF in r.props ==>
           out.props[TWIN_OF] == if r.props[TWIN_OF] == "" then "" else Repointed(repo, rs, r.props[TWIN_OF]))
  {
  }
}
