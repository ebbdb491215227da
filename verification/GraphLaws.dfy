// What the two leaf rules of the graph come to: which rows are hierarchy self-loops, and what an ID says.
module GraphLaws {
  import opened Graph
  import opened Records

  // The two spellings differ in the case of letters at most; `name` is in capitals.
  predicate SameLetters(kind: string, name: string) {
    |kind| == |name| && forall i :: 0 <= i < |kind| ==> kind[i] == name[i] || kind[i] as int == name[i] as int + 32
  }

  predicate Capitals(name: string) {
    forall i :: 0 <= i < |name| ==> 'A' <= name[i] <= 'Z'
  }

  lemma UpperIff(kind: string, name: string)
    requires Capitals(name)
    ensures Upper(kind) == name <==> SameLetters(kind, name)
  {
    if SameLetters(kind, name) {
      forall i | 0 <= i < |kind| ensures Upper(kind)[i] == name[i] {
        assert 'A' <= name[i] <= 'Z';
      }
    }
    if Upper(kind) == name {
      forall i | 0 <= i < |kind| ensures kind[i] == name[i] || kind[i] as int == name[i] as int + 32 {
        assert UpperChar(kind[i]) == name[i];
      }
    }
  }

  // A row is dropped as a hierarchy self-loop if and only if it joins an entity to itself by one of the three
  // hierarchy kinds, in whatever case.
  lemma SelfLoopIff(r: Rel)
    ensures HierarchySelfLoop(r) <==>
      r.from != "" && r.to == r.from
      && (SameLetters(r.kind, "IMPLEMENTS") || SameLetters(r.kind, "EXTENDS") || SameLetters(r.kind, "INHERITS"))
  {
    UpperIff(r.kind, "IMPLEMENTS");
    UpperIff(r.kind, "EXTENDS");
    UpperIff(r.kind, "INHERITS");
  }

  // The rest is kept, in order and as often as it was there.
  lemma {:induction false} LoopsGo(rs: seq<Rel>, r: Rel)
    ensures multiset(DropHierarchySelfLoops(rs))[r] == if HierarchySelfLoop(r) then 0 else multiset(rs)[r]
  {
    if rs != [] {
      assert rs == rs[..|rs| - 1] + [rs[|rs| - 1]];
      LoopsGo(rs[..|rs| - 1], r);
    }
  }

  // The pre-stamp identity depends on each of its four fields.
  lemma EveryFieldCounts(r: Record, q: Record)
    requires ComputeID(r) == ComputeID(q)
    ensures r.file == q.file && r.kind == q.kind && r.name == q.name ==> r.owner == q.owner
    ensures r.owner == q.owner && r.kind == q.kind && r.name == q.name ==> r.file == q.file
    ensures r.owner == q.owner && r.file == q.file && r.name == q.name ==> r.kind == q.kind
    ensures r.owner == q.owner && r.file == q.file && r.kind == q.kind ==> r.name == q.name
  {
    Grouped(r);
    Grouped(q);
    if r.file == q.file && r.kind == q.kind && r.name == q.name {
      Middle("", r.owner, q.owner, r.file + r.kind + r.name);
    }
    if r.owner == q.owner && r.kind == q.kind && r.name == q.name {
      Middle(r.owner, r.file, q.file, r.kind + r.name);
    }
    if r.owner == q.owner && r.file == q.file && r.name == q.name {
      Middle(r.owner + r.file, r.kind, q.kind, r.name);
    }
    if r.owner == q.owner && r.file == q.file && r.kind == q.kind {
      Middle(r.owner + r.file + r.kind, r.name, q.name, "");
    }
  }

  lemma Grouped(r: Record)
    ensures ComputeID(r) == "" + r.owner + (r.file + r.kind + r.name)
    ensures ComputeID(r) == r.owner + r.file + (r.kind + r.name)
    ensures ComputeID(r) == r.owner + r.file + r.kind + r.name
    ensures ComputeID(r) == r.owner + r.file + r.kind + r.name + ""
  {
  }

  lemma Middle(a: string, x: string, y: string, b: string)
    ensures a + x + b == a + y + b ==> x == y
  {
    if a + x + b == a + y + b {
      assert x == (a + x + b)[|a|..|a| + |x|];
      assert y == (a + y + b)[|a|..|a| + |y|];
      assert |a + x + b| == |a + y + b|;
    }
  }
}
