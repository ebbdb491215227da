// The persisted graph: entity rows, relationship rows and the identities both are keyed by.
module Graph {
  type Id = string
  type Props = map<string, string>

  // `body` stands for every entity field the merge copies without looking at it.
  datatype Entity = Entity(id: Id, file: string, body: string)

  datatype Rel = Rel(id: Id, from: Id, to: Id, kind: string, props: Props, confidence: real)

  // What the merge's dedupe key is made of; confidence is deliberately not part of it.
  datatype RelKey = RelKey(id: Id, from: Id, to: Id, kind: string, props: Props)

  datatype Doc = Doc(entities: seq<Entity>, rels: seq<Rel>)

  const NUL: string := ['\0']

  // The two identity schemes are truncated SHA-256 sums of these very strings.
  // A sum is modelled by its preimage: colliding sums are out of scope, colliding preimages are not.
  function EntityID(repo: string, kind: string, name: string, file: string): Id {
    repo + NUL + kind + NUL + name + NUL + file
  }

  function RelationshipID(from: Id, to: Id, kind: string): Id {
    from + NUL + to + NUL + kind
  }

  // A row's identity: an absent ID is normalised to the derived one.
  function RelID(r: Rel): Id {
    if r.id != "" then r.id else RelationshipID(r.from, r.to, r.kind)
  }

  function Normal(r: Rel): Rel {
    r.(id := RelID(r))
  }

  function KeyOf(r: Rel): RelKey {
    RelKey(RelID(r), r.from, r.to, r.kind, r.props)
  }

  function Ids(es: seq<Entity>): set<Id> {
    set e | e in es :: e.id
  }

  function Keys(rs: seq<Rel>): set<RelKey> {
    set r | r in rs :: KeyOf(r)
  }

  ghost predicate DistinctKeys(rs: seq<Rel>) {
    forall i, j :: 0 <= i < |rs| && 0 <= j < |rs| && KeyOf(rs[i]) == KeyOf(rs[j]) ==> i == j
  }

  function UpperChar(c: char): char {
    if 'a' <= c <= 'z' then c - 'a' + 'A' else c
  }

  function Upper(s: string): string {
    seq(|s|, i requires 0 <= i < |s| => UpperChar(s[i]))
  }

  // No type is its own supertype.
  predicate HierarchySelfLoop(r: Rel) {
    r.from != "" && r.from == r.to && Upper(r.kind) in {"IMPLEMENTS", "EXTENDS", "INHERITS"}
  }

  function DropHierarchySelfLoops(rs: seq<Rel>): (out: seq<Rel>)
    ensures forall r :: r in out <==> r in rs && !HierarchySelfLoop(r)
    ensures |out| <= |rs|
  {
    if rs == [] then []
    else
      var init := DropHierarchySelfLoops(rs[..|rs| - 1]);
      var r := rs[|rs| - 1];
      assert rs == rs[..|rs| - 1] + [r];
      if HierarchySelfLoop(r) then init else init + [r]
  }

  lemma DropHierarchySelfLoopsConcat(a: seq<Rel>, b: seq<Rel>)
    ensures DropHierarchySelfLoops(a + b) == DropHierarchySelfLoops(a) + DropHierarchySelfLoops(b)
  {
    if b == [] {
      assert a + b == a;
    } else {
      assert (a + b)[..|a + b| - 1] == a + b[..|b| - 1];
      DropHierarchySelfLoopsConcat(a, b[..|b| - 1]);
    }
  }

  lemma NothingToDrop(rs: seq<Rel>)
    requires forall r :: r in rs ==> !HierarchySelfLoop(r)
    ensures DropHierarchySelfLoops(rs) == rs
  {
    if rs != [] {
      assert rs == rs[..|rs| - 1] + [rs[|rs| - 1]];
      NothingToDrop(rs[..|rs| - 1]);
    }
  }
}
