// The assembly loops of buildDocument: records become entities, deduplicated by ID with gap filling, and their
// edges and the standalone ones become relationships, deduplicated by relationship ID.
module Assembly {
  import opened Graph
  import opened Records
  import opened Edges

  datatype Node = Node(id: Id, name: string, qualifiedName: string, kind: string, subtype: string, file: string,
                       startLine: nat, endLine: nat, language: string, signature: string, tags: seq<string>,
                       props: Props)

  // What assembly knows of the repository: its tag, the label of a single-module one, where a file's module is,
  // and the subtype of the sentinel records that must not outrank real ones.
  datatype Site = Site(repo: string, unit: string, derive: string -> string, sentinel: string)

  const MODULE: string := "module"
  const SENTINEL: string := "orm_model_sentinel"

  function Program(repo: string, unit: string, derive: string -> string): (site: Site)
    ensures site.sentinel != ""
  {
    assert |SENTINEL| == 18;
    Site(repo, unit, derive, SENTINEL)
  }

  function IdOf(site: Site, r: Record): Id {
    FinalID(site.repo, r)
  }

  // ---------------------------------------------------------------------------------------------
  // The specification: each field of an entity in terms of all records of its ID.

  datatype Text = QualifiedName | Subtype | Signature | Language

  function Get(f: Text, r: Record): string {
    match f
    case QualifiedName => r.qualifiedName
    case Subtype => r.subtype
    case Signature => r.signature
    case Language => r.language
  }

  // The first non-empty value.
  function FirstText(f: Text, ds: seq<Record>): string {
    if ds == [] then "" else if Get(f, ds[0]) != "" then Get(f, ds[0]) else FirstText(f, ds[1..])
  }

  datatype Line = Start | End

  function LineOf(f: Line, r: Record): nat {
    if f == Start then r.startLine else r.endLine
  }

  function FirstLine(f: Line, ds: seq<Record>): nat {
    if ds == [] then 0 else if LineOf(f, ds[0]) != 0 then LineOf(f, ds[0]) else FirstLine(f, ds[1..])
  }

  predicate Genuine(site: Site, r: Record) {
    r.subtype != "" && r.subtype != site.sentinel
  }

  // The first record with a real subtype, or the number of records.
  function FirstGenuine(site: Site, ds: seq<Record>): (j: nat)
    ensures j <= |ds| && (j < |ds| ==> Genuine(site, ds[j]))
    ensures forall i :: 0 <= i < j ==> !Genuine(site, ds[i])
  {
    if ds == [] || Genuine(site, ds[0]) then 0 else 1 + FirstGenuine(site, ds[1..])
  }

  predicate HasSentinel(site: Site, ds: seq<Record>) {
    exists r :: r in ds && r.subtype == site.sentinel
  }

  // A real subtype if there is one, whatever came first.
  function SubtypeOf(site: Site, ds: seq<Record>): string {
    var j := FirstGenuine(site, ds);
    if j < |ds| then ds[j].subtype else FirstText(Subtype, ds)
  }

  // The first qualified name, except that the record displacing a sentinel's subtype brings its own if it has one.
  function QualifiedNameOf(site: Site, ds: seq<Record>): string {
    var j := FirstGenuine(site, ds);
    if j < |ds| && HasSentinel(site, ds[..j]) && ds[j].qualifiedName != "" then ds[j].qualifiedName
    else FirstText(QualifiedName, ds)
  }

  function AddTags(tags: seq<string>, more: seq<string>): seq<string> {
    if more == [] then tags
    else
      var sofar, t := AddTags(tags, more[..|more| - 1]), more[|more| - 1];
      if t in sofar then sofar else sofar + [t]
  }

  // The first record's tags, then those of the others not met before.
  function TagsOf(ds: seq<Record>): seq<string> {
    if ds == [] then []
    else if |ds| == 1 then ds[0].tags
    else AddTags(TagsOf(ds[..|ds| - 1]), ds[|ds| - 1].tags)
  }

  // The module label is forced on a sourced record of a single-module repository; elsewhere a missing one is
  // derived from the file.
  function Moduled(site: Site, r: Record): Props {
    if site.unit != "" && r.file != "" then r.props[MODULE := site.unit]
    else if MODULE in r.props then r.props
    else r.props[MODULE := site.derive(r.file)]
  }

  // First record wins, key by key.
  function PropsOf(site: Site, ds: seq<Record>): Props {
    if ds == [] then map[]
    else if |ds| == 1 then Moduled(site, ds[0])
    else ds[|ds| - 1].props + PropsOf(site, ds[..|ds| - 1])
  }

  function NodeOf(site: Site, ds: seq<Record>): Node
    requires ds != []
  {
    Node(IdOf(site, ds[0]), ds[0].name, QualifiedNameOf(site, ds), ds[0].kind, SubtypeOf(site, ds), ds[0].file,
         FirstLine(Start, ds), FirstLine(End, ds), FirstText(Language, ds), FirstText(Signature, ds),
         TagsOf(ds), PropsOf(site, ds))
  }

  // The records of one ID, in order.
  function Dups(site: Site, rs: seq<Record>, x: Id): (ds: seq<Record>)
    ensures forall r :: r in ds <==> r in rs && IdOf(site, r) == x
  {
    if rs == [] then []
    else
      var init, r := Dups(site, rs[..|rs| - 1], x), rs[|rs| - 1];
      assert rs == rs[..|rs| - 1] + [r];
      if IdOf(site, r) == x then init + [r] else init
  }

  // The IDs, in order of first occurrence.
  function Order(site: Site, rs: seq<Record>): (ids: seq<Id>)
    ensures forall x :: x in ids <==> Dups(site, rs, x) != []
    ensures forall i, j :: 0 <= i < j < |ids| ==> ids[i] != ids[j]
  {
    if rs == [] then []
    else
      var init, x := Order(site, rs[..|rs| - 1]), IdOf(site, rs[|rs| - 1]);
      if x in init then init else init + [x]
  }

  function NodeAt(site: Site, rs: seq<Record>, i: nat): Node
    requires i < |Order(site, rs)|
  {
    assert Order(site, rs)[i] in Order(site, rs);
    NodeOf(site, Dups(site, rs, Order(site, rs)[i]))
  }

  function Nodes(site: Site, rs: seq<Record>): (out: seq<Node>)
    ensures |out| == |Order(site, rs)| && forall i :: 0 <= i < |out| ==> out[i] == NodeAt(site, rs, i)
  {
    seq(|Order(site, rs)|, i requires 0 <= i < |Order(site, rs)| => NodeAt(site, rs, i))
  }

  function RowOf(e: Edge): Rel {
    Rel(RelationshipID(e.from, e.to, e.kind), e.from, e.to, e.kind, e.props, e.confidence)
  }

  function RowIds(rows: seq<Rel>): set<Id> {
    set r | r in rows :: r.id
  }

  // The first edge of every relationship ID.
  function Rows(es: seq<Edge>): seq<Rel> {
    if es == [] then []
    else
      var init, row := Rows(es[..|es| - 1]), RowOf(es[|es| - 1]);
      if row.id in RowIds(init) then init else init + [row]
  }

  // The embedded edges, bound to the entity of their record.
  function Embedded(site: Site, rs: seq<Record>): seq<Edge> {
    if rs == [] then []
    else Embedded(site, rs[..|rs| - 1]) + BindAll(rs[|rs| - 1].rels, IdOf(site, rs[|rs| - 1]))
  }

  // The two late streams carry no confidence.
  function Unrated(es: seq<Edge>): (out: seq<Edge>)
    ensures |out| == |es| && forall i :: 0 <= i < |es| ==> out[i] == es[i].(confidence := 0.0)
  {
    seq(|es|, i requires 0 <= i < |es| => es[i].(confidence := 0.0))
  }

  // All edges in the order assembly meets them.
  function AllEdges(site: Site, rs: seq<Record>, pass2: seq<Edge>, contains: seq<Edge>, joins: seq<Edge>): seq<Edge> {
    Embedded(site, rs) + pass2 + Unrated(contains) + Unrated(joins)
  }

  // ---------------------------------------------------------------------------------------------
  // One more record of an ID is one gap-filling step.

  lemma {:induction false} FirstTextSnoc(f: Text, ds: seq<Record>, r: Record)
    ensures FirstText(f, ds + [r]) == if FirstText(f, ds) != "" then FirstText(f, ds) else Get(f, r)
  {
    if ds != [] {
      assert (ds + [r])[1..] == ds[1..] + [r];
      FirstTextSnoc(f, ds[1..], r);
    }
  }

  lemma {:induction false} FirstLineSnoc(f: Line, ds: seq<Record>, r: Record)
    ensures FirstLine(f, ds + [r]) == if FirstLine(f, ds) != 0 then FirstLine(f, ds) else LineOf(f, r)
  {
    if ds != [] {
      assert (ds + [r])[1..] == ds[1..] + [r];
      FirstLineSnoc(f, ds[1..], r);
    }
  }

  lemma {:induction false} NoneGenuine(site: Site, ds: seq<Record>)
    requires site.sentinel != "" && forall i :: 0 <= i < |ds| ==> !Genuine(site, ds[i])
    ensures FirstText(Subtype, ds) == if HasSentinel(site, ds) then site.sentinel else ""
  {
    if ds != [] {
      NoneGenuine(site, ds[1..]);
      assert ds == [ds[0]] + ds[1..];
    }
  }

  // Where the first real subtype is, after one more record.
  lemma {:induction false} FirstGenuineSnoc(site: Site, ds: seq<Record>, r: Record)
    ensures FirstGenuine(site, ds + [r]) ==
      if FirstGenuine(site, ds) < |ds| || Genuine(site, r) then FirstGenuine(site, ds) else |ds| + 1
  {
    if ds != [] {
      assert (ds + [r])[1..] == ds[1..] + [r];
      FirstGenuineSnoc(site, ds[1..], r);
    } else {
      assert ([r])[1..] == [];
    }
  }

  // The displacement of a sentinel.
  function Displaced(site: Site, n: Node, r: Record): Node {
    if n.subtype == site.sentinel && Genuine(site, r) then
      n.(subtype := "", qualifiedName := if r.qualifiedName != "" then "" else n.qualifiedName)
    else n
  }

  function Filled(n: Node, r: Record): Node {
    n.(qualifiedName := if n.qualifiedName == "" then r.qualifiedName else n.qualifiedName,
       subtype := if n.subtype == "" then r.subtype else n.subtype,
       signature := if n.signature == "" then r.signature else n.signature,
       language := if n.language == "" then r.language else n.language,
       startLine := if n.startLine == 0 then r.startLine else n.startLine,
       endLine := if n.endLine == 0 then r.endLine else n.endLine,
       tags := AddTags(n.tags, r.tags),
       props := r.props + n.props)
  }

  lemma NamesSnoc(site: Site, ds: seq<Record>, r: Record)
    requires site.sentinel != "" && ds != []
    ensures var n := Filled(Displaced(site, NodeOf(site, ds), r), r);
      SubtypeOf(site, ds + [r]) == n.subtype && QualifiedNameOf(site, ds + [r]) == n.qualifiedName
  {
    var ds', j := ds + [r], FirstGenuine(site, ds);
    FirstGenuineSnoc(site, ds, r);
    FirstTextSnoc(Subtype, ds, r);
    FirstTextSnoc(QualifiedName, ds, r);
    if j < |ds| {
      assert ds'[j] == ds[j] && ds'[..j] == ds[..j];
    } else {
      NoneGenuine(site, ds);
      assert ds'[..|ds|] == ds && ds[..|ds|] == ds;
    }
  }

  lemma NodeSnoc(site: Site, ds: seq<Record>, r: Record)
    requires site.sentinel != "" && ds != []
    ensures NodeOf(site, ds + [r]) == Filled(Displaced(site, NodeOf(site, ds), r), r)
  {
    NamesSnoc(site, ds, r);
    FirstTextSnoc(Signature, ds, r);
    FirstTextSnoc(Language, ds, r);
    FirstLineSnoc(Start, ds, r);
    FirstLineSnoc(End, ds, r);
    assert (ds + [r])[..|ds|] == ds && (ds + [r])[0] == ds[0];
  }

  lemma NodeOne(site: Site, r: Record)
    requires site.sentinel != ""
    ensures NodeOf(site, [r]) ==
      Node(IdOf(site, r), r.name, r.qualifiedName, r.kind, r.subtype, r.file, r.startLine, r.endLine, r.language,
           r.signature, r.tags, Moduled(site, r))
  {
    FirstTextSnoc(Subtype, [], r);
    FirstTextSnoc(QualifiedName, [], r);
    FirstTextSnoc(Signature, [], r);
    FirstTextSnoc(Language, [], r);
    FirstLineSnoc(Start, [], r);
    FirstLineSnoc(End, [], r);
    assert [] + [r] == [r];
    FirstGenuineSnoc(site, [], r);
  }

  // ---------------------------------------------------------------------------------------------
  // The entities, one more record at a time.

  // Where every ID met so far has its entity.
  ghost predicate PlacedAt(ids: seq<Id>, pos: map<Id, nat>, x: Id) {
    && (x in pos <==> x in ids)
    && (x in pos ==> pos[x] < |ids| && ids[pos[x]] == x)
  }

  ghost predicate AllPlaced(ids: seq<Id>, pos: map<Id, nat>) {
    forall x :: PlacedAt(ids, pos, x)
  }

  ghost predicate Placed(site: Site, rs: seq<Record>, pos: map<Id, nat>) {
    AllPlaced(Order(site, rs), pos)
  }

  lemma OrderSnoc(site: Site, rs: seq<Record>, r: Record)
    ensures Order(site, rs + [r]) ==
      if IdOf(site, r) in Order(site, rs) then Order(site, rs) else Order(site, rs) + [IdOf(site, r)]
    ensures forall x ::
      Dups(site, rs + [r], x) == if IdOf(site, r) == x then Dups(site, rs, x) + [r] else Dups(site, rs, x)
  {
    assert (rs + [r])[..|rs|] == rs;
  }

  lemma OtherNode(site: Site, rs: seq<Record>, r: Record, i: nat)
    requires i < |Order(site, rs)| && Order(site, rs)[i] != IdOf(site, r)
    ensures i < |Order(site, rs + [r])| && NodeAt(site, rs + [r], i) == NodeAt(site, rs, i)
  {
    OrderSnoc(site, rs, r);
  }

  lemma NewNode(site: Site, rs: seq<Record>, r: Record)
    requires IdOf(site, r) !in Order(site, rs)
    ensures |Order(site, rs + [r])| == |Order(site, rs)| + 1
    ensures NodeAt(site, rs + [r], |Order(site, rs)|) == NodeOf(site, [r])
  {
    OrderSnoc(site, rs, r);
    assert Dups(site, rs, IdOf(site, r)) == [] && [] + [r] == [r];
  }

  lemma GrownNode(site: Site, rs: seq<Record>, r: Record, i: nat)
    requires site.sentinel != "" && i < |Order(site, rs)| && Order(site, rs)[i] == IdOf(site, r)
    ensures |Order(site, rs + [r])| == |Order(site, rs)|
    ensures NodeAt(site, rs + [r], i) == Filled(Displaced(site, NodeAt(site, rs, i), r), r)
  {
    OrderSnoc(site, rs, r);
    assert Order(site, rs)[i] in Order(site, rs);
    NodeSnoc(site, Dups(site, rs, IdOf(site, r)), r);
  }

  lemma PlacedMore(ids: seq<Id>, pos: map<Id, nat>, y: Id)
    requires AllPlaced(ids, pos) && y !in ids
    ensures AllPlaced(ids + [y], pos[y := |ids|])
  {
    var ids', pos' := ids + [y], pos[y := |ids|];
    forall x ensures PlacedAt(ids', pos', x) {
      assert PlacedAt(ids, pos, x);
      assert ids'[|ids|] == y;
    }
  }

  lemma PlacedSnoc(site: Site, rs: seq<Record>, r: Record, pos: map<Id, nat>)
    requires Placed(site, rs, pos)
    ensures IdOf(site, r) in pos <==> IdOf(site, r) in Order(site, rs)
    ensures IdOf(site, r) in pos ==> Placed(site, rs + [r], pos)
    ensures IdOf(site, r) !in pos ==> Placed(site, rs + [r], pos[IdOf(site, r) := |Order(site, rs)|])
  {
    OrderSnoc(site, rs, r);
    assert PlacedAt(Order(site, rs), pos, IdOf(site, r));
    if IdOf(site, r) !in pos {
      PlacedMore(Order(site, rs), pos, IdOf(site, r));
    }
  }

  lemma NewId(site: Site, rs: seq<Record>, r: Record)
    requires IdOf(site, r) !in Order(site, rs)
    ensures Nodes(site, rs + [r]) == Nodes(site, rs) + [NodeOf(site, [r])]
  {
    NewNode(site, rs, r);
    forall i: nat | i < |Order(site, rs)| ensures Nodes(site, rs + [r])[i] == Nodes(site, rs)[i] {
      assert Order(site, rs)[i] in Order(site, rs);
      OtherNode(site, rs, r, i);
    }
  }

  lemma KnownId(site: Site, rs: seq<Record>, r: Record, p: nat)
    requires site.sentinel != "" && p < |Order(site, rs)| && Order(site, rs)[p] == IdOf(site, r)
    ensures Nodes(site, rs + [r]) == Nodes(site, rs)[p := Filled(Displaced(site, Nodes(site, rs)[p], r), r)]
  {
    GrownNode(site, rs, r, p);
    var was, now := Nodes(site, rs), Nodes(site, rs + [r]);
    assert now[p] == Filled(Displaced(site, was[p], r), r);
    forall i: nat | i < |was| && i != p ensures now[i] == was[i] {
      OtherAt(site, rs, r, p, i);
    }
    UpdatedOnce(was, now, p);
  }

  lemma OtherAt(site: Site, rs: seq<Record>, r: Record, p: nat, i: nat)
    requires p < |Order(site, rs)| && Order(site, rs)[p] == IdOf(site, r) && i < |Order(site, rs)| && i != p
    ensures |Order(site, rs + [r])| == |Order(site, rs)| && NodeAt(site, rs + [r], i) == NodeAt(site, rs, i)
  {
    OtherNode(site, rs, r, i);
    OrderSnoc(site, rs, r);
  }

  lemma UpdatedOnce<T>(was: seq<T>, now: seq<T>, p: nat)
    requires p < |was| == |now| && forall i: nat :: i < |was| && i != p ==> now[i] == was[i]
    ensures now == was[p := now[p]]
  {
  }

  method AddAllTags(tags0: seq<string>, more: seq<string>) returns (tags: seq<string>)
    ensures tags == AddTags(tags0, more)
  {
    tags := tags0;
    var seen := set t | t in tags0;
    for i := 0 to |more|
      invariant tags == AddTags(tags0, more[..i]) && seen == set t | t in tags
    {
      assert more[..i + 1][..i] == more[..i];
      if more[i] !in seen {
        seen := seen + {more[i]};
        tags := tags + [more[i]];
      }
    }
    assert more[..|more|] == more;
  }

  // Carries a duplicate's values onto the survivor where the survivor has none.
  method GapFill(site: Site, surv0: Node, r: Record) returns (surv: Node)
    ensures surv == Filled(Displaced(site, surv0, r), r)
  {
    var qualifiedName, subtype := surv0.qualifiedName, surv0.subtype;
    if subtype == site.sentinel && r.subtype != "" && r.subtype != site.sentinel {
      subtype := "";
      if r.qualifiedName != "" {
        qualifiedName := "";
      }
    }
    if qualifiedName == "" && r.qualifiedName != "" {
      qualifiedName := r.qualifiedName;
    }
    if subtype == "" && r.subtype != "" {
      subtype := r.subtype;
    }
    surv := FillRest(surv0.(qualifiedName := qualifiedName, subtype := subtype), r);
  }

  method FillRest(surv0: Node, r: Record) returns (surv: Node)
    ensures surv == Filled(surv0, r).(qualifiedName := surv0.qualifiedName, subtype := surv0.subtype)
  {
    var signature, language, startLine, endLine := surv0.signature, surv0.language, surv0.startLine, surv0.endLine;
    if signature == "" && r.signature != "" {
      signature := r.signature;
    }
    if language == "" && r.language != "" {
      language := r.language;
    }
    if startLine == 0 && r.startLine != 0 {
      startLine := r.startLine;
    }
    if endLine == 0 && r.endLine != 0 {
      endLine := r.endLine;
    }
    var tags := AddAllTags(surv0.tags, r.tags);
    surv := surv0.(signature := signature, language := language, startLine := startLine, endLine := endLine,
                   tags := tags, props := r.props + surv0.props);
  }

  method AddRecord(site: Site, r: Record, nodes0: seq<Node>, pos0: map<Id, nat>, ghost rs: seq<Record>)
    returns (nodes: seq<Node>, pos: map<Id, nat>)
    requires site.sentinel != "" && nodes0 == Nodes(site, rs) && Placed(site, rs, pos0)
    ensures nodes == Nodes(site, rs + [r]) && Placed(site, rs + [r], pos)
  {
    var id := IdOf(site, r);
    PlacedSnoc(site, rs, r, pos0);
    if id !in pos0 {
      pos := pos0[id := |nodes0|];
      nodes := AddNew(site, r, nodes0, rs);
    } else {
      pos := pos0;
      assert PlacedAt(Order(site, rs), pos, id);
      nodes := AddKnown(site, r, nodes0, pos[id], rs);
    }
  }

  method AddNew(site: Site, r: Record, nodes0: seq<Node>, ghost rs: seq<Record>) returns (nodes: seq<Node>)
    requires site.sentinel != "" && nodes0 == Nodes(site, rs) && IdOf(site, r) !in Order(site, rs)
    ensures nodes == Nodes(site, rs + [r])
  {
    NewId(site, rs, r);
    NodeOne(site, r);
    nodes := nodes0 + [Node(IdOf(site, r), r.name, r.qualifiedName, r.kind, r.subtype, r.file, r.startLine, r.endLine,
                            r.language, r.signature, r.tags, Moduled(site, r))];
  }

  method AddKnown(site: Site, r: Record, nodes0: seq<Node>, p: nat, ghost rs: seq<Record>) returns (nodes: seq<Node>)
    requires site.sentinel != "" && nodes0 == Nodes(site, rs)
    requires p < |Order(site, rs)| && Order(site, rs)[p] == IdOf(site, r)
    ensures nodes == Nodes(site, rs + [r])
  {
    KnownId(site, rs, r, p);
    var surv := GapFill(site, nodes0[p], r);
    nodes := nodes0[p := surv];
  }

  // ---------------------------------------------------------------------------------------------
  // The relationships.

  method AddEdge(e: Edge, rows0: seq<Rel>, seen0: set<Id>, ghost es: seq<Edge>)
    returns (rows: seq<Rel>, seen: set<Id>)
    requires rows0 == Rows(es) && seen0 == RowIds(rows0)
    ensures rows == Rows(es + [e]) && seen == RowIds(rows)
  {
    assert (es + [e])[..|es|] == es;
    rows, seen := rows0, seen0;
    var id := RelationshipID(e.from, e.to, e.kind);
    if id in seen {
      return;
    }
    seen := seen + {id};
    rows := rows + [Rel(id, e.from, e.to, e.kind, e.props, e.confidence)];
  }

  method AddEdges(more: seq<Edge>, rows0: seq<Rel>, seen0: set<Id>, ghost es: seq<Edge>)
    returns (rows: seq<Rel>, seen: set<Id>)
    requires rows0 == Rows(es) && seen0 == RowIds(rows0)
    ensures rows == Rows(es + more) && seen == RowIds(rows)
  {
    rows, seen := rows0, seen0;
    assert es + more[..0] == es;
    for i := 0 to |more|
      invariant rows == Rows(es + more[..i]) && seen == RowIds(rows)
    {
      assert (es + more[..i]) + [more[i]] == es + more[..i + 1];
      rows, seen := AddEdge(more[i], rows, seen, es + more[..i]);
    }
    assert more[..|more|] == more;
  }

  const DRAINED: Record := Record("", "", "", "", "", "", "", "", 0, 0, "", map[], [], [])

  // What the loop has built from the records before.
  ghost predicate Built(site: Site, rs: seq<Record>, nodes: seq<Node>, pos: map<Id, nat>, rows: seq<Rel>,
                        seen: set<Id>)
  {
    && nodes == Nodes(site, rs) && Placed(site, rs, pos)
    && rows == Rows(Embedded(site, rs)) && seen == RowIds(rows)
  }

  method Convert(site: Site, r: Record, nodes0: seq<Node>, pos0: map<Id, nat>, rows0: seq<Rel>, seen0: set<Id>,
                 ghost rs: seq<Record>)
    returns (nodes: seq<Node>, pos: map<Id, nat>, rows: seq<Rel>, seen: set<Id>)
    requires site.sentinel != "" && Built(site, rs, nodes0, pos0, rows0, seen0)
    ensures Built(site, rs + [r], nodes, pos, rows, seen)
  {
    EmbeddedSnoc(site, rs, r);
    nodes, pos := AddRecord(site, r, nodes0, pos0, rs);
    rows, seen := AddEdges(BindAll(r.rels, IdOf(site, r)), rows0, seen0, Embedded(site, rs));
  }

  // After the first k records: they are assembled and drained, the others are as they were.
  ghost predicate Assembling(site: Site, rs: seq<Record>, merged: array<Record>, k: nat, nodes: seq<Node>,
                             pos: map<Id, nat>, rows: seq<Rel>, seen: set<Id>)
    reads merged
  {
    && k <= |rs| == merged.Length && Built(site, rs[..k], nodes, pos, rows, seen)
    && (forall i :: 0 <= i < k ==> merged[i] == DRAINED)
    && (forall i :: k <= i < |rs| ==> merged[i] == rs[i])
  }

  // Assembles one record after another, draining each once it is converted.
  method AddRecords(site: Site, merged: array<Record>) returns (nodes: seq<Node>, rows: seq<Rel>, seen: set<Id>)
    requires site.sentinel != ""
    modifies merged
    ensures nodes == Nodes(site, old(merged[..])) && rows == Rows(Embedded(site, old(merged[..])))
    ensures seen == RowIds(rows)
    ensures forall k :: 0 <= k < merged.Length ==> merged[k] == DRAINED
  {
    nodes, rows, seen := [], [], {};
    var pos: map<Id, nat> := map[];
    ghost var rs := merged[..];
    NothingBuilt(site, rs[..0]);
    for k := 0 to merged.Length
      invariant Assembling(site, rs, merged, k, nodes, pos, rows, seen)
    {
      nodes, pos, rows, seen := ConvertAt(site, merged, k, nodes, pos, rows, seen, rs);
    }
    AllBuilt(site, rs, rs[..|rs|], nodes, pos, rows, seen);
  }

  lemma NothingBuilt(site: Site, rs: seq<Record>)
    requires rs == []
    ensures Built(site, rs, [], map[], [], {})
  {
    assert Order(site, rs) == [];
  }

  lemma AllBuilt(site: Site, rs: seq<Record>, done: seq<Record>, nodes: seq<Node>, pos: map<Id, nat>, rows: seq<Rel>,
                 seen: set<Id>)
    requires done == rs && Built(site, done, nodes, pos, rows, seen)
    ensures nodes == Nodes(site, rs) && rows == Rows(Embedded(site, rs)) && seen == RowIds(rows)
  {
  }

  method ConvertAt(site: Site, merged: array<Record>, k: nat, nodes0: seq<Node>, pos0: map<Id, nat>, rows0: seq<Rel>,
                   seen0: set<Id>, ghost rs: seq<Record>)
    returns (nodes: seq<Node>, pos: map<Id, nat>, rows: seq<Rel>, seen: set<Id>)
    requires k < merged.Length && site.sentinel != "" && Assembling(site, rs, merged, k, nodes0, pos0, rows0, seen0)
    modifies merged
    ensures Assembling(site, rs, merged, k + 1, nodes, pos, rows, seen)
  {
    TakeSnoc(rs, k);
    nodes, pos, rows, seen := Convert(site, merged[k], nodes0, pos0, rows0, seen0, rs[..k]);
    merged[k] := DRAINED;
  }

  lemma EmbeddedSnoc(site: Site, rs: seq<Record>, r: Record)
    ensures Embedded(site, rs + [r]) == Embedded(site, rs) + BindAll(r.rels, IdOf(site, r))
  {
    assert (rs + [r])[..|rs|] == rs;
  }

  method Assemble(site: Site, merged: array<Record>, pass2: seq<Edge>, contains: seq<Edge>, joins: seq<Edge>)
    returns (nodes: seq<Node>, rels: seq<Rel>)
    requires site.sentinel != ""
    modifies merged
    ensures nodes == Nodes(site, old(merged[..]))
    ensures rels == DropHierarchySelfLoops(Rows(AllEdges(site, old(merged[..]), pass2, contains, joins)))
    ensures forall k :: 0 <= k < merged.Length ==> merged[k] == DRAINED
  {
    ghost var es := Embedded(site, merged[..]);
    var rows, seen;
    nodes, rows, seen := AddRecords(site, merged);
    rows, seen := AddEdges(pass2, rows, seen, es);
    rows, seen := AddEdges(Unrated(contains), rows, seen, es + pass2);
    rows, seen := AddEdges(Unrated(joins), rows, seen, es + pass2 + Unrated(contains));
    rels := DropHierarchySelfLoops(rows);
  }
}
