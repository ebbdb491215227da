// Incremental equals full: with extraction modelled per file, merging the re-extraction of the changed
// files into the previous graph gives the graph a full rebuild would give.
module Rebuild {
  import opened Graph
  import opened Merge

  // The content the cross-file pre-pass read of a file, if it read any.
  datatype Pre = NotRead | Read(version: nat)

  // What a graph holds of one file: nothing, or what was extracted from two reads of its content, the
  // pre-pass's and the extraction worker's. A version is one state of the content.
  datatype Piece = Nothing | Built(pre: Pre, work: nat)

  // `extract(f, pre, work)` is the document part of file f. `owner` and `source` say what the identity
  // schemes make recoverable: an entity ID embeds its file, a relationship ID the entity it leaves from.
  // `twice(f)`: the pre-pass reads f as well. `skips(f, v)`: the classifier skips f at version v.
  // `base(f)`: the base name of f without its extension.
  datatype World = World(files: set<string>, extract: (string, Pre, nat) -> Doc, external: Id -> bool,
                         owner: Id -> string, source: Id -> Id, twice: string -> bool, skips: (string, nat) -> bool,
                         base: string -> string)

  ghost predicate WellExtracted(w: World, f: string, d: Doc) {
    && (forall e :: e in d.entities ==> e.file == f && w.owner(e.id) == f && !w.external(e.id))
    && (forall e, e' :: e in d.entities && e' in d.entities && e.id == e'.id ==> e == e')
    && (forall r :: r in d.rels ==>
         r.id != "" && r.from in Ids(d.entities) && w.source(r.id) == r.from && !HierarchySelfLoop(r))
    && (forall r, r' :: r in d.rels && r' in d.rels && r.id == r'.id ==> r == r')
  }

  ghost predicate WellFormed(w: World) {
    && "" !in w.files
    && forall f, pre, work :: f in w.files ==> WellExtracted(w, f, w.extract(f, pre, work))
  }

  type Pieces = map<string, Piece>

  function Part(w: World, f: string, p: Piece): Doc {
    match p
    case Nothing => Doc([], [])
    case Built(pre, work) => w.extract(f, pre, work)
  }

  lemma PartIsWellExtracted(w: World, f: string, p: Piece)
    requires WellFormed(w) && f in w.files
    ensures WellExtracted(w, f, Part(w, f, p))
  {
  }

  ghost predicate HasEntity(w: World, pieces: Pieces, fs: set<string>, e: Entity) {
    exists f :: f in fs && f in pieces && e in Part(w, f, pieces[f]).entities
  }

  ghost predicate HasRel(w: World, pieces: Pieces, fs: set<string>, r: Rel) {
    exists f :: f in fs && f in pieces && r in Part(w, f, pieces[f]).rels
  }

  // `d` is the document built from the given files.
  ghost predicate Assembles(w: World, pieces: Pieces, fs: set<string>, d: Doc) {
    && (forall e :: e in d.entities <==> HasEntity(w, pieces, fs, e))
    && (forall r :: r in d.rels <==> HasRel(w, pieces, fs, r))
  }

  function ExternalEntity(x: Id): Entity {
    Entity(x, "", x)
  }

  // External synthesis: one placeholder for each external endpoint that has no entity yet.
  ghost predicate Synthesized(w: World, d: Doc, out: Doc) {
    && out.rels == d.rels
    && forall e :: e in out.entities <==>
         e in d.entities
         || (e == ExternalEntity(e.id) && w.external(e.id) && e.id in Endpoints(d.rels) && e.id !in Ids(d.entities))
  }

  // `g` is the full graph of `pieces`, except that edges into IDs of `destroyed` may be missing.
  ghost predicate Represents(w: World, pieces: Pieces, destroyed: set<Id>, g: Doc) {
    && (forall e :: e in g.entities && e.file != "" <==> HasEntity(w, pieces, w.files, e))
    && (forall e :: e in g.entities && e.file == "" ==>
         e == ExternalEntity(e.id) && w.external(e.id) && e.id in Endpoints(g.rels))
    && (forall x :: x in Endpoints(g.rels) && w.external(x) ==> ExternalEntity(x) in g.entities)
    && (forall r :: r in g.rels ==> HasRel(w, pieces, w.files, r))
    && (forall r :: HasRel(w, pieces, w.files, r) ==> r in g.rels || r.to in destroyed)
  }

  // IDs of re-extracted files that re-extraction did not bring back.
  function Destroyed(prev: Doc, changed: set<string>, emitted: Doc): set<Id> {
    ChangedIds(prev.entities, changed) - Ids(emitted.entities)
  }

  // The situation of one incremental run: `changed` was re-extracted, the rest is as before.
  ghost predicate Delta(w: World, pieces: Pieces, destroyed: set<Id>, prev: Doc, changed: set<string>,
                        pieces': Pieces, emitted: Doc)
  {
    && WellFormed(w) && pieces.Keys == pieces'.Keys == w.files && changed <= w.files
    && Represents(w, pieces, destroyed, prev)
    && Assembles(w, pieces', changed, emitted)
    && forall f :: f in w.files && f !in changed ==> pieces'[f] == pieces[f]
  }

  lemma EntityHome(w: World, pieces: Pieces, fs: set<string>, e: Entity)
    requires WellFormed(w) && fs <= w.files && HasEntity(w, pieces, fs, e)
    ensures e.file in fs && e.file in pieces && e in Part(w, e.file, pieces[e.file]).entities
    ensures e.file != "" && w.owner(e.id) == e.file && !w.external(e.id)
  {
    var f :| f in fs && f in pieces && e in Part(w, f, pieces[f]).entities;
    PartIsWellExtracted(w, f, pieces[f]);
  }

  lemma RelHome(w: World, pieces: Pieces, fs: set<string>, r: Rel) returns (f: string)
    requires WellFormed(w) && fs <= w.files && HasRel(w, pieces, fs, r)
    ensures f in fs && f in pieces && r in Part(w, f, pieces[f]).rels
    ensures r.id != "" && w.owner(r.from) == f && w.source(r.id) == r.from && !HierarchySelfLoop(r)
  {
    f :| f in fs && f in pieces && r in Part(w, f, pieces[f]).rels;
    PartIsWellExtracted(w, f, pieces[f]);
    var e :| e in Part(w, f, pieces[f]).entities && e.id == r.from;
  }

  // The owner of a changed ID is a changed file.
  lemma ChangedOwner(w: World, pieces: Pieces, destroyed: set<Id>, prev: Doc, changed: set<string>, x: Id)
    requires WellFormed(w) && Represents(w, pieces, destroyed, prev) && x in ChangedIds(prev.entities, changed)
    ensures w.owner(x) in changed
  {
    var e :| e in prev.entities && e.file != "" && e.file in changed && e.id == x;
    EntityHome(w, pieces, w.files, e);
  }

  // Exactly the previous rows of changed files and the rows into destroyed entities leave the stream.
  lemma StreamRows(w: World, pieces: Pieces, destroyed: set<Id>, prev: Doc, changed: set<string>,
                   pieces': Pieces, emitted: Doc, r: Rel)
    requires Delta(w, pieces, destroyed, prev, changed, pieces', emitted)
    ensures r in Stream(emitted, prev, changed) ==>
      r in prev.rels && w.owner(r.from) !in changed && HasRel(w, pieces', w.files, r)
    ensures r in prev.rels && w.owner(r.from) !in changed ==>
      (r in Stream(emitted, prev, changed) <==> r.to !in Destroyed(prev, changed, emitted))
  {
    var changedIds, live := ChangedIds(prev.entities, changed), LiveIds(emitted, prev, changed);
    if r in Stream(emitted, prev, changed) {
      var p :| p in prev.rels && r == Normal(p);
      var f := RelHome(w, pieces, w.files, p);
      assert p == r;
      if f in changed {
        SourceIsAnchored(w, pieces, destroyed, prev, f, r);
        assert false;
      }
      assert pieces'[f] == pieces[f];
    }
    if r in prev.rels && w.owner(r.from) !in changed {
      var f := RelHome(w, pieces, w.files, r);
      if r.from in changedIds {
        ChangedOwner(w, pieces, destroyed, prev, changed, r.from);
        assert false;
      }
      assert Normal(r) == r;
      assert !Stale(r, changedIds, live) ==> r in Stream(emitted, prev, changed);
      if r.to in Destroyed(prev, changed, emitted) {
        DestroyedIsDead(w, pieces, destroyed, prev, changed, emitted, r.to);
      }
    }
  }

  // No carried entity has the ID of a destroyed one.
  lemma DestroyedIsDead(w: World, pieces: Pieces, destroyed: set<Id>, prev: Doc, changed: set<string>, emitted: Doc,
                        x: Id)
    requires WellFormed(w) && Represents(w, pieces, destroyed, prev) && x in Destroyed(prev, changed, emitted)
    ensures x !in LiveIds(emitted, prev, changed)
  {
    ChangedOwner(w, pieces, destroyed, prev, changed, x);
    forall e | e in CarriedEntities(prev.entities, changed, Ids(emitted.entities)) ensures e.id != x {
      EntityHome(w, pieces, w.files, e);
    }
  }

  lemma SourceIsAnchored(w: World, pieces: Pieces, destroyed: set<Id>, prev: Doc, f: string, r: Rel)
    requires WellFormed(w) && Represents(w, pieces, destroyed, prev) && pieces.Keys == w.files
    requires f in w.files && r in Part(w, f, pieces[f]).rels
    ensures exists e :: e in prev.entities && e.file == f && f != "" && e.id == r.from
  {
    PartIsWellExtracted(w, f, pieces[f]);
    var e :| e in Part(w, f, pieces[f]).entities && e.id == r.from;
    assert HasEntity(w, pieces, w.files, e);
  }

  // No fresh row shares an identity with a row of an unchanged file, so the whole stream is carried.
  lemma WholeStreamCarried(w: World, pieces: Pieces, destroyed: set<Id>, prev: Doc, changed: set<string>,
                           pieces': Pieces, emitted: Doc, carried: seq<Rel>, r: Rel)
    requires Delta(w, pieces, destroyed, prev, changed, pieces', emitted)
    requires CarriesExactly(emitted.rels, Stream(emitted, prev, changed), carried)
    requires r in Stream(emitted, prev, changed)
    ensures r in carried
  {
    var stream := Stream(emitted, prev, changed);
    StreamRows(w, pieces, destroyed, prev, changed, pieces', emitted, r);
    var f := RelHome(w, pieces', w.files, r);
    forall q | q in emitted.rels ensures RelID(q) != RelID(r) {
      var g := RelHome(w, pieces', changed, q);
    }
    NoBudget(emitted.rels, RelID(r));
    var contenders := Contenders(stream, Keys(emitted.rels), RelID(r));
    assert r in contenders && contenders[0..] == contenders;
    assert KeyOf(r) in Keys(Settled(emitted.rels, stream, KeyOf(r).id));
    var q :| q in carried && KeyOf(q) == KeyOf(r);
    StreamRows(w, pieces, destroyed, prev, changed, pieces', emitted, q);
    var g := RelHome(w, pieces', w.files, q);
    assert q.id == r.id;
    PartIsWellExtracted(w, f, pieces'[f]);
  }

  lemma {:induction false} NoBudget(emitted: seq<Rel>, id: Id)
    requires forall q :: q in emitted ==> RelID(q) != id
    ensures Budget(emitted, id) == 0
  {
    if emitted != [] {
      assert emitted == emitted[..|emitted| - 1] + [emitted[|emitted| - 1]];
      NoBudget(emitted[..|emitted| - 1], id);
    }
  }

  lemma MergedRows(w: World, pieces: Pieces, destroyed: set<Id>, prev: Doc, changed: set<string>,
                   pieces': Pieces, emitted: Doc, carried: seq<Rel>, merged: Doc)
    requires Delta(w, pieces, destroyed, prev, changed, pieces', emitted)
    requires Merged(emitted, prev, changed, carried, merged)
    ensures forall r :: r in merged.rels ==> HasRel(w, pieces', w.files, r)
    ensures forall r :: HasRel(w, pieces', w.files, r) ==>
      r in merged.rels || r.to in destroyed + Destroyed(prev, changed, emitted)
    ensures Endpoints(Stream(emitted, prev, changed)) <= Endpoints(merged.rels)
  {
    forall r | r in merged.rels ensures HasRel(w, pieces', w.files, r) {
      if r in emitted.rels {
        var f := RelHome(w, pieces', changed, r);
      } else {
        StreamRows(w, pieces, destroyed, prev, changed, pieces', emitted, r);
      }
    }
    forall r | HasRel(w, pieces', w.files, r)
      ensures r in merged.rels || r.to in destroyed + Destroyed(prev, changed, emitted)
    {
      var f := RelHome(w, pieces', w.files, r);
      if f in changed {
        assert HasRel(w, pieces', changed, r);
      } else {
        assert HasRel(w, pieces, w.files, r);
        StreamRows(w, pieces, destroyed, prev, changed, pieces', emitted, r);
        if r in Stream(emitted, prev, changed) {
          WholeStreamCarried(w, pieces, destroyed, prev, changed, pieces', emitted, carried, r);
        }
      }
    }
    forall r | r in Stream(emitted, prev, changed) ensures r in merged.rels {
      WholeStreamCarried(w, pieces, destroyed, prev, changed, pieces', emitted, carried, r);
      StreamRows(w, pieces, destroyed, prev, changed, pieces', emitted, r);
      var f := RelHome(w, pieces', w.files, r);
    }
  }

  lemma MergedSourceEntities(w: World, pieces: Pieces, destroyed: set<Id>, prev: Doc, changed: set<string>,
                             pieces': Pieces, emitted: Doc)
    requires Delta(w, pieces, destroyed, prev, changed, pieces', emitted)
    ensures forall e :: e in MergedEntities(emitted, prev, changed) && e.file != "" <==>
      HasEntity(w, pieces', w.files, e)
  {
    var c := CarriedEntities(prev.entities, changed, Ids(emitted.entities));
    forall e | e in MergedEntities(emitted, prev, changed) && e.file != ""
      ensures HasEntity(w, pieces', w.files, e)
    {
      if e in emitted.entities {
        EntityHome(w, pieces', changed, e);
      } else {
        assert e in c;
        EntityHome(w, pieces, w.files, e);
        assert pieces'[e.file] == pieces[e.file];
      }
    }
    forall e | HasEntity(w, pieces', w.files, e)
      ensures e in MergedEntities(emitted, prev, changed) && e.file != ""
    {
      EntityHome(w, pieces', w.files, e);
      if e.file in changed {
        assert HasEntity(w, pieces', changed, e);
      } else {
        CarriedIfUnchanged(w, pieces, destroyed, prev, changed, pieces', emitted, e);
      }
    }
  }

  lemma CarriedIfUnchanged(w: World, pieces: Pieces, destroyed: set<Id>, prev: Doc, changed: set<string>,
                           pieces': Pieces, emitted: Doc, e: Entity)
    requires Delta(w, pieces, destroyed, prev, changed, pieces', emitted)
    requires HasEntity(w, pieces', w.files, e) && e.file !in changed
    ensures e in CarriedEntities(prev.entities, changed, Ids(emitted.entities))
  {
    var c := CarriedEntities(prev.entities, changed, Ids(emitted.entities));
    EntityHome(w, pieces', w.files, e);
    assert HasEntity(w, pieces, w.files, e);
    forall q | q in emitted.entities ensures q.id != e.id {
      EntityHome(w, pieces', changed, q);
    }
    var q :| q in c && q.id == e.id;
    EntityHome(w, pieces, w.files, q);
    PartIsWellExtracted(w, e.file, pieces[e.file]);
  }

  // Incremental equals full: re-extracting `changed` and merging turns the graph of the old pieces into the
  // graph of the new ones. All it can miss are edges into entities this run, or an earlier one, destroyed.
  lemma IncrementalIsRebuild(w: World, pieces: Pieces, destroyed: set<Id>, prev: Doc, changed: set<string>,
                             pieces': Pieces, emitted: Doc, carried: seq<Rel>, merged: Doc, out: Doc)
    requires Delta(w, pieces, destroyed, prev, changed, pieces', emitted)
    requires Merged(emitted, prev, changed, carried, merged) && Synthesized(w, merged, out)
    ensures Represents(w, pieces', destroyed + Destroyed(prev, changed, emitted), out)
  {
    MergedRows(w, pieces, destroyed, prev, changed, pieces', emitted, carried, merged);
    MergedSourceEntities(w, pieces, destroyed, prev, changed, pieces', emitted);
    forall e | e in merged.entities && e.file == ""
      ensures e == ExternalEntity(e.id) && w.external(e.id) && e.id in Endpoints(merged.rels)
    {
      if e in emitted.entities {
        EntityHome(w, pieces', changed, e);
      }
    }
    forall x | x in Endpoints(out.rels) && w.external(x) ensures ExternalEntity(x) in out.entities {
      if x in Ids(merged.entities) {
        var e :| e in merged.entities && e.id == x;
        if e.file != "" {
          EntityHome(w, pieces', w.files, e);
        }
      } else {
        assert ExternalEntity(x).id == x;
      }
    }
  }

  // A full rebuild of all files represents them without exception.
  lemma FullRebuild(w: World, pieces: Pieces, d: Doc, out: Doc)
    requires WellFormed(w) && pieces.Keys == w.files
    requires Assembles(w, pieces, w.files, d) && Synthesized(w, d, out)
    ensures Represents(w, pieces, {}, out)
  {
    forall e | e in d.entities ensures e.file != "" && !w.external(e.id) {
      EntityHome(w, pieces, w.files, e);
    }
    forall x | x in Endpoints(out.rels) && w.external(x) ensures ExternalEntity(x) in out.entities {
      assert ExternalEntity(x).id == x;
    }
  }

  // Two graphs of the same pieces have the same source entities, and the same rows up to destroyed targets.
  lemma RepresentsIsUnique(w: World, pieces: Pieces, destroyed: set<Id>, g: Doc, full: Doc)
    requires Represents(w, pieces, destroyed, g) && Represents(w, pieces, {}, full)
    ensures forall r :: r in g.rels ==> r in full.rels
    ensures forall r :: r in full.rels && r !in g.rels ==> r.to in destroyed
    ensures forall e :: e in g.entities ==> e in full.entities
    ensures forall e :: e in full.entities && e !in g.entities ==>
      e.file == "" && exists r :: r in full.rels && e.id in {r.from, r.to} && r.to in destroyed
  {
    forall e | e in g.entities ensures e in full.entities {
      if e.file == "" {
        assert e.id in Endpoints(full.rels);
      }
    }
    forall e | e in full.entities && e !in g.entities
      ensures e.file == "" && exists r :: r in full.rels && e.id in {r.from, r.to} && r.to in destroyed
    {
      if e.file == "" {
        var r :| r in full.rels && e.id in {r.from, r.to};
        assert e.id !in Endpoints(g.rels);
      }
    }
  }
}
