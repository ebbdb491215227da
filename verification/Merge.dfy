// mergeIncrementalPrevSource: splices the unchanged-file part of the previous graph into a
// freshly extracted partial graph.
module Merge {
  import opened Graph

  // ---------------------------------------------------------------------------------------------
  // What each pass is supposed to produce.

  // IDs the previous graph anchored in a file this run re-extracted.
  function ChangedIds(prev: seq<Entity>, changed: set<string>): set<Id> {
    set e | e in prev && e.file != "" && e.file in changed :: e.id
  }

  // Entities of unchanged files, the first of each ID, unless the emitted graph has the ID.
  function CarriedEntities(prev: seq<Entity>, changed: set<string>, emitted: set<Id>): (c: seq<Entity>)
    ensures forall e :: e in c ==> e in prev && e.file != "" && e.file !in changed && e.id !in emitted
    ensures forall e :: e in prev && e.file != "" && e.file !in changed ==> e.id in emitted + Ids(c)
    ensures forall i, j :: 0 <= i < j < |c| ==> c[i].id != c[j].id
  {
    if prev == [] then []
    else
      var init := CarriedEntities(prev[..|prev| - 1], changed, emitted);
      var e := prev[|prev| - 1];
      assert prev == prev[..|prev| - 1] + [e];
      if e.file == "" || e.file in changed || e.id in emitted + Ids(init) then init else init + [e]
  }

  // Source-less entities still referenced, the first of each ID, unless the ID is already live.
  function AttachedSynthetics(prev: seq<Entity>, live: set<Id>, referenced: set<Id>): (c: seq<Entity>)
    ensures forall e :: e in c ==> e in prev && e.file == "" && e.id in referenced && e.id !in live
    ensures forall e :: e in prev && e.file == "" && e.id in referenced ==> e.id in live + Ids(c)
    ensures forall i, j :: 0 <= i < j < |c| ==> c[i].id != c[j].id
  {
    if prev == [] then []
    else
      var init := AttachedSynthetics(prev[..|prev| - 1], live, referenced);
      var e := prev[|prev| - 1];
      assert prev == prev[..|prev| - 1] + [e];
      if e.file != "" || e.id !in referenced || e.id in live + Ids(init) then init else init + [e]
  }

  // Dropped on sight: the owner was re-extracted, or the target was destroyed by re-extraction.
  predicate Stale(r: Rel, changedIds: set<Id>, live: set<Id>) {
    r.from in changedIds || (r.to in changedIds && r.to !in live)
  }

  // The previous rows that are not stale, in stream order and with normalised identity.
  function Survivors(prev: seq<Rel>, changedIds: set<Id>, live: set<Id>): (s: seq<Rel>)
    ensures forall r :: r in s ==> r.id != "" || RelID(r) == ""
    ensures forall r :: r in prev && !Stale(r, changedIds, live) ==> Normal(r) in s
    ensures forall r :: r in s ==> !Stale(r, changedIds, live) && exists p :: p in prev && r == Normal(p)
  {
    if prev == [] then []
    else
      var init := Survivors(prev[..|prev| - 1], changedIds, live);
      var r := prev[|prev| - 1];
      assert prev == prev[..|prev| - 1] + [r];
      if Stale(r, changedIds, live) then init else init + [Normal(r)]
  }

  function Endpoints(rs: seq<Rel>): set<Id> {
    (set r | r in rs :: r.from) + (set r | r in rs :: r.to)
  }

  // Rows emitted under `id`.
  function Budget(emitted: seq<Rel>, id: Id): nat {
    if emitted == [] then 0
    else Budget(emitted[..|emitted| - 1], id) + (if RelID(emitted[|emitted| - 1]) == id then 1 else 0)
  }

  // Rows of identity `id` in the stream that duplicate an emitted row exactly.
  function Hits(stream: seq<Rel>, emittedKeys: set<RelKey>, id: Id): nat {
    if stream == [] then 0
    else
      var r := stream[|stream| - 1];
      Hits(stream[..|stream| - 1], emittedKeys, id) + (if RelID(r) == id && KeyOf(r) in emittedKeys then 1 else 0)
  }

  // Rows of identity `id` in the stream that no emitted row duplicates: the ones supersession may claim.
  function Contenders(stream: seq<Rel>, emittedKeys: set<RelKey>, id: Id): (c: seq<Rel>)
    ensures forall r :: r in c <==> r in stream && RelID(r) == id && KeyOf(r) !in emittedKeys
  {
    if stream == [] then []
    else
      var init := Contenders(stream[..|stream| - 1], emittedKeys, id);
      var r := stream[|stream| - 1];
      assert stream == stream[..|stream| - 1] + [r];
      if RelID(r) == id && KeyOf(r) !in emittedKeys then init + [r] else init
  }

  function Less(a: nat, b: nat): nat {
    if a > b then a - b else 0
  }

  // How many contenders supersession claims: emitted rows of the identity not paired with an exact duplicate.
  function Superseded(emitted: seq<Rel>, stream: seq<Rel>, id: Id): (n: nat)
    ensures n <= |Contenders(stream, Keys(emitted), id)|
  {
    var open := Less(Budget(emitted, id), Hits(stream, Keys(emitted), id));
    var rows := |Contenders(stream, Keys(emitted), id)|;
    if open > rows then rows else open
  }

  // The contenders that must be carried.
  function Settled(emitted: seq<Rel>, stream: seq<Rel>, id: Id): seq<Rel> {
    Contenders(stream, Keys(emitted), id)[Superseded(emitted, stream, id)..]
  }

  // `carried` is a correct outcome of the relationship pass over `stream`.
  ghost predicate CarriesExactly(emitted: seq<Rel>, stream: seq<Rel>, carried: seq<Rel>) {
    && DistinctKeys(carried)
    && (forall r :: r in carried ==> r in stream && KeyOf(r) !in Keys(emitted))
    && (forall k: RelKey :: k in Keys(carried) <==> k in Keys(Settled(emitted, stream, k.id)))
  }

  function LiveIds(emitted: Doc, prev: Doc, changed: set<string>): set<Id> {
    Ids(emitted.entities) + Ids(CarriedEntities(prev.entities, changed, Ids(emitted.entities)))
  }

  function Stream(emitted: Doc, prev: Doc, changed: set<string>): seq<Rel> {
    Survivors(prev.rels, ChangedIds(prev.entities, changed), LiveIds(emitted, prev, changed))
  }

  function MergedEntities(emitted: Doc, prev: Doc, changed: set<string>): seq<Entity> {
    var stream := Stream(emitted, prev, changed);
    emitted.entities
    + CarriedEntities(prev.entities, changed, Ids(emitted.entities))
    + AttachedSynthetics(prev.entities, LiveIds(emitted, prev, changed), Endpoints(stream))
  }

  // `out` is `emitted` merged with `prev`, the rows `carried` being the ones spliced in.
  ghost predicate Merged(emitted: Doc, prev: Doc, changed: set<string>, carried: seq<Rel>, out: Doc) {
    && CarriesExactly(emitted.rels, Stream(emitted, prev, changed), carried)
    && out.entities == MergedEntities(emitted, prev, changed)
    && out.rels == DropHierarchySelfLoops(emitted.rels + carried)
  }

  // ---------------------------------------------------------------------------------------------
  // The merge, pass by pass, over a document updated in place.

  datatype Stats = Stats(entitiesAdded: nat, relsAdded: nat, relsDropped: nat)

  function Get(m: map<Id, nat>, id: Id): nat {
    if id in m then m[id] else 0
  }

  function Rows(m: map<Id, seq<Rel>>, id: Id): seq<Rel> {
    if id in m then m[id] else []
  }

  // The loop state after `stream`, for one identity. The open budget is what the exact duplicates met so
  // far leave of it; while it is open, every contender is deferred and none is carried.
  ghost predicate IdState(emitted: seq<Rel>, stream: seq<Rel>, open: nat, rows: seq<Rel>, carried: seq<Rel>, id: Id) {
    var contenders := Contenders(stream, Keys(emitted), id);
    && open == Less(Budget(emitted, id), Hits(stream, Keys(emitted), id))
    && (open > 0 ==> rows == contenders && forall r :: r in carried ==> RelID(r) != id)
    && (forall r :: r in rows ==> r in contenders)
    && (forall r :: r in contenders ==> KeyOf(r) in Keys(carried) || r in rows)
  }

  ghost predicate CarriedState(emitted: seq<Rel>, stream: seq<Rel>, keys: set<RelKey>, carried: seq<Rel>) {
    && keys == Keys(emitted) + Keys(carried)
    && DistinctKeys(carried)
    && forall r :: r in carried ==> r in stream && KeyOf(r) !in Keys(emitted)
  }

  ghost predicate OrderState(deferred: map<Id, seq<Rel>>, order: seq<Id>) {
    && (forall id :: id in order <==> id in deferred)
    && (forall i, j :: 0 <= i < j < |order| ==> order[i] != order[j])
  }

  ghost predicate Streamed(emitted: seq<Rel>, stream: seq<Rel>, keys: set<RelKey>, budget: map<Id, nat>,
                           deferred: map<Id, seq<Rel>>, order: seq<Id>, carried: seq<Rel>)
  {
    && CarriedState(emitted, stream, keys, carried)
    && OrderState(deferred, order)
    && forall id :: InState(emitted, stream, budget, deferred, carried, id)
  }

  ghost predicate InState(emitted: seq<Rel>, stream: seq<Rel>, budget: map<Id, nat>, deferred: map<Id, seq<Rel>>,
                          carried: seq<Rel>, id: Id)
  {
    IdState(emitted, stream, Get(budget, id), Rows(deferred, id), carried, id)
  }

  // How one more stream row moves the counters of an identity.
  lemma StreamSnoc(stream: seq<Rel>, r: Rel, emittedKeys: set<RelKey>, id: Id)
    ensures var hit := RelID(r) == id && KeyOf(r) in emittedKeys;
      Hits(stream + [r], emittedKeys, id) == Hits(stream, emittedKeys, id) + (if hit then 1 else 0)
    ensures var contends := RelID(r) == id && KeyOf(r) !in emittedKeys;
      Contenders(stream + [r], emittedKeys, id) == Contenders(stream, emittedKeys, id) + (if contends then [r] else [])
  {
    assert (stream + [r])[..|stream|] == stream;
  }

  // One more stream row, an exact duplicate of a row already in the graph.
  lemma DuplicateStep(emitted: seq<Rel>, stream: seq<Rel>, r: Rel, keys: set<RelKey>, open: nat,
                      rows: seq<Rel>, carried: seq<Rel>, id: Id)
    requires CarriedState(emitted, stream, keys, carried) && IdState(emitted, stream, open, rows, carried, id)
    requires KeyOf(r) in keys
    ensures IdState(emitted, stream + [r], if id == RelID(r) && open > 0 then open - 1 else open, rows, carried, id)
  {
    StreamSnoc(stream, r, Keys(emitted), id);
  }

  // One more stream row whose identity still has open budget.
  lemma DeferStep(emitted: seq<Rel>, stream: seq<Rel>, r: Rel, keys: set<RelKey>, open: nat,
                  rows: seq<Rel>, carried: seq<Rel>, id: Id)
    requires CarriedState(emitted, stream, keys, carried) && IdState(emitted, stream, open, rows, carried, id)
    requires KeyOf(r) !in keys
    ensures IdState(emitted, stream + [r], open, if id == RelID(r) then rows + [r] else rows, carried, id)
  {
    StreamSnoc(stream, r, Keys(emitted), id);
  }

  // One more stream row that collides with nothing: it is carried at once.
  lemma CarryStep(emitted: seq<Rel>, stream: seq<Rel>, r: Rel, keys: set<RelKey>, open: nat,
                  rows: seq<Rel>, carried: seq<Rel>, id: Id)
    requires CarriedState(emitted, stream, keys, carried) && IdState(emitted, stream, open, rows, carried, id)
    requires KeyOf(r) !in keys && (id == RelID(r) ==> open == 0)
    ensures IdState(emitted, stream + [r], open, rows, carried + [r], id)
  {
    StreamSnoc(stream, r, Keys(emitted), id);
    assert Keys(carried + [r]) == Keys(carried) + {KeyOf(r)};
  }

  lemma Duplicated(emitted: seq<Rel>, stream: seq<Rel>, r: Rel, keys: set<RelKey>, budget: map<Id, nat>,
                   deferred: map<Id, seq<Rel>>, order: seq<Id>, carried: seq<Rel>)
    requires Streamed(emitted, stream, keys, budget, deferred, order, carried)
    requires KeyOf(r) in keys
    ensures Streamed(emitted, stream + [r], keys, Spend(budget, RelID(r)), deferred, order, carried)
  {
    var budget' := Spend(budget, RelID(r));
    forall id ensures InState(emitted, stream + [r], budget', deferred, carried, id) {
      assert InState(emitted, stream, budget, deferred, carried, id);
      DuplicateStep(emitted, stream, r, keys, Get(budget, id), Rows(deferred, id), carried, id);
    }
  }

  lemma Deferred(emitted: seq<Rel>, stream: seq<Rel>, r: Rel, keys: set<RelKey>, budget: map<Id, nat>,
                 deferred: map<Id, seq<Rel>>, order: seq<Id>, carried: seq<Rel>)
    requires Streamed(emitted, stream, keys, budget, deferred, order, carried)
    requires KeyOf(r) !in keys
    ensures Streamed(emitted, stream + [r], keys, budget, Defer(deferred, r),
                     Enqueue(order, deferred, RelID(r)), carried)
  {
    var deferred' := Defer(deferred, r);
    forall id ensures InState(emitted, stream + [r], budget, deferred', carried, id) {
      assert InState(emitted, stream, budget, deferred, carried, id);
      DeferStep(emitted, stream, r, keys, Get(budget, id), Rows(deferred, id), carried, id);
    }
  }

  lemma Carried(emitted: seq<Rel>, stream: seq<Rel>, r: Rel, keys: set<RelKey>, budget: map<Id, nat>,
                deferred: map<Id, seq<Rel>>, order: seq<Id>, carried: seq<Rel>)
    requires Streamed(emitted, stream, keys, budget, deferred, order, carried)
    requires KeyOf(r) !in keys && Get(budget, RelID(r)) == 0
    ensures Streamed(emitted, stream + [r], keys + {KeyOf(r)}, budget, deferred, order, carried + [r])
  {
    forall id ensures InState(emitted, stream + [r], budget, deferred, carried + [r], id) {
      assert InState(emitted, stream, budget, deferred, carried, id);
      CarryStep(emitted, stream, r, keys, Get(budget, id), Rows(deferred, id), carried, id);
    }
    assert Keys(carried + [r]) == Keys(carried) + {KeyOf(r)};
  }

  // The identity's carried keys are the ones the settlement owes it.
  ghost predicate IdSettled(emitted: seq<Rel>, stream: seq<Rel>, carried: seq<Rel>, id: Id) {
    forall k: RelKey :: k.id == id ==> (k in Keys(carried) <==> k in Keys(Settled(emitted, stream, id)))
  }

  // The settlement of one identity: skip the first `open` deferred rows, carry the others.
  lemma SettleId(emitted: seq<Rel>, stream: seq<Rel>, keys: set<RelKey>, open: nat, rows: seq<Rel>,
                 before: seq<Rel>, carried: seq<Rel>, id: Id)
    requires CarriedState(emitted, stream, keys, before) && IdState(emitted, stream, open, rows, before, id)
    requires var tail := rows[if open > |rows| then |rows| else open..];
      forall k: RelKey :: k.id == id ==> (k in Keys(carried) <==> k in Keys(before) || k in Keys(tail))
    ensures IdSettled(emitted, stream, carried, id)
  {
    var contenders := Contenders(stream, Keys(emitted), id);
    if open == 0 {
      assert Settled(emitted, stream, id) == contenders;
      assert rows[0..] == rows;
      forall k: RelKey | k.id == id
        ensures k in Keys(contenders) <==> k in Keys(before) || k in Keys(rows)
      {
        if k in Keys(before) {
          var r :| r in before && KeyOf(r) == k;
          assert r in contenders;
        }
      }
    }
  }

  // Carrying a deferred row disturbs no other identity.
  lemma AppendElsewhere(emitted: seq<Rel>, stream: seq<Rel>, open: nat, rows: seq<Rel>, carried: seq<Rel>,
                        r: Rel, id: Id)
    requires RelID(r) != id
    ensures IdState(emitted, stream, open, rows, carried, id) ==>
      IdState(emitted, stream, open, rows, carried + [r], id)
    ensures IdSettled(emitted, stream, carried, id) ==> IdSettled(emitted, stream, carried + [r], id)
  {
    assert Keys(carried + [r]) == Keys(carried) + {KeyOf(r)};
  }

  lemma AppendRow(emitted: seq<Rel>, stream: seq<Rel>, keys: set<RelKey>, carried: seq<Rel>, r: Rel)
    requires CarriedState(emitted, stream, keys, carried) && r in stream && KeyOf(r) !in keys
    ensures CarriedState(emitted, stream, keys + {KeyOf(r)}, carried + [r])
    ensures Keys(carried + [r]) == Keys(carried) + {KeyOf(r)}
  {
  }

  // One identity while the settlement is under way: settled, being settled, or as the stream left it.
  ghost predicate Phase(emitted: seq<Rel>, stream: seq<Rel>, budget: map<Id, nat>, deferred: map<Id, seq<Rel>>,
                        carried: seq<Rel>, done: set<Id>, busy: set<Id>, id: Id)
  {
    if id in done then IdSettled(emitted, stream, carried, id)
    else id in busy || InState(emitted, stream, budget, deferred, carried, id)
  }

  ghost predicate Settling(emitted: seq<Rel>, stream: seq<Rel>, budget: map<Id, nat>, deferred: map<Id, seq<Rel>>,
                           carried: seq<Rel>, done: set<Id>, busy: set<Id>)
  {
    forall id :: Phase(emitted, stream, budget, deferred, carried, done, busy, id)
  }

  lemma SettlingAppend(emitted: seq<Rel>, stream: seq<Rel>, budget: map<Id, nat>, deferred: map<Id, seq<Rel>>,
                       carried: seq<Rel>, done: set<Id>, r: Rel)
    requires RelID(r) !in done && Settling(emitted, stream, budget, deferred, carried, done, {RelID(r)})
    ensures Settling(emitted, stream, budget, deferred, carried + [r], done, {RelID(r)})
  {
    forall id ensures Phase(emitted, stream, budget, deferred, carried + [r], done, {RelID(r)}, id) {
      assert Phase(emitted, stream, budget, deferred, carried, done, {RelID(r)}, id);
      if id != RelID(r) {
        AppendElsewhere(emitted, stream, Get(budget, id), Rows(deferred, id), carried, r, id);
      }
    }
  }

  lemma SettlingStart(emitted: seq<Rel>, stream: seq<Rel>, keys: set<RelKey>, budget: map<Id, nat>,
                      deferred: map<Id, seq<Rel>>, order: seq<Id>, carried: seq<Rel>)
    requires Streamed(emitted, stream, keys, budget, deferred, order, carried)
    ensures Settling(emitted, stream, budget, deferred, carried, {}, {})
  {
    forall id ensures Phase(emitted, stream, budget, deferred, carried, {}, {}, id) {
      assert InState(emitted, stream, budget, deferred, carried, id);
    }
  }

  lemma SettlingPick(emitted: seq<Rel>, stream: seq<Rel>, budget: map<Id, nat>, deferred: map<Id, seq<Rel>>,
                     carried: seq<Rel>, done: set<Id>, id: Id)
    requires Settling(emitted, stream, budget, deferred, carried, done, {}) && id !in done
    ensures Settling(emitted, stream, budget, deferred, carried, done, {id})
    ensures InState(emitted, stream, budget, deferred, carried, id)
  {
    forall i ensures Phase(emitted, stream, budget, deferred, carried, done, {id}, i) {
      assert Phase(emitted, stream, budget, deferred, carried, done, {}, i);
    }
    assert Phase(emitted, stream, budget, deferred, carried, done, {}, id);
  }

  lemma SettlingDone(emitted: seq<Rel>, stream: seq<Rel>, budget: map<Id, nat>, deferred: map<Id, seq<Rel>>,
                     carried: seq<Rel>, done: set<Id>, id: Id)
    requires Settling(emitted, stream, budget, deferred, carried, done, {id})
    requires IdSettled(emitted, stream, carried, id)
    ensures Settling(emitted, stream, budget, deferred, carried, done + {id}, {})
  {
    forall i ensures Phase(emitted, stream, budget, deferred, carried, done + {id}, {}, i) {
      assert Phase(emitted, stream, budget, deferred, carried, done, {id}, i);
    }
  }

  // When every deferred family is settled, the carried rows are the ones owed.
  lemma SettlingEnd(emitted: seq<Rel>, stream: seq<Rel>, keys: set<RelKey>, budget: map<Id, nat>,
                    deferred: map<Id, seq<Rel>>, carried: seq<Rel>, done: set<Id>)
    requires CarriedState(emitted, stream, keys, carried)
    requires Settling(emitted, stream, budget, deferred, carried, done, {})
    requires forall id :: id in deferred ==> id in done
    ensures CarriesExactly(emitted, stream, carried)
  {
    forall k: RelKey ensures k in Keys(carried) <==> k in Keys(Settled(emitted, stream, k.id)) {
      assert Phase(emitted, stream, budget, deferred, carried, done, {}, k.id);
      if k.id !in done {
        SettleId(emitted, stream, keys, Get(budget, k.id), [], carried, carried, k.id);
      }
      assert IdSettled(emitted, stream, carried, k.id);
    }
  }

  method IndexEmitted(emitted: seq<Rel>) returns (keys: set<RelKey>, budget: map<Id, nat>)
    ensures keys == Keys(emitted)
    ensures forall id :: Get(budget, id) == Budget(emitted, id)
  {
    keys, budget := {}, map[];
    for n := 0 to |emitted|
      invariant keys == Keys(emitted[..n])
      invariant forall id :: Get(budget, id) == Budget(emitted[..n], id)
    {
      var r := emitted[n];
      assert emitted[..n + 1][..n] == emitted[..n] && emitted[..n + 1] == emitted[..n] + [r];
      keys := keys + {KeyOf(r)};
      budget := budget[RelID(r) := Get(budget, RelID(r)) + 1];
    }
    assert emitted[..|emitted|] == emitted;
  }

  function Spend(budget: map<Id, nat>, id: Id): map<Id, nat> {
    if Get(budget, id) > 0 then budget[id := budget[id] - 1] else budget
  }

  function Defer(deferred: map<Id, seq<Rel>>, r: Rel): map<Id, seq<Rel>> {
    deferred[RelID(r) := Rows(deferred, RelID(r)) + [r]]
  }

  function Enqueue(order: seq<Id>, deferred: map<Id, seq<Rel>>, id: Id): seq<Id> {
    if id in deferred then order else order + [id]
  }

  // The third pass after `prev`.
  ghost predicate ThirdPass(prev: seq<Entity>, live0: set<Id>, referenced: set<Id>, attached: seq<Entity>,
                            live: set<Id>)
  {
    attached == AttachedSynthetics(prev, live0, referenced) && live == live0 + Ids(attached)
  }

  lemma ThirdPassSnoc(prev: seq<Entity>, live0: set<Id>, referenced: set<Id>, attached: seq<Entity>, live: set<Id>,
                      e: Entity)
    requires ThirdPass(prev, live0, referenced, attached, live) && e.file == ""
    ensures if e.id !in referenced || e.id in live then ThirdPass(prev + [e], live0, referenced, attached, live)
            else ThirdPass(prev + [e], live0, referenced, attached + [e], live + {e.id})
  {
    AttachedSnoc(prev, e, live0, referenced);
  }

  lemma SurvivorsSnoc(prev: seq<Rel>, r: Rel, changedIds: set<Id>, live: set<Id>)
    ensures Survivors(prev + [r], changedIds, live) ==
      Survivors(prev, changedIds, live) + if Stale(r, changedIds, live) then [] else [Normal(r)]
  {
    assert (prev + [r])[..|prev|] == prev;
  }

  lemma SurvivorsTake(prev: seq<Rel>, n: nat, changedIds: set<Id>, live: set<Id>)
    requires n < |prev|
    ensures Survivors(prev[..n + 1], changedIds, live) ==
      Survivors(prev[..n], changedIds, live) + if Stale(prev[n], changedIds, live) then [] else [Normal(prev[n])]
  {
    assert prev[..n + 1] == prev[..n] + [prev[n]];
    SurvivorsSnoc(prev[..n], prev[n], changedIds, live);
  }

  lemma KeysTake(rows: seq<Rel>, a: nat, n: nat)
    requires a <= n < |rows|
    ensures Keys(rows[a..n + 1]) == Keys(rows[a..n]) + {KeyOf(rows[n])} && rows[n] in rows
  {
    assert rows[a..n + 1] == rows[a..n] + [rows[n]];
  }

  ghost predicate AllIn(rows: seq<Rel>, all: seq<Rel>) {
    forall i :: 0 <= i < |rows| ==> rows[i] in all
  }

  // Key k is carried if and only if it was before, or one of the rows from a up to n has it.
  ghost predicate HasUpTo(carried: seq<Rel>, before: set<RelKey>, rows: seq<Rel>, a: nat, n: nat, k: RelKey)
    requires a <= n <= |rows|
  {
    k in Keys(carried) <==> k in before || k in Keys(rows[a..n])
  }

  lemma KeysToEnd(rows: seq<Rel>, a: nat)
    requires a <= |rows|
    ensures Keys(rows[a..|rows|]) == Keys(rows[a..])
  {
    assert rows[a..|rows|] == rows[a..];
  }

  // `held` stands for all of `prev` in the third pass, once at least the IDs in `live` are live.
  ghost predicate HoldsBack(prev: seq<Entity>, held: seq<Entity>, live: set<Id>) {
    && (forall e :: e in held ==> e.file == "")
    && (forall seen, referenced :: live <= seen ==>
         AttachedSynthetics(held, seen, referenced) == AttachedSynthetics(prev, seen, referenced))
  }

  lemma CarriedSnoc(prev: seq<Entity>, e: Entity, changed: set<string>, emitted: set<Id>)
    ensures var init := CarriedEntities(prev, changed, emitted);
      CarriedEntities(prev + [e], changed, emitted) ==
        if e.file == "" || e.file in changed || e.id in emitted + Ids(init) then init else init + [e]
  {
    assert (prev + [e])[..|prev|] == prev;
  }

  lemma AttachedSnoc(prev: seq<Entity>, e: Entity, live: set<Id>, referenced: set<Id>)
    ensures var init := AttachedSynthetics(prev, live, referenced);
      AttachedSynthetics(prev + [e], live, referenced) ==
        if e.file != "" || e.id !in referenced || e.id in live + Ids(init) then init else init + [e]
    ensures var init := AttachedSynthetics(prev, live, referenced);
      live + Ids(init + [e]) == live + Ids(init) + {e.id}
  {
    assert (prev + [e])[..|prev|] == prev;
  }

  // An entity that is not held back changes nothing for the third pass, even if it becomes live.
  lemma HoldsBackSkip(prev: seq<Entity>, held: seq<Entity>, live: set<Id>, e: Entity, live': set<Id>)
    requires HoldsBack(prev, held, live) && live <= live' && (e.file != "" || e.id in live)
    ensures HoldsBack(prev + [e], held, live')
  {
    forall seen, referenced | live' <= seen
      ensures AttachedSynthetics(held, seen, referenced) == AttachedSynthetics(prev + [e], seen, referenced)
    {
      AttachedSnoc(prev, e, seen, referenced);
    }
  }

  lemma HoldsBackMore(prev: seq<Entity>, held: seq<Entity>, live: set<Id>, e: Entity)
    requires HoldsBack(prev, held, live) && e.file == ""
    ensures HoldsBack(prev + [e], held + [e], live)
  {
    forall seen, referenced | live <= seen
      ensures AttachedSynthetics(held + [e], seen, referenced) == AttachedSynthetics(prev + [e], seen, referenced)
    {
      AttachedSnoc(prev, e, seen, referenced);
      AttachedSnoc(held, e, seen, referenced);
    }
  }

  lemma ChangedSnoc(prev: seq<Entity>, e: Entity, changed: set<string>)
    ensures ChangedIds(prev + [e], changed) ==
      ChangedIds(prev, changed) + if e.file != "" && e.file in changed then {e.id} else {}
  {
  }

  // The first pass after `prev`: what it appended, what is live, what it re-extracted, what it holds back.
  ghost predicate FirstPass(prev: seq<Entity>, changed: set<string>, emitted: set<Id>, carried: seq<Entity>,
                            live: set<Id>, changedIds: set<Id>, held: seq<Entity>)
  {
    && carried == CarriedEntities(prev, changed, emitted)
    && live == emitted + Ids(carried)
    && changedIds == ChangedIds(prev, changed)
    && HoldsBack(prev, held, live)
  }

  // One more entity: held back, re-extracted, already live, or carried.
  lemma FirstPassHeld(prev: seq<Entity>, changed: set<string>, emitted: set<Id>, carried: seq<Entity>,
                      live: set<Id>, changedIds: set<Id>, held: seq<Entity>, e: Entity)
    requires FirstPass(prev, changed, emitted, carried, live, changedIds, held) && e.file == ""
    ensures FirstPass(prev + [e], changed, emitted, carried, live, changedIds,
      if e.id in live then held else held + [e])
  {
    CarriedSnoc(prev, e, changed, emitted);
    ChangedSnoc(prev, e, changed);
    if e.id in live {
      HoldsBackSkip(prev, held, live, e, live);
    } else {
      HoldsBackMore(prev, held, live, e);
    }
  }

  lemma FirstPassChanged(prev: seq<Entity>, changed: set<string>, emitted: set<Id>, carried: seq<Entity>,
                         live: set<Id>, changedIds: set<Id>, held: seq<Entity>, e: Entity)
    requires FirstPass(prev, changed, emitted, carried, live, changedIds, held) && e.file != "" && e.file in changed
    ensures FirstPass(prev + [e], changed, emitted, carried, live, changedIds + {e.id}, held)
  {
    CarriedSnoc(prev, e, changed, emitted);
    ChangedSnoc(prev, e, changed);
    HoldsBackSkip(prev, held, live, e, live);
  }

  lemma FirstPassLive(prev: seq<Entity>, changed: set<string>, emitted: set<Id>, carried: seq<Entity>,
                      live: set<Id>, changedIds: set<Id>, held: seq<Entity>, e: Entity)
    requires FirstPass(prev, changed, emitted, carried, live, changedIds, held)
    requires e.file != "" && e.file !in changed && e.id in live
    ensures FirstPass(prev + [e], changed, emitted, carried, live, changedIds, held)
  {
    CarriedSnoc(prev, e, changed, emitted);
    ChangedSnoc(prev, e, changed);
    HoldsBackSkip(prev, held, live, e, live);
  }

  lemma FirstPassCarried(prev: seq<Entity>, changed: set<string>, emitted: set<Id>, carried: seq<Entity>,
                         live: set<Id>, changedIds: set<Id>, held: seq<Entity>, e: Entity)
    requires FirstPass(prev, changed, emitted, carried, live, changedIds, held)
    requires e.file != "" && e.file !in changed && e.id !in live
    ensures FirstPass(prev + [e], changed, emitted, carried + [e], live + {e.id}, changedIds, held)
  {
    CarriedSnoc(prev, e, changed, emitted);
    ChangedSnoc(prev, e, changed);
    HoldsBackSkip(prev, held, live, e, live + {e.id});
  }

  class Document {
    var entities: seq<Entity>
    var rels: seq<Rel>

    constructor (entities: seq<Entity>, rels: seq<Rel>)
      ensures this.entities == entities && this.rels == rels
    {
      this.entities, this.rels := entities, rels;
    }

    // First pass: entities of unchanged files; source-less ones are held back.
    method CarryEntities(prev: seq<Entity>, changed: set<string>)
      returns (live: set<Id>, changedIds: set<Id>, synthetic: seq<Entity>, added: nat)
      modifies this`entities
      ensures entities == old(entities) + CarriedEntities(prev, changed, Ids(old(entities)))
      ensures live == Ids(entities)
      ensures changedIds == ChangedIds(prev, changed)
      ensures added == |CarriedEntities(prev, changed, Ids(old(entities)))|
      ensures HoldsBack(prev, synthetic, live)
    {
      var emitted := Ids(entities);
      live, changedIds, synthetic, added := emitted, {}, [], 0;
      ghost var carried := [];
      for n := 0 to |prev|
        invariant entities == old(entities) + carried && added == |carried|
        invariant FirstPass(prev[..n], changed, emitted, carried, live, changedIds, synthetic)
      {
        var e := prev[n];
        assert prev[..n + 1] == prev[..n] + [e];
        if e.file == "" {
          FirstPassHeld(prev[..n], changed, emitted, carried, live, changedIds, synthetic, e);
          if e.id !in live {
            synthetic := synthetic + [e];
          }
          continue;
        }
        if e.file in changed {
          FirstPassChanged(prev[..n], changed, emitted, carried, live, changedIds, synthetic, e);
          changedIds := changedIds + {e.id};
          continue;
        }
        if e.id in live {
          FirstPassLive(prev[..n], changed, emitted, carried, live, changedIds, synthetic, e);
          continue;
        }
        FirstPassCarried(prev[..n], changed, emitted, carried, live, changedIds, synthetic, e);
        entities := entities + [e];
        live := live + {e.id};
        carried := carried + [e];
        added := added + 1;
      }
      assert prev[..|prev|] == prev;
    }

    // Third pass: the held-back synthetics that a surviving edge still points at.
    method AttachSynthetics(synthetic: seq<Entity>, live0: set<Id>, referenced: set<Id>) returns (added: nat)
      requires forall e :: e in synthetic ==> e.file == ""
      modifies this`entities
      ensures entities == old(entities) + AttachedSynthetics(synthetic, live0, referenced)
      ensures added == |AttachedSynthetics(synthetic, live0, referenced)|
    {
      var live := live0;
      added := 0;
      ghost var attached := [];
      for n := 0 to |synthetic|
        invariant entities == old(entities) + attached && added == |attached|
        invariant ThirdPass(synthetic[..n], live0, referenced, attached, live)
      {
        var e := synthetic[n];
        assert synthetic[..n + 1] == synthetic[..n] + [e];
        ThirdPassSnoc(synthetic[..n], live0, referenced, attached, live, e);
        if e.id !in referenced || e.id in live {
          continue;
        }
        entities := entities + [e];
        live := live + {e.id};
        attached := attached + [e];
        added := added + 1;
      }
      assert synthetic[..|synthetic|] == synthetic;
    }
  }

  // The relationship pass: the maps its visitor keeps between rows.
  class RelPass {
    const doc: Document
    const changedIds: set<Id>
    const live: set<Id>
    ghost const emitted: seq<Rel>
    var keys: set<RelKey>
    var budget: map<Id, nat>
    var deferred: map<Id, seq<Rel>>
    var order: seq<Id>
    var referenced: set<Id>
    var added: nat
    var dropped: nat
    ghost var stream: seq<Rel>
    ghost var carried: seq<Rel>

    ghost predicate Valid()
      reads this, doc
    {
      referenced == Endpoints(stream) && Settles(stream)
    }

    // The dedupe and supersession state accounts for exactly the rows of `weighed`.
    ghost predicate Settles(weighed: seq<Rel>)
      reads this, doc
    {
      && doc.rels == emitted + carried
      && added == |carried|
      && Streamed(emitted, weighed, keys, budget, deferred, order, carried)
    }

    constructor (doc: Document, changedIds: set<Id>, live: set<Id>)
      ensures Valid() && stream == [] && carried == [] && emitted == doc.rels && dropped == 0
      ensures this.doc == doc && this.changedIds == changedIds && this.live == live
    {
      this.doc, this.changedIds, this.live, emitted := doc, changedIds, live, doc.rels;
      var ks, bs := IndexEmitted(doc.rels);
      keys, budget := ks, bs;
      deferred, order, referenced, added, dropped, stream, carried := map[], [], {}, 0, 0, [], [];
    }

    // One previous row: dropped, recognised as a duplicate, deferred, or carried at once.
    method Visit(p: Rel)
      requires Valid()
      modifies this, doc`rels
      ensures Valid()
      ensures Stale(p, changedIds, live) ==> stream == old(stream) && dropped == old(dropped) + 1
      ensures !Stale(p, changedIds, live) ==> stream == old(stream) + [Normal(p)] && dropped == old(dropped)
    {
      if p.from in changedIds {
        dropped := dropped + 1;
        return;
      }
      if p.to in changedIds && p.to !in live {
        dropped := dropped + 1;
        return;
      }
      var r := Normal(p);
      referenced := referenced + {r.from} + {r.to};
      Weigh(r);
      stream := stream + [r];
    }

    // A row that survives: an exact duplicate spends budget, a colliding row waits for the settlement.
    method Weigh(r: Rel)
      requires Settles(stream)
      modifies this`keys, this`budget, this`deferred, this`order, this`carried, this`added, doc`rels
      ensures Settles(stream + [r])
    {
      if KeyOf(r) in keys {
        Duplicated(emitted, stream, r, keys, budget, deferred, order, carried);
        budget := Spend(budget, RelID(r));
      } else if Get(budget, RelID(r)) > 0 {
        Deferred(emitted, stream, r, keys, budget, deferred, order, carried);
        order, deferred := Enqueue(order, deferred, RelID(r)), Defer(deferred, r);
      } else {
        Carried(emitted, stream, r, keys, budget, deferred, order, carried);
        Append(r);
      }
    }

    method Append(r: Rel)
      requires doc.rels == emitted + carried && added == |carried|
      modifies this`keys, this`carried, this`added, doc`rels
      ensures doc.rels == emitted + carried && added == |carried|
      ensures keys == old(keys) + {KeyOf(r)} && carried == old(carried) + [r]
    {
      keys := keys + {KeyOf(r)};
      doc.rels := doc.rels + [r];
      carried := carried + [r];
      added := added + 1;
    }

    method EachRelationship(prev: seq<Rel>)
      requires Valid() && stream == [] && dropped == 0
      modifies this, doc`rels
      ensures Valid() && stream == Survivors(prev, changedIds, live)
      ensures dropped == |prev| - |stream|
    {
      for n := 0 to |prev|
        invariant Valid() && stream == Survivors(prev[..n], changedIds, live)
        invariant dropped == n - |stream|
      {
        SurvivorsTake(prev, n, changedIds, live);
        Visit(prev[n]);
      }
      assert prev[..|prev|] == prev;
    }

    ghost predicate Midway(done: set<Id>, busy: set<Id>)
      reads this, doc
    {
      && doc.rels == emitted + carried && added == |carried|
      && CarriedState(emitted, stream, keys, carried)
      && Settling(emitted, stream, budget, deferred, carried, done, busy)
    }

    // Spends whatever budget the exact duplicates left, then carries the rest of each colliding family.
    method Settle()
      requires Valid()
      modifies this`keys, this`carried, this`added, doc`rels
      ensures doc.rels == emitted + carried && added == |carried|
      ensures CarriesExactly(emitted, stream, carried)
    {
      SettlingStart(emitted, stream, keys, budget, deferred, order, carried);
      ghost var done := {};
      for n := 0 to |order|
        invariant Midway(done, {})
        invariant forall id :: id in done <==> id in order[..n]
      {
        SettleFamily(order[n], done);
        done := done + {order[n]};
      }
      SettlingEnd(emitted, stream, keys, budget, deferred, carried, done);
    }

    method SettleFamily(id: Id, ghost done: set<Id>)
      requires Midway(done, {}) && id !in done
      modifies this`keys, this`carried, this`added, doc`rels
      ensures Midway(done + {id}, {})
    {
      var rows := Rows(deferred, id);
      var superseded := if Get(budget, id) > |rows| then |rows| else Get(budget, id);
      ghost var before, keys0 := carried, keys;
      SettlingPick(emitted, stream, budget, deferred, carried, done, id);
      CarryTail(rows, superseded, id, done, {id});
      KeysToEnd(rows, superseded);
      forall k: RelKey ensures k in Keys(carried) <==> k in Keys(before) || k in Keys(rows[superseded..]) {
        assert HasUpTo(carried, Keys(before), rows, superseded, |rows|, k);
      }
      SettleId(emitted, stream, keys0, Get(budget, id), rows, before, carried, id);
      SettlingDone(emitted, stream, budget, deferred, carried, done, id);
    }

    method CarryTail(rows: seq<Rel>, superseded: nat, ghost id: Id, ghost done: set<Id>, ghost busy: set<Id>)
      requires Midway(done, busy) && id !in done && busy == {id} && superseded <= |rows|
      requires AllIn(rows, Contenders(stream, Keys(emitted), id))
      modifies this`keys, this`carried, this`added, doc`rels
      ensures Midway(done, busy)
      ensures forall k :: HasUpTo(carried, Keys(old(carried)), rows, superseded, |rows|, k)
    {
      ghost var before := Keys(carried);
      for i := superseded to |rows|
        invariant Midway(done, busy) && forall k :: HasUpTo(carried, before, rows, superseded, i, k)
      {
        CarryAt(rows, superseded, i, i + 1, id, done, busy, before);
      }
    }

    method CarryAt(rows: seq<Rel>, ghost superseded: nat, i: nat, ghost next: nat, ghost id: Id, ghost done: set<Id>,
                   ghost busy: set<Id>, ghost before: set<RelKey>)
      requires Midway(done, busy) && id !in done && busy == {id} && superseded <= i < |rows| && next == i + 1
      requires AllIn(rows, Contenders(stream, Keys(emitted), id))
      requires forall k :: HasUpTo(carried, before, rows, superseded, i, k)
      modifies this`keys, this`carried, this`added, doc`rels
      ensures Midway(done, busy) && forall k :: HasUpTo(carried, before, rows, superseded, next, k)
    {
      ghost var was := carried;
      KeysTake(rows, superseded, i);
      CarryDeferred(rows[i], done, busy);
      forall k ensures HasUpTo(carried, before, rows, superseded, next, k) {
        assert HasUpTo(was, before, rows, superseded, i, k);
      }
    }

    method CarryDeferred(r: Rel, ghost done: set<Id>, ghost busy: set<Id>)
      requires Midway(done, busy) && RelID(r) !in done && busy == {RelID(r)}
      requires r in Contenders(stream, Keys(emitted), RelID(r))
      modifies this`keys, this`carried, this`added, doc`rels
      ensures Midway(done, busy)
      ensures Keys(carried) == Keys(old(carried)) + {KeyOf(r)}
    {
      if KeyOf(r) in keys {
        return;
      }
      AppendRow(emitted, stream, keys, carried, r);
      SettlingAppend(emitted, stream, budget, deferred, carried, done, r);
      Append(r);
    }
  }

  // The whole merge.
  method MergeIncrementalPrevSource(doc: Document, prev: Doc, changed: set<string>)
    returns (stats: Stats, ghost carried: seq<Rel>)
    modifies doc
    ensures Merged(Doc(old(doc.entities), old(doc.rels)), prev, changed, carried, Doc(doc.entities, doc.rels))
    ensures stats.relsAdded == |carried|
    ensures stats.relsDropped ==
      |prev.rels| - |Stream(Doc(old(doc.entities), old(doc.rels)), prev, changed)|
    ensures stats.entitiesAdded == |doc.entities| - |old(doc.entities)|
  {
    var live, changedIds, synthetic, carriedOver := doc.CarryEntities(prev.entities, changed);
    ghost var emitted := Doc(old(doc.entities), old(doc.rels));
    assert live == LiveIds(emitted, prev, changed);
    var pass := new RelPass(doc, changedIds, live);
    pass.EachRelationship(prev.rels);
    pass.Settle();
    carried := pass.carried;
    var attached := doc.AttachSynthetics(synthetic, live, pass.referenced);
    assert AttachedSynthetics(synthetic, live, pass.referenced) ==
      AttachedSynthetics(prev.entities, live, pass.referenced);
    doc.rels := DropHierarchySelfLoops(doc.rels);
    stats := Stats(carriedOver + attached, pass.added, pass.dropped);
  }
}
