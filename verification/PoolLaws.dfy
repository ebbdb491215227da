// What the worker pools guarantee over every interleaving.
module PoolLaws {
  import opened Gates
  import opened Pools

  // ---------------------------------------------------------------------------------------------
  // Runs.

  predicate Runs<R(==)>(pools: seq<Pool>, s: State<R>, steps: seq<Step<R>>)
    decreases |steps|, 0
  {
    steps == [] ||
    (Runs(pools, s, steps[..|steps| - 1]) &&
     Enabled(pools, After(pools, s, steps[..|steps| - 1]), steps[|steps| - 1]))
  }

  function After<R(==)>(pools: seq<Pool>, s: State<R>, steps: seq<Step<R>>): State<R>
    requires Runs(pools, s, steps)
    decreases |steps|, 1
  {
    if steps == [] then s
    else Apply(pools, After(pools, s, steps[..|steps| - 1]), steps[|steps| - 1])
  }

  lemma {:induction false} InvRun<R>(pools: seq<Pool>, cap: int, steps: seq<Step<R>>)
    requires Runs(pools, Initial(pools, cap), steps)
    ensures Inv(pools, cap, After(pools, Initial(pools, cap), steps))
  {
    if steps == [] {
      InitialInv<R>(pools, cap);
    } else {
      var init := steps[..|steps| - 1];
      InvRun(pools, cap, init);
      InvStep(pools, cap, After(pools, Initial(pools, cap), init), steps[|steps| - 1]);
    }
  }

  // ---------------------------------------------------------------------------------------------
  // Bounds.

  // The gate's capacity.
  function Cap(cap: int): nat {
    if cap < 1 then 1 else cap
  }

  function RunningIn<R>(s: State<R>, p: nat): set<Worker> {
    set w | w in s.phase && w.pool == p && s.phase[w] == Running
  }

  function RunningGated<R>(pools: seq<Pool>, s: State<R>): set<Worker> {
    set w | w in s.phase && w.pool < |pools| && pools[w.pool].gated && s.phase[w] == Running
  }

  lemma Fewer(a: set<Worker>, b: set<Worker>)
    requires a <= b
    ensures |a| <= |b|
  {
    assert b == a + (b - a);
  }

  // At most conc work calls of a pool, and at most the gate's capacity of all gated pools, run at once.
  lemma Bounded<R>(pools: seq<Pool>, cap: int, steps: seq<Step<R>>, p: nat)
    requires Runs(pools, Initial(pools, cap), steps) && p < |pools|
    ensures var s := After(pools, Initial(pools, cap), steps);
      |RunningIn(s, p)| <= pools[p].conc && |RunningGated(pools, s)| <= Cap(cap)
  {
    InvRun(pools, cap, steps);
    var s := After(pools, Initial(pools, cap), steps);
    assert Tokens(pools, s.phase, s.sem, p);
    Fewer(RunningIn(s, p), Slots(s.phase, p));
    GateBounds(pools, cap, s);
  }

  lemma GateBounds<R>(pools: seq<Pool>, cap: int, s: State<R>)
    requires Inv(pools, cap, s)
    ensures |RunningGated(pools, s)| <= Cap(cap)
  {
    var fg, bg := Charges(pools, s.phase, true), Charges(pools, s.phase, false);
    assert fg !! bg;
    Fewer(RunningGated(pools, s), fg + bg);
  }

  // Indexes of gated pools that go on after their call timed out.
  function GatedOrphans<R>(pools: seq<Pool>, s: State<R>): set<Worker> {
    set w | w in s.orphans && w.pool < |pools| && pools[w.pool].gated
  }

  // The indexes really running under the gate: those of running calls, and the orphans.
  function Indexing<R>(pools: seq<Pool>, s: State<R>): set<Worker> {
    RunningGated(pools, s) + GatedOrphans(pools, s)
  }

  // The gate bounds the indexes that run, except for what time-outs have left behind.
  lemma OrphansEscapeTheGate<R>(pools: seq<Pool>, cap: int, steps: seq<Step<R>>)
    requires Runs(pools, Initial(pools, cap), steps)
    ensures var s := After(pools, Initial(pools, cap), steps);
      |Indexing(pools, s)| <= Cap(cap) + |GatedOrphans(pools, s)|
  {
    InvRun(pools, cap, steps);
    GateBounds(pools, cap, After(pools, Initial(pools, cap), steps));
  }

  // ---------------------------------------------------------------------------------------------
  // How many indexes can run at once.

  // The items of gated pools that have a token to give.
  function Eligible(pools: seq<Pool>): set<Worker> {
    set w | w in Workers(pools) && pools[w.pool].gated && pools[w.pool].conc >= 1
  }

  // As long as no call times out, the gate does bound the indexes.
  lemma BoundedUntilTimeOut<R>(pools: seq<Pool>, cap: int, steps: seq<Step<R>>)
    requires Runs(pools, Initial(pools, cap), steps) && forall step :: step in steps ==> !step.TimeOut?
    ensures |Indexing(pools, After(pools, Initial(pools, cap), steps))| <= Cap(cap)
  {
    var s := After(pools, Initial(pools, cap), steps);
    NoOrphans(pools, cap, steps);
    OrphansEscapeTheGate(pools, cap, steps);
    assert GatedOrphans(pools, s) == {};
  }

  lemma {:induction false} NoOrphans<R>(pools: seq<Pool>, cap: int, steps: seq<Step<R>>)
    requires Runs(pools, Initial(pools, cap), steps) && forall step :: step in steps ==> !step.TimeOut?
    ensures After(pools, Initial(pools, cap), steps).orphans == {}
  {
    if steps != [] {
      var init, last := steps[..|steps| - 1], steps[|steps| - 1];
      NoOrphans(pools, cap, init);
      assert last in steps;
      NoMoreOrphans(pools, After(pools, Initial(pools, cap), init), last);
    }
  }

  lemma NoMoreOrphans<R>(pools: seq<Pool>, s: State<R>, step: Step<R>)
    requires Enabled(pools, s, step) && s.orphans == {} && !step.TimeOut?
    ensures Apply(pools, s, step).orphans == {}
  {
  }

  // Only an item whose pool has a token is ever indexed.
  lemma {:induction false} OrphansAreEligible<R>(pools: seq<Pool>, cap: int, steps: seq<Step<R>>)
    requires Runs(pools, Initial(pools, cap), steps)
    ensures GatedOrphans(pools, After(pools, Initial(pools, cap), steps)) <= Eligible(pools)
  {
    if steps != [] {
      var init, step := steps[..|steps| - 1], steps[|steps| - 1];
      OrphansAreEligible(pools, cap, init);
      InvRun(pools, cap, init);
      if step.TimeOut? {
        SlotNeedsToken(pools, cap, After(pools, Initial(pools, cap), init), step.w);
      }
    }
  }

  lemma SlotNeedsToken<R>(pools: seq<Pool>, cap: int, s: State<R>, w: Worker)
    requires Inv(pools, cap, s) && w in s.phase && HasSlot(s.phase[w])
    ensures w in Workers(pools) && pools[w.pool].conc >= 1
  {
    assert Tokens(pools, s.phase, s.sem, w.pool) && w in Slots(s.phase, w.pool);
  }

  lemma IndexingIsEligible<R>(pools: seq<Pool>, cap: int, steps: seq<Step<R>>)
    requires Runs(pools, Initial(pools, cap), steps)
    ensures Indexing(pools, After(pools, Initial(pools, cap), steps)) <= Eligible(pools)
  {
    var s := After(pools, Initial(pools, cap), steps);
    InvRun(pools, cap, steps);
    OrphansAreEligible(pools, cap, steps);
    forall w | w in RunningGated(pools, s) ensures w in Eligible(pools) {
      SlotNeedsToken(pools, cap, s, w);
    }
  }

  // Some run has come to state s.
  ghost predicate Reaches<R(!new)>(pools: seq<Pool>, cap: int, s: State<R>) {
    exists steps :: Runs(pools, Initial(pools, cap), steps) && After(pools, Initial(pools, cap), steps) == s
  }

  lemma ReachesMore<R(!new)>(pools: seq<Pool>, cap: int, s: State<R>, step: Step<R>)
    requires Reaches(pools, cap, s) && Enabled(pools, s, step)
    ensures Reaches(pools, cap, Apply(pools, s, step))
  {
    var steps :| Runs(pools, Initial(pools, cap), steps) && After(pools, Initial(pools, cap), steps) == s;
    assert (steps + [step])[..|steps|] == steps;
    assert After(pools, Initial(pools, cap), steps + [step]) == Apply(pools, s, step);
  }

  // Every token and every slot is back, and only `orphans` go on.
  ghost predicate Resting<R(!new)>(pools: seq<Pool>, cap: int, s: State<R>, orphans: set<Worker>) {
    && Reaches(pools, cap, s) && s.gate == New(cap) && s.orphans == orphans && s.phase.Keys == Workers(pools)
    && |s.sem| == |pools| && (forall p :: 0 <= p < |pools| ==> s.sem[p] == 0)
    && (forall w :: w in s.phase ==> s.phase[w] == if w in orphans then Done else Launched)
  }

  // An eligible item has taken its token and its slot, and its call has started.
  lemma StartsAlone<R(!new)>(pools: seq<Pool>, cap: int, s: State<R>, orphans: set<Worker>, w: Worker)
    returns (t: State<R>)
    requires Resting(pools, cap, s, orphans) && w in Eligible(pools) - orphans
    ensures Reaches(pools, cap, t)
    ensures t == s.(phase := s.phase[w := Running], sem := s.sem[w.pool := 1],
                    gate := Charge(New(cap), pools[w.pool].foreground))
  {
    ReachesMore(pools, cap, s, Take(w));
    var u := Apply(pools, s, Take(w));
    ReachesMore(pools, cap, u, Ask(w));
    t := Apply(pools, u, Ask(w));
    assert s.phase[w := Slotted][w := Running] == s.phase[w := Running];
  }

  lemma ReleasesAlone<T>(cap: int, foreground: bool)
    ensures Release(Charge(New<T>(cap), foreground), foreground) == (New(cap), [])
  {
    assert Discharge(Charge(New<T>(cap), foreground), foreground) == New(cap);
    Wakes<T>(New(cap));
  }

  lemma Wakes<T>(g: Gate<T>)
    requires g.fg == [] && g.bg == []
    ensures Wake(g) == (g, [])
  {
    var none: seq<T> := [];
    assert WakeForeground(g) == (g, none) && WakeBackground(g) == (g, none);
    assert none + none == none;
  }

  // Its call times out and the slot is returned, while its index goes on.
  lemma TimesOutAlone<R(!new)>(pools: seq<Pool>, cap: int, t: State<R>, w: Worker, value: R) returns (u: State<R>)
    requires Reaches(pools, cap, t) && w in t.phase && t.phase[w] == Running && w.pool < |pools| == |t.sem|
    requires pools[w.pool].gated && t.gate == Charge(New(cap), pools[w.pool].foreground)
    ensures Reaches(pools, cap, u) && u.gate == New(cap) && u.orphans == t.orphans + {w}
    ensures u.phase == t.phase[w := Freed] && u.sem == t.sem
  {
    ReachesMore(pools, cap, t, TimeOut(w, value));
    u := Apply(pools, t, TimeOut(w, value));
    ReleasesAlone<Worker>(cap, pools[w.pool].foreground);
    ReachesMore(pools, cap, u, GiveBack(w));
    u := Apply(pools, u, GiveBack(w));
  }

  lemma FreesToken<R(!new)>(pools: seq<Pool>, cap: int, t: State<R>, w: Worker) returns (u: State<R>)
    requires Reaches(pools, cap, t) && w in t.phase && t.phase[w] == Freed && w.pool < |pools| == |t.sem|
    requires t.sem[w.pool] == 1
    ensures Reaches(pools, cap, u) && u == t.(phase := t.phase[w := Done], sem := t.sem[w.pool := 0])
  {
    ReachesMore(pools, cap, t, Free(w));
    u := Apply(pools, t, Free(w));
  }

  lemma OneMoreOrphan<R(!new)>(pools: seq<Pool>, cap: int, s: State<R>, orphans: set<Worker>, w: Worker, value: R)
    returns (u: State<R>)
    requires Resting(pools, cap, s, orphans) && w in Eligible(pools) - orphans
    ensures Resting(pools, cap, u, orphans + {w})
  {
    u := StartsAlone(pools, cap, s, orphans, w);
    u := TimesOutAlone(pools, cap, u, w, value);
    u := FreesToken(pools, cap, u, w);
    assert s.phase[w := Running][w := Freed][w := Done] == s.phase[w := Done];
    assert s.sem[w.pool := 1][w.pool := 0] == s.sem;
  }

  // One after another, any eligible items can be left indexing.
  lemma {:induction false} LeavesOrphans<R(!new)>(pools: seq<Pool>, cap: int, ws: set<Worker>, value: R)
    returns (s: State<R>)
    requires ws <= Eligible(pools)
    ensures Resting(pools, cap, s, ws)
    decreases |ws|
  {
    if ws == {} {
      s := Initial(pools, cap);
      assert After(pools, s, []) == s;
    } else {
      var w :| w in ws;
      s := LeavesOrphans(pools, cap, ws - {w}, value);
      s := OneMoreOrphan(pools, cap, s, ws - {w}, w, value);
      assert ws - {w} + {w} == ws;
    }
  }

  // Exactly the sets of eligible items are the sets of indexes that can run at once, whatever the capacity.
  lemma IndexingIff<R(!new)>(pools: seq<Pool>, cap: int, ws: set<Worker>, value: R)
    ensures (exists s: State<R> :: Reaches(pools, cap, s) && Indexing(pools, s) == ws) <==> ws <= Eligible(pools)
  {
    if s: State<R> :| Reaches(pools, cap, s) && Indexing(pools, s) == ws {
      var steps :| Runs(pools, Initial<R>(pools, cap), steps) && After(pools, Initial(pools, cap), steps) == s;
      IndexingIsEligible(pools, cap, steps);
    }
    if ws <= Eligible(pools) {
      var s := LeavesOrphans(pools, cap, ws, value);
      assert Indexing(pools, s) == ws;
    }
  }

  // So some run has more indexes at once than the gate has slots if and only if there are more eligible items.
  lemma GateExceededIff<R(!new)>(pools: seq<Pool>, cap: int, value: R)
    ensures (exists steps: seq<Step<R>> :: Runs(pools, Initial(pools, cap), steps)
                                           && |Indexing(pools, After(pools, Initial(pools, cap), steps))| > Cap(cap))
      <==> |Eligible(pools)| > Cap(cap)
  {
    if steps: seq<Step<R>> :| Runs(pools, Initial(pools, cap), steps)
                              && |Indexing(pools, After(pools, Initial(pools, cap), steps))| > Cap(cap) {
      IndexingIsEligible(pools, cap, steps);
      Fewer(Indexing(pools, After(pools, Initial(pools, cap), steps)), Eligible(pools));
    }
    if |Eligible(pools)| > Cap(cap) {
      IndexingIff(pools, cap, Eligible(pools), value);
      var s: State<R> :| Reaches(pools, cap, s) && Indexing(pools, s) == Eligible(pools);
      var steps :| Runs(pools, Initial<R>(pools, cap), steps) && After(pools, Initial(pools, cap), steps) == s;
    }
  }

  // ---------------------------------------------------------------------------------------------
  // Progress and termination.

  predicate AllDone<R>(s: State<R>) {
    forall w :: w in s.phase ==> s.phase[w] == Done
  }

  // A worker that is neither blocked on its pool's channel nor on the gate can move.
  lemma CanMove<R(0)>(pools: seq<Pool>, cap: int, s: State<R>, w: Worker, value: R) returns (step: Step<R>)
    requires Inv(pools, cap, s) && w in s.phase
    requires !s.phase[w].Launched? && !s.phase[w].Waiting? && !s.phase[w].Done?
    ensures Enabled(pools, s, step)
  {
    assert Tokens(pools, s.phase, s.sem, w.pool) && w in Slots(s.phase, w.pool);
    step := match s.phase[w]
      case Slotted => Ask(w)
      case Signalled => Proceed(w)
      case Running => Work(w, value)
      case Finishing => GiveBack(w)
      case _ => Free(w);
  }

  // Whoever waits at the gate, somebody holds a slot and can move.
  lemma WaiterHasHolder<R>(pools: seq<Pool>, cap: int, s: State<R>, w: Worker) returns (v: Worker)
    requires Inv(pools, cap, s) && w in s.phase && s.phase[w] == Waiting
    ensures v in s.phase && HasCharge(s.phase[v])
  {
    assert Gated(pools, w, pools[w.pool].foreground);
    assert w in s.gate.fg || w in s.gate.bg;
    var fg, bg := Charges(pools, s.phase, true), Charges(pools, s.phase, false);
    assert |fg| + |bg| > 0;
    assert fg + bg != {};
    v :| v in fg + bg;
  }

  // A pool whose workers are all launched or done has every token back.
  lemma FreeToken<R>(pools: seq<Pool>, cap: int, s: State<R>, w: Worker)
    requires Inv(pools, cap, s) && w in s.phase && s.phase[w] == Launched && pools[w.pool].conc >= 1
    requires forall v :: v in s.phase ==> s.phase[v].Launched? || s.phase[v].Done?
    ensures Enabled(pools, s, Take(w))
  {
    assert Tokens(pools, s.phase, s.sem, w.pool);
    assert Slots(s.phase, w.pool) == {};
  }

  // Deadlock is unreachable: while a worker is not done, some worker can move.
  lemma NoDeadlock<R(0)>(pools: seq<Pool>, cap: int, s: State<R>, value: R) returns (step: Step<R>)
    requires Inv(pools, cap, s) && !AllDone(s)
    requires forall p: nat :: p < |pools| && pools[p].size > 0 ==> pools[p].conc >= 1
    ensures Enabled(pools, s, step)
  {
    if w :| w in s.phase && !s.phase[w].Launched? && !s.phase[w].Waiting? && !s.phase[w].Done? {
      step := CanMove(pools, cap, s, w, value);
    } else if w :| w in s.phase && s.phase[w].Waiting? {
      var v := WaiterHasHolder(pools, cap, s, w);
      step := CanMove(pools, cap, s, v, value);
    } else {
      var w :| w in s.phase && s.phase[w] != Done;
      FreeToken(pools, cap, s, w);
      step := Take(w);
    }
  }

  // A pool made with no tokens never starts any of its work.
  lemma {:induction false} NoTokensNoWork<R>(pools: seq<Pool>, cap: int, steps: seq<Step<R>>, w: Worker)
    requires Runs(pools, Initial(pools, cap), steps) && w in Workers(pools) && pools[w.pool].conc == 0
    ensures w in After(pools, Initial(pools, cap), steps).phase
    ensures After(pools, Initial(pools, cap), steps).phase[w] == Launched
  {
    InvRun(pools, cap, steps);
    var s := After(pools, Initial(pools, cap), steps);
    assert Tokens(pools, s.phase, s.sem, w.pool);
    assert Slots(s.phase, w.pool) == {};
    assert w !in Slots(s.phase, w.pool);
    if s.phase[w] == Done {
      DoneWasFreed(pools, cap, steps, w);
    }
  }

  // A worker that is done held a token at some earlier point of the run.
  lemma {:induction false} DoneWasFreed<R>(pools: seq<Pool>, cap: int, steps: seq<Step<R>>, w: Worker)
    requires Runs(pools, Initial(pools, cap), steps) && w in Workers(pools)
    requires var s := After(pools, Initial(pools, cap), steps); w in s.phase && s.phase[w] == Done
    ensures pools[w.pool].conc > 0
  {
    if steps != [] {
      var init, step := steps[..|steps| - 1], steps[|steps| - 1];
      InvRun(pools, cap, init);
      var s := After(pools, Initial(pools, cap), init);
      if s.phase[w] == Done {
        DoneWasFreed(pools, cap, init, w);
      } else {
        OnlyFreeEnds(pools, cap, s, step, w);
        assert Tokens(pools, s.phase, s.sem, w.pool) && w in Slots(s.phase, w.pool);
      }
    }
  }

  lemma OnlyFreeEnds<R>(pools: seq<Pool>, cap: int, s: State<R>, step: Step<R>, w: Worker)
    requires Inv(pools, cap, s) && Enabled(pools, s, step) && w in s.phase && s.phase[w] != Done
    requires w in Apply(pools, s, step).phase && Apply(pools, s, step).phase[w] == Done
    ensures s.phase[w] == Freed
  {
    Moves(pools, cap, s, step, w);
  }

  function Left(ph: Phase): nat {
    match ph
    case Launched => 8 case Slotted => 7 case Waiting => 6 case Signalled => 5 case Running => 4 case Finishing => 2
    case Freed => 1 case Done => 0
  }

  // How far a step must move its own worker: a call that times out leaves an orphan to be waited for.
  function Stride<R>(step: Step<R>): nat {
    if step.TimeOut? then 2 else if step.OrphanEnds? then 0 else 1
  }

  // What one step does to one worker: its own moves it on, and a release moves at most one waiter on.
  lemma Moves<R>(pools: seq<Pool>, cap: int, s: State<R>, step: Step<R>, v: Worker)
    requires Inv(pools, cap, s) && Enabled(pools, s, step) && v in s.phase
    ensures var s' := Apply(pools, s, step);
      && v in s'.phase && Left(s'.phase[v]) <= Left(s.phase[v])
      && (v == step.w ==> Left(s'.phase[v]) + Stride(step) <= Left(s.phase[v]))
      && (v != step.w ==> s'.phase[v] == s.phase[v] || (s.phase[v].Waiting? && s'.phase[v].Signalled?))
      && (s'.phase[v] == Done && s.phase[v] != Done ==> s.phase[v] == Freed)
  {
    if step.GiveBack? && pools[step.w.pool].gated {
      ReleaseMoves(pools, cap, s, step.w, v);
    }
  }

  lemma ReleaseMoves<R>(pools: seq<Pool>, cap: int, s: State<R>, w: Worker, v: Worker)
    requires Inv(pools, cap, s) && Enabled(pools, s, GiveBack(w)) && pools[w.pool].gated && v in s.phase
    ensures var phase := Apply(pools, s, GiveBack(w)).phase;
      && v in phase
      && (if v == w then phase[v] == Freed
          else phase[v] == s.phase[v] || (s.phase[v] == Waiting && phase[v] == Signalled))
  {
    HolderHolds(pools, s.phase, s.gate, w);
    if |s.gate.fg| + |s.gate.bg| == 0 {
      ReleaseWakesTheHead(s.gate, pools[w.pool].foreground);
    } else {
      HandsOn(pools, s, w);
      HeadWaits(pools, s.phase, s.gate);
    }
  }

  lemma HeadWaits(pools: seq<Pool>, phase: map<Worker, Phase>, gate: Gate<Worker>)
    requires GateInv(pools, phase, gate) && |gate.fg| + |gate.bg| > 0
    ensures Head(gate) in phase && phase[Head(gate)] == Waiting
  {
    assert Head(gate) in gate.fg || Head(gate) in gate.bg;
  }

  function Total(ws: seq<Worker>, phase: map<Worker, Phase>): nat
    requires forall w :: w in ws ==> w in phase
  {
    if ws == [] then 0 else Left(phase[ws[0]]) + Total(ws[1..], phase)
  }

  lemma {:induction false} TotalDrops(ws: seq<Worker>, phase: map<Worker, Phase>, phase': map<Worker, Phase>,
                                      w: Worker, stride: nat)
    requires forall v :: v in ws ==> v in phase && v in phase' && Left(phase'[v]) <= Left(phase[v])
    requires w in ws ==> Left(phase'[w]) + stride <= Left(phase[w])
    ensures Total(ws, phase') <= Total(ws, phase) && (w in ws ==> Total(ws, phase') + stride <= Total(ws, phase))
  {
    if ws != [] {
      TotalDrops(ws[1..], phase, phase', w, stride);
      assert ws == [ws[0]] + ws[1..];
    }
  }

  // The work left, orphans included.
  function WorkLeft<R>(ws: seq<Worker>, s: State<R>): nat
    requires forall w :: w in ws ==> w in s.phase
  {
    Total(ws, s.phase) + |s.orphans|
  }

  lemma OrphansCount<R>(pools: seq<Pool>, s: State<R>, step: Step<R>)
    requires Enabled(pools, s, step)
    ensures |Apply(pools, s, step).orphans| + 1 <= |s.orphans| + Stride(step)
  {
    var s' := Apply(pools, s, step);
    if step.OrphanEnds? {
      assert s.orphans == s'.orphans + {step.w};
    }
  }

  lemma StepShrinks<R>(pools: seq<Pool>, cap: int, s: State<R>, step: Step<R>, ws: seq<Worker>)
    requires Inv(pools, cap, s) && Enabled(pools, s, step) && forall w :: w in ws <==> w in s.phase
    ensures forall w :: w in ws ==> w in Apply(pools, s, step).phase
    ensures WorkLeft(ws, Apply(pools, s, step)) < WorkLeft(ws, s)
  {
    var s' := Apply(pools, s, step);
    forall v | v in ws ensures v in s'.phase && Left(s'.phase[v]) <= Left(s.phase[v]) {
      Moves(pools, cap, s, step, v);
    }
    Moves(pools, cap, s, step, step.w);
    TotalDrops(ws, s.phase, s'.phase, step.w, Stride(step));
    OrphansCount(pools, s, step);
  }

  // The work left shrinks with every step, so no run is longer than eight steps a worker.
  lemma {:induction false} RunsAreFinite<R>(pools: seq<Pool>, cap: int, steps: seq<Step<R>>, ws: seq<Worker>)
    requires Runs(pools, Initial(pools, cap), steps) && forall w :: w in ws <==> w in Workers(pools)
    ensures After(pools, Initial(pools, cap), steps).phase.Keys == Workers(pools)
    ensures |steps| + WorkLeft(ws, After(pools, Initial(pools, cap), steps)) <= 8 * |ws|
  {
    InvRun(pools, cap, steps);
    if steps == [] {
      InitialTotal<R>(pools, cap, ws);
    } else {
      var init, step := steps[..|steps| - 1], steps[|steps| - 1];
      RunsAreFinite(pools, cap, init, ws);
      InvRun(pools, cap, init);
      StepShrinks(pools, cap, After(pools, Initial(pools, cap), init), step, ws);
    }
  }

  lemma {:induction false} InitialTotal<R>(pools: seq<Pool>, cap: int, ws: seq<Worker>)
    requires forall w :: w in ws ==> w in Workers(pools)
    ensures Total(ws, Initial<R>(pools, cap).phase) == 8 * |ws|
  {
    if ws != [] {
      InitialTotal<R>(pools, cap, ws[1..]);
    }
  }

  // ---------------------------------------------------------------------------------------------
  // The end of a run.

  // When all workers are done, every token and gate slot is back, nobody waits and every item has a result.
  lemma AllReturned<R>(pools: seq<Pool>, cap: int, s: State<R>)
    requires Inv(pools, cap, s) && AllDone(s)
    ensures forall p :: 0 <= p < |pools| ==> s.sem[p] == 0
    ensures s.gate == New(cap) && s.results.Keys == Workers(pools)
  {
    forall p: nat | p < |pools| ensures s.sem[p] == 0 {
      assert Tokens(pools, s.phase, s.sem, p);
      assert Slots(s.phase, p) == {};
    }
    assert Charges(pools, s.phase, true) == {} && Charges(pools, s.phase, false) == {};
    NobodyQueued(pools, s.phase, s.gate);
  }

  lemma NobodyQueued(pools: seq<Pool>, phase: map<Worker, Phase>, gate: Gate<Worker>)
    requires GateInv(pools, phase, gate) && forall w :: w in phase ==> phase[w] == Done
    ensures gate.fg == [] && gate.bg == []
  {
    HeadIsMember(gate.fg);
    HeadIsMember(gate.bg);
  }

  lemma HeadIsMember(q: seq<Worker>)
    ensures q == [] || q[0] in q
  {
  }

  // The outcomes of the work calls made for one item.
  function Calls<R>(steps: seq<Step<R>>, w: Worker): seq<R> {
    if steps == [] then []
    else
      var init, step := Calls(steps[..|steps| - 1], w), steps[|steps| - 1];
      if (step.Work? || step.TimeOut?) && step.w == w then init + [step.value] else init
  }

  // What one step does to one item's calls and result.
  lemma OneMoreCall<R>(pools: seq<Pool>, cap: int, s: State<R>, step: Step<R>, w: Worker, calls: seq<R>)
    requires Inv(pools, cap, s) && Enabled(pools, s, step)
    requires calls == if w in s.results then [s.results[w]] else []
    ensures var s' := Apply(pools, s, step);
      (if (step.Work? || step.TimeOut?) && step.w == w then calls + [step.value] else calls) ==
      if w in s'.results then [s'.results[w]] else []
  {
  }

  // Every item is worked on at most once, and its result is the outcome of that call and no other.
  lemma {:induction false} ResultIsTheOutcome<R>(pools: seq<Pool>, cap: int, steps: seq<Step<R>>, w: Worker)
    requires Runs(pools, Initial(pools, cap), steps)
    ensures var s := After(pools, Initial(pools, cap), steps);
      Calls(steps, w) == if w in s.results then [s.results[w]] else []
  {
    if steps != [] {
      var init, step := steps[..|steps| - 1], steps[|steps| - 1];
      ResultIsTheOutcome(pools, cap, init, w);
      InvRun(pools, cap, init);
      OneMoreCall(pools, cap, After(pools, Initial(pools, cap), init), step, w, Calls(init, w));
    }
  }
}
