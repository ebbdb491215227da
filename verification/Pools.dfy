// rebuildWorkerPool: any number of pools of goroutines, each with its own semaphore, sharing the index gate.
// Every goroutine is a worker that takes its steps in program order; a run interleaves them arbitrarily. A work
// call may time out: it returns, and the index it started goes on in the background.
module Pools {
  import opened Gates

  datatype Pool = Pool(conc: nat, size: nat, gated: bool, foreground: bool)

  datatype Worker = Worker(pool: nat, item: nat)

  // Signalled: woken by another worker's release, which charged the slot. Finishing: the result is written, all
  // slots are still held. Freed: the gate slot is returned.
  datatype Phase = Launched | Slotted | Waiting | Signalled | Running | Finishing | Freed | Done

  // `sem` counts the tokens in each pool's channel. An orphan is the index of a call that timed out.
  datatype State<R> = State(phase: map<Worker, Phase>, sem: seq<nat>, gate: Gate<Worker>, results: map<Worker, R>,
                            orphans: set<Worker>)

  datatype Step<R> = Take(w: Worker) | Ask(w: Worker) | Proceed(w: Worker) | Work(w: Worker, value: R)
                   | TimeOut(w: Worker, value: R) | GiveBack(w: Worker) | Free(w: Worker) | OrphanEnds(w: Worker)

  function Workers(pools: seq<Pool>): set<Worker> {
    set p, i | 0 <= p < |pools| && 0 <= i < pools[p].size :: Worker(p, i)
  }

  function Initial<R>(pools: seq<Pool>, cap: int): State<R> {
    State(map w | w in Workers(pools) :: Launched, seq(|pools|, _ => 0), New(cap), map[], {})
  }

  predicate Enabled<R>(pools: seq<Pool>, s: State<R>, step: Step<R>) {
    && step.w in s.phase && step.w.pool < |pools| == |s.sem|
    && match step
       case Take(w) => s.phase[w] == Launched && s.sem[w.pool] < pools[w.pool].conc
       case Ask(w) => s.phase[w] == Slotted
       case Proceed(w) => s.phase[w] == Signalled
       case Work(w, _) => s.phase[w] == Running
       case TimeOut(w, _) => s.phase[w] == Running
       case OrphanEnds(w) => w in s.orphans
       case GiveBack(w) => s.phase[w] == Finishing
       case Free(w) => s.phase[w] == Freed && s.sem[w.pool] > 0
  }

  function Signal(phase: map<Worker, Phase>, woken: seq<Worker>): map<Worker, Phase>
    decreases |woken|
  {
    if woken == [] then phase else Signal(phase[woken[0] := Signalled], woken[1..])
  }

  function Apply<R>(pools: seq<Pool>, s: State<R>, step: Step<R>): State<R>
    requires Enabled(pools, s, step)
  {
    var w, pool := step.w, pools[step.w.pool];
    match step
    case Take(_) => s.(phase := s.phase[w := Slotted], sem := s.sem[w.pool := s.sem[w.pool] + 1])
    case Ask(_) =>
      if !pool.gated then s.(phase := s.phase[w := Running])
      else s.(phase := s.phase[w := if CanAdmit(s.gate, pool.foreground) then Running else Waiting],
              gate := Request(s.gate, w, pool.foreground))
    case Proceed(_) => s.(phase := s.phase[w := Running])
    case Work(_, value) => s.(phase := s.phase[w := Finishing], results := s.results[w := value])
    case TimeOut(_, value) =>
      s.(phase := s.phase[w := Finishing], results := s.results[w := value], orphans := s.orphans + {w})
    case OrphanEnds(_) => s.(orphans := s.orphans - {w})
    case GiveBack(_) =>
      if !pool.gated then s.(phase := s.phase[w := Freed])
      else
        var (gate, woken) := Release(s.gate, pool.foreground);
        s.(phase := Signal(s.phase[w := Freed], woken), gate := gate)
    case Free(_) => s.(phase := s.phase[w := Done], sem := s.sem[w.pool := s.sem[w.pool] - 1])
  }

  // ---------------------------------------------------------------------------------------------
  // The invariant.

  predicate HasSlot(ph: Phase) {
    !ph.Launched? && !ph.Done?
  }

  predicate HasCharge(ph: Phase) {
    ph.Signalled? || ph.Running? || ph.Finishing?
  }

  // The workers of pool p that hold one of its tokens.
  function Slots(phase: map<Worker, Phase>, p: nat): set<Worker> {
    set w | w in phase && w.pool == p && HasSlot(phase[w])
  }

  predicate Gated(pools: seq<Pool>, w: Worker, foreground: bool) {
    w.pool < |pools| && pools[w.pool].gated && pools[w.pool].foreground == foreground
  }

  // The workers of one priority that hold a gate slot.
  function Charges(pools: seq<Pool>, phase: map<Worker, Phase>, foreground: bool): set<Worker> {
    set w | w in phase && Gated(pools, w, foreground) && HasCharge(phase[w])
  }

  // The queue holds exactly the waiting workers of its priority, each once.
  ghost predicate Queue(pools: seq<Pool>, phase: map<Worker, Phase>, q: seq<Worker>, foreground: bool) {
    && (forall i, j :: 0 <= i < j < |q| ==> q[i] != q[j])
    && (forall w :: w in q <==> w in phase && Gated(pools, w, foreground) && phase[w] == Waiting)
  }

  ghost predicate Tokens(pools: seq<Pool>, phase: map<Worker, Phase>, sem: seq<nat>, p: nat)
    requires p < |pools|
  {
    |sem| == |pools| && sem[p] == |Slots(phase, p)| <= pools[p].conc
  }

  ghost predicate AllTokens(pools: seq<Pool>, phase: map<Worker, Phase>, sem: seq<nat>) {
    |sem| == |pools| && forall p: nat :: p < |pools| ==> Tokens(pools, phase, sem, p)
  }

  ghost predicate GateInv(pools: seq<Pool>, phase: map<Worker, Phase>, gate: Gate<Worker>) {
    && Sound(gate)
    && gate.fgActive == |Charges(pools, phase, true)|
    && gate.active == gate.fgActive + |Charges(pools, phase, false)|
    && Queue(pools, phase, gate.fg, true) && Queue(pools, phase, gate.bg, false)
  }

  // The parts of the invariant that only follow one worker.
  ghost predicate Follows<R>(pools: seq<Pool>, s: State<R>) {
    && s.phase.Keys == Workers(pools)
    && (forall w :: w in s.phase && (s.phase[w].Waiting? || s.phase[w].Signalled?) ==> pools[w.pool].gated)
    && (forall w :: w in s.results <==>
         w in s.phase && (s.phase[w].Finishing? || s.phase[w].Freed? || s.phase[w].Done?))
  }

  ghost predicate Inv<R>(pools: seq<Pool>, cap: int, s: State<R>) {
    && Follows(pools, s) && AllTokens(pools, s.phase, s.sem)
    && s.gate.cap == (if cap < 1 then 1 else cap) && GateInv(pools, s.phase, s.gate)
  }

  lemma InitialInv<R>(pools: seq<Pool>, cap: int)
    ensures Inv(pools, cap, Initial<R>(pools, cap))
  {
    var s := Initial<R>(pools, cap);
    forall p: nat | p < |pools| ensures Tokens(pools, s.phase, s.sem, p) {
      assert Slots(s.phase, p) == {};
    }
    assert Charges(pools, s.phase, true) == {} && Charges(pools, s.phase, false) == {};
  }

  // How one worker's move changes who holds a token.
  lemma SlotsMove(phase: map<Worker, Phase>, w: Worker, ph: Phase, p: nat)
    requires w in phase
    ensures w.pool == p && !HasSlot(phase[w]) && HasSlot(ph) ==> |Slots(phase[w := ph], p)| == |Slots(phase, p)| + 1
    ensures w.pool == p && HasSlot(phase[w]) && !HasSlot(ph) ==> |Slots(phase[w := ph], p)| == |Slots(phase, p)| - 1
    ensures w.pool != p || HasSlot(phase[w]) == HasSlot(ph) ==> Slots(phase[w := ph], p) == Slots(phase, p)
  {
    var now, was := Slots(phase[w := ph], p), Slots(phase, p);
    forall v ensures v in now <==> if v == w then w.pool == p && HasSlot(ph) else v in was {
    }
    OneMore(was, now, w);
  }

  // Two sets that agree except perhaps on one element.
  lemma OneMore(was: set<Worker>, now: set<Worker>, w: Worker)
    requires forall v :: v != w ==> (v in was <==> v in now)
    ensures |now| == |was| + (if w in now then 1 else 0) - if w in was then 1 else 0
    ensures (w in now <==> w in was) ==> now == was
  {
    assert now == if w in now then (was - {w}) + {w} else was - {w};
    assert was == if w in was then (was - {w}) + {w} else was - {w};
  }

  // And who holds a gate slot.
  lemma ChargesMove(pools: seq<Pool>, phase: map<Worker, Phase>, w: Worker, ph: Phase, foreground: bool)
    requires w in phase
    ensures Gated(pools, w, foreground) && !HasCharge(phase[w]) && HasCharge(ph) ==>
      |Charges(pools, phase[w := ph], foreground)| == |Charges(pools, phase, foreground)| + 1
    ensures Gated(pools, w, foreground) && HasCharge(phase[w]) && !HasCharge(ph) ==>
      |Charges(pools, phase[w := ph], foreground)| == |Charges(pools, phase, foreground)| - 1
    ensures !Gated(pools, w, foreground) || HasCharge(phase[w]) == HasCharge(ph) ==>
      Charges(pools, phase[w := ph], foreground) == Charges(pools, phase, foreground)
  {
    var now, was := Charges(pools, phase[w := ph], foreground), Charges(pools, phase, foreground);
    forall v ensures v in now <==> if v == w then Gated(pools, w, foreground) && HasCharge(ph) else v in was {
    }
    OneMore(was, now, w);
  }

  lemma TokensMove(pools: seq<Pool>, phase: map<Worker, Phase>, sem: seq<nat>, w: Worker, ph: Phase, sem': seq<nat>)
    requires w in phase && w.pool < |pools| && AllTokens(pools, phase, sem)
    requires !HasSlot(phase[w]) && HasSlot(ph) ==>
      sem[w.pool] < pools[w.pool].conc && sem' == sem[w.pool := sem[w.pool] + 1]
    requires HasSlot(phase[w]) && !HasSlot(ph) ==> sem[w.pool] > 0 && sem' == sem[w.pool := sem[w.pool] - 1]
    requires HasSlot(phase[w]) == HasSlot(ph) ==> sem' == sem
    ensures AllTokens(pools, phase[w := ph], sem')
  {
    var phase' := phase[w := ph];
    forall p: nat | p < |pools| ensures Tokens(pools, phase', sem', p) {
      assert Tokens(pools, phase, sem, p) && Tokens(pools, phase, sem, w.pool);
      SlotsMove(phase, w, ph, p);
    }
  }

  // A move that neither waits nor holds a gate slot before or after leaves the gate's books alone.
  lemma GateUntouched(pools: seq<Pool>, phase: map<Worker, Phase>, gate: Gate<Worker>, w: Worker, ph: Phase)
    requires GateInv(pools, phase, gate) && w in phase && phase[w] != Waiting && ph != Waiting
    requires HasCharge(phase[w]) == HasCharge(ph) || !(w.pool < |pools| && pools[w.pool].gated)
    ensures GateInv(pools, phase[w := ph], gate)
  {
    ChargesMove(pools, phase, w, ph, true);
    ChargesMove(pools, phase, w, ph, false);
  }

  lemma GateAsked(pools: seq<Pool>, phase: map<Worker, Phase>, gate: Gate<Worker>, w: Worker)
    requires GateInv(pools, phase, gate) && w in phase && phase[w] == Slotted && w.pool < |pools| && pools[w.pool].gated
    ensures var fg := pools[w.pool].foreground;
      GateInv(pools, phase[w := if CanAdmit(gate, fg) then Running else Waiting], Request(gate, w, fg))
  {
    var fg := pools[w.pool].foreground;
    var ph := if CanAdmit(gate, fg) then Running else Waiting;
    RequestIsSound(gate, w, fg);
    ChargesMove(pools, phase, w, ph, true);
    ChargesMove(pools, phase, w, ph, false);
    assert Gated(pools, w, fg) && !Gated(pools, w, !fg);
  }

  lemma HolderHolds(pools: seq<Pool>, phase: map<Worker, Phase>, gate: Gate<Worker>, w: Worker)
    requires GateInv(pools, phase, gate) && w in phase && HasCharge(phase[w]) && w.pool < |pools| && pools[w.pool].gated
    ensures Holds(gate, pools[w.pool].foreground)
  {
    assert w in Charges(pools, phase, pools[w.pool].foreground);
  }

  // The worker at the head of a queue gets the slot another one returns.
  lemma GateHandedOn(pools: seq<Pool>, phase: map<Worker, Phase>, gate: Gate<Worker>, w: Worker, v: Worker, fg: bool)
    requires GateInv(pools, phase, gate) && w in phase && phase[w] == Finishing && w.pool < |pools|
      && pools[w.pool].gated
    requires Holds(gate, pools[w.pool].foreground)
    requires if fg then |gate.fg| > 0 && v == gate.fg[0] else |gate.fg| == 0 && |gate.bg| > 0 && v == gate.bg[0]
    ensures v in phase && v != w && phase[v] == Waiting
    ensures GateInv(pools, phase[w := Freed][v := Signalled], Release(gate, pools[w.pool].foreground).0)
  {
    ReleaseWakesTheHead(gate, pools[w.pool].foreground);
    var q := if fg then gate.fg else gate.bg;
    assert v == q[0] && v in q;
    var phase1 := phase[w := Freed];
    ChargesMove(pools, phase, w, Freed, true);
    ChargesMove(pools, phase, w, Freed, false);
    ChargesMove(pools, phase1, v, Signalled, true);
    ChargesMove(pools, phase1, v, Signalled, false);
    QueueShrinks(pools, phase, q, fg, w, v);
    QueueKept(pools, phase, if fg then gate.bg else gate.fg, !fg, w, v);
  }

  lemma QueueShrinks(pools: seq<Pool>, phase: map<Worker, Phase>, q: seq<Worker>, fg: bool, w: Worker, v: Worker)
    requires Queue(pools, phase, q, fg) && |q| > 0 && v == q[0] && w in phase && phase[w] != Waiting
    ensures Queue(pools, phase[w := Freed][v := Signalled], q[1..], fg)
  {
    assert q == [q[0]] + q[1..];
    assert forall i :: 0 <= i < |q| - 1 ==> q[1..][i] == q[i + 1];
  }

  lemma QueueKept(pools: seq<Pool>, phase: map<Worker, Phase>, q: seq<Worker>, fg: bool, w: Worker, v: Worker)
    requires Queue(pools, phase, q, fg) && !Gated(pools, v, fg) && w in phase && phase[w] != Waiting
    ensures Queue(pools, phase[w := Freed][v := Signalled], q, fg)
  {
  }

  lemma GateReturned(pools: seq<Pool>, phase: map<Worker, Phase>, gate: Gate<Worker>, w: Worker)
    requires GateInv(pools, phase, gate) && w in phase && phase[w] == Finishing && w.pool < |pools|
      && pools[w.pool].gated
    requires Holds(gate, pools[w.pool].foreground) && |gate.fg| == 0 && |gate.bg| == 0
    ensures GateInv(pools, phase[w := Freed], Release(gate, pools[w.pool].foreground).0)
  {
    ReleaseWakesTheHead(gate, pools[w.pool].foreground);
    ChargesMove(pools, phase, w, Freed, true);
    ChargesMove(pools, phase, w, Freed, false);
  }

  lemma FollowsOne<R>(pools: seq<Pool>, s: State<R>, w: Worker, ph: Phase, s': State<R>)
    requires Follows(pools, s) && w in s.phase && s'.phase == s.phase[w := ph]
    requires ph.Waiting? || ph.Signalled? ==> pools[w.pool].gated
    requires forall v :: v in s'.results <==>
      if v == w then ph.Finishing? || ph.Freed? || ph.Done? else v in s.results
    ensures Follows(pools, s')
  {
  }

  lemma PlainInv<R>(pools: seq<Pool>, cap: int, s: State<R>, step: Step<R>)
    requires Inv(pools, cap, s) && Enabled(pools, s, step) && !step.GiveBack? && !step.Ask?
    ensures Inv(pools, cap, Apply(pools, s, step))
  {
    var s', w := Apply(pools, s, step), step.w;
    if !step.OrphanEnds? {
      PlainFollows(pools, s, step);
      TokensMove(pools, s.phase, s.sem, w, s'.phase[w], s'.sem);
      GateUntouched(pools, s.phase, s.gate, w, s'.phase[w]);
    }
  }

  lemma PlainFollows<R>(pools: seq<Pool>, s: State<R>, step: Step<R>)
    requires Follows(pools, s) && Enabled(pools, s, step) && !step.GiveBack? && !step.Ask?
    ensures Follows(pools, Apply(pools, s, step))
  {
    var s', w := Apply(pools, s, step), step.w;
    if !step.OrphanEnds? {
      FollowsOne(pools, s, w, s'.phase[w], s');
    }
  }

  lemma AskInv<R>(pools: seq<Pool>, cap: int, s: State<R>, step: Step<R>)
    requires Inv(pools, cap, s) && Enabled(pools, s, step) && step.Ask?
    ensures Inv(pools, cap, Apply(pools, s, step))
  {
    var s', w := Apply(pools, s, step), step.w;
    FollowsOne(pools, s, w, s'.phase[w], s');
    TokensMove(pools, s.phase, s.sem, w, s'.phase[w], s'.sem);
    if pools[w.pool].gated {
      GateAsked(pools, s.phase, s.gate, w);
    } else {
      GateUntouched(pools, s.phase, s.gate, w, Running);
    }
  }

  lemma GiveBackInv<R>(pools: seq<Pool>, cap: int, s: State<R>, step: Step<R>)
    requires Inv(pools, cap, s) && Enabled(pools, s, step) && step.GiveBack?
    ensures Inv(pools, cap, Apply(pools, s, step))
  {
    var s', w := Apply(pools, s, step), step.w;
    var mid := s.(phase := s.phase[w := Freed]);
    FollowsOne(pools, s, w, Freed, mid);
    TokensMove(pools, s.phase, s.sem, w, Freed, s.sem);
    if !pools[w.pool].gated {
      GateUntouched(pools, s.phase, s.gate, w, Freed);
    } else {
      HolderHolds(pools, s.phase, s.gate, w);
      ReleaseWakesTheHead(s.gate, pools[w.pool].foreground);
      if |s.gate.fg| + |s.gate.bg| == 0 {
        GateReturned(pools, s.phase, s.gate, w);
      } else {
        HandOnInv(pools, cap, s, mid, w);
      }
    }
  }

  // The head of a queue, foreground first.
  function Head(g: Gate<Worker>): Worker
    requires |g.fg| + |g.bg| > 0
  {
    if |g.fg| > 0 then g.fg[0] else g.bg[0]
  }

  lemma HandsOn<R>(pools: seq<Pool>, s: State<R>, w: Worker)
    requires Enabled(pools, s, GiveBack(w)) && pools[w.pool].gated && Sound(s.gate)
    requires Holds(s.gate, pools[w.pool].foreground) && |s.gate.fg| + |s.gate.bg| > 0
    ensures Apply(pools, s, GiveBack(w)) ==
      s.(phase := s.phase[w := Freed][Head(s.gate) := Signalled], gate := Release(s.gate, pools[w.pool].foreground).0)
  {
    ReleaseWakesTheHead(s.gate, pools[w.pool].foreground);
    assert Release(s.gate, pools[w.pool].foreground).1 == [Head(s.gate)];
    assert Signal(s.phase[w := Freed], [Head(s.gate)]) == s.phase[w := Freed][Head(s.gate) := Signalled];
  }

  lemma HandOnInv<R>(pools: seq<Pool>, cap: int, s: State<R>, mid: State<R>, w: Worker)
    requires Inv(pools, cap, s) && Enabled(pools, s, GiveBack(w)) && pools[w.pool].gated
    requires Holds(s.gate, pools[w.pool].foreground) && |s.gate.fg| + |s.gate.bg| > 0
    requires mid == s.(phase := s.phase[w := Freed]) && Follows(pools, mid) && AllTokens(pools, mid.phase, mid.sem)
    ensures Inv(pools, cap, Apply(pools, s, GiveBack(w)))
  {
    var v, gate := Head(s.gate), Release(s.gate, pools[w.pool].foreground).0;
    HandsOn(pools, s, w);
    ReleaseWakesTheHead(s.gate, pools[w.pool].foreground);
    GateHandedOn(pools, s.phase, s.gate, w, v, |s.gate.fg| > 0);
    FollowsOne(pools, mid, v, Signalled, mid.(phase := mid.phase[v := Signalled], gate := gate));
    TokensMove(pools, mid.phase, mid.sem, v, Signalled, mid.sem);
  }

  // Every step of every worker keeps the books.
  lemma InvStep<R>(pools: seq<Pool>, cap: int, s: State<R>, step: Step<R>)
    requires Inv(pools, cap, s) && Enabled(pools, s, step)
    ensures Inv(pools, cap, Apply(pools, s, step))
  {
    if step.GiveBack? {
      GiveBackInv(pools, cap, s, step);
    } else if step.Ask? {
      AskInv(pools, cap, s, step);
    } else {
      PlainInv(pools, cap, s, step);
    }
  }
}
