// The index gate over whole runs of callers that ask, finish and give up: first come, first served within each
// class, and nobody who gave up in the queue is ever signalled.
module GateRuns {
  import opened Gates

  // What a caller does: asks for a slot with a new ticket, gives its slot back, or withdraws while queued.
  datatype Op<T> = Ask(t: T, foreground: bool) | Finish(foreground: bool) | GiveUp(t: T, foreground: bool)

  // The gate, and as history: all tickets so far, those of each class that were queued and did not give up, in
  // the order in which they came, and those of each class that were signalled, in the order of the signals.
  datatype History<T> = History(gate: Gate<T>, seen: set<T>, fgCame: seq<T>, bgCame: seq<T>,
                                fgServed: seq<T>, bgServed: seq<T>)

  function Opened<T>(cap: int): History<T> {
    History(New(cap), {}, [], [], [], [])
  }

  predicate Possible<T(==)>(h: History<T>, op: Op<T>) {
    match op
    case Ask(t, _) => t !in h.seen
    case Finish(foreground) => Holds(h.gate, foreground)
    case GiveUp(t, foreground) => t in (if foreground then h.gate.fg else h.gate.bg)
  }

  // The tickets of `woken` that waited in q.
  function Among<T(==)>(woken: seq<T>, q: seq<T>): seq<T> {
    if woken == [] then [] else (if woken[0] in q then [woken[0]] else []) + Among(woken[1..], q)
  }

  // All but t.
  function Except<T(==)>(q: seq<T>, t: T): seq<T> {
    if q == [] then [] else (if q[0] != t then [q[0]] else []) + Except(q[1..], t)
  }

  function After<T(==)>(h: History<T>, op: Op<T>): History<T>
    requires Possible(h, op)
  {
    match op
    case Ask(t, foreground) =>
      var queued := !CanAdmit(h.gate, foreground);
      h.(gate := Request(h.gate, t, foreground), seen := h.seen + {t},
         fgCame := if queued && foreground then h.fgCame + [t] else h.fgCame,
         bgCame := if queued && !foreground then h.bgCame + [t] else h.bgCame)
    case Finish(foreground) =>
      var (g, woken) := Release(h.gate, foreground);
      h.(gate := g, fgServed := h.fgServed + Among(woken, h.gate.fg), bgServed := h.bgServed + Among(woken, h.gate.bg))
    case GiveUp(t, foreground) =>
      h.(gate := Withdraw(h.gate, t, foreground),
         fgCame := if foreground then Except(h.fgCame, t) else h.fgCame,
         bgCame := if foreground then h.bgCame else Except(h.bgCame, t))
  }

  predicate Runs<T(==)>(h: History<T>, ops: seq<Op<T>>)
    decreases |ops|
  {
    ops == [] || (Possible(h, ops[0]) && Runs(After(h, ops[0]), ops[1..]))
  }

  function AfterAll<T(==)>(h: History<T>, ops: seq<Op<T>>): History<T>
    requires Runs(h, ops)
    decreases |ops|
  {
    if ops == [] then h else AfterAll(After(h, ops[0]), ops[1..])
  }

  // ---------------------------------------------------------------------------------------------
  // Withdrawing.

  predicate Distinct<T(==)>(q: seq<T>) {
    forall i, j :: 0 <= i < j < |q| ==> q[i] != q[j]
  }

  lemma {:induction false} ExceptSplits<T>(a: seq<T>, b: seq<T>, t: T)
    ensures Except(a + b, t) == Except(a, t) + Except(b, t)
  {
    if a == [] {
      assert a + b == b;
    } else {
      assert (a + b)[1..] == a[1..] + b;
      ExceptSplits(a[1..], b, t);
    }
  }

  lemma {:induction false} ExceptNone<T>(q: seq<T>, t: T)
    requires t !in q
    ensures Except(q, t) == q
  {
    if q != [] {
      assert q == [q[0]] + q[1..];
      ExceptNone(q[1..], t);
    }
  }

  lemma {:induction false} FirstIndex<T>(q: seq<T>, t: T) returns (i: nat)
    requires t in q
    ensures i < |q| && q[i] == t && t !in q[..i]
  {
    if q[0] == t {
      i := 0;
    } else {
      assert q == [q[0]] + q[1..];
      var j := FirstIndex(q[1..], t);
      i := j + 1;
      assert q[..i] == [q[0]] + q[1..][..j];
    }
  }

  // A caller that gives up while queued leaves its queue with exactly its own place removed, and in no other
  // way is the gate changed.
  lemma WithdrawRemoves<T>(g: Gate<T>, t: T, foreground: bool) returns (i: nat)
    requires t in (if foreground then g.fg else g.bg)
    ensures var q, g' := if foreground then g.fg else g.bg, Withdraw(g, t, foreground);
      && i < |q| && q[i] == t && t !in q[..i]
      && (if foreground then g'.fg else g'.bg) == q[..i] + q[i + 1..]
      && (if foreground then g'.bg == g.bg else g'.fg == g.fg)
      && g'.cap == g.cap && g'.active == g.active && g'.fgActive == g.fgActive
    ensures var q, g' := if foreground then g.fg else g.bg, Withdraw(g, t, foreground);
      Distinct(q) ==> t !in (if foreground then g'.fg else g'.bg)
  {
    var q := if foreground then g.fg else g.bg;
    i := FirstIndex(q, t);
    WithoutSplits(q, t, i);
  }

  // For distinct tickets removing the first is removing all.
  lemma WithoutIsExcept<T>(q: seq<T>, t: T)
    requires Distinct(q) && t in q
    ensures Without(q, t) == Except(q, t)
  {
    var i := FirstIndex(q, t);
    WithoutSplits(q, t, i);
    var a, b := q[..i], q[i + 1..];
    assert q == a + ([t] + b);
    ExceptSplits(a, [t] + b, t);
    ExceptNone(a, t);
    assert ([t] + b)[1..] == b;
    forall k | 0 <= k < |b| ensures b[k] != t {
      assert b[k] == q[i + 1 + k];
    }
    ExceptNone(b, t);
  }

  // ---------------------------------------------------------------------------------------------
  // First come, first served.

  // The tickets waiting are distinct, were all seen, and have not been served.
  ghost predicate Lined<T>(fg: seq<T>, bg: seq<T>, served: seq<T>, seen: set<T>) {
    && Distinct(fg) && Distinct(bg)
    && (forall t :: t in fg ==> t in seen && t !in bg && t !in served)
    && (forall t :: t in bg ==> t in seen && t !in served)
    && (forall t :: t in served ==> t in seen)
  }

  ghost predicate Waiting<T>(h: History<T>) {
    Sound(h.gate) && Lined(h.gate.fg, h.gate.bg, h.fgServed + h.bgServed, h.seen)
  }

  // Of each class, those served are the first of those that came and stayed, in order; the rest still wait, in
  // order.
  ghost predicate InTurn<T>(h: History<T>) {
    h.fgCame == h.fgServed + h.gate.fg && h.bgCame == h.bgServed + h.gate.bg
  }

  lemma AskKeeps<T>(h: History<T>, op: Op<T>)
    requires Waiting(h) && InTurn(h) && Possible(h, op) && op.Ask?
    ensures Waiting(After(h, op)) && InTurn(After(h, op))
  {
    RequestIsSound(h.gate, op.t, op.foreground);
  }

  lemma AmongOne<T>(t: T, q: seq<T>)
    ensures Among([t], q) == (if t in q then [t] else []) && Among([], q) == []
  {
    assert [t][1..] == [];
  }

  // What a release does: it serves the head of the foreground queue, else that of the background queue.
  lemma FinishServes<T>(h: History<T>, foreground: bool)
    requires Waiting(h) && Holds(h.gate, foreground)
    ensures var h', g := After(h, Finish(foreground)), h.gate;
      && Sound(h'.gate) && h'.seen == h.seen && h'.fgCame == h.fgCame && h'.bgCame == h.bgCame
      && h'.gate.fg == (if |g.fg| > 0 then g.fg[1..] else g.fg)
      && h'.gate.bg == (if |g.fg| == 0 && |g.bg| > 0 then g.bg[1..] else g.bg)
      && h'.fgServed == h.fgServed + (if |g.fg| > 0 then [g.fg[0]] else [])
      && h'.bgServed == h.bgServed + (if |g.fg| == 0 && |g.bg| > 0 then [g.bg[0]] else [])
  {
    var g := h.gate;
    ReleaseWakesTheHead(g, foreground);
    if |g.fg| > 0 {
      AmongOne(g.fg[0], g.fg);
      AmongOne(g.fg[0], g.bg);
    } else if |g.bg| > 0 {
      AmongOne(g.bg[0], g.fg);
      AmongOne(g.bg[0], g.bg);
    }
  }

  lemma ServeForeground<T>(fg: seq<T>, bg: seq<T>, served: seq<T>, seen: set<T>, served': seq<T>)
    requires Lined(fg, bg, served, seen) && fg != []
    requires forall t :: t in served' <==> t in served || t == fg[0]
    ensures Lined(fg[1..], bg, served', seen) && fg == [fg[0]] + fg[1..]
  {
    assert forall k :: 0 <= k < |fg[1..]| ==> fg[1..][k] == fg[k + 1];
  }

  lemma ServeBackground<T>(fg: seq<T>, bg: seq<T>, served: seq<T>, seen: set<T>, served': seq<T>)
    requires Lined(fg, bg, served, seen) && bg != []
    requires forall t :: t in served' <==> t in served || t == bg[0]
    ensures Lined(fg, bg[1..], served', seen) && bg == [bg[0]] + bg[1..]
  {
    assert forall k :: 0 <= k < |bg[1..]| ==> bg[1..][k] == bg[k + 1];
  }

  lemma PassOn<T>(served: seq<T>, q: seq<T>)
    requires q != []
    ensures (served + [q[0]]) + q[1..] == served + q
  {
  }

  lemma FinishInTurn<T>(h: History<T>, foreground: bool)
    requires Waiting(h) && InTurn(h) && Holds(h.gate, foreground)
    ensures InTurn(After(h, Finish(foreground)))
  {
    FinishServes(h, foreground);
    if |h.gate.fg| > 0 {
      PassOn(h.fgServed, h.gate.fg);
    } else if |h.gate.bg| > 0 {
      PassOn(h.bgServed, h.gate.bg);
    }
  }

  lemma ServedMore<T>(a: seq<T>, b: seq<T>, x: T)
    ensures forall t :: t in (a + [x]) + b <==> t in a + b || t == x
    ensures forall t :: t in a + (b + [x]) <==> t in a + b || t == x
  {
  }

  lemma FinishKeeps<T>(h: History<T>, op: Op<T>)
    requires Waiting(h) && InTurn(h) && Possible(h, op) && op.Finish?
    ensures Waiting(After(h, op)) && InTurn(After(h, op))
  {
    var fg, bg, served := h.gate.fg, h.gate.bg, h.fgServed + h.bgServed;
    var served' := After(h, op).fgServed + After(h, op).bgServed;
    FinishServes(h, op.foreground);
    FinishInTurn(h, op.foreground);
    if |fg| > 0 {
      ServedMore(h.fgServed, h.bgServed, fg[0]);
      ServeForeground(fg, bg, served, h.seen, served');
    } else if |bg| > 0 {
      ServedMore(h.fgServed, h.bgServed, bg[0]);
      ServeBackground(fg, bg, served, h.seen, served');
    }
  }

  // Removing one ticket keeps the rest lined up.
  lemma RemovedOne<T>(q: seq<T>, i: nat)
    requires Distinct(q) && i < |q|
    ensures Distinct(q[..i] + q[i + 1..])
    ensures forall t :: t in q[..i] + q[i + 1..] <==> t in q && t != q[i]
  {
    var rest := q[..i] + q[i + 1..];
    assert forall k :: 0 <= k < |rest| ==> rest[k] == if k < i then q[k] else q[k + 1];
    assert forall k :: 0 <= k < |q| && k != i ==> q[k] == rest[if k < i then k else k - 1];
  }

  lemma GiveUpKeeps<T>(h: History<T>, op: Op<T>)
    requires Waiting(h) && InTurn(h) && Possible(h, op) && op.GiveUp?
    ensures Waiting(After(h, op)) && InTurn(After(h, op)) && Out(After(h, op), op.t)
  {
    var q, served := if op.foreground then h.gate.fg else h.gate.bg, if op.foreground then h.fgServed else h.bgServed;
    WithdrawIsSound(h.gate, op.t, op.foreground);
    WithoutIsExcept(q, op.t);
    ExceptSplits(served, q, op.t);
    ExceptNone(served, op.t);
    var i := WithdrawRemoves(h.gate, op.t, op.foreground);
    RemovedOne(q, i);
  }

  lemma StepKeeps<T>(h: History<T>, op: Op<T>)
    requires Waiting(h) && InTurn(h) && Possible(h, op)
    ensures Waiting(After(h, op)) && InTurn(After(h, op))
  {
    match op
    case Ask(_, _) => AskKeeps(h, op);
    case Finish(_) => FinishKeeps(h, op);
    case GiveUp(_, _) => GiveUpKeeps(h, op);
  }

  lemma {:induction false} FirstComeFirstServed<T>(h: History<T>, ops: seq<Op<T>>)
    requires Waiting(h) && InTurn(h) && Runs(h, ops)
    ensures Waiting(AfterAll(h, ops)) && InTurn(AfterAll(h, ops))
    decreases |ops|
  {
    if ops != [] {
      StepKeeps(h, ops[0]);
      FirstComeFirstServed(After(h, ops[0]), ops[1..]);
    }
  }

  // From the start, in every run.
  lemma ServedInTurn<T>(cap: int, ops: seq<Op<T>>)
    requires Runs(Opened(cap), ops)
    ensures Sound(AfterAll(Opened(cap), ops).gate) && InTurn(AfterAll(Opened(cap), ops))
  {
    FirstComeFirstServed(Opened(cap), ops);
  }

  // ---------------------------------------------------------------------------------------------
  // Who gave up stays out.

  ghost predicate Out<T>(h: History<T>, t: T) {
    t in h.seen && t !in h.gate.fg && t !in h.gate.bg && t !in h.fgServed && t !in h.bgServed
  }

  lemma OutStays<T>(h: History<T>, op: Op<T>, t: T)
    requires Waiting(h) && Possible(h, op) && Out(h, t)
    ensures Out(After(h, op), t)
  {
    match op
    case Ask(_, _) =>
    case Finish(foreground) =>
      FinishServes(h, foreground);
    case GiveUp(u, foreground) =>
      var i := WithdrawRemoves(h.gate, u, foreground);
  }

  lemma {:induction false} OutForGood<T>(h: History<T>, ops: seq<Op<T>>, t: T)
    requires Waiting(h) && InTurn(h) && Runs(h, ops) && Out(h, t)
    ensures Out(AfterAll(h, ops), t)
    decreases |ops|
  {
    if ops != [] {
      OutStays(h, ops[0], t);
      StepKeeps(h, ops[0]);
      OutForGood(After(h, ops[0]), ops[1..], t);
    }
  }

  // A caller that gave up while queued is signalled by no later release, in any run.
  lemma NeverSignalled<T>(cap: int, before: seq<Op<T>>, t: T, foreground: bool, later: seq<Op<T>>)
    requires Runs(Opened(cap), before) && Possible(AfterAll(Opened(cap), before), GiveUp(t, foreground))
    requires Runs(After(AfterAll(Opened(cap), before), GiveUp(t, foreground)), later)
    ensures var h := AfterAll(After(AfterAll(Opened(cap), before), GiveUp(t, foreground)), later);
      t !in h.gate.fg && t !in h.gate.bg && t !in h.fgServed && t !in h.bgServed
  {
    var h := AfterAll(Opened(cap), before);
    FirstComeFirstServed(Opened(cap), before);
    GiveUpKeeps(h, GiveUp(t, foreground));
    OutForGood(After(h, GiveUp(t, foreground)), later, t);
  }
}
