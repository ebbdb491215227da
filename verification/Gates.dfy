// The daemon-wide index gate: a counting semaphore with a foreground and a background queue.
module Gates {
  // One value of the gate's fields. A ticket is the identity of a waiting caller's channel.
  datatype Gate<T> = Gate(cap: nat, active: nat, fgActive: nat, fg: seq<T>, bg: seq<T>)

  function New<T>(cap: int): Gate<T> {
    Gate(if cap < 1 then 1 else cap, 0, 0, [], [])
  }

  function Reserve<T>(g: Gate<T>): nat {
    if g.cap >= 2 then 1 else 0
  }

  // May a caller of this priority take a slot now? A background caller leaves the reserve alone if a foreground
  // one waits.
  predicate CanAdmit<T>(g: Gate<T>, foreground: bool) {
    g.active < g.cap - if !foreground && |g.fg| > 0 then Reserve(g) else 0
  }

  function Charge<T>(g: Gate<T>, foreground: bool): Gate<T> {
    g.(active := g.active + 1, fgActive := g.fgActive + if foreground then 1 else 0)
  }

  function Enqueue<T>(g: Gate<T>, t: T, foreground: bool): Gate<T> {
    if foreground then g.(fg := g.fg + [t]) else g.(bg := g.bg + [t])
  }

  // A caller either gets a slot or a place in its queue.
  function Request<T>(g: Gate<T>, t: T, foreground: bool): Gate<T> {
    if CanAdmit(g, foreground) then Charge(g, foreground) else Enqueue(g, t, foreground)
  }

  function WakeForeground<T>(g: Gate<T>): (Gate<T>, seq<T>)
    decreases |g.fg|
  {
    if |g.fg| > 0 && g.active < g.cap then
      var (g', woken) := WakeForeground(Charge(g.(fg := g.fg[1..]), true));
      (g', [g.fg[0]] + woken)
    else (g, [])
  }

  function WakeBackground<T>(g: Gate<T>): (Gate<T>, seq<T>)
    decreases |g.bg|
  {
    if |g.bg| > 0 && CanAdmit(g, false) then
      var (g', woken) := WakeBackground(Charge(g.(bg := g.bg[1..]), false));
      (g', [g.bg[0]] + woken)
    else (g, [])
  }

  // Promotes waiters into free slots; the result also lists them, in order.
  function Wake<T>(g: Gate<T>): (Gate<T>, seq<T>) {
    var (g1, first) := WakeForeground(g);
    var (g2, second) := WakeBackground(g1);
    (g2, first + second)
  }

  function Discharge<T>(g: Gate<T>, foreground: bool): Gate<T> {
    g.(active := if g.active > 0 then g.active - 1 else 0,
       fgActive := if foreground && g.fgActive > 0 then g.fgActive - 1 else g.fgActive)
  }

  function Release<T>(g: Gate<T>, foreground: bool): (Gate<T>, seq<T>) {
    Wake(Discharge(g, foreground))
  }

  function Without<T(==)>(q: seq<T>, t: T): seq<T> {
    if q == [] then [] else if q[0] == t then q[1..] else [q[0]] + Without(q[1..], t)
  }

  // `rest` is q without the first place that t has in it.
  ghost predicate Removed<T>(q: seq<T>, t: T, rest: seq<T>) {
    exists i: nat :: i < |q| && q[i] == t && t !in q[..i] && rest == q[..i] + q[i + 1..]
  }

  function Withdraw<T(==)>(g: Gate<T>, t: T, foreground: bool): Gate<T> {
    if foreground then g.(fg := Without(g.fg, t)) else g.(bg := Without(g.bg, t))
  }

  // The slots are bounded, and nobody waits while one is free.
  predicate Sound<T>(g: Gate<T>) {
    && 1 <= g.cap && g.fgActive <= g.active <= g.cap
    && (|g.fg| + |g.bg| > 0 ==> g.active == g.cap)
  }

  // A holder's release is paired with its acquisition.
  predicate Holds<T>(g: Gate<T>, foreground: bool) {
    if foreground then g.fgActive > 0 else g.active > g.fgActive
  }

  lemma {:induction false} WithoutSplits<T>(q: seq<T>, t: T, i: nat)
    requires i < |q| && q[i] == t && t !in q[..i]
    ensures Without(q, t) == q[..i] + q[i + 1..]
  {
    if i > 0 {
      assert q[0] == q[..i][0] && q[1..][..i - 1] == q[..i][1..] && q[1..][i..] == q[i + 1..];
      WithoutSplits(q[1..], t, i - 1);
      assert q[..i] == [q[0]] + q[..i][1..];
    }
  }

  lemma RequestIsSound<T>(g: Gate<T>, t: T, foreground: bool)
    requires Sound(g)
    ensures Sound(Request(g, t, foreground)) && Request(g, t, foreground).cap == g.cap
  {
  }

  // In every sound state the reserve makes no difference: while a foreground caller waits there is no slot to
  // keep from the background.
  lemma ReserveNeverBinds<T>(g: Gate<T>)
    requires Sound(g)
    ensures CanAdmit(g, false) == CanAdmit(g, true)
  {
  }

  // A released slot goes to the longest waiting foreground caller, else to the longest waiting background one,
  // and to nobody else; with nobody waiting it stays free.
  lemma ReleaseWakesTheHead<T>(g: Gate<T>, foreground: bool)
    requires Sound(g) && Holds(g, foreground)
    ensures Release(g, foreground) ==
      var d := Discharge(g, foreground);
      if |g.fg| > 0 then (Charge(d.(fg := g.fg[1..]), true), [g.fg[0]])
      else if |g.bg| > 0 then (Charge(d.(bg := g.bg[1..]), false), [g.bg[0]])
      else (d, [])
    ensures Sound(Release(g, foreground).0)
  {
    var d := Discharge(g, foreground);
    if |g.fg| > 0 {
      var d' := Charge(d.(fg := g.fg[1..]), true);
      assert WakeForeground(d') == (d', []) && WakeBackground(d') == (d', []);
      assert WakeForeground(d).0 == d' && WakeForeground(d).1 == [g.fg[0]] + [] == [g.fg[0]];
      assert Wake(d).0 == d' && Wake(d).1 == [g.fg[0]] + [] == [g.fg[0]];
    } else if |g.bg| > 0 {
      var d' := Charge(d.(bg := g.bg[1..]), false);
      assert WakeForeground(d) == (d, []) && WakeBackground(d') == (d', []);
      assert WakeBackground(d).0 == d' && WakeBackground(d).1 == [g.bg[0]] + [] == [g.bg[0]];
      assert Wake(d).0 == d' && Wake(d).1 == [] + [g.bg[0]] == [g.bg[0]];
    } else {
      assert WakeForeground(d) == (d, []) && WakeBackground(d) == (d, []);
      assert Wake(d).0 == d && Wake(d).1 == [] + [] == [];
    }
  }

  lemma {:induction false} WithoutShorter<T>(q: seq<T>, t: T)
    requires t in q
    ensures |Without(q, t)| == |q| - 1
  {
    if q[0] != t {
      assert q == [q[0]] + q[1..];
      WithoutShorter(q[1..], t);
    }
  }

  // A caller that gives up while queued leaves no trace: no slot was charged to it.
  lemma WithdrawIsSound<T>(g: Gate<T>, t: T, foreground: bool)
    requires Sound(g) && t in (if foreground then g.fg else g.bg)
    ensures Sound(Withdraw(g, t, foreground))
    ensures Withdraw(g, t, foreground).active == g.active && Withdraw(g, t, foreground).fgActive == g.fgActive
  {
    WithoutShorter(if foreground then g.fg else g.bg, t);
  }

  // A caller that gives up after it was signalled hands the slot on: the gate is as if it had run and finished.
  lemma SignalledCancelHandsOn<T>(g: Gate<T>, foreground: bool)
    requires Sound(g) && Holds(g, foreground) && |g.fg| + |g.bg| > 0
    ensures |Release(g, foreground).1| == 1 && Release(g, foreground).0.active == g.active
  {
    ReleaseWakesTheHead(g, foreground);
  }

  function BackgroundStorm<T>(cap: int, tickets: seq<T>): Gate<T> {
    if tickets == [] then New(cap)
    else Request(BackgroundStorm(cap, tickets[..|tickets| - 1]), tickets[|tickets| - 1], false)
  }

  // A background storm does take every slot: the reserve is no slot set aside.
  lemma {:induction false} StormTakesEverySlot<T>(cap: int, tickets: seq<T>)
    requires 1 <= cap && |tickets| <= cap
    ensures BackgroundStorm(cap, tickets) == Gate(cap, |tickets|, 0, [], [])
    ensures |tickets| == cap ==> !CanAdmit(BackgroundStorm(cap, tickets), true)
  {
    if tickets != [] {
      StormTakesEverySlot(cap, tickets[..|tickets| - 1]);
    }
  }

  // ---------------------------------------------------------------------------------------------

  // A waking loop part-way: what it will have woken in all, what is left to wake, and who is signalled.
  ghost predicate WokenSoFar<T>(all: (Gate<T>, seq<T>), rest: (Gate<T>, seq<T>), before: seq<T>, signalled: seq<T>) {
    all.0 == rest.0 && before + all.1 == signalled + rest.1
  }

  lemma WakeNobody<T>(all: (Gate<T>, seq<T>))
    ensures forall before: seq<T> :: WokenSoFar(all, all, before, before)
  {
  }

  lemma WokenMore<T>(all: (Gate<T>, seq<T>), rest: (Gate<T>, seq<T>), before: seq<T>, signalled: seq<T>, t: T)
    requires WokenSoFar(all, rest, before, signalled) && |rest.1| > 0 && rest.1[0] == t
    ensures WokenSoFar(all, (rest.0, rest.1[1..]), before, signalled + [t])
  {
    assert rest.1 == [t] + rest.1[1..];
    assert signalled + ([t] + rest.1[1..]) == (signalled + [t]) + rest.1[1..];
  }

  class IndexGate<T(==)> {
    const cap: nat
    var active: nat
    var fgActive: nat
    var fg: seq<T>
    var bg: seq<T>
    // Tickets whose channel has been closed.
    var signalled: seq<T>

    function Value(): Gate<T>
      reads this
    {
      Gate(cap, active, fgActive, fg, bg)
    }

    constructor (n: int)
      ensures Value() == New(n) && Sound(Value()) && signalled == []
    {
      cap := if n < 1 then 1 else n;
      active, fgActive, fg, bg, signalled := 0, 0, [], [], [];
    }

    function ReserveForForeground(): nat
      reads this
    {
      if cap >= 2 then 1 else 0
    }

    method CanAdmitLocked(foreground: bool) returns (ok: bool)
      ensures ok == CanAdmit(Value(), foreground)
    {
      var limit: int := cap;
      if !foreground {
        if |fg| > 0 {
          limit := limit - ReserveForForeground();
        }
      }
      ok := active < limit;
    }

    // The first half of Acquire: a slot at once, or a place in the queue.
    method Enter(ticket: T, foreground: bool) returns (admitted: bool)
      requires Sound(Value())
      modifies this
      ensures Value() == Request(old(Value()), ticket, foreground) && admitted == CanAdmit(old(Value()), foreground)
      ensures Sound(Value()) && signalled == old(signalled)
    {
      RequestIsSound(Value(), ticket, foreground);
      admitted := CanAdmitLocked(foreground);
      if admitted {
        active := active + 1;
        if foreground {
          fgActive := fgActive + 1;
        }
        return;
      }
      if foreground {
        fg := fg + [ticket];
      } else {
        bg := bg + [ticket];
      }
    }

    method WakeLocked()
      modifies this
      ensures (Value(), signalled) == var (g, woken) := Wake(old(Value())); (g, old(signalled) + woken)
    {
      ghost var g0, before := Value(), signalled;
      WakeNobody(WakeForeground(g0));
      while |fg| > 0 && active < cap
        invariant WokenSoFar(WakeForeground(g0), WakeForeground(Value()), before, signalled)
        decreases |fg|
      {
        var t := fg[0];
        WokenMore(WakeForeground(g0), WakeForeground(Value()), before, signalled, t);
        fg, active, fgActive := fg[1..], active + 1, fgActive + 1;
        signalled := signalled + [t];
      }
      ghost var g1, between := Value(), signalled;
      WakeNobody(WakeBackground(g1));
      while |bg| > 0 && active < cap - if |fg| > 0 then ReserveForForeground() else 0
        invariant WokenSoFar(WakeBackground(g1), WakeBackground(Value()), between, signalled)
        decreases |bg|
      {
        var t := bg[0];
        WokenMore(WakeBackground(g1), WakeBackground(Value()), between, signalled, t);
        bg, active := bg[1..], active + 1;
        signalled := signalled + [t];
      }
      assert WakeBackground(Value()) == (Value(), []) && WakeForeground(g1) == (g1, []);
      assert before + (WakeForeground(g0).1 + WakeBackground(g1).1) ==
        before + WakeForeground(g0).1 + WakeBackground(g1).1;
      assert signalled + [] == signalled && between + [] == between;
    }

    method Leave(foreground: bool)
      requires Sound(Value()) && Holds(Value(), foreground)
      modifies this
      ensures (Value(), signalled) == var (g, woken) := Release(old(Value()), foreground); (g, old(signalled) + woken)
      ensures Sound(Value())
    {
      ReleaseWakesTheHead(Value(), foreground);
      if active > 0 {
        active := active - 1;
      }
      if foreground && fgActive > 0 {
        fgActive := fgActive - 1;
      }
      WakeLocked();
    }

    // The second half of a cancelled Acquire: withdraw the ticket, or hand the slot back if it was signalled.
    method Cancel(ticket: T, foreground: bool)
      requires Sound(Value())
      requires ticket !in (if foreground then fg else bg) ==> Holds(Value(), foreground)
      modifies this
      ensures ticket in old(if foreground then fg else bg) ==>
        Value() == Withdraw(old(Value()), ticket, foreground) && signalled == old(signalled)
      ensures ticket in old(if foreground then fg else bg) ==>
        && Removed(old(if foreground then fg else bg), ticket, if foreground then fg else bg)
        && if foreground then bg == old(bg) else fg == old(fg)
      ensures ticket !in old(if foreground then fg else bg) ==>
        (Value(), signalled) == var (g, woken) := Release(old(Value()), foreground); (g, old(signalled) + woken)
      ensures Sound(Value())
    {
      var q := if foreground then fg else bg;
      if ticket in q {
        WithdrawIsSound(Value(), ticket, foreground);
        var rest := RemoveTicket(q, ticket);
        if foreground {
          fg := rest;
        } else {
          bg := rest;
        }
        return;
      }
      Leave(foreground);
    }

    method RemoveTicket(q: seq<T>, ticket: T) returns (rest: seq<T>)
      requires ticket in q
      ensures rest == Without(q, ticket) && Removed(q, ticket, rest)
    {
      var i := 0;
      assert q[..|q|] == q;
      while q[i] != ticket
        invariant i < |q| && ticket !in q[..i]
        decreases |q| - i
      {
        assert q[..i + 1] == q[..i] + [q[i]];
        i := i + 1;
      }
      WithoutSplits(q, ticket, i);
      rest := q[..i] + q[i + 1..];
    }
  }
}
