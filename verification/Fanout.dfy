// fanoutWriter: every write goes to every sink; a sink's first failure is announced on the sinks that never failed.
module Fanout {
  import opened Wrappers

  type Error = string

  datatype Message = Payload(bytes: string) | Notice(failure: Error)

  // A sink answers its n-th write with answers(n): an error, or None when it accepts the bytes.
  datatype Sink = Sink(answers: nat -> Option<Error>, attempts: nat, received: seq<Message>, reported: bool)

  const NO_SINKS: Error := "log fanout: no sinks configured"

  function NewSink(answers: nat -> Option<Error>): Sink {
    Sink(answers, 0, [], false)
  }

  // What the next write to the sink will answer.
  function Answer(s: Sink): Option<Error> {
    s.answers(s.attempts)
  }

  function Attempt(s: Sink, m: Message): Sink {
    s.(attempts := s.attempts + 1, received := if Answer(s).None? then s.received + [m] else s.received)
  }

  function AfterPayload(s: Sink, p: string): Sink {
    Attempt(s, Payload(p)).(reported := s.reported || Answer(s).Some?)
  }

  predicate NewlyFailed(s: Sink) {
    Answer(s).Some? && !s.reported
  }

  predicate Delivered(sinks: seq<Sink>) {
    exists k :: 0 <= k < |sinks| && Answer(sinks[k]).None?
  }

  // The first failures of this write, in sink order.
  function Failures(sinks: seq<Sink>): seq<Error> {
    if sinks == [] then []
    else
      var init, s := Failures(sinks[..|sinks| - 1]), sinks[|sinks| - 1];
      if NewlyFailed(s) then init + [Answer(s).value] else init
  }

  function FirstError(sinks: seq<Sink>): Option<Error> {
    if sinks == [] then None
    else if Answer(sinks[0]).Some? then Answer(sinks[0])
    else FirstError(sinks[1..])
  }

  // Announcements go to the sinks not reported.
  function AfterNotices(s: Sink, failures: seq<Error>): Sink {
    if failures == [] || s.reported then s
    else Attempt(AfterNotices(s, failures[..|failures| - 1]), Notice(failures[|failures| - 1]))
  }

  function AfterWriteAt(sinks: seq<Sink>, p: string, k: nat): Sink
    requires k < |sinks|
  {
    var s := AfterPayload(sinks[k], p);
    if Delivered(sinks) then AfterNotices(s, Failures(sinks)) else s
  }

  function AfterWrite(sinks: seq<Sink>, p: string): (out: seq<Sink>)
    ensures |out| == |sinks|
    ensures forall k :: 0 <= k < |sinks| ==> out[k] == AfterWriteAt(sinks, p, k)
  {
    seq(|sinks|, k requires 0 <= k < |sinks| => AfterWriteAt(sinks, p, k))
  }

  // ---------------------------------------------------------------------------------------------

  class FanoutWriter {
    const sinks: array<Sink>
    var emittingNotice: bool

    constructor (writers: seq<nat -> Option<Error>>)
      ensures fresh(sinks) && !emittingNotice
      ensures sinks[..] == seq(|writers|, k requires 0 <= k < |writers| => NewSink(writers[k]))
      ensures forall k :: 0 <= k < sinks.Length ==>
        !sinks[k].reported && sinks[k].attempts == 0 && sinks[k].received == []
    {
      sinks := new Sink[|writers|](k requires 0 <= k < |writers| => NewSink(writers[k]));
      emittingNotice := false;
    }

    method Write(p: string) returns (n: nat, err: Option<Error>)
      requires !emittingNotice
      modifies this, sinks
      ensures !emittingNotice && sinks[..] == AfterWrite(old(sinks[..]), p)
      ensures err.None? <==> Delivered(old(sinks[..]))
      ensures n == if err.None? then |p| else 0
      ensures !Delivered(old(sinks[..])) ==>
        err == if sinks.Length == 0 then Some(NO_SINKS) else FirstError(old(sinks[..]))
    {
      if sinks.Length == 0 {
        assert sinks[..] == [];
        return 0, Some(NO_SINKS);
      }
      var firstErr, delivered, newlyFailed := WritePayload(p);
      if delivered {
        NoticeLocked(newlyFailed);
        return |p|, None;
      }
      return 0, firstErr;
    }

    method WritePayload(p: string) returns (firstErr: Option<Error>, delivered: bool, newlyFailed: seq<Error>)
      modifies sinks
      ensures forall k :: 0 <= k < sinks.Length ==> sinks[k] == AfterPayload(old(sinks[k]), p)
      ensures delivered == Delivered(old(sinks[..])) && newlyFailed == Failures(old(sinks[..]))
      ensures firstErr == FirstError(old(sinks[..])) && (sinks.Length > 0 && !delivered ==> firstErr.Some?)
    {
      firstErr, delivered, newlyFailed := None, false, [];
      ghost var was := sinks[..];
      for k := 0 to sinks.Length
        invariant forall i :: 0 <= i < k ==> sinks[i] == AfterPayload(was[i], p)
        invariant forall i :: k <= i < sinks.Length ==> sinks[i] == was[i]
        invariant Tally(was[..k], firstErr, delivered, newlyFailed)
      {
        TakeMore(was, k);
        TallyMore(was[..k], was[k], firstErr, delivered, newlyFailed);
        firstErr, delivered, newlyFailed := AttemptAt(k, p, firstErr, delivered, newlyFailed);
      }
      assert was[..|was|] == was;
    }

    method AttemptAt(k: nat, p: string, firstErr0: Option<Error>, delivered0: bool, newlyFailed0: seq<Error>)
      returns (firstErr: Option<Error>, delivered: bool, newlyFailed: seq<Error>)
      requires k < sinks.Length
      modifies sinks
      ensures sinks[k] == AfterPayload(old(sinks[k]), p)
      ensures forall i :: 0 <= i < sinks.Length && i != k ==> sinks[i] == old(sinks[i])
      ensures var s := old(sinks[k]);
        && firstErr == (if firstErr0.None? then Answer(s) else firstErr0)
        && delivered == (delivered0 || Answer(s).None?)
        && newlyFailed == if NewlyFailed(s) then newlyFailed0 + [Answer(s).value] else newlyFailed0
    {
      firstErr, delivered, newlyFailed := firstErr0, delivered0, newlyFailed0;
      var s := sinks[k];
      var err := Answer(s);
      sinks[k] := Attempt(s, Payload(p));
      if err.None? {
        delivered := true;
        return;
      }
      if firstErr.None? {
        firstErr := err;
      }
      if !s.reported {
        sinks[k] := sinks[k].(reported := true);
        newlyFailed := newlyFailed + [err.value];
      }
    }

    method NoticeLocked(failures: seq<Error>)
      requires !emittingNotice
      modifies this, sinks
      ensures !emittingNotice
      ensures forall k :: 0 <= k < sinks.Length ==> sinks[k] == AfterNotices(old(sinks[k]), failures)
    {
      if |failures| == 0 || emittingNotice {
        return;
      }
      emittingNotice := true;
      ghost var was := sinks[..];
      for i := 0 to |failures|
        invariant forall k :: 0 <= k < sinks.Length ==> sinks[k] == AfterNotices(was[k], failures[..i])
        invariant forall k :: 0 <= k < sinks.Length ==> sinks[k].reported == was[k].reported
      {
        assert failures[..i + 1][..i] == failures[..i];
        Announce(failures[i]);
      }
      assert failures[..|failures|] == failures;
      emittingNotice := false;
    }

    method Announce(failure: Error)
      modifies sinks
      ensures forall k :: 0 <= k < sinks.Length ==>
        sinks[k] == if old(sinks[k]).reported then old(sinks[k]) else Attempt(old(sinks[k]), Notice(failure))
    {
      for k := 0 to sinks.Length
        invariant forall i :: 0 <= i < k ==>
          sinks[i] == if old(sinks[i]).reported then old(sinks[i]) else Attempt(old(sinks[i]), Notice(failure))
        invariant forall i :: k <= i < sinks.Length ==> sinks[i] == old(sinks[i])
      {
        if sinks[k].reported {
          continue;
        }
        sinks[k] := Attempt(sinks[k], Notice(failure));
      }
    }
  }

  // What a loop over the sinks has found so far.
  ghost predicate Tally(sinks: seq<Sink>, firstErr: Option<Error>, delivered: bool, failures: seq<Error>) {
    && firstErr == FirstError(sinks) && delivered == Delivered(sinks) && failures == Failures(sinks)
    && (|sinks| > 0 && !delivered ==> firstErr.Some?)
  }

  lemma TallyMore(sinks: seq<Sink>, s: Sink, firstErr: Option<Error>, delivered: bool, failures: seq<Error>)
    requires Tally(sinks, firstErr, delivered, failures)
    ensures Tally(sinks + [s], if firstErr.None? then Answer(s) else firstErr, delivered || Answer(s).None?,
                  if NewlyFailed(s) then failures + [Answer(s).value] else failures)
  {
    FirstErrorSnoc(sinks, s);
    DeliveredSnoc(sinks, s);
    assert (sinks + [s])[..|sinks|] == sinks;
  }

  lemma DeliveredSnoc(sinks: seq<Sink>, s: Sink)
    ensures Delivered(sinks + [s]) <==> Delivered(sinks) || Answer(s).None?
  {
    var more := sinks + [s];
    if k :| 0 <= k < |sinks| && Answer(sinks[k]).None? {
      assert more[k] == sinks[k];
    }
    assert more[|sinks|] == s;
  }

  lemma TakeMore(was: seq<Sink>, k: nat)
    requires k < |was|
    ensures was[..k + 1] == was[..k] + [was[k]] && was[..k + 1][..k] == was[..k]
  {
  }

  lemma {:induction false} FirstErrorSnoc(sinks: seq<Sink>, s: Sink)
    ensures FirstError(sinks + [s]) == if FirstError(sinks).Some? then FirstError(sinks) else Answer(s)
  {
    if sinks != [] {
      assert (sinks + [s])[1..] == sinks[1..] + [s];
      FirstErrorSnoc(sinks[1..], s);
    } else {
      assert FirstError([s][1..]) == None;
    }
  }

  // ---------------------------------------------------------------------------------------------
  // Over any run of writes.

  function Run(sinks: seq<Sink>, ps: seq<string>): (out: seq<Sink>)
    ensures |out| == |sinks|
  {
    if ps == [] then sinks else AfterWrite(Run(sinks, ps[..|ps| - 1]), ps[|ps| - 1])
  }

  function Payloads(ms: seq<Message>): seq<string> {
    if ms == [] then []
    else Payloads(ms[..|ms| - 1]) + if ms[|ms| - 1].Payload? then [ms[|ms| - 1].bytes] else []
  }

  function Notices(ms: seq<Message>): seq<Error> {
    if ms == [] then []
    else Notices(ms[..|ms| - 1]) + if ms[|ms| - 1].Notice? then [ms[|ms| - 1].failure] else []
  }

  ghost predicate NeverFails(s: Sink) {
    !s.reported && forall n :: s.answers(n).None?
  }

  lemma MessageSnoc(ms: seq<Message>, m: Message)
    ensures Payloads(ms + [m]) == Payloads(ms) + if m.Payload? then [m.bytes] else []
    ensures Notices(ms + [m]) == Notices(ms) + if m.Notice? then [m.failure] else []
  {
    assert (ms + [m])[..|ms|] == ms;
  }

  // The healthy sink `s` has become `out`, and was sent these payloads and announcements meanwhile.
  ghost predicate Heard(s: Sink, out: Sink, ps: seq<string>, failures: seq<Error>) {
    && NeverFails(s) && NeverFails(out)
    && Payloads(out.received) == Payloads(s.received) + ps && Notices(out.received) == Notices(s.received) + failures
  }

  lemma HeardMore(s: Sink, mid: Sink, out: Sink, ps: seq<string>, failures: seq<Error>, ps': seq<string>,
                  failures': seq<Error>)
    requires Heard(s, mid, ps, failures) && Heard(mid, out, ps', failures')
    ensures Heard(s, out, ps + ps', failures + failures')
  {
    assert Payloads(s.received) + ps + ps' == Payloads(s.received) + (ps + ps');
    assert Notices(s.received) + failures + failures' == Notices(s.received) + (failures + failures');
  }

  lemma HearsOne(s: Sink, m: Message)
    requires NeverFails(s)
    ensures m.Payload? ==> Heard(s, Attempt(s, m), [m.bytes], [])
    ensures m.Notice? ==> Heard(s, Attempt(s, m), [], [m.failure])
  {
    MessageSnoc(s.received, m);
    assert Payloads(s.received) + [] == Payloads(s.received) && Notices(s.received) + [] == Notices(s.received);
  }

  // A sink that never fails takes every announcement.
  lemma {:induction false} HearsNotices(s: Sink, failures: seq<Error>)
    requires NeverFails(s)
    ensures Heard(s, AfterNotices(s, failures), [], failures)
  {
    if failures == [] {
      assert Payloads(s.received) + [] == Payloads(s.received) && Notices(s.received) + [] == Notices(s.received);
    } else {
      var init, last := failures[..|failures| - 1], failures[|failures| - 1];
      HearsNotices(s, init);
      var mid := AfterNotices(s, init);
      HearsOne(mid, Notice(last));
      HeardMore(s, mid, Attempt(mid, Notice(last)), [], init, [], [last]);
      assert init + [last] == failures;
    }
  }

  lemma HearsWrite(sinks: seq<Sink>, k: nat, p: string)
    requires k < |sinks| && NeverFails(sinks[k])
    ensures Delivered(sinks) && Heard(sinks[k], AfterWrite(sinks, p)[k], [p], Failures(sinks))
  {
    var s, mid := sinks[k], AfterPayload(sinks[k], p);
    assert Answer(s).None?;
    HearsOne(s, Payload(p));
    assert mid == Attempt(s, Payload(p));
    HearsNotices(mid, Failures(sinks));
    HeardMore(s, mid, AfterNotices(mid, Failures(sinks)), [p], [], [], Failures(sinks));
    assert [p] + [] == [p] && [] + Failures(sinks) == Failures(sinks);
  }

  // All first failures of a run, in order.
  function AllFailures(sinks: seq<Sink>, ps: seq<string>): seq<Error> {
    if ps == [] then []
    else AllFailures(sinks, ps[..|ps| - 1]) + Failures(Run(sinks, ps[..|ps| - 1]))
  }

  // A sink that never fails receives every payload in order, interleaved only with the announcement of every
  // first failure, in order.
  lemma {:induction false} HealthySinkHearsAll(sinks: seq<Sink>, ps: seq<string>, k: nat)
    requires k < |sinks| && NeverFails(sinks[k])
    ensures Heard(sinks[k], Run(sinks, ps)[k], ps, AllFailures(sinks, ps))
  {
    if ps == [] {
      HearsNotices(sinks[k], []);
    } else {
      var init, last := ps[..|ps| - 1], ps[|ps| - 1];
      HealthySinkHearsAll(sinks, init, k);
      var mid := Run(sinks, init);
      HearsWrite(mid, k, last);
      HeardMore(sinks[k], mid[k], AfterWrite(mid, last)[k], init, AllFailures(sinks, init), [last], Failures(mid));
      assert init + [last] == ps;
    }
  }

  function Reported(sinks: seq<Sink>): nat {
    if sinks == [] then 0 else Reported(sinks[..|sinks| - 1]) + if sinks[|sinks| - 1].reported then 1 else 0
  }

  lemma {:induction false} NoticeAttempts(s: Sink, failures: seq<Error>)
    ensures var out := AfterNotices(s, failures);
      && out.attempts == s.attempts + (if s.reported then 0 else |failures|)
      && out.answers == s.answers && out.reported == s.reported
  {
    if failures != [] && !s.reported {
      NoticeAttempts(s, failures[..|failures| - 1]);
    }
  }

  lemma {:induction false} ReportsCount(sinks: seq<Sink>, out: seq<Sink>)
    requires |out| == |sinks|
    requires forall k :: 0 <= k < |sinks| ==> out[k].reported == (sinks[k].reported || Answer(sinks[k]).Some?)
    ensures Reported(out) == Reported(sinks) + |Failures(sinks)|
  {
    if sinks != [] {
      ReportsCount(sinks[..|sinks| - 1], out[..|sinks| - 1]);
    }
  }

  lemma ReportsOnce(sinks: seq<Sink>, p: string)
    ensures Reported(AfterWrite(sinks, p)) == Reported(sinks) + |Failures(sinks)|
  {
    var out := AfterWrite(sinks, p);
    forall k | 0 <= k < |sinks| ensures out[k].reported == (sinks[k].reported || Answer(sinks[k]).Some?) {
      NoticeAttempts(AfterPayload(sinks[k], p), Failures(sinks));
    }
    ReportsCount(sinks, out);
  }

  // There is one first failure for every sink that failed in the run: none is announced twice.
  lemma {:induction false} OneFailurePerSink(sinks: seq<Sink>, ps: seq<string>)
    ensures |AllFailures(sinks, ps)| == Reported(Run(sinks, ps)) - Reported(sinks)
  {
    if ps != [] {
      var init := ps[..|ps| - 1];
      OneFailurePerSink(sinks, init);
      ReportsOnce(Run(sinks, init), ps[|ps| - 1]);
    }
  }

  // ---------------------------------------------------------------------------------------------
  // Who hears of a failure.

  // Sink s, being sent the announcements, receives the i-th one.
  predicate Receives(s: Sink, failures: seq<Error>, i: nat)
    requires i < |failures|
  {
    AfterNotices(s, failures[..i + 1]).received != AfterNotices(s, failures[..i]).received
  }

  // It does if it has never failed a write, and accepts that very one.
  lemma ReceivesIff(s: Sink, failures: seq<Error>, i: nat)
    requires i < |failures|
    ensures Receives(s, failures, i) <==> !s.reported && s.answers(s.attempts + i).None?
  {
    var init := failures[..i];
    assert failures[..i + 1][..|failures[..i + 1]| - 1] == init;
    NoticeAttempts(s, init);
    if !s.reported {
      var mid := AfterNotices(s, init);
      assert AfterNotices(s, failures[..i + 1]) == Attempt(mid, Notice(failures[i]));
      assert |mid.received + [Notice(failures[i])]| == |mid.received| + 1;
    }
  }

  // The announcements a sink has received in the end.
  function Caught(s: Sink, failures: seq<Error>): seq<Error> {
    if failures == [] then []
    else
      var n := |failures| - 1;
      Caught(s, failures[..n]) + if !s.reported && s.answers(s.attempts + n).None? then [failures[n]] else []
  }

  lemma {:induction false} CaughtIsReceived(s: Sink, failures: seq<Error>)
    ensures Notices(AfterNotices(s, failures).received) == Notices(s.received) + Caught(s, failures)
  {
    if failures != [] && !s.reported {
      var n := |failures| - 1;
      CaughtIsReceived(s, failures[..n]);
      NoticeAttempts(s, failures[..n]);
      var mid := AfterNotices(s, failures[..n]);
      MessageSnoc(mid.received, Notice(failures[n]));
    } else {
      NothingCaught(s, failures);
    }
  }

  lemma {:induction false} NothingCaught(s: Sink, failures: seq<Error>)
    requires failures == [] || s.reported
    ensures Caught(s, failures) == []
  {
    if failures != [] {
      NothingCaught(s, failures[..|failures| - 1]);
    }
  }

  // Sink k hears of the i-th first failure of this write.
  predicate HeardBy(sinks: seq<Sink>, p: string, k: nat, i: nat)
    requires k < |sinks| && i < |Failures(sinks)|
  {
    Delivered(sinks) && Receives(AfterPayload(sinks[k], p), Failures(sinks), i)
  }

  // The sink accepts its n-th attempt from now.
  predicate Accepts(s: Sink, n: nat) {
    s.answers(s.attempts + n).None?
  }

  lemma HeardByIff(sinks: seq<Sink>, p: string, k: nat, i: nat)
    requires k < |sinks| && i < |Failures(sinks)|
    ensures HeardBy(sinks, p, k, i) <==>
      !sinks[k].reported && Answer(sinks[k]).None? && Accepts(sinks[k], 1 + i)
  {
    ReceivesIff(AfterPayload(sinks[k], p), Failures(sinks), i);
  }

  // A first failure is heard of if and only if some sink that has never failed a write, this one included,
  // accepts the attempt that carries the announcement. That the write was delivered is not enough.
  lemma AnnouncedIff(sinks: seq<Sink>, p: string, i: nat)
    requires i < |Failures(sinks)|
    ensures (exists k: nat :: k < |sinks| && HeardBy(sinks, p, k, i)) <==>
      exists k: nat :: k < |sinks| && !AfterPayload(sinks[k], p).reported && Accepts(sinks[k], 1 + i)
  {
    forall k: nat | k < |sinks|
      ensures HeardBy(sinks, p, k, i) <==>
        !AfterPayload(sinks[k], p).reported && Accepts(sinks[k], 1 + i)
    {
      HeardByIff(sinks, p, k, i);
    }
  }

  // What a write leaves a sink with: the announcements it already had, and those it hears of now.
  lemma NoticesReceived(sinks: seq<Sink>, p: string, k: nat)
    requires k < |sinks|
    ensures var before, after := Notices(sinks[k].received), Notices(AfterWrite(sinks, p)[k].received);
      after == if Delivered(sinks) then before + Caught(AfterPayload(sinks[k], p), Failures(sinks)) else before
  {
    NoNoticeYet(sinks[k], p);
    CaughtIsReceived(AfterPayload(sinks[k], p), Failures(sinks));
    assert AfterWrite(sinks, p)[k] == AfterWriteAt(sinks, p, k);
  }

  lemma NoNoticeYet(s: Sink, p: string)
    ensures Notices(AfterPayload(s, p).received) == Notices(s.received)
  {
    MessageSnoc(s.received, Payload(p));
  }

  // With no sink reported before, a delivered write can leave a first failure unheard of in one way only: every
  // sink that took the payload fails on the announcement.
  lemma AnnouncedIfDelivered(sinks: seq<Sink>, p: string, i: nat)
    requires i < |Failures(sinks)| && forall k :: 0 <= k < |sinks| ==> !sinks[k].reported
    ensures Delivered(sinks) && !(exists k: nat :: k < |sinks| && HeardBy(sinks, p, k, i)) <==>
      Delivered(sinks) && forall k: nat :: k < |sinks| && Answer(sinks[k]).None? ==> !Accepts(sinks[k], 1 + i)
    ensures (exists k: nat :: k < |sinks| && HeardBy(sinks, p, k, i)) ==> Delivered(sinks)
  {
    forall k: nat | k < |sinks|
      ensures HeardBy(sinks, p, k, i) <==> Answer(sinks[k]).None? && Accepts(sinks[k], 1 + i)
    {
      HeardByIff(sinks, p, k, i);
    }
  }

  // Two sinks of which the second fails for the first time.
  lemma OneFailure(first: Sink, failing: Sink)
    requires !NewlyFailed(first) && NewlyFailed(failing)
    ensures Failures([first, failing]) == [Answer(failing).value]
  {
    var sinks := [first, failing];
    assert sinks[..|sinks| - 1] == [first] && sinks[|sinks| - 1] == failing;
    assert [first][..0] == [] && [first][0] == first;
    assert Failures([first]) == [];
    assert [] + [Answer(failing).value] == [Answer(failing).value];
  }

  lemma FirstDelivers(first: Sink, failing: Sink)
    requires Answer(first).None?
    ensures Delivered([first, failing])
  {
    var sinks := [first, failing];
    assert Answer(sinks[0]).None?;
  }

  // Nobody hears of the failure, though the write is delivered, if the other sink was reported before.
  lemma SwallowedNotice(recovered: Sink, failing: Sink, p: string)
    requires recovered.reported && Answer(recovered).None? && NewlyFailed(failing)
    ensures Delivered([recovered, failing]) && |Failures([recovered, failing])| == 1
    ensures !HeardBy([recovered, failing], p, 0, 0) && !HeardBy([recovered, failing], p, 1, 0)
  {
    OneFailure(recovered, failing);
    FirstDelivers(recovered, failing);
    HeardByIff([recovered, failing], p, 0, 0);
    HeardByIff([recovered, failing], p, 1, 0);
  }

  // Nor if the other sink, never reported, takes the payload and fails on the announcement: that error is
  // discarded. The failed sink counts as reported from now on, the other one still does not.
  lemma LostNotice(flaky: Sink, failing: Sink, p: string)
    requires !flaky.reported && Answer(flaky).None? && flaky.answers(flaky.attempts + 1).Some? && NewlyFailed(failing)
    ensures Delivered([flaky, failing]) && |Failures([flaky, failing])| == 1
    ensures !HeardBy([flaky, failing], p, 0, 0) && !HeardBy([flaky, failing], p, 1, 0)
    ensures var out := AfterWrite([flaky, failing], p); !out[0].reported && out[1].reported
  {
    OneFailure(flaky, failing);
    FirstDelivers(flaky, failing);
    HeardByIff([flaky, failing], p, 0, 0);
    HeardByIff([flaky, failing], p, 1, 0);
    NoticeAttempts(AfterPayload(flaky, p), Failures([flaky, failing]));
    NoticeAttempts(AfterPayload(failing, p), Failures([flaky, failing]));
  }

  // A reported sink stays reported, so none of its failures is a first failure again.
  lemma {:induction false} NeverAgain(sinks: seq<Sink>, ps: seq<string>, k: nat)
    requires k < |sinks| && sinks[k].reported
    ensures Run(sinks, ps)[k].reported && !NewlyFailed(Run(sinks, ps)[k])
  {
    if ps != [] {
      var init := ps[..|ps| - 1];
      NeverAgain(sinks, init, k);
      NoticeAttempts(AfterPayload(Run(sinks, init)[k], ps[|ps| - 1]), Failures(Run(sinks, init)));
    }
  }

  // Sink k fails, and no sink before it does.
  ghost predicate FailsFirst(sinks: seq<Sink>, k: nat) {
    k < |sinks| && Answer(sinks[k]).Some? && forall i: nat :: i < k ==> Answer(sinks[i]).None?
  }

  // The error returned is that of the first sink that failed.
  lemma {:induction false} FirstErrorIs(sinks: seq<Sink>)
    ensures FirstError(sinks).None? <==> forall k :: 0 <= k < |sinks| ==> Answer(sinks[k]).None?
    ensures forall k: nat :: FailsFirst(sinks, k) ==> FirstError(sinks) == Answer(sinks[k])
  {
    if sinks != [] {
      var rest := sinks[1..];
      FirstErrorIs(rest);
      assert forall k: nat :: 0 < k < |sinks| ==> sinks[k] == rest[k - 1];
      forall k: nat | FailsFirst(sinks, k) && k > 0 ensures FirstError(sinks) == Answer(sinks[k]) {
        assert forall i: nat :: i < k - 1 ==> rest[i] == sinks[i + 1];
        assert FailsFirst(rest, k - 1);
      }
    }
  }

  // `at` are the sinks that fail here for the first time, in order, and `errors` are their errors.
  ghost predicate FailFresh(sinks: seq<Sink>, at: seq<nat>, errors: seq<Error>) {
    && |at| == |errors| && (forall m, n :: 0 <= m < n < |at| ==> at[m] < at[n])
    && (forall m :: 0 <= m < |at| ==>
         at[m] < |sinks| && !sinks[at[m]].reported && Answer(sinks[at[m]]) == Some(errors[m]))
    && (forall k: nat :: k < |sinks| && !sinks[k].reported && Answer(sinks[k]).Some? ==> k in at)
  }

  lemma FailFreshSnoc(init: seq<Sink>, last: Sink, at: seq<nat>, errors: seq<Error>)
    requires FailFresh(init, at, errors)
    ensures !NewlyFailed(last) ==> FailFresh(init + [last], at, errors)
    ensures NewlyFailed(last) ==> FailFresh(init + [last], at + [|init|], errors + [Answer(last).value])
  {
    var sinks, n := init + [last], |init|;
    assert sinks[n] == last && forall k: nat :: k < n ==> sinks[k] == init[k];
    if NewlyFailed(last) {
      var at' := at + [n];
      assert at'[|at|] == n;
      forall k: nat | k < |sinks| && !sinks[k].reported && Answer(sinks[k]).Some? ensures k in at' {
        assert k < n ==> k in at;
      }
    }
  }

  // The failures announced are the errors of the sinks that fail here for the first time, in sink order.
  lemma {:induction false} FailuresAre(sinks: seq<Sink>) returns (at: seq<nat>)
    ensures FailFresh(sinks, at, Failures(sinks))
  {
    if sinks == [] {
      at := [];
    } else {
      var init, last := sinks[..|sinks| - 1], sinks[|sinks| - 1];
      assert sinks == init + [last];
      at := FailuresAre(init);
      FailFreshSnoc(init, last, at, Failures(init));
      at := if NewlyFailed(last) then at + [|init|] else at;
    }
  }
}
