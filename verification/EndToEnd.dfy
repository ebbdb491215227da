// End to end: after any history, one run that completes on a quiet tree leaves the graph a full rebuild
// would leave, up to edges into entities an earlier incremental run destroyed; and exactly when it does.
module EndToEnd {
  import opened Graph
  import opened Rebuild
  import opened Wrappers
  import opened Manifest
  import opened Filter
  import opened Commit

  // Steps of a run on a quiet tree: no edit, no failure, no kill.
  predicate Quiet(step: Step) {
    && !step.Edit? && !step.Kill? && !step.WriteError?
    && (step.Extract? ==> step.act != PreError && step.act != WorkFail && step.act != ReadError)
  }

  predicate Starts(step: Step) {
    step.StartFull? || step.StartDelta?
  }

  // What a full rebuild of the disk holds of each file.
  function Targets(w: World, disk: map<string, nat>): Pieces {
    map f | f in w.files && f in disk :: Target(w, f, disk[f])
  }

  // Everything a quiet run has read of a file is what the disk holds.
  predicate ReadsCurrent(w: World, f: string, d: nat, r: FileRun) {
    && (r.pre.Some? ==> r.pre.value == Read(d))
    && (r.stat.Some? ==> r.stat.value == d)
    && (r.outcome.Some? ==> r.outcome.value == Target(w, f, d))
  }

  // A file is up to date in the graph, or this run is bringing it up to date.
  ghost predicate OnTrack(w: World, s: State, f: string)
    requires f in s.disk && f in s.pieces
  {
    if s.run.Extracting? && f in s.run.files then ReadsCurrent(w, f, s.disk[f], s.run.files[f])
    else s.pieces[f] == Target(w, f, s.disk[f])
  }

  lemma QuietExtract(w: World, f: string, d: nat, m: Option<Entry>, r: FileRun, act: Act)
    requires FileDated(w, f, d, m, r) && ReadsCurrent(w, f, d, r) && CanAct(w, f, d, r, act)
    requires act != PreError && act != WorkFail && act != ReadError
    ensures ReadsCurrent(w, f, d, Do(w, f, d, r, act))
  {
  }

  // A quiet step keeps each file on track that is.
  lemma OnTrackStep(w: World, s: State, step: Step, f: string)
    requires GraphInv(w, s) && Quiet(step) && Enabled(w, s, step) && f in w.files
    requires Dated(w, s, f) && OnTrack(w, s, f)
    ensures var t := Apply(w, s, step); f in t.disk && f in t.pieces && OnTrack(w, t, f)
  {
    if step.Extract? && step.f == f {
      QuietExtract(w, f, s.disk[f], Lookup(s.manifest, f), s.run.files[f], step.act);
    }
  }

  lemma {:induction false} OnTrackRun(w: World, s: State, steps: seq<Step>, f: string)
    requires WellFormed(w) && DatedInv(w, s) && f in w.files && OnTrack(w, s, f) && Runs(w, s, steps)
    requires forall step :: step in steps ==> Quiet(step)
    ensures var t := After(w, s, steps); f in t.disk && f in t.pieces && OnTrack(w, t, f)
    decreases |steps|
  {
    if steps != [] {
      assert Quiet(steps[0]);
      assert Dated(w, s, f);
      OnTrackStep(w, s, steps[0], f);
      DatedInvStep(w, s, steps[0]);
      OnTrackRun(w, Apply(w, s, steps[0]), steps[1..], f);
    }
  }

  // A quiet run edits nothing, and when it is over there is a graph.
  lemma {:induction false} QuietRun(w: World, s: State, steps: seq<Step>)
    requires Runs(w, s, steps) && (forall step :: step in steps ==> Quiet(step))
    requires s.run.Extracting? || s.graph.Some?
    ensures var t := After(w, s, steps); t.disk == s.disk && (t.run.Extracting? || t.graph.Some?)
    decreases |steps|
  {
    if steps != [] {
      assert Quiet(steps[0]);
      QuietRun(w, Apply(w, s, steps[0]), steps[1..]);
    }
  }

  // The piece of a file that is left out of a run does not change during it.
  lemma {:induction false} UntouchedPieceStays(w: World, s: State, steps: seq<Step>, f: string)
    requires Runs(w, s, steps) && !s.run.Idle? && f !in s.run.files && f in s.pieces
    requires forall step :: step in steps ==> !Starts(step)
    ensures var t := After(w, s, steps); f in t.pieces && t.pieces[f] == s.pieces[f]
    decreases |steps|
  {
    if steps != [] {
      assert !Starts(steps[0]);
      var t := Apply(w, s, steps[0]);
      if t.run.Idle? {
        IdleStays(w, t, steps[1..]);
      } else {
        UntouchedPieceStays(w, t, steps[1..], f);
      }
    }
  }

  lemma {:induction false} IdleStays(w: World, s: State, steps: seq<Step>)
    requires Runs(w, s, steps) && s.run.Idle?
    requires forall step :: step in steps ==> !Starts(step)
    ensures After(w, s, steps).pieces == s.pieces
    decreases |steps|
  {
    if steps != [] {
      assert !Starts(steps[0]);
      IdleStays(w, Apply(w, s, steps[0]), steps[1..]);
    }
  }

  // ---------------------------------------------------------------------------------------------
  // Which runs are right.

  // The files a run leaves out.
  function LeftOut(w: World, s: State, start: Step): set<string>
    requires Starts(start)
  {
    if start.StartFull? then {} else w.files - Changed(w, s, start.report)
  }

  // The graph is up to date on every file the run leaves out.
  predicate Current(w: World, s: State, start: Step)
    requires Starts(start)
  {
    forall f :: f in LeftOut(w, s, start) && f in s.disk && f in s.pieces ==> s.pieces[f] == Target(w, f, s.disk[f])
  }

  // The caller's condition: of every file the run leaves out, the manifest says that the present content is
  // indexed; or the classifier skips the file, and the graph holds nothing of it.
  predicate Covered(w: World, s: State, start: Step)
    requires Starts(start)
  {
    forall f :: f in LeftOut(w, s, start) && f in s.disk && f in s.pieces ==>
      Trusted(s.disk[f], Lookup(s.manifest, f)) || (w.skips(f, s.disk[f]) && s.pieces[f] == Nothing)
  }

  // A run that starts after a history, and completes on a quiet tree.
  ghost predicate Completes(w: World, s: State, start: Step, rest: seq<Step>) {
    && Starts(start) && Enabled(w, s, start) && Runs(w, Apply(w, s, start), rest)
    && (forall step :: step in rest ==> Quiet(step) && !Starts(step))
    && After(w, Apply(w, s, start), rest).run.Idle?
  }

  ghost function Completed(w: World, s: State, start: Step, rest: seq<Step>): State
    requires Completes(w, s, start, rest)
  {
    After(w, Apply(w, s, start), rest)
  }

  // After any history whatever, the run builds the graph from the right pieces if and only if the graph was
  // up to date on the files it leaves out.
  lemma RightIffCurrent(w: World, s: State, start: Step, rest: seq<Step>)
    requires WellFormed(w) && DatedInv(w, s) && Completes(w, s, start, rest)
    ensures var t := Completed(w, s, start, rest);
      && DatedInv(w, t) && t.graph.Some? && t.disk == s.disk
      && (t.pieces == Targets(w, s.disk) <==> Current(w, s, start))
  {
    var u, t := Apply(w, s, start), Completed(w, s, start, rest);
    DatedInvStep(w, s, start);
    DatedInvRun(w, u, rest);
    QuietRun(w, u, rest);
    forall f | f in w.files ensures PieceOf(w, s, start, t.pieces, f) {
      PieceAfter(w, s, start, rest, f);
    }
    PiecesIff(w, s, start, t.pieces);
  }

  // What the graph holds of one file once the run is over.
  predicate PieceOf(w: World, s: State, start: Step, pieces: Pieces, f: string)
    requires Starts(start) && f in s.disk && f in s.pieces
  {
    f in pieces && pieces[f] == if f in LeftOut(w, s, start) then s.pieces[f] else Target(w, f, s.disk[f])
  }

  lemma PiecesIff(w: World, s: State, start: Step, pieces: Pieces)
    requires Starts(start) && s.disk.Keys == s.pieces.Keys == pieces.Keys == w.files
    requires forall f :: f in w.files ==> PieceOf(w, s, start, pieces, f)
    ensures pieces == Targets(w, s.disk) <==> Current(w, s, start)
  {
    if Current(w, s, start) {
      forall f | f in w.files ensures pieces[f] == Targets(w, s.disk)[f] {
        assert PieceOf(w, s, start, pieces, f);
      }
    } else {
      var f :| f in LeftOut(w, s, start) && f in s.disk && f in s.pieces && s.pieces[f] != Target(w, f, s.disk[f]);
      assert PieceOf(w, s, start, pieces, f);
      assert pieces[f] != Targets(w, s.disk)[f];
    }
  }

  lemma PieceAfter(w: World, s: State, start: Step, rest: seq<Step>, f: string)
    requires WellFormed(w) && DatedInv(w, s) && Completes(w, s, start, rest) && f in w.files
    ensures f in s.disk && f in s.pieces && PieceOf(w, s, start, Completed(w, s, start, rest).pieces, f)
  {
    var u := Apply(w, s, start);
    assert Dated(w, s, f);
    DatedInvStep(w, s, start);
    QuietRun(w, u, rest);
    if f in LeftOut(w, s, start) {
      UntouchedPieceStays(w, u, rest, f);
    } else {
      assert f in u.run.files && OnTrack(w, u, f);
      OnTrackRun(w, u, rest, f);
    }
  }

  // After a benign history the condition is enough.
  lemma CoveredIsCurrent(w: World, s: State, start: Step)
    requires Inv(w, s) && s.run.Idle? && Starts(start) && Covered(w, s, start)
    ensures Current(w, s, start)
  {
    forall f | f in LeftOut(w, s, start) && f in s.disk && f in s.pieces
      ensures s.pieces[f] == Target(w, f, s.disk[f])
    {
      assert Truthful(w, s, f);
    }
  }

  // The persisted graph is the full graph of the disk, and compared with any full rebuild of that disk it
  // lacks at most rows whose target was destroyed, and placeholders of such rows.
  lemma IncrementalEqualsFull(w: World, s0: State, history: seq<Step>, start: Step, rest: seq<Step>,
                              emitted: Doc, full: Doc)
    requires WellFormed(w) && Init(w, s0) && Runs(w, s0, history) && BenignRun(w, s0, history)
    requires Completes(w, After(w, s0, history), start, rest) && Covered(w, After(w, s0, history), start)
    requires Assembles(w, Targets(w, After(w, s0, history).disk), w.files, emitted) && Synthesized(w, emitted, full)
    ensures var t := Completed(w, After(w, s0, history), start, rest);
      t.graph.Some? && FullUpTo(t.destroyed, t.graph.value, full)
  {
    var s := After(w, s0, history);
    InitInv(w, s0);
    InvRun(w, s0, history);
    CoveredIsCurrent(w, s, start);
    RightIffCurrent(w, s, start, rest);
    FullRebuild(w, Targets(w, s.disk), emitted, full);
    var t := Completed(w, s, start, rest);
    RepresentsIsUnique(w, t.pieces, t.destroyed, t.graph.value, full);
  }

  // `g` is `full` but for rows into destroyed entities, and placeholders that only such rows reach.
  predicate FullUpTo(destroyed: set<Id>, g: Doc, full: Doc) {
    && (forall r :: r in g.rels ==> r in full.rels)
    && (forall r :: r in full.rels && r !in g.rels ==> r.to in destroyed)
    && (forall e :: e in g.entities ==> e in full.entities)
    && (forall e :: e in full.entities && e !in g.entities ==>
         e.file == "" && exists r :: r in full.rels && e.id in {r.from, r.to} && r.to in destroyed)
  }

  // A full run forgets what was destroyed before it.
  ghost predicate Forgets(s: State) {
    if s.run.Extracting? then !s.run.delta else s.destroyed == {}
  }

  lemma {:induction false} FullRunForgets(w: World, s: State, steps: seq<Step>)
    requires Forgets(s) && Runs(w, s, steps)
    requires forall step :: step in steps ==> Quiet(step) && !Starts(step)
    ensures Forgets(After(w, s, steps))
    decreases |steps|
  {
    if steps != [] {
      assert Quiet(steps[0]) && !Starts(steps[0]);
      FullRunForgets(w, Apply(w, s, steps[0]), steps[1..]);
    }
  }

  // After a full run the graph is exactly the full rebuild: whatever the history was, benign or not.
  lemma FullRunIsExact(w: World, s0: State, history: seq<Step>, rest: seq<Step>, emitted: Doc, full: Doc)
    requires WellFormed(w) && Init(w, s0) && Runs(w, s0, history)
    requires Completes(w, After(w, s0, history), StartFull, rest)
    requires Assembles(w, Targets(w, After(w, s0, history).disk), w.files, emitted) && Synthesized(w, emitted, full)
    ensures var t := Completed(w, After(w, s0, history), StartFull, rest);
      && t.graph.Some?
      && (forall r :: r in t.graph.value.rels <==> r in full.rels)
      && (forall e :: e in t.graph.value.entities <==> e in full.entities)
  {
    var s := After(w, s0, history);
    InitInv(w, s0);
    DatedInvRun(w, s0, history);
    RightIffCurrent(w, s, StartFull, rest);
    FullRebuild(w, Targets(w, s.disk), emitted, full);
    FullRunForgets(w, Apply(w, s, StartFull), rest);
    var t := Completed(w, s, StartFull, rest);
    RepresentsIsUnique(w, t.pieces, t.destroyed, t.graph.value, full);
  }

  // ---------------------------------------------------------------------------------------------
  // The condition is exact.

  // What a committed entry, or the lack of one, says of the piece the graph holds.
  predicate Agrees(w: World, f: string, m: Option<Entry>, piece: Piece) {
    piece.Built? ==> m.Some? && m.value.failures == 0 && SameRead(w, f, m.value.hash, piece.pre, piece.work)
  }

  ghost predicate PairedInv(w: World, s: State) {
    forall f :: f in w.files && f in s.pieces && !(s.run.Written? && f in s.run.files) ==>
      Agrees(w, f, Lookup(s.manifest, f), s.pieces[f])
  }

  // No run is killed between writing its graph and committing its manifest.
  ghost predicate PairedRun(w: World, s: State, steps: seq<Step>)
    requires Runs(w, s, steps)
    decreases |steps|
  {
    steps == [] || (!(steps[0].Kill? && s.run.Written?) && PairedRun(w, Apply(w, s, steps[0]), steps[1..]))
  }

  lemma PairedStep(w: World, s: State, step: Step)
    requires DatedInv(w, s) && PairedInv(w, s) && Enabled(w, s, step) && !(step.Kill? && s.run.Written?)
    ensures PairedInv(w, Apply(w, s, step))
  {
    if step.CommitManifest? {
      forall f | f in w.files
        ensures Agrees(w, f, Lookup(Apply(w, s, step).manifest, f), s.pieces[f])
      {
        assert Dated(w, s, f);
        CommittedOf(w, s, f);
      }
    }
  }

  lemma {:induction false} PairedInvRun(w: World, s: State, steps: seq<Step>)
    requires WellFormed(w) && DatedInv(w, s) && PairedInv(w, s) && Runs(w, s, steps) && PairedRun(w, s, steps)
    ensures PairedInv(w, After(w, s, steps))
    decreases |steps|
  {
    if steps != [] {
      PairedStep(w, s, steps[0]);
      DatedInvStep(w, s, steps[0]);
      PairedInvRun(w, Apply(w, s, steps[0]), steps[1..]);
    }
  }

  lemma CurrentIsCovered(w: World, s: State, start: Step)
    requires DatedInv(w, s) && PairedInv(w, s) && s.run.Idle? && Starts(start) && Current(w, s, start)
    ensures Covered(w, s, start)
  {
    forall f | f in LeftOut(w, s, start) && f in s.disk && f in s.pieces
      ensures Trusted(s.disk[f], Lookup(s.manifest, f)) || (w.skips(f, s.disk[f]) && s.pieces[f] == Nothing)
    {
      assert Dated(w, s, f) && Agrees(w, f, Lookup(s.manifest, f), s.pieces[f]);
    }
  }

  // After every benign history in which each graph written was followed by its commit, a run is right if and
  // only if the condition holds when it starts.
  lemma RightIffCovered(w: World, s0: State, history: seq<Step>, start: Step, rest: seq<Step>)
    requires WellFormed(w) && Init(w, s0) && Runs(w, s0, history)
    requires BenignRun(w, s0, history) && PairedRun(w, s0, history)
    requires Completes(w, After(w, s0, history), start, rest)
    ensures var s := After(w, s0, history);
      Completed(w, s, start, rest).pieces == Targets(w, s.disk) <==> Covered(w, s, start)
  {
    var s := After(w, s0, history);
    InitInv(w, s0);
    InvRun(w, s0, history);
    PairedInvRun(w, s0, history);
    RightIffCurrent(w, s, start, rest);
    if Covered(w, s, start) {
      CoveredIsCurrent(w, s, start);
    } else if Current(w, s, start) {
      CurrentIsCovered(w, s, start);
    }
  }

  // What makes the manifest not speak for a file that is left out: its retries are spent, or git was silent
  // on a file that has no entry or another content.
  lemma UntrustedIff(w: World, s: State, report: Option<set<string>>, f: string)
    requires DatedInv(w, s) && f in LeftOut(w, s, StartDelta(report))
    ensures !Trusted(s.disk[f], Lookup(s.manifest, f)) <==>
      || (f in s.manifest && s.manifest[f].failures > MAX_EXTRACT_RETRIES)
      || (!Suspect(s.manifest, report, f) && (f !in s.manifest || s.manifest[f].hash != s.disk[f]))
  {
    assert Dated(w, s, f);
    assert f in Dirty(s.manifest, s.disk, w.files, report) <==>
      Suspect(s.manifest, report, f) && IsChanged(s.manifest, f, s.disk[f]);
  }

  // The retries of a file left out by a run that hashes every file are not spent.
  predicate NoneSpent(w: World, s: State) {
    forall f :: f in LeftOut(w, s, StartDelta(None)) && f in s.manifest ==>
      s.manifest[f].failures <= MAX_EXTRACT_RETRIES
  }

  lemma NoneSpentIsCovered(w: World, s: State)
    requires DatedInv(w, s) && NoneSpent(w, s)
    ensures Covered(w, s, StartDelta(None))
  {
    forall f | f in LeftOut(w, s, StartDelta(None)) ensures Trusted(s.disk[f], Lookup(s.manifest, f)) {
      UntrustedIff(w, s, None, f);
    }
  }

  // When every file is hashed, spent retries are all that can stand between a run and the full rebuild: no
  // condition on git, and none on what the manifest says of the files' contents.
  lemma HashPathEqualsFull(w: World, s0: State, history: seq<Step>, rest: seq<Step>, emitted: Doc, full: Doc)
    requires WellFormed(w) && Init(w, s0) && Runs(w, s0, history) && BenignRun(w, s0, history)
    requires Completes(w, After(w, s0, history), StartDelta(None), rest) && NoneSpent(w, After(w, s0, history))
    requires Assembles(w, Targets(w, After(w, s0, history).disk), w.files, emitted) && Synthesized(w, emitted, full)
    ensures var t := Completed(w, After(w, s0, history), StartDelta(None), rest);
      t.graph.Some? && FullUpTo(t.destroyed, t.graph.value, full)
  {
    InitInv(w, s0);
    InvRun(w, s0, history);
    NoneSpentIsCovered(w, After(w, s0, history));
    IncrementalEqualsFull(w, s0, history, StartDelta(None), rest, emitted, full);
  }
}
