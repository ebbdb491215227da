// Histories that go wrong, each played from the initial state in a repository of one file: one for every
// guard of the commit protocol, and one for every way in which a delta run can leave out a stale file.
module Histories {
  import opened Graph
  import opened Merge
  import opened Rebuild
  import opened Wrappers
  import opened Manifest
  import opened Filter
  import opened Commit
  import opened EndToEnd
  import MergeLaws

  // ---------------------------------------------------------------------------------------------
  // Playing one run over one file.

  // While a run is extracting, it acts on the file or somebody edits the file.
  datatype Move = Acts(act: Act) | Edits(version: nat)

  // The disk's version of the file and what the run knows of it.
  datatype Sight = Sight(disk: nat, run: FileRun)

  predicate CanMove(w: World, f: string, x: Sight, move: Move) {
    match move
    case Acts(act) => CanAct(w, f, x.disk, x.run, act)
    case Edits(v) => v > x.disk
  }

  function Moved(w: World, f: string, x: Sight, move: Move): Sight
    requires CanMove(w, f, x, move)
  {
    match move
    case Acts(act) => x.(run := Do(w, f, x.disk, x.run, act))
    case Edits(v) => x.(disk := v)
  }

  predicate CanPlay(w: World, f: string, x: Sight, moves: seq<Move>)
    decreases |moves|
  {
    moves == [] || (CanMove(w, f, x, moves[0]) && CanPlay(w, f, Moved(w, f, x, moves[0]), moves[1..]))
  }

  function Played(w: World, f: string, x: Sight, moves: seq<Move>): Sight
    requires CanPlay(w, f, x, moves)
    decreases |moves|
  {
    if moves == [] then x else Played(w, f, Moved(w, f, x, moves[0]), moves[1..])
  }

  function Fresh(d: nat): Sight {
    Sight(d, FileRun(None, None, None, None, None, false))
  }

  // A repository of one file, after some history.
  ghost predicate Solo(w: World, s0: State, steps: seq<Step>, f: string) {
    && WellFormed(w) && w.files == {f} && Init(w, s0) && Runs(w, s0, steps)
    && After(w, s0, steps).disk.Keys == {f} && After(w, s0, steps).pieces.Keys == {f}
    && f in After(w, s0, steps).disk && f in After(w, s0, steps).pieces
  }

  lemma {:induction false} Extend(w: World, s: State, steps: seq<Step>, step: Step) returns (steps': seq<Step>)
    requires Runs(w, s, steps) && Enabled(w, After(w, s, steps), step)
    ensures Runs(w, s, steps') && After(w, s, steps') == Apply(w, After(w, s, steps), step)
    ensures steps' == steps + [step]
    ensures BenignRun(w, s, steps') <==> BenignRun(w, s, steps) && BenignStep(w, After(w, s, steps), step)
    ensures PairedRun(w, s, steps') <==>
      PairedRun(w, s, steps) && !(step.Kill? && After(w, s, steps).run.Written?)
    decreases |steps|
  {
    steps' := steps + [step];
    if steps == [] {
      assert steps'[1..] == [];
    } else {
      var rest := Extend(w, Apply(w, s, steps[0]), steps[1..], step);
      assert steps'[1..] == rest;
    }
  }

  predicate BenignPlay(w: World, f: string, m: Option<Entry>, x: Sight, moves: seq<Move>)
    requires CanPlay(w, f, x, moves)
    decreases |moves|
  {
    moves == [] || (BenignMove(w, f, m, x, moves[0]) && BenignPlay(w, f, m, Moved(w, f, x, moves[0]), moves[1..]))
  }

  predicate BenignMove(w: World, f: string, m: Option<Entry>, x: Sight, move: Move) {
    move.Acts? ==> Benign(w, f, x.disk, m, x.run, move.act)
  }

  // What the state says of the file while a run works on it.
  predicate Sees(s: State, f: string, x: Sight) {
    s.run.Extracting? && f in s.disk && s.disk[f] == x.disk && s.run.files == map[f := x.run]
  }

  lemma {:induction false} Play(w: World, s0: State, steps: seq<Step>, f: string, x: Sight, moves: seq<Move>)
    returns (steps': seq<Step>)
    requires Solo(w, s0, steps, f) && Sees(After(w, s0, steps), f, x) && CanPlay(w, f, x, moves)
    ensures Solo(w, s0, steps', f) && Sees(After(w, s0, steps'), f, Played(w, f, x, moves))
    ensures After(w, s0, steps').(disk := After(w, s0, steps).disk, run := After(w, s0, steps).run) ==
      After(w, s0, steps)
    ensures After(w, s0, steps').run.delta == After(w, s0, steps).run.delta
    ensures BenignRun(w, s0, steps') <==>
      BenignRun(w, s0, steps) && BenignPlay(w, f, Lookup(After(w, s0, steps).manifest, f), x, moves)
    ensures PairedRun(w, s0, steps') <==> PairedRun(w, s0, steps)
    decreases |moves|
  {
    if moves == [] {
      steps' := steps;
    } else {
      steps' := Extend(w, s0, steps, if moves[0].Acts? then Extract(f, moves[0].act) else Edit(f, moves[0].version));
      steps' := Play(w, s0, steps', f, Moved(w, f, x, moves[0]), moves[1..]);
    }
  }

  // The placeholders synthesis adds to a document.
  lemma {:induction false} Placeholders(ids: set<Id>) returns (es: seq<Entity>)
    ensures forall e :: e in es <==> e == ExternalEntity(e.id) && e.id in ids
    decreases |ids|
  {
    if ids == {} {
      es := [];
    } else {
      var x :| x in ids;
      es := Placeholders(ids - {x});
      es := es + [ExternalEntity(x)];
    }
  }

  lemma Synthesis(w: World, d: Doc) returns (out: Doc)
    ensures Synthesized(w, d, out)
  {
    var es := Placeholders(set x | x in Endpoints(d.rels) && w.external(x) && x !in Ids(d.entities));
    out := Doc(d.entities + es, d.rels);
  }

  // The end of the extraction: the graph of what was built is written.
  lemma WriteOut(w: World, s0: State, steps: seq<Step>, f: string, x: Sight) returns (steps': seq<Step>)
    requires Solo(w, s0, steps, f) && Sees(After(w, s0, steps), f, x) && x.run.outcome.Some?
    requires !After(w, s0, steps).run.delta
    ensures Solo(w, s0, steps', f)
    ensures var s, t := After(w, s0, steps), After(w, s0, steps');
      && t.run == Written(map[f := x.run]) && t.disk == s.disk && t.manifest == s.manifest
      && t.pieces == map[f := x.run.outcome.value] && t.graph.Some?
    ensures BenignRun(w, s0, steps') <==> BenignRun(w, s0, steps)
    ensures PairedRun(w, s0, steps') <==> PairedRun(w, s0, steps)
  {
    var s, piece := After(w, s0, steps), x.run.outcome.value;
    var emitted := Part(w, f, piece);
    OneOutcome(s.pieces, f, x.run);
    PartAssembles(w, f, piece);
    var out := Synthesis(w, emitted);
    steps' := Extend(w, s0, steps, WriteGraph(emitted, [], emitted, out));
  }

  lemma OneOutcome(pieces: Pieces, f: string, r: FileRun)
    requires pieces.Keys == {f} && r.outcome.Some?
    ensures pieces + Outcomes(map[f := r]) == map[f := r.outcome.value]
  {
    assert Outcomes(map[f := r]) == map[f := r.outcome.value];
  }

  lemma PartAssembles(w: World, f: string, piece: Piece)
    ensures Assembles(w, map[f := piece], {f}, Part(w, f, piece))
  {
    var pieces := map[f := piece];
    forall e ensures e in Part(w, f, piece).entities <==> HasEntity(w, pieces, {f}, e) {
      assert e in Part(w, f, pieces[f]).entities <==> e in Part(w, f, piece).entities;
    }
    forall r ensures r in Part(w, f, piece).rels <==> HasRel(w, pieces, {f}, r) {
      assert r in Part(w, f, pieces[f]).rels <==> r in Part(w, f, piece).rels;
    }
  }

  // A full run up to the graph it writes.
  lemma FullRun(w: World, s0: State, steps: seq<Step>, f: string, d: nat, moves: seq<Move>)
    returns (steps': seq<Step>)
    requires Solo(w, s0, steps, f) && After(w, s0, steps).run.Idle? && After(w, s0, steps).disk[f] == d
    requires CanPlay(w, f, Fresh(d), moves) && Played(w, f, Fresh(d), moves).run.outcome.Some?
    ensures Solo(w, s0, steps', f)
    ensures var t, x := After(w, s0, steps'), Played(w, f, Fresh(d), moves);
      && t.run == Written(map[f := x.run]) && t.disk[f] == x.disk && t.manifest == After(w, s0, steps).manifest
      && t.pieces[f] == x.run.outcome.value && t.graph.Some?
    ensures BenignRun(w, s0, steps') <==>
      BenignRun(w, s0, steps) && BenignPlay(w, f, Lookup(After(w, s0, steps).manifest, f), Fresh(d), moves)
    ensures PairedRun(w, s0, steps') <==> PairedRun(w, s0, steps)
  {
    steps' := Extend(w, s0, steps, StartFull);
    assert Started(w.files) == map[f := Fresh(d).run];
    steps' := Play(w, s0, steps', f, Fresh(d), moves);
    steps' := WriteOut(w, s0, steps', f, Played(w, f, Fresh(d), moves));
  }

  // The commit of that run.
  lemma Finish(w: World, s0: State, steps: seq<Step>, f: string, r: FileRun) returns (steps': seq<Step>)
    requires Solo(w, s0, steps, f) && After(w, s0, steps).run == Written(map[f := r]) && (r.failed ==> r.stamp.Some?)
    ensures Solo(w, s0, steps', f)
    ensures var s, t := After(w, s0, steps), After(w, s0, steps');
      && t.run.Idle? && t.disk == s.disk && t.pieces == s.pieces && t.graph == s.graph
      && Lookup(t.manifest, f) == Entered(Lookup(s.manifest, f), r)
    ensures BenignRun(w, s0, steps') <==> BenignRun(w, s0, steps)
    ensures PairedRun(w, s0, steps') <==> PairedRun(w, s0, steps)
  {
    steps' := Extend(w, s0, steps, CommitManifest);
    var files := map[f := r];
    assert f in Stamps(files) <==> r.stamp.Some?;
    assert f in Failures(files) <==> r.failed;
  }

  function Entered(m: Option<Entry>, r: FileRun): Option<Entry> {
    if r.stamp.None? then m
    else if !r.failed then r.stamp
    else
      var e := r.stamp.value;
      Some(e.(failures := if m.Some? && m.value.hash == e.hash then m.value.failures + 1 else 1))
  }

  lemma First(w: World, f: string, m: Option<Entry>, x: Sight, a: Move, rest: seq<Move>)
    requires CanMove(w, f, x, a) && CanPlay(w, f, Moved(w, f, x, a), rest)
    ensures CanPlay(w, f, x, [a] + rest) && Played(w, f, x, [a] + rest) == Played(w, f, Moved(w, f, x, a), rest)
    ensures BenignPlay(w, f, m, x, [a] + rest) <==>
      BenignMove(w, f, m, x, a) && BenignPlay(w, f, m, Moved(w, f, x, a), rest)
  {
    assert ([a] + rest)[1..] == rest;
  }

  lemma Two(w: World, f: string, m: Option<Entry>, x: Sight, a: Move, b: Move)
    requires CanMove(w, f, x, a) && CanMove(w, f, Moved(w, f, x, a), b)
    ensures CanPlay(w, f, x, [a, b]) && Played(w, f, x, [a, b]) == Moved(w, f, Moved(w, f, x, a), b)
    ensures BenignPlay(w, f, m, x, [a, b]) <==>
      BenignMove(w, f, m, x, a) && BenignMove(w, f, m, Moved(w, f, x, a), b)
  {
    First(w, f, m, Moved(w, f, x, a), b, []);
    First(w, f, m, x, a, [b]);
    assert [b] + [] == [b] && [a] + [b] == [a, b];
  }

  lemma Three(w: World, f: string, m: Option<Entry>, x: Sight, a: Move, b: Move, c: Move)
    requires CanMove(w, f, x, a) && CanMove(w, f, Moved(w, f, x, a), b)
    requires CanMove(w, f, Moved(w, f, Moved(w, f, x, a), b), c)
    ensures CanPlay(w, f, x, [a, b, c])
    ensures Played(w, f, x, [a, b, c]) == Moved(w, f, Moved(w, f, Moved(w, f, x, a), b), c)
    ensures BenignPlay(w, f, m, x, [a, b, c]) <==>
      && BenignMove(w, f, m, x, a) && BenignMove(w, f, m, Moved(w, f, x, a), b)
      && BenignMove(w, f, m, Moved(w, f, Moved(w, f, x, a), b), c)
  {
    Two(w, f, m, Moved(w, f, x, a), b, c);
    First(w, f, m, x, a, [b, c]);
    assert [a] + [b, c] == [a, b, c];
  }

  // A full run that meets no trouble, and its commit.
  lemma GoodRun(w: World, s0: State, steps: seq<Step>, f: string, d: nat) returns (steps': seq<Step>)
    requires Solo(w, s0, steps, f) && After(w, s0, steps).run.Idle? && After(w, s0, steps).disk[f] == d
    requires !w.twice(f) && !w.skips(f, d)
    ensures Solo(w, s0, steps', f)
    ensures var t := After(w, s0, steps');
      && t.run.Idle? && t.disk[f] == d && t.graph.Some?
      && t.pieces[f] == Built(NotRead, d) && Lookup(t.manifest, f) == Some(Entry(d, d, 0))
    ensures BenignRun(w, s0, steps') <==> BenignRun(w, s0, steps)
    ensures PairedRun(w, s0, steps') <==> PairedRun(w, s0, steps)
  {
    Two(w, f, Lookup(After(w, s0, steps).manifest, f), Fresh(d), Acts(WorkStat), Acts(WorkRead));
    steps' := FullRun(w, s0, steps, f, d, [Acts(WorkStat), Acts(WorkRead)]);
    steps' := Finish(w, s0, steps', f, Played(w, f, Fresh(d), [Acts(WorkStat), Acts(WorkRead)]).run);
  }

  // ---------------------------------------------------------------------------------------------
  // One history for each guard. In each the run is over, or dead, and the manifest leads the graph.

  // The file cannot be read while its old entry still matches.
  lemma UnreadWhileTrusted(w: World, s0: State, f: string) returns (steps: seq<Step>)
    requires WellFormed(w) && w.files == {f} && Init(w, s0) && !w.twice(f) && !w.skips(f, s0.disk[f])
    ensures Runs(w, s0, steps) && After(w, s0, steps).run.Idle? && Leads(w, After(w, s0, steps), f)
  {
    var d := s0.disk[f];
    steps := GoodRun(w, s0, [], f, d);
    Two(w, f, Some(Entry(d, d, 0)), Fresh(d), Acts(WorkStat), Acts(ReadError));
    steps := FullRun(w, s0, steps, f, d, [Acts(WorkStat), Acts(ReadError)]);
    steps := Finish(w, s0, steps, f, Played(w, f, Fresh(d), [Acts(WorkStat), Acts(ReadError)]).run);
  }

  // The pre-pass has stamped the file, and the worker cannot read it.
  lemma UnreadAfterPrePass(w: World, s0: State, f: string) returns (steps: seq<Step>)
    requires WellFormed(w) && w.files == {f} && Init(w, s0) && w.twice(f) && !w.skips(f, s0.disk[f])
    ensures Runs(w, s0, steps) && After(w, s0, steps).run.Idle? && Leads(w, After(w, s0, steps), f)
  {
    var d := s0.disk[f];
    var moves := [Acts(PreStat), Acts(PreRead), Acts(WorkStat), Acts(ReadError)];
    Three(w, f, None, Moved(w, f, Fresh(d), Acts(PreStat)), Acts(PreRead), Acts(WorkStat), Acts(ReadError));
    First(w, f, None, Fresh(d), Acts(PreStat), [Acts(PreRead), Acts(WorkStat), Acts(ReadError)]);
    assert [Acts(PreStat)] + [Acts(PreRead), Acts(WorkStat), Acts(ReadError)] == moves;
    steps := FullRun(w, s0, [], f, d, moves);
    steps := Finish(w, s0, steps, f, Played(w, f, Fresh(d), moves).run);
  }

  // The pre-pass cannot read the file, and the worker's stamp hides that.
  lemma PrePassErrorHidden(w: World, s0: State, f: string) returns (steps: seq<Step>)
    requires WellFormed(w) && w.files == {f} && Init(w, s0) && w.twice(f) && !w.skips(f, s0.disk[f])
    ensures Runs(w, s0, steps) && After(w, s0, steps).run.Idle? && Leads(w, After(w, s0, steps), f)
  {
    var d := s0.disk[f];
    var moves := [Acts(PreError), Acts(WorkStat), Acts(WorkRead)];
    Three(w, f, None, Fresh(d), Acts(PreError), Acts(WorkStat), Acts(WorkRead));
    steps := FullRun(w, s0, [], f, d, moves);
    steps := Finish(w, s0, steps, f, Played(w, f, Fresh(d), moves).run);
  }

  // The classifier skips the file, which is hashed after it was edited to what the classifier would take.
  lemma HashedAtOtherContent(w: World, s0: State, f: string, v: nat) returns (steps: seq<Step>)
    requires WellFormed(w) && w.files == {f} && Init(w, s0) && !w.twice(f)
    requires w.skips(f, s0.disk[f]) && v > s0.disk[f] && !w.skips(f, v)
    ensures Runs(w, s0, steps) && After(w, s0, steps).run.Idle? && Leads(w, After(w, s0, steps), f)
  {
    var d := s0.disk[f];
    var moves := [Acts(WorkStat), Edits(v), Acts(WorkSkip(true, v))];
    Three(w, f, None, Fresh(d), Acts(WorkStat), Edits(v), Acts(WorkSkip(true, v)));
    steps := FullRun(w, s0, [], f, d, moves);
    steps := Finish(w, s0, steps, f, Played(w, f, Fresh(d), moves).run);
  }

  // The classifier takes the file, which is read after it was edited to what the classifier would skip.
  lemma ReadAtOtherContent(w: World, s0: State, f: string, v: nat) returns (steps: seq<Step>)
    requires WellFormed(w) && w.files == {f} && Init(w, s0) && !w.twice(f)
    requires !w.skips(f, s0.disk[f]) && v > s0.disk[f] && w.skips(f, v)
    ensures Runs(w, s0, steps) && After(w, s0, steps).run.Idle? && Leads(w, After(w, s0, steps), f)
  {
    var d := s0.disk[f];
    var moves := [Acts(WorkStat), Edits(v), Acts(WorkRead)];
    Three(w, f, None, Fresh(d), Acts(WorkStat), Edits(v), Acts(WorkRead));
    steps := FullRun(w, s0, [], f, d, moves);
    steps := Finish(w, s0, steps, f, Played(w, f, Fresh(d), moves).run);
  }

  // Extraction of a trusted file fails, and the run is killed before the commit flags it. Up to the kill the
  // history is benign.
  lemma KilledInWindow(w: World, s0: State, f: string) returns (steps: seq<Step>)
    requires WellFormed(w) && w.files == {f} && Init(w, s0) && !w.twice(f) && !w.skips(f, s0.disk[f])
    ensures Runs(w, s0, steps) && BenignRun(w, s0, steps) && InWindow(After(w, s0, steps), f)
    ensures Runs(w, s0, steps + [Kill]) && var t := After(w, s0, steps + [Kill]); t.run.Idle? && Leads(w, t, f)
  {
    var d := s0.disk[f];
    steps := GoodRun(w, s0, [], f, d);
    Two(w, f, Some(Entry(d, d, 0)), Fresh(d), Acts(WorkStat), Acts(WorkFail));
    steps := FullRun(w, s0, steps, f, d, [Acts(WorkStat), Acts(WorkFail)]);
    var killed := Extend(w, s0, steps, Kill);
  }

  // ---------------------------------------------------------------------------------------------
  // Benign histories after which a delta run leaves out a file that the graph has wrong.

  // The run starts, leaves f out, and whenever it completes on a quiet tree the graph has f wrong.
  ghost predicate GoesWrong(w: World, s0: State, steps: seq<Step>, start: Step, f: string) {
    && Solo(w, s0, steps, f) && Starts(start) && Enabled(w, After(w, s0, steps), start)
    && f in LeftOut(w, After(w, s0, steps), start)
    && forall rest :: Completes(w, After(w, s0, steps), start, rest) ==>
         f in Completed(w, After(w, s0, steps), start, rest).pieces
         && Completed(w, After(w, s0, steps), start, rest).pieces[f] != Target(w, f, After(w, s0, steps).disk[f])
  }

  lemma LeftOutGoesWrong(w: World, s0: State, steps: seq<Step>, start: Step, f: string)
    requires Solo(w, s0, steps, f) && Starts(start) && Enabled(w, After(w, s0, steps), start)
    requires f in LeftOut(w, After(w, s0, steps), start)
    requires After(w, s0, steps).pieces[f] != Target(w, f, After(w, s0, steps).disk[f])
    ensures GoesWrong(w, s0, steps, start, f)
  {
    var s := After(w, s0, steps);
    InitInv(w, s0);
    DatedInvRun(w, s0, steps);
    forall rest | Completes(w, s, start, rest)
      ensures f in Completed(w, s, start, rest).pieces
      ensures Completed(w, s, start, rest).pieces[f] != Target(w, f, s.disk[f])
    {
      PieceAfter(w, s, start, rest, f);
    }
  }

  // The only file of the repository is left out.
  lemma LeavesOut(w: World, s: State, report: Option<set<string>>, f: string)
    requires w.files == {f} && s.run.Idle? && s.graph.Some?
    requires if report.None? then !Differs(s.manifest, s.disk, f) else !Suspect(s.manifest, report, f)
    ensures Enabled(w, s, StartDelta(report)) && f in LeftOut(w, s, StartDelta(report))
  {
    assert Dirty(s.manifest, s.disk, w.files, report) == {};
    assert f in Unchanged(w.base, s.manifest, s.disk, w.files, report);
  }

  // A delta run that presents nothing completes, whatever the graph holds.
  lemma EmptyDelta(w: World, s0: State, steps: seq<Step>, start: Step, f: string) returns (rest: seq<Step>)
    requires Solo(w, s0, steps, f)
    requires start.StartDelta? && Enabled(w, After(w, s0, steps), start) && f in LeftOut(w, After(w, s0, steps), start)
    ensures Completes(w, After(w, s0, steps), start, rest)
  {
    var s := After(w, s0, steps);
    var u := Apply(w, s, start);
    assert u.run.files.Keys == Changed(w, s, start.report) == {};
    var write := EmptyWrite(w, u);
    rest := TwoSteps(w, u, write);
  }

  lemma EmptyWrite(w: World, u: State) returns (write: Step)
    requires u.run.Extracting? && u.run.delta && u.run.files.Keys == {} && u.graph.Some?
    ensures write.WriteGraph? && Enabled(w, u, write)
  {
    var emitted := Doc([], []);
    var carried, merged := MergeLaws.HasOutcome(emitted, u.graph.value, {});
    var out := Synthesis(w, merged);
    write := WriteGraph(emitted, carried, merged, out);
    assert Assembles(w, u.pieces + Outcomes(u.run.files), {}, emitted);
  }

  lemma TwoSteps(w: World, u: State, write: Step) returns (rest: seq<Step>)
    requires write.WriteGraph? && Enabled(w, u, write)
    ensures Runs(w, u, rest) && After(w, u, rest).run.Idle?
    ensures forall step :: step in rest ==> Quiet(step) && !Starts(step)
  {
    var none, t := [], Apply(w, u, write);
    assert Runs(w, Apply(w, t, CommitManifest), none);
    var last := [CommitManifest];
    assert last[1..] == none && Runs(w, t, last);
    rest := [write] + last;
    assert rest[1..] == last;
  }

  // Git sees a clean tree: at the commit that was indexed, or with no commit to compare with.
  ghost predicate CleanTree(w: World, s: State, report: Option<set<string>>, head: string, commit: string) {
    report == Report(GitOf(head, s.disk, s.disk, s.disk, w.files), commit)
  }

  lemma CleanTreeIsSilent(w: World, s: State, head: string, commit: string)
    ensures CleanTree(w, s, Some({}), head, commit)
  {
    var git := GitOf(head, s.disk, s.disk, s.disk, w.files);
    var none: set<string> := {};
    assert git.status.value == none && git.since.value == none && none + none == none;
    assert Report(git, commit).value == none;
  }

  // The file could not be read in the first run, so it has no entry. Git sees a clean tree at the commit
  // that was indexed and reports nothing: the file is not presented, though it reads as new.
  lemma UnreadIsForgotten(w: World, s0: State, f: string) returns (steps: seq<Step>, rest: seq<Step>)
    requires WellFormed(w) && w.files == {f} && Init(w, s0) && !w.twice(f) && !w.skips(f, s0.disk[f])
    ensures GoesWrong(w, s0, steps, StartDelta(Some({})), f) && BenignRun(w, s0, steps) && PairedRun(w, s0, steps)
    ensures Completes(w, After(w, s0, steps), StartDelta(Some({})), rest)
    ensures f !in After(w, s0, steps).manifest
    ensures forall head :: head != "" ==> CleanTree(w, After(w, s0, steps), Some({}), head, head)
  {
    var d, start := s0.disk[f], StartDelta(Some({}));
    Two(w, f, None, Fresh(d), Acts(WorkStat), Acts(ReadError));
    steps := FullRun(w, s0, [], f, d, [Acts(WorkStat), Acts(ReadError)]);
    steps := Finish(w, s0, steps, f, Played(w, f, Fresh(d), [Acts(WorkStat), Acts(ReadError)]).run);
    var s := After(w, s0, steps);
    LeavesOut(w, s, start.report, f);
    LeftOutGoesWrong(w, s0, steps, start, f);
    rest := EmptyDelta(w, s0, steps, start, f);
    forall head | head != "" ensures CleanTree(w, s, Some({}), head, head) {
      CleanTreeIsSilent(w, s, head, head);
    }
  }

  // The first run dies after it wrote its graph, so there is no manifest and git is not asked what changed
  // since. The file is edited and the edit committed: git reports nothing, and the graph keeps the old content.
  lemma CommittedEditIsMissed(w: World, s0: State, f: string, v: nat) returns (steps: seq<Step>, rest: seq<Step>)
    requires WellFormed(w) && w.files == {f} && Init(w, s0) && !w.twice(f) && !w.skips(f, s0.disk[f])
    requires v > s0.disk[f] && !w.skips(f, v)
    ensures GoesWrong(w, s0, steps, StartDelta(Some({})), f) && BenignRun(w, s0, steps)
    ensures Completes(w, After(w, s0, steps), StartDelta(Some({})), rest)
    ensures After(w, s0, steps).manifest == map[] && After(w, s0, steps).disk[f] == v
    ensures forall head :: head != "" ==> CleanTree(w, After(w, s0, steps), Some({}), head, "")
  {
    var d, start := s0.disk[f], StartDelta(Some({}));
    Two(w, f, None, Fresh(d), Acts(WorkStat), Acts(WorkRead));
    steps := FullRun(w, s0, [], f, d, [Acts(WorkStat), Acts(WorkRead)]);
    steps := Extend(w, s0, steps, Kill);
    steps := Extend(w, s0, steps, Edit(f, v));
    var s := After(w, s0, steps);
    LeavesOut(w, s, start.report, f);
    LeftOutGoesWrong(w, s0, steps, start, f);
    rest := EmptyDelta(w, s0, steps, start, f);
    forall head | head != "" ensures CleanTree(w, s, Some({}), head, "") {
      CleanTreeIsSilent(w, s, head, "");
    }
  }

  // One more failed extraction of the same content.
  lemma FailingRun(w: World, s0: State, steps: seq<Step>, f: string, d: nat, m: Option<Entry>)
    returns (steps': seq<Step>)
    requires Solo(w, s0, steps, f) && After(w, s0, steps).run.Idle? && After(w, s0, steps).disk[f] == d
    requires !w.twice(f) && !w.skips(f, d)
    requires m == Lookup(After(w, s0, steps).manifest, f) && (m.Some? ==> m.value.hash == d)
    ensures Solo(w, s0, steps', f)
    ensures var t := After(w, s0, steps');
      && t.run.Idle? && t.disk[f] == d && t.graph.Some? && t.pieces[f] == Nothing
      && Lookup(t.manifest, f) == Some(Entry(d, d, if m.Some? then m.value.failures + 1 else 1))
    ensures BenignRun(w, s0, steps') <==> BenignRun(w, s0, steps)
    ensures PairedRun(w, s0, steps') <==> PairedRun(w, s0, steps)
  {
    Two(w, f, m, Fresh(d), Acts(WorkStat), Acts(WorkFail));
    steps' := FullRun(w, s0, steps, f, d, [Acts(WorkStat), Acts(WorkFail)]);
    steps' := Finish(w, s0, steps', f, Played(w, f, Fresh(d), [Acts(WorkStat), Acts(WorkFail)]).run);
  }

  // Extraction failed three times and the retries are spent: even a run that hashes every file leaves it out.
  lemma SpentIsForgotten(w: World, s0: State, f: string) returns (steps: seq<Step>, rest: seq<Step>)
    requires WellFormed(w) && w.files == {f} && Init(w, s0) && !w.twice(f) && !w.skips(f, s0.disk[f])
    ensures GoesWrong(w, s0, steps, StartDelta(None), f) && BenignRun(w, s0, steps) && PairedRun(w, s0, steps)
    ensures Completes(w, After(w, s0, steps), StartDelta(None), rest)
    ensures var s := After(w, s0, steps); f in s.manifest && s.manifest[f].failures == MAX_EXTRACT_RETRIES + 1
  {
    var d, start := s0.disk[f], StartDelta(None);
    steps := FailingRun(w, s0, [], f, d, None);
    steps := FailingRun(w, s0, steps, f, d, Some(Entry(d, d, 1)));
    steps := FailingRun(w, s0, steps, f, d, Some(Entry(d, d, 2)));
    var s := After(w, s0, steps);
    assert f in s.manifest && s.manifest[f] == Entry(d, d, 3);
    LeavesOut(w, s, start.report, f);
    LeftOutGoesWrong(w, s0, steps, start, f);
    rest := EmptyDelta(w, s0, steps, start, f);
  }
}
