// The commit protocol between the working tree, the persisted graph and the persisted manifest, as a step
// system. Source files are edited, and runs fail or are killed, between any two steps.
module Commit {
  import opened Graph
  import opened Merge
  import opened Rebuild
  import opened Wrappers
  import opened Manifest
  import opened Filter

  // ---------------------------------------------------------------------------------------------
  // One file during one run.

  // What the pre-pass statted and read, what the worker statted, the stamp recorded, and what was built.
  datatype FileRun = FileRun(preStat: Option<nat>, pre: Option<Pre>, stat: Option<nat>, stamp: Option<Entry>,
                             outcome: Option<Piece>, failed: bool)

  datatype Act =
    | PreStat | PreRead | PreError                      // the cross-file pre-pass
    | WorkStat                                          // the worker's own stat, which the classifier uses
    | WorkRead | WorkFail | ReadError                   // extracted; extraction failed; not readable
    | WorkSkip(hashed: bool, at: nat)                   // classified as skipped, and hashed at once

  // Is the worker about to decide on the file?
  predicate AtWorker(r: FileRun) {
    r.stat.Some? && r.outcome.None?
  }

  // `d` is the version on disk.
  predicate CanAct(w: World, f: string, d: nat, r: FileRun, act: Act) {
    match act
    case PreStat => w.twice(f) && r.preStat.None? && r.pre.None?
    case PreRead => r.preStat.Some? && r.pre.None?
    case PreError => w.twice(f) && r.pre.None?
    case WorkStat => r.stat.None? && (w.twice(f) ==> r.pre.Some?)
    case WorkSkip(_, at) => AtWorker(r) && w.skips(f, r.stat.value) && r.stat.value <= at <= d
    case _ => AtWorker(r) && !w.skips(f, r.stat.value)
  }

  // The entry an act records for its file, if it records any: the content just read and an earlier stat.
  function Recorded(d: nat, r: FileRun, act: Act): Option<Entry> {
    match act
    case PreRead => if r.preStat.Some? then Some(Entry(d, r.preStat.value, 0)) else None
    case WorkRead => if r.stat.Some? then Some(Entry(d, r.stat.value, 0)) else None
    case WorkFail => if r.stat.Some? then Some(Entry(d, r.stat.value, 0)) else None
    case WorkSkip(hashed, at) => if hashed then Some(Entry(d, at, 0)) else None
    case _ => None
  }

  function Do(w: World, f: string, d: nat, r: FileRun, act: Act): FileRun
    requires CanAct(w, f, d, r, act)
  {
    var e := Recorded(d, r, act);
    var r := r.(stamp := if e.Some? then FirstStamp(r.stamp, e.value) else r.stamp);
    match act
    case PreStat => r.(preStat := Some(d))
    case PreRead => r.(pre := Some(Read(d)))
    case PreError => r.(pre := Some(NotRead))
    case WorkStat => r.(stat := Some(d))
    case WorkRead => r.(outcome := Some(Built(if w.twice(f) && r.pre.Some? then r.pre.value else NotRead, d)))
    case WorkFail => r.(outcome := Some(Nothing), failed := true)
    case ReadError => r.(outcome := Some(Nothing))
    case WorkSkip(_, _) => r.(outcome := Some(Nothing))
  }

  // What a full rebuild of version d holds of file f.
  function Target(w: World, f: string, d: nat): Piece {
    if w.skips(f, d) then Nothing else Built(if w.twice(f) then Read(d) else NotRead, d)
  }

  // The manifest claims that the current content is indexed.
  predicate Trusted(d: nat, m: Option<Entry>) {
    m.Some? && m.value.failures == 0 && m.value.hash == d
  }

  // So will the manifest once this run's stamps are committed.
  predicate Stamped(d: nat, r: FileRun) {
    r.stamp.Some? && !r.failed && r.stamp.value.hash == d
  }

  // What was built is right wherever the manifest says it is, now or after the commit, which flags failures.
  predicate Sound(w: World, f: string, d: nat, m: Option<Entry>, r: FileRun, piece: Piece) {
    (Trusted(d, m) && !r.failed) || Stamped(d, r) ==> piece == Target(w, f, d)
  }

  predicate EntryDated(d: nat, e: Option<Entry>) {
    e.Some? ==> e.value.stat <= e.value.hash <= d
  }

  // What was built and stamped comes from one read: the pre-pass's of a file read twice, else the worker's.
  predicate SameRead(w: World, f: string, hash: nat, pre: Pre, work: nat) {
    if w.twice(f) then pre.Read? ==> pre.version == hash else work == hash
  }

  // Reads are older than the disk and newer than the manifest; a stat is older than the read it pairs with.
  predicate FileDated(w: World, f: string, d: nat, m: Option<Entry>, r: FileRun) {
    var known := if m.Some? then m.value.hash else 0;
    && EntryDated(d, m) && EntryDated(d, r.stamp)
    && (r.preStat.Some? ==> known <= r.preStat.value <= d)
    && (r.pre.Some? && r.pre.value.Read? ==> known <= r.pre.value.version <= d)
    && (r.pre.Some? && r.pre.value.Read? ==> r.stamp.Some? && r.stamp.value.hash == r.pre.value.version)
    && (r.pre.Some? || r.preStat.Some? ==> w.twice(f))
    && (r.stat.Some? ==> known <= r.stat.value <= d && (w.twice(f) ==> r.pre.Some?))
    && (r.stat.Some? && r.pre.Some? && r.pre.value.Read? ==> r.pre.value.version <= r.stat.value)
    && (r.stamp.Some? ==> r.stamp.value.failures == 0)
    && (r.stamp.Some? ==> r.outcome.Some? || (r.pre.Some? && r.pre.value.Read?))
    && (r.outcome.Some? ==> r.stat.Some?)
    && (r.outcome.Some? && r.outcome.value.Built? ==>
         !r.failed && r.stamp.Some? && SameRead(w, f, r.stamp.value.hash, r.outcome.value.pre, r.outcome.value.work))
    && (r.failed ==> r.outcome == Some(Nothing) && r.stamp.Some? && !w.skips(f, r.stat.value))
  }

  // The acts after which nothing can go wrong. The guards are what the code leaves open:
  // - a file with no stamp yet is read, or hashed, at content the classifier would have decided otherwise,
  //   or the pre-pass failed to read it and the worker's stamp hides that;
  // - reading fails on a file the manifest in force trusts or the pre-pass has stamped: nothing flags it.
  predicate Benign(w: World, f: string, d: nat, m: Option<Entry>, r: FileRun, act: Act) {
    match act
    case WorkRead => r.stamp.Some? || (!w.skips(f, d) && !w.twice(f))
    case WorkSkip(hashed, _) => r.stamp.Some? || !hashed || w.skips(f, d)
    case ReadError => !Trusted(d, m) && !(r.stamp.Some? && r.stamp.value.hash == d)
    case _ => true
  }

  lemma ActKeepsDates(w: World, f: string, d: nat, m: Option<Entry>, r: FileRun, act: Act)
    requires FileDated(w, f, d, m, r) && CanAct(w, f, d, r, act)
    ensures FileDated(w, f, d, m, Do(w, f, d, r, act))
  {
  }

  // A worker's outcome is sound exactly when its act is benign.
  lemma SoundIffBenign(w: World, f: string, d: nat, m: Option<Entry>, r: FileRun, act: Act)
    requires FileDated(w, f, d, m, r) && CanAct(w, f, d, r, act) && AtWorker(r)
    ensures var r' := Do(w, f, d, r, act);
      act != PreStat && act != PreRead && act != PreError && act != WorkStat ==>
        (r'.outcome.Some? && (Sound(w, f, d, m, r', r'.outcome.value) <==> Benign(w, f, d, m, r, act)))
  {
  }

  // ---------------------------------------------------------------------------------------------
  // The whole system.

  // Not running; extracting some files; or the graph is on disk and the manifest is not committed yet.
  datatype Run =
    | Idle
    | Extracting(delta: bool, files: map<string, FileRun>)
    | Written(files: map<string, FileRun>)

  // An edit always makes a new version. `pieces` and `destroyed` record what the persisted graph was built
  // from; no step's guard reads them.
  datatype State = State(disk: map<string, nat>, manifest: Files, graph: Option<Doc>, run: Run,
                         pieces: Pieces, destroyed: set<Id>)

  // `report` is whatever git reports when a delta run starts, or None when the run hashes every file.
  datatype Step =
    | Edit(f: string, version: nat)
    | StartFull
    | StartDelta(report: Option<set<string>>)
    | Extract(f: string, act: Act)
    | WriteGraph(emitted: Doc, carried: seq<Rel>, merged: Doc, out: Doc)
    | WriteError
    | CommitManifest
    | Kill

  // The files a delta run re-extracts.
  function Changed(w: World, s: State, report: Option<set<string>>): set<string> {
    Presented(w.base, s.manifest, s.disk, w.files, report)
  }

  function Started(fs: set<string>): map<string, FileRun> {
    map f | f in fs :: FileRun(None, None, None, None, None, false)
  }

  function Outcomes(files: map<string, FileRun>): Pieces {
    map f | f in files && files[f].outcome.Some? :: files[f].outcome.value
  }

  function Stamps(files: map<string, FileRun>): Files {
    map f | f in files && files[f].stamp.Some? :: files[f].stamp.value
  }

  function Failures(files: map<string, FileRun>): set<string> {
    set f | f in files && files[f].failed
  }

  ghost predicate Enabled(w: World, s: State, step: Step) {
    match step
    case Edit(f, v) => f in s.disk && v > s.disk[f]
    case StartFull => s.run.Idle?
    case StartDelta(report) =>
      s.run.Idle? && s.graph.Some? && Unchanged(w.base, s.manifest, s.disk, w.files, report) != {}
    case Extract(f, act) =>
      s.run.Extracting? && f in s.run.files && f in s.disk && CanAct(w, f, s.disk[f], s.run.files[f], act)
    case WriteGraph(emitted, carried, merged, out) =>
      && s.run.Extracting? && (forall f :: f in s.run.files ==> s.run.files[f].outcome.Some?)
      && Assembles(w, s.pieces + Outcomes(s.run.files), s.run.files.Keys, emitted)
      && (if s.run.delta then s.graph.Some? && Merged(emitted, s.graph.value, s.run.files.Keys, carried, merged)
          else merged == emitted)
      && Synthesized(w, merged, out)
    case WriteError => s.run.Extracting?
    case CommitManifest => s.run.Written?
    case Kill => !s.run.Idle?
  }

  ghost function Apply(w: World, s: State, step: Step): State
    requires Enabled(w, s, step)
  {
    match step
    case Edit(f, v) => s.(disk := s.disk[f := v])
    case StartFull => s.(run := Extracting(false, Started(w.files)))
    case StartDelta(report) => s.(run := Extracting(true, Started(Changed(w, s, report))))
    case Extract(f, act) =>
      s.(run := s.run.(files := s.run.files[f := Do(w, f, s.disk[f], s.run.files[f], act)]))
    case WriteGraph(emitted, carried, merged, out) =>
      s.(graph := Some(out), pieces := s.pieces + Outcomes(s.run.files), run := Written(s.run.files),
         destroyed := if s.run.delta then s.destroyed + Destroyed(s.graph.value, s.run.files.Keys, emitted) else {})
    case WriteError => s.(run := Idle)
    case CommitManifest =>
      s.(run := Idle, manifest := Committed(s.manifest, Stamps(s.run.files), w.files, Failures(s.run.files)))
    case Kill => s.(run := Idle)
  }

  // Extraction of f failed and the graph is written, but the commit that will flag f is still to come, and
  // the manifest in force trusts f.
  predicate InWindow(s: State, f: string) {
    && s.run.Written? && f in s.run.files && s.run.files[f].failed
    && f in s.disk && Trusted(s.disk[f], Lookup(s.manifest, f))
  }

  // A step is benign if its act is, and if it does not kill the run in such a window.
  ghost predicate BenignStep(w: World, s: State, step: Step)
    requires Enabled(w, s, step)
  {
    match step
    case Extract(f, act) => Benign(w, f, s.disk[f], Lookup(s.manifest, f), s.run.files[f], act)
    case Kill => forall f :: f in w.files ==> !InWindow(s, f)
    case _ => true
  }

  // The manifest leads the graph on file f: it says the current content is indexed, and it is not.
  predicate Leads(w: World, s: State, f: string) {
    f in s.disk && f in s.pieces && Trusted(s.disk[f], Lookup(s.manifest, f)) && s.pieces[f] != Target(w, f, s.disk[f])
  }

  // What holds of one file after any history.
  ghost predicate Dated(w: World, s: State, f: string)
    requires f in s.disk && f in s.pieces
  {
    var d, m := s.disk[f], Lookup(s.manifest, f);
    && EntryDated(d, m)
    && (!s.run.Idle? && f in s.run.files ==>
         && FileDated(w, f, d, m, s.run.files[f])
         && (s.run.Written? ==> s.run.files[f].outcome == Some(s.pieces[f])))
  }

  // What holds of it after a benign one.
  ghost predicate Truthful(w: World, s: State, f: string)
    requires f in s.disk && f in s.pieces
  {
    var d, m := s.disk[f], Lookup(s.manifest, f);
    && (Trusted(d, m) && !InWindow(s, f) ==> s.pieces[f] == Target(w, f, d))
    && (!s.run.Idle? && f in s.run.files && s.run.files[f].outcome.Some? ==>
         Sound(w, f, d, m, s.run.files[f], s.run.files[f].outcome.value))
  }

  ghost predicate GraphInv(w: World, s: State) {
    && s.disk.Keys == s.pieces.Keys == w.files && s.manifest.Keys <= w.files
    && (!s.run.Idle? ==> s.run.files.Keys <= w.files)
    && (s.run.Extracting? && !s.run.delta ==> s.run.files.Keys == w.files)
    && (s.run.Extracting? && s.run.delta ==> s.graph.Some?)
    && (s.graph.Some? ==> Represents(w, s.pieces, s.destroyed, s.graph.value))
  }

  ghost predicate DatedInv(w: World, s: State) {
    GraphInv(w, s) && forall f :: f in w.files ==> Dated(w, s, f)
  }

  ghost predicate Inv(w: World, s: State) {
    DatedInv(w, s) && forall f :: f in w.files ==> Truthful(w, s, f)
  }

  ghost predicate Init(w: World, s: State) {
    && s.disk.Keys == w.files && s.manifest == map[] && s.graph == None && s.run == Idle
    && s.pieces == (map f | f in w.files :: Nothing) && s.destroyed == {}
  }

  lemma InitInv(w: World, s: State)
    requires Init(w, s)
    ensures Inv(w, s)
  {
  }

  // Writing the graph turns what it represents from the old pieces into the new ones.
  lemma WriteKeepsGraph(w: World, s: State, step: Step)
    requires WellFormed(w) && GraphInv(w, s) && Enabled(w, s, step) && step.WriteGraph?
    ensures GraphInv(w, Apply(w, s, step))
  {
    var pieces' := s.pieces + Outcomes(s.run.files);
    if s.run.delta {
      IncrementalIsRebuild(w, s.pieces, s.destroyed, s.graph.value, s.run.files.Keys, pieces', step.emitted,
                           step.carried, step.merged, step.out);
    } else {
      FullRebuild(w, pieces', step.emitted, step.out);
    }
  }

  lemma GraphStep(w: World, s: State, step: Step)
    requires WellFormed(w) && GraphInv(w, s) && Enabled(w, s, step)
    ensures GraphInv(w, Apply(w, s, step))
  {
    if step.WriteGraph? {
      WriteKeepsGraph(w, s, step);
    }
  }

  // Every step keeps the dates of every file.
  lemma DatedExtract(w: World, s: State, step: Step, f: string)
    requires GraphInv(w, s) && Enabled(w, s, step) && step.Extract? && f in w.files && Dated(w, s, f)
    ensures Dated(w, Apply(w, s, step), f)
  {
    if step.f == f {
      ActKeepsDates(w, f, s.disk[f], Lookup(s.manifest, f), s.run.files[f], step.act);
    }
  }

  lemma DatedStep(w: World, s: State, step: Step, f: string)
    requires GraphInv(w, s) && Enabled(w, s, step) && f in w.files && Dated(w, s, f)
    ensures var t := Apply(w, s, step); f in t.disk && f in t.pieces && Dated(w, t, f)
  {
    if step.Extract? {
      DatedExtract(w, s, step, f);
    } else if step.CommitManifest? {
      CommittedOf(w, s, f);
    }
  }

  // What the commit leaves of one file.
  lemma CommittedOf(w: World, s: State, f: string)
    requires GraphInv(w, s) && s.run.Written? && f in w.files && Dated(w, s, f)
    ensures var m' := Lookup(Apply(w, s, CommitManifest).manifest, f);
      if f !in s.run.files || s.run.files[f].stamp.None? then m' == Lookup(s.manifest, f)
      else m'.Some? && m'.value.(failures := 0) == s.run.files[f].stamp.value
           && (m'.value.failures > 0 <==> s.run.files[f].failed)
  {
    var files := s.run.files;
    assert f in Stamps(files) <==> f in files && files[f].stamp.Some?;
    assert f in Failures(files) <==> f in files && files[f].failed;
  }

  lemma TruthfulExtract(w: World, s: State, step: Step, f: string)
    requires GraphInv(w, s) && Enabled(w, s, step) && step.Extract? && f in w.files
    requires Dated(w, s, f) && Truthful(w, s, f)
    requires step.f == f ==> BenignStep(w, s, step)
    ensures Truthful(w, Apply(w, s, step), f)
  {
    if step.f == f && AtWorker(s.run.files[f]) {
      SoundIffBenign(w, f, s.disk[f], Lookup(s.manifest, f), s.run.files[f], step.act);
    }
  }

  lemma TruthfulStep(w: World, s: State, step: Step, f: string)
    requires GraphInv(w, s) && Enabled(w, s, step) && BenignStep(w, s, step)
    requires f in w.files && Dated(w, s, f) && Truthful(w, s, f)
    ensures var t := Apply(w, s, step); f in t.disk && f in t.pieces && Truthful(w, t, f)
  {
    if step.Extract? {
      TruthfulExtract(w, s, step, f);
    } else if step.CommitManifest? {
      CommittedOf(w, s, f);
    }
  }

  lemma DatedInvStep(w: World, s: State, step: Step)
    requires WellFormed(w) && DatedInv(w, s) && Enabled(w, s, step)
    ensures DatedInv(w, Apply(w, s, step))
  {
    GraphStep(w, s, step);
    forall f | f in w.files {
      DatedStep(w, s, step, f);
    }
  }

  // Every benign step keeps the invariant.
  lemma InvStep(w: World, s: State, step: Step)
    requires WellFormed(w) && Inv(w, s) && Enabled(w, s, step) && BenignStep(w, s, step)
    ensures Inv(w, Apply(w, s, step))
  {
    DatedInvStep(w, s, step);
    forall f | f in w.files {
      TruthfulStep(w, s, step, f);
    }
  }

  // ---------------------------------------------------------------------------------------------
  // Runs of the system.

  ghost predicate Runs(w: World, s: State, steps: seq<Step>)
    decreases |steps|
  {
    steps == [] || (Enabled(w, s, steps[0]) && Runs(w, Apply(w, s, steps[0]), steps[1..]))
  }

  ghost predicate BenignRun(w: World, s: State, steps: seq<Step>)
    requires Runs(w, s, steps)
    decreases |steps|
  {
    steps == [] || (BenignStep(w, s, steps[0]) && BenignRun(w, Apply(w, s, steps[0]), steps[1..]))
  }

  ghost function After(w: World, s: State, steps: seq<Step>): State
    requires Runs(w, s, steps)
    decreases |steps|
  {
    if steps == [] then s else After(w, Apply(w, s, steps[0]), steps[1..])
  }

  ghost function RecordingOf(w: World, s: State, step: Step): seq<Recording>
    requires Enabled(w, s, step)
  {
    if !step.Extract? then []
    else
      var e := Recorded(s.disk[step.f], s.run.files[step.f], step.act);
      if e.Some? then [Recording(step.f, e.value)] else []
  }

  lemma StampStep(w: World, s: State, step: Step, log: seq<Recording>, f: string)
    requires s.run.Extracting? && Enabled(w, s, step) && (step.Extract? || step.Edit?)
    requires Lookup(Stamps(s.run.files), f) == FirstOf(log, f)
    ensures var t := Apply(w, s, step);
      t.run.Extracting? && Lookup(Stamps(t.run.files), f) == FirstOf(log + RecordingOf(w, s, step), f)
  {
    if RecordingOf(w, s, step) == [] {
      assert log + [] == log;
    } else {
      FirstOfSnoc(log, RecordingOf(w, s, step)[0], f);
    }
  }

  // What the workers record in a stretch of extraction, in order.
  ghost function Recordings(w: World, s: State, steps: seq<Step>): seq<Recording>
    requires Runs(w, s, steps)
    decreases |steps|
  {
    if steps == [] then []
    else RecordingOf(w, s, steps[0]) + Recordings(w, Apply(w, s, steps[0]), steps[1..])
  }

  lemma Regroup(a: seq<Recording>, b: seq<Recording>, c: seq<Recording>)
    ensures a + b + c == a + (b + c)
  {
  }

  // The stamps a run commits are the first recordings of its workers, whatever was edited meanwhile.
  lemma {:induction false} StampsAreFirst(w: World, s: State, steps: seq<Step>, log: seq<Recording>, f: string)
    requires s.run.Extracting? && Runs(w, s, steps)
    requires forall step :: step in steps ==> step.Extract? || step.Edit?
    requires Lookup(Stamps(s.run.files), f) == FirstOf(log, f)
    ensures var t := After(w, s, steps);
      t.run.Extracting? && Lookup(Stamps(t.run.files), f) == FirstOf(log + Recordings(w, s, steps), f)
    decreases |steps|
  {
    if steps == [] {
      assert log + [] == log;
    } else {
      assert steps[0].Extract? || steps[0].Edit?;
      var t, now := Apply(w, s, steps[0]), RecordingOf(w, s, steps[0]);
      StampStep(w, s, steps[0], log, f);
      StampsAreFirst(w, t, steps[1..], log + now, f);
      Regroup(log, now, Recordings(w, t, steps[1..]));
    }
  }

  lemma {:induction false} DatedInvRun(w: World, s: State, steps: seq<Step>)
    requires WellFormed(w) && DatedInv(w, s) && Runs(w, s, steps)
    ensures DatedInv(w, After(w, s, steps))
    decreases |steps|
  {
    if steps != [] {
      DatedInvStep(w, s, steps[0]);
      DatedInvRun(w, Apply(w, s, steps[0]), steps[1..]);
    }
  }

  lemma {:induction false} InvRun(w: World, s: State, steps: seq<Step>)
    requires WellFormed(w) && Inv(w, s) && Runs(w, s, steps) && BenignRun(w, s, steps)
    ensures Inv(w, After(w, s, steps))
    decreases |steps|
  {
    if steps != [] {
      InvStep(w, s, steps[0]);
      InvRun(w, Apply(w, s, steps[0]), steps[1..]);
    }
  }

  lemma LeadsIffInWindow(w: World, s: State, f: string)
    requires Inv(w, s)
    ensures Leads(w, s, f) <==> InWindow(s, f)
  {
    if f in w.files {
      assert Dated(w, s, f) && Truthful(w, s, f);
    }
  }

  // After any history of edits, failed writes, kills and runs, in every state: the manifest leads the graph
  // on a file exactly while the commit that will flag its failed extraction is outstanding.
  lemma ManifestNeverLeads(w: World, s: State, steps: seq<Step>, f: string)
    requires WellFormed(w) && Init(w, s) && Runs(w, s, steps) && BenignRun(w, s, steps)
    ensures var t := After(w, s, steps); Leads(w, t, f) <==> InWindow(t, f)
  {
    InitInv(w, s);
    InvRun(w, s, steps);
    LeadsIffInWindow(w, After(w, s, steps), f);
  }

  // A failed file is flagged by the commit, and presented to the next delta run whatever git reports, until
  // it has failed too often.
  lemma FailureIsRetried(w: World, s: State, f: string, report: Option<set<string>>)
    requires DatedInv(w, s) && s.run.Written? && f in s.run.files && s.run.files[f].failed
    ensures var t := Apply(w, s, CommitManifest);
      && f in t.manifest && t.manifest[f].failures > 0 && !Leads(w, t, f)
      && (t.manifest[f].failures <= MAX_EXTRACT_RETRIES ==> f in Changed(w, t, report))
  {
    assert f in w.files && Dated(w, s, f);
    CommittedOf(w, s, f);
    var m := Apply(w, s, CommitManifest).manifest;
    if m[f].failures <= MAX_EXTRACT_RETRIES {
      RetryIsPresented(w.base, m, s.disk, w.files, report, f);
    }
  }

  // Once an outcome is unsound it stays so: only an edit, a failed write or a kill can still undo it.
  ghost predicate Doomed(w: World, s: State, f: string) {
    && f in s.disk && f in s.pieces && !s.run.Idle? && f in s.run.files
    && Dated(w, s, f) && s.run.files[f].outcome.Some?
    && !Sound(w, f, s.disk[f], Lookup(s.manifest, f), s.run.files[f], s.run.files[f].outcome.value)
  }

  predicate Undisturbed(step: Step, f: string) {
    !(step.Edit? && step.f == f) && !step.WriteError? && !step.Kill? && !step.CommitManifest?
  }

  lemma {:induction false} DoomedRun(w: World, s: State, steps: seq<Step>, f: string)
    requires Doomed(w, s, f) && Runs(w, s, steps)
    requires forall step :: step in steps ==> Undisturbed(step, f)
    ensures Doomed(w, After(w, s, steps), f)
    decreases |steps|
  {
    if steps != [] {
      assert Undisturbed(steps[0], f);
      DoomedStep(w, s, steps[0], f);
      DoomedRun(w, Apply(w, s, steps[0]), steps[1..], f);
    }
  }

  lemma DoomedStep(w: World, s: State, step: Step, f: string)
    requires Doomed(w, s, f) && Enabled(w, s, step) && Undisturbed(step, f)
    ensures Doomed(w, Apply(w, s, step), f)
  {
    if step.Extract? {
      NoActLeft(w, f, s.disk[f], Lookup(s.manifest, f), s.run.files[f], step.act);
    }
  }

  // Once a file has an outcome the run is through with it.
  lemma NoActLeft(w: World, f: string, d: nat, m: Option<Entry>, r: FileRun, act: Act)
    requires FileDated(w, f, d, m, r) && r.outcome.Some?
    ensures !CanAct(w, f, d, r, act)
  {
  }

  lemma DoomedLeads(w: World, s: State, f: string)
    requires Doomed(w, s, f) && s.run.Written? && f in w.files && GraphInv(w, s)
    ensures Leads(w, s, f) || Leads(w, Apply(w, s, CommitManifest), f)
  {
    CommittedOf(w, s, f);
  }

  // The guards of Benign are exact. If a file is worked on by an act that is not benign and the run then
  // writes its graph, with the file untouched, the manifest leads the graph: at once, or after the commit.
  lemma UnsafeActLeads(w: World, s: State, act: Act, f: string, steps: seq<Step>)
    requires WellFormed(w) && DatedInv(w, s) && Enabled(w, s, Extract(f, act))
    requires !BenignStep(w, s, Extract(f, act)) && Runs(w, Apply(w, s, Extract(f, act)), steps)
    requires forall step :: step in steps ==> Undisturbed(step, f)
    ensures var t := After(w, Apply(w, s, Extract(f, act)), steps);
      t.run.Written? ==> Leads(w, t, f) || Leads(w, Apply(w, t, CommitManifest), f)
  {
    var t := Apply(w, s, Extract(f, act));
    assert f in w.files && Dated(w, s, f);
    DatedInvStep(w, s, Extract(f, act));
    assert Dated(w, t, f);
    SoundIffBenign(w, f, s.disk[f], Lookup(s.manifest, f), s.run.files[f], act);
    DoomedRun(w, t, steps, f);
    DatedInvRun(w, t, steps);
    if After(w, t, steps).run.Written? {
      DoomedLeads(w, After(w, t, steps), f);
    }
  }

  // And so is the guard of the kill: the manifest goes on leading when the run is gone.
  lemma UnsafeKillLeads(w: World, s: State)
    requires DatedInv(w, s) && Enabled(w, s, Kill) && !BenignStep(w, s, Kill)
    ensures exists f :: f in w.files && Leads(w, Apply(w, s, Kill), f)
  {
    var f :| f in w.files && InWindow(s, f);
    assert Dated(w, s, f);
    assert Leads(w, Apply(w, s, Kill), f);
  }
}
