// The incremental manifest: what it records of each file, and how a run's stamps are committed to it.
module Manifest {
  import opened Wrappers

  // `hash` and `stat` name the content version that was hashed and the one that was statted; `failures`
  // counts consecutive failed extractions of that content.
  datatype Entry = Entry(hash: nat, stat: nat, failures: nat)

  type Files = map<string, Entry>

  const MAX_EXTRACT_RETRIES: nat := 2

  predicate RetryDue(e: Entry) {
    0 < e.failures <= MAX_EXTRACT_RETRIES
  }

  // A file must be re-extracted: no entry, a retry is due, or neither stat nor hash matches.
  predicate IsChanged(files: Files, f: string, disk: nat) {
    f !in files || RetryDue(files[f]) || (files[f].stat != disk && files[f].hash != disk)
  }

  // ---------------------------------------------------------------------------------------------
  // The stamps of one run: what the workers record, in the order in which they come to the lock.

  datatype Recording = Recording(file: string, entry: Entry)

  function FirstStamp(known: Option<Entry>, e: Entry): Option<Entry> {
    if known.Some? then known else Some(e)
  }

  // The first recording of file f.
  function FirstOf(log: seq<Recording>, f: string): Option<Entry> {
    if log == [] then None
    else if log[0].file == f then Some(log[0].entry)
    else FirstOf(log[1..], f)
  }

  // All recordings of file f, in order.
  function Only(log: seq<Recording>, f: string): seq<Entry> {
    if log == [] then []
    else (if log[0].file == f then [log[0].entry] else []) + Only(log[1..], f)
  }

  lemma {:induction false} FirstOfSnoc(log: seq<Recording>, r: Recording, f: string)
    ensures FirstOf(log + [r], f) == if r.file == f then FirstStamp(FirstOf(log, f), r.entry) else FirstOf(log, f)
  {
    if log == [] {
      assert FirstOf([r][1..], f) == None;
    } else {
      assert (log + [r])[1..] == log[1..] + [r];
      FirstOfSnoc(log[1..], r, f);
    }
  }

  lemma {:induction false} FirstIsHead(log: seq<Recording>, f: string)
    ensures FirstOf(log, f) == if Only(log, f) == [] then None else Some(Only(log, f)[0])
  {
    if log != [] {
      FirstIsHead(log[1..], f);
    }
  }

  // The stamp of a file depends on its own recordings alone, not on how the workers interleave.
  lemma AnyInterleaving(log: seq<Recording>, log': seq<Recording>, f: string)
    requires Only(log, f) == Only(log', f)
    ensures FirstOf(log, f) == FirstOf(log', f)
  {
    FirstIsHead(log, f);
    FirstIsHead(log', f);
  }

  // If later recordings of a file are of later content, its stamp is of the earliest content recorded.
  lemma {:induction false} StampIsEarliest(log: seq<Recording>, k: nat)
    requires k < |log|
    requires forall i :: 0 <= i < k && log[i].file == log[k].file ==> log[i].entry.hash <= log[k].entry.hash
    ensures var e := FirstOf(log, log[k].file); e.Some? && e.value.hash <= log[k].entry.hash
  {
    if log[0].file != log[k].file {
      StampIsEarliest(log[1..], k - 1);
    }
  }

  // ---------------------------------------------------------------------------------------------
  // The commit.

  // The entry a commit leaves for one file.
  function CommittedEntry(files: Files, stamps: Files, failed: set<string>, f: string): Entry
    requires f in files || f in stamps
  {
    var e := if f in stamps then stamps[f] else files[f];
    if f !in failed then e
    else e.(failures := if f in files && files[f].hash == e.hash then files[f].failures + 1 else 1)
  }

  function Committed(files: Files, stamps: Files, keep: set<string>, failed: set<string>): Files {
    map f | f in files.Keys + stamps.Keys && f in keep :: CommittedEntry(files, stamps, failed, f)
  }

  // The files whose failures have just outrun the retries.
  function Exhausted(files: Files, failed: set<string>): set<string> {
    set f | f in failed && f in files && files[f].failures == MAX_EXTRACT_RETRIES + 1
  }

  // Qualifying one more failed file changes that file's entry only.
  lemma OneMore(files: Files, stamps: Files, keep: set<string>, done: set<string>, f: string)
    requires f !in done
    ensures var m, m' := Committed(files, stamps, keep, done), Committed(files, stamps, keep, done + {f});
      m' == if f in m then m[f := CommittedEntry(files, stamps, {f}, f)] else m
  {
  }

  lemma ExhaustedMore(files: Files, stamps: Files, keep: set<string>, done: set<string>, f: string)
    requires f !in done
    ensures var m, m' := Committed(files, stamps, keep, done), Committed(files, stamps, keep, done + {f});
      Exhausted(m', done + {f}) == Exhausted(m, done)
        + (if f in m' && m'[f].failures == MAX_EXTRACT_RETRIES + 1 then {f} else {})
  {
    OneMore(files, stamps, keep, done, f);
  }

  // A failure is reported as the last one to be retried exactly when it is the third in a row of the same content.
  lemma ReportedIff(files: Files, stamps: Files, keep: set<string>, failed: set<string>, f: string)
    ensures f in Exhausted(Committed(files, stamps, keep, failed), failed) <==>
      && f in failed && f in keep && f in files && files[f].failures == 2
      && (f in stamps ==> stamps[f].hash == files[f].hash)
  {
    assert f in failed && f in keep && f in files ==>
      CommittedEntry(files, stamps, failed, f).failures ==
        if f in stamps && stamps[f].hash != files[f].hash then 1 else files[f].failures + 1;
  }

  // The stamps the extraction workers record. `log` remembers every recording.
  class WalkStamps {
    var stamps: Files
    ghost var log: seq<Recording>

    ghost predicate Valid()
      reads this
    {
      forall f :: Lookup(stamps, f) == FirstOf(log, f)
    }

    constructor ()
      ensures Valid() && log == []
    {
      stamps := map[];
      log := [];
    }

    method RecordWalkStamp(f: string, e: Entry)
      requires Valid()
      modifies this
      ensures Valid() && log == old(log) + [Recording(f, e)]
    {
      forall g {
        FirstOfSnoc(log, Recording(f, e), g);
      }
      if f !in stamps {
        stamps := stamps[f := e];
      }
      log := log + [Recording(f, e)];
    }
  }

  class ManifestFile {
    var files: Files

    constructor (files: Files)
      ensures this.files == files
    {
      this.files := files;
    }

    // Overlays the stamps, prunes files that left the walk, then qualifies the failed ones.
    method ApplyStampsAndFailures(stamps: Files, keep: set<string>, failed: set<string>)
      returns (exhausted: set<string>)
      modifies this
      ensures files == Committed(old(files), stamps, keep, failed)
      ensures exhausted == Exhausted(files, failed)
    {
      var prior := map f | f in failed && f in files :: files[f];
      ghost var before := files;
      ApplyStamps(stamps, keep);
      assert files == Committed(before, stamps, keep, {});
      exhausted := {};
      var todo := failed;
      while todo != {}
        invariant todo <= failed && files == Committed(before, stamps, keep, failed - todo)
        invariant exhausted == Exhausted(files, failed - todo)
        decreases todo
      {
        var f :| f in todo;
        ghost var done := failed - todo;
        todo := todo - {f};
        assert failed - todo == done + {f};
        ExhaustedMore(before, stamps, keep, done, f);
        var out := CountFailure(f, prior, before, stamps, keep, done);
        if out {
          exhausted := exhausted + {f};
        }
      }
    }

    // Counts one failure, unless the prune dropped the file. Has it just spent its retries?
    method CountFailure(f: string, prior: Files, ghost before: Files, ghost stamps: Files, ghost keep: set<string>,
                        ghost done: set<string>) returns (out: bool)
      requires files == Committed(before, stamps, keep, done) && f !in done && Lookup(prior, f) == Lookup(before, f)
      modifies this
      ensures files == Committed(before, stamps, keep, done + {f})
      ensures out <==> f in files && files[f].failures == MAX_EXTRACT_RETRIES + 1
    {
      OneMore(before, stamps, keep, done, f);
      out := false;
      if f in files {
        var e := files[f];
        e := e.(failures := if f in prior && prior[f].hash == e.hash then prior[f].failures + 1 else 1);
        files := files[f := e];
        out := e.failures == MAX_EXTRACT_RETRIES + 1;
      }
    }

    method ApplyStamps(stamps: Files, keep: set<string>)
      modifies this
      ensures files.Keys == (old(files).Keys + stamps.Keys) * keep
      ensures forall f :: f in files ==> files[f] == if f in stamps then stamps[f] else old(files)[f]
    {
      files := files + stamps;
      files := map f | f in files && f in keep :: files[f];
    }
  }
}
