/** What main_download promises about one class and about a rerun: the
    bookkeeping of each pass, the stop conditions, the numbering of the
    files, that nothing is downloaded twice, and what resuming does. */
module DownloadProperties {
  import opened Common
  import opened Validation
  import opened FileNaming
  import opened Orchestrator
  import GetClasses

  // ---------------------------------------------------------------------
  // One pass
  // ---------------------------------------------------------------------

  /** A failed attempt: only the failure counter moves. */
  predicate Failed(p: Progress, q: Progress)
  {
    q == p.(failed := p.failed + 1)
  }

  /** The n-th logged file of a class: the class's id and name, and the
      cleaned name "<n>.wav" derived from the downloaded file's name. */
  predicate WellNamed(cls: GetClasses.ClassPair, rec: Record, n: nat)
  {
    && rec.mid == cls.mid
    && rec.className == cls.name
    && rec.fileName == CleanedName(n, SplitExt(rec.ogFile))
  }

  /** A successful attempt: one more file, exactly one row appended to the
      log, numbered by the new file count. */
  predicate Succeeded(cls: GetClasses.ClassPair, p: Progress, q: Progress)
  {
    && q.failed == p.failed
    && q.downloaded == p.downloaded + 1
    && |q.log| == |p.log| + 1
    && q.log[..|p.log|] == p.log
    && WellNamed(cls, q.log[|p.log|], q.downloaded)
  }

  /** A pass that tried to download the drawn row. */
  predicate Attempted(r: StepResult)
  {
    r.Next? || r.stop == TargetReached
  }

  /** download_audio keeps the file it fetched for candidate `c`: the fetch
      succeeded, the window passed the three guards, and the new file is not
      named like the failure sentinel. */
  predicate TriedAccepted(c: Candidate, fetch: string -> Fetch)
  {
    DownloadOutcome(FetchFor(fetch, c.yid), c.start, c.end) != FailureName
  }

  /** The bookkeeping of one pass: `sample` raises exactly on an empty
      pool; a pass that empties the pool changes nothing; a tried row is a
      failure or a success; the pass stops with TargetReached exactly when a
      success brings the count to the target. */
  lemma StepBookkeeping(cls: GetClasses.ClassPair, pool: seq<Candidate>, p: Progress, toGet: nat,
                        fetch: string -> Fetch, pick: nat -> nat)
    requires ValidPicker(pick)
    ensures var r := Step(cls, pool, p, toGet, fetch, pick);
            && (r.Stopped? && r.stop == EmptySample <==> pool == [])
            && (r.Stopped? ==> r.stop != Skipped)
            && (!Attempted(r) ==> r.progress == p)
            && (Attempted(r) ==> Failed(p, r.progress) || Succeeded(cls, p, r.progress))
            && (r.Stopped? && r.stop == TargetReached ==> Succeeded(cls, p, r.progress) && r.progress.downloaded >= toGet)
            && (r.Next? && Succeeded(cls, p, r.progress) ==> r.progress.downloaded < toGet)
            && (Attempted(r) ==> 2 <= |pool|)
            && (r.Next? ==> r.pool != [] && |r.pool| < |pool|)
    ensures pool != [] ==>
              var d := pool[DrawPosition(pick, |pool|)];
              var fetched := FetchFor(fetch, d.yid);
              var r := Step(cls, pool, p, toGet, fetch, pick);
              && (r.Next? ==> r.pool == DropIndex(pool, d.index))
              && (r.Stopped? && r.stop == PoolExhausted <==> DropIndex(pool, d.index) == [])
              && (Attempted(r) ==> (Succeeded(cls, p, r.progress) <==> TriedAccepted(d, fetch)))
              && (Attempted(r) && TriedAccepted(d, fetch) ==>
                    r.progress.log == p.log + [NewRecord(cls, d.yid, p.downloaded + 1, fetched.file, fetched.sampleRate)])
  {
    if pool != [] {
      var drawn := pool[DrawPosition(pick, |pool|)];
      var rest := DropIndex(pool, drawn.index);
      if rest != [] {
        var fetched := FetchFor(fetch, drawn.yid);
        var filename := DownloadOutcome(fetched, drawn.start, drawn.end);
        DropIndexShrinks(pool, DrawPosition(pick, |pool|));
        if filename != FailureName {
          var n := p.downloaded + 1;
          var q := Progress(p.log + [NewRecord(cls, drawn.yid, n, filename, fetched.sampleRate)], n, p.failed);
          assert q.log[..|p.log|] == p.log;
        }
      }
    }
  }

  // ---------------------------------------------------------------------
  // One class
  // ---------------------------------------------------------------------

  /** Files counted by a class run beyond the progress it started from:
      downloads plus failures. */
  function Attempts(p: Progress, q: Progress): int
  {
    (q.downloaded - p.downloaded) + (q.failed - p.failed)
  }

  /** The file count of a class run keeps matching its log, and the log
      it started from stays a prefix. */
  lemma {:induction false} LoopLog(cls: GetClasses.ClassPair, pool: seq<Candidate>, p: Progress, toGet: nat,
                                   fetch: string -> Fetch, pick: nat -> nat)
    requires ValidPicker(pick)
    requires p.downloaded == |p.log|
    ensures var log := Loop(cls, pool, p, toGet, fetch, pick).progress.log;
            && Loop(cls, pool, p, toGet, fetch, pick).progress.downloaded == |log|
            && |p.log| <= |log| && log[..|p.log|] == p.log
    decreases |pool|
  {
    var r := Step(cls, pool, p, toGet, fetch, pick);
    StepBookkeeping(cls, pool, p, toGet, fetch, pick);
    if r.Next? {
      var q := r.progress;
      LoopLog(cls, r.pool, q, toGet, fetch, pick);
      var log := Loop(cls, pool, p, toGet, fetch, pick).progress.log;
      assert log[..|p.log|] == p.log by {
        assert log[..|q.log|] == q.log;
        assert log[..|p.log|] == q.log[..|p.log|];
      }
    }
  }

  /** The rows a class run appends are numbered on from the log it started
      from: the row at position i carries the cleaned name "<i+1>.wav" and
      the class's id and name. */
  lemma {:induction false} LoopNumbering(cls: GetClasses.ClassPair, pool: seq<Candidate>, p: Progress, toGet: nat,
                                         fetch: string -> Fetch, pick: nat -> nat, i: int)
    requires ValidPicker(pick)
    requires p.downloaded == |p.log|
    requires |p.log| <= i < |Loop(cls, pool, p, toGet, fetch, pick).progress.log|
    ensures WellNamed(cls, Loop(cls, pool, p, toGet, fetch, pick).progress.log[i], i + 1)
    decreases |pool|
  {
    var r := Step(cls, pool, p, toGet, fetch, pick);
    var log := Loop(cls, pool, p, toGet, fetch, pick).progress.log;
    StepBookkeeping(cls, pool, p, toGet, fetch, pick);
    if r.Next? {
      var q := r.progress;
      assert Loop(cls, pool, p, toGet, fetch, pick) == Loop(cls, r.pool, q, toGet, fetch, pick);
      LoopLog(cls, r.pool, q, toGet, fetch, pick);
      if i < |q.log| {
        NewRowNamed(cls, p, q, log, i);
      } else {
        LoopNumbering(cls, r.pool, q, toGet, fetch, pick, i);
      }
    } else {
      assert log == r.progress.log;
      NewRowNamed(cls, p, r.progress, log, i);
    }
  }

  /** The row a success appends keeps its name once more rows follow it. */
  lemma NewRowNamed(cls: GetClasses.ClassPair, p: Progress, q: Progress, log: seq<Record>, i: int)
    requires Failed(p, q) || Succeeded(cls, p, q)
    requires p.downloaded == |p.log|
    requires |p.log| <= i < |q.log| <= |log| && log[..|q.log|] == q.log
    ensures WellNamed(cls, log[i], i + 1)
  {
    assert log[i] == q.log[i];
  }

  /** Every row a class run appends records a candidate of the pool it drew
      from that download_audio accepted: its YouTube id and the file the
      download produced. */
  lemma {:induction false} LoopLogsAccepted(cls: GetClasses.ClassPair, pool: seq<Candidate>, p: Progress, toGet: nat,
                                            fetch: string -> Fetch, pick: nat -> nat, i: int)
    requires ValidPicker(pick)
    requires p.downloaded == |p.log|
    requires |p.log| <= i < |Loop(cls, pool, p, toGet, fetch, pick).progress.log|
    ensures var rec := Loop(cls, pool, p, toGet, fetch, pick).progress.log[i];
            exists c :: c in pool && TriedAccepted(c, fetch) && rec.yid == c.yid
                        && rec.ogFile == FetchFor(fetch, c.yid).file
    decreases |pool|
  {
    var r := Step(cls, pool, p, toGet, fetch, pick);
    var log := Loop(cls, pool, p, toGet, fetch, pick).progress.log;
    StepBookkeeping(cls, pool, p, toGet, fetch, pick);
    if pool != [] {
      var d := pool[DrawPosition(pick, |pool|)];
      if r.Next? {
        var q := r.progress;
        assert Loop(cls, pool, p, toGet, fetch, pick) == Loop(cls, r.pool, q, toGet, fetch, pick);
        LoopLog(cls, r.pool, q, toGet, fetch, pick);
        if i < |q.log| {
          assert log[i] == q.log[i];
          assert d in pool;
        } else {
          LoopLogsAccepted(cls, r.pool, q, toGet, fetch, pick, i);
          var c :| c in r.pool && TriedAccepted(c, fetch) && log[i].yid == c.yid
                   && log[i].ogFile == FetchFor(fetch, c.yid).file;
          DropIndexMembers(pool, d.index, c);
        }
      } else {
        assert log == r.progress.log;
        assert d in pool;
      }
    }
  }

  /** How a class run stops, from a file count below the target: the count
      never passes the target and reaches it exactly when the run stops
      with TargetReached; `sample` raises only on a pool that is empty from
      the start, and then nothing has changed. */
  lemma {:induction false} LoopStops(cls: GetClasses.ClassPair, pool: seq<Candidate>, p: Progress, toGet: nat,
                                     fetch: string -> Fetch, pick: nat -> nat)
    requires ValidPicker(pick)
    requires p.downloaded < toGet
    ensures var run := Loop(cls, pool, p, toGet, fetch, pick);
            && run.progress.downloaded <= toGet
            && (run.stop == TargetReached <==> run.progress.downloaded == toGet)
            && run.stop != Skipped
            && (run.stop == EmptySample <==> pool == [])
            && (pool == [] ==> run.progress == p)
    decreases |pool|
  {
    var r := Step(cls, pool, p, toGet, fetch, pick);
    StepBookkeeping(cls, pool, p, toGet, fetch, pick);
    if r.Next? {
      LoopStops(cls, r.pool, r.progress, toGet, fetch, pick);
    }
  }

  /** Every row tried is counted once, as a download or as a failure, and
      at most |pool| - 1 rows are tried: the last row drawn is never tried. */
  lemma {:induction false} LoopAttempts(cls: GetClasses.ClassPair, pool: seq<Candidate>, p: Progress, toGet: nat,
                                        fetch: string -> Fetch, pick: nat -> nat)
    requires ValidPicker(pick)
    requires pool != []
    ensures var q := Loop(cls, pool, p, toGet, fetch, pick).progress;
            && p.downloaded <= q.downloaded && p.failed <= q.failed
            && Attempts(p, q) <= |pool| - 1
    decreases |pool|
  {
    var r := Step(cls, pool, p, toGet, fetch, pick);
    StepBookkeeping(cls, pool, p, toGet, fetch, pick);
    if r.Next? {
      LoopAttempts(cls, r.pool, r.progress, toGet, fetch, pick);
    }
  }

  /** With distinct index labels, a pass removes exactly the drawn row:
      the pool shrinks by one and its labels stay distinct, and the pool is
      exhausted exactly when its last row is drawn. */
  lemma StepRemovesOne(cls: GetClasses.ClassPair, pool: seq<Candidate>, p: Progress, toGet: nat,
                       fetch: string -> Fetch, pick: nat -> nat)
    requires ValidPicker(pick) && UniqueIndices(pool)
    ensures var r := Step(cls, pool, p, toGet, fetch, pick);
            && (r.Next? ==> |r.pool| == |pool| - 1 && UniqueIndices(r.pool))
            && (r.Stopped? && r.stop == PoolExhausted <==> |pool| == 1)
  {
    if pool != [] {
      var k := DrawPosition(pick, |pool|);
      DropIndexExactlyOne(pool, k);
      var rest := pool[..k] + pool[k + 1..];
      forall i, j | 0 <= i < j < |rest|
        ensures rest[i].index != rest[j].index
      {
        var i', j' := if i < k then i else i + 1, if j < k then j else j + 1;
        assert rest[i] == pool[i'] && rest[j] == pool[j'];
      }
    }
  }

  /** A class run that ends with an exhausted pool, from a pool with
      distinct labels, tried every row but the last one drawn. */
  lemma {:induction false} LoopTriesAllButLast(cls: GetClasses.ClassPair, pool: seq<Candidate>, p: Progress,
                                               toGet: nat, fetch: string -> Fetch, pick: nat -> nat)
    requires ValidPicker(pick) && UniqueIndices(pool)
    requires Loop(cls, pool, p, toGet, fetch, pick).stop == PoolExhausted
    ensures Attempts(p, Loop(cls, pool, p, toGet, fetch, pick).progress) == |pool| - 1
    decreases |pool|
  {
    var r := Step(cls, pool, p, toGet, fetch, pick);
    StepBookkeeping(cls, pool, p, toGet, fetch, pick);
    StepRemovesOne(cls, pool, p, toGet, fetch, pick);
    if r.Next? {
      assert Loop(cls, pool, p, toGet, fetch, pick) == Loop(cls, r.pool, r.progress, toGet, fetch, pick);
      LoopTriesAllButLast(cls, r.pool, r.progress, toGet, fetch, pick);
    } else {
      assert Loop(cls, pool, p, toGet, fetch, pick) == ClassRun(r.stop, r.progress);
    }
  }

  /** The class pool carries each row's own position as its label, so its
      labels are distinct. */
  lemma ClassPoolLabelsDistinct(bigData: seq<MetaRow>, mid: string)
    ensures UniqueIndices(ClassPool(bigData, mid))
  {
  }

  // ---------------------------------------------------------------------
  // Nothing is downloaded twice
  // ---------------------------------------------------------------------

  /** Dropping rows never makes a YouTube id more frequent. */
  lemma {:induction false} CountDropIndex(pool: seq<Candidate>, index: nat, y: string)
    ensures CountYid(DropIndex(pool, index), y) <= CountYid(pool, y)
  {
    if pool != [] {
      CountDropIndex(pool[1..], index, y);
      if pool[0].index != index {
        assert ([pool[0]] + DropIndex(pool[1..], index))[1..] == DropIndex(pool[1..], index);
      }
    }
  }

  /** Two rows of a pool without repeated ids have different ids. */
  lemma UniqueYidsDiffer(s: seq<Candidate>, i: nat, j: nat)
    requires UniqueYids(s) && i < |s| && j < |s| && i != j
    ensures s[i].yid != s[j].yid
  {
    if s[i].yid == s[j].yid {
      if i < j {
        CountTwo(s, i, j);
      } else {
        CountTwo(s, j, i);
      }
      assert false;
    }
  }

  /** Dropping rows keeps a pool fresh against the same log. */
  lemma DropFresh(pool: seq<Candidate>, index: nat, log: seq<Record>)
    requires Fresh(pool, log)
    ensures Fresh(DropIndex(pool, index), log)
  {
    var rest := DropIndex(pool, index);
    forall i | 0 <= i < |rest|
      ensures CountYid(rest, rest[i].yid) == 1
      ensures rest[i].start.Some? ==> !InLog(log, rest[i].yid)
    {
      assert rest[i] in rest;
      DropIndexMembers(pool, index, rest[i]);
      var j :| 0 <= j < |pool| && pool[j] == rest[i];
      CountDropIndex(pool, index, rest[i].yid);
      CountPositive(rest, rest[i].yid);
    }
  }

  /** Logging the row drawn at position k of a fresh pool keeps the log
      free of repeated ids, and what is left of the pool fresh against the
      longer log. */
  lemma LogDrawnFresh(pool: seq<Candidate>, k: nat, log: seq<Record>, rec: Record)
    requires Fresh(pool, log) && DistinctLog(log)
    requires k < |pool| && pool[k].start.Some? && rec.yid == pool[k].yid
    ensures DistinctLog(log + [rec])
    ensures Fresh(DropIndex(pool, pool[k].index), log + [rec])
  {
    var longer := log + [rec];
    assert !InLog(log, rec.yid);
    forall i, j | 0 <= i < j < |longer|
      ensures longer[i].yid != longer[j].yid
    {
      assert longer[i] == log[i];
      if j < |log| {
        assert longer[j] == log[j];
      }
    }
    var rest := DropIndex(pool, pool[k].index);
    DropFresh(pool, pool[k].index, log);
    forall i | 0 <= i < |rest| && rest[i].start.Some?
      ensures !InLog(longer, rest[i].yid)
    {
      assert rest[i] in rest;
      DropIndexMembers(pool, pool[k].index, rest[i]);
      var j :| 0 <= j < |pool| && pool[j] == rest[i];
      UniqueYidsDiffer(pool, j, k);
      assert !InLog(log, rest[i].yid);
      forall m | 0 <= m < |longer|
        ensures longer[m].yid != rest[i].yid
      {
        if m < |log| {
          assert longer[m] == log[m];
        }
      }
    }
  }

  /** One pass keeps the pool fresh and the log free of repeated ids: a
      success logs a row that had a start, so its id was not yet logged. */
  lemma StepFresh(cls: GetClasses.ClassPair, pool: seq<Candidate>, p: Progress, toGet: nat,
                  fetch: string -> Fetch, pick: nat -> nat)
    requires ValidPicker(pick)
    requires Fresh(pool, p.log) && DistinctLog(p.log)
    ensures var r := Step(cls, pool, p, toGet, fetch, pick);
            && DistinctLog(r.progress.log)
            && (r.Next? ==> Fresh(r.pool, r.progress.log))
  {
    if pool != [] {
      var k := DrawPosition(pick, |pool|);
      DropFresh(pool, pool[k].index, p.log);
      var fetched := FetchFor(fetch, pool[k].yid);
      var filename := DownloadOutcome(fetched, pool[k].start, pool[k].end);
      if filename != FailureName {
        LogDrawnFresh(pool, k, p.log, NewRecord(cls, pool[k].yid, p.downloaded + 1, filename, fetched.sampleRate));
      }
    }
  }

  /** A class run from a fresh pool never logs a YouTube id twice. */
  lemma {:induction false} LoopDistinct(cls: GetClasses.ClassPair, pool: seq<Candidate>, p: Progress, toGet: nat,
                                        fetch: string -> Fetch, pick: nat -> nat)
    requires ValidPicker(pick)
    requires Fresh(pool, p.log) && DistinctLog(p.log)
    ensures DistinctLog(Loop(cls, pool, p, toGet, fetch, pick).progress.log)
    decreases |pool|
  {
    var r := Step(cls, pool, p, toGet, fetch, pick);
    StepFresh(cls, pool, p, toGet, fetch, pick);
    if r.Next? {
      LoopDistinct(cls, r.pool, r.progress, toGet, fetch, pick);
    }
  }

  // ---------------------------------------------------------------------
  // A class from start to end, and a rerun
  // ---------------------------------------------------------------------

  /** What one class run promises: it is skipped, with nothing drawn and
      nothing changed, exactly when the log already holds the target; the
      file count starts at the log's size and matches the log; the old log
      stays a prefix; the log never grows past max(log size, target); and
      the run stops with TargetReached exactly when it reaches the target. */
  lemma RunClassFacts(logs: map<string, seq<Record>>, cls: GetClasses.ClassPair, bigData: seq<MetaRow>,
                      samplesPerClass: nat, fetch: string -> Fetch, pick: nat -> nat)
    requires ValidPicker(pick)
    ensures var log0 := LoggedBefore(logs, cls.name);
            var toGet := ToGet(samplesPerClass, bigData, cls.mid);
            var run := RunClass(logs, cls, bigData, samplesPerClass, fetch, pick);
            && (run.stop == Skipped <==> |log0| >= toGet)
            && (run.stop == Skipped ==> run.progress == Progress(log0, |log0|, 0))
            && run.progress.downloaded == |run.progress.log|
            && |log0| <= |run.progress.log| && run.progress.log[..|log0|] == log0
            && |run.progress.log| <= (if |log0| >= toGet then |log0| else toGet)
            && (run.stop == TargetReached <==> |log0| < toGet && |run.progress.log| == toGet)
  {
    var log0 := LoggedBefore(logs, cls.name);
    var toGet := ToGet(samplesPerClass, bigData, cls.mid);
    var p0 := Progress(log0, |log0|, 0);
    if |log0| < toGet {
      var pool := InitialPool(bigData, cls.mid, PriorLog(logs, cls.name));
      LoopLog(cls, pool, p0, toGet, fetch, pick);
      LoopStops(cls, pool, p0, toGet, fetch, pick);
    } else {
      assert log0[..|log0|] == log0;
    }
  }

  /** Files continue the numbering of the log they resume: the row at
      position i of a class's log after the run, past the rows it started
      with, is the file "<i+1>.wav" of that class. */
  lemma RunClassNumbering(logs: map<string, seq<Record>>, cls: GetClasses.ClassPair, bigData: seq<MetaRow>,
                          samplesPerClass: nat, fetch: string -> Fetch, pick: nat -> nat, i: int)
    requires ValidPicker(pick)
    requires |LoggedBefore(logs, cls.name)| <= i < |RunClass(logs, cls, bigData, samplesPerClass, fetch, pick).progress.log|
    ensures WellNamed(cls, RunClass(logs, cls, bigData, samplesPerClass, fetch, pick).progress.log[i], i + 1)
  {
    var log0 := LoggedBefore(logs, cls.name);
    var toGet := ToGet(samplesPerClass, bigData, cls.mid);
    var pool := InitialPool(bigData, cls.mid, PriorLog(logs, cls.name));
    LoopNumbering(cls, pool, Progress(log0, |log0|, 0), toGet, fetch, pick, i);
  }

  /** Every row a class run appends comes from a row of big_data that
      mentions the class and that download_audio accepted: rows carried
      over from the log have no start or end and are never accepted. */
  lemma RunClassLogsAccepted(logs: map<string, seq<Record>>, cls: GetClasses.ClassPair, bigData: seq<MetaRow>,
                             samplesPerClass: nat, fetch: string -> Fetch, pick: nat -> nat, i: int)
    requires ValidPicker(pick)
    requires |LoggedBefore(logs, cls.name)| <= i < |RunClass(logs, cls, bigData, samplesPerClass, fetch, pick).progress.log|
    ensures var rec := RunClass(logs, cls, bigData, samplesPerClass, fetch, pick).progress.log[i];
            exists c :: c in ClassPool(bigData, cls.mid) && TriedAccepted(c, fetch) && rec.yid == c.yid
                        && rec.ogFile == FetchFor(fetch, c.yid).file
  {
    var log0 := LoggedBefore(logs, cls.name);
    var toGet := ToGet(samplesPerClass, bigData, cls.mid);
    var classPool := ClassPool(bigData, cls.mid);
    var pool := InitialPool(bigData, cls.mid, PriorLog(logs, cls.name));
    var log := RunClass(logs, cls, bigData, samplesPerClass, fetch, pick).progress.log;
    RunClassFacts(logs, cls, bigData, samplesPerClass, fetch, pick);
    if |log0| < toGet {
      LoopLogsAccepted(cls, pool, Progress(log0, |log0|, 0), toGet, fetch, pick, i);
      var c :| c in pool && TriedAccepted(c, fetch) && log[i].yid == c.yid && log[i].ogFile == FetchFor(fetch, c.yid).file;
      if cls.name in logs {
        var rows := LogCandidates(log0);
        KeepOnceMembers(classPool + rows, classPool + rows, c);
        assert forall j :: 0 <= j < |rows| ==> rows[j].start.None?;
      }
      assert c in classPool;
    }
  }

  /** Every row of the class pool has a start and an end. */
  lemma ClassPoolTimed(bigData: seq<MetaRow>, mid: string)
    ensures forall i :: 0 <= i < |ClassPool(bigData, mid)| ==> ClassPool(bigData, mid)[i].start.Some?
  {
  }

  /** No YouTube id is downloaded twice for a class: a resumed class
      whose log has no repeated id, or a fresh class whose rows carry
      different ids, ends with a log without repeated ids. */
  lemma NoDuplicateAcquisition(logs: map<string, seq<Record>>, cls: GetClasses.ClassPair, bigData: seq<MetaRow>,
                               samplesPerClass: nat, fetch: string -> Fetch, pick: nat -> nat)
    requires ValidPicker(pick)
    requires cls.name in logs ==> DistinctLog(logs[cls.name])
    requires cls.name !in logs ==> UniqueYids(ClassPool(bigData, cls.mid))
    ensures DistinctLog(RunClass(logs, cls, bigData, samplesPerClass, fetch, pick).progress.log)
  {
    var log0 := LoggedBefore(logs, cls.name);
    var toGet := ToGet(samplesPerClass, bigData, cls.mid);
    var pool := InitialPool(bigData, cls.mid, PriorLog(logs, cls.name));
    if |log0| < toGet {
      if cls.name in logs {
        ClassPoolTimed(bigData, cls.mid);
        ResumePoolFresh(ClassPool(bigData, cls.mid), log0);
      }
      LoopDistinct(cls, pool, Progress(log0, |log0|, 0), toGet, fetch, pick);
    }
  }

  /** Rerunning a class that was skipped or reached its target is a no-op:
      the rerun is skipped with the same log, and the log files stay as
      they are. */
  lemma RerunAfterTargetSkips(logs: map<string, seq<Record>>, cls: GetClasses.ClassPair, bigData: seq<MetaRow>,
                              samplesPerClass: nat, fetch: string -> Fetch, pick: nat -> nat)
    requires ValidPicker(pick)
    requires RunClass(logs, cls, bigData, samplesPerClass, fetch, pick).stop in {Skipped, TargetReached}
    ensures var log := RunClass(logs, cls, bigData, samplesPerClass, fetch, pick).progress.log;
            var after := Persisted(logs, cls.name, log);
            && RunClass(after, cls, bigData, samplesPerClass, fetch, pick) == ClassRun(Skipped, Progress(log, |log|, 0))
            && Persisted(after, cls.name, log) == after
  {
    RunClassFacts(logs, cls, bigData, samplesPerClass, fetch, pick);
    var log := RunClass(logs, cls, bigData, samplesPerClass, fetch, pick).progress.log;
    var after := Persisted(logs, cls.name, log);
    assert LoggedBefore(after, cls.name) == log;
  }

  // ---------------------------------------------------------------------
  // Two concrete runs
  // ---------------------------------------------------------------------

  /** A row of the class "m" with the window [0, 10). */
  function ClipRow(yid: string): MetaRow
  {
    MetaRow(yid, 0, 10, [Some("m")])
  }

  /** Its candidate, labelled k. */
  function ClipCandidate(k: nat, yid: string): Candidate
  {
    Candidate(k, yid, Some(0), Some(10))
  }

  const ExampleClass := GetClasses.ClassPair("m", "Cat")

  /** Three rows of the class with different ids. */
  const ExampleRows := [ClipRow("a"), ClipRow("b"), ClipRow("c")]

  /** a cannot be downloaded; every other id gives a 60 s video, saved
      as `file`. */
  function ExampleFetch(file: string): string -> Fetch
  {
    (y: string) => if y == "a" then FetchFailed else Fetched(file, 60, 16000)
  }

  /** Draws at position 1 of two rows and at position 0 otherwise. */
  function ExamplePick(n: nat): nat
  {
    if n == 2 then 1 else 0
  }

  lemma ExamplePickValid()
    ensures ValidPicker(ExamplePick)
  {
  }

  lemma ExamplePool()
    ensures ClassPool(ExampleRows, "m") == [ClipCandidate(0, "a"), ClipCandidate(1, "b"), ClipCandidate(2, "c")]
  {
    assert ExampleRows[0].labels[0] == Some("m");
    assert ExampleRows[1].labels[0] == Some("m");
    assert ExampleRows[2].labels[0] == Some("m");
    assert ClassPoolUpTo(ExampleRows, "m", 1) == [ClipCandidate(0, "a")];
    assert ClassPoolUpTo(ExampleRows, "m", 2) == [ClipCandidate(0, "a"), ClipCandidate(1, "b")];
  }

  /** The first run: a fails, c is logged as file 1, and drawing b empties
      the pool, so b is never tried. */
  lemma ExampleFirstRun(file: string)
    requires file != FailureName
    ensures ValidPicker(ExamplePick)
    ensures RunClass(map[], ExampleClass, ExampleRows, 3, ExampleFetch(file), ExamplePick)
            == ClassRun(PoolExhausted, Progress([NewRecord(ExampleClass, "c", 1, file, 16000)], 1, 1))
  {
    ExamplePickValid();
    ExamplePool();
    ExampleFirstDraws(file);
  }

  /** The draws of the first run, pass by pass. */
  lemma ExampleFirstDraws(file: string)
    requires file != FailureName
    ensures ValidPicker(ExamplePick)
    ensures Loop(ExampleClass, [ClipCandidate(0, "a"), ClipCandidate(1, "b"), ClipCandidate(2, "c")],
                 Progress([], 0, 0), 3, ExampleFetch(file), ExamplePick)
            == ClassRun(PoolExhausted, Progress([NewRecord(ExampleClass, "c", 1, file, 16000)], 1, 1))
  {
    ExamplePickValid();
    ExampleDrawA(file);
    ExampleDrawC(file);
    ExampleDrawB(file);
  }

  /** First pass: a is drawn and fails. */
  lemma ExampleDrawA(file: string)
    ensures ValidPicker(ExamplePick)
    ensures Step(ExampleClass, [ClipCandidate(0, "a"), ClipCandidate(1, "b"), ClipCandidate(2, "c")],
                 Progress([], 0, 0), 3, ExampleFetch(file), ExamplePick)
            == Next([ClipCandidate(1, "b"), ClipCandidate(2, "c")], Progress([], 0, 1))
  {
    ExamplePickValid();
    DropIndexKeepsOthers([ClipCandidate(1, "b"), ClipCandidate(2, "c")], 0);
  }

  /** Second pass: c is drawn and logged as file 1. */
  lemma ExampleDrawC(file: string)
    requires file != FailureName
    ensures ValidPicker(ExamplePick)
    ensures Step(ExampleClass, [ClipCandidate(1, "b"), ClipCandidate(2, "c")], Progress([], 0, 1), 3,
                 ExampleFetch(file), ExamplePick)
            == Next([ClipCandidate(1, "b")], Progress([NewRecord(ExampleClass, "c", 1, file, 16000)], 1, 1))
  {
    ExamplePickValid();
    DropIndexKeepsOthers([ClipCandidate(1, "b")], 2);
    assert DropIndex([ClipCandidate(2, "c")], 2) == [];
  }

  /** Third pass: b is drawn last and empties the pool. */
  lemma ExampleDrawB(file: string)
    ensures ValidPicker(ExamplePick)
    ensures var p := Progress([NewRecord(ExampleClass, "c", 1, file, 16000)], 1, 1);
            Loop(ExampleClass, [ClipCandidate(1, "b")], p, 3, ExampleFetch(file), ExamplePick)
            == ClassRun(PoolExhausted, p)
  {
    ExamplePickValid();
    assert DropIndex([ClipCandidate(1, "b")], 1) == [];
  }

  /** On the rerun c is in the pool and in the log, so deduplication drops
      both copies. */
  lemma ExampleResumePool(rec: Record)
    requires rec.yid == "c"
    ensures ResumePool([ClipCandidate(0, "a"), ClipCandidate(1, "b"), ClipCandidate(2, "c")], [rec])
            == [ClipCandidate(0, "a"), ClipCandidate(1, "b")]
  {
    var a, b, c := ClipCandidate(0, "a"), ClipCandidate(1, "b"), ClipCandidate(2, "c");
    var c' := Candidate(0, "c", None, None);
    assert LogCandidates([rec]) == [c'];
    var all := [a, b, c, c'];
    assert [a, b, c] + [c'] == all;
    CountConcat([a], [b, c, c'], "a");
    CountConcat([a], [b, c, c'], "b");
    CountConcat([a], [b, c, c'], "c");
    CountConcat([b], [c, c'], "a");
    CountConcat([b], [c, c'], "b");
    CountConcat([b], [c, c'], "c");
    CountConcat([c], [c'], "c");
    assert [a] + [b, c, c'] == all;
    assert CountYid(all, "a") == 1 && CountYid(all, "b") == 1 && CountYid(all, "c") == 2;
    assert KeepOnce(all, [c']) == [];
    assert KeepOnce(all, [c, c']) == [];
    assert KeepOnce(all, [b, c, c']) == [b];
  }

  /** The rerun: b is drawn first and logged as file 2, then drawing a
      empties the pool. */
  lemma ExampleSecondRun(rec: Record, file: string)
    requires rec.yid == "c" && file != FailureName
    ensures ValidPicker(ExamplePick)
    ensures RunClass(map["Cat" := [rec]], ExampleClass, ExampleRows, 3, ExampleFetch(file), ExamplePick)
            == ClassRun(PoolExhausted, Progress([rec, NewRecord(ExampleClass, "b", 2, file, 16000)], 2, 0))
  {
    ExamplePickValid();
    ExamplePool();
    ExampleResumePool(rec);
    var a, b := ClipCandidate(0, "a"), ClipCandidate(1, "b");
    var q0 := Progress([rec], 1, 0);
    var q1 := Progress([rec, NewRecord(ExampleClass, "b", 2, file, 16000)], 2, 0);
    assert DropIndex([b], 1) == [];
    assert DropIndex([a, b], 1) == [a];
    assert [rec] + [NewRecord(ExampleClass, "b", 2, file, 16000)] == q1.log;
    assert Step(ExampleClass, [a, b], q0, 3, ExampleFetch(file), ExamplePick) == Next([a], q1);
    assert DropIndex([a], 0) == [];
    assert Step(ExampleClass, [a], q1, 3, ExampleFetch(file), ExamplePick) == Stopped(PoolExhausted, q1);
    assert Loop(ExampleClass, [a], q1, 3, ExampleFetch(file), ExamplePick) == ClassRun(PoolExhausted, q1);
    assert Loop(ExampleClass, [a, b], q0, 3, ExampleFetch(file), ExamplePick) == ClassRun(PoolExhausted, q1);
    assert InitialPool(ExampleRows, "m", Some([rec])) == [a, b];
  }

  /** A rerun after the pool ran out can still download more: the first
      run stops with b drawn last and never tried; the rerun drops c (it is
      in the pool and in the log), draws b first and logs it. */
  lemma ResumeAfterExhaustionCanAcquire(file: string)
    requires file != FailureName
    ensures ValidPicker(ExamplePick)
    ensures var first := RunClass(map[], ExampleClass, ExampleRows, 3, ExampleFetch(file), ExamplePick);
            var second := RunClass(Persisted(map[], "Cat", first.progress.log), ExampleClass, ExampleRows, 3,
                                   ExampleFetch(file), ExamplePick);
            && first.stop == PoolExhausted && |first.progress.log| == 1
            && second.stop == PoolExhausted && |second.progress.log| == 2
            && second.progress.log[1].yid == "b"
  {
    ExampleFirstRun(file);
    var rec := NewRecord(ExampleClass, "c", 1, file, 16000);
    ExampleSecondRun(rec, file);
    assert Persisted(map[], "Cat", [rec]) == map["Cat" := [rec]];
  }

  /** A log that lists the only YouTube id of a class's rows. */
  const LoggedA := Record("a", "m", "Cat", "1.wav", "a.m4a", 16000)

  /** Two rows of the class with the same id. */
  const RepeatedRows := [ClipRow("a"), ClipRow("a")]

  lemma RepeatedPool()
    ensures ClassPool(RepeatedRows, "m") == [ClipCandidate(0, "a"), ClipCandidate(1, "a")]
  {
    assert RepeatedRows[0].labels[0] == Some("m");
    assert RepeatedRows[1].labels[0] == Some("m");
    assert ClassPoolUpTo(RepeatedRows, "m", 1) == [ClipCandidate(0, "a")];
  }

  /** With id a in the pool twice and in the log, deduplication empties the pool. */
  lemma RepeatedPoolEmpties()
    ensures ResumePool(ClassPool(RepeatedRows, "m"), [LoggedA]) == []
  {
    RepeatedPool();
    var a0, a1, a' := ClipCandidate(0, "a"), ClipCandidate(1, "a"), Candidate(0, "a", None, None);
    assert LogCandidates([LoggedA]) == [a'];
    var all := [a0, a1, a'];
    assert [a0, a1] + [a'] == all;
    CountConcat([a0], [a1, a'], "a");
    CountConcat([a1], [a'], "a");
    assert [a0] + [a1, a'] == all;
    assert CountYid(all, "a") == 3;
    assert KeepOnce(all, [a']) == [];
    assert KeepOnce(all, [a1, a']) == [];
  }

  /** A class whose pool is empty at its first draw aborts the whole run:
      `sample` raises, and the classes after it are never reached. */
  lemma EmptyPoolAborts(fetch: string -> Fetch)
    ensures var logs := map["Cat" := [LoggedA]];
            var d := MainDownloadSpec(logs, [ExampleClass, GetClasses.ClassPair("n", "Dog")], RepeatedRows, 5,
                                      fetch, ExamplePick);
            && Aborted(d) && |d.runs| == 1 && d.logs == logs
  {
    ExamplePickValid();
    RepeatedPool();
    RepeatedPoolEmpties();
    var logs := map["Cat" := [LoggedA]];
    var classes := [ExampleClass, GetClasses.ClassPair("n", "Dog")];
    var p0 := Progress([LoggedA], 1, 0);
    assert Step(ExampleClass, [], p0, 2, fetch, ExamplePick) == Stopped(EmptySample, p0);
    assert RunClass(logs, ExampleClass, RepeatedRows, 5, fetch, ExamplePick) == ClassRun(EmptySample, p0);
    assert classes[..1] == [ExampleClass];
    assert [ExampleClass][..0] == [];
    assert MainDownloadSpec(logs, [ExampleClass], RepeatedRows, 5, fetch, ExamplePick)
           == DownloadRun(logs, [ClassRun(EmptySample, p0)]);
  }

  // ---------------------------------------------------------------------
  // The whole run
  // ---------------------------------------------------------------------

  /** No class of the list has this name. */
  predicate Untouched(classes: seq<GetClasses.ClassPair>, name: string)
  {
    forall i :: 0 <= i < |classes| ==> classes[i].name != name
  }

  /** A run handles the classes in order, one run per class reached, and
      stops early only when a class aborts it; only the logs of the classes
      it handled change. */
  lemma {:induction false} MainDownloadShape(logs: map<string, seq<Record>>, classes: seq<GetClasses.ClassPair>,
                                             bigData: seq<MetaRow>, samplesPerClass: nat,
                                             fetch: string -> Fetch, pick: nat -> nat)
    requires ValidPicker(pick)
    ensures var d := MainDownloadSpec(logs, classes, bigData, samplesPerClass, fetch, pick);
            && |d.runs| <= |classes|
            && (|d.runs| < |classes| ==> Aborted(d))
            && (forall name :: Untouched(classes, name) ==>
                  (name in d.logs <==> name in logs) && (name in logs ==> d.logs[name] == logs[name]))
    decreases |classes|
  {
    if classes != [] {
      var init := classes[..|classes| - 1];
      MainDownloadShape(logs, init, bigData, samplesPerClass, fetch, pick);
      forall name | Untouched(classes, name)
        ensures Untouched(init, name)
      {
        forall i | 0 <= i < |init|
          ensures init[i].name != name
        {
          assert init[i] == classes[i];
        }
      }
    }
  }
}
