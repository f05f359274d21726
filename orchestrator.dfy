/** main_download: for every class, resume from the class's progress log,
    build the pool of candidate clips, draw candidates without replacement,
    download and validate each, and log every success, until the per-class
    target is reached or the pool runs out.

    The download library and the audio tools are the `fetch` oracle, and
    the seeded pandas draw is the `pick` choice function. Because the draw
    is re-seeded with the same seed every time, the position it picks
    depends only on the size of the pool. */
module Orchestrator {
  import opened Common
  import opened Validation
  import opened FileNaming
  import GetClasses

  // ---------------------------------------------------------------------
  // Data
  // ---------------------------------------------------------------------

  /** A row of big_data: YouTube id, start and end second, label columns
      (NaN where a row has fewer labels). */
  datatype MetaRow = MetaRow(yid: string, start: int, end: int, labels: seq<Option<string>>)

  /** A row of the candidate pool. `index` is the row's index label: the
      big_data position for rows of the class, the log position for log
      rows that survive deduplication. Log rows have no start or end
      column, so theirs are NaN. */
  datatype Candidate = Candidate(index: nat, yid: string, start: Option<int>, end: Option<int>)

  /** A row of a class's progress log. */
  datatype Record = Record(yid: string, mid: string, className: string, fileName: string, ogFile: string, sampleRate: nat)

  /** The running state of one class: its log and the two counters. */
  datatype Progress = Progress(log: seq<Record>, downloaded: nat, failed: nat)

  /** Why the work on a class ended: skipped because the log was already
      long enough, target reached, pool used up, or `sample` called on an
      empty pool (which raises and ends the whole run). */
  datatype Stop = Skipped | TargetReached | PoolExhausted | EmptySample

  datatype ClassRun = ClassRun(stop: Stop, progress: Progress)

  /** The logs of all classes after a run and what happened to each class
      that was reached. */
  datatype DownloadRun = DownloadRun(logs: map<string, seq<Record>>, runs: seq<ClassRun>)

  /** The draw: given a pool of n > 0 rows, the position of the row drawn. */
  ghost predicate ValidPicker(pick: nat -> nat)
  {
    forall n: nat :: 0 < n ==> pick(n) < n
  }

  // ---------------------------------------------------------------------
  // The pool
  // ---------------------------------------------------------------------

  /** `big_data.eq(mid).any(1)`: some cell of the row equals the class id
      (start and end are numbers and never do). */
  predicate MentionsClass(row: MetaRow, mid: string)
  {
    row.yid == mid || exists k :: 0 <= k < |row.labels| && row.labels[k] == Some(mid)
  }

  function RowCandidate(bigData: seq<MetaRow>, k: nat): Candidate
    requires k < |bigData|
  {
    Candidate(k, bigData[k].yid, Some(bigData[k].start), Some(bigData[k].end))
  }

  /** The rows among the first n of big_data that mention the class, in order. */
  function ClassPoolUpTo(bigData: seq<MetaRow>, mid: string, n: nat): (pool: seq<Candidate>)
    requires n <= |bigData|
    ensures forall i :: 0 <= i < |pool| ==> pool[i].index < n
    ensures forall i :: 0 <= i < |pool| ==>
              MentionsClass(bigData[pool[i].index], mid) && pool[i] == RowCandidate(bigData, pool[i].index)
    ensures forall i, j :: 0 <= i < j < |pool| ==> pool[i].index < pool[j].index
  {
    if n == 0 then []
    else
      var prefix := ClassPoolUpTo(bigData, mid, n - 1);
      if MentionsClass(bigData[n - 1], mid) then
        var pool := prefix + [RowCandidate(bigData, n - 1)];
        assert forall i :: 0 <= i < |prefix| ==> pool[i] == prefix[i];
        assert pool[|prefix|] == RowCandidate(bigData, n - 1);
        pool
      else prefix
  }

  /** Every row of big_data that mentions the class is in the pool. */
  lemma {:induction false} ClassPoolComplete(bigData: seq<MetaRow>, mid: string, n: nat, k: nat)
    requires k < n <= |bigData|
    requires MentionsClass(bigData[k], mid)
    ensures exists i :: 0 <= i < |ClassPoolUpTo(bigData, mid, n)| && ClassPoolUpTo(bigData, mid, n)[i].index == k
  {
    var prefix := ClassPoolUpTo(bigData, mid, n - 1);
    var pool := ClassPoolUpTo(bigData, mid, n);
    if k == n - 1 {
      assert pool[|prefix|].index == k;
    } else {
      ClassPoolComplete(bigData, mid, n - 1, k);
      var i :| 0 <= i < |prefix| && prefix[i].index == k;
      assert pool[i] == prefix[i];
    }
  }

  /** `big_data[big_data.eq(mid).any(1)]`: every row of the class, labelled
      by its position, in big_data order, with its start and end. */
  function ClassPool(bigData: seq<MetaRow>, mid: string): seq<Candidate>
  {
    ClassPoolUpTo(bigData, mid, |bigData|)
  }

  /** The log's rows as they enter the concatenation: labelled 0..L-1, no
      start or end. */
  function LogCandidates(log: seq<Record>): seq<Candidate>
  {
    seq(|log|, i requires 0 <= i < |log| => Candidate(i, log[i].yid, None, None))
  }

  /** How many rows of `s` have YouTube id `y`. */
  function CountYid(s: seq<Candidate>, y: string): nat
  {
    if s == [] then 0
    else
      (if s[0].yid == y then 1 else 0) + CountYid(s[1..], y)
  }

  /** The rows of `s` whose YouTube id occurs exactly once in `all`, in order. */
  function KeepOnce(all: seq<Candidate>, s: seq<Candidate>): seq<Candidate>
  {
    if s == [] then []
    else if CountYid(all, s[0].yid) == 1 then [s[0]] + KeepOnce(all, s[1..])
    else KeepOnce(all, s[1..])
  }

  /** `drop_duplicates(subset='YID', keep=False)`: every row whose YID
      occurs more than once is dropped, all copies of it. */
  function DropDuplicateYids(rows: seq<Candidate>): seq<Candidate>
  {
    KeepOnce(rows, rows)
  }

  /** The pool on resume: the class rows and the log rows concatenated, with
      every duplicated YID dropped. */
  function ResumePool(pool: seq<Candidate>, log: seq<Record>): seq<Candidate>
  {
    DropDuplicateYids(pool + LogCandidates(log))
  }

  /** `drop(instance.index)`: every row carrying the drawn row's index label. */
  function DropIndex(pool: seq<Candidate>, index: nat): seq<Candidate>
  {
    if pool == [] then []
    else if pool[0].index == index then DropIndex(pool[1..], index)
    else [pool[0]] + DropIndex(pool[1..], index)
  }

  predicate UniqueYids(s: seq<Candidate>)
  {
    forall i :: 0 <= i < |s| ==> CountYid(s, s[i].yid) == 1
  }

  predicate UniqueIndices(s: seq<Candidate>)
  {
    forall i, j :: 0 <= i < j < |s| ==> s[i].index != s[j].index
  }

  predicate InLog(log: seq<Record>, y: string)
  {
    exists i :: 0 <= i < |log| && log[i].yid == y
  }

  /** No YouTube id is logged twice. */
  predicate DistinctLog(log: seq<Record>)
  {
    forall i, j :: 0 <= i < j < |log| ==> log[i].yid != log[j].yid
  }

  /** The pool a resumed class draws from holds each YouTube id once, and
      the rows that could still be downloaded (those with a start and an
      end) are not in the log. */
  predicate Fresh(pool: seq<Candidate>, log: seq<Record>)
  {
    && UniqueYids(pool)
    && forall i :: 0 <= i < |pool| && pool[i].start.Some? ==> !InLog(log, pool[i].yid)
  }

  // ---------------------------------------------------------------------
  // Facts about the pool operations
  // ---------------------------------------------------------------------

  lemma {:induction false} DropIndexKeepsOthers(s: seq<Candidate>, index: nat)
    requires forall i :: 0 <= i < |s| ==> s[i].index != index
    ensures DropIndex(s, index) == s
  {
    if s != [] {
      DropIndexKeepsOthers(s[1..], index);
    }
  }

  lemma {:induction false} DropIndexLength(pool: seq<Candidate>, index: nat)
    ensures |DropIndex(pool, index)| <= |pool|
  {
    if pool != [] {
      DropIndexLength(pool[1..], index);
    }
  }

  /** Dropping the label of a row of the pool makes the pool shorter. */
  lemma {:induction false} DropIndexShrinks(pool: seq<Candidate>, k: nat)
    requires k < |pool|
    ensures |DropIndex(pool, pool[k].index)| < |pool|
  {
    if k > 0 {
      assert pool[1..][k - 1] == pool[k];
      DropIndexShrinks(pool[1..], k - 1);
    } else {
      DropIndexLength(pool[1..], pool[k].index);
    }
  }

  lemma {:induction false} CountConcat(a: seq<Candidate>, b: seq<Candidate>, y: string)
    ensures CountYid(a + b, y) == CountYid(a, y) + CountYid(b, y)
  {
    if a == [] {
      assert a + b == b;
    } else {
      CountConcat(a[1..], b, y);
      assert (a + b)[1..] == a[1..] + b;
    }
  }

  /** The rows kept by DropIndex are the pool's rows with another label. */
  lemma {:induction false} DropIndexMembers(pool: seq<Candidate>, index: nat, x: Candidate)
    ensures x in DropIndex(pool, index) <==> x in pool && x.index != index
  {
    if pool != [] {
      DropIndexMembers(pool[1..], index, x);
      assert x in pool <==> x == pool[0] || x in pool[1..];
    }
  }

  /** The rows kept by KeepOnce are those of `s` whose id is unique in `all`. */
  lemma {:induction false} KeepOnceMembers(all: seq<Candidate>, s: seq<Candidate>, x: Candidate)
    ensures x in KeepOnce(all, s) <==> x in s && CountYid(all, x.yid) == 1
  {
    if s != [] {
      KeepOnceMembers(all, s[1..], x);
      assert x in s <==> x == s[0] || x in s[1..];
    }
  }

  /** KeepOnce keeps the surviving rows in their original order. */
  lemma {:induction false} KeepOnceOrder(all: seq<Candidate>, s: seq<Candidate>)
    ensures IsSubseq(KeepOnce(all, s), s)
  {
    if s != [] {
      KeepOnceOrder(all, s[1..]);
      SubseqPrepend(s[0], KeepOnce(all, s[1..]), s[1..]);
      assert s == [s[0]] + s[1..];
    }
  }

  /** KeepOnce filters a concatenation part by part. */
  lemma {:induction false} KeepOnceConcat(all: seq<Candidate>, s: seq<Candidate>, t: seq<Candidate>)
    ensures KeepOnce(all, s + t) == KeepOnce(all, s) + KeepOnce(all, t)
  {
    if s != [] {
      KeepOnceConcat(all, s[1..], t);
      assert (s + t)[0] == s[0];
      assert (s + t)[1..] == s[1..] + t;
    } else {
      assert s + t == t;
    }
  }

  /** DropIndex keeps the remaining rows in their original order. */
  lemma {:induction false} DropIndexOrder(pool: seq<Candidate>, index: nat)
    ensures IsSubseq(DropIndex(pool, index), pool)
  {
    if pool != [] {
      DropIndexOrder(pool[1..], index);
      SubseqPrepend(pool[0], DropIndex(pool[1..], index), pool[1..]);
      assert pool == [pool[0]] + pool[1..];
    }
  }

  /** An id is counted exactly when some row carries it. */
  lemma {:induction false} CountPositive(s: seq<Candidate>, y: string)
    ensures CountYid(s, y) > 0 <==> exists i :: 0 <= i < |s| && s[i].yid == y
  {
    if s != [] {
      CountPositive(s[1..], y);
      if CountYid(s[1..], y) > 0 {
        var i :| 0 <= i < |s[1..]| && s[1..][i].yid == y;
        assert s[i + 1].yid == y;
      }
      if s[0].yid != y && exists i :: 0 <= i < |s| && s[i].yid == y {
        var i :| 0 <= i < |s| && s[i].yid == y;
        assert s[1..][i - 1].yid == y;
      }
    }
  }

  lemma {:induction false} CountKeepOnce(all: seq<Candidate>, s: seq<Candidate>, y: string)
    ensures CountYid(KeepOnce(all, s), y) <= CountYid(s, y)
  {
    if s != [] {
      CountKeepOnce(all, s[1..], y);
      var tail := KeepOnce(all, s[1..]);
      if CountYid(all, s[0].yid) == 1 {
        assert ([s[0]] + tail)[1..] == tail;
      }
    }
  }

  /** Two rows with the same YouTube id make it count at least twice. */
  lemma {:induction false} CountTwo(s: seq<Candidate>, i: nat, j: nat)
    requires i < j < |s| && s[i].yid == s[j].yid
    ensures CountYid(s, s[i].yid) >= 2
  {
    if i > 0 {
      CountTwo(s[1..], i - 1, j - 1);
    } else {
      assert s[1..][j - 1] == s[j];
      CountPositive(s[1..], s[j].yid);
    }
  }

  /** In a pool whose index labels are all different, dropping the label of
      the row at position k removes exactly that row. */
  lemma {:induction false} DropIndexExactlyOne(pool: seq<Candidate>, k: nat)
    requires UniqueIndices(pool) && k < |pool|
    ensures DropIndex(pool, pool[k].index) == pool[..k] + pool[k + 1..]
  {
    var l := pool[k].index;
    if k == 0 {
      DropIndexKeepsOthers(pool[1..], l);
    } else {
      var tail := pool[1..];
      assert tail[k - 1] == pool[k];
      DropIndexExactlyOne(tail, k - 1);
      assert pool[0].index != l;
      assert [pool[0]] + (tail[..k - 1] + tail[k..]) == pool[..k] + pool[k + 1..];
    }
  }

  /** The log's rows, as they enter the pool, have distinct labels and no
      start or end, and they carry exactly the YouTube ids of the log. */
  lemma LogCandidatesFacts(log: seq<Record>)
    ensures |LogCandidates(log)| == |log|
    ensures UniqueIndices(LogCandidates(log))
    ensures forall c :: c in LogCandidates(log) ==> c.start.None? && c.end.None?
    ensures forall y :: CountYid(LogCandidates(log), y) > 0 <==> InLog(log, y)
  {
    var rows := LogCandidates(log);
    forall y
      ensures CountYid(rows, y) > 0 <==> InLog(log, y)
    {
      CountPositive(rows, y);
      if InLog(log, y) {
        var i :| 0 <= i < |log| && log[i].yid == y;
        assert rows[i].yid == y;
      }
    }
  }

  /** Which rows survive deduplication on resume: a class row exactly when
      its YouTube id occurs once among the class rows and not in the log; a
      log row exactly when its id occurs once in the log and nowhere among
      the class rows. */
  lemma ResumePoolMembers(pool: seq<Candidate>, log: seq<Record>, c: Candidate)
    ensures c in pool ==>
              (c in ResumePool(pool, log) <==> CountYid(pool, c.yid) == 1 && !InLog(log, c.yid))
    ensures c in LogCandidates(log) ==>
              (c in ResumePool(pool, log) <==> CountYid(LogCandidates(log), c.yid) == 1 && CountYid(pool, c.yid) == 0)
  {
    var rows := LogCandidates(log);
    var all := pool + rows;
    KeepOnceMembers(all, all, c);
    CountConcat(pool, rows, c.yid);
    CountPositive(rows, c.yid);
    CountPositive(pool, c.yid);
    assert CountYid(rows, c.yid) > 0 <==> InLog(log, c.yid) by {
      if InLog(log, c.yid) {
        var i :| 0 <= i < |log| && log[i].yid == c.yid;
        assert rows[i].yid == c.yid;
      }
    }
    if c in pool {
      var i :| 0 <= i < |pool| && pool[i] == c;
    }
    if c in rows {
      var i :| 0 <= i < |rows| && rows[i] == c;
    }
  }

  /** The order of the resumed pool, which decides the positional draw:
      the surviving class rows in big_data order, then the surviving log
      rows in log order, an order-preserving subsequence of the
      concatenation. */
  lemma ResumePoolOrder(pool: seq<Candidate>, log: seq<Record>)
    ensures ResumePool(pool, log) ==
              KeepOnce(pool + LogCandidates(log), pool) + KeepOnce(pool + LogCandidates(log), LogCandidates(log))
    ensures IsSubseq(ResumePool(pool, log), pool + LogCandidates(log))
  {
    var all := pool + LogCandidates(log);
    KeepOnceConcat(all, pool, LogCandidates(log));
    KeepOnceOrder(all, all);
  }

  /** The resumed pool holds every YouTube id once, and none of its rows
      with a start and an end is in the log. */
  lemma ResumePoolFresh(pool: seq<Candidate>, log: seq<Record>)
    requires forall i :: 0 <= i < |pool| ==> pool[i].start.Some?
    ensures Fresh(ResumePool(pool, log), log)
  {
    var all := pool + LogCandidates(log);
    var r := ResumePool(pool, log);
    forall i | 0 <= i < |r|
      ensures CountYid(r, r[i].yid) == 1
    {
      assert r[i] in r;
      KeepOnceMembers(all, all, r[i]);
      CountKeepOnce(all, all, r[i].yid);
      CountPositive(r, r[i].yid);
    }
    forall i | 0 <= i < |r| && r[i].start.Some?
      ensures !InLog(log, r[i].yid)
    {
      var c := r[i];
      KeepOnceMembers(all, all, c);
      ResumePoolMembers(pool, log, c);

    }
  }

  // ---------------------------------------------------------------------
  // One draw, one class, the whole run
  // ---------------------------------------------------------------------

  /** Where one pass of the loop leaves the class. */
  datatype StepResult =
    | Stopped(stop: Stop, progress: Progress)
    | Next(pool: seq<Candidate>, progress: Progress)

  /** The position the draw picks in a pool of n > 0 rows. */
  function DrawPosition(pick: nat -> nat, n: nat): (k: nat)
    requires ValidPicker(pick) && 0 < n
    ensures k < n
  {
    pick(n)
  }

  /** What the download library reports for a YouTube id. */
  function FetchFor(fetch: string -> Fetch, yid: string): Fetch
  {
    fetch(yid)
  }

  /** The record logged for the n-th file of a class. */
  function NewRecord(cls: GetClasses.ClassPair, yid: string, n: nat, filename: string, sampleRate: nat): Record
  {
    Record(yid, cls.mid, cls.name, CleanedName(n, SplitExt(filename)), filename, sampleRate)
  }

  /** One pass of the `while True` loop: draw, drop, stop if the pool is
      now empty (without trying the drawn row), otherwise try the drawn row
      and count a failure or log a success. */
  function Step(cls: GetClasses.ClassPair, pool: seq<Candidate>, p: Progress, toGet: nat,
                fetch: string -> Fetch, pick: nat -> nat): (r: StepResult)
    requires ValidPicker(pick)
    ensures r.Next? ==> |r.pool| < |pool|
  {
    if pool == [] then Stopped(EmptySample, p)
    else
      var drawn := pool[DrawPosition(pick, |pool|)];
      var rest := DropIndex(pool, drawn.index);
      DropIndexShrinks(pool, DrawPosition(pick, |pool|));
      if rest == [] then Stopped(PoolExhausted, p)
      else
        var fetched := FetchFor(fetch, drawn.yid);
        var filename := DownloadOutcome(fetched, drawn.start, drawn.end);
        if filename == FailureName then Next(rest, p.(failed := p.failed + 1))
        else
          var n := p.downloaded + 1;
          var q := Progress(p.log + [NewRecord(cls, drawn.yid, n, filename, fetched.sampleRate)], n, p.failed);
          if n >= toGet then Stopped(TargetReached, q) else Next(rest, q)
  }

  /** The loop run to its end. */
  function Loop(cls: GetClasses.ClassPair, pool: seq<Candidate>, p: Progress, toGet: nat,
                fetch: string -> Fetch, pick: nat -> nat): ClassRun
    requires ValidPicker(pick)
    decreases |pool|
  {
    match Step(cls, pool, p, toGet, fetch, pick)
    case Stopped(stop, q) => ClassRun(stop, q)
    case Next(rest, q) => Loop(cls, rest, q, toGet, fetch, pick)
  }

  /** The class's log before the run, if its file exists. */
  function PriorLog(logs: map<string, seq<Record>>, name: string): Option<seq<Record>>
  {
    if name in logs then Some(logs[name]) else None
  }

  /** The class's log as read at the start: the log file's rows, or none. */
  function LoggedBefore(logs: map<string, seq<Record>>, name: string): seq<Record>
  {
    match PriorLog(logs, name)
    case None => []
    case Some(log) => log
  }

  /** The pool the loop starts from: deduplicated against the log only
      when there is a log. */
  function InitialPool(bigData: seq<MetaRow>, mid: string, prior: Option<seq<Record>>): seq<Candidate>
  {
    match prior
    case None => ClassPool(bigData, mid)
    case Some(log) => ResumePool(ClassPool(bigData, mid), log)
  }

  /** `min(samples_per_class, available)`, available counted before deduplication. */
  function ToGet(samplesPerClass: nat, bigData: seq<MetaRow>, mid: string): nat
  {
    Min(samplesPerClass, |ClassPool(bigData, mid)|)
  }

  /** One class from start to end. */
  function RunClass(logs: map<string, seq<Record>>, cls: GetClasses.ClassPair, bigData: seq<MetaRow>,
                    samplesPerClass: nat, fetch: string -> Fetch, pick: nat -> nat): ClassRun
    requires ValidPicker(pick)
  {
    var log0 := LoggedBefore(logs, cls.name);
    var toGet := ToGet(samplesPerClass, bigData, cls.mid);
    var p0 := Progress(log0, |log0|, 0);
    if |log0| >= toGet then ClassRun(Skipped, p0)
    else Loop(cls, InitialPool(bigData, cls.mid, PriorLog(logs, cls.name)), p0, toGet, fetch, pick)
  }

  /** The log files after a class: its file is (re)written when it existed
      or when something was logged. */
  function Persisted(logs: map<string, seq<Record>>, name: string, log: seq<Record>): map<string, seq<Record>>
  {
    if name in logs || log != [] then logs[name := log] else logs
  }

  /** Writing a non-empty log over the persisted state gives the persisted
      state of the new log. */
  lemma PersistedAfterSave(logs: map<string, seq<Record>>, name: string, before: seq<Record>, after: seq<Record>)
    requires after != []
    ensures Persisted(logs, name, before)[name := after] == Persisted(logs, name, after)
  {
  }

  /** A class whose pool was empty at its first draw aborts the run. */
  predicate Aborted(d: DownloadRun)
  {
    d.runs != [] && d.runs[|d.runs| - 1].stop == EmptySample
  }

  /** The classes handled in order, until one aborts the run. */
  function MainDownloadSpec(logs: map<string, seq<Record>>, classes: seq<GetClasses.ClassPair>, bigData: seq<MetaRow>,
                            samplesPerClass: nat, fetch: string -> Fetch, pick: nat -> nat): DownloadRun
    requires ValidPicker(pick)
    decreases |classes|
  {
    if classes == [] then DownloadRun(logs, [])
    else
      var prev := MainDownloadSpec(logs, classes[..|classes| - 1], bigData, samplesPerClass, fetch, pick);
      if Aborted(prev) then prev
      else
        var cls := classes[|classes| - 1];
        var run := RunClass(prev.logs, cls, bigData, samplesPerClass, fetch, pick);
        DownloadRun(Persisted(prev.logs, cls.name, run.progress.log), prev.runs + [run])
  }

  /** Once a class has aborted the run, later classes change nothing. */
  lemma {:induction false} AbortSticks(logs: map<string, seq<Record>>, classes: seq<GetClasses.ClassPair>, k: nat,
                                       bigData: seq<MetaRow>, samplesPerClass: nat,
                                       fetch: string -> Fetch, pick: nat -> nat)
    requires ValidPicker(pick) && k <= |classes|
    requires Aborted(MainDownloadSpec(logs, classes[..k], bigData, samplesPerClass, fetch, pick))
    ensures MainDownloadSpec(logs, classes, bigData, samplesPerClass, fetch, pick)
            == MainDownloadSpec(logs, classes[..k], bigData, samplesPerClass, fetch, pick)
    decreases |classes|
  {
    if k == |classes| {
      assert classes[..k] == classes;
    } else {
      var init := classes[..|classes| - 1];
      assert init[..k] == classes[..k];
      AbortSticks(logs, init, k, bigData, samplesPerClass, fetch, pick);
    }
  }

  // ---------------------------------------------------------------------
  // The imperative code
  // ---------------------------------------------------------------------

  /** The progress logs on disk, one per class name (`<class>.csv` in the
      class's folder). */
  class LogStore {
    var logs: map<string, seq<Record>>

    constructor (initial: map<string, seq<Record>>)
      ensures logs == initial
    {
      logs := initial;
    }

    /** `pd.read_csv(<class>.csv)`, or None when there is no such file. */
    function Read(name: string): Option<seq<Record>>
      reads this
    {
      PriorLog(logs, name)
    }

    /** `class_df.to_csv(<class>.csv)` */
    method Save(name: string, log: seq<Record>)
      modifies this
      ensures logs == old(logs)[name := log]
    {
      logs := logs[name := log];
    }
  }

  /** The body of main_download's loop over classes, for one class: read
      the log, build the pool, skip the class or run the draws. */
  method DownloadClass(store: LogStore, cls: GetClasses.ClassPair, bigData: seq<MetaRow>, samplesPerClass: nat,
                       fetch: string -> Fetch, pick: nat -> nat) returns (run: ClassRun)
    requires ValidPicker(pick)
    modifies store
    ensures run == RunClass(old(store.logs), cls, bigData, samplesPerClass, fetch, pick)
    ensures store.logs == Persisted(old(store.logs), cls.name, run.progress.log)
  {
    var allExamples := ClassPool(bigData, cls.mid);
    var available := |allExamples|;
    var filesDownloaded: nat, numFailed: nat := 0, 0;
    var classDf: seq<Record> := [];
    var prior := store.Read(cls.name);
    if prior.Some? {
      classDf := prior.value;
      filesDownloaded := filesDownloaded + |classDf|;
      allExamples := ResumePool(allExamples, classDf);
    }
    var toGet := Min(samplesPerClass, available);
    if filesDownloaded >= toGet {
      return ClassRun(Skipped, Progress(classDf, filesDownloaded, numFailed));
    }
    assert allExamples == InitialPool(bigData, cls.mid, prior);
    run := DrawUntilDone(store, cls, allExamples, Progress(classDf, filesDownloaded, numFailed), toGet, fetch, pick);
  }

  /** main_download's `while True` loop for one class, from the pool and
      progress it starts with. */
  method DrawUntilDone(store: LogStore, cls: GetClasses.ClassPair, pool0: seq<Candidate>, p0: Progress, toGet: nat,
                       fetch: string -> Fetch, pick: nat -> nat) returns (run: ClassRun)
    requires ValidPicker(pick)
    requires cls.name in store.logs ==> store.logs[cls.name] == p0.log
    requires cls.name !in store.logs ==> p0.log == []
    modifies store
    ensures run == Loop(cls, pool0, p0, toGet, fetch, pick)
    ensures store.logs == Persisted(old(store.logs), cls.name, run.progress.log)
  {
    var allExamples, progress := pool0, p0;
    while true
      invariant Loop(cls, allExamples, progress, toGet, fetch, pick) == Loop(cls, pool0, p0, toGet, fetch, pick)
      invariant store.logs == Persisted(old(store.logs), cls.name, progress.log)
      decreases |allExamples|
    {
      var r := DrawOnce(store, cls, allExamples, progress, toGet, fetch, pick, old(store.logs));
      match r
      case Stopped(stop, q) =>
        return ClassRun(stop, q);
      case Next(rest, q) =>
        allExamples, progress := rest, q;
    }
  }

  /** One pass of the `while True` loop: sample a row (which raises on an
      empty pool), drop it by its index label, stop if nothing is left,
      otherwise try to download the drawn row; count a failure, or clean the
      file, log it, write the log file and stop once the target is met. */
  method DrawOnce(store: LogStore, cls: GetClasses.ClassPair, pool: seq<Candidate>, p: Progress, toGet: nat,
                  fetch: string -> Fetch, pick: nat -> nat, ghost logs0: map<string, seq<Record>>)
    returns (r: StepResult)
    requires ValidPicker(pick)
    requires store.logs == Persisted(logs0, cls.name, p.log)
    modifies store
    ensures r == Step(cls, pool, p, toGet, fetch, pick)
    ensures store.logs == Persisted(logs0, cls.name, r.progress.log)
  {
    var classDf, filesDownloaded, numFailed := p.log, p.downloaded, p.failed;
    if pool == [] {
      // `sample` raises on an empty frame
      return Stopped(EmptySample, p);
    }
    var instance := pool[DrawPosition(pick, |pool|)];
    var allExamples := DropIndex(pool, instance.index);
    if allExamples == [] {
      return Stopped(PoolExhausted, p);
    }
    var fetched := FetchFor(fetch, instance.yid);
    var filename := DownloadAudio(fetched, instance.start, instance.end);
    if filename == FailureName {
      numFailed := numFailed + 1;
      return Next(allExamples, Progress(classDf, filesDownloaded, numFailed));
    }
    filesDownloaded := filesDownloaded + 1;
    var newFilename := CleanedName(filesDownloaded, SplitExt(filename));
    var row := Record(instance.yid, cls.mid, cls.name, newFilename, filename, fetched.sampleRate);
    PersistedAfterSave(logs0, cls.name, classDf, classDf + [row]);
    classDf := classDf + [row];
    store.Save(cls.name, classDf);
    // the second emptiness test, after logging, can never succeed
    assert allExamples != [];
    if filesDownloaded >= toGet {
      return Stopped(TargetReached, Progress(classDf, filesDownloaded, numFailed));
    }
    return Next(allExamples, Progress(classDf, filesDownloaded, numFailed));
  }

  /** main_download: the classes in order; an abort ends the run. */
  method MainDownload(store: LogStore, classes: seq<GetClasses.ClassPair>, bigData: seq<MetaRow>,
                      samplesPerClass: nat, fetch: string -> Fetch, pick: nat -> nat)
    returns (runs: seq<ClassRun>)
    requires ValidPicker(pick)
    modifies store
    ensures DownloadRun(store.logs, runs) == MainDownloadSpec(old(store.logs), classes, bigData, samplesPerClass, fetch, pick)
  {
    runs := [];
    for i := 0 to |classes|
      invariant DownloadRun(store.logs, runs)
                == MainDownloadSpec(old(store.logs), classes[..i], bigData, samplesPerClass, fetch, pick)
      invariant !Aborted(DownloadRun(store.logs, runs))
    {
      assert classes[..i + 1][..i] == classes[..i];
      var run := DownloadClass(store, classes[i], bigData, samplesPerClass, fetch, pick);
      runs := runs + [run];
      if run.stop == EmptySample {
        AbortSticks(old(store.logs), classes, i + 1, bigData, samplesPerClass, fetch, pick);
        return;
      }
    }
    assert classes[..|classes|] == classes;
  }
}
