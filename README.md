# AudioSet downloader core, modelled in Dafny

This project models the core of a tool that builds per-class audio datasets
from Google's AudioSet. It covers four pieces:

- **compile_dataframes** stacks the five AudioSet segment tables into one
  metadata table (`big_data`). It strips spaces and double quotes from every
  label cell.
- **suitable_class_extractor** and **main_get_classes** walk the AudioSet
  ontology. They keep the classes that are leaves (optionally), are not
  blacklisted, have a quality estimate, and have an estimated rate that
  reaches a threshold. Each kept class is paired with its display name.
- **main_download** handles the chosen classes one by one. For each class
  it resumes from the class's progress log and builds the pool of candidate
  clips. It then draws candidates without replacement and downloads and
  validates each one (**download_audio**). Each success is renamed and
  clipped (**file_cleaning**) and logged, until the per-class target is
  reached or the pool runs out.

The model has these modules:

- `Common`: `Option` and `Result`, `Min`, and an order-preserving
  subsequence predicate.
- `CompileData`: the table as a sequence of rows of optional cells (`None`
  is pandas' NaN), `str.strip(' "')`, `pd.concat` with NaN padding, and
  compile_dataframes. All pure functions and lemmas.
- `GetClasses`: the extractor as a method with a loop, proved against the
  recursive specification `Extract`. Its lemmas say which classes are kept
  and how the output narrows as the threshold rises or the leaf restriction
  is switched on.
- `FileNaming`: the name arithmetic of file_cleaning (`os.path.splitext`,
  `str.find`, Python slicing, `'%s%s' % (n, ext)`) and the frame window it
  keeps.
- `Validation`: the guards of download_audio, as a method proved against
  the predicate `Accepts`.
- `Orchestrator`: main_download as imperative code. `LogStore` is a class
  holding the per-class log files. `DrawOnce`, `DrawUntilDone`,
  `DownloadClass` and `MainDownload` are methods proved against the
  specification functions `Step`, `Loop`, `RunClass` and `MainDownloadSpec`.
  The module also holds the pool operations (class pool, deduplication on
  resume, drop by index label) and their lemmas.
- `DownloadProperties`: what main_download promises. It covers the
  bookkeeping of one pass, how a class run stops, the numbering of the
  files, that no YouTube id is logged twice, what a rerun does, and two
  concrete runs.

### How the model treats the outside world

- The download library and the directory listing are one oracle,
  `fetch: string -> Fetch`. For a YouTube id it gives either a failure (an
  exception somewhere in the attempt) or the new file's name, the video's
  duration and the audio's sample rate.
- `all_examples.sample(1, random_state=seed)` is re-seeded with the same
  seed at every draw. So the position drawn depends only on the pool's
  size. It is the parameter `pick: nat -> nat`, with `pick(n) < n`.
- Pandas' `drop(instance.index)` drops by index label, not by position.
  Class rows carry their position in `big_data`. Log rows that survive
  deduplication carry their position in the log. The model keeps these
  labels (`Candidate.index`) and drops every row with the drawn label.
- Log rows that enter the pool on resume have no start or end column, so
  theirs are NaN (`None`). Such a row is always rejected by download_audio.
- `sample` on an empty pool raises an exception that nothing catches. This
  happens only when deduplication has emptied the pool before the first
  draw. It is the stop `EmptySample`, and it ends the whole run.
- The second `all_examples.empty` test (after a success is logged) can
  never succeed, because the pool was found non-empty just before. The
  method asserts this.
- A rerun is a no-op for a class that was skipped or reached its target
  (`RerunAfterTargetSkips`). After a run that exhausted its pool, the last
  row drawn was never tried, and a rerun can download more
  (`ResumeAfterExhaustionCanAcquire`).

## Model

| member | source | states |
|---|---|---|
| CompileData.Strip | compile_data.py:72 | definition of `str.strip(' "')`: leading, then trailing spaces and double quotes dropped; characterised by StripShape and StripUnique |
| CompileData.CleanCell | compile_data.py:72 | definition: a NaN cell stays NaN, a string cell is stripped; see CompiledLabelsClean |
| CompileData.CleanRow | compile_data.py:68-75 | definition: columns 0-2 kept, later columns cleaned, glued back side by side; see CleanRowIdempotent |
| CompileData.Concat | compile_data.py:64-65 | definition of `pd.concat(axis=0, ignore_index=True)`: rows stacked in order and padded with NaN to the widest row; see CompileShape |
| CompileData.CompileDataframes | compile_data.py:64-75 | definition of compile_dataframes on the five loaded tables; its shape and cells are stated by CompileShape and CompiledLabelsClean |
| CompileData.StripLeftSkips | compile_data.py:72 | stripping from the left drops exactly the leading run of spaces and double quotes |
| CompileData.StripRightSkips | compile_data.py:72 | stripping from the right drops exactly the trailing run of spaces and double quotes |
| CompileData.LeadingRun | compile_data.py:72 | the length of the leading run of strip characters: every character before it is a strip character, the one at it is not |
| CompileData.TrailingRun | compile_data.py:72 | the length of the trailing run of strip characters, with the same two properties |
| CompileData.StripShape | compile_data.py:72 | `strip(' "')` returns a contiguous slice of its input, and neither end of that slice is a space or a double quote |
| CompileData.StripUnique | compile_data.py:72 | any slice s[i..j] that has clean ends and only strip characters outside it is the result of strip (this characterises strip) |
| CompileData.StripIdempotent | compile_data.py:72 | stripping twice is stripping once |
| CompileData.MaxWidth | compile_data.py:64-65 | the column count of the concatenated frame is the width of its widest row: no row is wider and some row reaches it (0 for no rows) |
| CompileData.StackFive | compile_data.py:64-65 | the five tables are stacked in the order balanced, unbalanced 0, 1, 2, eval |
| CompileData.CompileShape | compile_data.py:64-75 | one output row per input row, in stacking order; every row is as wide as the widest input row; columns 0-2 are copied (NaN past a short row) and every later column holds the stripped input cell |
| CompileData.CompiledLabelsClean | compile_data.py:68-75 | no label cell of the compiled table starts or ends with a space or a double quote |
| CompileData.CleanRowIdempotent | compile_data.py:68-75 | cleaning a row keeps its width, and cleaning it twice is cleaning it once |
| GetClasses.MeetsThreshold | get_classes.py:84 | definition of `rate >= quality` with rate = num_true / num_rated compared exactly, +inf and NaN for num_rated = 0; see MeetsLowerThreshold |
| GetClasses.Classify | get_classes.py:68-88 | definition: the guards of one loop iteration in order (leaf, blacklist, no quality row, `.item()` errors, threshold); see KeptSound |
| GetClasses.Kept | get_classes.py:64-90 | definition: the classes kept from the ontology in order; see KeptMembership and KeptFromIndices |
| GetClasses.Extract | get_classes.py:64-90 | definition of the loop's outcome: the kept list or the first `.item()` error; see ExtractIsKept and SuitableClassExtractor |
| GetClasses.QualityRowsFor | get_classes.py:77 | `.loc[label_id == mid]` selects only quality rows with that mid, every table row carrying it, in table order |
| GetClasses.LabelRowsFor | get_classes.py:85 | `.loc[mid == mid]` selects only label rows with that mid, every table row carrying it, in table order |
| GetClasses.QualityRowsForCount | get_classes.py:77-84 | each quality row with the mid is selected exactly as often as it occurs in the table, so a repeated row makes `.item()` raise |
| GetClasses.LabelRowsForCount | get_classes.py:85-86 | each label row with the mid is selected exactly as often as it occurs in the table |
| GetClasses.ExtractFailureSticks | get_classes.py:65-90 | once an ontology entry makes `.item()` raise, later entries do not change the outcome |
| GetClasses.SuitableClassExtractor | get_classes.py:36-90 | the loop returns the specification's list and its length, or the first `.item()` error, exactly as `Extract` does |
| GetClasses.MainGetClasses | get_classes.py:135-140 | the answer "n" runs the extractor with the leaf restriction off; any other answer runs it with the restriction on |
| GetClasses.ExtractIsKept | get_classes.py:65-90 | the extractor succeeds exactly when no entry raises, and then returns the kept classes in ontology order |
| GetClasses.KeptFromIndices | get_classes.py:65-90 | the kept classes come from strictly increasing ontology positions; every passing position is among them and nothing else is |
| GetClasses.KeptMembership | get_classes.py:65-90 | a class is in the output exactly when some ontology entry passes every guard and yields it |
| GetClasses.KeptSound | get_classes.py:69-88 | every kept class is a leaf when leaves are asked for, is not blacklisted, has exactly one quality row meeting the threshold, and has its one display name |
| GetClasses.KeptNarrows | get_classes.py:65-90 | if every entry the first setting does not skip gets the same verdict under the second, the first output is a subsequence of the second, and if the second succeeds so does the first |
| GetClasses.MeetsLowerThreshold | get_classes.py:84 | a rate that meets a threshold meets every lower threshold, including the +inf rate of num_rated = 0 |
| GetClasses.ThresholdMonotone | get_classes.py:84 | raising the quality threshold never adds a class: the higher threshold's output is a subsequence of the lower one's |
| GetClasses.LeafNarrows | get_classes.py:69-71 | the leaf-only output is a subsequence of the output with the leaf restriction off |
| FileNaming.SplitExt | download_functions.py:220 | definition of `os.path.splitext(name)[1]`: from the last dot on, unless only dots precede it; see SplitExtSuffix and SplitExtOneDot |
| FileNaming.FindFrom | download_functions.py:230 | definition of `str.find`; see FindFromFirst |
| FileNaming.CleanedName | download_functions.py:220-243 | definition of the name file_cleaning returns; see CleanedNameShape and CleanedNamesDistinct |
| FileNaming.PySlice | download_functions.py:231 | definition of Python's `s[lo:hi]` with clamped bounds; see SliceBound |
| FileNaming.ClipFrames | download_functions.py:243-254 | definition of `data[int(startframe):int(endframe)]`; see ClipWindow |
| FileNaming.DigitChar | download_functions.py:226 | a decimal digit is spelled by a digit character |
| FileNaming.NatToString | download_functions.py:226 | `'%s' % n` is never empty |
| FileNaming.NatToStringDigits | download_functions.py:226 | the spelling of a file number consists of decimal digits only |
| FileNaming.NatToStringRoundTrip | download_functions.py:226 | the file number can be parsed back from its spelling |
| FileNaming.NatToStringNoLeadingZero | download_functions.py:226 | the spelling has no leading zero: it starts with '0' exactly for 0, which is spelled "0" |
| FileNaming.LastDot | download_functions.py:220 | the position found is -1 or holds a dot |
| FileNaming.LastDotIsLast | download_functions.py:220 | no dot follows the position found |
| FileNaming.SplitExtSuffix | download_functions.py:220 | `os.path.splitext(name)[1]` is empty, or a dot followed by the rest of the name |
| FileNaming.SplitExtOneDot | download_functions.py:220 | the extension holds no dot but its first character |
| FileNaming.SplitExtFound | download_functions.py:220 | a name with a dot after some other character has an extension, and it is the part from the last dot on (so "clip.m4a" gives ".m4a") |
| FileNaming.FindFromFirst | download_functions.py:230 | `str.find` answers the first occurrence, and -1 only when there is none |
| FileNaming.FindAfterDigits | download_functions.py:226-230 | in "<digits><ext>" an extension that starts with a dot is first found right after the digits; an empty one is found at 0 |
| FileNaming.CleanedNameShape | download_functions.py:220-243 | the cleaned name is "<n>.wav" for an ordinary extension, "<n>.wav.wav" for a file that was already .wav, and ".wav" for a file without extension |
| FileNaming.CleanedNamesDistinct | download_functions.py:220-243 | different file numbers give different cleaned names, so no file of a class overwrites another |
| FileNaming.SliceBound | download_functions.py:254 | definition of how Python clamps one slice bound (a negative bound counts from the end); the bound it gives always lies within the sequence |
| FileNaming.ClipWindow | download_functions.py:243-254 | for a window inside the audio the clip is exactly frames [sr*start, sr*end), that is sr*(end-start) frames; past the end it is cut at the end; it is never longer than sr*(end-start) |
| Validation.Accepts | download_functions.py:134-144 | definition of the three guards, with a NaN start or end failing the last; see AcceptsBoundary, MissingTimesRejected and AcceptedWindowInside |
| Validation.DownloadOutcome | download_functions.py:118-151 | definition of the name download_audio returns; DownloadAudio is proved equal to it |
| Validation.DownloadAudio | download_functions.py:118-151 | the name returned is the new file's exactly when the fetch succeeded, the video lasts at least 11 s, the window ends before the video and lasts exactly 10 s; otherwise it is "0" |
| Validation.AcceptsBoundary | download_functions.py:134-144 | an 11 s video with window [0, 10) is the shortest accepted case; a 10 s one is rejected |
| Validation.WrongLengthRejected | download_functions.py:142-144 | a window whose end minus start is not 10 s is rejected whatever the duration |
| Validation.MissingTimesRejected | download_functions.py:138-144 | a row with a NaN start or end is never accepted |
| Validation.AcceptedWindowInside | download_functions.py:134-144 | an accepted window ends 10 s after it starts and before the video ends |
| Orchestrator.MentionsClass | download_functions.py:296 | definition of `big_data.eq(mid).any(1)` for one row |
| Orchestrator.ClassPool | download_functions.py:296 | definition of `big_data[big_data.eq(mid).any(1)]`; see ClassPoolUpTo and ClassPoolComplete |
| Orchestrator.KeepOnce | download_functions.py:307-308 | definition: the rows whose YID occurs once; see KeepOnceMembers and KeepOnceOrder |
| Orchestrator.DropDuplicateYids | download_functions.py:307-308 | definition of `drop_duplicates(subset='YID', keep=False)`; see KeepOnceMembers |
| Orchestrator.ResumePool | download_functions.py:301-308 | definition of the pool on resume; see ResumePoolMembers, ResumePoolOrder and ResumePoolFresh |
| Orchestrator.DropIndex | download_functions.py:324 | definition of `drop(instance.index)`; see DropIndexMembers, DropIndexOrder and DropIndexExactlyOne |
| Orchestrator.NewRecord | download_functions.py:351-358 | definition of the logged row; see StepBookkeeping and LoopNumbering |
| Orchestrator.Loop | download_functions.py:321-372 | definition of the `while True` loop run to its end; DrawUntilDone is proved equal to it, and LoopStops, LoopLog and LoopDistinct state its properties |
| Orchestrator.InitialPool | download_functions.py:296-311 | definition: the class pool, deduplicated against the log only when the log file exists |
| Orchestrator.LoggedBefore | download_functions.py:301-305 | definition of the log a class starts from, derived from PriorLog (the file, if any): its rows, or none when there is no file; RunClass and its lemmas use it |
| Orchestrator.ToGet | download_functions.py:314 | definition of `min(samples_per_class, available)`, counted before deduplication |
| Orchestrator.RunClass | download_functions.py:294-372 | definition of one class from start to end; DownloadClass is proved equal to it, and RunClassFacts states its properties |
| Orchestrator.Persisted | download_functions.py:301-359 | definition of the log files after a class: written when it existed or something was logged |
| Orchestrator.MainDownloadSpec | download_functions.py:292-372 | definition of the whole run; MainDownload is proved equal to it, and MainDownloadShape and AbortSticks state its properties |
| Orchestrator.ClassPoolUpTo | download_functions.py:296 | the class pool holds only rows that mention the class, each labelled by its own position, in big_data order |
| Orchestrator.ClassPoolComplete | download_functions.py:296 | every row of big_data that mentions the class is in the class pool |
| Orchestrator.LogCandidates | download_functions.py:307 | definition of the log rows entering the concatenation: labelled 0..L-1, with their YouTube id and no start or end; see LogCandidatesFacts, ResumePoolMembers and RunClassLogsAccepted |
| Orchestrator.LogCandidatesFacts | download_functions.py:301-307 | the log rows entering the pool number as many as the log, have distinct labels, have no start or end, and carry exactly the YouTube ids of the log |
| Orchestrator.DropIndexKeepsOthers | download_functions.py:324 | dropping a label no row carries changes nothing |
| Orchestrator.DropIndexLength | download_functions.py:324 | dropping by label never lengthens the pool |
| Orchestrator.DropIndexShrinks | download_functions.py:323-324 | dropping the drawn row's label shortens the pool, so the loop ends |
| Orchestrator.CountConcat | download_functions.py:307 | the number of rows with an id is additive over concatenation |
| Orchestrator.DropIndexMembers | download_functions.py:324 | the rows kept are exactly the pool's rows carrying another label |
| Orchestrator.KeepOnceMembers | download_functions.py:307-308 | `drop_duplicates(keep=False)` keeps exactly the rows whose id occurs once |
| Orchestrator.KeepOnceOrder | download_functions.py:307-308 | `drop_duplicates` keeps the surviving rows in their original order (an order-preserving subsequence) |
| Orchestrator.KeepOnceConcat | download_functions.py:307-308 | deduplicating a concatenation filters each part in place, so rows of the first part stay before rows of the second |
| Orchestrator.DropIndexOrder | download_functions.py:324 | `drop` keeps the remaining rows in their original order, even when two rows share the label |
| Orchestrator.CountPositive | download_functions.py:307-308 | an id is counted exactly when some row carries it |
| Orchestrator.CountKeepOnce | download_functions.py:307-308 | deduplication never makes an id more frequent |
| Orchestrator.CountTwo | download_functions.py:307-308 | two rows with the same id make it count at least twice |
| Orchestrator.DropIndexExactlyOne | download_functions.py:323-324 | with distinct labels, dropping the drawn row's label removes exactly that row |
| Orchestrator.ResumePoolMembers | download_functions.py:301-308 | on resume a class row survives exactly when its id occurs once among the class rows and not in the log; a log row survives exactly when its id occurs once in the log and nowhere among the class rows |
| Orchestrator.ResumePoolOrder | download_functions.py:301-308 | the resumed pool, whose order decides the positional draw, is the surviving class rows in big_data order followed by the surviving log rows in log order: an order-preserving subsequence of the concatenation |
| Orchestrator.ResumePoolFresh | download_functions.py:301-308 | the resumed pool holds every id once, and none of its rows with a start and an end is already logged |
| Orchestrator.DrawPosition | download_functions.py:323 | the draw picks a position inside the pool |
| Orchestrator.Step | download_functions.py:321-372 | a pass that continues leaves a strictly smaller pool |
| Orchestrator.PersistedAfterSave | download_functions.py:357-359 | writing a non-empty log over the persisted state gives the persisted state of that log |
| Orchestrator.AbortSticks | download_functions.py:292-323 | once a class has aborted the run (uncaught raise from `sample`), later classes change nothing |
| Orchestrator.LogStore.constructor | download_functions.py:301-311 | the store starts with the log files that exist on disk |
| Orchestrator.LogStore.Save | download_functions.py:359 | writing a class's log replaces that class's file and no other |
| Orchestrator.DownloadClass | download_functions.py:294-372 | one class as main_download runs it: its result is `RunClass` of the logs before it, and afterwards its log file holds the class's final log (written when it existed or when something was logged) |
| Orchestrator.DrawUntilDone | download_functions.py:321-372 | the `while True` loop ends with the result of `Loop`, and the log file follows the log after every success |
| Orchestrator.DrawOnce | download_functions.py:323-372 | one pass of the loop is `Step`: draw, drop, stop on an empty pool, otherwise download, count a failure or log, rename and save a success, and stop at the target |
| Orchestrator.MainDownload | download_functions.py:261-372 | the classes in order, stopping when one aborts; the run's logs and per-class results are those of `MainDownloadSpec` |
| DownloadProperties.StepBookkeeping | download_functions.py:321-372 | the pass draws `pool[pick(\|pool\|)]` and what remains is the pool without that row's label; it stops with PoolExhausted exactly when nothing remains; a tried row is a success exactly when download_audio accepts it, and the success appends the row with its YouTube id, file number, cleaned and downloaded names and sample rate; `sample` raises exactly on an empty pool; a pass that empties the pool changes nothing; a tried row is one failure or one success, logged as "<n>.wav" with the class's id and name; TargetReached exactly when a success brings the count to the target; a row is tried only from a pool of at least two |
| DownloadProperties.LoopLog | download_functions.py:299-359 | the file count always equals the log's length, and the log a class started with stays a prefix |
| DownloadProperties.LoopNumbering | download_functions.py:351-359 | the row at log position i, past the rows the run started with, is file "<i+1>.wav" of the class |
| DownloadProperties.NewRowNamed | download_functions.py:354-358 | a logged row keeps its name once more rows follow it |
| DownloadProperties.LoopLogsAccepted | download_functions.py:321-359 | every row a class run appends records a candidate of its pool that download_audio accepted, with that candidate's YouTube id and the downloaded file's name |
| DownloadProperties.LoopStops | download_functions.py:321-372 | from a count below the target, the count never passes the target and reaches it exactly when the run stops with TargetReached; `sample` raises only on a pool empty from the start, and then nothing changed |
| DownloadProperties.LoopAttempts | download_functions.py:321-348 | the counters only grow, and at most \|pool\| - 1 rows are tried: the last row drawn is never tried |
| DownloadProperties.StepRemovesOne | download_functions.py:323-331 | with distinct labels a pass removes exactly the drawn row, and the pool is exhausted exactly when its last row is drawn |
| DownloadProperties.LoopTriesAllButLast | download_functions.py:321-348 | a run from a pool with distinct labels that ends with an exhausted pool tried every row but the last one drawn |
| DownloadProperties.ClassPoolLabelsDistinct | download_functions.py:296 | the class pool's index labels are distinct |
| DownloadProperties.CountDropIndex | download_functions.py:324 | dropping rows never makes an id more frequent |
| DownloadProperties.UniqueYidsDiffer | download_functions.py:307-308 | two rows of a deduplicated pool have different ids |
| DownloadProperties.DropFresh | download_functions.py:324 | dropping rows keeps a pool fresh against the same log |
| DownloadProperties.LogDrawnFresh | download_functions.py:323-359 | logging the drawn row keeps the log free of repeated ids and the rest of the pool fresh against the longer log |
| DownloadProperties.StepFresh | download_functions.py:321-372 | one pass keeps the pool fresh and the log free of repeated ids |
| DownloadProperties.LoopDistinct | download_functions.py:321-372 | a class run from a fresh pool never logs an id twice |
| DownloadProperties.RunClassFacts | download_functions.py:299-372 | a class is skipped, unchanged, exactly when its log already holds min(samples_per_class, available); the count matches the log; the old log stays a prefix; the log never grows past max(its old size, the target); TargetReached exactly when the log reaches the target |
| DownloadProperties.RunClassNumbering | download_functions.py:299-359 | resumed downloads continue the numbering of the log: the row at position i is file "<i+1>.wav" |
| DownloadProperties.RunClassLogsAccepted | download_functions.py:296-359 | every row a class run appends comes from a big_data row of the class whose window download_audio accepted; log rows carried into the pool are never downloaded |
| DownloadProperties.ClassPoolTimed | download_functions.py:296 | every row of the class pool has a start and an end |
| DownloadProperties.NoDuplicateAcquisition | download_functions.py:299-372 | a resumed class whose log has no repeated id, or a fresh class whose rows carry different ids, ends with a log without repeated ids |
| DownloadProperties.RerunAfterTargetSkips | download_functions.py:314-319 | rerunning a class that was skipped or reached its target is skipped with the same log, and the log files stay as they are |
| DownloadProperties.ExampleFirstRun | download_functions.py:321-372 | a concrete run: of rows a, b, c, a fails, c is logged as file 1, and drawing b empties the pool so b is never tried |
| DownloadProperties.ExampleResumePool | download_functions.py:307-308 | on resume the logged id c is dropped from the pool together with its log copy |
| DownloadProperties.ExampleSecondRun | download_functions.py:299-372 | the rerun of that class draws b first and logs it as file 2 |
| DownloadProperties.ResumeAfterExhaustionCanAcquire | download_functions.py:299-372 | a rerun after the pool ran out can download more: the second run logs b, which the first never tried |
| DownloadProperties.RepeatedPoolEmpties | download_functions.py:307-308 | an id occurring twice in the pool and once in the log is dropped entirely, and the pool can become empty |
| DownloadProperties.EmptyPoolAborts | download_functions.py:292-331 | a class whose pool is empty at its first draw ends the whole run with its log untouched, and the next class is never reached |
| DownloadProperties.MainDownloadShape | download_functions.py:292-372 | one run per class reached, in order; the run stops early only when a class aborts it; the logs of classes not in the list are unchanged |

## Left out

- Downloading: youtube_dl, the cookie file, the console redirection and the
  directory listing that finds the new file are the `fetch` oracle. The
  model does not capture a directory in which the new file cannot be
  identified.
- Audio processing: the ffmpeg conversion, `soundfile.read` and
  `soundfile.write`. The model keeps only the name file_cleaning returns and
  the frame window it keeps.
- Exceptions raised by file_cleaning. main_download calls it outside
  download_audio's `try` (download_functions.py:354), after
  `files_downloaded` has been incremented and before the row is logged. So
  an ffmpeg failure, a `soundfile` read or write error, or an `os.rename`
  onto a name that is taken ends the whole run with nothing caught. The
  model instead logs every download that download_audio accepted. Two
  extensions always crash there. A file that was already ".wav" is looked
  up as "<n>.wav.wav", which does not exist, so `sf.read` fails. A file
  without extension is renamed "<n>", and `'<n>'.find('')` is 0, so its
  name is cut to the empty string and `ff.run()` fails on an empty input.
  The model gives these two cases the names `CleanedNameShape` states.
- The sample rate logged is the one the oracle reports. main_download
  takes it from reading the converted file.
- create_directories, `os.chdir` and `os.remove`: the model has no file
  system beyond the per-class log files (`LogStore`).
- Pandas' random number generator: the draw is the choice function `pick`.
  Only its re-seeding (the position depends only on the pool's size) is
  modelled.
- CSV, Excel, JSON and npy input and output. The tables are parameters, and
  the extractor's result is returned rather than saved.
- CompileData.Concat: stacks rows by position and pads them on the right.
  `pd.concat(axis=0)` aligns columns by their header labels. The two agree
  only when the five tables share their column headers in the same order;
  tables with differing headers are not modelled.
- Start and end times are whole seconds. The Python code reads them as floats,
  and `int(sr * start)` truncates. Only integer windows are modelled.
- The quality rate `num_true / num_rated` is a rational compared exactly,
  not a float. A zero num_rated gives +inf (passes) or NaN (fails), as in
  pandas.
- The "Unnamed: 0" index column that `to_csv`/`read_csv` adds to a re-read
  log is not modelled. It plays no part in deduplication by YID.
- compile_dataframes on tables whose label cells are all NaN: pandas'
  `.str` accessor then raises, and the model strips nothing instead.
- graphing, the download_data entry point that slices the class list, and
  the helpers that gather extra metadata are outside this core. So are the
  post-processing scripts.
- Progress bars and console output.
- Interruption of a run part-way through (the log file is written after
  every success, so a run stopped between two saves resumes from the last
  one).
- DownloadProperties.NoDuplicateAcquisition: for a class without a log file
  it requires the class rows' ids to be distinct. main_download does not
  deduplicate a fresh pool, so big_data rows that repeat an id can be
  downloaded twice.
