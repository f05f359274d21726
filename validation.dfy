/** download_audio: the guards that decide whether a fetched file is kept.
    The youtube_dl download, the duration lookup and the directory listing
    that identifies the new file are one oracle result of type `Fetch`. */
module Validation {
  import opened Common

  /** Files shorter than this many seconds are rejected (a 10 s file tends
      to come out a second short). */
  const MinDuration: int := 11

  /** The length every clip window must have, in seconds. */
  const ClipLength: int := 10

  /** The sentinel file name that means "download failed". */
  const FailureName: string := "0"

  /** What the download library reports for one link: either an exception
      was raised somewhere in the attempt, or the new file in the working
      directory (its name, as the directory listing shows it), the video's
      duration in seconds and the sample rate of the audio it holds. */
  datatype Fetch =
    | FetchFailed
    | Fetched(file: string, duration: int, sampleRate: nat)

  /** The three guards: the video is at least 11 s long, the window ends
      before the video does, and the window is exactly 10 s. A missing
      (NaN) start or end fails the last guard. */
  predicate Accepts(start: Option<int>, end: Option<int>, duration: int)
  {
    && duration >= MinDuration
    && start.Some? && end.Some?
    && end.value < duration
    && end.value - start.value == ClipLength
  }

  /** The name download_audio hands back. */
  function DownloadOutcome(fetched: Fetch, start: Option<int>, end: Option<int>): string
  {
    if fetched.Fetched? && Accepts(start, end, fetched.duration) then fetched.file else FailureName
  }

  /** download_audio after the download itself: the name starts as the
      failure sentinel, becomes the new file's name, and each failed guard
      puts the sentinel back. */
  method DownloadAudio(fetched: Fetch, start: Option<int>, end: Option<int>) returns (filename: string)
    ensures filename == DownloadOutcome(fetched, start, end)
    ensures filename != FailureName ==> fetched.Fetched? && Accepts(start, end, fetched.duration) && filename == fetched.file
    ensures fetched.FetchFailed? || !Accepts(start, end, fetched.duration) ==> filename == FailureName
  {
    filename := FailureName;
    if fetched.FetchFailed? {
      return;
    }
    filename := fetched.file;
    if fetched.duration < MinDuration {
      filename := FailureName;
    }
    // a NaN end compares false, so only a known end can fail here
    if end.Some? && end.value >= fetched.duration {
      filename := FailureName;
    }
    // NaN - start, or end - NaN, is never equal to 10
    if start.None? || end.None? || end.value - start.value != ClipLength {
      filename := FailureName;
    }
  }

  /** A window [0, 10) of an 11-second video is the shortest accepted case;
      the same window of a 10-second video is rejected. */
  lemma AcceptsBoundary()
    ensures Accepts(Some(0), Some(10), 11)
    ensures !Accepts(Some(0), Some(10), 10)
  {
  }

  /** A window that is not 10 s long is rejected whatever the duration. */
  lemma WrongLengthRejected(start: int, end: int, duration: int)
    requires end - start != ClipLength
    ensures !Accepts(Some(start), Some(end), duration)
  {
  }

  /** A row whose start or end is missing is never accepted. */
  lemma MissingTimesRejected(start: Option<int>, end: Option<int>, duration: int)
    requires start.None? || end.None?
    ensures !Accepts(start, end, duration)
  {
  }

  /** An accepted window ends 10 s after it starts and before the video
      ends: start + 10 = end < duration. */
  lemma AcceptedWindowInside(start: Option<int>, end: Option<int>, duration: int)
    requires Accepts(start, end, duration)
    ensures end.value == start.value + ClipLength
    ensures start.value + ClipLength < duration
  {
  }
}
