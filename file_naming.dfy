/** The pure part of file_cleaning: the name a downloaded file is given
    (`<n>.wav` for the n-th file of a class) and the frame window
    `data[int(sr*start):int(sr*end)]` that is kept of the audio. */
module FileNaming {
  import opened Common

  const Wav: string := ".wav"

  // ---------------------------------------------------------------------
  // '%s' % n
  // ---------------------------------------------------------------------

  predicate IsDigit(c: char)
  {
    '0' <= c <= '9'
  }

  function DigitChar(d: nat): (c: char)
    requires d < 10
    ensures IsDigit(c)
  {
    ('0' as int + d) as char
  }

  function DigitValue(c: char): nat
  {
    if IsDigit(c) then c as int - '0' as int else 0
  }

  /** The decimal spelling of `n`, as Python's `'%s' % n` writes it. */
  function NatToString(n: nat): (s: string)
    ensures |s| > 0
  {
    if n < 10 then [DigitChar(n)] else NatToString(n / 10) + [DigitChar(n % 10)]
  }

  /** The spelling has no leading zero: it starts with '0' only for 0
      itself, which is spelled "0". */
  lemma {:induction false} NatToStringNoLeadingZero(n: nat)
    ensures NatToString(n)[0] == '0' <==> n == 0
    ensures n == 0 ==> NatToString(n) == "0"
  {
    if n >= 10 {
      NatToStringNoLeadingZero(n / 10);
      assert NatToString(n)[0] == NatToString(n / 10)[0];
    }
  }

  /** The spelling consists of decimal digits only. */
  lemma {:induction false} NatToStringDigits(n: nat)
    ensures forall k :: 0 <= k < |NatToString(n)| ==> IsDigit(NatToString(n)[k])
  {
    if n >= 10 {
      NatToStringDigits(n / 10);
    }
  }

  /** The number a string of decimal digits spells. */
  function ParseNat(s: string): nat
  {
    if s == [] then 0 else ParseNat(s[..|s| - 1]) * 10 + DigitValue(s[|s| - 1])
  }

  /** The file number can be read back from its spelling. */
  lemma {:induction false} NatToStringRoundTrip(n: nat)
    ensures ParseNat(NatToString(n)) == n
  {
    if n >= 10 {
      var s := NatToString(n / 10);
      NatToStringRoundTrip(n / 10);
      assert (s + [DigitChar(n % 10)])[..|s|] == s;
    }
  }

  // ---------------------------------------------------------------------
  // os.path.splitext and str.find
  // ---------------------------------------------------------------------

  /** Position of the last '.' in `s`, or -1. */
  function LastDot(s: string): (i: int)
    ensures -1 <= i < |s|
    ensures 0 <= i ==> s[i] == '.'
  {
    if s == [] then -1
    else if s[|s| - 1] == '.' then |s| - 1
    else LastDot(s[..|s| - 1])
  }

  /** No character after position i is a dot. */
  lemma {:induction false} LastDotIsLast(s: string, k: int)
    requires LastDot(s) < k < |s|
    ensures s[k] != '.'
  {
    if s != [] && s[|s| - 1] != '.' && k < |s| - 1 {
      LastDotIsLast(s[..|s| - 1], k);
    }
  }

  /** Every character of `s` is a dot. */
  predicate AllDots(s: string)
  {
    s == [] || (s[|s| - 1] == '.' && AllDots(s[..|s| - 1]))
  }

  /** `os.path.splitext(name)[1]` for a bare file name: the part from the
      last dot on, unless nothing but dots precedes that dot. */
  function SplitExt(name: string): string
  {
    var d := LastDot(name);
    if d > 0 && !AllDots(name[..d]) then name[d..] else ""
  }

  /** The extension is empty, or a dot and what follows it at the end of
      the name. */
  lemma SplitExtSuffix(name: string)
    ensures var ext := SplitExt(name);
            ext == [] || (ext[0] == '.' && |ext| <= |name| && ext == name[|name| - |ext|..])
  {
  }

  /** The extension holds no dot but its first character. */
  lemma SplitExtOneDot(name: string, k: int)
    requires 0 < k < |SplitExt(name)|
    ensures SplitExt(name)[k] != '.'
  {
    var d := LastDot(name);
    LastDotIsLast(name, d + k);
  }

  /** Every character of a string of dots is a dot. */
  lemma {:induction false} AllDotsEvery(s: string, k: int)
    requires AllDots(s) && 0 <= k < |s|
    ensures s[k] == '.'
  {
    if k < |s| - 1 {
      AllDotsEvery(s[..|s| - 1], k);
    }
  }

  /** A name with a dot after some other character has an extension: the
      part from its last dot on. */
  lemma SplitExtFound(name: string, i: int, j: int)
    requires 0 <= i < j < |name| && name[i] != '.' && name[j] == '.'
    ensures j <= LastDot(name)
    ensures SplitExt(name) == name[LastDot(name)..]
    ensures |SplitExt(name)| > 0
  {
    var d := LastDot(name);
    if d < j {
      LastDotIsLast(name, j);
    }
    if AllDots(name[..d]) {
      AllDotsEvery(name[..d], i);
    }
  }

  /** `sub` occurs in `s` at position `k`. */
  predicate OccursAt(s: string, sub: string, k: int)
  {
    0 <= k && k + |sub| <= |s| && s[k..k + |sub|] == sub
  }

  /** `s.find(sub, i)`: the first position at or after `i` where `sub` occurs, or -1. */
  function FindFrom(s: string, sub: string, i: nat): int
    requires i <= |s|
    decreases |s| - i
  {
    if i + |sub| > |s| then -1
    else if s[i..i + |sub|] == sub then i
    else FindFrom(s, sub, i + 1)
  }

  /** FindFrom answers the first occurrence at or after `i`, and -1 only
      when there is none. */
  lemma {:induction false} FindFromFirst(s: string, sub: string, i: nat)
    requires i <= |s|
    ensures var r := FindFrom(s, sub, i);
            && (r == -1 || (i <= r && OccursAt(s, sub, r)))
            && (forall k :: i <= k && (r == -1 || k < r) ==> !OccursAt(s, sub, k))
    decreases |s| - i
  {
    if i + |sub| <= |s| && s[i..i + |sub|] != sub {
      FindFromFirst(s, sub, i + 1);
    }
  }

  /** `s.find(sub)` */
  function Find(s: string, sub: string): int
  {
    FindFrom(s, sub, 0)
  }

  /** In "<digits><ext>" an extension that starts with a dot is first found
      right after the digits; an empty one is found at 0. */
  lemma FindAfterDigits(digits: string, ext: string)
    requires forall k :: 0 <= k < |digits| ==> IsDigit(digits[k])
    requires ext == [] || ext[0] == '.'
    ensures Find(digits + ext, ext) == if ext == [] then 0 else |digits|
  {
    var s := digits + ext;
    FindFromFirst(s, ext, 0);
    if ext == [] {
      assert OccursAt(s, ext, 0);
      return;
    }
    assert s[|digits|..|digits| + |ext|] == ext;
    assert OccursAt(s, ext, |digits|);
    forall k | 0 <= k < |digits| ensures !OccursAt(s, ext, k) {
      if k + |ext| <= |s| {
        assert s[k..k + |ext|][0] == digits[k];
      }
    }
  }

  // ---------------------------------------------------------------------
  // file_cleaning's name arithmetic
  // ---------------------------------------------------------------------

  /** The name file_cleaning returns for the n-th download of a class whose
      downloaded file had extension `ext`: the file is renamed "<n><ext>";
      unless `ext` is ".wav", everything from the first occurrence of `ext`
      on is cut off; then ".wav" is appended. */
  function CleanedName(n: nat, ext: string): string
  {
    var renamed := NatToString(n) + ext;
    if ext != Wav then PySlice(renamed, 0, Find(renamed, ext)) + Wav
    else renamed + Wav
  }

  /** For an ordinary extension the output is "<n>.wav"; a file that was
      already ".wav" is named "<n>.wav.wav", and one without extension ".wav". */
  lemma CleanedNameShape(n: nat, ext: string)
    requires ext == [] || ext[0] == '.'
    ensures ext != [] && ext != Wav ==> CleanedName(n, ext) == NatToString(n) + Wav
    ensures ext == Wav ==> CleanedName(n, ext) == NatToString(n) + Wav + Wav
    ensures ext == [] ==> CleanedName(n, ext) == Wav
  {
    NatToStringDigits(n);
    FindAfterDigits(NatToString(n), ext);
    if ext != [] && ext != Wav {
      assert (NatToString(n) + ext)[..|NatToString(n)|] == NatToString(n);
    }
  }

  /** Different file numbers give different names, so no cleaned file
      overwrites another of the same class. */
  lemma CleanedNamesDistinct(n: nat, m: nat, ext1: string, ext2: string)
    requires ext1 != [] && ext1[0] == '.' && ext1 != Wav
    requires ext2 != [] && ext2[0] == '.' && ext2 != Wav
    requires n != m
    ensures CleanedName(n, ext1) != CleanedName(m, ext2)
  {
    CleanedNameShape(n, ext1);
    CleanedNameShape(m, ext2);
    var a, b := NatToString(n), NatToString(m);
    if a + Wav == b + Wav {
      assert |a| == |b|;
      assert a == (a + Wav)[..|a|] == (b + Wav)[..|b|] == b;
      NatToStringRoundTrip(n);
      NatToStringRoundTrip(m);
    }
  }

  // ---------------------------------------------------------------------
  // data[int(startframe):int(endframe)]
  // ---------------------------------------------------------------------

  /** How Python clamps a slice bound to a sequence of length `len`
      (a negative bound counts from the end). */
  function SliceBound(i: int, len: nat): (b: nat)
    ensures b <= len
  {
    if i < 0 then (if len + i < 0 then 0 else len + i)
    else if i > len then len
    else i
  }

  /** Python's `s[lo:hi]`. */
  function PySlice<T>(s: seq<T>, lo: int, hi: int): seq<T>
  {
    var a := SliceBound(lo, |s|);
    var b := SliceBound(hi, |s|);
    if a <= b then s[a..b] else []
  }

  /** The frames kept: from sampleRate * start up to, not including,
      sampleRate * end. */
  function ClipFrames<T>(data: seq<T>, sampleRate: nat, start: int, end: int): seq<T>
  {
    PySlice(data, sampleRate * start, sampleRate * end)
  }

  /** For a window inside the audio the clip is exactly frames
      [sr*start, sr*end), i.e. sr * (end - start) frames; for a window
      running past the end it is cut at the end of the audio. */
  lemma ClipWindow<T>(data: seq<T>, sampleRate: nat, start: int, end: int)
    requires 0 <= start <= end
    ensures var a := sampleRate * start;
            var b := sampleRate * end;
            && (b <= |data| ==> ClipFrames(data, sampleRate, start, end) == data[a..b])
            && (b <= |data| ==> |ClipFrames(data, sampleRate, start, end)| == sampleRate * (end - start))
            && (a <= |data| < b ==> ClipFrames(data, sampleRate, start, end) == data[a..])
            && |ClipFrames(data, sampleRate, start, end)| <= sampleRate * (end - start)
  {
    MulMonotone(0, start, sampleRate);
    MulMonotone(start, end, sampleRate);
    assert sampleRate * (end - start) == sampleRate * end - sampleRate * start;
  }
}
