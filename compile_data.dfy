/** compile_dataframes: five AudioSet segment tables are stacked into one
    metadata table, the first three columns (YouTube id, start, end) are kept
    as they are and every label cell is stripped of surrounding spaces and
    double quotes, as `str.strip(' "')` does.

    A table is a sequence of rows of cells; a cell is `None` where pandas has
    NaN (a row with fewer labels than the widest row). */
module CompileData {
  import opened Common

  type Cell = Option<string>
  type Row = seq<Cell>
  type Table = seq<Row>

  /** Columns 0, 1 and 2 (YTID, start_seconds, end_seconds) are not cleaned. */
  const KeptColumns: nat := 3

  // ---------------------------------------------------------------------
  // str.strip(' "')
  // ---------------------------------------------------------------------

  /** The characters handed to `strip`: a space and a double quote. */
  predicate IsStripChar(c: char)
  {
    c == ' ' || c == '"'
  }

  predicate AllStripChars(s: string)
  {
    forall k :: 0 <= k < |s| ==> IsStripChar(s[k])
  }

  /** Neither end of `s` is a space or a double quote. */
  predicate CleanEnds(s: string)
  {
    s == [] || (!IsStripChar(s[0]) && !IsStripChar(s[|s| - 1]))
  }

  function StripLeft(s: string): string
  {
    if |s| > 0 && IsStripChar(s[0]) then StripLeft(s[1..]) else s
  }

  function StripRight(s: string): string
  {
    if |s| > 0 && IsStripChar(s[|s| - 1]) then StripRight(s[..|s| - 1]) else s
  }

  /** Python's `s.strip(' "')`: drop strip characters from the front, then from the back. */
  function Strip(s: string): string
  {
    StripRight(StripLeft(s))
  }

  /** StripLeft drops exactly the leading run of strip characters. */
  lemma {:induction false} StripLeftSkips(s: string, i: nat)
    requires i <= |s| && AllStripChars(s[..i])
    requires i < |s| ==> !IsStripChar(s[i])
    ensures StripLeft(s) == s[i..]
  {
    if i > 0 {
      assert IsStripChar(s[..i][0]);
      assert s[1..][..i - 1] == s[1..i];
      StripLeftSkips(s[1..], i - 1);
      assert s[1..][i - 1..] == s[i..];
    }
  }

  /** StripRight drops exactly the trailing run of strip characters. */
  lemma {:induction false} StripRightSkips(s: string, j: nat)
    requires j <= |s| && AllStripChars(s[j..])
    requires 0 < j ==> !IsStripChar(s[j - 1])
    ensures StripRight(s) == s[..j]
  {
    if j < |s| {
      assert IsStripChar(s[j..][|s| - 1 - j]);
      var t := s[..|s| - 1];
      assert t[j..] == s[j..|s| - 1];
      assert forall k :: 0 <= k < |t| - j ==> t[j..][k] == s[j..][k];
      StripRightSkips(t, j);
      assert t[..j] == s[..j];
    }
  }

  /** The number of leading strip characters. */
  function LeadingRun(s: string): (n: nat)
    ensures n <= |s| && AllStripChars(s[..n])
    ensures n < |s| ==> !IsStripChar(s[n])
  {
    if |s| > 0 && IsStripChar(s[0]) then
      var m := LeadingRun(s[1..]);
      1 + m
    else 0
  }

  /** The number of trailing strip characters. */
  function TrailingRun(s: string): (n: nat)
    ensures n <= |s| && AllStripChars(s[|s| - n..])
    ensures n < |s| ==> !IsStripChar(s[|s| - n - 1])
  {
    if |s| > 0 && IsStripChar(s[|s| - 1]) then
      var t := s[..|s| - 1];
      var m := TrailingRun(t);
      1 + m
    else 0
  }

  /** The result of `strip` is the contiguous piece of `s` left after removing a
      run of strip characters at each end; interior characters are all kept,
      and the result has clean ends. */
  lemma StripShape(s: string)
    ensures exists i, j :: 0 <= i <= j <= |s| && Strip(s) == s[i..j]
                        && AllStripChars(s[..i]) && AllStripChars(s[j..])
    ensures CleanEnds(Strip(s))
  {
    var i := LeadingRun(s);
    StripLeftSkips(s, i);
    var t := s[i..];
    var n := TrailingRun(t);
    if n == |t| {
      // everything is a strip character
      StripRightSkips(t, 0);
      assert Strip(s) == s[i..i];
      assert AllStripChars(s[i..]) by {
        assert s[i..] == t[|t| - n..];
      }
    } else {
      var j := |t| - n;
      StripRightSkips(t, j);
      assert Strip(s) == s[i..i + j];
      assert s[i + j..] == t[j..];
      assert s[i..i + j][0] == s[i];
    }
  }

  /** Uniqueness: any piece of `s` obtained by cutting strip characters off the
      ends and having clean ends IS the result of `strip`. Together with
      StripShape this characterises `strip` completely. */
  lemma StripUnique(s: string, i: nat, j: nat)
    requires i <= j <= |s|
    requires AllStripChars(s[..i]) && AllStripChars(s[j..])
    requires CleanEnds(s[i..j])
    ensures Strip(s) == s[i..j]
  {
    if i == j {
      assert AllStripChars(s) by {
        forall k | 0 <= k < |s| ensures IsStripChar(s[k]) {
          if k < i { assert s[..i][k] == s[k]; } else { assert s[j..][k - j] == s[k]; }
        }
      }
      assert AllStripChars(s[..|s|]) by { assert s[..|s|] == s; }
      StripLeftSkips(s, |s|);
    } else {
      assert s[i..j][0] == s[i];
      StripLeftSkips(s, i);
      var t := s[i..];
      assert t[j - i..] == s[j..];
      assert t[j - i - 1] == s[i..j][j - i - 1];
      StripRightSkips(t, j - i);
      assert t[..j - i] == s[i..j];
    }
  }

  /** `strip` is idempotent: a stripped cell is left as it is. */
  lemma StripIdempotent(s: string)
    ensures Strip(Strip(s)) == Strip(s)
  {
    var r := Strip(s);
    StripShape(s);
    assert r[..0] == [] && r[|r|..] == [];
    assert r[0..|r|] == r;
    StripUnique(r, 0, |r|);
  }

  // ---------------------------------------------------------------------
  // Tables
  // ---------------------------------------------------------------------

  /** `.str.strip` on a cell: NaN stays NaN. */
  function CleanCell(c: Cell): Cell
  {
    match c
    case None => None
    case Some(s) => Some(Strip(s))
  }

  /** The cell in column `c` of `r`, NaN past the row's end. */
  function CellAt(r: Row, c: nat): Cell
  {
    if c < |r| then r[c] else None
  }

  /** `iloc[:, 0:3]` kept, `iloc[:, 3:]` cleaned, glued back side by side. */
  function CleanRow(r: Row): Row
  {
    var k := Min(KeptColumns, |r|);
    r[..k] + seq(|r| - k, m requires 0 <= m < |r| - k => CleanCell(r[k + m]))
  }

  /** The widest row of a table (the number of columns pandas gives it). */
  function MaxWidth(t: Table): (w: nat)
    ensures forall i :: 0 <= i < |t| ==> |t[i]| <= w
    ensures t == [] ==> w == 0
    ensures t != [] ==> exists i :: 0 <= i < |t| && |t[i]| == w
  {
    if t == [] then 0
    else
      var w0 := MaxWidth(t[..|t| - 1]);
      assert forall i :: 0 <= i < |t| - 1 ==> t[..|t| - 1][i] == t[i];
      if |t[|t| - 1]| <= w0 then
        assert |t| == 1 ==> |t[0]| == w0;
        w0
      else |t[|t| - 1]|
  }

  /** A row widened with NaN to `w` columns. */
  function Pad(r: Row, w: nat): Row
    requires |r| <= w
  {
    r + seq(w - |r|, _ => None)
  }

  /** The rows of several tables one after another. */
  function Stack(ts: seq<Table>): Table
  {
    if ts == [] then [] else Stack(ts[..|ts| - 1]) + ts[|ts| - 1]
  }

  /** `pd.concat(ts, axis=0, ignore_index=True)`: rows stacked in order, every
      row padded with NaN to the widest row. */
  function Concat(ts: seq<Table>): Table
  {
    var rows := Stack(ts);
    var w := MaxWidth(rows);
    seq(|rows|, i requires 0 <= i < |rows| => Pad(rows[i], w))
  }

  /** compile_dataframes: stack balanced, unbalanced 0, 1, 2 and eval in that
      order, then clean the label columns. */
  function CompileDataframes(evalSegments: Table, balanced: Table, unbalanced0: Table,
                             unbalanced1: Table, unbalanced2: Table): Table
  {
    var big := Concat([balanced, unbalanced0, unbalanced1, unbalanced2, evalSegments]);
    seq(|big|, i requires 0 <= i < |big| => CleanRow(big[i]))
  }

  /** The rows of the five tables in the order compile_dataframes stacks them. */
  function SourceRows(evalSegments: Table, balanced: Table, unbalanced0: Table,
                      unbalanced1: Table, unbalanced2: Table): Table
  {
    balanced + unbalanced0 + unbalanced1 + unbalanced2 + evalSegments
  }

  lemma StackFive(a: Table, b: Table, c: Table, d: Table, e: Table)
    ensures Stack([a, b, c, d, e]) == a + b + c + d + e
  {
    assert [a, b, c, d, e][..4] == [a, b, c, d];
    assert [a, b, c, d][..3] == [a, b, c];
    assert [a, b, c][..2] == [a, b];
    assert [a, b][..1] == [a];
    assert Stack([a]) == a by { assert [a][..0] == []; }
    assert Stack([a, b]) == a + b;
    assert Stack([a, b, c]) == a + b + c;
    assert Stack([a, b, c, d]) == a + b + c + d;
  }

  /** The compiled table has one row per input row, in the order balanced,
      unbalanced 0, 1, 2, eval; every row is as wide as the widest input row;
      columns 0 to 2 are copied unchanged (NaN where the input row is short)
      and every later column holds the stripped input cell. */
  lemma CompileShape(evalSegments: Table, balanced: Table, unbalanced0: Table,
                     unbalanced1: Table, unbalanced2: Table)
    ensures var src := SourceRows(evalSegments, balanced, unbalanced0, unbalanced1, unbalanced2);
            var out := CompileDataframes(evalSegments, balanced, unbalanced0, unbalanced1, unbalanced2);
            && |out| == |balanced| + |unbalanced0| + |unbalanced1| + |unbalanced2| + |evalSegments|
            && (forall i :: 0 <= i < |out| ==> |out[i]| == MaxWidth(src))
            && (forall i, c :: 0 <= i < |out| && 0 <= c < KeptColumns && c < |out[i]| ==>
                  out[i][c] == CellAt(src[i], c))
            && (forall i, c :: 0 <= i < |out| && KeptColumns <= c < |out[i]| ==>
                  out[i][c] == CleanCell(CellAt(src[i], c)))
  {
    var src := SourceRows(evalSegments, balanced, unbalanced0, unbalanced1, unbalanced2);
    StackFive(balanced, unbalanced0, unbalanced1, unbalanced2, evalSegments);
    var out := CompileDataframes(evalSegments, balanced, unbalanced0, unbalanced1, unbalanced2);
    var w := MaxWidth(src);
    forall i, c | 0 <= i < |out| && 0 <= c < |out[i]|
      ensures c < KeptColumns ==> out[i][c] == CellAt(src[i], c)
      ensures KeptColumns <= c ==> out[i][c] == CleanCell(CellAt(src[i], c))
    {
      var p := Pad(src[i], w);
      assert out[i] == CleanRow(p);
      assert p[c] == CellAt(src[i], c);
    }
  }

  /** After compile_dataframes no label cell starts or ends with a space or a
      double quote. */
  lemma CompiledLabelsClean(evalSegments: Table, balanced: Table, unbalanced0: Table,
                            unbalanced1: Table, unbalanced2: Table, i: nat, c: nat)
    requires var out := CompileDataframes(evalSegments, balanced, unbalanced0, unbalanced1, unbalanced2);
             i < |out| && KeptColumns <= c < |out[i]|
    ensures var out := CompileDataframes(evalSegments, balanced, unbalanced0, unbalanced1, unbalanced2);
            out[i][c].None? || CleanEnds(out[i][c].value)
  {
    CompileShape(evalSegments, balanced, unbalanced0, unbalanced1, unbalanced2);
    var src := SourceRows(evalSegments, balanced, unbalanced0, unbalanced1, unbalanced2);
    var cell := CellAt(src[i], c);
    if cell.Some? {
      StripShape(cell.value);
    }
  }

  /** Cleaning a row twice is cleaning it once, and keeps its width. */
  lemma CleanRowIdempotent(r: Row)
    ensures |CleanRow(r)| == |r|
    ensures CleanRow(CleanRow(r)) == CleanRow(r)
  {
    var once := CleanRow(r);
    var twice := CleanRow(once);
    var k := Min(KeptColumns, |r|);
    assert |once| == |r|;
    forall c | 0 <= c < |r| ensures twice[c] == once[c] {
      if c >= k {
        assert once[c] == CleanCell(r[c]);
        assert twice[c] == CleanCell(once[c]);
        if r[c].Some? {
          StripIdempotent(r[c].value);
        }
      }
    }
  }
}
