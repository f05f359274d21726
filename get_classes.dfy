/** suitable_class_extractor and main_get_classes: walk the AudioSet ontology
    in order and keep the classes that are (optionally) leaves, are not
    blacklisted, have a quality estimate, and whose estimated rate
    num_true / num_rated reaches the threshold; each kept class is paired with
    its display name from the label table. */
module GetClasses {
  import opened Common

  /** One object of ontology.json. */
  datatype OntologyEntry = OntologyEntry(id: string, childIds: seq<string>, restrictions: seq<string>)

  /** One row of qa_true_counts.csv. */
  datatype QualityRow = QualityRow(labelId: string, numTrue: nat, numRated: nat)

  /** One row of labels.xlsx. */
  datatype LabelRow = LabelRow(mid: string, displayName: string)

  /** One entry of suitable_classes: [mid, display name]. */
  datatype ClassPair = ClassPair(mid: string, name: string)

  type Positive = n: int | n > 0 witness 1

  /** The quality threshold, a fraction num / den. */
  datatype Threshold = Threshold(num: int, den: Positive)

  /** `.item()` raises unless exactly one row matched. */
  datatype ExtractError =
    | AmbiguousQuality(mid: string)   // several quality rows for one class
    | NameLookup(mid: string)         // zero or several label rows for one class

  /** The outcome for one ontology entry. */
  datatype Verdict = Skip | Keep(pair: ClassPair) | Fail(error: ExtractError)

  /** `rate >= quality`, where rate = num_true / num_rated. A zero num_rated
      gives +inf (passes) when num_true > 0 and NaN (fails) when it is 0. */
  predicate MeetsThreshold(q: QualityRow, t: Threshold)
  {
    if q.numRated == 0 then q.numTrue > 0
    else q.numTrue * t.den >= t.num * q.numRated
  }

  /** num1/den1 <= num2/den2 */
  predicate AtMost(t1: Threshold, t2: Threshold)
  {
    t1.num * t2.den <= t2.num * t1.den
  }

  /** `quality_estimates.loc[label_id == mid]`: the rows with that id, in
      table order, and every one of them. */
  function QualityRowsFor(quality: seq<QualityRow>, mid: string): (r: seq<QualityRow>)
    ensures forall k :: 0 <= k < |r| ==> r[k].labelId == mid
    ensures forall k :: 0 <= k < |quality| && quality[k].labelId == mid ==> quality[k] in r
    ensures IsSubseq(r, quality)
  {
    if quality == [] then []
    else
      var prefix := quality[..|quality| - 1];
      var last := quality[|quality| - 1];
      var rest := QualityRowsFor(prefix, mid);
      assert forall k :: 0 <= k < |prefix| ==> prefix[k] == quality[k];
      if last.labelId == mid then
        assert (rest + [last])[..|rest|] == rest;
        rest + [last]
      else rest
  }

  /** `label_convert.loc[mid == mid]`: the rows with that mid, in table
      order, and every one of them. */
  function LabelRowsFor(labels: seq<LabelRow>, mid: string): (r: seq<LabelRow>)
    ensures forall k :: 0 <= k < |r| ==> r[k].mid == mid
    ensures forall k :: 0 <= k < |labels| && labels[k].mid == mid ==> labels[k] in r
    ensures IsSubseq(r, labels)
  {
    if labels == [] then []
    else
      var prefix := labels[..|labels| - 1];
      var last := labels[|labels| - 1];
      var rest := LabelRowsFor(prefix, mid);
      assert forall k :: 0 <= k < |prefix| ==> prefix[k] == labels[k];
      if last.mid == mid then
        assert (rest + [last])[..|rest|] == rest;
        rest + [last]
      else rest
  }

  /** The quality rows selected for a mid are those of the table with that
      mid, each as often as it occurs in the table: two identical rows are
      both selected, and `.item()` then raises. */
  lemma {:induction false} QualityRowsForCount(quality: seq<QualityRow>, mid: string, x: QualityRow)
    ensures multiset(QualityRowsFor(quality, mid))[x] == if x.labelId == mid then multiset(quality)[x] else 0
  {
    if quality != [] {
      var prefix := quality[..|quality| - 1];
      QualityRowsForCount(prefix, mid, x);
      assert quality == prefix + [quality[|quality| - 1]];
    }
  }

  /** The label rows selected for a mid are those of the table with that
      mid, each as often as it occurs in the table. */
  lemma {:induction false} LabelRowsForCount(labels: seq<LabelRow>, mid: string, x: LabelRow)
    ensures multiset(LabelRowsFor(labels, mid))[x] == if x.mid == mid then multiset(labels)[x] else 0
  {
    if labels != [] {
      var prefix := labels[..|labels| - 1];
      LabelRowsForCount(prefix, mid, x);
      assert labels == prefix + [labels[|labels| - 1]];
    }
  }

  /** The guards of one iteration of the extractor loop, in the order
      suitable_class_extractor tests them. */
  function Classify(e: OntologyEntry, quality: seq<QualityRow>, labels: seq<LabelRow>,
                    t: Threshold, leaf: bool): Verdict
  {
    if leaf && |e.childIds| > 0 then Skip
    else if e.restrictions == ["blacklist"] then Skip
    else
      var subDf := QualityRowsFor(quality, e.id);
      if |subDf| == 0 then Skip
      else if |subDf| > 1 then Fail(AmbiguousQuality(e.id))
      else if !MeetsThreshold(subDf[0], t) then Skip
      else
        var subLabel := LabelRowsFor(labels, e.id);
        if |subLabel| != 1 then Fail(NameLookup(e.id))
        else Keep(ClassPair(e.id, subLabel[0].displayName))
  }

  /** The classes kept from `onto`, in ontology order (errors ignored). */
  function Kept(onto: seq<OntologyEntry>, quality: seq<QualityRow>, labels: seq<LabelRow>,
                t: Threshold, leaf: bool): seq<ClassPair>
  {
    if onto == [] then []
    else
      var acc := Kept(onto[..|onto| - 1], quality, labels, t, leaf);
      match Classify(onto[|onto| - 1], quality, labels, t, leaf)
      case Keep(c) => acc + [c]
      case _ => acc
  }

  /** Positions in `onto` of the kept classes, ascending. */
  function KeptIndices(onto: seq<OntologyEntry>, quality: seq<QualityRow>, labels: seq<LabelRow>,
                       t: Threshold, leaf: bool): seq<nat>
  {
    if onto == [] then []
    else
      var acc := KeptIndices(onto[..|onto| - 1], quality, labels, t, leaf);
      if Classify(onto[|onto| - 1], quality, labels, t, leaf).Keep? then acc + [|onto| - 1] else acc
  }

  /** What the loop of suitable_class_extractor ends with: the list of kept
      classes, or the first error `.item()` raises. */
  function Extract(onto: seq<OntologyEntry>, quality: seq<QualityRow>, labels: seq<LabelRow>,
                   t: Threshold, leaf: bool): Result<seq<ClassPair>, ExtractError>
  {
    if onto == [] then Success([])
    else
      match Extract(onto[..|onto| - 1], quality, labels, t, leaf)
      case Failure(err) => Failure(err)
      case Success(acc) =>
        match Classify(onto[|onto| - 1], quality, labels, t, leaf)
        case Skip => Success(acc)
        case Keep(c) => Success(acc + [c])
        case Fail(err) => Failure(err)
  }

  /** Once an entry raises, later entries cannot change the outcome. */
  lemma {:induction false} ExtractFailureSticks(onto: seq<OntologyEntry>, quality: seq<QualityRow>,
                                                labels: seq<LabelRow>, t: Threshold, leaf: bool, n: nat)
    requires n <= |onto| && Extract(onto[..n], quality, labels, t, leaf).Failure?
    ensures Extract(onto, quality, labels, t, leaf) == Extract(onto[..n], quality, labels, t, leaf)
    decreases |onto|
  {
    if n < |onto| {
      var prefix := onto[..|onto| - 1];
      assert prefix[..n] == onto[..n];
      ExtractFailureSticks(prefix, quality, labels, t, leaf, n);
    } else {
      assert onto[..n] == onto;
    }
  }

  /** suitable_class_extractor returns `(len(suitable), suitable)`. */
  datatype Selection = Selection(count: nat, classes: seq<ClassPair>)

  /** suitable_class_extractor, the tables already loaded. */
  method SuitableClassExtractor(ontology: seq<OntologyEntry>, quality: seq<QualityRow>,
                                labels: seq<LabelRow>, t: Threshold, leaf: bool)
    returns (result: Result<Selection, ExtractError>)
    ensures result.Success? <==> Extract(ontology, quality, labels, t, leaf).Success?
    ensures result.Success? ==>
              && result.value.classes == Extract(ontology, quality, labels, t, leaf).value
              && result.value.count == |result.value.classes|
    ensures result.Failure? ==> result.error == Extract(ontology, quality, labels, t, leaf).error
  {
    var suitable: seq<ClassPair> := [];
    for i := 0 to |ontology|
      invariant Extract(ontology[..i], quality, labels, t, leaf) == Success(suitable)
    {
      assert ontology[..i + 1][..i] == ontology[..i];
      var example := ontology[i];
      if leaf {
        if |example.childIds| > 0 {
          continue;
        }
      }
      if example.restrictions == ["blacklist"] {
        continue;
      }
      var mid := example.id;
      var subDf := QualityRowsFor(quality, mid);
      if |subDf| == 0 {
        continue;
      }
      if |subDf| > 1 {
        // `.item()` raises: the remaining entries are not examined
        ExtractFailureSticks(ontology, quality, labels, t, leaf, i + 1);
        return Failure(AmbiguousQuality(mid));
      }
      if MeetsThreshold(subDf[0], t) {
        var subLabel := LabelRowsFor(labels, mid);
        if |subLabel| != 1 {
          ExtractFailureSticks(ontology, quality, labels, t, leaf, i + 1);
          return Failure(NameLookup(mid));
        }
        suitable := suitable + [ClassPair(mid, subLabel[0].displayName)];
      }
    }
    assert ontology[..|ontology|] == ontology;
    result := Success(Selection(|suitable|, suitable));
  }

  /** main_get_classes: the answer 'n' turns the leaf restriction off, any
      other answer keeps it on. */
  method MainGetClasses(leafs: string, ontology: seq<OntologyEntry>, quality: seq<QualityRow>,
                        labels: seq<LabelRow>, t: Threshold)
    returns (result: Result<Selection, ExtractError>)
    ensures result.Success? <==> Extract(ontology, quality, labels, t, leafs != "n").Success?
    ensures result.Success? ==> result.value.classes == Extract(ontology, quality, labels, t, leafs != "n").value
    ensures leafs == "n" && result.Success? ==>
              result.value.classes == Kept(ontology, quality, labels, t, false)
    ensures leafs != "n" && result.Success? ==>
              result.value.classes == Kept(ontology, quality, labels, t, true)
  {
    if leafs == "n" {
      result := SuitableClassExtractor(ontology, quality, labels, t, false);
    } else {
      result := SuitableClassExtractor(ontology, quality, labels, t, true);
    }
    if result.Success? {
      ExtractIsKept(ontology, quality, labels, t, leafs != "n");
    }
  }

  // ---------------------------------------------------------------------
  // Properties of the filter
  // ---------------------------------------------------------------------

  /** The extractor succeeds exactly when no entry makes `.item()` raise, and
      then its list is Kept. */
  lemma {:induction false} ExtractIsKept(onto: seq<OntologyEntry>, quality: seq<QualityRow>,
                                         labels: seq<LabelRow>, t: Threshold, leaf: bool)
    ensures Extract(onto, quality, labels, t, leaf).Success? <==>
              forall i :: 0 <= i < |onto| ==> !Classify(onto[i], quality, labels, t, leaf).Fail?
    ensures Extract(onto, quality, labels, t, leaf).Success? ==>
              Extract(onto, quality, labels, t, leaf).value == Kept(onto, quality, labels, t, leaf)
  {
    if onto != [] {
      var prefix := onto[..|onto| - 1];
      ExtractIsKept(prefix, quality, labels, t, leaf);
      assert forall i :: 0 <= i < |prefix| ==> prefix[i] == onto[i];
    }
  }

  /** Kept lists, in order, the entries that pass every guard: KeptIndices is
      strictly increasing, covers every passing position and nothing else, and
      the k-th kept class comes from the entry at the k-th index. */
  lemma {:induction false} KeptFromIndices(onto: seq<OntologyEntry>, quality: seq<QualityRow>,
                                           labels: seq<LabelRow>, t: Threshold, leaf: bool)
    ensures var ks := Kept(onto, quality, labels, t, leaf);
            var idx := KeptIndices(onto, quality, labels, t, leaf);
            && |idx| == |ks|
            && (forall a, b :: 0 <= a < b < |idx| ==> idx[a] < idx[b])
            && (forall k :: 0 <= k < |idx| ==>
                  idx[k] < |onto| && Classify(onto[idx[k]], quality, labels, t, leaf) == Keep(ks[k]))
            && (forall i :: 0 <= i < |onto| && Classify(onto[i], quality, labels, t, leaf).Keep? ==> i in idx)
  {
    if onto != [] {
      var prefix := onto[..|onto| - 1];
      KeptFromIndices(prefix, quality, labels, t, leaf);
      assert forall i :: 0 <= i < |prefix| ==> prefix[i] == onto[i];
    }
  }

  /** A class is in the output exactly when some ontology entry passes every
      guard and yields it. */
  lemma KeptMembership(onto: seq<OntologyEntry>, quality: seq<QualityRow>,
                       labels: seq<LabelRow>, t: Threshold, leaf: bool, c: ClassPair)
    ensures c in Kept(onto, quality, labels, t, leaf) <==>
              exists i :: 0 <= i < |onto| && Classify(onto[i], quality, labels, t, leaf) == Keep(c)
  {
    KeptFromIndices(onto, quality, labels, t, leaf);
    var ks := Kept(onto, quality, labels, t, leaf);
    var idx := KeptIndices(onto, quality, labels, t, leaf);
    if exists i :: 0 <= i < |onto| && Classify(onto[i], quality, labels, t, leaf) == Keep(c) {
      var i :| 0 <= i < |onto| && Classify(onto[i], quality, labels, t, leaf) == Keep(c);
      var k :| 0 <= k < |idx| && idx[k] == i;
      assert ks[k] == c;
    }
  }

  /** Every kept class passes each guard of the loop: it is a leaf when `leaf`
      is set, it is not blacklisted, it has exactly one quality row and that
      row meets the threshold, and its name is the one display name the label
      table gives its mid. */
  lemma KeptSound(onto: seq<OntologyEntry>, quality: seq<QualityRow>,
                  labels: seq<LabelRow>, t: Threshold, leaf: bool, c: ClassPair)
    requires c in Kept(onto, quality, labels, t, leaf)
    ensures exists e :: e in onto && e.id == c.mid
                     && (leaf ==> |e.childIds| == 0)
                     && e.restrictions != ["blacklist"]
                     && |QualityRowsFor(quality, e.id)| == 1
                     && MeetsThreshold(QualityRowsFor(quality, e.id)[0], t)
                     && LabelRowsFor(labels, e.id) == [LabelRow(c.mid, c.name)]
  {
    KeptMembership(onto, quality, labels, t, leaf, c);
    var i :| 0 <= i < |onto| && Classify(onto[i], quality, labels, t, leaf) == Keep(c);
    var e := onto[i];
    var subLabel := LabelRowsFor(labels, e.id);
    assert subLabel == [LabelRow(c.mid, c.name)] by {
      assert |subLabel| == 1 && subLabel[0].mid == e.id;
    }
  }

  /** When every entry the first setting does not skip gets the same verdict
      under the second setting, the first output is an order-preserving
      subsequence of the second and the second setting raising implies the
      first raising too. */
  lemma {:induction false} KeptNarrows(onto: seq<OntologyEntry>, quality: seq<QualityRow>, labels: seq<LabelRow>,
                                       t1: Threshold, leaf1: bool, t2: Threshold, leaf2: bool)
    requires forall i :: 0 <= i < |onto| ==>
               Classify(onto[i], quality, labels, t1, leaf1).Skip? ||
               Classify(onto[i], quality, labels, t2, leaf2) == Classify(onto[i], quality, labels, t1, leaf1)
    ensures IsSubseq(Kept(onto, quality, labels, t1, leaf1), Kept(onto, quality, labels, t2, leaf2))
    ensures Extract(onto, quality, labels, t2, leaf2).Success? ==>
              Extract(onto, quality, labels, t1, leaf1).Success?
  {
    if onto != [] {
      var prefix := onto[..|onto| - 1];
      assert forall i :: 0 <= i < |prefix| ==> prefix[i] == onto[i];
      KeptNarrows(prefix, quality, labels, t1, leaf1, t2, leaf2);
      var a := Kept(prefix, quality, labels, t1, leaf1);
      var b := Kept(prefix, quality, labels, t2, leaf2);
      match Classify(onto[|onto| - 1], quality, labels, t2, leaf2)
      case Keep(c) =>
        if Classify(onto[|onto| - 1], quality, labels, t1, leaf1).Keep? {
          assert (a + [c])[..|a|] == a;
          assert (b + [c])[..|b|] == b;
        } else {
          assert (b + [c])[..|b|] == b;
          if a != [] {
            assert IsSubseq(a, b + [c]);
          }
        }
      case _ =>
    }
  }

  /** A quality row that meets a threshold meets every lower one. */
  lemma MeetsLowerThreshold(q: QualityRow, lo: Threshold, hi: Threshold)
    requires AtMost(lo, hi) && MeetsThreshold(q, hi)
    ensures MeetsThreshold(q, lo)
  {
    if q.numRated > 0 {
      var x, r := q.numTrue, q.numRated;
      // x * hi.den >= hi.num * r  and  lo.num * hi.den <= hi.num * lo.den
      calc {
        x * lo.den * hi.den;
      ==
        (x * hi.den) * lo.den;
      >= { MulMonotone(hi.num * r, x * hi.den, lo.den); }
        (hi.num * r) * lo.den;
      ==
        (hi.num * lo.den) * r;
      >= { MulMonotone(lo.num * hi.den, hi.num * lo.den, r); }
        (lo.num * hi.den) * r;
      ==
        lo.num * r * hi.den;
      }
      MulCancel(x * lo.den, lo.num * r, hi.den);
    }
  }

  lemma MulCancel(a: int, b: int, c: Positive)
    requires a * c >= b * c
    ensures a >= b
  {
    if a < b {
      MulStrict(b, a, c);
    }
  }

  lemma MulStrict(a: int, b: int, c: Positive)
    requires a > b
    ensures a * c > b * c
  {
  }

  /** Raising the quality threshold never adds a class: the output for the
      higher threshold is an order-preserving subsequence of the output for
      the lower one. */
  lemma ThresholdMonotone(onto: seq<OntologyEntry>, quality: seq<QualityRow>, labels: seq<LabelRow>,
                          lo: Threshold, hi: Threshold, leaf: bool)
    requires AtMost(lo, hi)
    ensures IsSubseq(Kept(onto, quality, labels, hi, leaf), Kept(onto, quality, labels, lo, leaf))
    ensures Extract(onto, quality, labels, lo, leaf).Success? ==>
              Extract(onto, quality, labels, hi, leaf).Success?
  {
    forall i | 0 <= i < |onto|
      ensures Classify(onto[i], quality, labels, hi, leaf).Skip? ||
              Classify(onto[i], quality, labels, lo, leaf) == Classify(onto[i], quality, labels, hi, leaf)
    {
      var rows := QualityRowsFor(quality, onto[i].id);
      if |rows| == 1 && MeetsThreshold(rows[0], hi) {
        MeetsLowerThreshold(rows[0], lo, hi);
      }
    }
    KeptNarrows(onto, quality, labels, hi, leaf, lo, leaf);
  }

  /** The leaf-only output is an order-preserving subsequence of the output
      with the leaf restriction off. */
  lemma LeafNarrows(onto: seq<OntologyEntry>, quality: seq<QualityRow>, labels: seq<LabelRow>, t: Threshold)
    ensures IsSubseq(Kept(onto, quality, labels, t, true), Kept(onto, quality, labels, t, false))
    ensures Extract(onto, quality, labels, t, false).Success? ==>
              Extract(onto, quality, labels, t, true).Success?
  {
    KeptNarrows(onto, quality, labels, t, true, t, false);
  }
}
