/** Small shared vocabulary: optional values (pandas NaN cells, a missing
    progress log), results for operations that raise, and the
    order-preserving subsequence relation used by the filters. */
module Common {

  datatype Option<+T> = None | Some(value: T)

  datatype Result<+T, +E> = Success(value: T) | Failure(error: E)

  function Min(a: int, b: int): int
  {
    if a <= b then a else b
  }

  lemma MulMonotone(a: int, b: int, c: nat)
    requires a <= b
    ensures a * c <= b * c
  {
  }

  /** `a` can be obtained from `b` by deleting elements, keeping the order. */
  predicate IsSubseq<T(==)>(a: seq<T>, b: seq<T>)
    decreases |b|
  {
    if a == [] then true
    else if b == [] then false
    else (a[|a| - 1] == b[|b| - 1] && IsSubseq(a[..|a| - 1], b[..|b| - 1]))
         || IsSubseq(a, b[..|b| - 1])
  }

  /** A subsequence stays one when an element is put in front of the
      sequence, and in front of both. */
  lemma {:induction false} SubseqPrepend<T>(x: T, a: seq<T>, b: seq<T>)
    requires IsSubseq(a, b)
    ensures IsSubseq(a, [x] + b)
    ensures IsSubseq([x] + a, [x] + b)
    decreases |b|
  {
    var xb := [x] + b;
    if b == [] {
      assert a == [];
      assert xb[..0] == [];
    } else {
      var b' := b[..|b| - 1];
      assert xb[..|xb| - 1] == [x] + b';
      assert xb[|xb| - 1] == b[|b| - 1];
      if a == [] {
        SubseqPrepend(x, a, b');
        assert [x] + a == [x];
      } else {
        var a' := a[..|a| - 1];
        var xa := [x] + a;
        assert xa[..|xa| - 1] == [x] + a';
        assert xa[|xa| - 1] == a[|a| - 1];
        if a[|a| - 1] == b[|b| - 1] && IsSubseq(a', b') {
          SubseqPrepend(x, a', b');
        } else {
          SubseqPrepend(x, a, b');
        }
      }
    }
  }
}
