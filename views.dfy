/**
 * Narrowing a sequence of records by a boolean mask aligned with it
 * position by position: the records whose mask entry is true are kept, in
 * their original relative order.
 */
module Views {

  function CountTrue(mask: seq<bool>): (n: nat)
    ensures n <= |mask|
  {
    if mask == [] then 0
    else CountTrue(mask[..|mask| - 1]) + (if mask[|mask| - 1] then 1 else 0)
  }

  /** The records of s whose mask entry is true. */
  function Select<T>(s: seq<T>, mask: seq<bool>): (r: seq<T>)
    requires |mask| == |s|
    ensures |r| == CountTrue(mask)
  {
    if s == [] then []
    else
      var n := |s| - 1;
      Select(s[..n], mask[..n]) + (if mask[n] then [s[n]] else [])
  }

  /** The positions at which mask is true, in increasing order. */
  function TrueIndices(mask: seq<bool>): seq<nat> {
    if mask == [] then []
    else
      var n := |mask| - 1;
      TrueIndices(mask[..n]) + (if mask[n] then [n] else [])
  }

  predicate StrictlyIncreasing(idx: seq<nat>) {
    forall j, k :: 0 <= j < k < |idx| ==> idx[j] < idx[k]
  }

  /** idx picks the elements of a out of b, in order. */
  ghost predicate Embeds<T>(idx: seq<nat>, a: seq<T>, b: seq<T>) {
    && |idx| == |a|
    && StrictlyIncreasing(idx)
    && forall j :: 0 <= j < |idx| ==> idx[j] < |b| && a[j] == b[idx[j]]
  }

  /** a is obtained from b by deleting elements. */
  ghost predicate IsSubsequence<T>(a: seq<T>, b: seq<T>) {
    exists idx :: Embeds(idx, a, b)
  }

  /** TrueIndices lists exactly the true positions, each once, in increasing order. */
  lemma {:induction false} TrueIndicesSpec(mask: seq<bool>)
    ensures |TrueIndices(mask)| == CountTrue(mask)
    ensures StrictlyIncreasing(TrueIndices(mask))
    ensures forall j :: 0 <= j < |TrueIndices(mask)| ==> TrueIndices(mask)[j] < |mask|
    ensures forall i :: 0 <= i < |mask| ==> (mask[i] <==> i in TrueIndices(mask))
  {
    if mask != [] {
      var n := |mask| - 1;
      TrueIndicesSpec(mask[..n]);
      assert forall i :: 0 <= i < n ==> mask[..n][i] == mask[i];
    }
  }

  /** The j-th kept record is the record at the j-th true position of the mask. */
  lemma {:induction false} SelectAt<T>(s: seq<T>, mask: seq<bool>)
    requires |mask| == |s|
    ensures |Select(s, mask)| == |TrueIndices(mask)|
    ensures forall j :: 0 <= j < |Select(s, mask)| ==>
      TrueIndices(mask)[j] < |s| && Select(s, mask)[j] == s[TrueIndices(mask)[j]]
  {
    TrueIndicesSpec(mask);
    if s != [] {
      var n := |s| - 1;
      SelectAt(s[..n], mask[..n]);
      TrueIndicesSpec(mask[..n]);
    }
  }

  /** Selection keeps a subsequence, and exactly the records at the true positions. */
  lemma SelectIsSubsequence<T>(s: seq<T>, mask: seq<bool>)
    requires |mask| == |s|
    ensures Embeds(TrueIndices(mask), Select(s, mask), s)
    ensures IsSubsequence(Select(s, mask), s)
  {
    SelectAt(s, mask);
    TrueIndicesSpec(mask);
  }

  lemma SubsequenceReflexive<T>(s: seq<T>)
    ensures IsSubsequence(s, s)
  {
    var idx: seq<nat> := seq(|s|, j => j);
    assert Embeds(idx, s, s);
  }

  lemma SubsequenceTransitive<T>(a: seq<T>, b: seq<T>, c: seq<T>)
    requires IsSubsequence(a, b) && IsSubsequence(b, c)
    ensures IsSubsequence(a, c)
  {
    var ab :| Embeds(ab, a, b);
    var bc :| Embeds(bc, b, c);
    var ac: seq<nat> := seq(|ab|, j requires 0 <= j < |ab| => bc[ab[j]]);
    assert Embeds(ac, a, c);
  }

  /** Every record of a subsequence is a record of the sequence it came from. */
  lemma SubsequenceElements<T>(a: seq<T>, b: seq<T>)
    requires IsSubsequence(a, b)
    ensures forall x :: x in a ==> x in b
  {
    var idx :| Embeds(idx, a, b);
    forall x | x in a ensures x in b {
      var j :| 0 <= j < |a| && a[j] == x;
      assert b[idx[j]] == x;
    }
  }

  /**
   * The single mask over s that does what applying outer and then inner
   * does: true where outer is true and inner, at that kept record, is too.
   */
  function Compose(outer: seq<bool>, inner: seq<bool>): (r: seq<bool>)
    requires |inner| == CountTrue(outer)
    ensures |r| == |outer|
  {
    if outer == [] then []
    else
      var n := |outer| - 1;
      if outer[n] then Compose(outer[..n], inner[..|inner| - 1]) + [inner[|inner| - 1]]
      else Compose(outer[..n], inner) + [false]
  }

  /** Two successive filters act as one filter by the composed mask. */
  lemma {:induction false} SelectCompose<T>(s: seq<T>, outer: seq<bool>, inner: seq<bool>)
    requires |outer| == |s| && |inner| == CountTrue(outer)
    ensures Select(Select(s, outer), inner) == Select(s, Compose(outer, inner))
  {
    if s != [] {
      var n := |s| - 1;
      var c := Compose(outer, inner);
      assert c[..n] == (if outer[n] then Compose(outer[..n], inner[..|inner| - 1]) else Compose(outer[..n], inner));
      if outer[n] {
        var m := |inner| - 1;
        var kept := Select(s[..n], outer[..n]);
        assert Select(s, outer) == kept + [s[n]];
        assert (kept + [s[n]])[..m] == kept;
        SelectCompose(s[..n], outer[..n], inner[..m]);
      } else {
        assert Select(s, outer) == Select(s[..n], outer[..n]);
        assert c[n] == false;
        SelectCompose(s[..n], outer[..n], inner);
      }
    }
  }
}
