/** Order-preserving filtering, the `Array.prototype.filter` that the engine
    uses to select running threads, a priority tier, or deletion survivors. */
module Seqs {

  function Filter<T(!new)>(s: seq<T>, f: T -> bool): (r: seq<T>)
    ensures |r| <= |s|
    ensures forall x :: x in r <==> x in s && f(x)
  {
    if s == [] then []
    else if f(s[0]) then [s[0]] + Filter(s[1..], f)
    else Filter(s[1..], f)
  }

  /** Filtering distributes over concatenation: kept elements stay in their
      original relative order. */
  lemma {:induction false} FilterConcat<T(!new)>(a: seq<T>, b: seq<T>, f: T -> bool)
    ensures Filter(a + b, f) == Filter(a, f) + Filter(b, f)
  {
    if a != [] {
      assert (a + b)[0] == a[0] && (a + b)[1..] == a[1..] + b;
      FilterConcat(a[1..], b, f);
      if f(a[0]) {
        calc {
          Filter(a + b, f);
          [a[0]] + Filter(a[1..] + b, f);
          [a[0]] + (Filter(a[1..], f) + Filter(b, f));
          ([a[0]] + Filter(a[1..], f)) + Filter(b, f);
        }
      }
    } else {
      assert a + b == b;
    }
  }

  /** A filter that keeps everything is the identity. */
  lemma {:induction false} FilterKeepsAll<T(!new)>(s: seq<T>, f: T -> bool)
    requires forall k :: 0 <= k < |s| ==> f(s[k])
    ensures Filter(s, f) == s
  {
    if s != [] {
      FilterKeepsAll(s[1..], f);
    }
  }

  /** If every element before position k of the filtered sequence satisfies
      P, then the element at k sits at a position k' of the original
      sequence before which every kept element satisfies P. */
  lemma {:induction false} FilterPrefix<T(!new)>(s: seq<T>, f: T -> bool, k: nat, P: T -> bool)
    returns (k': nat)
    requires k < |Filter(s, f)|
    requires forall j :: 0 <= j < k ==> P(Filter(s, f)[j])
    ensures k' < |s| && s[k'] == Filter(s, f)[k]
    ensures forall j :: 0 <= j < k' && f(s[j]) ==> P(s[j])
  {
    var r, tail := Filter(s, f), Filter(s[1..], f);
    if f(s[0]) {
      assert r == [s[0]] + tail;
      if k == 0 {
        k' := 0;
      } else {
        forall j | 0 <= j < k - 1 ensures P(tail[j]) {
          assert tail[j] == r[j + 1];
        }
        var k1 := FilterPrefix(s[1..], f, k - 1, P);
        k' := k1 + 1;
        assert P(r[0]);
        ShiftPrefix(s, f, P, k1);
      }
    } else {
      assert r == tail;
      var k1 := FilterPrefix(s[1..], f, k, P);
      k' := k1 + 1;
      ShiftPrefix(s, f, P, k1);
    }
  }

  /** A property of the kept elements of a prefix of s[1..] extends to the
      prefix of s one longer when it holds of s[0] or s[0] is not kept. */
  lemma ShiftPrefix<T>(s: seq<T>, f: T -> bool, P: T -> bool, k1: nat)
    requires 0 < |s| && k1 < |s| - 1
    requires f(s[0]) ==> P(s[0])
    requires forall j :: 0 <= j < k1 && f(s[1..][j]) ==> P(s[1..][j])
    ensures forall j :: 0 <= j < k1 + 1 && f(s[j]) ==> P(s[j])
  {
    forall j | 0 <= j < k1 + 1 && f(s[j]) ensures P(s[j]) {
      if j > 0 {
        assert s[j] == s[1..][j - 1];
      }
    }
  }
}
