/** The results list orders detections by descending confidence with the
    comparator `(a, b) => b.confidence - a.confidence`. `Array.prototype.sort`
    is stable, so detections of equal confidence keep their relative order;
    the sort below is a stable insertion sort with the same outcome. */
module ConfidenceSort {
  import opened Types

  /** Confidence never increases along the sequence. */
  predicate NonIncreasing(s: seq<Detection>) {
    forall i, j :: 0 <= i < j < |s| ==> s[i].confidence >= s[j].confidence
  }

  /** The detections of confidence exactly `c`, in their order in `s`. */
  function WithConfidence(s: seq<Detection>, c: real): (t: seq<Detection>)
    ensures |t| <= |s|
    ensures forall k :: 0 <= k < |t| ==> t[k].confidence == c
  {
    if s == [] then []
    else if s[0].confidence == c then [s[0]] + WithConfidence(s[1..], c)
    else WithConfidence(s[1..], c)
  }

  /** Places `d` before the first element of `s` whose confidence does not
      exceed its own. */
  function Insert(d: Detection, s: seq<Detection>): (r: seq<Detection>)
    requires NonIncreasing(s)
    ensures multiset(r) == multiset(s) + multiset{d}
    ensures NonIncreasing(r)
    ensures |r| == |s| + 1
    ensures r[0] == d || (s != [] && r[0] == s[0])
  {
    if s == [] || d.confidence >= s[0].confidence then
      ConsNonIncreasing(d, s);
      [d] + s
    else
      assert s == [s[0]] + s[1..];
      var t := Insert(d, s[1..]);
      ConsNonIncreasing(s[0], t);
      [s[0]] + t
  }

  /** A head no smaller than the first element keeps the order. */
  lemma ConsNonIncreasing(x: Detection, t: seq<Detection>)
    requires NonIncreasing(t)
    requires t == [] || x.confidence >= t[0].confidence
    ensures NonIncreasing([x] + t)
  {
  }

  /** The listed order of the stored detections. */
  function SortByConfidence(s: seq<Detection>): (r: seq<Detection>)
    ensures multiset(r) == multiset(s)
    ensures NonIncreasing(r)
  {
    if s == [] then []
    else
      assert s == [s[0]] + s[1..];
      Insert(s[0], SortByConfidence(s[1..]))
  }

  /** Inserting `d` adds it in front of the run of its own confidence and
      leaves every other run alone. */
  lemma {:induction false} InsertKeepsRuns(d: Detection, s: seq<Detection>, c: real)
    requires NonIncreasing(s)
    ensures WithConfidence(Insert(d, s), c)
         == (if d.confidence == c then [d] else []) + WithConfidence(s, c)
  {
    if s == [] || d.confidence >= s[0].confidence {
      assert Insert(d, s) == [d] + s;
      assert ([d] + s)[1..] == s;
    } else {
      var r := Insert(d, s);
      assert r == [s[0]] + Insert(d, s[1..]);
      assert r[1..] == Insert(d, s[1..]);
      InsertKeepsRuns(d, s[1..], c);
      if s[0].confidence == c {
        assert d.confidence != c;
      }
    }
  }

  /** Stability: for every confidence value, the detections with that value
      appear in the listed order exactly as they were stored. */
  lemma {:induction false} SortIsStable(s: seq<Detection>, c: real)
    ensures WithConfidence(SortByConfidence(s), c) == WithConfidence(s, c)
  {
    if s != [] {
      SortIsStable(s[1..], c);
      InsertKeepsRuns(s[0], SortByConfidence(s[1..]), c);
    }
  }

  /** Some element of `s` has confidence `c` exactly when the run of `c`
      is non-empty. */
  lemma {:induction false} RunNonEmpty(s: seq<Detection>, c: real)
    ensures WithConfidence(s, c) != [] <==> exists k :: 0 <= k < |s| && s[k].confidence == c
  {
    if s != [] {
      RunNonEmpty(s[1..], c);
      if s[0].confidence != c {
        assert forall k :: 1 <= k < |s| ==> s[k] == s[1..][k - 1];
      }
    }
  }

  lemma SameRunsSameEmptiness(r1: seq<Detection>, r2: seq<Detection>)
    requires forall c :: WithConfidence(r1, c) == WithConfidence(r2, c)
    ensures r1 == [] <==> r2 == []
  {
    if r1 != [] {
      RunNonEmpty(r1, r1[0].confidence);
      RunNonEmpty(r2, r1[0].confidence);
    }
    if r2 != [] {
      RunNonEmpty(r1, r2[0].confidence);
      RunNonEmpty(r2, r2[0].confidence);
    }
  }

  /** Two non-increasing sequences with the same run for every confidence
      value are equal. */
  lemma {:induction false} RunsDetermineSorted(r1: seq<Detection>, r2: seq<Detection>)
    requires NonIncreasing(r1) && NonIncreasing(r2)
    requires forall c :: WithConfidence(r1, c) == WithConfidence(r2, c)
    ensures r1 == r2
    decreases |r1|
  {
    SameRunsSameEmptiness(r1, r2);
    if r1 != [] {
      var c1, c2 := r1[0].confidence, r2[0].confidence;
      RunNonEmpty(r1, c1);
      RunNonEmpty(r2, c1);
      RunNonEmpty(r1, c2);
      RunNonEmpty(r2, c2);
      assert c1 == c2;
      assert WithConfidence(r1, c1) == [r1[0]] + WithConfidence(r1[1..], c1);
      assert WithConfidence(r2, c1) == [r2[0]] + WithConfidence(r2[1..], c1);
      assert r1[0] == WithConfidence(r1, c1)[0] == WithConfidence(r2, c1)[0] == r2[0];
      forall c
        ensures WithConfidence(r1[1..], c) == WithConfidence(r2[1..], c)
      {
        assert WithConfidence(r1, c) == WithConfidence(r2, c);
        if c == c1 {
          assert WithConfidence(r1, c)[1..] == WithConfidence(r1[1..], c);
          assert WithConfidence(r2, c)[1..] == WithConfidence(r2[1..], c);
        }
      }
      RunsDetermineSorted(r1[1..], r2[1..]);
      assert r1 == [r1[0]] + r1[1..];
      assert r2 == [r2[0]] + r2[1..];
    }
  }

  /** The sort is the only stable ordering by non-increasing confidence:
      any such ordering of `s` is `SortByConfidence(s)`. */
  lemma SortCharacterized(s: seq<Detection>, r: seq<Detection>)
    requires NonIncreasing(r)
    requires forall c :: WithConfidence(r, c) == WithConfidence(s, c)
    ensures r == SortByConfidence(s)
  {
    forall c
      ensures WithConfidence(r, c) == WithConfidence(SortByConfidence(s), c)
    {
      SortIsStable(s, c);
    }
    RunsDetermineSorted(r, SortByConfidence(s));
  }

  /** Ties keep their stored order while higher scores move to the front:
      [a 0.5, b 0.5, c 0.9] is listed as [c, a, b]. */
  lemma TieExample(a: Detection, b: Detection, c: Detection)
    requires a.confidence == 0.5 && b.confidence == 0.5 && c.confidence == 0.9
    ensures SortByConfidence([a, b, c]) == [c, a, b]
  {
    forall x
      ensures WithConfidence([c, a, b], x) == WithConfidence([a, b, c], x)
    {
      assert [c, a, b][1..] == [a, b] && [a, b][1..] == [b] && [b][1..] == [];
      assert [a, b, c][1..] == [b, c] && [b, c][1..] == [c] && [c][1..] == [];
      var wb, wc := WithConfidence([b], x), WithConfidence([c], x);
      assert wb == (if x == 0.5 then [b] else []);
      assert wc == (if x == 0.9 then [c] else []);
      assert WithConfidence([a, b], x) == (if x == 0.5 then [a] else []) + wb;
      assert WithConfidence([b, c], x) == (if x == 0.5 then [b] else []) + wc;
      assert WithConfidence([c, a, b], x) == wc + WithConfidence([a, b], x);
      assert WithConfidence([a, b, c], x) == (if x == 0.5 then [a] else []) + WithConfidence([b, c], x);
    }
    SortCharacterized([a, b, c], [c, a, b]);
  }
}
