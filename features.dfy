/** The feature records of a GTF2/GFF3 annotation and the exon structure the parsers build
    from them, with the helpers every parser variant shares: the biotype lookup, the stable
    sort by genomic start, the numeric sort and the splice-junction rule. */
module Features {
  import opened Wrappers

  /** One annotation line as the GFF/GTF reader delivers it: columns 1-5 and 7, with the
      attributes column as a map (the reader keeps one value per key). Score and frame are
      not part of the model. */
  datatype Record = Record(
    seqname: string,
    source: string,
    featureType: string,
    start: nat,
    end: nat,
    strand: Option<string>,
    attributes: map<string, string>)

  /** One stored sub-feature of a transcript (an exon, or a UTR/CDS entry tagged by `feature`). */
  datatype Exon = Exon(
    seqId: string,
    source: string,
    featureType: string,
    start: nat,
    end: nat,
    length: nat,
    strand: string,
    attributes: map<string, string>,
    feature: Option<string>)

  /** `end - start + 1`, the width the code recomputes from an exon's bounds. */
  function Width(e: Exon): (w: nat)
    requires e.start <= e.end
    ensures w >= 1
  {
    e.end - e.start + 1
  }

  /** Every exon has `start <= end`, so recomputing its width cannot underflow. */
  predicate AllWellFormed(exons: seq<Exon>)
  {
    forall i :: 0 <= i < |exons| ==> exons[i].start <= exons[i].end
  }

  /** `end - start + 1` of a record. */
  function RecordLength(r: Record): (n: nat)
    requires r.start <= r.end
    ensures n >= 1
  {
    r.end - r.start + 1
  }

  /** `keys[i]` is the first of `keys` that the attributes hold. */
  predicate FirstKeyAt(attributes: map<string, string>, keys: seq<string>, i: int)
  {
    0 <= i < |keys| && keys[i] in attributes && forall j :: 0 <= j < i ==> keys[j] !in attributes
  }

  /** `find_biotype`: the value of the first key of `keys` that the attributes hold. */
  function FindBiotype(attributes: map<string, string>, keys: seq<string>): (r: Option<string>)
    ensures r.None? <==> forall i :: 0 <= i < |keys| ==> keys[i] !in attributes
    ensures r.Some? ==> exists i :: FirstKeyAt(attributes, keys, i) && attributes[keys[i]] == r.value
    decreases |keys|
  {
    if |keys| == 0 then None
    else if keys[0] in attributes then Some(attributes[keys[0]])
    else
      var r := FindBiotype(attributes, keys[1..]);
      assert r.Some? ==> exists i :: FirstKeyAt(attributes, keys, i) && attributes[keys[i]] == r.value by {
        if r.Some? {
          var i :| FirstKeyAt(attributes, keys[1..], i) && attributes[keys[1..][i]] == r.value;
          assert forall j :: 0 <= j < i + 1 ==> keys[j] !in attributes by {
            forall j | 0 <= j < i + 1 ensures keys[j] !in attributes {
              if j > 0 { assert keys[j] == keys[1..][j - 1]; }
            }
          }
          assert FirstKeyAt(attributes, keys, i + 1);
        }
      }
      r
  }

  // ---------------------------------------------------------------------------
  // lengths

  /** Sum of the stored `length` fields (`exons.iter().map(|e| e.length).sum()`). */
  function SumLengths(exons: seq<Exon>): nat
    decreases |exons|
  {
    if |exons| == 0 then 0 else exons[0].length + SumLengths(exons[1..])
  }

  /** Sum of the recomputed widths, the walk length of a liftover. */
  function SumWidths(exons: seq<Exon>): nat
    requires AllWellFormed(exons)
    decreases |exons|
  {
    if |exons| == 0 then 0 else Width(exons[0]) + SumWidths(exons[1..])
  }

  lemma {:induction false} SumLengthsAppend(a: seq<Exon>, b: seq<Exon>)
    ensures SumLengths(a + b) == SumLengths(a) + SumLengths(b)
    decreases |a|
  {
    if |a| > 0 {
      assert (a + b)[1..] == a[1..] + b;
      SumLengthsAppend(a[1..], b);
    } else {
      assert a + b == b;
    }
  }

  // ---------------------------------------------------------------------------
  // stable sort by start (`sort_by_key(|e| e.start)` and `sort_by(|a, b| b.start.cmp(&a.start))`)

  /** `x` must come strictly before `y` in the requested order. */
  predicate StrictlyBefore(x: Exon, y: Exon, descending: bool)
  {
    if descending then x.start > y.start else x.start < y.start
  }

  predicate InOrder(x: Exon, y: Exon, descending: bool)
  {
    if descending then x.start >= y.start else x.start <= y.start
  }

  /** Ascending (or descending) by start. */
  predicate OrderedByStart(s: seq<Exon>, descending: bool)
  {
    forall i, j :: 0 <= i < j < |s| ==> InOrder(s[i], s[j], descending)
  }

  /** Puts `x` after every element it does not strictly precede, keeping equal starts in
      their original order. */
  function InsertByStart(sorted: seq<Exon>, x: Exon, descending: bool): (r: seq<Exon>)
    ensures |r| == |sorted| + 1
    ensures r[0] == x || (|sorted| > 0 && r[0] == sorted[0])
    decreases |sorted|
  {
    if |sorted| == 0 || StrictlyBefore(x, sorted[0], descending) then [x] + sorted
    else [sorted[0]] + InsertByStart(sorted[1..], x, descending)
  }

  lemma {:induction false} InsertByStartOrdered(sorted: seq<Exon>, x: Exon, descending: bool)
    requires OrderedByStart(sorted, descending)
    ensures OrderedByStart(InsertByStart(sorted, x, descending), descending)
    decreases |sorted|
  {
    if |sorted| > 0 && !StrictlyBefore(x, sorted[0], descending) {
      var rest := InsertByStart(sorted[1..], x, descending);
      InsertByStartOrdered(sorted[1..], x, descending);
      var r := [sorted[0]] + rest;
      assert InOrder(sorted[0], rest[0], descending) by {
        if rest[0] != x { assert rest[0] == sorted[1]; }
      }
      forall i, j | 0 <= i < j < |r| ensures InOrder(r[i], r[j], descending) {
        if i == 0 {
          assert r[j] == rest[j - 1];
          if j > 1 { assert InOrder(rest[0], rest[j - 1], descending); }
        } else {
          assert r[i] == rest[i - 1] && r[j] == rest[j - 1];
        }
      }
    }
  }

  lemma {:induction false} InsertByStartMultiset(sorted: seq<Exon>, x: Exon, descending: bool)
    ensures multiset(InsertByStart(sorted, x, descending)) == multiset(sorted) + multiset{x}
    decreases |sorted|
  {
    if |sorted| > 0 && !StrictlyBefore(x, sorted[0], descending) {
      InsertByStartMultiset(sorted[1..], x, descending);
      assert sorted == [sorted[0]] + sorted[1..];
    }
  }

  lemma {:induction false} InsertByStartWidths(sorted: seq<Exon>, x: Exon, descending: bool)
    requires AllWellFormed(sorted) && x.start <= x.end
    ensures AllWellFormed(InsertByStart(sorted, x, descending))
    ensures SumWidths(InsertByStart(sorted, x, descending)) == SumWidths(sorted) + Width(x)
    decreases |sorted|
  {
    InsertByStartLengths(sorted, x, descending);
    var r := InsertByStart(sorted, x, descending);
    if |sorted| == 0 || StrictlyBefore(x, sorted[0], descending) {
      assert r[1..] == sorted;
    } else {
      var rest := InsertByStart(sorted[1..], x, descending);
      InsertByStartWidths(sorted[1..], x, descending);
      assert r[1..] == rest;
    }
  }

  lemma {:induction false} InsertByStartLengths(sorted: seq<Exon>, x: Exon, descending: bool)
    ensures SumLengths(InsertByStart(sorted, x, descending)) == SumLengths(sorted) + x.length
    decreases |sorted|
  {
    var r := InsertByStart(sorted, x, descending);
    if |sorted| == 0 || StrictlyBefore(x, sorted[0], descending) {
      assert r[1..] == sorted;
    } else {
      InsertByStartLengths(sorted[1..], x, descending);
      assert r[1..] == InsertByStart(sorted[1..], x, descending);
    }
  }

  /** The stable sort of the exon list by start, as Rust's `sort_by_key` / `sort_by` do it:
      the result is ordered, a permutation of the input, and (for well-formed exons) covers
      the same number of bases. `SortByStartStable` proves that entries with equal starts
      keep their input order. */
  function SortByStart(s: seq<Exon>, descending: bool): (r: seq<Exon>)
    ensures OrderedByStart(r, descending)
    ensures multiset(r) == multiset(s)
    ensures |r| == |s|
    ensures SumLengths(r) == SumLengths(s)
    ensures AllWellFormed(s) ==> AllWellFormed(r) && SumWidths(r) == SumWidths(s)
    decreases |s|
  {
    if |s| == 0 then []
    else
      var init, last := s[..|s| - 1], s[|s| - 1];
      var sortedInit := SortByStart(init, descending);
      SortStep(s, sortedInit, descending);
      InsertByStart(sortedInit, last, descending)
  }

  /** The entries of `s` that start at `v`, in their order in `s`. */
  function WithStart(s: seq<Exon>, v: nat): seq<Exon>
    decreases |s|
  {
    if |s| == 0 then []
    else (if s[0].start == v then [s[0]] else []) + WithStart(s[1..], v)
  }

  lemma {:induction false} WithStartAppend(a: seq<Exon>, b: seq<Exon>, v: nat)
    ensures WithStart(a + b, v) == WithStart(a, v) + WithStart(b, v)
    decreases |a|
  {
    if |a| > 0 {
      assert (a + b)[1..] == a[1..] + b;
      WithStartAppend(a[1..], b, v);
    } else {
      assert a + b == b;
    }
  }

  /** No entry of a list that `x` strictly precedes starts where `x` does. */
  lemma {:induction false} WithStartAfter(s: seq<Exon>, x: Exon, descending: bool)
    requires forall i :: 0 <= i < |s| ==> StrictlyBefore(x, s[i], descending)
    ensures WithStart(s, x.start) == []
    decreases |s|
  {
    if |s| > 0 {
      WithStartAfter(s[1..], x, descending);
    }
  }

  /** Inserting `x` into an ordered list puts it after every entry with the same start. */
  lemma {:induction false} InsertByStartStable(sorted: seq<Exon>, x: Exon, descending: bool, v: nat)
    requires OrderedByStart(sorted, descending)
    ensures WithStart(InsertByStart(sorted, x, descending), v)
      == WithStart(sorted, v) + (if x.start == v then [x] else [])
    decreases |sorted|
  {
    var r := InsertByStart(sorted, x, descending);
    if |sorted| == 0 || StrictlyBefore(x, sorted[0], descending) {
      assert r[1..] == sorted;
      if x.start == v {
        assert forall i :: 0 <= i < |sorted| ==> StrictlyBefore(x, sorted[i], descending) by {
          forall i | 0 <= i < |sorted| ensures StrictlyBefore(x, sorted[i], descending) {
            if i > 0 { assert InOrder(sorted[0], sorted[i], descending); }
          }
        }
        WithStartAfter(sorted, x, descending);
      }
    } else {
      InsertByStartStable(sorted[1..], x, descending, v);
      assert r[1..] == InsertByStart(sorted[1..], x, descending);
    }
  }

  /** The sort is stable: for every start value, the entries starting there keep the order
      they had in the input. */
  lemma {:induction false} SortByStartStable(s: seq<Exon>, descending: bool, v: nat)
    ensures WithStart(SortByStart(s, descending), v) == WithStart(s, v)
    decreases |s|
  {
    if |s| > 0 {
      var init, last := s[..|s| - 1], s[|s| - 1];
      SortByStartStable(init, descending, v);
      InsertByStartStable(SortByStart(init, descending), last, descending, v);
      assert s == init + [last];
      WithStartAppend(init, [last], v);
      assert WithStart([last], v) == (if last.start == v then [last] else []) by {
        assert [last][1..] == [];
      }
    }
  }

  /** One insertion step of `SortByStart`: inserting the last element into the sorted rest
      keeps every property of the sort. */
  lemma SortStep(s: seq<Exon>, sortedInit: seq<Exon>, descending: bool)
    requires |s| > 0
    requires OrderedByStart(sortedInit, descending) && multiset(sortedInit) == multiset(s[..|s| - 1])
    requires SumLengths(sortedInit) == SumLengths(s[..|s| - 1])
    requires AllWellFormed(s[..|s| - 1]) ==>
      AllWellFormed(sortedInit) && SumWidths(sortedInit) == SumWidths(s[..|s| - 1])
    ensures var r := InsertByStart(sortedInit, s[|s| - 1], descending);
      && OrderedByStart(r, descending) && multiset(r) == multiset(s)
      && SumLengths(r) == SumLengths(s)
      && (AllWellFormed(s) ==> AllWellFormed(r) && SumWidths(r) == SumWidths(s))
  {
    var init, last := s[..|s| - 1], s[|s| - 1];
    InsertByStartOrdered(sortedInit, last, descending);
    InsertByStartMultiset(sortedInit, last, descending);
    InsertByStartLengths(sortedInit, last, descending);
    assert s == init + [last];
    SumLengthsAppend(init, [last]);
    SortStepWidths(s, sortedInit, descending);
  }

  /** The width part of one insertion step of `SortByStart`. */
  lemma SortStepWidths(s: seq<Exon>, sortedInit: seq<Exon>, descending: bool)
    requires |s| > 0
    requires AllWellFormed(s[..|s| - 1]) ==>
      AllWellFormed(sortedInit) && SumWidths(sortedInit) == SumWidths(s[..|s| - 1])
    ensures AllWellFormed(s) ==>
      AllWellFormed(InsertByStart(sortedInit, s[|s| - 1], descending))
      && SumWidths(InsertByStart(sortedInit, s[|s| - 1], descending)) == SumWidths(s)
  {
    if AllWellFormed(s) {
      var last := s[|s| - 1];
      assert AllWellFormed(s[..|s| - 1]);
      SumWidthsLast(s);
      InsertByStartWidths(sortedInit, last, descending);
    }
  }

  /** The width sum of a non-empty prefix peeled from the front. */
  lemma SumWidthsPrefixHead(exons: seq<Exon>, j: nat)
    requires AllWellFormed(exons) && 0 < j <= |exons|
    ensures AllWellFormed(exons[..j]) && AllWellFormed(exons[1..][..j - 1])
    ensures SumWidths(exons[..j]) == Width(exons[0]) + SumWidths(exons[1..][..j - 1])
  {
    assert forall i :: 0 <= i < j ==> exons[..j][i] == exons[i];
    assert exons[..j][1..] == exons[1..][..j - 1];
  }

  /** The width sum peeled from the back. */
  lemma {:induction false} SumWidthsLast(s: seq<Exon>)
    requires |s| > 0 && AllWellFormed(s)
    ensures SumWidths(s) == SumWidths(s[..|s| - 1]) + Width(s[|s| - 1])
    decreases |s|
  {
    if |s| > 1 {
      SumWidthsLast(s[1..]);
      assert s[1..][..|s[1..]| - 1] == s[..|s| - 1][1..];
    }
  }

  // ---------------------------------------------------------------------------
  // numeric sort (`sort_unstable` on a vector of u64)

  predicate Ascending(s: seq<nat>)
  {
    forall i, j :: 0 <= i < j < |s| ==> s[i] <= s[j]
  }

  function InsertNat(sorted: seq<nat>, x: nat): (r: seq<nat>)
    ensures |r| == |sorted| + 1
    ensures r[0] == x || (|sorted| > 0 && r[0] == sorted[0])
    decreases |sorted|
  {
    if |sorted| == 0 || x <= sorted[0] then [x] + sorted
    else [sorted[0]] + InsertNat(sorted[1..], x)
  }

  lemma {:induction false} InsertNatMultiset(sorted: seq<nat>, x: nat)
    ensures multiset(InsertNat(sorted, x)) == multiset(sorted) + multiset{x}
    decreases |sorted|
  {
    if |sorted| > 0 && x > sorted[0] {
      InsertNatMultiset(sorted[1..], x);
      assert sorted == [sorted[0]] + sorted[1..];
    }
  }

  lemma {:induction false} InsertNatAscending(sorted: seq<nat>, x: nat)
    requires Ascending(sorted)
    ensures Ascending(InsertNat(sorted, x))
    decreases |sorted|
  {
    if |sorted| > 0 && x > sorted[0] {
      var rest := InsertNat(sorted[1..], x);
      InsertNatAscending(sorted[1..], x);
      var r := [sorted[0]] + rest;
      assert sorted[0] <= rest[0] by {
        if rest[0] != x { assert rest[0] == sorted[1]; }
      }
      forall i, j | 0 <= i < j < |r| ensures r[i] <= r[j] {
        if i == 0 {
          if j > 1 { assert rest[0] <= rest[j - 1]; }
        }
      }
    }
  }

  /** The ascending sort of a list of coordinates (`sort_unstable`; on numbers every
      ascending permutation is the same list). */
  function SortNats(s: seq<nat>): (r: seq<nat>)
    ensures Ascending(r)
    ensures multiset(r) == multiset(s)
    ensures |r| == |s|
    decreases |s|
  {
    if |s| == 0 then []
    else
      var sortedInit := SortNats(s[..|s| - 1]);
      InsertNatAscending(sortedInit, s[|s| - 1]);
      InsertNatMultiset(sortedInit, s[|s| - 1]);
      assert s == s[..|s| - 1] + [s[|s| - 1]];
      InsertNat(sortedInit, s[|s| - 1])
  }

  /** An ascending permutation of `s` starts with a least and ends with a greatest
      element of `s`. */
  lemma AscendingPermutationEnds(r: seq<nat>, s: seq<nat>)
    requires Ascending(r) && multiset(r) == multiset(s) && |s| > 0
    ensures |r| == |s|
    ensures r[0] in s && forall i :: 0 <= i < |s| ==> r[0] <= s[i]
    ensures r[|r| - 1] in s && forall i :: 0 <= i < |s| ==> s[i] <= r[|r| - 1]
  {
    assert |r| == |multiset(r)| == |multiset(s)| == |s|;
    assert r[0] in multiset(r) && r[|r| - 1] in multiset(r);
    forall i | 0 <= i < |s| ensures r[0] <= s[i] <= r[|r| - 1] {
      assert s[i] in multiset(s);
      assert s[i] in r;
      var k :| 0 <= k < |r| && r[k] == s[i];
    }
  }

  /** After sorting, the first element is the minimum and the last the maximum of the input. */
  lemma SortedEnds(s: seq<nat>)
    requires |s| > 0
    ensures SortNats(s)[0] in s && forall i :: 0 <= i < |s| ==> SortNats(s)[0] <= s[i]
    ensures SortNats(s)[|s| - 1] in s && forall i :: 0 <= i < |s| ==> s[i] <= SortNats(s)[|s| - 1]
  {
    AscendingPermutationEnds(SortNats(s), s);
  }

  /** The least element of a non-empty list. */
  function MinOf(s: seq<nat>): (m: nat)
    requires |s| > 0
    ensures m in s && forall i :: 0 <= i < |s| ==> m <= s[i]
    decreases |s|
  {
    if |s| == 1 then s[0]
    else
      var m := MinOf(s[1..]);
      assert forall i :: 1 <= i < |s| ==> s[i] == s[1..][i - 1];
      if s[0] <= m then s[0] else m
  }

  /** The greatest element of a non-empty list. */
  function MaxOf(s: seq<nat>): (m: nat)
    requires |s| > 0
    ensures m in s && forall i :: 0 <= i < |s| ==> s[i] <= m
    decreases |s|
  {
    if |s| == 1 then s[0]
    else
      var m := MaxOf(s[1..]);
      assert forall i :: 1 <= i < |s| ==> s[i] == s[1..][i - 1];
      if s[0] >= m then s[0] else m
  }

  /** `first()` of the sorted list is the minimum, `last()` the maximum. */
  lemma SortedEndsAreMinMax(s: seq<nat>)
    requires |s| > 0
    ensures SortNats(s)[0] == MinOf(s)
    ensures SortNats(s)[|s| - 1] == MaxOf(s)
  {
    SortedEnds(s);
    var r, lo, hi := SortNats(s), MinOf(s), MaxOf(s);
    var i :| 0 <= i < |s| && s[i] == lo;
    var j :| 0 <= j < |s| && s[j] == hi;
    var k :| 0 <= k < |s| && s[k] == r[0];
    var l :| 0 <= l < |s| && s[l] == r[|s| - 1];
    assert r[0] <= s[i] && lo <= s[k];
    assert s[j] <= r[|s| - 1] && s[l] <= hi;
  }

  // ---------------------------------------------------------------------------
  // splice junctions

  /** `end + 1` of every exon but the last. */
  function JunctionPositions(exons: seq<Exon>): (r: seq<nat>)
    ensures |exons| <= 1 ==> r == []
    ensures |exons| > 1 ==> |r| == |exons| - 1
    ensures forall i :: 0 <= i < |r| ==> r[i] == exons[i].end + 1
  {
    if |exons| <= 1 then [] else seq(|exons| - 1, i requires 0 <= i < |exons| - 1 => exons[i].end + 1)
  }

  /** The index loop `for i in 0..(exons.len() - 1) { push(exons[i].end + 1) }`, guarded by
      `exons.len() > 1`. */
  method PushJunctions(exons: seq<Exon>) returns (junctions: seq<nat>)
    ensures junctions == JunctionPositions(exons)
  {
    junctions := [];
    if |exons| > 1 {
      var i := 0;
      while i < |exons| - 1
        invariant 0 <= i <= |exons| - 1
        invariant |junctions| == i
        invariant forall k :: 0 <= k < i ==> junctions[k] == exons[k].end + 1
      {
        junctions := junctions + [exons[i].end + 1];
        i := i + 1;
      }
    }
  }
}
