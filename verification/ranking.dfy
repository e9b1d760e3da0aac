/** Ranking of the clusters (script/parse_log.py:191-199 and
    script/sort_sqd.py:59-67): every cluster is sorted by descending score,
    its first row becomes its representative, and the clusters are ordered
    by descending representative score.

    Both sorts are `np.argsort` on the negated score followed by fancy
    indexing. numpy's default sort is not stable, so the source promises
    nothing about the order of rows (or clusters) with equal scores; the
    model sorts by insertion and every property below holds of any order
    that is a permutation with non-increasing scores. */
module Ranking {
  import opened Records
  import opened Sequences
  import opened Clustering

  /** The keys never increase along the sequence. */
  predicate Descending<T>(xs: seq<T>, key: T -> real) {
    forall i, j :: 0 <= i < j < |xs| ==> key(xs[i]) >= key(xs[j])
  }

  /** Places x in front of the first element whose key is not larger. */
  function InsertDescending<T>(x: T, ys: seq<T>, key: T -> real): (r: seq<T>)
    requires Descending(ys, key)
    ensures multiset(r) == multiset(ys) + multiset{x}
    ensures Descending(r, key)
    decreases |ys|
  {
    if |ys| == 0 then [x]
    else if key(ys[0]) <= key(x) then
      assert forall j :: 0 <= j < |ys| ==> key(ys[j]) <= key(x) by {
        assert forall j :: 0 < j < |ys| ==> key(ys[0]) >= key(ys[j]);
      }
      [x] + ys
    else
      var rest := InsertDescending(x, ys[1..], key);
      assert ys == [ys[0]] + ys[1..];
      assert forall z :: z in rest ==> key(z) <= key(ys[0]) by {
        forall z | z in rest ensures key(z) <= key(ys[0]) {
          assert z in multiset(rest);
          if z != x {
            assert z in multiset(ys[1..]);
            var j :| 0 <= j < |ys[1..]| && ys[1..][j] == z;
            assert ys[j + 1] == z;
          }
        }
      }
      ExtendDescending(ys[0], rest, key);
      [ys[0]] + rest
  }

  lemma ExtendDescending<T>(x: T, ys: seq<T>, key: T -> real)
    requires Descending(ys, key)
    requires forall z :: z in ys ==> key(z) <= key(x)
    ensures Descending([x] + ys, key)
  {
    var r := [x] + ys;
    forall i, j | 0 <= i < j < |r| ensures key(r[i]) >= key(r[j]) {
      assert r[j] == ys[j - 1];
      if i > 0 {
        assert r[i] == ys[i - 1];
      }
    }
  }

  /** Sorts by descending key: a permutation of xs whose keys never
      increase. */
  function SortDescending<T>(xs: seq<T>, key: T -> real): (ys: seq<T>)
    ensures multiset(ys) == multiset(xs)
    ensures Descending(ys, key)
    decreases |xs|
  {
    if |xs| == 0 then []
    else
      assert xs == [xs[0]] + xs[1..];
      InsertDescending(xs[0], SortDescending(xs[1..], key), key)
  }

  /** Two sequences that are permutations of each other and both sorted by
      descending key list the same keys in the same order: the sort fixes
      everything but the order of equal keys. */
  lemma {:induction false} SortedKeysUnique<T>(a: seq<T>, b: seq<T>, key: T -> real)
    requires multiset(a) == multiset(b)
    requires Descending(a, key) && Descending(b, key)
    ensures Map(a, key) == Map(b, key)
    decreases |a|
  {
    if |a| == 0 {
      assert |b| == |multiset(b)| == 0;
    } else {
      assert |b| == |multiset(b)| == |a|;
      var jb := FirstKeysEqual(a, b, key);
      var rest := Without(b, jb);
      SortedTail(a, b, jb, key);
      SortedKeysUnique(a[1..], rest, key);
      WithoutEqualKey(b, jb, key);
      forall i | 0 <= i < |a| ensures Map(a, key)[i] == Map(b, key)[i] {
        if i > 0 {
          assert Map(a[1..], key)[i - 1] == Map(rest, key)[i - 1];
        }
      }
    }
  }

  /** Both sequences start with a largest key, so the first keys agree; jb
      is where a[0] sits in b. */
  lemma FirstKeysEqual<T>(a: seq<T>, b: seq<T>, key: T -> real) returns (jb: nat)
    requires 0 < |a| && multiset(a) == multiset(b)
    requires Descending(a, key) && Descending(b, key)
    ensures jb < |b| && b[jb] == a[0]
    ensures key(b[jb]) == key(b[0])
  {
    assert a[0] in multiset(b);
    jb :| 0 <= jb < |b| && b[jb] == a[0];
    assert b[0] in multiset(a);
    var ja :| 0 <= ja < |a| && a[ja] == b[0];
    if jb > 0 {
      assert key(b[0]) >= key(b[jb]);
    }
    if ja > 0 {
      assert key(a[0]) >= key(a[ja]);
    }
  }

  /** Taking a[0] off a and its copy b[jb] off b leaves sorted permutations
      of each other. */
  lemma SortedTail<T>(a: seq<T>, b: seq<T>, jb: nat, key: T -> real)
    requires 0 < |a| && multiset(a) == multiset(b)
    requires jb < |b| && b[jb] == a[0]
    requires Descending(b, key)
    ensures multiset(a[1..]) == multiset(Without(b, jb))
    ensures Descending(Without(b, jb), key)
  {
    WithoutMultiset(b, jb);
    assert a == [a[0]] + a[1..];
    MultisetCancel(multiset(a[1..]), multiset(Without(b, jb)), multiset{a[0]});
    WithoutDescending(b, jb, key);
  }

  lemma WithoutDescending<T>(xs: seq<T>, j: nat, key: T -> real)
    requires j < |xs| && Descending(xs, key)
    ensures Descending(Without(xs, j), key)
  {
    var r := Without(xs, j);
    forall a, b | 0 <= a < b < |r| ensures key(r[a]) >= key(r[b]) {
      var a' := if a < j then a else a + 1;
      var b' := if b < j then b else b + 1;
      assert r[a] == xs[a'] && r[b] == xs[b'];
    }
  }

  /** Removing an element whose key equals the first key shifts the keys of
      a sorted sequence by one. */
  lemma WithoutEqualKey<T>(xs: seq<T>, j: nat, key: T -> real)
    requires j < |xs| && Descending(xs, key)
    requires key(xs[j]) == key(xs[0])
    ensures forall i :: 0 <= i < |xs| - 1 ==> key(Without(xs, j)[i]) == key(xs[i + 1])
  {
    var r := Without(xs, j);
    forall i | 0 <= i < |xs| - 1 ensures key(r[i]) == key(xs[i + 1]) {
      if i < j {
        assert r[i] == xs[i];
        assert key(xs[0]) >= key(xs[i]) >= key(xs[i + 1]) >= key(xs[j]);
      } else {
        assert r[i] == xs[i + 1];
      }
    }
  }

  /** Column `col` of a row, as `row[col]` reads it. A column past the end
      has no score; the pipeline rejects such a column before it ranks, so
      the 0.0 given for it is never looked at. */
  function Score(r: Row, col: nat): real {
    var c := Columns(r);
    if col < |c| then c[col] else 0.0
  }

  function RowKey(col: nat): Row -> real {
    (r: Row) => Score(r, col)
  }

  /** The score of a cluster's representative, its first row (an empty
      cluster, which the loop never builds, has none). */
  function RepKey(col: nat): Cluster -> real {
    (c: Cluster) => if |c| == 0 then 0.0 else Score(c[0], col)
  }

  /** Sorts one cluster by descending score. */
  function SortCluster(col: nat): Cluster -> Cluster {
    (c: Cluster) => SortDescending(c, RowKey(col))
  }

  /** The whole ranking: sort inside every cluster, then order the clusters
      by their representatives. The result has as many clusters as the
      input, and each output cluster holds exactly the rows of one input
      cluster (bags of rows are permuted, never merged, split or resized,
      so the list of sizes is permuted too); every output cluster is sorted
      by descending score, and the representatives' scores never increase
      along the list. */
  function RankClusters(cl: seq<Cluster>, col: nat): (out: seq<Cluster>)
    ensures |out| == |cl|
    ensures multiset(Map(out, Bag)) == multiset(Map(cl, Bag))
    ensures multiset(Map(out, Size)) == multiset(Map(cl, Size))
    ensures forall i :: 0 <= i < |out| ==> Descending(out[i], RowKey(col))
    ensures Descending(out, RepKey(col))
  {
    var sorted := Map(cl, SortCluster(col));
    SortEachCluster(cl, col);
    var out := SortDescending(sorted, RepKey(col));
    assert |out| == |multiset(out)| == |multiset(sorted)| == |cl|;
    MapPermutation(out, sorted, Bag);
    MapPermutation(out, sorted, Size);
    PermutedSorted(out, sorted, col);
    out
  }

  /** Sorting inside every cluster keeps each cluster's rows and size and
      leaves every cluster sorted. */
  lemma SortEachCluster(cl: seq<Cluster>, col: nat)
    ensures Map(Map(cl, SortCluster(col)), Bag) == Map(cl, Bag)
    ensures Map(Map(cl, SortCluster(col)), Size) == Map(cl, Size)
    ensures forall c :: c in Map(cl, SortCluster(col)) ==> Descending(c, RowKey(col))
  {
    var sorted := Map(cl, SortCluster(col));
    forall i | 0 <= i < |cl|
      ensures Map(sorted, Bag)[i] == Map(cl, Bag)[i]
      ensures Map(sorted, Size)[i] == Map(cl, Size)[i]
    {
      var c := SortDescending(cl[i], RowKey(col));
      assert sorted[i] == c;
      assert |c| == |multiset(c)| == |multiset(cl[i])| == |cl[i]|;
    }
  }

  lemma PermutedSorted(out: seq<Cluster>, sorted: seq<Cluster>, col: nat)
    requires multiset(out) == multiset(sorted)
    requires forall c :: c in sorted ==> Descending(c, RowKey(col))
    ensures forall i :: 0 <= i < |out| ==> Descending(out[i], RowKey(col))
  {
    forall i | 0 <= i < |out| ensures Descending(out[i], RowKey(col)) {
      assert out[i] in multiset(sorted);
    }
  }

  /** In a cluster sorted by descending score the representative (the first
      row) scores at least as high as every row of it. */
  lemma RepresentativeIsBest(c: Cluster, col: nat)
    requires Descending(c, RowKey(col))
    ensures forall x :: x in c ==> Score(x, col) <= Score(c[0], col)
  {
    forall x | x in c ensures Score(x, col) <= Score(c[0], col) {
      var j :| 0 <= j < |c| && c[j] == x;
      if j > 0 {
        assert RowKey(col)(c[0]) >= RowKey(col)(c[j]);
      }
    }
  }

  /** Clusters ordered by representative score, none of them empty: the
      first rows' scores never increase along the list. */
  lemma FirstRowsDescending(out: seq<Cluster>, col: nat)
    requires NoEmptyCluster(out)
    requires Descending(out, RepKey(col))
    ensures forall i, j :: 0 <= i < j < |out| ==> Score(out[i][0], col) >= Score(out[j][0], col)
  {
    forall i, j | 0 <= i < j < |out| ensures Score(out[i][0], col) >= Score(out[j][0], col) {
      assert RepKey(col)(out[i]) >= RepKey(col)(out[j]);
    }
  }

  /** Ranking keeps the rows held. */
  lemma RankClustersContents(cl: seq<Cluster>, col: nat)
    ensures Contents(RankClusters(cl, col)) == Contents(cl)
  {
    UnionPermutation(Map(RankClusters(cl, col), Bag), Map(cl, Bag));
  }

  /** Ranking neither empties a cluster nor mixes molecules in one. */
  lemma RankClustersShape(cl: seq<Cluster>, col: nat)
    requires NoEmptyCluster(cl)
    requires forall i :: 0 <= i < |cl| ==> SameMolecule(cl[i])
    ensures NoEmptyCluster(RankClusters(cl, col))
    ensures forall i :: 0 <= i < |RankClusters(cl, col)| ==> SameMolecule(RankClusters(cl, col)[i])
  {
    BagsShape(RankClusters(cl, col), cl);
  }

  /** A list of clusters whose bags are those of another list inherits its
      shape. */
  lemma BagsShape(out: seq<Cluster>, cl: seq<Cluster>)
    requires multiset(Map(out, Bag)) == multiset(Map(cl, Bag))
    requires NoEmptyCluster(cl)
    requires forall i :: 0 <= i < |cl| ==> SameMolecule(cl[i])
    ensures NoEmptyCluster(out)
    ensures forall i :: 0 <= i < |out| ==> SameMolecule(out[i])
  {
    forall i | 0 <= i < |out| ensures |out[i]| > 0 && SameMolecule(out[i]) {
      assert Map(out, Bag)[i] == Bag(out[i]);
      assert Bag(out[i]) in multiset(Map(cl, Bag));
      var j :| 0 <= j < |cl| && Map(cl, Bag)[j] == Bag(out[i]);
      PermutedShape(out[i], cl[j]);
    }
  }

  lemma PermutedShape(c: Cluster, d: Cluster)
    requires multiset(c) == multiset(d)
    requires |d| > 0 && SameMolecule(d)
    ensures |c| > 0 && SameMolecule(c)
  {
    assert |c| == |multiset(c)| == |multiset(d)| == |d|;
    forall a, b | 0 <= a < |c| && 0 <= b < |c| ensures c[a].mol == c[b].mol {
      assert c[a] in multiset(d) && c[b] in multiset(d);
      var a' :| 0 <= a' < |d| && d[a'] == c[a];
      var b' :| 0 <= b' < |d| && d[b'] == c[b];
    }
  }
}
