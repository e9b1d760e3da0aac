/** The first-fit clustering loop shared by cluster_and_sort_sqd
    (script/parse_log.py:150-187) and the script script/sort_sqd.py:20-53.

    The placements are visited in loop order. Each one joins the first
    cluster, in creation order, holding any row it matches; otherwise it
    opens a new singleton cluster at the end of the list. `Build` is that
    loop as a left fold over any match relation; `Matches` is the relation
    the source uses (same molecule, shift and angle within tolerance), and
    `ClusterLog` is the loop written with the source's nested loops and
    breaks, proved equal to the fold. */
module Clustering {
  import opened Geometry
  import opened Records
  import opened Sequences

  datatype Option<T> = None | Some(value: T)

  /** The rows of one cluster, in the order they were stacked. */
  type Cluster = seq<Row>

  /** Does a candidate match a stored placement? */
  type Matcher = (Row, Row) -> bool

  /** The distance primitives and the two tolerances of a run. */
  datatype Config = Config(num: Numerics, shiftTolerance: real, angleTolerance: real)

  /** The test of script/parse_log.py:166-173: same molecule, shift distance
      within the shift tolerance and quaternion angle within the angle
      tolerance (both comparisons are `<=`, so a NaN angle never passes). */
  predicate Near(cfg: Config, cand: Row, member: Row) {
    && cand.mol == member.mol
    && ShiftDifference(cfg.num, Shift(cand), Shift(member)) <= cfg.shiftTolerance
    && AngleWithin(cfg.num, Quat(cand), Quat(member), cfg.angleTolerance)
  }

  function Matches(cfg: Config): Matcher {
    (cand: Row, member: Row) => Near(cfg, cand, member)
  }

  /** The candidate matches some member of the cluster. */
  predicate Joins(near: Matcher, cand: Row, c: Cluster) {
    exists i :: 0 <= i < |c| && near(cand, c[i])
  }

  /** The lowest index from i on of a cluster the candidate joins. */
  function FirstFitFrom(near: Matcher, cand: Row, cl: seq<Cluster>, i: nat): (k: Option<nat>)
    requires i <= |cl|
    ensures k.Some? ==> i <= k.value < |cl| && Joins(near, cand, cl[k.value])
    ensures forall j :: i <= j < |cl| && (k.None? || j < k.value) ==> !Joins(near, cand, cl[j])
    decreases |cl| - i
  {
    if i == |cl| then None
    else if Joins(near, cand, cl[i]) then Some(i)
    else FirstFitFrom(near, cand, cl, i + 1)
  }

  /** The cluster the candidate joins: the first one, in creation order,
      holding a row it matches. */
  function FirstFit(near: Matcher, cand: Row, cl: seq<Cluster>): (k: Option<nat>)
    ensures k.Some? ==> k.value < |cl| && Joins(near, cand, cl[k.value])
    ensures k.Some? ==> forall j :: 0 <= j < k.value ==> !Joins(near, cand, cl[j])
    ensures k.None? <==> forall j :: 0 <= j < |cl| ==> !Joins(near, cand, cl[j])
  {
    FirstFitFrom(near, cand, cl, 0)
  }

  function Bag(c: Cluster): multiset<Row> {
    multiset(c)
  }

  function Size(c: Cluster): nat {
    |c|
  }

  function Singleton(x: Row): Cluster {
    [x]
  }

  /** All placements held by a list of clusters, with multiplicity. */
  function Contents(cl: seq<Cluster>): multiset<Row> {
    Union(Map(cl, Bag))
  }

  lemma ContentsCons(cl: seq<Cluster>)
    requires 0 < |cl|
    ensures Contents(cl) == multiset(cl[0]) + Contents(cl[1..])
  {
    assert Map(cl, Bag)[1..] == Map(cl[1..], Bag);
  }

  lemma ContentsAppend(cl: seq<Cluster>, c: Cluster)
    ensures Contents(cl + [c]) == Contents(cl) + multiset(c)
  {
    MapConcat(cl, [c], Bag);
    UnionConcat(Map(cl, Bag), Map([c], Bag));
    assert Map([c], Bag)[1..] == [];
  }

  /** Contents of a list split around index k. */
  lemma ContentsSplit(pre: seq<Cluster>, d: Cluster, post: seq<Cluster>)
    ensures Contents(pre + [d] + post) == Contents(pre) + multiset(d) + Contents(post)
  {
    MapConcat(pre + [d], post, Bag);
    MapConcat(pre, [d], Bag);
    UnionConcat(Map(pre + [d], Bag), Map(post, Bag));
    UnionConcat(Map(pre, Bag), Map([d], Bag));
    assert Map([d], Bag)[1..] == [];
  }

  lemma ContentsUpdate(cl: seq<Cluster>, k: nat, c: Cluster)
    requires k < |cl|
    ensures Contents(cl[k := c]) + multiset(cl[k]) == Contents(cl) + multiset(c)
  {
    var pre, post := cl[..k], cl[k + 1..];
    assert cl == pre + [cl[k]] + post;
    assert cl[k := c] == pre + [c] + post;
    ContentsSplit(pre, cl[k], post);
    ContentsSplit(pre, c, post);
  }

  /** A row of some cluster is counted by Contents. */
  lemma ContentsHolds(cl: seq<Cluster>, i: nat, x: Row)
    requires i < |cl| && x in cl[i]
    ensures x in Contents(cl)
  {
    assert cl == cl[..i] + [cl[i]] + cl[i + 1..];
    ContentsSplit(cl[..i], cl[i], cl[i + 1..]);
  }

  /** One step of the loop: the candidate joins the first cluster holding a
      row it matches, or opens a new singleton cluster at the end. */
  function Insert(near: Matcher, cl: seq<Cluster>, cand: Row): seq<Cluster> {
    match FirstFit(near, cand, cl)
    case None => cl + [[cand]]
    case Some(k) => cl[k := cl[k] + [cand]]
  }

  /** The step is first fit: with no cluster to join the candidate opens a
      new singleton cluster at the end; otherwise it is stacked onto the
      lowest-numbered cluster it joins and every other cluster is left as
      it was. Either way it is held exactly once more. */
  lemma InsertSpec(near: Matcher, cl: seq<Cluster>, cand: Row)
    ensures (forall j :: 0 <= j < |cl| ==> !Joins(near, cand, cl[j])) ==>
              Insert(near, cl, cand) == cl + [[cand]]
    ensures forall k :: 0 <= k < |cl| && Joins(near, cand, cl[k]) &&
                        (forall j :: 0 <= j < k ==> !Joins(near, cand, cl[j])) ==>
                          Insert(near, cl, cand) == cl[k := cl[k] + [cand]]
    ensures Contents(Insert(near, cl, cand)) == Contents(cl) + multiset{cand}
  {
    match FirstFit(near, cand, cl)
    case None =>
      ContentsAppend(cl, [cand]);
    case Some(k) =>
      ContentsUpdate(cl, k, cl[k] + [cand]);
      assert multiset(cl[k] + [cand]) == multiset(cl[k]) + multiset{cand};
      MultisetCancel(Contents(cl[k := cl[k] + [cand]]), Contents(cl) + multiset{cand}, multiset(cl[k]));
  }

  /** The clusters the loop has built after visiting the candidates in
      order (the candidates, oldest first). */
  function Build(near: Matcher, cands: seq<Row>): seq<Cluster>
    decreases |cands|
  {
    if |cands| == 0 then []
    else
      var n := |cands| - 1;
      Insert(near, Build(near, cands[..n]), cands[n])
  }

  /** Every candidate is held exactly as often as it was visited, and there
      are never more clusters than candidates. */
  lemma {:induction false} BuildContents(near: Matcher, cands: seq<Row>)
    ensures Contents(Build(near, cands)) == multiset(cands)
    ensures |Build(near, cands)| <= |cands|
    decreases |cands|
  {
    if |cands| > 0 {
      var n := |cands| - 1;
      BuildContents(near, cands[..n]);
      InsertSpec(near, Build(near, cands[..n]), cands[n]);
      assert cands == cands[..n] + [cands[n]];
    }
  }

  lemma BuildAppend(near: Matcher, done: seq<Row>, x: Row)
    ensures Build(near, done + [x]) == Insert(near, Build(near, done), x)
  {
    assert (done + [x])[..|done|] == done;
  }

  /** Every cluster holds at least one row. */
  predicate NoEmptyCluster(cl: seq<Cluster>) {
    forall i :: 0 <= i < |cl| ==> |cl[i]| > 0
  }

  /** All rows of a cluster belong to the same molecule. */
  predicate SameMolecule(c: Cluster) {
    forall i, j :: 0 <= i < |c| && 0 <= j < |c| ==> c[i].mol == c[j].mol
  }

  /** Single linkage: every row after the first matched some earlier row of
      its cluster. */
  predicate ChainLinked(near: Matcher, c: Cluster) {
    forall j :: 0 < j < |c| ==> LinkedAt(near, c, j)
  }

  /** Row j of the cluster matched some earlier row of it. */
  predicate LinkedAt(near: Matcher, c: Cluster, j: nat)
    requires j < |c|
  {
    exists i :: 0 <= i < j && near(c[j], c[i])
  }

  /** A matcher that only pairs rows of one molecule, as the source's does. */
  ghost predicate SameMoleculeOnly(near: Matcher) {
    forall a, b :: near(a, b) ==> a.mol == b.mol
  }

  ghost predicate WellFormed(near: Matcher, cl: seq<Cluster>) {
    && NoEmptyCluster(cl)
    && (forall i :: 0 <= i < |cl| ==> ChainLinked(near, cl[i]))
    && (SameMoleculeOnly(near) ==> forall i :: 0 <= i < |cl| ==> SameMolecule(cl[i]))
  }

  lemma InsertChainLinked(near: Matcher, c: Cluster, cand: Row)
    requires ChainLinked(near, c)
    requires Joins(near, cand, c)
    ensures ChainLinked(near, c + [cand])
  {
    var c' := c + [cand];
    forall j | 0 < j < |c'| ensures LinkedAt(near, c', j) {
      if j == |c| {
        var i :| 0 <= i < |c| && near(cand, c[i]);
        assert c'[j] == cand && c'[i] == c[i];
      } else {
        assert LinkedAt(near, c, j);
        var i :| 0 <= i < j && near(c[j], c[i]);
        assert c'[j] == c[j] && c'[i] == c[i];
      }
    }
  }

  lemma InsertSameMolecule(near: Matcher, c: Cluster, cand: Row)
    requires SameMoleculeOnly(near)
    requires SameMolecule(c)
    requires Joins(near, cand, c)
    ensures SameMolecule(c + [cand])
  {
    var i :| 0 <= i < |c| && near(cand, c[i]);
    assert forall j :: 0 <= j < |c| ==> c[j].mol == c[i].mol;
  }

  lemma InsertWellFormed(near: Matcher, cl: seq<Cluster>, cand: Row)
    requires WellFormed(near, cl)
    ensures WellFormed(near, Insert(near, cl, cand))
  {
    match FirstFit(near, cand, cl)
    case None =>
      assert Insert(near, cl, cand) == cl + [[cand]];
    case Some(k) =>
      var r := Insert(near, cl, cand);
      assert r == cl[k := cl[k] + [cand]];
      InsertChainLinked(near, cl[k], cand);
      if SameMoleculeOnly(near) {
        InsertSameMolecule(near, cl[k], cand);
      }
      assert forall i :: 0 <= i < |r| && i != k ==> r[i] == cl[i];
  }

  /** The loop never leaves a cluster empty, keeps every cluster
      single-linked and, with the source's matcher, never mixes molecules. */
  lemma {:induction false} BuildWellFormed(near: Matcher, cands: seq<Row>)
    ensures WellFormed(near, Build(near, cands))
    decreases |cands|
  {
    if |cands| > 0 {
      var n := |cands| - 1;
      BuildWellFormed(near, cands[..n]);
      InsertWellFormed(near, Build(near, cands[..n]), cands[n]);
    }
  }

  /** No row matched a row of an earlier cluster that was already placed
      when it was visited: otherwise first fit would have put it there. */
  predicate Separated(near: Matcher, cl: seq<Cluster>) {
    forall i, j, x, y :: 0 <= i < j < |cl| && x in cl[i] && y in cl[j] && Before(x, y) ==>
      !near(y, x)
  }

  lemma BeforeAsymmetric(x: Row, y: Row)
    requires Before(x, y)
    ensures !Before(y, x)
  {
  }

  lemma InsertSeparated(near: Matcher, cl: seq<Cluster>, cand: Row)
    requires Separated(near, cl)
    requires forall x :: x in Contents(cl) ==> Before(x, cand)
    ensures Separated(near, Insert(near, cl, cand))
  {
    var r := Insert(near, cl, cand);
    forall i, x | 0 <= i < |cl| && x in cl[i] ensures Before(x, cand) {
      ContentsHolds(cl, i, x);
    }
    forall i, j, x, y | 0 <= i < j < |r| && x in r[i] && y in r[j] && Before(x, y)
      ensures !near(y, x)
    {
      match FirstFit(near, cand, cl)
      case None =>
        if j == |cl| {
          assert !Joins(near, cand, cl[i]);
        }
      case Some(k) =>
        if j == k && y == cand {
          assert !Joins(near, cand, cl[i]);
        } else if i == k && x == cand {
          assert y in cl[j];
          BeforeAsymmetric(x, y);
        } else {
          assert x in cl[i] && y in cl[j];
        }
    }
  }

  lemma PrefixBefore(cands: seq<Row>, n: nat)
    requires StrictlyOrdered(cands) && n < |cands|
    ensures forall x :: x in multiset(cands[..n]) ==> Before(x, cands[n])
  {
    forall x | x in multiset(cands[..n]) ensures Before(x, cands[n]) {
      var i :| 0 <= i < n && cands[..n][i] == x;
    }
  }

  /** With the candidates in loop order, first fit keeps every row apart
      from the rows of earlier clusters that were already placed. */
  lemma {:induction false} BuildSeparated(near: Matcher, cands: seq<Row>)
    requires StrictlyOrdered(cands)
    ensures Separated(near, Build(near, cands))
    decreases |cands|
  {
    if |cands| > 0 {
      var n := |cands| - 1;
      var prev := Build(near, cands[..n]);
      BuildSeparated(near, cands[..n]);
      BuildContents(near, cands[..n]);
      PrefixBefore(cands, n);
      InsertSeparated(near, prev, cands[n]);
      assert Build(near, cands) == Insert(near, prev, cands[n]);
    } else {
      assert Build(near, cands) == [];
    }
  }

  /** A row counted once by Contents sits in exactly one cluster, once. */
  lemma {:induction false} UniqueHolder(cl: seq<Cluster>, x: Row)
    requires Contents(cl)[x] == 1
    ensures exists i :: 0 <= i < |cl| && multiset(cl[i])[x] == 1 &&
                        forall j :: 0 <= j < |cl| && j != i ==> x !in cl[j]
    decreases |cl|
  {
    ContentsCons(cl);
    if multiset(cl[0])[x] == 1 {
      forall j | 0 < j < |cl| ensures x !in cl[j] {
        if x in cl[j] {
          ContentsHolds(cl[1..], j - 1, x);
        }
      }
    } else {
      UniqueHolder(cl[1..], x);
      var i :| 0 <= i < |cl| - 1 && multiset(cl[1..][i])[x] == 1 &&
               forall j :: 0 <= j < |cl| - 1 && j != i ==> x !in cl[1..][j];
      forall j | 0 <= j < |cl| && j != i + 1 ensures x !in cl[j] {
        if j > 0 {
          assert cl[1..][j - 1] == cl[j];
        }
      }
      assert cl[1..][i] == cl[i + 1];
    }
  }

  /** The cluster sizes add up to the number of rows held. */
  lemma {:induction false} SizesSum(cl: seq<Cluster>)
    ensures Sum(Map(cl, Size)) == |Contents(cl)|
    decreases |cl|
  {
    if |cl| > 0 {
      ContentsCons(cl);
      assert Map(cl, Size)[1..] == Map(cl[1..], Size);
      SizesSum(cl[1..]);
    }
  }

  /** The source's matcher is symmetric: shift distance and quaternion angle
      do not depend on the order of their arguments. */
  lemma NearSymmetric(cfg: Config, a: Row, b: Row)
    requires Lawful(cfg.num)
    ensures Near(cfg, a, b) <==> Near(cfg, b, a)
  {
    ShiftDifferenceSymmetric(cfg.num, Shift(a), Shift(b));
    NormZero(cfg.num, Quat(a));
    NormZero(cfg.num, Quat(b));
    if Norm(cfg.num, Quat(a)) != 0.0 && Norm(cfg.num, Quat(b)) != 0.0 {
      QuaternionAngleSymmetric(cfg.num, Quat(a), Quat(b));
    }
  }

  /** Two placements of one molecule with the same shift and the same
      rotation (the same quaternion or its negation) always match when both
      tolerances are non-negative and the quaternion is not zero. */
  lemma NearSamePose(cfg: Config, a: Row, b: Row)
    requires Lawful(cfg.num)
    requires 0.0 <= cfg.shiftTolerance && 0.0 <= cfg.angleTolerance
    requires a.mol == b.mol && Shift(a) == Shift(b)
    requires Quat(a) == Quat(b) || Quat(a) == Neg(Quat(b))
    requires 0.0 < SqNorm(Quat(b))
    ensures Near(cfg, a, b)
  {
    ShiftDifferenceZeroIffEqual(cfg.num, Shift(a), Shift(b));
    QuaternionAngleSelf(cfg.num, Quat(b));
    NormZero(cfg.num, Quat(b));
    NormZero(cfg.num, Neg(Quat(b)));
    if Quat(a) == Neg(Quat(b)) {
      assert Neg(Quat(b)) == Quat(a);
      QuaternionAngleSymmetric(cfg.num, Quat(b), Quat(a));
    }
  }

  /** With a negative tolerance nothing matches: both distances are never
      negative and the test is `<=`. */
  lemma NothingNearBelowZero(cfg: Config, a: Row, b: Row)
    requires Lawful(cfg.num)
    requires cfg.shiftTolerance < 0.0 || cfg.angleTolerance < 0.0
    ensures !Near(cfg, a, b)
  {
    ShiftDifferenceNonNegative(cfg.num, Shift(a), Shift(b));
    NormZero(cfg.num, Quat(a));
    NormZero(cfg.num, Quat(b));
    if Norm(cfg.num, Quat(a)) != 0.0 && Norm(cfg.num, Quat(b)) != 0.0 {
      QuaternionAngleRange(cfg.num, Quat(a), Quat(b));
    }
  }

  lemma JoinsNothingBelowZero(cfg: Config, cand: Row, c: Cluster)
    requires Lawful(cfg.num)
    requires cfg.shiftTolerance < 0.0 || cfg.angleTolerance < 0.0
    ensures !Joins(Matches(cfg), cand, c)
  {
    forall i | 0 <= i < |c| ensures !Near(cfg, cand, c[i]) {
      NothingNearBelowZero(cfg, cand, c[i]);
    }
  }

  /** With a negative tolerance every placement becomes its own singleton
      cluster, in visiting order. */
  lemma {:induction false} NegativeToleranceSingletons(cfg: Config, cands: seq<Row>)
    requires Lawful(cfg.num)
    requires cfg.shiftTolerance < 0.0 || cfg.angleTolerance < 0.0
    ensures Build(Matches(cfg), cands) == Map(cands, Singleton)
    decreases |cands|
  {
    if |cands| > 0 {
      var n := |cands| - 1;
      var prev := Build(Matches(cfg), cands[..n]);
      NegativeToleranceSingletons(cfg, cands[..n]);
      forall j | 0 <= j < |prev| ensures !Joins(Matches(cfg), cands[n], prev[j]) {
        JoinsNothingBelowZero(cfg, cands[n], prev[j]);
      }
      assert Build(Matches(cfg), cands) == prev + [[cands[n]]];
      assert cands == cands[..n] + [cands[n]];
      MapConcat(cands[..n], [cands[n]], Singleton);
    }
  }

  /** The inner two loops of script/parse_log.py:163-183: scan the clusters
      in creation order and their rows in order, and stop at the first row
      the candidate matches. */
  method ScanForHit(cfg: Config, cand: Row, clusters: seq<Cluster>) returns (hit: bool, k: nat)
    ensures hit ==> k < |clusters| && Joins(Matches(cfg), cand, clusters[k])
    ensures hit ==> forall j :: 0 <= j < k ==> !Joins(Matches(cfg), cand, clusters[j])
    ensures !hit ==> forall j :: 0 <= j < |clusters| ==> !Joins(Matches(cfg), cand, clusters[j])
  {
    hit := false;
    k := 0;
    var ci := 0;
    while ci < |clusters|
      invariant 0 <= ci <= |clusters|
      invariant !hit
      invariant forall j :: 0 <= j < ci ==> !Joins(Matches(cfg), cand, clusters[j])
      decreases |clusters| - ci
    {
      var c := clusters[ci];
      var p := 0;
      while p < |c|
        invariant 0 <= p <= |c|
        invariant !hit ==> forall i :: 0 <= i < p ==> !Near(cfg, cand, c[i])
        invariant hit ==> k == ci && Joins(Matches(cfg), cand, c)
        decreases |c| - p, if hit then 0 else 1
      {
        var placement := c[p];
        if cand.mol == placement.mol {
          var shiftDiff := ShiftDifference(cfg.num, Shift(cand), Shift(placement));
          if shiftDiff <= cfg.shiftTolerance && AngleWithin(cfg.num, Quat(cand), Quat(placement), cfg.angleTolerance) {
            hit := true;
            k := ci;
            assert Near(cfg, cand, c[p]);
            break;
          }
        }
        p := p + 1;
      }
      if hit {
        break;
      }
      ci := ci + 1;
    }
  }

  /** The loop continued from clusters `cl` over the candidates still to
      visit. */
  function BuildFrom(near: Matcher, cl: seq<Cluster>, todo: seq<Row>): seq<Cluster>
    decreases |todo|
  {
    if |todo| == 0 then cl else BuildFrom(near, Insert(near, cl, todo[0]), todo[1..])
  }

  /** Continuing the loop over `todo` from where `done` left it is the loop
      over `done + todo`. */
  lemma {:induction false} BuildFromBuild(near: Matcher, done: seq<Row>, todo: seq<Row>)
    ensures BuildFrom(near, Build(near, done), todo) == Build(near, done + todo)
    decreases |todo|
  {
    if |todo| > 0 {
      BuildAppend(near, done, todo[0]);
      assert done + todo == (done + [todo[0]]) + todo[1..];
      BuildFromBuild(near, done + [todo[0]], todo[1..]);
    } else {
      assert done + todo == done;
    }
  }

  lemma BuildFromConcat(near: Matcher, cl: seq<Cluster>, a: seq<Row>, b: seq<Row>)
    ensures BuildFrom(near, cl, a + b) == BuildFrom(near, BuildFrom(near, cl, a), b)
    decreases |a|
  {
    if |a| > 0 {
      assert (a + b)[1..] == a[1..] + b;
      BuildFromConcat(near, Insert(near, cl, a[0]), a[1..], b);
    } else {
      assert a + b == b;
    }
  }

  /** The fold over the candidates is the fold over the rows of every
      molecule in turn. */
  lemma FoldStart(near: Matcher, log: Log)
    requires WellShaped(log) && Readable(log)
    ensures BuildFrom(near, [], MolRows(log, 0)) == Build(near, Candidates(log))
  {
    BuildFromBuild(near, [], Candidates(log));
    assert [] + Candidates(log) == MolRows(log, 0);
  }

  lemma FoldEnd(near: Matcher, cl: seq<Cluster>, log: Log)
    requires WellShaped(log) && Readable(log)
    ensures BuildFrom(near, cl, MolRows(log, log.nMol)) == cl
  {
  }

  lemma FoldMolecule(near: Matcher, cl: seq<Cluster>, log: Log, m: nat)
    requires WellShaped(log) && Readable(log)
    requires m < log.nMol
    ensures BuildFrom(near, cl, MolRows(log, m))
            == BuildFrom(near, BuildFrom(near, cl, QuatRows(log, m, 0)), MolRows(log, m + 1))
  {
    assert MolRows(log, m) == QuatRows(log, m, 0) + MolRows(log, m + 1);
    BuildFromConcat(near, cl, QuatRows(log, m, 0), MolRows(log, m + 1));
  }

  lemma FoldQuaternion(near: Matcher, cl: seq<Cluster>, log: Log, m: nat, q: nat)
    requires WellShaped(log) && Readable(log)
    requires m < log.nMol && q < log.nQuat
    ensures BuildFrom(near, cl, QuatRows(log, m, q))
            == BuildFrom(near, BuildFrom(near, cl, ShiftRows(log, m, q, 0)), QuatRows(log, m, q + 1))
  {
    assert QuatRows(log, m, q) == ShiftRows(log, m, q, 0) + QuatRows(log, m, q + 1);
    BuildFromConcat(near, cl, ShiftRows(log, m, q, 0), QuatRows(log, m, q + 1));
  }

  lemma FoldShift(near: Matcher, cl: seq<Cluster>, log: Log, m: nat, q: nat, s: nat)
    requires WellShaped(log) && Readable(log)
    requires m < log.nMol && q < log.nQuat && s < log.nShift
    ensures BuildFrom(near, cl, ShiftRows(log, m, q, s))
            == BuildFrom(near, Insert(near, cl, Entry(log, m, q, s)), ShiftRows(log, m, q, s + 1))
  {
    var later := ShiftRows(log, m, q, s + 1);
    assert ShiftRows(log, m, q, s) == [Entry(log, m, q, s)] + later;
    assert ([Entry(log, m, q, s)] + later)[1..] == later;
  }

  /** The innermost loop of script/parse_log.py:156-186: visit the shifts
      of quaternion q of molecule m in order, placing each row. */
  method ClusterShifts(cfg: Config, log: Log, m: nat, q: nat, clusters0: seq<Cluster>)
    returns (clusters: seq<Cluster>)
    requires WellShaped(log) && Readable(log)
    requires m < log.nMol && q < log.nQuat
    ensures clusters == BuildFrom(Matches(cfg), clusters0, ShiftRows(log, m, q, 0))
  {
    ghost var near := Matches(cfg);
    clusters := clusters0;
    var s := 0;
    while s < log.nShift
      invariant 0 <= s <= log.nShift
      invariant BuildFrom(near, clusters, ShiftRows(log, m, q, s))
                == BuildFrom(near, clusters0, ShiftRows(log, m, q, 0))
      decreases log.nShift - s
    {
      var row := Row(m, q, s, log.data[m][q][s][log.nIter - 1]);
      ghost var before := clusters;
      FoldShift(near, before, log, m, q, s);
      var hit, k := ScanForHit(cfg, row, clusters);
      if hit {
        clusters := clusters[k := clusters[k] + [row]];
      } else {
        clusters := clusters + [[row]];
      }
      InsertSpec(near, before, row);
      s := s + 1;
    }
  }

  /** The middle loop of script/parse_log.py:155-186: visit the quaternions
      of molecule m in order. */
  method ClusterQuats(cfg: Config, log: Log, m: nat, clusters0: seq<Cluster>)
    returns (clusters: seq<Cluster>)
    requires WellShaped(log) && Readable(log)
    requires m < log.nMol
    ensures clusters == BuildFrom(Matches(cfg), clusters0, QuatRows(log, m, 0))
  {
    ghost var near := Matches(cfg);
    clusters := clusters0;
    var q := 0;
    while q < log.nQuat
      invariant 0 <= q <= log.nQuat
      invariant BuildFrom(near, clusters, QuatRows(log, m, q))
                == BuildFrom(near, clusters0, QuatRows(log, m, 0))
      decreases log.nQuat - q
    {
      FoldQuaternion(near, clusters, log, m, q);
      clusters := ClusterShifts(cfg, log, m, q, clusters);
      q := q + 1;
    }
  }

  /** The clustering loop of script/parse_log.py:150-187 (and
      script/sort_sqd.py:20-53) over the log itself: three nested loops in
      index order, each placement either stacked onto the first matching
      cluster or appended as a new one. It builds exactly the fold `Build`
      over the candidates in loop order. */
  method ClusterLog(cfg: Config, log: Log) returns (clusters: seq<Cluster>)
    requires WellShaped(log) && Readable(log)
    ensures clusters == Build(Matches(cfg), Candidates(log))
  {
    ghost var near := Matches(cfg);
    ghost var target := BuildFrom(near, [], MolRows(log, 0));
    clusters := [];
    var m := 0;
    while m < log.nMol
      invariant 0 <= m <= log.nMol
      invariant BuildFrom(near, clusters, MolRows(log, m)) == target
      decreases log.nMol - m
    {
      FoldMolecule(near, clusters, log, m);
      clusters := ClusterQuats(cfg, log, m, clusters);
      m := m + 1;
    }
    FoldEnd(near, clusters, log);
    FoldStart(near, log);
  }
}
