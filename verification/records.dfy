/** The search log and the rows of a cluster table (script/parse_log.py,
    cluster_and_sort_sqd, and script/sort_sqd.py).

    The log is the 5-D array e_sqd_log indexed [mol][quat][shift][iteration]
    whose innermost vector holds the metrics of one placement: shift (3),
    quaternion (4), then the score columns. A row of a cluster table is
    [mol, quat, shift] stacked in front of the last iteration's vector. */
module Records {
  import Geometry

  /** One row of a cluster table. `metric` is the last-iteration vector of
      the placement; `Columns` gives the row as the stacked numpy vector. */
  datatype Row = Row(mol: nat, quatIdx: nat, shiftIdx: nat, metric: seq<real>)

  /** np.hstack(([mol_idx, quat_idx, shift_idx], metric)) */
  function Columns(r: Row): (c: seq<real>)
    ensures |c| == 3 + |r.metric|
  {
    [r.mol as real, r.quatIdx as real, r.shiftIdx as real] + r.metric
  }

  /** numpy basic slicing v[lo:hi] for non-negative bounds: it stops at the
      end of the vector instead of failing. */
  function Slice(v: seq<real>, lo: nat, hi: nat): (s: seq<real>)
    ensures lo <= hi <= |v| ==> s == v[lo..hi]
    ensures |v| <= lo || hi <= lo ==> s == []
    ensures lo < hi && lo < |v| < hi ==> s == v[lo..]
  {
    if hi <= lo || |v| <= lo then [] else v[lo..Geometry.Min(hi, |v|)]
  }

  /** The shift a placement is compared by: metric[0:3]. */
  function Shift(r: Row): seq<real> {
    Slice(r.metric, 0, 3)
  }

  /** The quaternion a placement is compared by: metric[3:7]. */
  function Quat(r: Row): seq<real> {
    Slice(r.metric, 3, 7)
  }

  /** The candidate reads its pose from the log vector (metric[0:3] and
      metric[3:7]), a stored placement from its row (columns 3:6 and 6:10)
      and its molecule from int(column 0). The two readings agree, so the
      model compares Shift and Quat on both sides. */
  lemma PoseColumns(r: Row)
    ensures Slice(Columns(r), 3, 6) == Shift(r)
    ensures Slice(Columns(r), 6, 10) == Quat(r)
    ensures Columns(r)[0].Floor == r.mol
  {
    var c := Columns(r);
    assert c[3..] == r.metric;
    if |r.metric| >= 3 {
      assert c[3..6] == r.metric[0..3];
    } else {
      assert Slice(c, 3, 6) == c[3..];
    }
    if |r.metric| >= 7 {
      assert c[6..10] == r.metric[3..7];
    } else if |r.metric| > 3 {
      assert Slice(c, 6, 10) == c[6..];
      assert c[6..] == r.metric[3..];
    }
  }

  /** Lexicographic order of (mol, quat, shift) indices: the order in which
      the three nested loops visit the log. */
  predicate Before(a: Row, b: Row) {
    || a.mol < b.mol
    || (a.mol == b.mol && a.quatIdx < b.quatIdx)
    || (a.mol == b.mol && a.quatIdx == b.quatIdx && a.shiftIdx < b.shiftIdx)
  }

  predicate StrictlyOrdered(rs: seq<Row>) {
    forall i, j :: 0 <= i < j < |rs| ==> Before(rs[i], rs[j])
  }

  /** A strictly ordered sequence holds no row twice. */
  lemma StrictlyOrderedDistinct(rs: seq<Row>, x: Row)
    requires StrictlyOrdered(rs)
    requires x in rs
    ensures multiset(rs)[x] == 1
  {
    var k :| 0 <= k < |rs| && rs[k] == x;
    assert rs == rs[..k] + [x] + rs[k + 1..];
    assert x !in rs[..k] by {
      forall i | 0 <= i < k ensures rs[..k][i] != x {
        assert Before(rs[i], rs[k]);
      }
    }
    assert x !in rs[k + 1..] by {
      forall j | k < j < |rs| ensures rs[j] != x {
        assert Before(rs[k], rs[j]);
      }
    }
    assert multiset(rs) == multiset(rs[..k]) + multiset{x} + multiset(rs[k + 1..]);
  }

  /** The search log e_sqd_log with its shape
      (N_mol, N_quat, N_shift, N_iter, width). */
  datatype Log = Log(nMol: nat, nQuat: nat, nShift: nat, nIter: nat, width: nat,
                     data: seq<seq<seq<seq<seq<real>>>>>)

  /** The nested sequences have the declared shape, as a numpy array does. */
  ghost predicate WellShaped(log: Log) {
    && |log.data| == log.nMol
    && (forall m :: 0 <= m < log.nMol ==> |log.data[m]| == log.nQuat)
    && (forall m, q :: 0 <= m < log.nMol && 0 <= q < log.nQuat ==>
          |log.data[m][q]| == log.nShift)
    && (forall m, q, s :: 0 <= m < log.nMol && 0 <= q < log.nQuat && 0 <= s < log.nShift ==>
          |log.data[m][q][s]| == log.nIter)
    && (forall m, q, s, t ::
          (0 <= m < log.nMol && 0 <= q < log.nQuat && 0 <= s < log.nShift && 0 <= t < log.nIter) ==>
          |log.data[m][q][s][t]| == log.width)
  }

  /** The log holds at least one placement. */
  predicate NonEmpty(log: Log) {
    0 < log.nMol && 0 < log.nQuat && 0 < log.nShift
  }

  /** The loops can read e_sqd_log[m, q, s, -1] for every placement they
      visit: a log that holds placements has at least one iteration. */
  predicate Readable(log: Log) {
    NonEmpty(log) ==> 0 < log.nIter
  }

  /** The row the loops build for placement (m, q, s). */
  function Entry(log: Log, m: nat, q: nat, s: nat): (r: Row)
    requires WellShaped(log) && Readable(log)
    requires m < log.nMol && q < log.nQuat && s < log.nShift
    ensures r.mol == m && r.quatIdx == q && r.shiftIdx == s
    ensures |r.metric| == log.width
  {
    Row(m, q, s, log.data[m][q][s][log.nIter - 1])
  }

  /** A row carries placement (m, q, s) of the log as its loops would build it. */
  ghost predicate FromLog(log: Log, r: Row)
    requires WellShaped(log) && Readable(log)
  {
    && r.mol < log.nMol && r.quatIdx < log.nQuat && r.shiftIdx < log.nShift
    && r == Entry(log, r.mol, r.quatIdx, r.shiftIdx)
  }

  /** Rows (m, q, s), (m, q, s + 1), ... in the order of the innermost loop. */
  function ShiftRows(log: Log, m: nat, q: nat, s: nat): (rs: seq<Row>)
    requires WellShaped(log) && Readable(log)
    requires m < log.nMol && q < log.nQuat
    ensures |rs| == if s <= log.nShift then log.nShift - s else 0
    ensures forall r :: r in rs ==>
      FromLog(log, r) && r.mol == m && r.quatIdx == q && s <= r.shiftIdx
    ensures forall s' :: s <= s' < log.nShift ==> Entry(log, m, q, s') in rs
    ensures StrictlyOrdered(rs)
    decreases log.nShift - s
  {
    if log.nShift <= s then []
    else
      var rest := ShiftRows(log, m, q, s + 1);
      assert forall s' :: s + 1 <= s' < log.nShift ==> Entry(log, m, q, s') in rest;
      [Entry(log, m, q, s)] + rest
  }

  /** Rows with molecule m and quaternion index q, q + 1, ... in loop order. */
  function QuatRows(log: Log, m: nat, q: nat): (rs: seq<Row>)
    requires WellShaped(log) && Readable(log)
    requires m < log.nMol
    ensures forall r :: r in rs ==> FromLog(log, r) && r.mol == m && q <= r.quatIdx
    ensures forall q', s' :: q <= q' < log.nQuat && 0 <= s' < log.nShift ==>
      Entry(log, m, q', s') in rs
    ensures StrictlyOrdered(rs)
    decreases log.nQuat - q
  {
    if log.nQuat <= q then []
    else
      var head := ShiftRows(log, m, q, 0);
      var rest := QuatRows(log, m, q + 1);
      assert forall q', s' :: q + 1 <= q' < log.nQuat && 0 <= s' < log.nShift ==>
        Entry(log, m, q', s') in rest;
      ConcatOrdered(head, rest);
      head + rest
  }

  /** Rows with molecule index m, m + 1, ... in loop order. */
  function MolRows(log: Log, m: nat): (rs: seq<Row>)
    requires WellShaped(log) && Readable(log)
    ensures forall r :: r in rs ==> FromLog(log, r) && m <= r.mol
    ensures forall m', q', s' :: m <= m' < log.nMol && 0 <= q' < log.nQuat && 0 <= s' < log.nShift ==>
      Entry(log, m', q', s') in rs
    ensures StrictlyOrdered(rs)
    decreases log.nMol - m
  {
    if log.nMol <= m then []
    else
      var head := QuatRows(log, m, 0);
      var rest := MolRows(log, m + 1);
      assert forall m', q', s' :: m + 1 <= m' < log.nMol && 0 <= q' < log.nQuat && 0 <= s' < log.nShift ==>
        Entry(log, m', q', s') in rest;
      ConcatOrdered(head, rest);
      head + rest
  }

  lemma {:induction false} QuatRowsLength(log: Log, m: nat, q: nat)
    requires WellShaped(log) && Readable(log)
    requires m < log.nMol
    ensures |QuatRows(log, m, q)| == if q <= log.nQuat then (log.nQuat - q) * log.nShift else 0
    decreases log.nQuat - q
  {
    if q < log.nQuat {
      QuatRowsLength(log, m, q + 1);
      assert (log.nQuat - q) * log.nShift == log.nShift + (log.nQuat - (q + 1)) * log.nShift;
    }
  }

  lemma {:induction false} MolRowsLength(log: Log, m: nat)
    requires WellShaped(log) && Readable(log)
    ensures |MolRows(log, m)| == if m <= log.nMol then (log.nMol - m) * (log.nQuat * log.nShift) else 0
    decreases log.nMol - m
  {
    if m < log.nMol {
      QuatRowsLength(log, m, 0);
      MolRowsLength(log, m + 1);
      var k := log.nQuat * log.nShift;
      assert (log.nMol - m) * k == k + (log.nMol - (m + 1)) * k;
    }
  }

  lemma ConcatOrdered(a: seq<Row>, b: seq<Row>)
    requires StrictlyOrdered(a) && StrictlyOrdered(b)
    requires forall x, y :: x in a && y in b ==> Before(x, y)
    ensures StrictlyOrdered(a + b)
  {
    forall i, j | 0 <= i < j < |a + b| ensures Before((a + b)[i], (a + b)[j]) {
      if j < |a| {
      } else if i < |a| {
        assert (a + b)[i] in a && (a + b)[j] in b;
      } else {
        assert (a + b)[i] == b[i - |a|] && (a + b)[j] == b[j - |a|];
      }
    }
  }

  /** The placements in the order the three nested loops visit them, each
      as the row the loops stack for it. */
  function Candidates(log: Log): (rs: seq<Row>)
    requires WellShaped(log) && Readable(log)
    ensures |rs| == log.nMol * (log.nQuat * log.nShift)
    ensures forall r :: r in rs <==> FromLog(log, r)
    ensures StrictlyOrdered(rs)
  {
    var rs := MolRows(log, 0);
    MolRowsLength(log, 0);
    forall r | FromLog(log, r) ensures r in rs {
      assert 0 <= r.mol < log.nMol && 0 <= r.quatIdx < log.nQuat && 0 <= r.shiftIdx < log.nShift;
    }
    rs
  }
}
