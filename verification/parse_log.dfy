/** cluster_and_sort_sqd (script/parse_log.py:134-203): cluster the
    placements of a search log by first fit and rank the clusters by the
    score in column `col` (12 in the source).

    The function fails where the source raises IndexError:
    - a log with no placement leaves no representative, and indexing the
      empty representative table at line 198 fails;
    - a log with placements but no iteration cannot be read at line 160;
    - a score column past the end of the rows fails at line 192. */
module ParseLog {
  import opened Geometry
  import opened Records
  import opened Sequences
  import opened Clustering
  import opened Ranking

  /** The score column of script/parse_log.py:192,198. */
  const ScoreColumn: nat := 12

  /** The default tolerances of script/parse_log.py:134. */
  const DefaultShiftTolerance: real := 3.0
  const DefaultAngleTolerance: real := 6.0

  datatype Error = EmptyRepresentativeTable | MissingIteration | ScoreColumnOutOfRange

  datatype Result<T> = Success(value: T) | Failure(error: Error)

  /** The configuration of a call that leaves both tolerances at their
      defaults. */
  function DefaultConfig(num: Numerics): Config {
    Config(num, DefaultShiftTolerance, DefaultAngleTolerance)
  }

  /** The clusters in creation order, as the loop of lines 150-187 leaves
      them. */
  function LoopClusters(cfg: Config, log: Log): seq<Cluster>
    requires WellShaped(log) && Readable(log)
  {
    Build(Matches(cfg), Candidates(log))
  }

  /** The log can be ranked on column col: it holds a placement, has an
      iteration to read, and its rows reach column col. */
  predicate Rankable(log: Log, col: nat) {
    NonEmpty(log) && 0 < log.nIter && col < 3 + log.width
  }

  /** The ranked clusters, or the error the source raises. */
  function ClusterAndSortSqd(cfg: Config, log: Log, col: nat): Result<seq<Cluster>>
    requires WellShaped(log)
  {
    if !NonEmpty(log) then Failure(EmptyRepresentativeTable)
    else if log.nIter == 0 then Failure(MissingIteration)
    else if 3 + log.width <= col then Failure(ScoreColumnOutOfRange)
    else Success(RankClusters(LoopClusters(cfg, log), col))
  }

  /** A readable log is ranked exactly when it holds a placement and every
      row it yields has the score column; the failure says which of the two
      is missing. A log with placements but no iteration always fails. */
  lemma Outcome(cfg: Config, log: Log, col: nat)
    requires WellShaped(log)
    ensures !Readable(log) ==> ClusterAndSortSqd(cfg, log, col) == Failure(MissingIteration)
    ensures Readable(log) ==>
      (ClusterAndSortSqd(cfg, log, col).Success? <==>
         0 < |Candidates(log)| && forall r :: r in Candidates(log) ==> col < |Columns(r)|)
    ensures Readable(log) && |Candidates(log)| == 0 ==>
      ClusterAndSortSqd(cfg, log, col) == Failure(EmptyRepresentativeTable)
  {
    if Readable(log) {
      var rs := Candidates(log);
      if NonEmpty(log) {
        assert 0 < log.nQuat * log.nShift;
        assert 0 < |rs|;
        var r := Entry(log, 0, 0, 0);
        assert r in rs;
        assert |Columns(r)| == 3 + log.width;
      } else {
        assert |rs| == 0 by {
          if log.nMol != 0 && log.nQuat != 0 {
            assert log.nShift == 0;
          }
        }
      }
    }
  }

  /** Every placement (m, q, s) of the log yields one row, and that row
      lands in exactly one output cluster, once; no cluster holds anything
      else. */
  lemma Partition(cfg: Config, log: Log, col: nat, x: Row)
    requires WellShaped(log) && Rankable(log, col)
    ensures FromLog(log, x) ==>
      var out := ClusterAndSortSqd(cfg, log, col).value;
      exists i :: 0 <= i < |out| && multiset(out[i])[x] == 1 &&
                  forall j :: 0 <= j < |out| && j != i ==> x !in out[j]
    ensures forall i :: (0 <= i < |ClusterAndSortSqd(cfg, log, col).value| &&
                         x in ClusterAndSortSqd(cfg, log, col).value[i]) ==> FromLog(log, x)
  {
    var out := ClusterAndSortSqd(cfg, log, col).value;
    RankedContents(cfg, log, col);
    if FromLog(log, x) {
      StrictlyOrderedDistinct(Candidates(log), x);
      UniqueHolder(out, x);
    }
    forall i | 0 <= i < |out| && x in out[i] ensures FromLog(log, x) {
      ContentsHolds(out, i, x);
    }
  }

  /** The output holds every candidate once: the ranking only permutes the
      loop's clusters, which hold each candidate once. */
  lemma RankedContents(cfg: Config, log: Log, col: nat)
    requires WellShaped(log) && Rankable(log, col)
    ensures Contents(ClusterAndSortSqd(cfg, log, col).value) == multiset(Candidates(log))
  {
    BuildContents(Matches(cfg), Candidates(log));
    RankClustersContents(LoopClusters(cfg, log), col);
  }

  /** Every cluster holds at least one row and the sizes add up to
      N_mol * N_quat * N_shift. */
  lemma SizesSumToPlacements(cfg: Config, log: Log, col: nat)
    requires WellShaped(log) && Rankable(log, col)
    ensures NoEmptyCluster(ClusterAndSortSqd(cfg, log, col).value)
    ensures Sum(Map(ClusterAndSortSqd(cfg, log, col).value, Size)) == log.nMol * (log.nQuat * log.nShift)
  {
    var out := ClusterAndSortSqd(cfg, log, col).value;
    var rs := Candidates(log);
    RankedContents(cfg, log, col);
    SizesSum(out);
    assert |Contents(out)| == |multiset(rs)| == |rs|;
    ClusterShape(cfg, log, col);
  }

  /** No output cluster is empty, and the rows of a cluster all belong to
      one molecule. */
  lemma ClusterShape(cfg: Config, log: Log, col: nat)
    requires WellShaped(log) && Rankable(log, col)
    ensures NoEmptyCluster(ClusterAndSortSqd(cfg, log, col).value)
    ensures forall i :: 0 <= i < |ClusterAndSortSqd(cfg, log, col).value| ==>
              SameMolecule(ClusterAndSortSqd(cfg, log, col).value[i])
  {
    var built := LoopClusters(cfg, log);
    BuildWellFormed(Matches(cfg), Candidates(log));
    assert SameMoleculeOnly(Matches(cfg));
    RankClustersShape(built, col);
  }

  /** The output is the loop's clusters, each sorted by descending score,
      listed by descending representative score, with each representative
      the best-scoring row of its cluster. */
  lemma Ranked(cfg: Config, log: Log, col: nat)
    requires WellShaped(log) && Rankable(log, col)
    ensures |ClusterAndSortSqd(cfg, log, col).value| == |LoopClusters(cfg, log)|
    ensures multiset(Map(ClusterAndSortSqd(cfg, log, col).value, Bag)) ==
            multiset(Map(LoopClusters(cfg, log), Bag))
    ensures forall i :: 0 <= i < |ClusterAndSortSqd(cfg, log, col).value| ==>
              Descending(ClusterAndSortSqd(cfg, log, col).value[i], RowKey(col))
    ensures Descending(ClusterAndSortSqd(cfg, log, col).value, RepKey(col))
    ensures NoEmptyCluster(ClusterAndSortSqd(cfg, log, col).value)
    ensures forall i, x :: 0 <= i < |ClusterAndSortSqd(cfg, log, col).value| &&
                           x in ClusterAndSortSqd(cfg, log, col).value[i] ==>
              Score(x, col) <= Score(ClusterAndSortSqd(cfg, log, col).value[i][0], col)
  {
    var out := ClusterAndSortSqd(cfg, log, col).value;
    assert out == RankClusters(LoopClusters(cfg, log), col);
    ClusterShape(cfg, log, col);
    forall i | 0 <= i < |out|
      ensures forall x :: x in out[i] ==> Score(x, col) <= Score(out[i][0], col)
    {
      RepresentativeIsBest(out[i], col);
    }
  }

  /** A stored row carries its own indices in columns 0-2, and in columns
      3:6 and 6:10 exactly the last-iteration shift and quaternion of its
      placement, which are what a later candidate is compared with. */
  lemma RecordColumns(log: Log, x: Row)
    requires WellShaped(log) && Readable(log)
    requires FromLog(log, x)
    ensures Columns(x)[..3] == [x.mol as real, x.quatIdx as real, x.shiftIdx as real]
    ensures Slice(Columns(x), 3, 6) == Slice(log.data[x.mol][x.quatIdx][x.shiftIdx][log.nIter - 1], 0, 3)
    ensures Slice(Columns(x), 6, 10) == Slice(log.data[x.mol][x.quatIdx][x.shiftIdx][log.nIter - 1], 3, 7)
  {
    PoseColumns(x);
  }
}
