/** The script script/sort_sqd.py:8-69: the same clustering loop as
    cluster_and_sort_sqd with the tolerances fixed at 3.0 and 6.0, the
    cluster sizes before and after ranking, and the ranking by score column
    9 instead of 12.

    The script's loop is a copy of lines 154-187 of script/parse_log.py, so
    the model uses the one definition `Clustering.Build` for both; the
    script fails where cluster_and_sort_sqd fails (lines 28, 60 and 66). */
module SortSqd {
  import opened Geometry
  import opened Records
  import opened Sequences
  import opened Clustering
  import opened Ranking
  import ParseLog

  /** The score column of script/sort_sqd.py:60,66. */
  const ScoreColumn: nat := 9

  /** The tolerances of script/sort_sqd.py:8-9. */
  function ScriptConfig(num: Numerics): Config {
    Config(num, 3.0, 6.0)
  }

  /** The script's fixed tolerances are cluster_and_sort_sqd's defaults, so
      the script clusters as a call with default tolerances does. */
  lemma SameTolerances(num: Numerics, log: Log)
    requires WellShaped(log) && Readable(log)
    ensures ScriptConfig(num) == ParseLog.DefaultConfig(num)
    ensures ParseLog.LoopClusters(ScriptConfig(num), log) == ParseLog.LoopClusters(ParseLog.DefaultConfig(num), log)
  {
  }

  /** What the script leaves behind: e_sqd_clusters_len (line 57),
      e_sqd_clusters_ordered (line 67) and e_sqd_clusters_ordered_len
      (line 69). */
  datatype Report = Report(clustersLen: seq<nat>, clustersOrdered: seq<Cluster>, orderedLen: seq<nat>)

  /** The script run on a loaded log. */
  function Run(num: Numerics, log: Log): ParseLog.Result<Report>
    requires WellShaped(log)
  {
    var cfg := ScriptConfig(num);
    match ParseLog.ClusterAndSortSqd(cfg, log, ScoreColumn)
    case Failure(e) => ParseLog.Failure(e)
    case Success(ordered) =>
      var clusters := ParseLog.LoopClusters(cfg, log);
      ParseLog.Success(Report(Map(clusters, Size), ordered, Map(ordered, Size)))
  }

  /** The script builds the same clusters, in the same creation order, as
      cluster_and_sort_sqd with the same tolerances; the ranked lists of
      the two hold the same clusters and differ only in the column they are
      ordered by. */
  lemma SameClustersAsParseLog(num: Numerics, log: Log)
    requires WellShaped(log) && ParseLog.Rankable(log, ScoreColumn)
    ensures 3 + log.width > ParseLog.ScoreColumn ==>
      ParseLog.ClusterAndSortSqd(ScriptConfig(num), log, ParseLog.ScoreColumn).Success? &&
      multiset(Map(Run(num, log).value.clustersOrdered, Bag)) ==
      multiset(Map(ParseLog.ClusterAndSortSqd(ScriptConfig(num), log, ParseLog.ScoreColumn).value, Bag))
  {
    var cfg := ScriptConfig(num);
    ParseLog.Ranked(cfg, log, ScoreColumn);
    if 3 + log.width > ParseLog.ScoreColumn {
      ParseLog.Ranked(cfg, log, ParseLog.ScoreColumn);
    }
  }

  /** Every entry of e_sqd_clusters_len is at least 1 and they add up to
      N_mol * N_quat * N_shift. */
  lemma LensPositiveAndSum(num: Numerics, log: Log)
    requires WellShaped(log) && ParseLog.Rankable(log, ScoreColumn)
    ensures forall i :: 0 <= i < |Run(num, log).value.clustersLen| ==> Run(num, log).value.clustersLen[i] >= 1
    ensures Sum(Run(num, log).value.clustersLen) == log.nMol * (log.nQuat * log.nShift)
  {
    var cfg := ScriptConfig(num);
    var clusters := ParseLog.LoopClusters(cfg, log);
    BuildWellFormed(Matches(cfg), Candidates(log));
    BuildContents(Matches(cfg), Candidates(log));
    SizesSum(clusters);
    assert |Contents(clusters)| == |multiset(Candidates(log))| == |Candidates(log)|;
  }

  /** e_sqd_clusters_ordered_len is a permutation of e_sqd_clusters_len:
      ordering neither adds, drops nor resizes a cluster. */
  lemma OrderedLenPermutation(num: Numerics, log: Log)
    requires WellShaped(log) && ParseLog.Rankable(log, ScoreColumn)
    ensures multiset(Run(num, log).value.orderedLen) == multiset(Run(num, log).value.clustersLen)
  {
    assert Run(num, log).value.clustersOrdered ==
           RankClusters(ParseLog.LoopClusters(ScriptConfig(num), log), ScoreColumn);
  }

  /** Each cluster of e_sqd_clusters_ordered is sorted by column 9, and
      column 9 of the first rows never increases along the list. */
  lemma OrderedByColumnNine(num: Numerics, log: Log)
    requires WellShaped(log) && ParseLog.Rankable(log, ScoreColumn)
    ensures forall i :: 0 <= i < |Run(num, log).value.clustersOrdered| ==>
              Descending(Run(num, log).value.clustersOrdered[i], RowKey(9))
    ensures NoEmptyCluster(Run(num, log).value.clustersOrdered)
    ensures forall i, j :: 0 <= i < j < |Run(num, log).value.clustersOrdered| ==>
              Score(Run(num, log).value.clustersOrdered[i][0], 9) >=
              Score(Run(num, log).value.clustersOrdered[j][0], 9)
  {
    var cfg := ScriptConfig(num);
    ParseLog.Ranked(cfg, log, ScoreColumn);
    ParseLog.ClusterShape(cfg, log, ScoreColumn);
    FirstRowsDescending(Run(num, log).value.clustersOrdered, 9);
  }
}
