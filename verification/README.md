# Pose clustering and ranking in DiffFitViewer, in Dafny

DiffFitViewer fits molecules into a density map and records every trial in a
search log: a 5-D array `e_sqd_log[mol, quat, shift, iter, metric]`. Its
metric vector holds the shift (3 values), the quaternion (4 values) and
score columns. The engine modelled here turns that log into a ranked list
of pose clusters. Two copies of the engine exist:
`cluster_and_sort_sqd` in `script/parse_log.py` and the script
`script/sort_sqd.py`.

1. Every placement `(mol, quat, shift)` yields a row. The row is
   `[mol, quat, shift]` stacked in front of the metric vector of the last
   iteration.
2. The placements are visited in index order, and each one joins a cluster
   by first fit. It joins the first cluster, in creation order, that holds
   a row of the same molecule whose shift distance and quaternion angle are
   both within tolerance. Otherwise it opens a new singleton cluster at the
   end of the list.
3. Every cluster is sorted by descending score, and the clusters are then
   ordered by the score of their first row. `cluster_and_sort_sqd` sorts by
   column 12 and the script sorts by column 9. Otherwise the two copies are
   the same algorithm, so the model has one definition with the column as
   a parameter.

Modules:

- `Geometry` (geometry.dfy) holds `shift_difference` and
  `quaternion_angle_distance`.
  - Square root and arc cosine in degrees are passed in as a `Numerics`
    value.
  - `Lawful` states the facts about them that the model relies on.
  - The metric laws are proved from those facts.
- `Records` (records.dfy) holds the log, the rows, numpy slicing and the
  candidates in loop order.
- `Sequences` (sequences.dfy) holds generic facts about mapping and
  summing under permutation.
- `Clustering` (clustering.dfy) holds the first-fit loop.
  - `Build` is a left fold over any match relation.
  - `Matches` is the source's match test.
  - `ClusterLog` is the loop with its nested scans and breaks, proved equal
    to the fold.
- `Ranking` (ranking.dfy) sorts within each cluster and then orders the
  clusters.
- `ParseLog` (parse_log.dfy) and `SortSqd` (sort_sqd.dfy) model the two
  copies of the engine, including the errors the source raises.

Three behaviours of the code shape the model:

- `np.argsort`'s default sort is not stable, so nothing fixes the order of
  rows or clusters with equal scores. The model promises a permutation with
  non-increasing scores, and `Ranking.SortedKeysUnique` shows that these two
  facts fix the sequence of scores.
- A quaternion of nonzero length whose norm is zero gives NaN instead of an
  exception, and `NaN <= tolerance` is false. So such a pair never matches
  and the loop carries on. Two empty quaternion slices (metric vectors of at
  most three entries) give an angle of 180 degrees instead
  (`Geometry.AngleWithin`).
- For a five-dimensional log, `cluster_and_sort_sqd` raises IndexError in
  three cases, and `ParseLog.ClusterAndSortSqd` returns the matching `Error`
  for each:
  - a log with no placement (the representative table is empty at line 198);
  - a log with placements but no iteration (line 160);
  - a score column past the end of the rows (line 192).

## Model

| member | source | states |
|---|---|---|
| Geometry.ShiftDifference | script/parse_log.py:9-13 | shift_difference; its contract is stated by `ShiftDifferenceNonNegative`, `ShiftDifferenceSymmetric` and `ShiftDifferenceZeroIffEqual` |
| Geometry.QuaternionAngleDistance | script/parse_log.py:16-26 | quaternion_angle_distance for nonzero quaternions; its contract is stated by `QuaternionAngleRange`, `QuaternionAngleSymmetric`, `QuaternionAngleDoubleCover` and `QuaternionAngleSelf` |
| Geometry.AngleWithinDegenerate | script/parse_log.py:20-26 | two empty quaternion slices are within an angle tolerance exactly when it is at least 180 degrees; a quaternion of nonzero length and norm zero is never within tolerance |
| Geometry.NormZero | script/parse_log.py:13 | with a lawful square root, the norm is never negative and is 0 exactly when the squared norm is 0 |
| Geometry.ShiftDifferenceNonNegative | script/parse_log.py:9-13 | the shift distance is never negative, and its square is the sum of squared component differences |
| Geometry.ShiftDifferenceSymmetric | script/parse_log.py:9-13 | the shift distance does not depend on the order of the two shifts |
| Geometry.ShiftDifferenceZeroIffEqual | script/parse_log.py:9-13 | two shifts of the same length are at distance 0 exactly when they are identical, so a shift is at distance 0 from itself |
| Geometry.NormalizeUnit | script/parse_log.py:20-21 | dividing a quaternion with a positive squared norm by its norm gives a unit quaternion |
| Geometry.ClippedAbsDot | script/parse_log.py:22-24 | the clipped absolute dot product always lies in [0, 1] |
| Geometry.QuaternionAngleRange | script/parse_log.py:16-26 | the angle between two nonzero quaternions lies in [0, 180] degrees |
| Geometry.QuaternionAngleSymmetric | script/parse_log.py:16-26 | the angle does not depend on the order of the quaternions |
| Geometry.QuaternionAngleDoubleCover | script/parse_log.py:20-25 | negating either quaternion leaves the angle unchanged, since q and -q are the same rotation |
| Geometry.QuaternionAngleSelf | script/parse_log.py:16-26 | a quaternion is at angle 0 from itself and from its negation |
| Records.PoseColumns | script/parse_log.py:166-168 | in a stored row, columns 3:6 and 6:10 are the shift and quaternion slices of its metric vector, and int(column 0) is its molecule |
| Records.StrictlyOrderedDistinct | script/parse_log.py:154-156 | a sequence in strict loop order holds each row exactly once |
| Records.Entry | script/parse_log.py:177-179 | the row built for placement (m, q, s) carries m, q and s and the last-iteration metric vector; `Records.PoseColumns` and `ParseLog.RecordColumns` state which columns hold the shift and quaternion |
| Records.Candidates | script/parse_log.py:150-161 | the loops visit N_mol*N_quat*N_shift rows, exactly the rows the log yields, in strict index order |
| Clustering.Near | script/parse_log.py:166-173 | the match test: same molecule, shift distance and angle within tolerance; `NearSymmetric`, `NearSamePose` and `NothingNearBelowZero` state its laws |
| Clustering.FirstFit | script/parse_log.py:163-183 | the scan finds the lowest-index cluster holding a row the candidate matches, and finds none exactly when no cluster holds one |
| Clustering.InsertSpec | script/parse_log.py:163-187 | with no match the candidate opens a singleton at the end; otherwise it is appended to the lowest matching cluster and every other cluster is unchanged; it is held once more either way |
| Clustering.Insert | script/parse_log.py:163-187 | one step of the loop; `Clustering.InsertSpec`, `InsertChainLinked` and `InsertSameMolecule` state its contract |
| Clustering.Build | script/parse_log.py:154-187 | the loop as a fold over the candidates in visiting order; `BuildContents`, `BuildWellFormed` and `BuildSeparated` state its contract, and `Clustering.ClusterLog` shows that the nested loops compute it |
| Clustering.BuildContents | script/parse_log.py:154-187 | after the loop every candidate is held exactly as often as it was visited, in at most as many clusters as candidates |
| Clustering.InsertChainLinked | script/parse_log.py:164-180 | appending a candidate that matches some member keeps a cluster single-linked: every non-first row matched an earlier row |
| Clustering.InsertSameMolecule | script/parse_log.py:166 | with a matcher that only pairs rows of one molecule, appending keeps a cluster to one molecule |
| Clustering.BuildWellFormed | script/parse_log.py:163-187 | the loop never leaves a cluster empty, keeps every cluster single-linked and, with the source's test, never mixes molecules |
| Clustering.BuildSeparated | script/parse_log.py:163-187 | no row matches a row of an earlier cluster that was visited before it; otherwise first fit would have put it there |
| Clustering.UniqueHolder | script/parse_log.py:175-187 | a row held once overall sits in exactly one cluster, once |
| Clustering.SizesSum | script/sort_sqd.py:57 | the cluster sizes add up to the number of rows held |
| Clustering.NearSymmetric | script/parse_log.py:166-173 | with lawful numerics the match test is symmetric |
| Clustering.NearSamePose | script/parse_log.py:166-173 | two rows of one molecule with the same shift and the same or negated nonzero quaternion match whenever both tolerances are non-negative |
| Clustering.NothingNearBelowZero | script/parse_log.py:173 | with a negative tolerance no pair matches, because both distances are non-negative and the test is `<=` |
| Clustering.NegativeToleranceSingletons | script/parse_log.py:163-187 | with a negative tolerance every candidate becomes its own singleton cluster, in visiting order |
| Clustering.ScanForHit | script/parse_log.py:163-183 | the nested scan with its two breaks reports a hit exactly for the lowest-index cluster holding a matching row, and no hit when there is none |
| Clustering.ClusterShifts | script/parse_log.py:156-187 | the innermost loop places the rows of one quaternion as the fold does |
| Clustering.ClusterQuats | script/parse_log.py:155-187 | the middle loop places the rows of one molecule as the fold does |
| Clustering.ClusterLog | script/parse_log.py:150-187 | the three nested loops build exactly the first-fit fold over the candidates in loop order |
| Ranking.SortDescending | script/parse_log.py:192 | the sort returns a permutation of its input whose keys never increase |
| Ranking.SortedKeysUnique | script/parse_log.py:192 | any two sorted permutations of one sequence list the same keys in the same order, so only the order of equal keys is left open |
| Ranking.RankClusters | script/parse_log.py:192-199 | ranking keeps the number of clusters; each output cluster holds exactly the rows of one constructed cluster, so the list of sizes is permuted; every output cluster is sorted by descending score and the clusters by descending first-row score |
| Ranking.RepresentativeIsBest | script/parse_log.py:192-198 | in a cluster sorted by descending score, the first row scores at least as high as every row |
| Ranking.FirstRowsDescending | script/parse_log.py:195-199 | for clusters ordered by representative, none empty, the first rows' scores never increase |
| Ranking.RankClustersContents | script/parse_log.py:192-199 | ranking keeps the rows held, each as often as before |
| Ranking.RankClustersShape | script/parse_log.py:192-199 | ranking neither empties a cluster nor mixes molecules in one |
| ParseLog.ClusterAndSortSqd | script/parse_log.py:134-203 | cluster_and_sort_sqd; `ParseLog.Outcome` states when and how it fails, and `Partition`, `RankedContents`, `SizesSumToPlacements`, `ClusterShape` and `Ranked` state what it returns |
| ParseLog.Outcome | script/parse_log.py:150-198 | a readable log is ranked exactly when it yields a row and every row has the score column; an empty log fails on the representative table; placements without an iteration fail |
| ParseLog.Partition | script/parse_log.py:150-187 | every (mol, quat, shift) triple of the log lands in exactly one output cluster, once, and no cluster holds anything else |
| ParseLog.RankedContents | script/parse_log.py:150-199 | the output holds every candidate exactly once |
| ParseLog.SizesSumToPlacements | script/parse_log.py:150-187 | no output cluster is empty and the sizes add up to N_mol*N_quat*N_shift |
| ParseLog.ClusterShape | script/parse_log.py:166-199 | every output cluster is non-empty and holds rows of a single molecule |
| ParseLog.Ranked | script/parse_log.py:192-203 | the output permutes the loop's clusters, each sorted by descending score with its first row the best-scoring one, ordered by descending first-row score |
| ParseLog.RecordColumns | script/parse_log.py:160-187 | a stored row carries its own indices in columns 0-2, and in columns 3:6 and 6:10 exactly the last-iteration shift and quaternion that were compared |
| SortSqd.Run | script/sort_sqd.py:8-69 | the script run on a loaded log; `SortSqd.LensPositiveAndSum`, `OrderedLenPermutation` and `OrderedByColumnNine` state its contract |
| SortSqd.SameTolerances | script/sort_sqd.py:8-9 | the script's fixed tolerances 3.0 and 6.0 are the defaults of cluster_and_sort_sqd (script/parse_log.py:134), so both build the same clusters from a log |
| SortSqd.SameClustersAsParseLog | script/sort_sqd.py:20-53 | the script's clusters are those of cluster_and_sort_sqd with the same tolerances; the two ranked lists hold the same clusters and differ only in order |
| SortSqd.LensPositiveAndSum | script/sort_sqd.py:11-57 | every entry of e_sqd_clusters_len is at least 1, and the entries add up to N_mol*N_quat*N_shift |
| SortSqd.OrderedLenPermutation | script/sort_sqd.py:57-69 | e_sqd_clusters_ordered_len is a permutation of e_sqd_clusters_len |
| SortSqd.OrderedByColumnNine | script/sort_sqd.py:59-67 | each ordered cluster is sorted by column 9, and column 9 of the first rows never increases along the list |

## Left out

- `Ranking.SortDescending` fixes one order for equal scores. Its contract promises only a permutation with non-increasing keys, because `np.argsort`'s default sort is not stable and the source promises nothing about ties. The same holds for `Ranking.RankClusters`, `ParseLog.Ranked` and `SortSqd.OrderedByColumnNine`.
- Ranking is modelled as sorting the rows themselves. The source's argsort followed by fancy indexing is not modelled as such, because only the sorted result is observable.
- Square root, arc cosine and degrees are not computed; they are parameters constrained by `Geometry.Lawful`. Floating-point rounding is not modelled: values are exact reals.
- NaN scores are not modelled. They would make numpy's ordering differ from a descending sort.
- Rows keep their indices as natural numbers, whereas numpy stores them as floats. `Records.PoseColumns` shows that `int(column 0)` gives back the molecule index.
- The log is always a five-dimensional array whose nested rows have the declared shape (`Records.WellShaped`, a precondition). The ValueError that unpacking `e_sqd_log.shape` raises on an array of another rank (script/parse_log.py:150, script/sort_sqd.py:11) is not modelled, because a numpy array of rank five is rectangular by construction and the model's `Log` has no other rank.
- Iteration selection is fixed to the last iteration, as in the code. The alternative in the TODO at script/parse_log.py:159 is not modelled.
- `SortSqd.SameClustersAsParseLog` holds by construction: the script's loop is a token-for-token copy of the function's loop, so both use the one definition `Clustering.Build`.
- The viewer functions of script/parse_log.py, the Qt tool, and the script's `sys.path` and `np.load` lines (script/sort_sqd.py:1-6) are left out. They are scene changes, file I/O and UI. The model takes the loaded log as a parameter.
- Single linkage (`Clustering.ChainLinked`) is stated for the loop's clusters. It is not stated for the ranked clusters, because sorting reorders the rows.
