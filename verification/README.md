# Drone-detection station: models and proofs

A Dafny model of the computational core of the station software: the assignment solver and the
multi-object tracker behind its camera, the box filter, the detector's last stage, the frames and
the streaming receiver of its links, the list of device servers, and the worker pool of its
asynchronous logger. `dafny verify dfyconfig.toml` checks the whole project.

## How it is organised

* **Assignment solver** (`Permutations`, `Assignment`, `ColumnReduction`, `RowReduction`,
  `ShortestPath`, `PathSearch`, `Lapjv`): the Jonker-Volgenant algorithm on its index arrays. All
  phases keep one invariant, that each assigned column is a minimum of its row under the current
  prices; at the end, linear programming duality turns it into optimality. Mid-run only
  `y[j] >= 0 ==> x[y[j]] == j` holds, because a displaced row keeps its entry in `x`.
* **Thresholded matching** (`LinearAssignment`, `Iou`, `Pixels`, `Association`): the padding that
  reduces a partial matching with a threshold to a square problem, proved in both directions, and the
  overlap distances, which count pixels.
* **Tracker** (`Tracks`, `Duplicates`, `TrackerFrame`, `TrackerSteps`, `TrackerEffects`,
  `TrackerStages`, `TrackerOutcome`, `TrackerFinish`, `TrackerRuns`, `TrackerLaws`, `ByteTracker`):
  one frame of the tracker as a class whose methods change its lists in place. The invariant of
  whole runs is `Valid()`; within a frame a ghost map says which object each track has been given, a
  ghost record (`Steps`) what each stage took, chose and changed, and `Outcome` gives the fate of a
  track as a function of its object. `TrackerRuns` follows identifiers from frame to frame, and
  `TrackerLaws` tells a frame in the fields of the tracks and in the numbers of the program.
* **Box filter** (`DenseMatrix`, `Kalman`, `KalmanForm`, `KalmanRuns`, `KalmanGains`, `BoxFilter`):
  the dense 8x8 filter and the four 2-state filters it amounts to, related over whole runs, the
  gains of a track's first frames as numbers, and these filters as the motion of the tracker's
  boxes.
* **Detector** (`Nms`): Hoare's quicksort in place, then greedy suppression.
* **Links** (`Crc`, `Frames`, `Upload`, `Receiver`): the checksum against a bit-serial register,
  one description of the frame for two builders and two receivers, and the slice-wise receiver
  against a machine that takes one byte at a time.
* **Logger pool** (`RingQueue`, `ThreadPool`): the ring as a class; the pool as a state machine whose
  runs are all interleavings of producers, workers and the destructor.
* **Device servers** (`Registry`): the linked list and its port allocator.

Machine words of the checksum are modelled bit by bit, so that each operator of the source is one
definition. The frame check sequence is the one of RFC 1662, appendix C.2, without the final
complement.

## Where the code falls short

Some statements that one would expect are false of the code. The model keeps the code as it is, the
proofs give an input for each failure and say exactly when the code does what is expected.

* A cost matrix with rows but no columns is reported as fully matched to column 0
  (`LinearAssignment.EmptyRowsAreMisreported`, `LinearAssignment.Assign`); all other matrices are
  matched as promised. The program itself never builds such a matrix: its only source of matrices
  gives none at all when a side is empty (`Iou.IouDistance`), so every association of the tracker is
  a partial matching (`Association.Associate`).
* A Kalman correction keeps the covariance positive definite only if the height estimate is not
  zero (`KalmanRuns.CorrectKeepsDefinite`). Two frames with positive measured heights suffice to get
  there (`KalmanGains.DefinitenessIsLost`).
* The predicted height of a box can be negative; in the third frame this is so exactly for tracks of the
  first frame whose second height is below 9/130 of the first (`BoxFilter.HeightTurnsNegative`). The tracker's results
  hold for such boxes as well, because the overlap of any two boxes lies between 0 and 1 (`Iou.IoU`);
  for the program's filter the boxes of a frame have non-negative size exactly when the predicted ones
  have (`BoxFilter.FrameStaysSized`).
* The serial receiver counts the bytes under the checksum in sixteen bits. At the eight frame lengths
  from 65539 to 65546 bytes it rejects frames that are right and accepts frames that are wrong; at all
  other lengths it agrees with the network codec (`Frames.WhereChecksAgree`).
* Removing a device server takes along every server between the head and it
  (`Registry.RemovalLoses`), and after a second registration a device can be told the wrong port
  (`Registry.AnswerIsRight`, `Registry.SecondRegistration`). The program has one
  caller of the registration (src/app/radars_network/radar_network.c:129); after one registration
  every device is told its own port (`Registry.DeviceIsToldItsPort`).
* The destructor of a worker pool whose queue has capacity 0 never returns
  (`ThreadPool.NoRoomNoShutdown`).

## Model

| member | source | states |
|---|---|---|
| `ColumnReduction.ColumnMinima` | src/srv/algs/yolov8_infer/lapjv.cpp:15-29 | for costs below the sentinel, every column price is the least cost of its column and `y` names a row that attains it |
| `ColumnReduction.ClaimRows` | src/srv/algs/yolov8_infer/lapjv.cpp:32-47 | the right-to-left sweep leaves a matching; every row that is a column minimum keeps the rightmost such column, and a column that lost out marks its row as not unique |
| `ColumnReduction.LeastElsewhere` | src/srv/algs/yolov8_infer/lapjv.cpp:55-64 | the least reduced cost of a row away from its own column, or the sentinel if there is no other column |
| `ColumnReduction.TransferRow` | src/srv/algs/yolov8_infer/lapjv.cpp:53-67 | lowering the price of a uniquely claimed column keeps every assigned column a minimum of its row, and changes no other price |
| `ColumnReduction.CcrrtDense` | src/srv/algs/yolov8_infer/lapjv.cpp:9-71 | afterwards every assigned column is a row minimum of cost minus price, and the listed rows are exactly the unmatched ones, each once |
| `RowReduction.SentinelBound` | src/srv/algs/yolov8_infer/lapjv.cpp:96-146 | while a row is unmatched, all prices lie within the cost span of the costs and all reduced costs between 0 and twice the span, so the sentinel 1000000 never stands for a real minimum |
| `RowReduction.FreeColumnExists` | src/srv/algs/yolov8_infer/lapjv.cpp:239-253 | as long as a row is unmatched there is a free column for the search to end in |
| `RowReduction.TwoSmallest` | src/srv/algs/yolov8_infer/lapjv.cpp:97-116 | the loop finds a least reduced cost of the row and the least one among the other columns; there is no second column only if n is 1 |
| `RowReduction.AssignKeepsTight` | src/srv/algs/yolov8_infer/lapjv.cpp:117-128 | giving a row its cheapest column at a price lowered by the gap to the second keeps every assigned column a row minimum |
| `RowReduction.AssignKeepsFreeRows` | src/srv/algs/yolov8_infer/lapjv.cpp:129-145 | after one assignment the unmatched rows are the old ones without the assigned row and with the displaced one, although the displaced row keeps its stale entry in `x` |
| `RowReduction.ReplaceLiveRow` | src/srv/algs/yolov8_infer/lapjv.cpp:129-142 | the two regions of the one array `free_rows` (rows put aside, rows still to read) never overlap: writing a displaced row into either replaces exactly the row just read |
| `RowReduction.ReducePass` | src/srv/algs/yolov8_infer/lapjv.cpp:88-146 | one pass keeps matching, prices and the list of unmatched rows; it advances by one row, or stays only while the pass counter is below (current + 1) * n |
| `RowReduction.CarrDense` | src/srv/algs/yolov8_infer/lapjv.cpp:76-148 | row reduction ends after at most n_free * (n + 1) passes although it pushes rows back, with no more unmatched rows than before and all of them listed |
| `PathSearch.FindDense` | src/srv/algs/yolov8_infer/lapjv.cpp:153-169 | moves exactly the unsettled columns at the least distance to the front, keeping `cols` a permutation and its settled part as it was |
| `PathSearch.ScanCell` | src/srv/algs/yolov8_infer/lapjv.cpp:190-204 | one relaxation keeps the frontier of the search, or ends it with a free column at the least distance |
| `PathSearch.ScanDense` | src/srv/algs/yolov8_infer/lapjv.cpp:174-209 | scanning empties the level or stops at a free column; in the second case the caller keeps its old `lo` and `hi`, on which the price update relies |
| `PathSearch.SearchLevel` | src/srv/algs/yolov8_infer/lapjv.cpp:239-262 | one round settles at least one more column or finds the closest free column, so the search ends |
| `ShortestPath.RepricedTight` | src/srv/algs/yolov8_infer/lapjv.cpp:264-272 | moving the prices of the ready columns by their distance minus the final one keeps every assigned edge a row minimum |
| `ShortestPath.TrailIsPath` | src/srv/algs/yolov8_infer/lapjv.cpp:238-278 | following `pred` from any reached column leads to the start row without repeating a column, and after the price update every edge on the way is a row minimum |
| `Lapjv.UpdatePrices` | src/srv/algs/yolov8_infer/lapjv.cpp:266-272 | exactly the ready columns are repriced, each by its distance minus the least one |
| `Lapjv.FindPathDense` | src/srv/algs/yolov8_infer/lapjv.cpp:218-278 | given a free column the search ends in one; the new prices keep all assigned edges tight and make the whole augmenting path tight |
| `Lapjv.Augment` | src/srv/algs/yolov8_infer/lapjv.cpp:293-312 | walking back along `pred` swaps exactly the edges of the path and ends at the start row |
| `Lapjv.FlipMatching` | src/srv/algs/yolov8_infer/lapjv.cpp:300-312 | swapping the edges of an augmenting path of a matching gives a matching |
| `Lapjv.FlipStatus` | src/srv/algs/yolov8_infer/lapjv.cpp:300-312 | the swap matches the start row and leaves the status of every other row as it was |
| `Lapjv.AugmentRow` | src/srv/algs/yolov8_infer/lapjv.cpp:297-312 | one augmentation raises the set of matched rows by exactly the start row and keeps all assigned edges tight |
| `Lapjv.CaDense` | src/srv/algs/yolov8_infer/lapjv.cpp:283-316 | after augmentation every row is matched and every assigned edge is tight; the return value is 0 |
| `Assignment.TightIsCheapest` | src/srv/algs/yolov8_infer/lapjv.cpp:321-343 | duality: a complete matching all of whose edges are row minima of cost minus price costs no more than any permutation, and `x` and `y` are inverse permutations |
| `Lapjv.LapjvInternal` | src/srv/algs/yolov8_infer/lapjv.cpp:321-343 | for every n >= 1 and costs of bounded span, returns 0 with inverse permutations `x`, `y` of least total cost |
| `LinearAssignment.PaddedCost` | src/srv/algs/yolov8_infer/utils.cpp:294-348 | the cost of a permutation of the padded matrix is the gain of the partial matching it restricts to, plus a constant |
| `LinearAssignment.ComplementPermutation` | src/srv/algs/yolov8_infer/utils.cpp:294-348 | every partial matching extends to a permutation of the padded matrix that restricts to it again |
| `LinearAssignment.PaddedIsBest` | src/srv/algs/yolov8_infer/utils.cpp:376-392 | a cheapest permutation of the padded matrix restricts to a partial matching of least total (cost - threshold) among all partial matchings |
| `LinearAssignment.BestPairsWithinThreshold` | src/srv/algs/yolov8_infer/utils.cpp:117-157 | in a best thresholded matching every pair costs at most the threshold |
| `LinearAssignment.ExtendCost` | src/srv/algs/yolov8_infer/utils.cpp:294-348 | the fill and overwrite loops build the padded matrix: costs, half thresholds, zeros |
| `LinearAssignment.SolveExtended` | src/srv/algs/yolov8_infer/utils.cpp:350-392 | row and column solutions are mutually inverse and form a best thresholded matching |
| `LinearAssignment.LapjvExtended` | src/srv/algs/yolov8_infer/utils.cpp:266-423 | with at least one column: a best thresholded matching, its column view, and the sum of its pair costs; with rows but no column: every row is reported as matched to column 0, as the code does |
| `LinearAssignment.EmptyRowsAreMisreported` | src/srv/algs/yolov8_infer/utils.cpp:376-412 | concrete failure for a matrix of rows without columns: the reported solution is no partial matching |
| `LinearAssignment.ListPairs` | src/srv/algs/yolov8_infer/utils.cpp:135-148 | the loop lists the matched pairs and the unmatched rows of the row solution |
| `LinearAssignment.ListsPartition` | src/srv/algs/yolov8_infer/utils.cpp:135-156 | matches and the two unmatched lists partition rows and columns exactly, and no row or column occurs in two matches |
| `LinearAssignment.Assign` | src/srv/algs/yolov8_infer/utils.cpp:117-157 | the lists are those of a partial matching if and only if the matrix is empty or has a column; then they are those of a best thresholded one, and an empty matrix leaves everything unmatched |
| `Iou.IoU` | src/srv/algs/yolov8_infer/utils.cpp:171-196 | for any two boxes, also of negative size, intersection over union lies between 0 and 1; what it counts is `Pixels.DistanceCountsPixels` |
| `Iou.InsideShare` | src/srv/algs/yolov8_infer/utils.cpp:171-196 | a box inside another overlaps it by its share of the other's pixel-inclusive area |
| `Iou.SameBox` | src/srv/algs/yolov8_infer/utils.cpp:171-196 | a box of non-negative size has distance 0 to itself |
| `Iou.ApartExactly` | src/srv/algs/yolov8_infer/utils.cpp:171-196 | the distance is 1 if and only if the boxes are a whole pixel apart in one direction |
| `Iou.DistanceSymmetric` | src/srv/algs/yolov8_infer/utils.cpp:171-196 | the distance does not depend on the order of the boxes |
| `Pixels.DistanceCountsPixels` | src/srv/algs/yolov8_infer/utils.cpp:171-232 | for boxes with whole corners, of any size, 1 - distance is the number of pixels in both over the number of pixels in either, the boxes taken as finite sets of points |
| `Iou.IouDistance` | src/srv/algs/yolov8_infer/utils.cpp:202-237 | for any boxes, the matrix of 1 - IoU, every entry in [0, 1]; no matrix at all if a side is empty |
| `Tracks.JointDistinct` | src/srv/algs/yolov8_infer/utils.cpp:25-44 | joining lists keeps identifiers distinct even if the second list repeats them |
| `Tracks.JointIds` | src/srv/algs/yolov8_infer/utils.cpp:25-44 | joining lists gives exactly the union of the identifiers |
| `Tracks.SubStracks` | src/srv/algs/yolov8_infer/utils.cpp:46-70 | the difference has exactly the identifiers of the first list that are not in the second, strictly ascending; of several tracks of the first list with one identifier the first one stays |
| `Duplicates.ClosePairs` | src/srv/algs/yolov8_infer/utils.cpp:74-85 | the loops find exactly the pairs at distance below 0.15 |
| `Duplicates.SurvivorsApart` | src/srv/algs/yolov8_infer/utils.cpp:72-115 | no surviving pair of a tracked and a lost track is at distance below 0.15 |
| `Duplicates.LongestStays` | src/srv/algs/yolov8_infer/utils.cpp:72-115 | in the fields of the tracks: of a close pair (below 0.15) the one with the smaller frame_id - start_frame is missing, on a tie the one of the first list, and a track stays if and only if it outlives all its close ones |
| `Duplicates.ChainToSurvivor` | src/srv/algs/yolov8_infer/utils.cpp:87-114 | from every dropped track a chain of close pairs, along which frame_id - start_frame never decreases, leads to a track that stays |
| `Duplicates.RemoveDuplicates` | src/srv/algs/yolov8_infer/utils.cpp:72-115 | both lists keep their order and lose exactly the tracks that do not outlive a close one; a tie goes to the second list |
| `Association.Associate` | src/srv/algs/yolov8_infer/BYTETracker.cpp:91-97 | one association: one-to-one pairs, exact left-over lists in ascending order, and a matching of least total (distance - threshold) with every pair within the threshold |
| `TrackerSteps.SplitDetections` | src/srv/algs/yolov8_infer/BYTETracker.cpp:41-76 | every object becomes the detection of its own rectangle and score; exactly those of score at least 0.5 are in the first list and exactly the others in the second, in order |
| `ByteTracker.BYTETracker.constructor` | src/srv/algs/yolov8_infer/BYTETracker.cpp:4-13 | a new tracker meets the invariant, with no track and no identifier issued |
| `ByteTracker.BYTETracker.BuildPools` | src/srv/algs/yolov8_infer/BYTETracker.cpp:78-88 | the pool of the first association is exactly the activated tracks and then all lost ones, and the unconfirmed list exactly the others, each in list order |
| `ByteTracker.BYTETracker.MultiPredict` | src/srv/algs/yolov8_infer/STrack.cpp:182-194 | predicts exactly the tracks of the pool, in place, with zero height velocity for those not in state Tracked |
| `ByteTracker.BYTETracker.PredictPool` | src/srv/algs/yolov8_infer/BYTETracker.cpp:78-91 | exactly the activated and the lost tracks are pooled, in this order, and moved on; exactly the other tracks are unconfirmed and stay where they were |
| `ByteTracker.BYTETracker.AssociateRefs` | src/srv/algs/yolov8_infer/BYTETracker.cpp:91-97 | the association is a best thresholded matching for the current boxes of the listed tracks |
| `ByteTracker.BYTETracker.Revise` | src/srv/algs/yolov8_infer/BYTETracker.cpp:101-112 | updates or re-activates one track through its place in the list and touches no other |
| `ByteTracker.BYTETracker.UpdateMatched` | src/srv/algs/yolov8_infer/BYTETracker.cpp:99-113 | exactly the matched tracks are revised in place, each by its own detection (updated if tracked or unconfirmed, re-activated otherwise), and their copies are collected in order |
| `ByteTracker.BYTETracker.RunStage` | src/srv/algs/yolov8_infer/BYTETracker.cpp:91-113 | one association with its effect: a best thresholded matching of the given tracks at their present boxes, whose pairs, and nothing else, are applied and recorded |
| `ByteTracker.BYTETracker.FirstAssociation` | src/srv/algs/yolov8_infer/BYTETracker.cpp:78-129 | exactly the activated and the lost tracks, at their predicted boxes, are given exactly the objects of score at least 0.5 by a best matching under 0.8; exactly the matched ones are revised, each by the detection of its own object; exactly the unmatched activated ones go on to the second stage |
| `ByteTracker.BYTETracker.MarkLost` | src/srv/algs/yolov8_infer/BYTETracker.cpp:155-163 | exactly the left-over tracks get state Lost, nothing else changes, and their copies are collected in order |
| `ByteTracker.BYTETracker.SecondAssociation` | src/srv/algs/yolov8_infer/BYTETracker.cpp:131-163 | exactly the activated tracks without an object are given exactly the objects of score below 0.5 by a best matching under 0.5; exactly the matched ones are revised, exactly the others become lost, with copies of each in order |
| `ByteTracker.BYTETracker.ThirdAssociation` | src/srv/algs/yolov8_infer/BYTETracker.cpp:165-188 | exactly the unconfirmed tracks, not moved on, are given exactly the objects of score at least 0.5 that the first stage left, by a best matching under 0.7; exactly the matched ones are updated, exactly the others become removed |
| `ByteTracker.BYTETracker.Births` | src/srv/algs/yolov8_infer/BYTETracker.cpp:190-198 | exactly the left-over objects of score at least 0.6 become tracks, under fresh consecutive identifiers in their order, and these identifiers own exactly these objects |
| `ByteTracker.BYTETracker.Expire` | src/srv/algs/yolov8_infer/BYTETracker.cpp:200-208 | exactly the lost tracks missing for longer than the limit get state Removed and are collected, and the list is otherwise as it was |
| `ByteTracker.BYTETracker.MarkRemoved` | src/srv/algs/yolov8_infer/BYTETracker.cpp:183-188 | exactly the left-over unconfirmed tracks get state Removed, nothing else changes, and their copies are collected in order |
| `ByteTracker.BYTETracker.NextLists` | src/srv/algs/yolov8_infer/BYTETracker.cpp:200-235 | the next tracked list joins the still tracked, the activated with the newborn, and the re-found tracks in this order; the next lost list has exactly the lost tracks that are not tracked again, aged, and the newly lost ones, without those removed in earlier frames; the removed list grows by the removed unconfirmed and the expired tracks |
| `ByteTracker.BYTETracker.EndFrame` | src/srv/algs/yolov8_infer/BYTETracker.cpp:200-242 | the next lists are these two with exactly the yielding duplicates dropped, and no tracked track is left close to a lost one |
| `TrackerOutcome.EveryOutcome` | src/srv/algs/yolov8_infer/BYTETracker.cpp:90-188 | after the three associations the list entry of every track is a function of the object it was given, if any: moved on if confirmed or lost, then updated or re-activated by that object's detection, else lost, removed, or left as it is |
| `TrackerOutcome.EveryBirth` | src/srv/algs/yolov8_infer/BYTETracker.cpp:190-198 | every newborn track was made from the detection of its own object of score at least 0.6, and every identifier that got an object after the associations is a newborn's |
| `TrackerOutcome.FrameFates` | src/srv/algs/yolov8_infer/BYTETracker.cpp:90-235 | before duplicates are dropped, the tracked list has exactly the tracks that own an object, each in the state its own object decides or born from it, and the lost list exactly the lost and confirmed tracks that own none, unless removed in an earlier frame |
| `TrackerOutcome.RemovedExactly` | src/srv/algs/yolov8_infer/BYTETracker.cpp:165-208 | the removed list grows by exactly the unconfirmed tracks without an object and the lost tracks whose last match is further back than the limit; a track missing for exactly the limit is not put there |
| `TrackerFinish.NextTracked` | src/srv/algs/yolov8_infer/BYTETracker.cpp:210-221 | the join of the three lists has distinct identifiers and only tracks matched or born in this frame |
| `TrackerFinish.NextLost` | src/srv/algs/yolov8_infer/BYTETracker.cpp:225-235 | the next lost list is strictly ascending; because the old removed list is subtracted before it grows, an expired track stays for one frame more and no longer |
| `TrackerFinish.DropDuplicates` | src/srv/algs/yolov8_infer/BYTETracker.cpp:237-242 | dropping duplicates keeps all list invariants and leaves tracked and lost tracks apart |
| `TrackerFinish.NobodyVanishes` | src/srv/algs/yolov8_infer/BYTETracker.cpp:201-242 | every identifier of the previous lists is again in one of the three lists before duplicates are dropped |
| `TrackerFinish.NoMoreThanObjects` | src/srv/algs/yolov8_infer/BYTETracker.cpp:210-251 | tracks that own different objects are at most as many as the objects |
| `TrackerFinish.FrameInvariant` | src/srv/algs/yolov8_infer/BYTETracker.cpp:19-252 | the invariant of whole runs is kept by a frame: distinct identifiers in 1..counter, disjoint lists, lost ascending, tracked matched in this very frame, lost missing for at most the limit and one frame |
| `ByteTracker.BYTETracker.Update` | src/srv/algs/yolov8_infer/BYTETracker.cpp:19-252 | one frame, whatever the objects and the filter: the three stages with exactly their tracks in order, boxes, objects, thresholds and effects, the births, and the lists they lead to; every track in the next lists has the fate its own object decides; the invariant; one private object for every tracked track; output no larger than the objects; every object of score at least 0.6 served; newborn scores at least 0.6; identifiers old or freshly issued; no track given out in the frame that bore it (first frame excepted); no identifier lost except to duplicates; and the frame is one step of the runs over which `GoneForGood` and `FiltersStayDefinite` speak |
| `ByteTracker.SteadyOutput` | src/srv/algs/yolov8_infer/BYTETracker.cpp:201-251 | what the invariant means for output and lost list: in the first frame every track is given out, later exactly those not born in the frame, and a lost track is missing for at most max(limit, 1) + 1 frames |
| `TrackerRuns.StepIds` | src/srv/algs/yolov8_infer/BYTETracker.cpp:19-252 | every identifier known after a frame was known before it, or was issued in it |
| `TrackerRuns.GoneForGood` | src/srv/algs/yolov8_infer/BYTETracker.cpp:19-252 | over every run of frames, an identifier that has left both lists never comes back |
| `TrackerRuns.OneTrackPerId` | src/srv/algs/yolov8_infer/BYTETracker.cpp:19-252 | over every run of frames, two tracks with the same identifier, however many frames apart, were born in the same frame |
| `TrackerLaws.MatchedTrack` | src/srv/algs/yolov8_infer/BYTETracker.cpp:90-188 | in fields, for any filter: every tracked track that is not new has its object's score, the frame's number, the state Tracked, one more or no tracklet frame, and as its filter the correction of the predicted one by the rectangle of its own object, from which its box is read |
| `TrackerLaws.NewTrack` | src/srv/algs/yolov8_infer/BYTETracker.cpp:190-198 | in fields: every new track starts at the corners of its own object of score at least 0.6, with the filter of this box, and is activated exactly in the first frame |
| `TrackerLaws.LostTrack` | src/srv/algs/yolov8_infer/BYTETracker.cpp:131-235 | in fields: every lost track was confirmed or lost before, got no object, is moved on by its filter and otherwise as it was; it is Lost if it was tracked, and Removed exactly if missing for more than the limit |
| `TrackerLaws.EveryTrackMoves` | src/srv/algs/yolov8_infer/BYTETracker.cpp:19-252 | over every run from empty lists each track has a filter |
| `TrackerLaws.NumbersOfAFrame` | src/srv/algs/yolov8_infer/BYTETracker.cpp:4-13 | the three associations are best matchings under 0.8, 0.5 and 0.7 with no pair beyond; the first takes exactly the objects of score at least 0.5, the second exactly the others |
| `Kalman.PredictRefines` | src/srv/algs/yolov8_infer/kalmanFilter.cpp:60-84 | the dense 8x8 prediction of a state made of four 2-state filters is again one, with each filter predicted on its own |
| `Kalman.InnovationPositive` | src/srv/algs/yolov8_infer/kalmanFilter.cpp:86-98 | the innovation covariance stays diagonal and positive, whatever the height estimate |
| `Kalman.GainExists` | src/srv/algs/yolov8_infer/kalmanFilter.cpp:116-117 | the gain equation S X = B always has a solution |
| `Kalman.GainUnique` | src/srv/algs/yolov8_infer/kalmanFilter.cpp:116-117 | and only one, so the result does not depend on how it is solved |
| `Kalman.CorrectRefines` | src/srv/algs/yolov8_infer/kalmanFilter.cpp:100-123 | the dense correction equals the four small corrections, and the covariance stays zero outside the (i, i+4) blocks |
| `Kalman.RepresentsSymmetric` | src/srv/algs/yolov8_infer/kalmanFilter.cpp:60-123 | a covariance made of four small filters is symmetric and zero outside the (i, i+4) blocks |
| `KalmanForm.DefiniteExactly` | src/srv/algs/yolov8_infer/kalmanFilter.cpp:60-123 | the dense covariance made of four small filters is positive definite (its form is positive at every non-zero vector) if and only if the four 2x2 blocks are definite |
| `KalmanRuns.DefinitePredict` | src/srv/algs/yolov8_infer/kalmanFilter.cpp:60-84 | prediction keeps every block positive definite |
| `KalmanRuns.CorrectKeepsDefinite` | src/srv/algs/yolov8_infer/kalmanFilter.cpp:100-123 | correction keeps all four blocks definite if and only if the height estimate is not zero |
| `KalmanRuns.InitialDefinite` | src/srv/algs/yolov8_infer/kalmanFilter.cpp:33-58 | the four initial blocks are definite if and only if the measured height is not zero |
| `KalmanRuns.RunRefines` | src/srv/algs/yolov8_infer/kalmanFilter.cpp:33-123 | over every run of predictions (with or without the height velocity cleared first) and corrections with non-zero height at the start and at each correction, the dense filter equals four 2-state filters and its covariance stays positive definite |
| `KalmanRuns.StepLifts` | src/srv/algs/yolov8_infer/kalmanFilter.cpp:60-123 | conversely, every step of definite small filters is a step of the dense filter, so no small run is spurious |
| `KalmanGains.DefinitenessIsLost` | src/srv/algs/yolov8_infer/kalmanFilter.cpp:33-123 | concrete failure: a run of the dense filter over two frames with positive measured heights whose prediction reaches height zero with a positive definite covariance, and whose next correction loses it |
| `KalmanRuns.KalmanFilter.constructor` | src/srv/algs/yolov8_infer/kalmanFilter.cpp:18-31 | the loops build the constant-velocity motion matrix and the projection matrix |
| `KalmanRuns.KalmanFilter.Initiate` | src/srv/algs/yolov8_infer/kalmanFilter.cpp:33-58 | the initial mean and diagonal covariance are four uncorrelated 2-state filters scaled by the height |
| `KalmanRuns.KalmanFilter.Predict` | src/srv/algs/yolov8_infer/kalmanFilter.cpp:60-84 | the imperative prediction is a dense prediction step |
| `KalmanRuns.KalmanFilter.MultiPredict` | src/srv/algs/yolov8_infer/STrack.cpp:182-194 | the prediction of a track clears the height velocity first exactly if the track is not in state Tracked |
| `KalmanRuns.KalmanFilter.Update` | src/srv/algs/yolov8_infer/kalmanFilter.cpp:100-123 | for any solution of the gain equation, the result is a dense correction step |
| `KalmanGains.SecondFrame` | src/srv/algs/yolov8_infer/kalmanFilter.cpp:33-123 | the second frame of a track that was moved on: centre and height follow the measurement by 105/121 and take 25/121 of it as velocity, the ratio by 2000001/102000001 and 1/102000001; the next prediction moves by both |
| `KalmanGains.SecondFrameUnmoved` | src/srv/algs/yolov8_infer/kalmanFilter.cpp:33-123 | the second frame of a track that was not moved on: centre and height follow by 4/5, the ratio by 1/101, and no velocity is taken |
| `KalmanGains.ThirdFrame` | src/srv/algs/yolov8_infer/kalmanFilter.cpp:33-123 | the third frame: for all heights of the three frames, the exact share by which each axis and its velocity follow the measurement; it depends on the velocity noise of the first prediction |
| `BoxFilter.InitialBox` | src/srv/algs/yolov8_infer/STrack.cpp:110-146 | a new filter, read back as a box, is the box it was made from |
| `BoxFilter.MatchedFilter` | src/srv/algs/yolov8_infer/STrack.cpp:61-108 | the filter of every matched track is the correction of its predicted filter (height velocity cleared unless Tracked, not predicted if unconfirmed) by centre, ratio and height of its own object's rectangle, and its box has the centre, ratio and height of that filter |
| `BoxFilter.SecondBox` | src/srv/algs/yolov8_infer/STrack.cpp:36-108 | over two frames of the tracker: the box of a track after its second object, with centre and height moved by 105/121 of the difference if it was born in the first frame and by 4/5 otherwise |
| `BoxFilter.UprightExactly` | src/srv/algs/yolov8_infer/STrack.cpp:110-137 | with a non-zero height, the box read off a definite filter has non-negative size if and only if its ratio is not negative and its height positive |
| `BoxFilter.CorrectKeepsUpright` | src/srv/algs/yolov8_infer/STrack.cpp:61-108 | a correction by any box of non-negative size keeps a positive height, a non-negative ratio and definiteness |
| `BoxFilter.FrameStaysSized` | src/srv/algs/yolov8_infer/STrack.cpp:182-194 | for tracks with definite filters of the program and non-zero predicted heights, the boxes a frame can give them all have non-negative size if and only if those moved on by prediction do |
| `BoxFilter.FrameKeepsSizes` | src/srv/algs/yolov8_infer/BYTETracker.cpp:19-252 | for any motion: if the boxes a frame can give its tracks have non-negative size, so has every box in the lists it leaves |
| `BoxFilter.FrameKeepsFilters` | src/srv/algs/yolov8_infer/BYTETracker.cpp:19-252 | a frame whose objects have positive height, and which finds no track at height zero, leaves every track of both next lists, duplicates dropped, with a definite filter that stands on the track's box |
| `BoxFilter.FiltersStayDefinite` | src/srv/algs/yolov8_infer/BYTETracker.cpp:19-252 | over every run of the tracker with the program's filter, from empty lists: as long as objects have positive height and no track is found at height zero, all filters stay definite and stand on their boxes |
| `BoxFilter.RunKeepsSizes` | src/srv/algs/yolov8_infer/BYTETracker.cpp:19-252 | in such a run the boxes left by a frame have non-negative size if those the associations find in it have |
| `BoxFilter.HeightTurnsNegative` | src/srv/algs/yolov8_infer/BYTETracker.cpp:78-91 | over two frames of the tracker, for objects of positive height: the third frame finds a track with a negative height if and only if the track was born in the first frame and its second height is below 9/130 of its first |
| `Nms.Partition` | src/srv/algs/yolov8_infer/bytetrack.cpp:79-99 | the two scans stay inside the range, keep its elements, end crossed with both sides smaller than the range, and separate large from small scores |
| `Nms.QsortRange` | src/srv/algs/yolov8_infer/bytetrack.cpp:79-114 | sorts the range in place in descending order, keeps its elements and touches nothing outside it |
| `Nms.QsortDescentInplace` | src/srv/algs/yolov8_infer/bytetrack.cpp:116-122 | the whole array becomes a descending permutation of itself |
| `Nms.NmsSortedBboxes` | src/srv/algs/yolov8_infer/bytetrack.cpp:124-156 | the picked objects are the greedy choice: one is kept exactly when no kept one before it overlaps it too much |
| `Nms.GreedyUnique` | src/srv/algs/yolov8_infer/bytetrack.cpp:138-155 | there is only one greedy choice |
| `Nms.GreedyMeaning` | src/srv/algs/yolov8_infer/bytetrack.cpp:124-156 | on sorted objects, kept ones overlap pairwise at most the threshold and every rejected one exceeds it with a kept one of at least its score |
| `Nms.OverlapsCountsPixels` | src/srv/algs/yolov8_infer/bytetrack.cpp:73-77 | for rectangles on the pixel grid the quotient is above the threshold if and only if the number of pixels in both exceeds the threshold times the number in either |
| `Nms.CommonIsGreatest` | src/srv/algs/yolov8_infer/bytetrack.cpp:73-77 | a rectangle lies inside two others if and only if it lies inside their common part |
| `Nms.InnerOverlap` | src/srv/algs/yolov8_infer/bytetrack.cpp:138-155 | a rectangle inside another exceeds the threshold with it if and only if it covers a greater share of it; so equal ones do so below threshold 1 |
| `Nms.ApartNeverOverlap` | src/srv/algs/yolov8_infer/bytetrack.cpp:138-155 | rectangles without a common part never exceed a threshold of at least 0 |
| `Nms.SortAndSuppress` | src/srv/algs/yolov8_infer/bytetrack.cpp:236-239 | the two stages together, on proposals in any order |
| `Crc.CrcCalculate` | src/srv/alink/check/checksum.c:41-53 | the loop computes the fold of the byte-wise step over the buffer |
| `Crc.AccumulateIsRun` | src/srv/alink/check/checksum.c:13-21 | the byte-wise step equals eight clocks of the bit-serial register with taps 0x8408 |
| `Crc.FoldIsRun` | src/srv/alink/check/checksum.c:41-53 | for buffers of any length the sum is the bit-serial register after all bits, least significant first |
| `Crc.SumIsRegister` | src/srv/alink/check/checksum.c:29-53 | the sum of a buffer is the register that starts with sixteen ones and is clocked once per bit |
| `Crc.CheckString` | src/srv/alink/check/checksum.c:13-53 | the sum of the standard check string "123456789" is 0x6F91 |
| `Crc.ZeroInFront` | src/srv/alink/check/checksum.c:29-32 | a zero byte in front of a buffer always changes its sum, which a register starting at zero would not notice |
| `Crc.RunDecides` | src/srv/alink/check/checksum.c:13-21 | from one register, different messages of up to sixteen bits lead to different registers |
| `Crc.BurstChangesSum` | src/srv/alink/check/checksum.c:13-53 | equal-length buffers that differ only inside sixteen consecutive bits have different checksums |
| `Crc.BitsInjective` | src/srv/alink/check/checksum.c:41-53 | different buffers of one length carry different bits, so the previous statement covers every change of that extent |
| `Crc.TrailerIsOwnSum` | src/srv/alink/check/checksum.c:13-53 | two bytes bring the register to zero if and only if they are the checksum itself, low byte first |
| `Frames.LengthRoundTrip` | src/srv/eth_link/eth_protocol/netcon_protocol.c:26-27 | only sixteen bits of a payload length survive in the header |
| `Frames.HeaderChecksum` | src/srv/alink/check/alink_check.c:37-47 | the header checksum is the sum of the first eight bytes modulo 256 |
| `Frames.AlinkCheckCrc` | src/srv/alink/check/alink_check.c:75-105 | for every length, true exactly if the size field fits it and the trailer is the checksum of the bytes counted in sixteen bits |
| `Frames.AlinkCheckPackage` | src/srv/alink/check/alink_check.c:107-138 | true exactly for magic, length, header checksum, size and trailer all correct, for every length the argument can hold |
| `Frames.EthProtocolAnalysis` | src/srv/eth_link/eth_protocol/netcon_protocol.c:57-98 | returns the payload behind the header exactly for an acceptable frame of the given length |
| `Frames.EthProtocolPackage` | src/srv/eth_link/eth_protocol/netcon_protocol.c:23-55 | turns the buffer into the frame of its payload and fields and leaves the rest of the buffer alone |
| `Frames.PackageIsAccepted` | src/srv/eth_link/eth_protocol/netcon_protocol.c:23-98 | a built frame is accepted if and only if its payload is shorter than 65536 bytes, and its fields and payload read back unchanged |
| `Frames.AcceptedIsPackage` | src/srv/eth_link/eth_protocol/netcon_protocol.c:57-98 | conversely, an accepted frame is the one the builder makes of its own fields and payload |
| `Frames.FrameLayout` | src/srv/eth_link/eth_protocol/netcon_protocol.c:23-55 | a built frame byte by byte: 0xFD, the length low byte first, the five fields, the sum of eight bytes modulo 256, the payload, and the register clocked over all bytes but the first |
| `Frames.AcceptedResidue` | src/srv/eth_link/eth_protocol/netcon_protocol.c:76-90 | the trailer is right if and only if the register is zero after the whole frame |
| `Frames.BurstIsRejected` | src/srv/eth_link/eth_protocol/netcon_protocol.c:57-98 | no burst of up to sixteen bits anywhere turns an accepted frame into another accepted one |
| `Frames.ChecksAgree` | src/srv/alink/check/alink_check.c:75-138 | up to 65538 bytes both receivers accept exactly the same buffers |
| `Frames.LongFrame` | src/srv/alink/check/alink_check.c:75-105 | beyond that the serial receiver sums at most seven bytes: it accepts a good frame if and only if the bytes left out do not move the register |
| `Frames.LongTwins` | src/srv/alink/check/alink_check.c:75-105 | of two frames of 65539 or more bytes that differ in their last payload byte, not both can be accepted by both receivers, because only one of the two sums reads that byte |
| `Frames.WhereChecksAgree` | src/srv/alink/check/alink_check.c:75-138 | the receivers agree on all buffers of a length if and only if it is below 65539 or above 65546; at each of the eight lengths between, the serial receiver rejects some frame the network codec accepts and accepts some it rejects |
| `Frames.BuiltFramesPass` | src/srv/alink/upload/alink_upload.c:47-62 | frames built for payloads below 65528 bytes are accepted by both receivers |
| `Upload.AlinkUpload.Address` | src/srv/alink/upload/alink_upload.c:58-64 | re-addressing and sealing the shared buffer gives the complete frame for this subscriber and keeps the message for the next one |
| `Upload.AlinkUpload.SendPackage` | src/srv/alink/upload/alink_upload.c:26-71 | the connected subscribers get, in list order, the message addressed to each of them; one sequence number is used per message, modulo 256, and none if nobody is listed |
| `Upload.DeliveriesAccepted` | src/srv/alink/upload/alink_upload.c:56-66 | every delivered frame is accepted by both receivers with the subscriber's address and the one message |
| `Upload.EverySubscriberServed` | src/srv/alink/upload/alink_upload.c:56-66 | every connected subscriber is served |
| `Receiver.RunIsSound` | src/srv/alink/analysis/alink_recv.c:10-85 | over every byte stream, what is found has magic, header checksum, size and checksum right, and found frames are disjoint and in order |
| `Receiver.StreamIsRecognised` | src/srv/alink/analysis/alink_recv.c:10-85 | a stream of idle bytes, good frames, frames with a broken checksum and broken headers yields exactly its good frames |
| `Receiver.AlinkRecv.StateCheckMagic` | src/srv/alink/analysis/alink_recv.c:10-26 | consumes at least one byte and follows the byte-wise machine |
| `Receiver.AlinkRecv.StateCheckHead` | src/srv/alink/analysis/alink_recv.c:28-53 | completes the header across slices and decides on it as the byte-wise machine does |
| `Receiver.AlinkRecv.StateCheckCrc` | src/srv/alink/analysis/alink_recv.c:55-85 | completes the package across slices and calls back exactly when the byte-wise machine finds a frame |
| `Receiver.AlinkRecv.Task` | src/srv/alink/analysis/alink_recv.c:100-110 | ends on every slice, in the state of the byte-wise machine after the same bytes, so slices may be cut anywhere |
| `Receiver.LineRecognised` | src/srv/alink/analysis/alink_recv.c:100-110 | once all bytes of a line have been taken, in whatever slices, the callbacks made are exactly its good frames |
| `Receiver.MessagesArrive` | src/srv/alink/analysis/alink_recv.c:100-110 | if the good frames of a line were built from messages, the callbacks read back exactly these messages in order |
| `Receiver.CallbacksAreSound` | src/srv/alink/analysis/alink_recv.c:70-80 | every callback made so far was given a checked frame and no two frames overlap |
| `RingQueue.CircularQ.PushBack` | doc/tan/SDK2022_11_15/SDK2022_11_15/引导协议及demo/pro_tool_20220924_01/inc/spdlog/include/spdlog/details/circular_q.h:48-62 | the ring behaves as a bounded queue that drops and counts its oldest item when full; a disabled queue ignores the item |
| `RingQueue.CircularQ.PopFront` | doc/tan/SDK2022_11_15/SDK2022_11_15/引导协议及demo/pro_tool_20220924_01/inc/spdlog/include/spdlog/details/circular_q.h:97-102 | removes exactly the oldest item, around the end of the slots if need be |
| `RingQueue.CircularQ.Size` | doc/tan/SDK2022_11_15/SDK2022_11_15/引导协议及demo/pro_tool_20220924_01/inc/spdlog/include/spdlog/details/circular_q.h:76-87 | the number of items, for head before or behind tail |
| `RingQueue.CircularQ.Item` | doc/tan/SDK2022_11_15/SDK2022_11_15/引导协议及demo/pro_tool_20220924_01/inc/spdlog/include/spdlog/details/circular_q.h:89-95 | the i-th oldest item |
| `RingQueue.CircularQ.EmptyOrFull` | doc/tan/SDK2022_11_15/SDK2022_11_15/引导协议及demo/pro_tool_20220924_01/inc/spdlog/include/spdlog/details/circular_q.h:104-117 | the spare slot tells a full ring from an empty one |
| `RingQueue.MpmcBlockingQueue.EnqueueNowait` | doc/tan/SDK2022_11_15/SDK2022_11_15/引导协议及demo/pro_tool_20220924_01/inc/spdlog/include/spdlog/details/mpmc_blocking_q.h:42-50 | appends, dropping and counting the oldest item if the queue was full |
| `RingQueue.MpmcBlockingQueue.DequeueFor` | doc/tan/SDK2022_11_15/SDK2022_11_15/引导协议及demo/pro_tool_20220924_01/inc/spdlog/include/spdlog/details/mpmc_blocking_q.h:52-67 | takes the oldest item, and fails only on an empty queue |
| `ThreadPool.RunKeepsInv` | doc/tan/SDK2022_11_15/SDK2022_11_15/引导协议及demo/pro_tool_20220924_01/inc/spdlog/include/spdlog/details/thread_pool-inl.h:38-126 | the invariant of the pool holds after every interleaving of posts, workers and destructor |
| `ThreadPool.NothingIsLost` | doc/tan/SDK2022_11_15/SDK2022_11_15/引导协议及demo/pro_tool_20220924_01/inc/spdlog/include/spdlog/details/thread_pool-inl.h:76-126 | in every interleaving posted = popped + waiting + overrun, and without overrun popped followed by waiting is what was posted, in order |
| `ThreadPool.BlockingLosesNothing` | doc/tan/SDK2022_11_15/SDK2022_11_15/引导协议及demo/pro_tool_20220924_01/inc/spdlog/include/spdlog/details/mpmc_blocking_q.h:31-40 | producers that wait for room never push anything out |
| `ThreadPool.QueueFillsUp` | doc/tan/SDK2022_11_15/SDK2022_11_15/引导协议及demo/pro_tool_20220924_01/inc/spdlog/include/spdlog/details/mpmc_blocking_q.h:31-40 | producers that wait can fill the queue to its last place, in order |
| `ThreadPool.NewestStay` | doc/tan/SDK2022_11_15/SDK2022_11_15/引导协议及demo/pro_tool_20220924_01/inc/spdlog/include/spdlog/details/mpmc_blocking_q.h:42-51 | producers that do not wait leave exactly the newest messages the queue has room for, and every other one is counted as overrun |
| `ThreadPool.NoDeadlock` | doc/tan/SDK2022_11_15/SDK2022_11_15/引导协议及demo/pro_tool_20220924_01/inc/spdlog/include/spdlog/details/thread_pool-inl.h:38-53 | with room for one message, some step other than a timeout is possible until the destructor has joined every worker |
| `ThreadPool.ShutdownIsBounded` | doc/tan/SDK2022_11_15/SDK2022_11_15/引导协议及demo/pro_tool_20220924_01/inc/spdlog/include/spdlog/details/thread_pool-inl.h:38-53 | a shutdown takes a bounded number of steps, however they interleave |
| `ThreadPool.ShutdownEndsJoined` | doc/tan/SDK2022_11_15/SDK2022_11_15/引导协议及demo/pro_tool_20220924_01/inc/spdlog/include/spdlog/details/thread_pool-inl.h:38-53 | a shutdown that can go no further has joined every worker |
| `ThreadPool.JoinedMeansDone` | doc/tan/SDK2022_11_15/SDK2022_11_15/引导协议及demo/pro_tool_20220924_01/inc/spdlog/include/spdlog/details/thread_pool-inl.h:38-126 | when the destructor returns the queue is empty, every posted message was taken by a worker or counted as overrun, and every worker took exactly one terminate message, its last |
| `ThreadPool.NoRoomNoShutdown` | doc/tan/SDK2022_11_15/SDK2022_11_15/引导协议及demo/pro_tool_20220924_01/inc/spdlog/include/spdlog/details/mpmc_blocking_q.h:32-40 | with a queue of capacity 0 the destructor waits for ever |
| `Registry.UnusedIsFound` | src/srv/eth_link/eth_link_server.c:280-298 | with more tries than servers the port search ends at a port no server has |
| `Registry.PortForEveryList` | src/srv/eth_link/eth_link_server.c:280-298 | for every list of fewer than a hundred servers the search from 8070 on ends at a port none of them has |
| `Registry.RunKeepsOk` | src/srv/eth_link/eth_link_server.c:183-364 | over every run of one registration: at most ten servers, serial numbers and ports all different |
| `Registry.RoomForTen` | src/srv/eth_link/eth_link_server.c:300-364 | over every run of one registration: at most ten servers, ports 8070 to 8079, all different; a device is refused if and only if it is listed already, or needs a new server and there are ten or none can be created |
| `Registry.FirstServer` | src/srv/eth_link/eth_link_server.c:300-332 | the first server waits at port 8070 under the serial number "sn_init", and exactly the serial numbers that begin with it count as initial |
| `Registry.AnswerIsRight` | src/srv/eth_link/eth_link_server.c:300-364 | an added device is told its own port if and only if it does not take over a waiting server whose port is not the one given out last |
| `Registry.DeviceIsToldItsPort` | src/srv/eth_link/eth_link_server.c:300-398 | over every run of one registration, whenever an add returns 0 the port given out is that of the entry with this serial number |
| `Registry.SecondRegistration` | src/srv/eth_link/eth_link_server.c:323-329 | a run with a second registration after which a device is told the wrong port |
| `Registry.RemovalLoses` | src/srv/eth_link/eth_link_server.c:183-203 | removal takes away exactly one server at the first two places, and k of them at place k behind |
| `Registry.EthLink.GetUnusedPort` | src/srv/eth_link/eth_link_server.c:280-298 | the nested loops find the first unused port from 8070 on |
| `Registry.EthLink.AddTcpServerList` | src/srv/eth_link/eth_link_server.c:300-364 | the walk and the relinking of the list realise the addition on entries, with every branch and return value |
| `Registry.EthLink.DelTcpServerList` | src/srv/eth_link/eth_link_server.c:183-203 | the relinking of the list realises the removal on entries, and a server no longer listed changes nothing |

## Left out

- Floating point: costs, boxes, scores and filter states are real numbers, so rounding, NaN and overflow are not modelled; a quotient of two zero areas is treated as never above a threshold.
- Lapjv.LapjvInternal: costs below 1000000 whose span is less than half of that are required, as the sentinel demands; allocation failures and the counters' thirty-two bits are not modelled.
- LinearAssignment.LapjvExtended: the calls without padding and without a threshold, which the tracker never makes, are not modelled, nor is the termination of the process on a failed solve, which cannot happen.
- BoxFilter.Measurement: a box without height has ratio 0, where the source divides by zero; a correction whose gain equation has no solution, which a definite filter excludes, leaves the filter as it is.
- ByteTracker.BYTETracker.constructor: the limit is a parameter; its computation from frame rate and buffer length is not modelled. The identifier counter, which all trackers share in the source, belongs to the one tracker.
- Tracks are values in the tracker's lists, as in the source's vectors; the source's pointers into those vectors are modelled as places in the lists.
- KalmanRuns.KalmanFilter.Update: the triangular solver is a parameter known only by its equation; gating distances are not modelled.
- Nms.Common: the intersection of two rectangles follows the classic definition of the image library, which is not part of this model; the two recursive calls, which may run in parallel, are made one after the other on disjoint ranges.
- Decoding of network outputs, drawing, capture and all guidance logic.
- Receiver.AlinkRecv.Task: slices must be consecutive parts of one buffer of less than four gibibytes that stays in place, since the receiver keeps a pointer into it; a callback is always registered, and what it does is not modelled.
- Upload.AlinkUpload.SendPackage: the message's writer and the subscribers' send functions are parameters; the send list, which is only walked here, is a sequence; the buffer's mutex and the registration and removal of subscribers are not modelled.
- Frames.EthProtocolAnalysis: one readable byte is required, and three if it is the magic, because the length field is then read before the length is compared.
- Frames.AlinkCheckCrc: three readable bytes are required, because the length field is read first.
- RingQueue.MpmcBlockingQueue.Enqueue: waiting and notification of condition variables are abstracted to guards of atomic steps; fairness of the scheduler is not modelled.
- ThreadPool: moving and copying of queues, the limit of 1000 threads, and exceptions in message handlers.
- Registry.EthLink.AddTcpServerList: creation of the listening socket is a parameter that may fail; sockets, threads and the lifetime of servers that were dropped from the list are not modelled.
- Registry.DeviceIsToldItsPort: device serial numbers that begin with the initial one are excluded.
- Orders, commands and payloads inside the frames, the camera mount's packets, geodesy, and the remaining parts of the logging library.
