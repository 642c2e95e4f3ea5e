# Temporal reasoning of the detection layer, verified

A Dafny model of the stateful part of the abandoned-object pipeline in
`src/detection/`, with proofs about whole runs of it.

Five components are modelled:

- **Detected-object tracker** (`ObjectTracks`, `ObjectAssociation`, `ObjectHistory`,
  `ObjectSnapshot`, `ObjectRuns`, `ObjectSteps`, `ObjectMatches`, `ObjectLabels`,
  `ObjectDrift`, `ObjectTemplates`, `ObjectSearch`, `ObjectReports`, `ObjectStrength`,
  `ObjectStability`, `ObjectJitter`, class in `ObjectTracker`):
  greedy association by confidence, smoothing, template keep-alive, eviction and the
  duplicate-suppressing snapshot.
- **Person departure detector** (`DwellZones`, `DwellSoundness`, `GroundRegions`,
  `DwellSteps`, `Departures`, `DepartureRuns`, `DepartureFacts`, `DepartureTimes`,
  `NearestZone`, classes in `DepartureDetector`):
  the present / missing / checked / purged life of each person, the dwell zones
  nested in it, and the before/after crops compared on departure.
- **Target verifiers and temporal gate** (`TargetVerifier`, `VerifierAnswers`,
  `GateVote`, `EarlyStopping`, `GateRuns`, `GateAnswers`, `GateFinality`, class in
  `TargetGate`): score selection and the early-stopping vote per object.
- **Open-vocabulary detector** (`Tiling`, `Letterbox`, `OpenVocabDetector`,
  `OpenVocabFacts`): tile placement, letterbox and its inverse, target-versus-negative
  selection, and the final ranking.
- **Blob tracker** (`BlobTracks`, `BlobRuns`, class in `BlobTracker`).

`Prelude`, `Geometry`, `StableSort`, `Association` and `ObjectLists` hold what they share.

## How the model is built

Each component has its transitions as functions on plain values. The source's classes
are Dafny classes with the same mutable fields; each of their methods is proved to
perform exactly the transition of that name, old state to new state, and the theorems
about runs are then proved about the transitions. Loops of the source are loops here.

- Floats are `real`; integers are unbounded. `round` goes to the nearest integer with
  ties to the even one, `int` truncates toward zero, slices clamp as Python's do.
- `time.time()` is a parameter, one reading per call. A clock may go backwards unless a lemma asks for
  `MonotoneClock`.
- `uuid4` is a counter that never repeats. A dictionary is a sequence in insertion
  order with distinct keys, so "first wins" is what the source's iteration gives.
- A distance compared with a limit is compared as squares.
- The overlap function, label normalisation, the models' outputs, template matching,
  the region comparison and non-maximum suppression are parameters. Where a result
  needs something from them it says so: `MatchesInside`, `DiffsInside`,
  `SuppressionValid`, `Rectangular`.
- `label` is a Dafny keyword, so that field is called `labelName`.

## Where the code and its comments differ

The model follows the code.

- The purge of a missing person is described as "processed and missing for more than
  60 s" (`src/detection/person_departure_detector.py:178`); the code tests the time
  only. Nothing is lost as long as the confirmation time is at most 60 seconds, and
  only then (`DepartureRuns.NeverPurgedUncheckedIff`).
- The search for a dwell zone is described as finding the nearest one
  (`src/detection/person_departure_detector.py:197`); the code takes the first one in
  range. For given zones the two agree everywhere exactly when no two zones with
  different centres are closer than twice the match distance
  (`NearestZone.FindsNearestIff`). Over whole runs they agree exactly when zones match
  only at their centre, or none is made, or at most one is kept
  (`NearestZone.RunsFindNearestIff`); the default settings are not of that kind, and
  `NearestZone.TwoPlacesMislead` gives the input.
- A zone's entry time is meant to start a stationary run. When the stationary distance
  exceeds the match distance it can be inherited from an older zone; when that happens
  and when not is `DwellSoundness.ZonesBackedIff` for one person and
  `DepartureFacts.RunsBackZonesIff` for whole runs.
- A verifier promises a configured target label with enough confidence
  (`src/detection/target_verifier.py:69-72`); with a threshold of zero or less the
  placeholder `"unknown"` can pass instead. For the box detector that happens exactly
  when the placeholder is not itself a target (`TargetVerifier.DetectorTrustworthyIff`).
  A classifier whose model names its classes never fails, because its constructor insists
  on a class for every target (`TargetVerifier.NamedClassifierIsTrustworthy`); without
  names a positive margin protects it too (`TargetVerifier.ClassifierTrustworthyIff`), as
  it does the open-vocabulary verifier (`TargetVerifier.OpenVocabularyTrustworthyIff`).
- The gate's early stop is meant to anticipate the full vote; the ratio rule can undo
  that (`EarlyStopping.EarlyStoppingIff` for lists of samples,
  `GateRuns.RunsStopLikeBatchIff` for runs of the gate).

## Model

| member | source | states |
|---|---|---|
| Geometry.IouOfSelf | src/utils/geometry.py:5-24 | a box of positive area overlaps itself with ratio exactly 1 |
| Geometry.IouApart | src/utils/geometry.py:5-24 | boxes that share no area have ratio 0 |
| Geometry.IouIsSymmetric | src/utils/geometry.py:5-24 | the order of the boxes does not matter |
| Geometry.IouAtMostOne | src/utils/geometry.py:5-24 | no two boxes have a ratio above 1 |
| Geometry.AreaIsProduct | src/utils/geometry.py:19-20 | the area of a box is width times height, 0 for an improper one |
| Geometry.OverlapIsCommonArea | src/utils/geometry.py:10-17 | the overlap is the area of the box that covers exactly the points both boxes cover |
| Geometry.IouIsShare | src/utils/geometry.py:19-24 | the ratio of two proper boxes is the share of their common part in all they cover together |
| Geometry.WithinIsDistance | src/utils/geometry.py:38-39 | two points are within d exactly if their distance, whenever there is one, is at most d |
| Geometry.CenterIsMiddle | src/utils/geometry.py:27-29 | the centre is as far from each edge as from the opposite one |
| Geometry.BlendMovesCenter | src/detection/detected_object_tracker.py:236-240 | smoothing a box moves its centre by alpha of the way to the new centre |
| StableSort.SortCorrect | src/detection/detected_object_tracker.py:201-205 | the sort permutes into descending order and keeps the order of equal keys |
| StableSort.StableOrderUnique | src/detection/detected_object_tracker.py:287-291 | the stable descending order is the only one with these properties |
| Association.FirstBest | src/detection/detected_object_tracker.py:207-213 | the scan returns the first position of the largest positive score, none if no score is positive |
| Association.Accepted | src/detection/detected_object_tracker.py:215-216 | a match exists exactly when some score is positive and reaches the threshold, and is then the first best |
| ObjectTracks.Clamp | src/detection/detected_object_tracker.py:47-81 | the constructor's clamps move settings only as far as their ranges ask for and leave settings in range alone |
| ObjectTracks.LocatedInsideFrame | src/detection/detected_object_tracker.py:130-161 | a template found by the visual search lies wholly inside the frame, whatever the track's box |
| ObjectAssociation.AssociationOneToOne | src/detection/detected_object_tracker.py:201-258 | a frame gives every detection its own distinct track |
| ObjectAssociation.BetterTrackTakenEarlier | src/detection/detected_object_tracker.py:206-216 | a detection misses a better existing track only because an earlier-ranked one took it |
| ObjectAssociation.LostOnlyToStrongerDetection | src/detection/detected_object_tracker.py:201-216 | in the frame's own order that earlier detection is at least as confident |
| ObjectAssociation.MatchIsGoodEnough | src/detection/detected_object_tracker.py:207-215 | a match overlaps the track as it was before the frame, and reaches the threshold |
| ObjectAssociation.HitsConserved | src/detection/detected_object_tracker.py:215-275 | hits held after a frame plus hits evicted by it are the hits before plus one per detection |
| ObjectAssociation.UpdateKeepsIdsSound | src/detection/detected_object_tracker.py:189-276 | ids stay unique and already issued |
| ObjectHistory.HitsCountDetections | src/detection/detected_object_tracker.py:235 | semantic hits count exactly the detections matched to the track |
| ObjectHistory.NoPromotionFromOneHit | src/detection/detected_object_tracker.py:168-179 | below the static threshold consecutive hits lie between 1 and the semantic hits, over any mix of updates |
| ObjectHistory.StationaryMeansBoundedDrift | src/detection/detected_object_tracker.py:162-184 | with n consecutive hits the last reset was n-1 events ago and the centre moved at most n-1 times the larger alpha times the shift limit per axis |
| ObjectHistory.PeakHold | src/detection/detected_object_tracker.py:248-254 | confidence and margin are the maxima of the matched values decayed by 0.9 per later hit, whatever visual updates intervene |
| ObjectHistory.MarginNeedsHit | src/detection/detected_object_tracker.py:251-254 | a margin at a non-negative threshold goes back to a detection that reached it |
| ObjectHistory.StrongNeedsStrongHit | src/detection/detected_object_tracker.py:84-85 | with a non-negative margin threshold a strong track matched a detection that was itself strong |
| ObjectHistory.StrongOnlyByStrongHitIff | src/detection/detected_object_tracker.py:84-85 | over all lives, whether a run can bring them about or not, that rule holds for exactly the non-negative thresholds |
| ObjectHistory.SpecificLabelStays | src/detection/detected_object_tracker.py:241-247 | within a life an open-vocabulary label is never downgraded: the source stays and the label changes only by such a detection |
| ObjectSnapshot.SelectedIsConflictFree | src/detection/detected_object_tracker.py:280-312 | returned tracks are live, come with more detector hits first and at equal hits the more confident first, and no later one conflicts with an earlier one |
| ObjectSnapshot.SelectedPairwise | src/detection/detected_object_tracker.py:294-312 | with a symmetric overlap any two returned tracks are below both thresholds |
| ObjectSnapshot.OmittedHasStrongerWitness | src/detection/detected_object_tracker.py:286-312 | every omitted live track conflicts with a returned one of equal or higher hits and confidence |
| ObjectSnapshot.ReturnedShareLess | src/detection/detected_object_tracker.py:294-312 | any two returned tracks share less than the containment threshold times the area of each of the two boxes |
| ObjectSnapshot.NestedNeverBoth | src/detection/detected_object_tracker.py:294-312 | of two boxes one inside the other, at least a pixel large, only one is returned when the containment threshold is at most 1 |
| ObjectSnapshot.LonelyIsReturned | src/detection/detected_object_tracker.py:294-312 | a live track that shares too little with every other live one, for both boxes and for the overlap ratio, is returned |
| ObjectSnapshot.KernelUnique | src/detection/detected_object_tracker.py:286-312 | an ordered list has only one greedy kernel |
| ObjectSnapshot.SelectionUnique | src/detection/detected_object_tracker.py:280-312 | any stable descending order of the live tracks with any greedy kernel of it gives the returned tracks |
| ObjectSnapshot.SelectionIdempotent | src/detection/detected_object_tracker.py:280-312 | suppressing duplicates among the returned tracks changes nothing |
| ObjectRuns.ReachableIdsSound | src/detection/detected_object_tracker.py:189-276 | ids are unique in every reachable state |
| ObjectRuns.TotalHitsConserved | src/detection/detected_object_tracker.py:189-276 | over any run the hits of live and dropped tracks together count all detections ever fed |
| ObjectRuns.RunLives | src/detection/detected_object_tracker.py:189-276 | every live and dropped track replays a life, and these lives use every fed detection exactly as often as it was fed |
| ObjectRuns.ReachableTrackFacts | src/detection/detected_object_tracker.py:168-179 | in every reachable state no static promotion from one hit, and a strong track has a strong fed detection behind it |
| ObjectSteps.ObservedFrom | src/detection/detected_object_tracker.py:201-267 | after a frame a track is the old one at its position, unchanged, matched with one overlapping detection, or found again without having had one, or a new one with a new id |
| ObjectSteps.RunOrigin | src/detection/detected_object_tracker.py:189-276 | every live track of a run was started by the latest frame or continues a track that was live just before |
| ObjectSteps.LastSeenAtLatestEvent | src/detection/detected_object_tracker.py:185-255 | in any run a track was last seen at the operation that last started, matched or found it, and has been the same since |
| ObjectSteps.Survives | src/detection/detected_object_tracker.py:201-275 | a frame continues each old track as exactly one track and keeps it, and its id, exactly when that is within its grace period |
| ObjectSteps.RunSurvives | src/detection/detected_object_tracker.py:189-335 | a run loses a track only by clearing or by such a frame |
| ObjectSteps.LostForGood | src/detection/detected_object_tracker.py:218-275 | an id that a run lost never comes back |
| ObjectReports.KeptIffWithinGrace | src/detection/detected_object_tracker.py:84-92 | over a frame of a run a track is kept exactly while unseen for at most its grace time: the strong one for a strong margin, else the ordinary one from enough detector hits on, else the one for unconfirmed tracks |
| ObjectMatches.ObservedTold | src/detection/detected_object_tracker.py:201-267 | after a frame every track is what exactly the detections whose choice it was make of the old one: started or matched by its one detection, otherwise unchanged or found again |
| ObjectReports.RefreshMeans | src/detection/detected_object_tracker.py:220-258 | field by field what a matched detection does: every edge moves the box alpha of the way, one more hit, one more consecutive hit unless the centre moved too far, peaks held or decayed by a tenth, seen now, and a template from the patch under the new box |
| ObjectReports.RunTrackTells | src/detection/detected_object_tracker.py:201-267 | every live track of a run, field by field: started or matched by the one detection the latest frame gave to it, or, given none, found again or as it was |
| ObjectMatches.TrackLife | src/detection/detected_object_tracker.py:189-276 | in any run a live track replays a life whose detections are exactly those association gave to its id, operation by operation |
| ObjectMatches.HitsAreFed | src/detection/detected_object_tracker.py:201-258 | those detections were fed, none of them less often than it was given |
| ObjectDrift.FrameEvents | src/detection/detected_object_tracker.py:201-267 | a frame brings each track at most one event: its hits restart or grow by one with a bounded move, and a new track counts one |
| ObjectDrift.RunDriftIsBounded | src/detection/detected_object_tracker.py:162-184 | in any run a live track with k consecutive hits was last reset at least k-1 operations before, was live with more hits ever since, and has drifted at most k-1 bounded moves per axis |
| ObjectDrift.RunKeepsSpecificLabel | src/detection/detected_object_tracker.py:241-247 | between any two moments of a run an open-vocabulary label is never downgraded: the source stays, and another label came from such a detection fed in between |
| ObjectLabels.RunTrackIsNamed | src/detection/detected_object_tracker.py:241-247 | in any run a live track bears the class name, and the source, of the last detection given to it that may rename it and states one: the first, one of the open-vocabulary source or of none, or any as long as no open-vocabulary one came before; "object" and "detector" if none does |
| ObjectDrift.ReachableTrackHistory | src/detection/detected_object_tracker.py:235-254 | in any run a live track's hits count, and its confidence and margin are the decayed peaks of, the detections association gave to its id, in order; with a non-negative margin threshold a strong track was given a strong one |
| ObjectDrift.PublishedHasEvidence | src/detection/detected_object_tracker.py:326-329 | in any run an object is publishable exactly when its id was given enough detections or the decayed margin of one of them reaches the strong margin, which that detection did itself when the margin is not negative |
| ObjectReports.ObservationTells | src/detection/detected_object_tracker.py:314-332 | every observation of a run is of the one live track of its id, within its grace time, with that track's box, consecutive hits and visual score, and tells the number, the last words and the decayed peaks of the detections given to that id |
| ObjectTemplates.CaptureCutsInside | src/detection/detected_object_tracker.py:109-119 | a new template is the pixels of a patch inside the frame, at least 8 by 8 and not uniform |
| ObjectTemplates.CaptureIsPatch | src/detection/detected_object_tracker.py:109-119 | the captured patch is the box in frame coordinates, each edge rounded to the nearest pixel and clipped to the frame, and becomes the template exactly if it is at least 8 by 8 with a spread of at least 5; otherwise the old template stays |
| ObjectTemplates.OneClip | src/detection/detected_object_tracker.py:110-113 | there is only one such patch |
| ObjectTemplates.RunTemplatesLarge | src/detection/detected_object_tracker.py:109-119 | in every reachable state every template is at least 8 by 8 |
| ObjectTemplates.RediscoveriesInsideFrame | src/detection/detected_object_tracker.py:130-184 | every rediscovery in any run moves the track towards a place of at least 8 by 8 pixels inside its frame |
| ObjectSearch.WindowIsNeighbourhood | src/detection/detected_object_tracker.py:130-139 | the search window holds exactly the rectangles of the frame within the padding around the box, as long as the padding reaches into the frame; beyond that a negative end counts from the far side, as slices do |
| ObjectSearch.PaddingMeans | src/detection/detected_object_tracker.py:131-133 | the padding is the given part of the side, rounded, and at least 16 |
| ObjectSearch.LocatedIff | src/detection/detected_object_tracker.py:121-152 | a search succeeds exactly for a track with a template that has enough detector hits or a strong margin, in a window with room for the template, with a finite peak of at least the strong threshold for a strong margin and the ordinary one otherwise |
| ObjectSearch.UnusedIsFoundIff | src/detection/detected_object_tracker.py:121-187 | in a frame, a track that no detection chose is found exactly then, at the peak: it moves part of the way there, is seen now, counts a consecutive hit only when static and near, and keeps all else; otherwise it stays as it was |
| ObjectSearch.RediscoveriesAreGood | src/detection/detected_object_tracker.py:146-152 | every rediscovery of a run was of an eligible track and reached the score its margin asks for |
| ObjectStrength.StrongWasFed | src/detection/detected_object_tracker.py:84-92 | unless the settings let decay make a track strong, a strong track of a run has a strong detection fed before it |
| ObjectStrength.WeakTwiceIsStrong | src/detection/detected_object_tracker.py:251-254 | the input: the same weak detection fed twice gives a strong track under a negative threshold |
| ObjectStrength.StrongOnlyWhenFedIff | src/detection/detected_object_tracker.py:84-92 | over all runs the rule holds exactly when the threshold is not negative, or no detection can match a track, or a grace period is negative |
| ObjectStrength.SecondHitIff | src/detection/detected_object_tracker.py:207-215 | with the overlap ratio a detection can match a track exactly for thresholds up to 1 |
| ObjectStability.AssociatedSettles | src/detection/detected_object_tracker.py:201-258 | a frame that lists places kept apart, in any order, gives each place its own track there and one more hit of each kind |
| ObjectStability.ListedIsTracked | src/detection/detected_object_tracker.py:189-276 | in a run of such frames, where a place may be missed within its grace period or found again there by template matching, every place listed so far has a live track; its semantic hits count the frames that listed it, and so do its consecutive hits unless it was found again |
| ObjectStability.TracksKeepTheirIds | src/detection/detected_object_tracker.py:189-276 | between any two moments of such a run two live tracks have the same id exactly when they are at the same place |
| ObjectStability.FixedDetectionsKeepTheirIds | src/detection/detected_object_tracker.py:189-276 | when the places are single boxes told apart, every track keeps its exact box, and ids agree exactly when the boxes do |
| ObjectJitter.JitterKeptApart | src/detection/detected_object_tracker.py:162-240 | under the overlap ratio, all boxes within a small jitter of well separated boxes match within and not across, do not count as moved, and blend within the jitter |
| ObjectJitter.JitteringDetectionsKeepTheirIds | src/detection/detected_object_tracker.py:189-276 | so objects whose detections and rediscoveries jitter that little keep their ids: two live tracks have the same id exactly when they are near the same object |
| ObjectTracker.TrackedObject.constructor | src/detection/detected_object_tracker.py:11-23 | a new track takes the detection's fields with the source's defaults |
| ObjectTracker.DetectedObjectTracker.constructor | src/detection/detected_object_tracker.py:29-82 | the clamped settings and no tracks |
| ObjectTracker.DetectedObjectTracker.BestTrack | src/detection/detected_object_tracker.py:207-215 | the scan finds the specified match among the unused tracks |
| ObjectTracker.DetectedObjectTracker.CaptureTemplate | src/detection/detected_object_tracker.py:109-119 | the new template, or the old one when the patch is small or uniform |
| ObjectTracker.DetectedObjectTracker.Refresh | src/detection/detected_object_tracker.py:223-255 | the in-place update of a matched track |
| ObjectTracker.DetectedObjectTracker.VisualUpdate | src/detection/detected_object_tracker.py:121-187 | the in-place rediscovery, and whether it happened |
| ObjectTracker.DetectedObjectTracker.Associate | src/detection/detected_object_tracker.py:206-258 | one detection changes the tracker and the used ids as specified |
| ObjectTracker.DetectedObjectTracker.Sweep | src/detection/detected_object_tracker.py:262-267 | template matching of every unused track and of no other |
| ObjectTracker.DetectedObjectTracker.Evict | src/detection/detected_object_tracker.py:269-275 | exactly the tracks within their grace period stay, in order |
| ObjectTracker.DetectedObjectTracker.Update | src/detection/detected_object_tracker.py:189-276 | the whole frame in place equals the specified transition and reports its snapshot |
| ObjectTracker.DetectedObjectTracker.Snapshot | src/detection/detected_object_tracker.py:278-332 | the report of the selected live tracks; nothing changes |
| ObjectTracker.DetectedObjectTracker.Clear | src/detection/detected_object_tracker.py:334-335 | no tracks remain |
| TargetVerifier.Best | src/detection/target_verifier.py:197-205 | the running maximum is the placeholder or an item of its kind, no lower than any item of that kind |
| TargetVerifier.SelectFromBoxes | src/detection/target_verifier.py:195-209 | the loop over boxes gives the detector verdict |
| TargetVerifier.SelectFromClasses | src/detection/target_verifier.py:166-188 | the loop over classes gives the classifier verdict |
| TargetVerifier.SelectFromScores | src/detection/target_verifier.py:321-346 | the loop over prompts gives the open-vocabulary verdict, with the empty output handled |
| TargetVerifier.DetectorAcceptsIff | src/detection/target_verifier.py:195-209 | accepted exactly when some target box reaches the threshold, or the placeholder's 0 does |
| TargetVerifier.ClassifierAcceptsIff | src/detection/target_verifier.py:166-188 | for every threshold, accepted exactly when some target class reaches it and beats every other class by the margin, or the placeholder does for want of a target |
| TargetVerifier.ContestAcceptsIff | src/detection/target_verifier.py:325-346 | for every threshold, accepted exactly when some prompt or the placeholder wins by the margin, against the placeholder's score of 0 too |
| TargetVerifier.PositiveThresholdIsTrustworthy | src/detection/target_verifier.py:141-209 | with a positive threshold every positive prediction names a target with enough confidence |
| TargetVerifier.TrustworthyIff | src/detection/target_verifier.py:141-209 | over the outputs of all kinds that holds exactly when the threshold is positive or the placeholder is a target |
| TargetVerifier.DetectorTrustworthyIff | src/detection/target_verifier.py:190-209 | for the box detector alone the same condition is exact |
| TargetVerifier.NamedClassifierIsTrustworthy | src/detection/target_verifier.py:101-115 | a constructed classifier whose model names its classes is trustworthy on every output with one score per name, for every threshold and margin |
| TargetVerifier.ClassifierTrustworthyIff | src/detection/target_verifier.py:163-188 | over non-negative scores of n classes the classifier is trustworthy exactly when one of them is a target, or the threshold or the margin is positive, or the placeholder is a target |
| TargetVerifier.OpenVocabularyTrustworthyIff | src/detection/target_verifier.py:256-346 | over tensors with one score per named prompt the open-vocabulary verifier is trustworthy exactly when the threshold or the margin is positive or the placeholder is a target |
| TargetVerifier.ProbabilitiesTrustworthyIff | src/detection/target_verifier.py:321-346 | over non-negative tensors exactly one more case is safe: a target whose name comes after the placeholder's, which wins the tie at 0 |
| TargetVerifier.PositiveTargetProtects | src/detection/target_verifier.py:324-346 | whatever the settings, the verdict is trustworthy once some target prompt scores above 0 for some anchor |
| TargetVerifier.AcceptedBeatsEveryNegative | src/detection/target_verifier.py:324-340 | an accepted prompt beats every negative prompt of every anchor by the margin |
| VerifierAnswers.DetectorNames | src/detection/target_verifier.py:195-209 | the box detector names the leading target when that is confident enough and otherwise the leading box of another kind, with its confidence |
| VerifierAnswers.ClassifierNames | src/detection/target_verifier.py:167-188 | the classifier names the leading target class when it wins by the margin and otherwise the leading other class |
| VerifierAnswers.ContestNames | src/detection/target_verifier.py:324-346 | the prompt contest names the leading target when it wins by the margin and otherwise the more confident of the two leading prompts, the other kind in a tie |
| VerifierAnswers.OneLeads | src/detection/target_verifier.py:197-205 | there is only one leading item of a kind: the last in the order of confidence and then of name, the placeholder included or standing in |
| VerifierAnswers.ItemsAreScores | src/detection/target_verifier.py:200-202 | each box or class is scored by its confidence under the name of its class, each prompt by its highest score over all anchors |
| VerifierAnswers.TextBeforeMeans | src/detection/target_verifier.py:202-205 | names are compared lexicographically |
| GateVote.Clamp | src/detection/target_verifier.py:352-358 | the clamps move settings only as far as their ranges ask for and leave settings in range alone |
| GateVote.MostCommonAt | src/detection/target_verifier.py:383-384 | the label counted most, the one seen first winning ties |
| GateVote.MostConfident | src/detection/target_verifier.py:392 | a rejection reports a sample of the highest confidence |
| EarlyStopping.VerdictReadsCompletions | src/detection/target_verifier.py:377-395 | when the ratio rule cannot veto, accept means every completion confirms and reject means none does |
| EarlyStopping.DecidedAtMaxSamples | src/detection/target_verifier.py:389-393 | from the maximum number of samples on there is always a verdict |
| EarlyStopping.EarlyVerdictIsBatchVerdict | src/detection/target_verifier.py:377-395 | the first verdict equals the vote over all samples at once |
| EarlyStopping.LateConfirmationIsVetoed | src/detection/target_verifier.py:382-393 | otherwise a list of samples is rejected early that the batch vote accepts |
| EarlyStopping.EarlyStoppingIff | src/detection/target_verifier.py:377-395 | early stopping equals the batch vote on every list of samples exactly when ratio times maximum is at most the confirmations |
| GateRuns.ReachableKeysNested | src/detection/target_verifier.py:361-409 | in any run samples exist only for objects with a sampling time |
| GateRuns.NonInterference | src/detection/target_verifier.py:361-409 | in any interleaving an object's decisions are those of a gate that saw only its own events |
| GateRuns.ProjectionMentionsOnly | src/detection/target_verifier.py:361-409 | the projected run mentions no other object |
| GateRuns.CountedWereAsked | src/detection/target_verifier.py:361-378 | counted samples are evaluations of the run that had a frame and an answer |
| GateRuns.RunRecorded | src/detection/target_verifier.py:361-378 | in any run the stored samples are the counted evaluations since the last drop, spaced by the interval |
| GateRuns.DecisionIsVote | src/detection/target_verifier.py:361-395 | a decision other than pending is the vote over the counted samples, ending with this one |
| GateAnswers.AnswerMeans | src/detection/target_verifier.py:361-395 | every answer of every run: it waits without a frame, within the interval of the last question, or without a prediction; else enough positives in number and share accept under their plurality label with the mean confidence of its samples, a full or hopeless count rejects under the label and confidence of the first most confident sample, and otherwise it waits |
| GateAnswers.FailureIsNotCounted | src/detection/target_verifier.py:371-375 | a failed inference is answered with a wait and never becomes a sample |
| GateAnswers.EmptyCountsAgainst | src/detection/target_verifier.py:371-379 | an empty result of the model becomes one more sample, and not a positive one |
| GateAnswers.PositivesAre | src/detection/target_verifier.py:379 | the positives are the samples answered with a target, in order |
| GateAnswers.LabelledAre | src/detection/target_verifier.py:383-385 | the samples of a label, and their count, likewise |
| GateAnswers.SumSplits | src/detection/target_verifier.py:385-386 | the sum behind the mean adds up over any split and is the confidence for a single sample |
| GateRuns.AcceptNeedsElapsedTime | src/detection/target_verifier.py:361-387 | under any clock an accept has enough positive samples and the first sample is (confirmations-1) intervals older |
| GateRuns.VerdictWithinMaxSamples | src/detection/target_verifier.py:389-393 | an object's sample number maximum always brings a verdict |
| GateRuns.EarlyVerdictInRuns | src/detection/target_verifier.py:377-395 | the first verdict an object gets since its last drop comes within the maximum number of samples and, when the ratio rule cannot veto, is accept exactly when every completion of them confirms and reject exactly when none does |
| GateRuns.LateRunIsVetoed | src/detection/target_verifier.py:361-395 | the input: a run of steadily spaced answers with all positives last is rejected although the batch vote over it accepts |
| GateRuns.RunsStopLikeBatchIff | src/detection/target_verifier.py:361-395 | in every run of steadily spaced answers the first verdict is the batch vote's exactly when ratio times maximum is at most the confirmations |
| GateRuns.AcceptNamesATarget | src/detection/target_verifier.py:379-387 | an accept carries the plurality label of the positives, a configured target, with confidence at least the verifier's threshold |
| GateRuns.AgreementAccepts | src/detection/target_verifier.py:361-395 | a new object with steadily spaced positive answers stays pending until its confirmations-th evaluation, which accepts it exactly when the ratio is at most 1 |
| GateRuns.RetainIsCompleteIff | src/detection/target_verifier.py:405-409 | retain leaves no inactive object known exactly when every inactive one with a sampling time has samples |
| GateRuns.KnownObjects | src/detection/target_verifier.py:361-410 | in any run an object has a sampling time exactly if it was asked about since it was last dropped, that of the last question, and samples exactly if one of the answers was available |
| GateFinality.RejectsAreFinalIff | src/detection/target_verifier.py:361-395 | after a reject, with no drop since, an accept can still come in some run exactly when the required ratio is below 1 |
| GateFinality.AcceptsAreFinalIff | src/detection/target_verifier.py:361-395 | after an accept a reject can still come in some run exactly when the required ratio is positive and at most 1 |
| TargetGate.TemporalTargetGate.constructor | src/detection/target_verifier.py:352-359 | the clamped settings and an empty gate |
| TargetGate.TemporalTargetGate.Evaluate | src/detection/target_verifier.py:361-395 | the two dictionaries and the decision after one evaluation |
| TargetGate.TemporalTargetGate.Vote | src/detection/target_verifier.py:379-395 | the statements of the vote give the specified decision |
| TargetGate.TemporalTargetGate.Forget | src/detection/target_verifier.py:397-399 | both entries of the object disappear and nothing else |
| TargetGate.TemporalTargetGate.Clear | src/detection/target_verifier.py:401-403 | an empty gate |
| TargetGate.TemporalTargetGate.Retain | src/detection/target_verifier.py:405-409 | the loop forgets exactly the inactive objects that have samples |
| BlobTracks.Clamp | src/detection/blob_tracker.py:23-38 | the smoothing factor is moved into its range only as far as needed |
| BlobRuns.UpdateReportsEveryBox | src/detection/blob_tracker.py:40-88 | one result per box with distinct ids, whose blobs are still tracked exactly when the grace period is not negative |
| BlobRuns.NewMeansNeverSeen | src/detection/blob_tracker.py:60-81 | a result is marked new exactly when its id was issued in this update, and then counts one hit |
| BlobRuns.ResultsTell | src/detection/blob_tracker.py:46-81 | result by result: a box that overlaps no blob left over by the boxes before it starts a blob as it is; any other goes to the first of those it overlaps most, which moves alpha of the way to it on every edge and counts one more hit |
| BlobRuns.UnusedBlobStaysIff | src/detection/blob_tracker.py:83-86 | a blob that no result used stays as it is exactly within the grace period |
| BlobRuns.ReachableIsSound | src/detection/blob_tracker.py:40-98 | over any frames, forgets and clears the ids are unique and already issued |
| BlobRuns.WithoutMember | src/detection/blob_tracker.py:94-95 | forgetting keeps exactly the blobs with another id |
| BlobRuns.GoneForGood | src/detection/blob_tracker.py:40-98 | an id lost by eviction, forgetting or clearing is never held or reported again in any run |
| BlobRuns.ForgetMakesGoneIff | src/detection/blob_tracker.py:94-95 | forgetting an id has that effect exactly if the id was ever issued |
| Geometry.ApartBoxesAreToldApart | src/detection/blob_tracker.py:51-60 | under the overlap ratio, disjoint boxes match themselves and no other |
| BlobRuns.RunStands | src/detection/blob_tracker.py:40-88 | with a non-negative grace period, in a timely run over fixed boxes the tracker holds exactly one blob per box seen, last seen when it was and with one hit per frame that listed it |
| BlobRuns.FixedBoxesKeepTheirIds | src/detection/blob_tracker.py:40-88 | for any order and dropouts, two results of such a run carry the same id exactly when they report the same box, with exact coordinates |
| BlobRuns.ResultsCountListings | src/detection/blob_tracker.py:51-81 | in such a run a result's consecutive hits are the number of frames that listed its box so far, and it is marked new exactly at the first of them |
| BlobTracker.TrackedBlob.constructor | src/detection/blob_tracker.py:14-19 | a new blob with one hit |
| BlobTracker.BlobTracker.constructor | src/detection/blob_tracker.py:23-38 | the clamped settings and no blobs |
| BlobTracker.BlobTracker.BestBlob | src/detection/blob_tracker.py:51-60 | the scan finds the specified match among the unused blobs |
| BlobTracker.BlobTracker.Associate | src/detection/blob_tracker.py:51-81 | one box changes blobs, used ids and results as specified |
| BlobTracker.BlobTracker.Update | src/detection/blob_tracker.py:40-88 | the whole update in place equals the specified transition and results |
| BlobTracker.BlobTracker.Evict | src/detection/blob_tracker.py:83-86 | exactly the blobs within the grace period stay, in order |
| BlobTracker.BlobTracker.Forget | src/detection/blob_tracker.py:94-95 | only the named blob disappears; an unknown id changes nothing |
| BlobTracker.BlobTracker.Clear | src/detection/blob_tracker.py:97-98 | no blobs remain |
| DwellZones.CropRegion | src/detection/person_departure_detector.py:379-388 | a crop is non-empty, from this frame, and inside it |
| DwellZones.MatchZone | src/detection/person_departure_detector.py:197-203 | the first zone in range, none exactly when no zone is in range |
| DwellSteps.ZoneBoxIsPadded | src/detection/person_departure_detector.py:351-360 | a zone box holds exactly the frame pixels of the padded person box |
| DwellSteps.CropIsCropOf | src/detection/person_departure_detector.py:379-388 | a crop shows exactly the pixels of the box that the frame has, and there is none exactly if there is no frame or no such pixel |
| DwellSteps.SightMeans | src/detection/person_departure_detector.py:185-252 | what a sighting does, in full: near a zone the first such zone's centre moves a tenth of the way and the run is taken up from its entry; away from the anchor a run begins with the padded box and its crop; otherwise a missing reference is filled and a full dwell appends a zone and keeps the newest ones |
| DwellSoundness.FirstCropIsEarliest | src/detection/person_departure_detector.py:219-234 | the reference is the crop of the earliest sighting that allows one |
| DwellSoundness.CreatedZoneIsBacked | src/detection/person_departure_detector.py:195-249 | a created zone is backed by one run: all sightings since its entry near its first centre, for the full dwell time, with the run's earliest crop |
| DwellSoundness.ZonesBackedIff | src/detection/person_departure_detector.py:195-252 | that holds for all sightings exactly when the stationary distance is at most the match distance, or no zone can ever be matched |
| DwellSoundness.ZonesPersist | src/detection/person_departure_detector.py:205-252 | a zone's box, entry time and reference never change |
| DwellSoundness.HeldZonesAreBacked | src/detection/person_departure_detector.py:195-252 | every zone held at any time has the box, entry time and reference of the zone that one of the person's sightings made, which was backed then |
| DwellSoundness.SightKeepsDwelt | src/detection/person_departure_detector.py:239-252 | every zone stands for at least the minimum dwell |
| GroundRegions.GroundRegionInside | src/detection/person_departure_detector.py:362-377 | the ground region is the non-empty lower part of the zone box |
| GroundRegions.CropsAligned | src/detection/person_departure_detector.py:289-322 | a zone with a reference is never skipped, and its two crops have equal size and the same frame coordinates at every pixel |
| GroundRegions.FindingsInsideGround | src/detection/person_departure_detector.py:324-347 | differences mapped back lie in the ground region, the zone box and the frame |
| GroundRegions.FindingsMarkDiffs | src/detection/person_departure_detector.py:289-347 | the findings of a zone are, one by one and in order, the differences of its reference and the current frame on the lower three fifths of the zone box; each covers exactly the frame pixels that the crop shows inside the difference, and carries its measures and the person's dwell |
| GroundRegions.NoReferenceNoFindings | src/detection/person_departure_detector.py:289-291 | a zone without a reference has no findings |
| GroundRegions.CheckGoesByZone | src/detection/person_departure_detector.py:287-349 | a check lists the findings of all zones, zone after zone |
| DwellSteps.PrepareMeans | src/detection/person_departure_detector.py:289-319 | whatever the sizes of the frames, a check of a zone with a reference compares exactly the pixels of the lower three fifths of its box that the current frame has with those that the reference has, and skips the zone exactly if one of them has none |
| GroundRegions.SightKeepsFit | src/detection/person_departure_detector.py:185-252 | all boxes and references a person holds fit the frame |
| Departures.UpdateIsPointwise | src/detection/person_departure_detector.py:95-183 | a frame treats each person by that person's own state alone |
| Departures.UpdateKeepsSound | src/detection/person_departure_detector.py:95-183 | person ids stay unique and only known persons are listed as missing |
| Departures.ClearIsPointwise | src/detection/person_departure_detector.py:84-93 | clearing a camera removes its persons from both dictionaries and no other person |
| Departures.CandidatesAreTheFindings | src/detection/person_departure_detector.py:143-183 | a candidate is emitted exactly when it is a finding of a person checked in that frame, tagged with that id |
| Departures.CandidatesInOrder | src/detection/person_departure_detector.py:143-183 | the output is, person by person in dictionary order, all findings of the persons checked, each once and in zone order |
| DepartureRuns.RunIsPointwise | src/detection/person_departure_detector.py:84-183 | over any run the detector is the sum of independent lives, and missing keys are known persons |
| DepartureRuns.ProcessedIsMissing | src/detection/person_departure_detector.py:119-181 | in every reachable state a processed person is listed as missing |
| DepartureRuns.ProcessedWasChecked | src/detection/person_departure_detector.py:136-164 | a processed person was checked and has not been seen since |
| DepartureRuns.CheckedAtMostOnce | src/detection/person_departure_detector.py:134-176 | between two checks of a person there is a sighting |
| DepartureRuns.PurgedWasChecked | src/detection/person_departure_detector.py:156-181 | with a confirmation time of at most 60 s a purged person was checked since last seen |
| DepartureRuns.NeverPurgedUncheckedIff | src/detection/person_departure_detector.py:156-181 | the purge never removes an unchecked person exactly when the confirmation time is at most 60 s |
| DepartureRuns.DepartureIsChecked | src/detection/person_departure_detector.py:143-176 | with a confirmation time of at most 60 s a departure is never lost: an absence that lasts the confirmation time up to a frame with an image has been checked by then |
| DepartureFacts.LifeIsReplay | src/detection/person_departure_detector.py:119-141 | up to the processed flag a person is the replay of its own sightings |
| DepartureFacts.ReplayIsReachable | src/detection/person_departure_detector.py:119-141 | every list of sightings happens to a person in some run |
| DepartureFacts.RunZonesAreBacked | src/detection/person_departure_detector.py:195-252 | every zone in every reachable state of a run goes back to a backed zone made at one of that person's sightings since it was last unknown |
| DepartureFacts.RunsBackZonesIff | src/detection/person_departure_detector.py:195-252 | in every run every zone is backed when made exactly when the stationary distance is at most the match distance, or no zone can ever be matched |
| DepartureFacts.LastSeenIsLastSighting | src/detection/person_departure_detector.py:128-129 | the recorded time is that of the person's last sighting in the run |
| DepartureFacts.LifeIsTimely | src/detection/person_departure_detector.py:128-154 | under a monotone clock a person is missing only after last seen and its zones stand for full dwells |
| DepartureFacts.CandidateOrigin | src/detection/person_departure_detector.py:168-176 | a candidate comes from a check in that very frame of a zone the person holds |
| DepartureFacts.CandidateTiming | src/detection/person_departure_detector.py:154-176 | under a monotone clock a candidate comes at least the confirmation time after the last sighting and reports at least the minimum dwell |
| DepartureFacts.RunCropsAligned | src/detection/person_departure_detector.py:289-322 | in any run with frames of the announced size every zone with a reference is compared on aligned crops |
| DepartureFacts.CandidateInsideFrame | src/detection/person_departure_detector.py:324-347 | in such a run every candidate lies in its zone's ground region and in the frame |
| DepartureFacts.CandidateMarksDiff | src/detection/person_departure_detector.py:279-349 | in such a run every candidate is one difference between the reference of a zone its person holds and the current frame, on the ground of that zone, and covers exactly the frame pixels of that difference |
| DepartureTimes.MissingSinceFirstFrame | src/detection/person_departure_detector.py:143-154 | in any run a known person is missing since the first frame of its camera after its last sighting, and not before |
| DepartureTimes.CheckedIff | src/detection/person_departure_detector.py:143-176 | a known person is checked exactly in a frame of its camera with an image and without the person, at least the confirmation time after the first such frame, when it was not checked since it was last seen |
| DepartureTimes.KnownIff | src/detection/person_departure_detector.py:84-181 | a person is known from a sighting on until its camera is cleared or a frame of it comes more than 60 s after the first one without the person, unless a check is still waiting for an image |
| DepartureTimes.SightingInRun | src/detection/person_departure_detector.py:119-141 | in any run a first sighting makes a person with no zones and a run that begins there, and a later one does exactly what SightMeans says |
| NearestZone.FindsNearestIff | src/detection/person_departure_detector.py:197-203 | for given zones the matched zone is the nearest at every place exactly when no two different centres are closer than twice the match distance |
| NearestZone.CloseZonesMislead | src/detection/person_departure_detector.py:197-203 | two zones too close together give a place whose match is not the nearest |
| NearestZone.TwoPlacesMislead | src/detection/person_departure_detector.py:195-252 | the input: two dwells one and a half match distances apart make zones between which a sighting matches the farther one |
| NearestZone.RunsFindNearestIff | src/detection/person_departure_detector.py:195-252 | in every state of every run the match is the nearest zone exactly when the match distance is not positive, or no zone is ever made, or at most one is kept |
| NearestZone.DefaultsMislead | src/detection/person_departure_detector.py:68-82 | the default settings do not have that property |
| DepartureDetector.TrackedPerson.constructor | src/detection/person_departure_detector.py:42-62 | a person with no zones and no stationary run |
| DepartureDetector.TrackedPerson.FindZone | src/detection/person_departure_detector.py:197-203 | the loop finds the first zone in range |
| DepartureDetector.TrackedPerson.UpdateZones | src/detection/person_departure_detector.py:185-257 | the in-place dwell-zone update equals the specified transition on every path |
| DepartureDetector.TrackedPerson.CheckZones | src/detection/person_departure_detector.py:279-349 | the loop returns the findings of all zones in order |
| DepartureDetector.PersonDepartureDetector.constructor | src/detection/person_departure_detector.py:68-82 | no persons, nobody missing |
| DepartureDetector.PersonDepartureDetector.PresentAll | src/detection/person_departure_detector.py:119-141 | the first loop of a frame, in place |
| DepartureDetector.PersonDepartureDetector.Visit | src/detection/person_departure_detector.py:143-181 | one turn of the second loop, including the early continue |
| DepartureDetector.PersonDepartureDetector.SweepMissing | src/detection/person_departure_detector.py:143-183 | the second loop of a frame, in place, with its candidates |
| DepartureDetector.PersonDepartureDetector.Update | src/detection/person_departure_detector.py:95-183 | the whole frame in place equals the specified transition and output |
| DepartureDetector.PersonDepartureDetector.ClearCamera | src/detection/person_departure_detector.py:84-93 | both dictionaries without the camera's persons |
| Tiling.StrideWithinTile | src/detection/open_vocab_object_detector.py:231 | with the clamped overlap a stride is never longer than a tile |
| Tiling.TilesShare | src/detection/open_vocab_object_detector.py:229-235 | neighbouring tiles share the configured part of a tile, up to half a pixel; only the last two may share more |
| Tiling.Starts | src/detection/open_vocab_object_detector.py:232-235 | the range and the final append give ceil((L-T)/stride)+1 starts, each i strides in but never past the last possible one |
| Tiling.StartsSpan | src/detection/open_vocab_object_detector.py:232-235 | starts go from 0 to the last possible one, strictly increase, and all tiles lie in the frame |
| Tiling.PixelsCovered | src/detection/open_vocab_object_detector.py:232-252 | every pixel lies in some tile |
| Tiling.EveryIntervalFitsIff | src/detection/open_vocab_object_detector.py:232-252 | objects of a length lie whole in some tile at every position exactly when the length is at most a tile less the widest gap plus one |
| Letterbox.Place | src/detection/open_vocab_object_detector.py:109-120 | the resized image with its padding fits the canvas and fills one side of it |
| Letterbox.PlaceIsCentred | src/detection/open_vocab_object_detector.py:109-120 | the ratio is the largest with which both sides fit, both sides are scaled by it up to half a pixel, and the padding is the same on both sides up to a pixel |
| Letterbox.BackWithinHalfPixelIff | src/detection/open_vocab_object_detector.py:111-119 | before clamping every point comes back within half a canvas pixel exactly when the scaled side is at least half a pixel |
| Letterbox.DecodeWithinHalfPixel | src/detection/open_vocab_object_detector.py:173-176 | as decoded and clamped every point comes back within half a canvas pixel for all sizes |
| Letterbox.DecodeBoxIsBox | src/detection/open_vocab_object_detector.py:173-176 | the decoded box is the anchor's, mapped back edge by edge and cut off at the image border |
| Letterbox.OneBoxOf | src/detection/open_vocab_object_detector.py:173-176 | there is only one such box |
| Letterbox.BoxRoundTrip | src/detection/open_vocab_object_detector.py:109-176 | every edge of a box survives the trip through the canvas up to half a canvas pixel |
| OpenVocabDetector.ConfigureSucceedsIff | src/detection/open_vocab_object_detector.py:30-36 | construction succeeds exactly when there are targets and each is the normal form of a prompt, and otherwise names those that are not |
| OpenVocabDetector.ConfiguredIsUsable | src/detection/open_vocab_object_detector.py:38-48 | the settings are in range after construction, moved only as far as the ranges ask for, and nothing else is changed |
| OpenVocabDetector.TargetIdIff | src/detection/open_vocab_object_detector.py:96-107 | a class is a target exactly when its prompt has a target's normal form and no later prompt has the same |
| OpenVocabDetector.BestNegativeIsBest | src/detection/open_vocab_object_detector.py:151-155 | the opposing score is the highest negative one, 0 when every prompt is a target |
| OpenVocabDetector.KeptIff | src/detection/open_vocab_object_detector.py:142-160 | an anchor is kept exactly when some target prompt reaches the threshold and beats every negative prompt by the margin |
| OpenVocabDetector.DecodeRows | src/detection/open_vocab_object_detector.py:171-187 | the decode loop yields the kept anchors with a proper box, in order |
| OpenVocabDetector.DetectSingle | src/detection/open_vocab_object_detector.py:127-209 | one image, with the empty image and the wrong tensor shape handled |
| OpenVocabDetector.DetectTiles | src/detection/open_vocab_object_detector.py:237-252 | the tile loop collects all detections in frame coordinates and ends at a wrong shape |
| OpenVocabDetector.Detect | src/detection/open_vocab_object_detector.py:211-270 | the whole call, tiled or not |
| OpenVocabFacts.ImageGathersFinds | src/detection/open_vocab_object_detector.py:140-209 | one image: the final choice is from exactly the anchors on which some target prompt wins and that stand for a proper box, one detection each, in order |
| OpenVocabFacts.PickFacts | src/detection/open_vocab_object_detector.py:197-209 | the result lists distinct survivors of the suppression, strongest first and as many as there are or the maximum allows |
| OpenVocabFacts.PickKeepsStrongest | src/detection/open_vocab_object_detector.py:197-209 | a survivor is missing only from a full result of detections at least as strong |
| OpenVocabFacts.OverTilesCollects | src/detection/open_vocab_object_detector.py:238-252 | nothing found in a tile is lost before the global suppression |
| OpenVocabFacts.UntiledIsOneImage | src/detection/open_vocab_object_detector.py:221-226 | with tiling off, or the long side at most the threshold times the short side, the frame is one image |
| OpenVocabFacts.TiledGathersAll | src/detection/open_vocab_object_detector.py:221-270 | with tiling on and a longer side, everything found on the tiles goes, tile after tile and shifted to frame coordinates, into the list of the final choice |
| OpenVocabFacts.FrameFailsIff | src/detection/open_vocab_object_detector.py:211-252 | detection fails exactly if the model's output for some tile, or for the whole untiled frame, does not have one score per prompt |
| OpenVocabFacts.TilesCoverFrame | src/detection/open_vocab_object_detector.py:221-243 | with tiling on and a long enough side, every pixel of the frame lies in some tile, and all tiles are squares of the short side inside the frame |
| OpenVocabFacts.ObjectsFitSomeTile | src/detection/open_vocab_object_detector.py:228-243 | an object of at most tile less stride plus one pixels lies whole in some tile, for the clamped configuration |
| OpenVocabFacts.FrameDetections | src/detection/open_vocab_object_detector.py:211-270 | every returned detection reports a winning target prompt of an anchor of one of the tiles (of the whole frame when not tiled), its margin over the best negative, and the anchor's own box, proper and inside that tile and the frame |
| OpenVocabFacts.FrameIsRanked | src/detection/open_vocab_object_detector.py:268-270 | results come strongest first, never more than the maximum |

## Left out

- Floating-point rounding, infinities and NaN: all arithmetic is exact.
- Pixel work (colour conversion, resizing, template correlation, structural similarity, background subtraction): its results are parameters with stated contracts.
- Model loading, inference, provider choice and label normalisation: inputs of the model.
- `position_history` and `_is_person_stationary`: written or defined but never read by the modelled code.
- `get_last_bbox`, logging and the callers in `src/main.py`.
- The verifiers' `_crop` and their own letterbox: the same arithmetic as the detector's letterbox. Of their constructors the label checks are modelled (`TargetVerifier.Constructed`), the model loading is not.
- Dwell zones are values in a person's list, not objects, so in-place mutation of a zone through another reference is not captured; no other reference exists in the source.
- BlobTracker.TrackedBlob.constructor: the blob's own clock reading, taken just after that of the update, is that of the update.
- DepartureDetector.TrackedPerson.constructor: likewise for the person's own clock readings, of which only the first sighting time is kept.
- The detector's parallel lists of boxes, scores and labels are one list of records, and class names are numbered 0, 1, 2, ... as a list; a dictionary of names with gaps is not modelled.
- The tensor is taken with one row per anchor; the transposition of the other layout is not modelled.
- The second loop of a departure frame, and the eviction loops of both trackers, rebuild the dictionary after the loop where the source deletes each entry inside it; nothing reads the dictionary in between.
- The threshold predicates of `src/detection/shape_filters.py` and the deprecated motion detector.
