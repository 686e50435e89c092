# blesentry: a verified model of its state machines

blesentry is a sentinel daemon that listens to Bluetooth advertisements, decides
which devices they come from, and alerts an operator. Its value lies in a handful
of long-running state machines. This project models those machines in Dafny and
proves what they keep on every run.

`dafny verify dfyconfig.toml` checks the whole project.

| file | what it models |
|---|---|
| `Orders.dfy` | options, results, Python's `sorted` on sets and its prefixes |
| `Presence.dfy`, `PresenceHistory.dfy`, `PresenceTracker.dfy` | the debounce and cooldown automaton, its history-only meaning, and the pruned map that runs it |
| `Features.dfy`, `LeastSquares.dfy`, `Approach.dfy` | window features, least squares, the rising-approach trigger |
| `Visits.dfy`, `Trajectory.dfy`, `FeatureVectors.dfy`, `TrajectoryRuns.dfy` | the bounded online tracker, the unbounded offline batch, and when they agree |
| `ApproachDetector.dfy`, `ApproachRuns.dfy`, `Readings.dfy` | one approach event a visit, and what rows, vectors and events say in plain numbers |
| `Crowd.dfy`, `Baselines.dfy`, `CrowdBaseline.dfy`, `CrowdDetector.dfy`, `CrowdRuns.dfy` | floored MAD, Page CUSUM, the two-tier baseline with episode freeze and hold-and-backfill, and the detector over whole runs |
| `CrowdBackfill.dfy`, `CrowdReanchor.dfy`, `CrowdYardstick.dfy` | the order in which the detector learns, an episode that outlives its week, and what each window is measured against, read off the run |
| `Fusion.dfy`, `Tables.dfy`, `DeviceStore.dfy` | the fusion score, the device and alias tables, and the repository over them |
| `Resolutions.dfy`, `Resolver.dfy`, `ResolverRuns.dfy`, `ResolverKinship.dfy`, `ResolverMemory.dfy` | the resolver's memory, cycles that commit or roll back, why the keys of one device belong together, and what fuses, which address is kept and which candidates are remembered |
| `Drain.dfy`, `DrainProtocol.dfy` | the outbox queue, its backoff, and the drain as a protocol with enqueues and crashes in between |
| `InitSession.dfy`, `InitProtocol.dfy`, `InitCommands.dfy` | the label session that chat and CLI share, step by step, and what each verb does undisturbed |

Objects that the program updates in place are classes whose methods are proved
against functions on plain values (or, for the two trackers, against the ghost
history they have seen); the theorems are lemmas about those functions, by
induction over runs. In the two protocols a run is a sequence of atomic steps in
any order.

Times are integer milliseconds (seconds as reals in the drain, truncated to
milliseconds as `iso_utc` does), floats are reals, a NaN bucket is `None`, fusion
weights are hundredths, and `fingerprint_key` is an injective constructor. An
alias row, an outbox row and a session are named by their place in id order. What
two clock-ordered queries return at boot, the jitter draw, the notifier's answers
and the clock are parameters, so every value is covered.

## What the proofs found

* **A CLI name can miss the device its user was asked about.** The CLI binds
  `expected_device_id` when it re-reads the session at `src/blesentry/init.py:404-407`, after
  the prompt was printed. A chat name between the two moves the cursor, and the
  name typed for the printed device lands on the next one
  (`InitProtocol.NameMayMissThePrompt`). A name is sure to land on the prompted
  device or nowhere if and only if that re-read found exactly the prompted device
  under the cursor (`InitSessions.NameIsSafeExactly`). The docstring at
  `src/blesentry/init.py:216-218` promises more than the code keeps.
* **A redelivered name can label the next device.** `docs/schema.md:189` says a
  redelivered update does not apply again. When another consumer has moved the
  cursor, the name's own transaction moves on, and may advance the cursor itself,
  without recording the message (`src/blesentry/init.py:231-255`). Its redelivery
  then names the device under the cursor (`InitProtocol.OvertakenMessageLabels`).
  Redelivery is harmless exactly when the message was recorded
  (`InitProtocol.RedeliveryExactly`).
* **`/ignore d` can ignore another device.** It compares d with one read and labels
  what a second read finds (`InitProtocol.IgnoreMayMissItsDevice`).
* **A CLI look that finds no device switches the check off.** A line typed then names
  whatever is under the cursor by then (`InitProtocol.UnguardedNameMayMiss`).
* **Online tracking equals the offline batch only until a fade.** With no more
  identities than the cap, a row matches if and only if no window has yet found
  that identity unheard for `fade_after` indexes
  (`TrajectoryRuns.OnlineMatchesOffline`); gaps of at most `fade_after` never fade.
* **The veto between stable twins is pairwise.** Two of them can each fuse with one
  sighting of unknown provenance, all in one cycle (`ResolverKinship.TwinsMeet`), so
  the model claims no global separation of twins; every single fusion is justified and
  not vetoed (`ResolverKinship.ChainToRoot`).
* **A score of zero never matches**, whatever the threshold: `_best_match` needs a
  candidate that is both positive and at the threshold (`Fusion.MatchesExactly`).
* **Hold-and-backfill can reorder samples.** `docs/crowd-baseline.md:57-61` says that
  the queue drains in chronological order when trust returns, and that a re-anchor
  discards it. But a trusted window that comes before any install, or that ends an
  episode, learns its own sample before the older ones
  (`src/blesentry/detection/crowd_baseline.py:170-174` and `381-383`).
  `CrowdBackfill.LearnedInOrderExactly` proves that nothing else goes wrong, and
  `CrowdBackfill.FirstTrustedOvertakes` gives the smallest case.
* **The rolling tier does not run live.** `docs/crowd-baseline.md:60-61` says rolling is
  always updated; `finish_window` returns before that on every untrusted window. A
  detector whose clock is never trusted has no baseline and never alerts
  (`CrowdBackfill.NeverTrustedNeverAlerts`).
* **An episode can keep the seasonal tier without a week of trusted time.** The pinned
  tier is documented; that a re-anchor inside the episode empties the trusted time
  under it is not (`CrowdReanchor.EpisodeOutlivesItsWeek`). Nothing else does
  (`CrowdRuns.SeasonalEpisodeKeepsItsWeek`).
* **A re-anchor during an episode empties the backfill queue**, so the episode
  freeze covers the seasonal, rolling and residual stores only
  (`CrowdRuns.EpisodeWindow` says exactly when the queue survives).
* **Two of the four re-anchor clauses never decide alone.** On every run the install
  age restarts exactly when the trusted step is backward or longer than a day
  (`CrowdRuns.ReanchorsExactly`); the week-long jump and the look back before the
  install are implied.
* **Documentation against code.** `src/blesentry/presence.py:89-90` says the cooldown follows an
  emitted PRESENT; the code starts it at every departure, and the model follows the
  code. `src/blesentry/storage/repository.py:149` says an upsert always replaces the address; the
  statement keeps the old address when none is given.

## Model

| member | source | states |
|---|---|---|
| PresenceHistory.OutputExact | src/blesentry/presence.py:138-197 | the automaton emits PRESENT or ABSENT at a window exactly when the hit history says so: an unbroken streak of `appear_windows` hits by a device not inside, at least `cooldown_windows` after every earlier departure; or the end of an announced visit |
| PresenceHistory.AfterMeans | src/blesentry/presence.py:138-197 | every counter and flag of the automaton, present or absent, read off the hit history alone after any run |
| PresenceHistory.InsideStep | src/blesentry/presence.py:162-185 | being inside starts with a full hit run, ends with a full miss run, and nothing else moves it |
| PresenceTracking.PresenceTracker.Update | src/blesentry/presence.py:111-160 | pruning is invisible: a window's transitions, in id order, are exactly those of a tracker that never forgets; and a device is in the map exactly when it was heard and no window since was one at which nothing was left to know, so within max(prune_after, disappear + max(1, cooldown)) windows |
| PresenceTracking.Build | src/blesentry/presence.py:71-109 | which thresholds are refused, and the default prune bound |
| PresenceTracking.StepOne | src/blesentry/presence.py:138-160 | one window keeps the map's entry equal to the never-forgetting automaton, or drops it when nothing is lost |
| PresenceTracking.ForgetsExactly | src/blesentry/presence.py:178-206 | a device is dropped exactly at a miss that finds it absent, unheard for `prune_after` windows, past the cooldown of every departure, and not announcing one |
| PresenceTracking.CooldownDecays | src/blesentry/presence.py:186-206 | an absent device's cooldown runs down one a window from its departure, so pruning is never postponed for ever |
| PresenceTracking.RetainedIsRecent | src/blesentry/presence.py:199-206 | a device kept in memory was heard within the memory bound |
| PresenceTracking.LogAlternates | src/blesentry/presence.py:162-197 | over any run one device's transitions alternate PRESENT, ABSENT, PRESENT |
| PresenceTracking.ShortRunsEmitNothing | src/blesentry/presence.py:162-176 | hit runs shorter than `appear_windows` never emit anything |
| Features.BestRssiIsMaximum | src/blesentry/detection/features.py:133-160 | the window map holds each address's maximum RSSI and no other address |
| Features.MaxRssiByIdentity | src/blesentry/detection/features.py:133-160 | the loop computes that map for either stream and refuses an unknown one |
| LeastSquares.CoDeviationIsPairSum | src/blesentry/detection/features.py:200-205 | n times the numerator about the means is the sum over all pairs of (xj - xi)(yj - yi) |
| LeastSquares.SlopeIsPairRatio | src/blesentry/detection/features.py:185-206 | over increasing indexes the slope exists from two samples on and is the ratio of the pair sums |
| LeastSquares.SlopeWithinSpan | src/blesentry/detection/features.py:185-246 | no slope is steeper than the RSSI span |
| LeastSquares.SlopeSign | src/blesentry/detection/features.py:185-206 | the slope is positive exactly when the pair sum is |
| Approach.FallingNeverRises | src/blesentry/detection/approach.py:31-59 | eight samples that never climb are never an approach |
| Approach.ClimbRisesExactly | src/blesentry/detection/approach.py:31-59 | on a monotone climb the trigger is exactly start at or below -85, end at or above -75 and rise of at least 18 |
| Approach.RisesExactly | src/blesentry/detection/approach.py:31-59 | for samples in any shape: the last eight trigger if and only if two of them differ by 18, their pair sum is positive, the last is at -75 or above, some sample is at -85 or below, and no two differ by more than twice the rise from first to last |
| FeatureVectors.BandsNest | src/blesentry/detection/features.py:163-182 | the nested counts that BandCounts validates always nest |
| FeatureVectors.DutyIsAFraction | src/blesentry/detection/features.py:309-321 | on increasing windows every duty lies in (0, 1] |
| Readings.BatchRowReadsRun | src/blesentry/detection/features.py:291-322 | an offline row in terms of the windows: best RSSI now, first window heard, age, windows heard, dwell as the consecutive windows it ends in, duty times age the windows heard, and duty one exactly when dwell is all of them |
| Readings.BatchSlopeReadsRun | src/blesentry/detection/features.py:305-316 | its slope and span are the pair ratio and the widest difference of the last W hearings |
| Readings.StreakExactly | src/blesentry/detection/features.py:297-304 | dwell is exactly how many of the last hearings lie on consecutive windows |
| Readings.BandsCountExactly | src/blesentry/detection/features.py:163-182 | each nested count is the number of identities at or above -80, -70 and -55, however they are listed |
| Readings.ChurnExactly | src/blesentry/detection/features.py:284-339 | appeared and disappeared count those heard now and not before, and before and not now, and balance the change of count_all |
| Readings.FlowBalances | src/blesentry/detection/features.py:284-339 | over a whole batch appearances less disappearances are those heard in the last window |
| FeatureVectors.ExtractFeatures | src/blesentry/detection/features.py:249-341 | the batch loop over four dictionaries yields, per window, the vector read off each identity's whole list of hearings |
| Trajectory.Track.Push | src/blesentry/detection/trajectory.py:87-101 | the counters and the bounded deque stay those of the whole visit with one more sample |
| Trajectory.Track.Snapshot | src/blesentry/detection/trajectory.py:103-120 | the row shown is the row of the whole visit; only an empty visit is an error |
| Readings.RowReadsVisit | src/blesentry/detection/trajectory.py:87-120 | the row in plain terms: minimum, first index, windows and age of the whole visit, dwell as the consecutive windows it ends in, slope and span of its last eight samples |
| Trajectory.TrajectoryTracker.Observe | src/blesentry/detection/trajectory.py:168-244 | the live tracks carry exactly the visits that fade, eviction and admission leave, the rows are theirs in identity order, and a window out of order or an unknown source changes nothing |
| Trajectory.TrajectoryTracker.MakeRoom | src/blesentry/detection/trajectory.py:207-231 | what eviction leaves and who is admitted, as the lowest by last hearing and the strongest newcomers |
| Visits.NextWithinCap | src/blesentry/detection/trajectory.py:195-244 | the cap is never exceeded and an overflowing window ends exactly full |
| TrajectoryRuns.RunWithinCap | src/blesentry/detection/trajectory.py:195-244 | no run ever holds more live tracks than the cap |
| TrajectoryRuns.SamplesWithinCap | src/blesentry/detection/trajectory.py:158-161 | on every run the deques together hold at most eight samples for each track the cap allows |
| TrajectoryRuns.HeardTracksStay | src/blesentry/detection/trajectory.py:198-242 | a track heard this window survives it with this window's sample |
| TrajectoryRuns.EvictionIsFair | src/blesentry/detection/trajectory.py:210-224 | the evicted come before any idle survivor in the order (last heard, identity), and exactly the overflow goes |
| TrajectoryRuns.AdmissionIsFair | src/blesentry/detection/trajectory.py:225-231 | an admitted newcomer comes before a refused one in the order (strongest, identity) |
| TrajectoryRuns.VisitIsSuffix | src/blesentry/detection/trajectory.py:73-101 | a visit is the latest part of everything heard, so the deque is the visit's last eight samples |
| TrajectoryRuns.OnlineMatchesOffline | src/blesentry/detection/trajectory.py:168-244 | with at most cap identities a heard identity always has a row, equal to the offline one if and only if it never faded |
| TrajectoryRuns.ShortGapsNeverFade | src/blesentry/detection/trajectory.py:198-205 | gaps of at most `fade_after` between hearings never fade |
| TrajectoryRuns.OnlineRefinesOffline | src/blesentry/detection/features.py:273-341 | with short gaps and at most cap identities the online rows equal the batch rows, one by one and in order |
| ApproachDetection.ApproachDetector.Observe | src/blesentry/detection/approach_detector.py:61-93 | a window's events are exactly the live visits whose first rise is now, one each, and the alerted set stays the live visits that have risen |
| ApproachDetection.DequeDecides | src/blesentry/detection/approach.py:43-59 | eight samples decide as the whole visit would |
| Readings.EventReadsWindow | src/blesentry/detection/approach_detector.py:75-93 | an event carries this window's index and its device's best RSSI there, which is at -75 or above, with the band of that RSSI |
| Readings.BandExactly | src/blesentry/detection/features.py:209-232 | the label is adjacent from -55, near from -70, far from -80 and beyond far below |
| ApproachRuns.FiresOncePerVisit | src/blesentry/detection/approach_detector.py:75-93 | between two events for one identity its track was dropped, and their indexes differ by at least nine |
| ApproachRuns.RisenMeansRaised | src/blesentry/detection/approach_detector.py:75-93 | a live visit has ever looked like an approach if and only if some window of that visit raised its event |
| Crowd.MedianSplits | src/blesentry/detection/crowd.py:70-72 | at least half the sample lies on each side of the median |
| Crowd.HalfWithinScale | src/blesentry/detection/crowd.py:58-73 | at least half the residuals lie within the scale of their median |
| Crowd.MedianIsMiddle | src/blesentry/detection/crowd.py:70 | the median is the mean of the two middle values of any ascending listing of the sample |
| Crowd.ScaleIsMiddleDistance | src/blesentry/detection/crowd.py:70-73 | the scale is the middle distance from the middle value, and 1.5 at least |
| Crowd.EwmaAlpha | src/blesentry/detection/crowd.py:38-44 | a span of at least one gives a weight in (0, 1] that times span + 1 is two, and any other span is refused |
| Crowd.CusumIsBestSuffix | src/blesentry/detection/crowd.py:76-97 | the accumulator is the best sum of z - k over a suffix since the last z at or below -k, the empty suffix included |
| Crowd.AlarmExactly | src/blesentry/detection/crowd.py:76-97 | the accumulator reaches h exactly when some stretch since the last reset, ending now, totals h plus k a window |
| Baselines.HourOfWeekExactly | src/blesentry/detection/crowd_baseline.py:50-53 | the bucket counts whole hours since some Monday midnight UTC |
| CrowdBaselines.CrowdBaseline.BeginWindow | src/blesentry/detection/crowd_baseline.py:160-174 | the whole new state of the window's opening: tier forgotten, re-anchored or drained, or untouched in an episode |
| CrowdBaselines.CrowdBaseline.DrainBackfill | src/blesentry/detection/crowd_baseline.py:381-390 | the loop empties the queue into the seasonal buckets in order, only once installed |
| CrowdBaselines.CrowdBaseline.NoteTrustedTime | src/blesentry/detection/crowd_baseline.py:238-268 | the clock bookkeeping, and the steps that restart the install age |
| CrowdBaselines.CrowdBaseline.PreviewWindow | src/blesentry/detection/crowd_baseline.py:129-158 | tier, baseline, scale and excess read from the state without changing it |
| CrowdBaselines.CrowdBaseline.FinishWindow | src/blesentry/detection/crowd_baseline.py:176-207 | the whole new state of the window's closing, frozen, held back or learned |
| CrowdDetection.CrowdDetector.Observe | src/blesentry/detection/crowd_detector.py:99-163 | the mismatch error is unreachable; a firing window yields one event with this window's counts and the ascending roster of exactly the near ids |
| CrowdDetection.RosterSize | src/blesentry/detection/crowd_detector.py:34-44 | the roster has as many members as count_near |
| CrowdRuns.HoursTelescope | src/blesentry/detection/crowd_baseline.py:238-268 | trusted operating time is always the span from the install anchor to the last trusted sample |
| CrowdYardstick.ClockOfRun | src/blesentry/detection/crowd_detector.py:88-110 | a window's time is the injected one or the replay grid's, and its clock is trusted as last said or as at boot |
| CrowdYardstick.ClockExactly | src/blesentry/detection/crowd_baseline.py:238-268 | on every run the install anchor and the last trusted time are the ends of the longest stretch of trusted times that ends now with every step between nothing and a day |
| CrowdYardstick.SeasonalExactly | src/blesentry/detection/crowd_baseline.py:227-280 | outside an episode a window is measured by the seasonal tier if and only if its clock is trusted, its step is ordinary and that stretch spans a week |
| CrowdRuns.SeasonalNeedsAWeek | src/blesentry/detection/crowd_baseline.py:227-280 | a window uses the seasonal tier only if the window that chose its tier had a week of trusted time since the anchor; outside an episode that is the window itself, inside one it is the trigger window |
| CrowdRuns.ReanchoredEpisodeKeepsTier | src/blesentry/detection/crowd_baseline.py:186-236 | inside an episode a re-anchoring step leaves no trusted time at all, and the next window still uses the seasonal tier |
| CrowdRuns.SeasonalEpisodeKeepsItsWeek | src/blesentry/detection/crowd_baseline.py:186-268 | through a seasonal episode the week of trusted time is there after every window if and only if no window re-anchors |
| CrowdReanchor.EpisodeOutlivesItsWeek | src/blesentry/detection/crowd_baseline.py:186-268 | a run of eleven windows in which the next window of a re-anchored episode uses the seasonal tier on no trusted time |
| CrowdRuns.ReanchorsExactly | src/blesentry/detection/crowd_baseline.py:250-261 | on every run a step restarts the install age exactly when it does not lie between nothing and a day |
| CrowdRuns.ColdStartTakesEight | src/blesentry/detection/crowd_baseline.py:227-280 | whatever the clock does, the first eight windows of a run all preview with the rolling tier |
| CrowdRuns.AlwaysSound | src/blesentry/detection/crowd_detector.py:112-163 | in every reachable state nothing remembered is negative, the CUSUM is not negative, and a CUSUM at h or more is already alerted |
| CrowdRuns.EventsAreWellFormed | src/blesentry/detection/crowd_detector.py:128-163 | a firing window has count_near of at least one, above a baseline that is not negative, with scale at least 1.5 |
| CrowdRuns.NonIncreasingNeverAlerts | src/blesentry/detection/crowd_baseline.py:282-390 | occupancy that never rises keeps the CUSUM at zero and never alerts, for any clocks, jumps and drains |
| CrowdRuns.EpisodeWindow | src/blesentry/detection/crowd_baseline.py:176-191 | in an episode a window changes neither stores nor tier, and keeps the queue exactly unless a trusted clock re-anchors |
| CrowdRuns.EpisodeFreezes | src/blesentry/detection/crowd_baseline.py:160-236 | from the trigger window until the CUSUM is back at zero the four stores stay as the trigger window opened them, and every preview uses its tier |
| CrowdRuns.EpisodeYardstick | src/blesentry/detection/crowd_baseline.py:301-323 | in an episode tier and scale, and the baseline once anything is stored, do not depend on the count being measured |
| CrowdYardstick.YardstickExactly | src/blesentry/detection/crowd_baseline.py:129-158 | on every run a window's baseline is the weighted mean of the learned counts of its hour, or the plain mean of the last 40320 unfrozen trusted counts, or its own count if there are none; its scale is the floored MAD of its peers, with its own residual outside an episode; and z is its excess on that scale |
| CrowdYardstick.BucketIsWeightedMean | src/blesentry/detection/crowd_baseline.py:335-390 | a seasonal bucket is the mean of its hour's counts weighted by 2/57 times 55/57 for each later one, the first seeding it, and its residuals are the last 56 distances from the mean so far |
| CrowdYardstick.WeightsSumToOne | src/blesentry/detection/crowd.py:38-44 | those weights sum to one |
| CrowdYardstick.ResidualsAreWhatWasMeasured | src/blesentry/detection/crowd_baseline.py:341-360 | on every run the rolling residuals are the last 56 excesses that rolling windows, trusted and unfrozen, were measured by |
| CrowdRuns.StoresBounded | src/blesentry/detection/crowd_baseline.py:61-75 | on every run the rolling and residual stores stay within their caps; the held queue is bounded only by the windows seen |
| CrowdRuns.AccumulatorIsCusum | src/blesentry/detection/crowd_detector.py:122-133 | on every run the detector's accumulator is the CUSUM of the run's excesses |
| CrowdRuns.AlertedExactly | src/blesentry/detection/crowd_detector.py:143-153 | the fire-once flag is up exactly while an episode that reached h goes on |
| CrowdRuns.EventExactly | src/blesentry/detection/crowd_detector.py:128-163 | a window raises an event exactly when the CUSUM reaches h there for the first time since it was last zero |
| CrowdRuns.EventNeedsExcess | src/blesentry/detection/crowd_detector.py:128-147 | an event needs a stretch of windows since the last reset whose total excess is at least h plus k a window |
| CrowdBackfill.SeasonalIsWhatWasLearned | src/blesentry/detection/crowd_baseline.py:160-207 | on every run the seasonal buckets and their residuals are exactly the learned samples absorbed into an empty tier in the order of learning, and the queue is exactly the samples still held |
| CrowdBackfill.LearnedInOrderExactly | src/blesentry/detection/crowd_baseline.py:160-207 | every sample no episode froze is learned or held, in the order seen, if and only if no window with samples held back re-anchors on a trusted clock, ends an episode on one, or is the first trusted one |
| CrowdBackfill.DrainingCatchesUp | src/blesentry/detection/crowd_baseline.py:381-390 | on such a run draining leaves the seasonal tier as if every unfrozen sample had been learned in its own window |
| CrowdBackfill.FirstTrustedOvertakes | src/blesentry/detection/crowd_baseline.py:381-383 | a sample held before the first trusted window is learned after it: two counts of one hour give the in-order bucket value if and only if they are equal |
| CrowdBackfill.RollingIsWhatWasTrusted | src/blesentry/detection/crowd_baseline.py:192-207 | on every run the rolling tier is the last 40320 counts of the trusted windows no episode froze; untrusted counts never reach it |
| CrowdBackfill.NeverTrustedNeverAlerts | src/blesentry/detection/crowd_baseline.py:193-207 | a detector whose clock is never trusted keeps an empty rolling tier and never alerts, at any occupancy |
| Fusion.HexRoundTrip | src/blesentry/resolver.py:69-74 | hex text decodes to the bytes it was made from |
| Fusion.FromHexInverts | src/blesentry/resolver.py:69-74 | whatever text decodes is the hex text of its bytes, but for blanks and case |
| Fusion.HapIdIsStable | src/blesentry/resolver.py:56-75 | an accessory keeps its HomeKit id whatever its flags, counter and trailing bytes are |
| Fusion.HapIdExactly | src/blesentry/resolver.py:56-75 | the id is bytes 3 to 8 of an Apple payload of type 6 with nine bytes or more, and nothing else is |
| Fusion.FusionScoreIsSymmetric | src/blesentry/resolver.py:127-179 | the score does not depend on which sighting comes first |
| Fusion.ScoreExactly | src/blesentry/resolver.py:42-179 | the score in hundredths, signal by signal: vetoed 0, HomeKit 100 or 0, else payload 50 or company set 30, services 25, name 25, address 60 |
| Fusion.ReachesDefaultExactly | src/blesentry/resolver.py:127-179 | 55 is reached exactly when not vetoed and with the same HomeKit id, or the same address, or the payload or company set together with the service set or the name |
| Fusion.AboveCompanyOnly | src/blesentry/resolver.py:127-179 | a score exceeds the company-only weight exactly when the pair is not vetoed and shares a HomeKit id, or an address, the full payload, or two of company set, service set and name |
| Fusion.VetoIsPairwise | src/blesentry/resolver.py:134-149 | two vetoed twins can each score 75 with one sighting between them |
| ResolverKinship.TwinsMeet | src/blesentry/resolver.py:224-288 | one cycle in which two stable twins and a sighting of unknown provenance between them all resolve to one device |
| ResolverKinship.AliasesAreJustified | src/blesentry/resolver.py:273-281 | on every run of seedings and cycles each alias was there from the start or was fused, with a justified score, against a key already traced to the same device |
| ResolverKinship.ChainToRoot | src/blesentry/resolver.py:273-281 | every fused key is linked to a root of its device by a chain of justified pairs, none of them vetoed |
| ResolverKinship.ResolvedKin | src/blesentry/resolver.py:224-288 | one sighting keeps every key held by memory or tables traced to its device |
| Fusion.BestMatch | src/blesentry/resolver.py:290-313 | the loop returns the id of the first highest candidate when it is positive and reaches the threshold, and nobody otherwise |
| Fusion.MatchesExactly | src/blesentry/resolver.py:290-313 | somebody is matched exactly when some candidate is positive and at the threshold |
| ResolverMemory.NewDeviceExactly | src/blesentry/resolver.py:224-313 | at the default threshold an unseen sighting makes a new device exactly when no candidate corroborates it |
| ResolverMemory.FusesWithOneExactly | src/blesentry/resolver.py:273-288 | with one candidate it joins that device if corroborated and gets the next id if not |
| ResolverMemory.FusesWithBest | src/blesentry/resolver.py:290-313 | otherwise it joins the first of the highest scores, committed candidates before this cycle's |
| ResolverMemory.KeyExactly | src/blesentry/resolver.py:107-124 | two sightings have one key exactly when address, name, payloads and set of services agree, and a stored key gives its fingerprint back |
| Fusion.WinnerIsJustified | src/blesentry/resolver.py:290-313 | above the company-only weight the winning candidate itself is justified, and its device is the one chosen |
| Tables.OneOwner | src/blesentry/storage/repository.py:273-335 | in consistent tables a key is bound to one device at most |
| Tables.DropOldestCaps | src/blesentry/storage/repository.py:337-365 | deleting the lowest ids over the cap keeps exactly the newest aliases of that device and all of the others |
| Tables.CappedCount | src/blesentry/storage/repository.py:337-365 | how many aliases each device has after a prune |
| Tables.BoundGrows | src/blesentry/storage/repository.py:273-335 | recording a free key keeps the tables consistent, binds it to its device even when the prune runs, and binds nothing else |
| Tables.CreatedGrows | src/blesentry/storage/repository.py:159-204 | creating a device for a free key keeps the tables consistent and binds nothing else |
| Tables.BoundWithinCap | src/blesentry/storage/repository.py:282-334 | no binding takes a device over the alias cap |
| Tables.SweptIsCapped | src/blesentry/storage/repository.py:367-386 | the seed-time sweep caps every device, keeps consistency and adds no binding |
| DeviceRepositories.DeviceRepository.Upsert | src/blesentry/storage/repository.py:139-204 | an alias key is refused; a founding key keeps its device, whose address, label and description change only where something is given; a free key gets a fresh device |
| DeviceRepositories.DeviceRepository.RecordAlias | src/blesentry/storage/repository.py:273-335 | exactly when it is refused and with which error, and the tables it leaves |
| DeviceRepositories.DeviceRepository.PruneExcessAliases | src/blesentry/storage/repository.py:367-386 | pruning the devices over the cap one by one, in any order, is capping all of them, and the number returned is the number of rows gone |
| DeviceRepositories.DeviceRepository.GetByAlias | src/blesentry/storage/repository.py:388-418 | in consistent tables the join finds the alias owner, who exists |
| DeviceResolvers.DeviceResolver.Resolve | src/blesentry/resolver.py:224-288 | no store conflict is ever raised; the device found and the whole new state of memory and tables, which still agree |
| DeviceResolvers.DeviceResolver.Commit | src/blesentry/resolver.py:315-329 | the published memory, with the cache cleared over its bound and the window trimmed from the old end |
| DeviceResolvers.DeviceResolver.Seed | src/blesentry/resolver.py:337-402 | the warmed memory for whatever order the two queries return, in agreement with the swept tables |
| DeviceResolvers.DeviceResolver.RunCycle | src/blesentry/loop.py:239-315 | a cycle either commits and publishes or rolls back and forgets, and the agreement holds after both |
| Resolutions.StageAgrees | src/blesentry/resolver.py:251-288 | staging a newly identified key keeps memory and tables in agreement |
| Resolutions.ResolveAgrees | src/blesentry/resolver.py:224-288 | every branch of a resolve keeps the agreement and leaves the key known under its device |
| ResolverMemory.AddressExactly | src/blesentry/resolver.py:237-288 | at any point of any run a sighting leaves its address on its device exactly when it is not the device's own founding sighting and has one, and changes nothing else of any device |
| ResolverMemory.AlwaysMarked | src/blesentry/resolver.py:224-402 | on every run the keys marked as aliases are exactly the known ones that found no device |
| Resolutions.FusedExists | src/blesentry/resolver.py:273-281 | a fused device always exists in the tables the transaction sees |
| Resolutions.CommitAgrees | src/blesentry/resolver.py:315-329 | publishing keeps the agreement and leaves at most `recent_window` candidates |
| ResolverMemory.WindowIsLatest | src/blesentry/resolver.py:322-326 | after a commit the window holds each key's last sighting, in order of sighting, and only the newest of them |
| ResolverMemory.HitIsLatest | src/blesentry/resolver.py:240-242 | a hit moves its key's entry to the newest end |
| Resolutions.AbortForgets | src/blesentry/loop.py:312-315 | a rolled-back cycle leaves the tables as they were and the memory with the same entries, in an order that hits may have changed |
| Resolutions.SeedAgrees | src/blesentry/resolver.py:354-402 | seeding keeps the agreement and leaves every device within the alias cap |
| ResolverMemory.FoundersInOrder | src/blesentry/resolver.py:373-388 | at boot the window lists the founders oldest first, each at its current address where it has one |
| ResolverMemory.LeftoverIsFilled | src/blesentry/resolver.py:395-402 | aliases fill the window from the end of their list until it is full |
| ResolverMemory.AliasesAreCached | src/blesentry/resolver.py:395-400 | every seeded alias is cached unless the cache is full |
| ResolverMemory.AliasSeedsExactly | src/blesentry/resolver.py:366-394 | the aliases seeded are the readable ones listed for devices whose founding key is readable |
| ResolverRuns.AlwaysAgrees | src/blesentry/resolver.py:224-402 | the agreement holds after any sequence of seedings and committed or rolled-back cycles |
| ResolverRuns.MemoryAgreesWithStore | src/blesentry/resolver.py:224-402 | after any run every remembered id is a committed device, a key in both maps has one id, and a key the tables still bind is held under its owner |
| ResolverRuns.BoundKeyResolvesToOwner | src/blesentry/resolver.py:237-271 | at any point of any run a bound key resolves to its owner, creating and binding nothing |
| ResolverRuns.ResolveIsIdempotent | src/blesentry/resolver.py:237-249 | resolving a sighting again gives the same device and writes nothing |
| ResolverRuns.KnownAtTheEnd | src/blesentry/resolver.py:237-288 | within a cycle a key keeps the device it was first resolved to |
| ResolverRuns.IdentityIsRemembered | src/blesentry/resolver.py:315-329 | after the commit every key of the cycle is cached under the device it resolved to, unless it was an old entry of a cleared cache |
| ResolverRuns.SeedWarmsFounders | src/blesentry/resolver.py:354-402 | after a restart every listed founding key is in the cache under its device and in the window, which is within its bound, whatever the aliases are |
| ResolverRuns.AliasCapHolds | src/blesentry/storage/repository.py:282-386 | once within the alias cap, every device stays within it for ever |
| ResolverRuns.CommitBoundsMemory | src/blesentry/resolver.py:315-329 | after a committed cycle the window is within its bound and the cache within its own, unless one cycle alone staged more |
| Outbox.GuardIsInvisible | src/blesentry/drain.py:121-126 | the overflow guard changes no wait when 64 doublings reach the cap |
| Outbox.DefaultsReachTheCap | src/blesentry/drain.py:62-75 | the default knobs meet that condition |
| Outbox.BackoffGrows | src/blesentry/drain.py:108-126 | for every base and cap waits never shrink from one failure to the next and never exceed the cap |
| Outbox.BackoffDoubles | src/blesentry/drain.py:108-126 | the wait is the base, doubles with each failure up to the cap, and is the cap from the 65th attempt on |
| Outbox.DefaultWaits | src/blesentry/drain.py:62-75 | with the default knobs 1, 2, 4, ..., 512 seconds and then 900 |
| Outbox.RetryDueWithinCap | src/blesentry/drain.py:99-199 | a retry stays PENDING and is due after half its backoff and the drawn part of the other half, both ends attained |
| Outbox.OutboxRepository.HeadPending | src/blesentry/storage/repository.py:1029-1048 | the first PENDING row, due or not, or the certainty that none is PENDING |
| Outbox.DrainOnce | src/blesentry/drain.py:129-199 | what one tick makes of the queue and how it reports it, for every state of the head and every answer |
| Outbox.WaitsExactly | src/blesentry/drain.py:151-159 | the backoff is obeyed: for every answer a tick waits exactly when the first PENDING row is due later than now, is idle exactly when none is PENDING, and then changes nothing |
| Outbox.AttemptsExactly | src/blesentry/drain.py:160-199 | a due head is attempted and alone touched: delivered, dead-lettered or put off to between half and the whole of its backoff, with the error kept |
| Outbox.RunDrain | src/blesentry/drain.py:202-246 | a bounded run makes exactly its ticks and pauses exactly after those that neither deliver nor dead-letter, never after the last |
| Outbox.NeverSpins | src/blesentry/drain.py:235-246 | while the notifier is down the loop pauses after every tick but the last |
| Outbox.BacklogDrains | src/blesentry/drain.py:219-246 | with a due head and a willing notifier n ticks settle the first n rows in id order with no pause at all |
| DrainProtocol.AlwaysSound | src/blesentry/drain.py:151-199 | the queue invariant holds under any interleaving of enqueues, reads, sends, marks and crashes |
| DrainProtocol.TickIsThreeSteps | src/blesentry/drain.py:129-199 | look, send and mark, undisturbed, are one tick of drain_once, and the notifier is called exactly for a due row with a usable payload |
| DrainProtocol.NeverEarly | src/blesentry/drain.py:155-159 | on every run no message is sent before the due time its row then carries |
| DrainProtocol.NeverSentBeforeDue | src/blesentry/drain.py:155-199 | once a row has a due time, every later send of it comes at that time or after, crashes included |
| DrainProtocol.RetriesAreSpaced | src/blesentry/drain.py:181-199 | after a refusal is marked, the message is not sent again before half its backoff is over |
| DrainProtocol.QueueShape | src/blesentry/storage/repository.py:956-1093 | for every row: it leaves PENDING only by an accepted send, a permanent refusal or an unusable payload, and behind a PENDING row all are PENDING with no attempts and no due time |
| DrainProtocol.AcceptedInOrder | src/blesentry/drain.py:10-20 | accepted sends come in non-decreasing id order on every run, crashes included |
| DrainProtocol.RowsPersist | src/blesentry/drain.py:10-25 | no row is ever lost, moved or given another payload, and a terminal row never changes again |
| DrainProtocol.NoDuplicatesWithoutCrash | src/blesentry/drain.py:37-40 | without a crash every message is accepted at most once, in strict id order |
| DrainProtocol.CrashDuplicates | src/blesentry/drain.py:37-40 | a crash between a send and its mark does send twice |
| InitSessions.AppliedLabels | src/blesentry/init.py:208-255 | the labelling transaction changes at most one label, of a device that had none |
| InitSessions.AppliedRows | src/blesentry/init.py:208-255 | it reopens no session, and a row's last message changes to its own message alone |
| InitSessions.RecordsExactly | src/blesentry/init.py:208-255 | the live row remembers the message afterwards if and only if the transaction found the row where its caller saw it, or it was remembered before; labelling implies it and is not needed for it |
| InitSessions.AppliedSettles | src/blesentry/init.py:208-255 | where the session goes: EXPIRED if its time is over, DONE if found past the end, and otherwise ACTIVE on the least later index that exists unlabelled, or DONE if there is none, looking past the member it was found at; no other row changes |
| InitSessions.SessionTables.ApplyCurrent | src/blesentry/init.py:208-255 | the transaction with its loop leaves exactly the tables those lemmas speak of |
| InitSessions.SessionTables.AdvanceToNext | src/blesentry/init.py:135-153 | the cursor goes to the next unlabelled member, which is prompted, or the session is done |
| InitSessions.NameIsSafeExactly | src/blesentry/init.py:227-249 | a typed name lands on the prompted device or nowhere, whatever the tables hold, if and only if the last look found that device |
| InitProtocol.AlwaysSound | src/blesentry/init.py:118-373 | the session invariant holds under any interleaving of chat steps, CLI steps, crashes and outside labels |
| InitProtocol.LabelsAreSafe | src/blesentry/init.py:208-314 | on every run one session at most is open, no session step overwrites a label, no line or message labels twice, and a CLI name lands only on the device its last look found |
| InitProtocol.NamesNeverGoBack | src/blesentry/init.py:231-255 | at any point of any run a name leaves every session's cursor where it was or further on, and past the member it was found at |
| InitProtocol.AsksAtTheCursor | src/blesentry/init.py:135-153 | the device asked about is the one under the cursor that is left |
| InitCommands.NameExactly | src/blesentry/init.py:208-314 | undisturbed, a name labels the device under the cursor if it exists unlabelled and nothing else, is recorded, and the session settles past that device |
| InitCommands.IgnoreExactly | src/blesentry/init.py:317-373 | /ignore, and /ignore d for the device under the cursor, do the same with the label (ignored) |
| InitCommands.SkipExactly | src/blesentry/init.py:341-355 | /skip labels nothing, is recorded, and settles past the device skipped |
| InitCommands.FinishExactly | src/blesentry/init.py:358-366 | /done closes the session as DONE and records the message |
| InitCommands.CancelExactly | src/blesentry/init.py:329-338 | /init cancel closes it as CANCELLED and records the message |
| InitCommands.ResumeExactly | src/blesentry/init.py:161-175 | /init with a session open asks again from its cursor on and notes the message |
| InitCommands.StartExactly | src/blesentry/init.py:176-195 | /init otherwise closes a session whose time is over and opens one on exactly the devices listed, if any, for half an hour |
| InitCommands.ConflictResumes | src/blesentry/init.py:183-192 | /init that lost the race joins the session opened meanwhile, without asking whether its time is over |
| InitCommands.ExpiresExactly | src/blesentry/init.py:118-123 | a session whose time is over is EXPIRED by the first verb that needs it, which does nothing else |
| InitCommands.NothingElse | src/blesentry/init.py:270-326 | /ignore of another device and other commands do nothing |
| InitCommands.ReplayExactly | src/blesentry/init.py:258-267 | a remembered message labels nothing, whatever its command: it asks again from the cursor or expires the session |
| InitProtocol.PromptedExactly | src/blesentry/init.py:399-418 | on every run a CLI name whose last look found a device lands on the prompted device exactly when that look found the prompted device |
| InitProtocol.RedeliveryLabelsNothing | src/blesentry/init.py:258-267 | at any point of any run, once a chat step has recorded a message on a session, whether it labelled, skipped or found the device labelled or gone, redelivering it labels nothing while the session is found open and no newer chat message came, whatever the CLI does |
| InitProtocol.RedeliveryExactly | src/blesentry/init.py:208-267 | after chat's step for a name, with its session still open, no redelivery of the name ever labels anything if and only if the step recorded the message or the row remembered it |
| InitProtocol.OvertakenMessageLabels | src/blesentry/init.py:231-255 | a reachable history in which a name the CLI overtook moves on unrecorded, and its redelivery names the next device |
| InitProtocol.IgnoreIsSafeExactly | src/blesentry/init.py:317-326 | `/ignore d` lands on d or nowhere, while the session keeps its snapshot, if and only if its second read finds d under the cursor or no device |
| InitProtocol.IgnoreMayMissItsDevice | src/blesentry/init.py:317-326 | a reachable history in which `/ignore 1` ignores device 2 |
| InitProtocol.UnguardedNameMayMiss | src/blesentry/init.py:376-407 | a reachable history in which a line typed after a look that found no device names a device of the next session |
| InitProtocol.HeardForever | src/blesentry/init.py:258-314 | the same from any state in which the session remembers the message |
| InitProtocol.RunKeepsOneActive | src/blesentry/storage/repository.py:1246-1298 | no step opens a second session or reopens a closed one |
| InitProtocol.NameMayMissThePrompt | src/blesentry/init.py:399-418 | a reachable history in which a CLI name lands on a device its user was not asked about |

## Left out

- The Bleak, Telegram and httpx adapters, asyncio supervision, signals, command-line parsing, configuration files, log rollups, and message texts.
- SQL text, pragmas and migrations: a transaction is one atomic step on tables of one site, and a failure while COMMIT itself runs is not modelled.
- Floating-point rounding: slopes, means, medians and scores are exact reals or integers, so ties that only rounding would break are not distinguished.
- The inside detector, the daily summary, the familiar set, replay bucketing and the validation metrics: counters and thin queries.
- Collapsing whitespace in a typed name and parsing a device id from text: a command arrives already parsed.
- The keying of heard devices by decimal text: it is injective, so counts and rosters are stated on the ids.
- Insertion order of Python dictionaries: rows are taken in identity order, which the final sort makes unobservable.
- Other writers of the device tables while the daemon runs, and other sites in the same tables.
- The IN_FLIGHT status of an outbox row, which no code writes.
- The sampling distribution of the jitter: a draw is any value in [0, 1].
- Fusion.HapDeviceId: a fingerprint here has one payload for each company, as every advertisement has; a stored key from elsewhere that lists several for Apple is not modelled.
- Outbox.RunDrain: covers bounded runs; an unbounded run is any number of these ticks.
- InitProtocol.Step: lets the CLI read a line without looking first, which the program never does; the invariants hold for these extra runs too, and the counterexample does not use them.
- DeviceResolvers.DeviceResolver.RunCycle: a cycle's observations, presence events and alerts are not modelled, only that a failure anywhere in the cycle rolls the tables back.
