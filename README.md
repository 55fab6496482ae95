# MEDIKO AI service, modelled in Dafny

MEDIKO is a medical-guidance backend. It ranks nearby hospitals and pharmacies for a
member, learning from the facilities that member chose before. It recommends
over-the-counter drugs from a FAISS vector index of drug records, and it builds the
Elasticsearch query for hospitals near the user. It lists emergency rooms through the
public emergency-medical APIs, with a Redis cache in front of them, and sorts them by
travel time. It also cuts a GPT-suggested department back to its Korean name and
translates department names. Finally, it generates one-off passwords for the 119
emergency-report form and cleans the values read off that form.

This project models the logic of those components and proves what they promise:

- **Shared helpers**:
  - `wrappers.dfy`: `Option`/`Result`.
  - `pytext.dfy`: Python's `strip`, `split`, `join`, `lower` and `int(str(n))` on strings.
  - `ranking.dfy`: list comprehensions and a stable sort, standing for `sorted`, `sort_values` and `nlargest`.
  - `frames.dfy`: the few pandas frame operations the core uses.
- **Facility ranking**:
  - `scoring.dfy`: the scores both recommenders share.
  - `feedback.dfy`: the Redis-backed feedback manager.
  - `hospital.dfy` and `pharmacy.dfy`: the two REINFORCE-style recommenders.
  - `direction.dfy`: the travel-time lookup that feeds them.
- **Drug recommendation**:
  - `medicine_rag.dfy`: drug scoring, re-ranking and the responses.
  - `drug_rag_manager.dfy`: the manager's life cycle.
  - `vector_faiss.dfy`: building the drug index.
- **Disease search**: `rag_search.dfy`, `csv_to_faiss.dfy` and `create_ivf_index.dfy` (the IVF index builders).
- **Emergency rooms**:
  - `apis.dfy`: the cached API calls.
  - `filtering_for_addr.dfy`: the trauma-centre enrichment.
  - `direction_for_er.dfy`: the travel-time sort.
- **Hospital search**: `es_functions.dfy`, the query body and the hit records.
- **Departments**: `department_utils.dfy` and `department_mapping.dfy`.
- **119 form**: `pw_gen.dfy` and `cleaning.dfy`.

Everything outside the process is a parameter of the model:

- the OpenAI embedding and chat calls;
- the policy networks and their optimiser;
- FAISS searches and k-means training;
- Elasticsearch;
- the HTTP APIs and the geocoder;
- MySQL queries;
- the clock and the random generator.

Redis is a map from key to value and expiry time, read at a given `now`. Exceptions
the code catches or lets escape are `Result` failures.

The model follows the code wherever the code and its documentation differ. The cases
where that matters are listed below. Where the code itself is evidently wrong, the model
holds both the code as written and the evident intent, and builds the rest on the
intent; each such case is a row under Findings and a line under Left out.

- The ranking keeps the documented `(reward + bonus) * importance_weight`, which is what
  the code computes once the bonus has been added to `reward`.
- The policy-update loops are modelled twice. One model follows the code, which raises
  on any non-empty feedback. The other reads the column the code evidently meant (see
  Findings).
- The log checks (`check_hospital_logs`, `check_pharmacy_logs`) give the bonus only to
  facilities with a selection id. The code gives it to every listed facility as soon as
  one of them has been selected (see Findings).
- The allergy, medication and history checks skip blank comma-separated entries, which
  the code matches against every drug (see Findings).
- The disease search drops FAISS's `-1` padding labels, which the code reads as the last
  record (see Findings).

## Model

| member | source | states |
|---|---|---|
| Scoring.BaseScore | hosp_utils/recommendation.py:100-112 | the base score lies in (0, 1], is 1 exactly for a zero-second trip, and times one plus the travel seconds gives 1 |
| Scoring.ZeroTravelScoresOne | hosp_utils/recommendation.py:100-112 | a zero-second trip scores exactly 1.0 |
| Scoring.BaseScoreDecreasing | pharm_utils/recommendation.py:70-84 | a strictly longer trip gets a strictly lower base score |
| Scoring.ContentScore | hosp_utils/recommendation.py:124-127 | a cosine in [-1, 1] is rescaled into [0, 1], and the rescaling is invertible |
| Scoring.ImportanceWeight | hosp_utils/recommendation.py:171 | `1 / (p + 1e-8)` is positive and at most 1e8 for any probability |
| Scoring.ImportanceWeightDecreasing | pharm_utils/recommendation.py:135 | a less likely choice gets a larger importance weight |
| Scoring.WithLongTerm | hosp_utils/recommendation.py:133-142 | without feedback the reward is the immediate reward; with feedback it gains `gamma * min(long_term, 1)`, so it lies between `immediate` and `immediate + gamma` |
| Scoring.BonusFor | hosp_utils/recommendation.py:186-188 | a facility absent from the bonus map gets no bonus |
| Scoring.BonusNeverLowers | pharm_utils/recommendation.py:148-153 | with a positive weight, a non-negative bonus never lowers the final score, and a positive one raises it |
| FeedbackStore.Lookup | utils/feedback_manager.py:19-20 | a Redis read finds a value exactly when the key is present and not yet expired, and returns the stored value |
| FeedbackStore.ReadFeedbackOutcomes | utils/feedback_manager.py:14-49 | a hit returns the cached rows and leaves the cache; a miss without a database returns nothing; a successful query returns its rows and caches them for seven days; a failed query returns nothing; no other key changes |
| FeedbackStore.ReadFeedbackSettles | utils/feedback_manager.py:51-84 | reading again at the same time returns the same rows and leaves the same cache, whatever the database answers the second time, except after a first query that raised: that read cached nothing, so the second read is a fresh read against the second answer |
| FeedbackStore.LogBonus | utils/feedback_manager.py:140-143 | the bonus names exactly the facilities of the rows that have a selection id, each with 0.2 |
| FeedbackStore.RestrictTo | utils/feedback_manager.py:122-124 | the cached bonus is cut down to exactly the names asked about, with unchanged values |
| FeedbackStore.ReadBonusValues | utils/feedback_manager.py:116-155 | every bonus handed out is 0.2; a hit only names facilities asked about; a successful query names exactly the selected ones; no database or a failed query gives `{}` |
| FeedbackStore.FindRecent | utils/feedback_manager.py:92-96 | the scan finds the facility exactly when some feedback row names it with `selected_at` in the last seven days |
| FeedbackStore.HospitalReward | utils/feedback_manager.py:86-99 | the hospital reward is 0.2 or 0.0, and 0.2 exactly when the hospital was chosen in the last seven days; empty feedback gives 0.0 |
| FeedbackStore.PharmacyReward | utils/feedback_manager.py:101-114 | the same rule for pharmacies, matching `dutyname` against `pharmacy_name` |
| FeedbackStore.DayColumn | utils/feedback_manager.py:206-213 | the column is the day digit `weekday() + 1` (Monday 1 to Sunday 7) followed by `s` for the opening time or `c` for the closing time |
| FeedbackStore.HhmmMinutes | utils/feedback_manager.py:221-227 | an `HHMM` cell parses only when both of its parts parse as integers |
| FeedbackStore.OperatingHoursBonus | utils/feedback_manager.py:198-236 | the bonus is 0.3 or 0.0, and 0.3 exactly when the day's window is readable and holds the current minute, both ends included |
| FeedbackStore.NoWindowNoBonus | utils/feedback_manager.py:215-219 | a missing key, an empty cell or an unparsable time gives no bonus |
| FeedbackStore.OvernightNeverOpen | utils/feedback_manager.py:230 | a window that closes before it opens never gives the bonus |
| FeedbackStore.HhmmRoundTrip | utils/feedback_manager.py:221-226 | an `HHMM` cell written from a time of day reads back as that minute of the day |
| FeedbackStore.WindowOfCells | utils/feedback_manager.py:212-227 | cells holding `HHMM` text for the day's two keys give exactly that window |
| FeedbackStore.MondayWindow | utils/feedback_manager.py:203-231 | on a Monday with hours 0900-2100 the bonus is earned exactly from 09:00 to 21:00, both included |
| FeedbackStore.LogBonusAsWrittenRewardsUnselected | utils/feedback_manager.py:141-143 | as written, one selected and one unselected hospital both get the bonus (NaN is not `None`) |
| FeedbackStore.LogBonusWithinAsWritten | utils/feedback_manager.py:141-143 | the corrected rule never gives a bonus the code does not, and the two agree when every row, or no row, has a selection id |
| FeedbackStore.FeedbackManager.constructor | utils/feedback_manager.py:9-12 | the manager keeps whether it has a database and the Redis contents |
| FeedbackStore.FeedbackManager.GetHospitalFeedback | utils/feedback_manager.py:14-49 | returns the rows and leaves the Redis state of the cache-aside read, only the hospital-feedback family changing |
| FeedbackStore.FeedbackManager.GetPharmacyFeedback | utils/feedback_manager.py:51-84 | the same for the pharmacy feedback family |
| FeedbackStore.FeedbackManager.CollectBonus | utils/feedback_manager.py:140-143 | the loop builds exactly the bonus map of `LogBonus` |
| FeedbackStore.FeedbackManager.CheckHospitalLogs | utils/feedback_manager.py:116-155 | returns the bonus of the cache-aside read and changes only the hospital-bonus family |
| FeedbackStore.FeedbackManager.CheckPharmacyLogs | utils/feedback_manager.py:157-196 | the same for the pharmacy-bonus family |
| HospitalRecommendation.Zeros | hosp_utils/recommendation.py:54 | the vector has the asked width and is all zeros |
| HospitalRecommendation.BatchStart | hosp_utils/recommendation.py:41 | each text lies in exactly one batch of 256, starting at a multiple of 256 |
| HospitalRecommendation.BatchOf | hosp_utils/recommendation.py:42 | a batch holds 1 to 256 texts |
| HospitalRecommendation.EmbeddingAt | hosp_utils/recommendation.py:43-55 | a text whose batch request failed gets the 1536-wide zero vector |
| HospitalRecommendation.FillUnknown | hosp_utils/recommendation.py:77-79 | a filled text cell is never empty, and a non-empty one is unchanged |
| HospitalRecommendation.Filled | hosp_utils/recommendation.py:77-81 | the filled row has non-empty name, type and department and keeps its travel time (a travel time is never missing in this type; see Left out) |
| HospitalRecommendation.FillZero | hosp_utils/recommendation.py:79-80 | a missing numeric value becomes 0 and a present one is kept |
| HospitalRecommendation.NoRouteScoresBest | hosp_utils/recommendation.py:104-111 | a hospital with no route, its travel time filled with 0, gets base score 1.0, at least that of every hospital with a route |
| HospitalRecommendation.Distinct | hosp_utils/recommendation.py:90 | the distinct sentences have no repeats and hold exactly the sentences of the rows |
| HospitalRecommendation.Sentences | hosp_utils/recommendation.py:84-87 | one sentence per row, in row order |
| HospitalRecommendation.IndexIn | hosp_utils/recommendation.py:95-96 | a sentence that occurs is found at a position holding it |
| HospitalRecommendation.Zip | hosp_utils/recommendation.py:95 | `dict(zip(...))` has exactly the keys, each mapped to the value at its position |
| HospitalRecommendation.Diff | hosp_utils/recommendation.py:164 | `user - hospital` is taken componentwise |
| HospitalRecommendation.ImmediateReward | hosp_utils/recommendation.py:120-130 | the immediate reward lies in [0, 1], is at least the base share `0.4 * base_score`, and equals it exactly when the cosine is -1 |
| HospitalRecommendation.RowReward | hosp_utils/recommendation.py:114-142 | empty feedback gives the immediate reward; any reward lies in [0, 1 + 0.99 * 0.2]; the reward exceeds the immediate one exactly when the hospital earns its feedback reward |
| HospitalRecommendation.Scored | hosp_utils/recommendation.py:151-191 | one scored row per hospital, in input order |
| HospitalRecommendation.RecommendationsRanked | hosp_utils/recommendation.py:190-199 | `min(15, n)` scored rows of the input, highest score first, and no row left out scores higher than a row kept |
| HospitalRecommendation.BonusRaisesScores | hosp_utils/recommendation.py:180-191 | a non-negative log bonus never lowers a row's final score, and a positive one raises it |
| HospitalRecommendation.RewardedRows | hosp_utils/recommendation.py:217-221 | every row that enters the batch earns a positive reward |
| HospitalRecommendation.EarnsReward | hosp_utils/recommendation.py:221 | the batch test is `reward > 0` for the row's hospital |
| HospitalRecommendation.RewardedRowsStep | hosp_utils/recommendation.py:217-229 | one more row extends the batch by that row exactly when it earns a reward |
| HospitalRecommendation.PolicyUpdateSteps | hosp_utils/recommendation.py:213-238 | the optimiser steps exactly when some feedback row is younger than seven days, on a batch no larger than the feedback |
| HospitalRecommendation.UpdateAsWritten | hosp_utils/recommendation.py:217-219 | as written, the update fails on any non-empty feedback, since the rows carry no `name` |
| HospitalRecommendation.UpdateAsWrittenRaises | hosp_utils/recommendation.py:209-219 | a hospital chosen an hour ago: the code raises where one step on that row was meant |
| HospitalRecommendation.HospitalRecommender.constructor | hosp_utils/recommendation.py:29-36 | a feedback manager exists exactly when a database connection was given |
| HospitalRecommendation.HospitalRecommender.GetEmbedding | hosp_utils/recommendation.py:38-57 | one vector per text, in order; each is the batch answer's entry, or zeros when the batch failed |
| HospitalRecommendation.HospitalRecommender.EmbedHospitalData | hosp_utils/recommendation.py:75-98 | the rows are filled; each row gets the embedding of its sentence among the distinct sentences; rows with equal sentences get equal vectors |
| HospitalRecommendation.HospitalRecommender.CalculateReward | hosp_utils/recommendation.py:114-142 | the reward of the row given the member's feedback read, and the cache that read leaves |
| HospitalRecommendation.HospitalRecommender.RecommendHospitals | hosp_utils/recommendation.py:144-199 | an empty frame raises `ValueError` from the batch cosine similarity (line 155), with Redis untouched; otherwise the result is `Recommendations` over the feedback and bonus the manager reads, and Redis changes only by those two reads |
| HospitalRecommendation.HospitalRecommender.CollectRewards | hosp_utils/recommendation.py:174-178 | one reward per row, each computed from the same feedback read |
| HospitalRecommendation.HospitalRecommender.RankRows | hosp_utils/recommendation.py:191-194 | the top 15 rows by `reward * importance_weight` |
| HospitalRecommendation.HospitalRecommender.PolicyProbabilities | hosp_utils/recommendation.py:159-168 | one probability per row, the policy on `user - embedding` |
| HospitalRecommendation.HospitalRecommender.AddBonus | hosp_utils/recommendation.py:185-188 | each reward gains its row's bonus, if the row's name has one |
| HospitalRecommendation.HospitalRecommender.CollectBatch | hosp_utils/recommendation.py:213-229 | the batch size and total loss are those of the rows that earn a reward |
| HospitalRecommendation.HospitalRecommender.UpdateFromFeedback | hosp_utils/recommendation.py:201-238 | no manager or no member: no update; otherwise the update `PolicyUpdate` gives on the feedback read; one optimiser step exactly when the outcome is a step |
| PharmacyRecommendation.Features | pharm_utils/recommendation.py:127-130 | the first feature lies in [0.5, 1), the base score in (0, 1], and the first is `1 / (1 + base)` |
| PharmacyRecommendation.FeaturesOrdered | pharm_utils/recommendation.py:127-130 | a longer trip gives a larger first feature |
| PharmacyRecommendation.ImmediateReward | pharm_utils/recommendation.py:92-100 | `0.7 * base` plus the 0.3 opening bonus, which is only earned with a manager while the pharmacy is open; in (0, 1] |
| PharmacyRecommendation.RowReward | pharm_utils/recommendation.py:86-112 | empty feedback gives the immediate reward; any reward lies in (0, 1 + 0.99 * 0.2]; the reward exceeds the immediate one exactly when the pharmacy earns its feedback reward |
| PharmacyRecommendation.Rewards | pharm_utils/recommendation.py:138-140 | one reward per row, each in (0, 1 + 0.99 * 0.2] |
| PharmacyRecommendation.Weights | pharm_utils/recommendation.py:134-135 | one weight per row, each in (0, 1e8] |
| PharmacyRecommendation.ScoreRows | pharm_utils/recommendation.py:148-153 | one scored row per pharmacy, in input order |
| PharmacyRecommendation.Scored | pharm_utils/recommendation.py:120-153 | one scored row per pharmacy |
| PharmacyRecommendation.RecommendationsRanked | pharm_utils/recommendation.py:152-161 | `min(15, n)` scored rows of the input, highest score first, and no row left out scores higher than a row kept |
| PharmacyRecommendation.BonusRaisesScores | pharm_utils/recommendation.py:142-153 | a non-negative log bonus never lowers a row's final score, and a positive one raises it |
| PharmacyRecommendation.RewardedRows | pharm_utils/recommendation.py:43-47 | every row that enters the batch earns a positive reward |
| PharmacyRecommendation.EarnsReward | pharm_utils/recommendation.py:47 | the batch test is `reward > 0` for the row's pharmacy |
| PharmacyRecommendation.RewardedRowsStep | pharm_utils/recommendation.py:43-59 | one more row extends the batch by that row exactly when it earns a reward |
| PharmacyRecommendation.PolicyUpdateSteps | pharm_utils/recommendation.py:39-68 | the optimiser steps exactly when some feedback row is younger than seven days, on a batch no larger than the feedback |
| PharmacyRecommendation.UpdateAsWritten | pharm_utils/recommendation.py:43-45 | as written, the update succeeds only on empty feedback, since the rows carry no `dutyname` |
| PharmacyRecommendation.UpdateAsWrittenRaises | pharm_utils/recommendation.py:35-45 | a pharmacy chosen an hour ago: the code raises where one step on that row was meant |
| PharmacyRecommendation.PharmacyRecommender.constructor | pharm_utils/recommendation.py:21-27 | a feedback manager exists exactly when a database connection was given |
| PharmacyRecommendation.PharmacyRecommender.CalculateReward | pharm_utils/recommendation.py:86-112 | the reward of the row given the member's feedback read, and the cache that read leaves |
| PharmacyRecommendation.PharmacyRecommender.PolicyProbabilities | pharm_utils/recommendation.py:124-131 | one probability per row, the policy on the row's features |
| PharmacyRecommendation.PharmacyRecommender.AddBonus | pharm_utils/recommendation.py:147-150 | each reward gains its row's bonus, if its `dutyname` has one |
| PharmacyRecommendation.PharmacyRecommender.RecommendPharmacies | pharm_utils/recommendation.py:114-161 | the result is `Recommendations` over the feedback and bonus the manager reads, and Redis changes only by those two reads |
| PharmacyRecommendation.PharmacyRecommender.CollectRewards | pharm_utils/recommendation.py:137-140 | the rewards are `Rewards` over the one feedback read |
| PharmacyRecommendation.PharmacyRecommender.RankRows | pharm_utils/recommendation.py:152-156 | the top 15 rows by `(base reward + bonus) * importance_weight` |
| PharmacyRecommendation.PharmacyRecommender.CollectBatch | pharm_utils/recommendation.py:39-59 | the batch size and total loss are those of the rows that earn a reward |
| PharmacyRecommendation.PharmacyRecommender.UpdateFromFeedback | pharm_utils/recommendation.py:29-68 | no manager or no member: no update; otherwise `PolicyUpdate` on the feedback read; one optimiser step exactly when the outcome is a step |
| PharmacyRecommendation.PharmacyRecommender.UpdatePolicy | pharm_utils/recommendation.py:163-202 | the same effect as `UpdateFromFeedback` |
| Direction.TravelTimeAndDistance | utils/direction.py:16-32 | a non-200 answer or one without routes gives no time and no distance; the call raises exactly when the first route has no leg; otherwise it gives the first leg's seconds and metres / 1000; time and distance are present together |
| Direction.SplitSeconds | utils/direction.py:53-57 | `h * 3600 + m * 60 + s` is the seconds, with minutes and seconds in [0, 60) and hours non-negative exactly for non-negative seconds |
| Direction.SplitOfClock | utils/direction.py:55-57 | splitting a clock reading's seconds gives that reading back |
| Direction.BaseScoreOfSplit | utils/direction.py:53-57 | the base score of a split duration is `1 / (1 + seconds)`: the recommenders lose nothing to the split |
| Direction.WithClock | utils/direction.py:52-61 | time and distance are kept; no seconds gives no h/m/s; seconds give h/m/s that add back up to them |
| Direction.Destination | utils/direction.py:40-48 | the row's coordinates when both are present; the geocoder's when one is missing and the geocoder answers; the row's otherwise |
| Direction.DestinationIgnoresGeocoder | utils/direction.py:45 | with both coordinates present the geocoder plays no part |
| Direction.TravelForOutcome | utils/direction.py:36-67 | `None` exactly when the request raises or the first route has no leg; no time without routes; otherwise the leg's seconds and kilometres with consistent h/m/s |
| Direction.CalculateTravelTimeAndDistance | utils/direction.py:36-67 | the entries filled one by one give `TravelFor` |
| DirectionForEr.FloatOf | er_utils/direction_for_er.py:44-45 | `float` raises on a missing cell, converts numbers, and parses text exactly when the text is a number |
| DirectionForEr.Transit | er_utils/direction_for_er.py:40-56 | a row without a coordinate column raises; a row with a falsy coordinate gives no time or distance without a request; time and distance are present together |
| DirectionForEr.Collect | er_utils/direction_for_er.py:57 | `apply` succeeds exactly when every row does, giving each row's result in order |
| DirectionForEr.HvecAbsCell | er_utils/direction_for_er.py:65 | a missing `hvec` stays missing; any other value read becomes a non-negative number |
| DirectionForEr.ByTravel | er_utils/direction_for_er.py:67-71 | the order compares by travel seconds, then by `abs(hvec)`, missing values last |
| DirectionForEr.ByTravelIsTotalPreorder | er_utils/direction_for_er.py:67-71 | that order is total and transitive, so the stable sort is well defined |
| DirectionForEr.WithTravel | er_utils/direction_for_er.py:57 | the time and distance columns are added, one request answer per row |
| DirectionForEr.WithClock | er_utils/direction_for_er.py:60-62 | the h/m/s columns are added, computed from each row's seconds |
| DirectionForEr.SortedWithout | er_utils/direction_for_er.py:65-74 | `hvec_abs` added, sorted on, and dropped: as many rows, and the columns without `hvec_abs` |
| DirectionForEr.SortedWithoutRows | er_utils/direction_for_er.py:65-74 | the rows are the frame's rows, reordered, without `hvec_abs` |
| DirectionForEr.SortedWithoutSorted | er_utils/direction_for_er.py:67-71 | the rows come out in key order, read off the cells left behind |
| DirectionForEr.HvecAbses | er_utils/direction_for_er.py:65 | `astype(float)` succeeds exactly when every `hvec` converts, giving each row's value |
| DirectionForEr.SortByTravel | er_utils/direction_for_er.py:35-76 | a successful call keeps the number of rows |
| DirectionForEr.Transits | er_utils/direction_for_er.py:57 | the requests succeed exactly when every row's does, one answer per row |
| DirectionForEr.AfterTransit | er_utils/direction_for_er.py:59-76 | after the requests, a success keeps the number of rows |
| DirectionForEr.CalculateTravelTimeAndSort | er_utils/direction_for_er.py:35-76 | the frame changed step by step gives exactly `SortByTravel` |
| DirectionForEr.ColumnsAfter | er_utils/direction_for_er.py:57-74 | the columns after the computation are the input's and the five new ones, without `hvec_abs` |
| DirectionForEr.ColumnsAppended | er_utils/direction_for_er.py:57-62 | new columns are appended in assignment order |
| DirectionForEr.AfterTransitOutcome | er_utils/direction_for_er.py:59-76 | once the requests are answered, the rest succeeds exactly when `hvec` exists and every cell converts |
| DirectionForEr.SortByTravelOutcome | er_utils/direction_for_er.py:35-76 | the call succeeds exactly when every request succeeds, the frame has `hvec`, and every `hvec` converts |
| DirectionForEr.SortByTravelColumns | er_utils/direction_for_er.py:57-74 | the result has the input's columns and the five new ones, appended in order when they were new |
| DirectionForEr.ResultRows | er_utils/direction_for_er.py:57-62 | each input row with its new cells, in input order |
| DirectionForEr.SortByTravelPermutation | er_utils/direction_for_er.py:57-74 | the result holds exactly the input rows, each with its new cells: a permutation |
| DirectionForEr.SortByTravelSorted | er_utils/direction_for_er.py:64-71 | the result is sorted by travel time ascending, then by `abs(hvec)` ascending, missing values last |
| DirectionForEr.SortByTravelValid | er_utils/direction_for_er.py:35-76 | a valid frame gives a valid frame: distinct columns, every row with exactly those cells |
| DirectionForEr.SortByTravelClock | er_utils/direction_for_er.py:60-62 | every result row carries h/m/s cells that add back up to its seconds |
| DirectionForEr.NoCoordinatesNoTravel | er_utils/direction_for_er.py:52-56 | a row with a missing or zero coordinate gets no time or distance whatever the service does, and zero h/m/s |
| Frames.AddColumn | er_utils/direction_for_er.py:60-62 | a new column goes last and an existing one stays put; distinctness is kept |
| Frames.Assign | er_utils/direction_for_er.py:57 | `df[col] = values` writes one value per row and keeps the frame valid |
| Frames.Fill | er_utils/filtering_for_addr.py:78-81 | `df[col] = v` is the assignment of `v` in every row |
| Frames.WithoutUpdated | er_utils/direction_for_er.py:74 | dropping a cell forgets what was last written to it |
| Frames.Drop | er_utils/direction_for_er.py:74 | `drop(columns=[col])` removes exactly that column from the columns and from every row, keeping validity |
| Frames.RemoveAll | er_utils/direction_for_er.py:74 | the columns without `col`, still distinct |
| Frames.DropAssigned | er_utils/direction_for_er.py:65-74 | dropping a column just added gives the frame back |
| Frames.ReorderedValid | er_utils/direction_for_er.py:67-71 | reordering the rows keeps the frame valid |
| Frames.Select | er_utils/filtering_for_addr.py:110 | `df[columns]` has those columns and, in each row, exactly the cells it had under them |
| FilteringForAddr.PageCountIsCeiling | er_utils/filtering_for_addr.py:30-31 | the page count is the ceiling of `totalCount / 100`: the pages hold every item and one page fewer would not; no items gives no pages |
| FilteringForAddr.PagesUpToContents | er_utils/filtering_for_addr.py:34-40 | reading pages 1 to `n` fails exactly when some page came back broken; otherwise an hpid is listed exactly when some page lists it |
| FilteringForAddr.FailureSticks | er_utils/filtering_for_addr.py:34-40 | once a page is broken, reading further pages fails the same way |
| FilteringForAddr.PagesUpToPrefix | er_utils/filtering_for_addr.py:34-40 | pages are kept in order: fewer pages give a prefix |
| FilteringForAddr.TraumaHpidsContents | er_utils/filtering_for_addr.py:10-42 | a failed first call gives `[]`; otherwise the result fails exactly when a page is broken, and lists exactly the hpids of the pages up to the count |
| FilteringForAddr.FetchTraumaCenterHpids | er_utils/filtering_for_addr.py:10-42 | the first call, the page count and the page loop give `TraumaHpids` |
| FilteringForAddr.FetchLocationData | er_utils/filtering_for_addr.py:45-70 | no reply or no item gives three `None`; a field is present only when its tag is |
| FilteringForAddr.LocationFieldsIndependent | er_utils/filtering_for_addr.py:59-64 | each field is its own tag's text; a missing tag empties only its own field |
| FilteringForAddr.RemoveFirst | er_utils/filtering_for_addr.py:101-104 | `list.remove` drops exactly one element and keeps all other names |
| FilteringForAddr.Insert | er_utils/filtering_for_addr.py:106 | `list.insert` adds exactly one element |
| FilteringForAddr.IndexOf | er_utils/filtering_for_addr.py:99 | `list.index` finds the first occurrence |
| FilteringForAddr.ReorderColumns | er_utils/filtering_for_addr.py:96-107 | the column edits give `Reordered` |
| FilteringForAddr.InsertEach | er_utils/filtering_for_addr.py:105-107 | the insert loop places the four names as one run from `min(start, len)` |
| FilteringForAddr.EnrichedFrame | er_utils/filtering_for_addr.py:84-92 | the cell loop keeps the columns and the number of rows, and enriches each row |
| FilteringForAddr.EnrichFilteredDf | er_utils/filtering_for_addr.py:72-111 | the method gives `Enrich` |
| FilteringForAddr.WriteCells | er_utils/filtering_for_addr.py:84-92 | a row without `hpid` raises `KeyError`; otherwise the loop gives `EnrichedFrame` |
| FilteringForAddr.RemoveFourAppended | er_utils/filtering_for_addr.py:101-104 | removing the four names from columns that end with them gives the columns before them |
| FilteringForAddr.RemoveFirstCount | er_utils/filtering_for_addr.py:101 | `remove` takes out exactly one occurrence |
| FilteringForAddr.RemoveFourPermutes | er_utils/filtering_for_addr.py:101-104 | the four removals take out exactly the four names |
| FilteringForAddr.MovedAfterPermutes | er_utils/filtering_for_addr.py:96-107 | the reorder only permutes the columns |
| FilteringForAddr.MovedAfterAppended | er_utils/filtering_for_addr.py:97-107 | four names appended at the end land right after the anchor when it exists, and stay at the end otherwise |
| FilteringForAddr.StaleIndex | er_utils/filtering_for_addr.py:99-106 | the index of `dutyName` is read before the removals: when one of the four names stood in front of it, the names land one column too far right |
| FilteringForAddr.StaleIndexExample | er_utils/filtering_for_addr.py:99-106 | the same with the real names: columns `dutyAddr, dutyName, hpid, wgs84Lat, wgs84Lon, is_trauma` come out as `dutyName, hpid, dutyAddr, wgs84Lat, wgs84Lon, is_trauma` |
| FilteringForAddr.InitialisedColumns | er_utils/filtering_for_addr.py:78-81 | the four assignments add the four columns, at the end in order when they were new |
| FilteringForAddr.InitialisedRow | er_utils/filtering_for_addr.py:78-81 | each row gets `None`, `None`, `None` and `False` |
| FilteringForAddr.EnrichSucceeded | er_utils/filtering_for_addr.py:72-111 | a success means the trauma list was read and every row has an `hpid` |
| FilteringForAddr.EnrichColumnOrder | er_utils/filtering_for_addr.py:96-110 | the result's columns are the reordered columns of the frame with the four appended |
| FilteringForAddr.EnrichColumnsAfterDutyName | er_utils/filtering_for_addr.py:97-107 | for a frame with `dutyName` and without the four columns, they come right after `dutyName`, in order |
| FilteringForAddr.EnrichColumnsAtEnd | er_utils/filtering_for_addr.py:96-110 | without `dutyName` the four columns stay at the end |
| FilteringForAddr.EnrichedCells | er_utils/filtering_for_addr.py:85-92 | a row keeps its other cells; `is_trauma` holds exactly when its `hpid` is listed, and the three location cells are the lookup's |
| FilteringForAddr.EnrichRow | er_utils/filtering_for_addr.py:84-110 | row `i` of the result is row `i` after the loop, cut to the columns |
| FilteringForAddr.EnrichKeepsCells | er_utils/filtering_for_addr.py:72-111 | every row is kept, in order, with each of its own cells |
| FilteringForAddr.EnrichWritesCells | er_utils/filtering_for_addr.py:84-92 | each row's `is_trauma` is true exactly when its `hpid` is in the trauma list, and its location cells come from that hpid's lookup |
| ErApis.ExtractStage | er_utils/apis.py:1-16 | the province and district come together or not at all, and each is a whitespace-free word |
| ErApis.ExtractStageOfAddress | er_utils/apis.py:5-13 | an address that starts with a province and a district, each followed by whitespace, gives exactly those two |
| ErApis.StagesOfWords | er_utils/apis.py:5-13 | an address of two or more tokens gives its first two |
| ErApis.ExtractStageOfOneToken | er_utils/apis.py:6-7 | an address of a single token gives `(None, None)` |
| ErApis.WordsAfterWord | er_utils/apis.py:5 | `split()` of a word, whitespace and more text is the word followed by the rest's tokens |
| ErApis.WordsOfWord | er_utils/apis.py:5 | `split()` of a single word is that word alone |
| ErApis.WordsSkipsSpace | er_utils/apis.py:5 | leading whitespace does not change `split()` |
| ErApis.Find | er_utils/apis.py:88 | `item.find(tag)` finds nothing exactly when no child has the tag, and otherwise a child with that tag |
| ErApis.FindFirst | er_utils/apis.py:88 | the child found is the first one with the tag |
| ErApis.AnyFlagMeans | er_utils/apis.py:87-90 | when the scan completes, it says whether some condition's tag reads `Y`; it raises only on a condition tag without text; with no such tag it completes |
| ErApis.KeptHpidsContents | er_utils/apis.py:85-92 | a page lists exactly the hpids of the items its conditions keep |
| ErApis.KeptFailureSticks | er_utils/apis.py:85-92 | once an item raises, the page raises the same way whatever follows |
| ErApis.KeptHpidsUnconditional | er_utils/apis.py:87 | without conditions the page holds each item's hpid, one per item, in order, and raises only on an item without `hpid` |
| ErApis.ConditionFailureSticks | er_utils/apis.py:77-92 | once a page raises, reading more pages raises the same way |
| ErApis.ConditionPagesContents | er_utils/apis.py:77-92 | every shorter run of pages succeeds too, and an hpid is listed exactly when some page lists it |
| ErApis.CeilDiv | er_utils/apis.py:74 | `math.ceil(total / n)` is the least page count that holds `total` |
| ErApis.CeilDivIsPageCount | er_utils/apis.py:74 | this ceiling agrees with the rounding-up division of the trauma-centre list |
| ErApis.HospitalsReadOutcomes | er_utils/apis.py:46-100 | a hit answers from the cache; a miss answers the search; a search after a first call that came back is cached for 300 seconds; a failure or a failed first call leaves the cache; no other key changes |
| ErApis.HospitalsReadSettles | er_utils/apis.py:50-54 | asking again within 300 seconds gets the same list from the cache, whatever the service says then |
| ErApis.HospitalsEntryExpires | er_utils/apis.py:96 | after 300 seconds the cached list is no longer read |
| ErApis.UnconditionalListsEveryItem | er_utils/apis.py:85-92 | without conditions every item of every page that came back is listed |
| ErApis.ConditionPagesSucceedOnPage | er_utils/apis.py:79-92 | a search that completes parsed every page that came back, and kept items without a raise |
| ErApis.RecordOfKeys | er_utils/apis.py:146 | the record has an entry for exactly the tags of the item's children |
| ErApis.RecordOfLast | er_utils/apis.py:146 | a tag's entry holds the text of the last child with that tag |
| ErApis.KeysDisjoint | er_utils/apis.py:127 | no bed-record key equals a hospital-list key (built at line 46), so the two families share Redis without clashing |
| ErApis.MatchesHpid | er_utils/apis.py:145 | the test on an item is `Matches` |
| ErApis.MatchingSnoc | er_utils/apis.py:144-150 | one more item adds its record exactly when it matches |
| ErApis.ScanItemsMeans | er_utils/apis.py:143-150 | scanning a reply raises exactly when some item has no `hpid` tag; otherwise it appends the records of exactly the matching items and caches each |
| ErApis.BedsPrefix | er_utils/apis.py:126-150 | turns only append: fewer turns give a prefix of the records |
| ErApis.BedStepPrefix | er_utils/apis.py:126-150 | a turn only appends records |
| ErApis.BedStepKeeps | er_utils/apis.py:126-150 | a turn keeps every readable entry readable |
| ErApis.ScanPrefix | er_utils/apis.py:144-150 | scanning a reply only appends records |
| ErApis.BedTurnOutcomes | er_utils/apis.py:130-140 | a cached hpid gets its record without a request; a request that comes back empty changes nothing |
| ErApis.SameCallsSameRun | er_utils/apis.py:126-150 | turns that get the same replies end the same way |
| ErApis.BedCacheKeeps | er_utils/apis.py:126-150 | an entry readable at `now` stays readable through the rest of the loop |
| ErApis.ScanKeeps | er_utils/apis.py:144-150 | scanning a reply keeps every readable entry readable |
| ErApis.RepeatServedFromCache | er_utils/apis.py:130-134 | an hpid listed again after a turn cached its record is answered from the cache, whatever the service would say |
| ErApis.ScanErrorSticks | er_utils/apis.py:144-145 | once an item raises, the rest of the reply is not read |
| ErApis.BedErrorSticks | er_utils/apis.py:126-145 | once a turn raises, the loop is over |
| ErApis.ErCache.constructor | utils/for_redis.py:4-13 | the cache starts with the given hospital-list and bed-record families |
| ErApis.ErCache.GetHospitalsByCondition | er_utils/apis.py:32-100 | returns the read's result and leaves its cache in the hospital-list family only |
| ErApis.ErCache.CollectPages | er_utils/apis.py:77-92 | the page loop gives `ConditionPages` |
| ErApis.ErCache.PageHpids | er_utils/apis.py:85-92 | the item loop gives `KeptHpids` |
| ErApis.ErCache.GetRealTimeBedInfo | er_utils/apis.py:103-152 | the records and bed cache of the whole loop, or its error; the hospital-list family is unchanged |
| ErApis.ErCache.Turn | er_utils/apis.py:127-150 | one turn of the loop gives `BedStep` |
| ErApis.ErCache.ScanReply | er_utils/apis.py:143-150 | the item loop gives `ScanItems` |
| Cleaning.StripQuotes | text_119_utils/cleaning.py:5 | what is left neither starts nor ends with a quote and holds only characters of the input |
| Cleaning.TrimmedInside | text_119_utils/cleaning.py:4-5 | trimming both ends keeps only characters of the original |
| Cleaning.CleanFormValue | text_119_utils/cleaning.py:1-8 | `None` stays `None`; a cleaned value is non-empty, not `null` or `none`, has no upper-case ASCII letter and neither starts nor ends with a quote |
| Cleaning.TrimLeftPast | text_119_utils/cleaning.py:4 | leading characters that are stripped anyway do not change the result |
| Cleaning.TrimRightPast | text_119_utils/cleaning.py:4 | trailing characters that are stripped anyway do not change the result |
| Cleaning.TrimSurrounded | text_119_utils/cleaning.py:4-5 | a middle that neither starts nor ends with a stripped character is exactly what stripping leaves of it with padding on both sides |
| Cleaning.LowerAppend | text_119_utils/cleaning.py:4 | lower-casing distributes over concatenation |
| Cleaning.QuotedNullWordIsNone | text_119_utils/cleaning.py:4-7 | a null word in any case, quoted and padded with whitespace (such as `  'NULL' `), cleans to `None` |
| PasswordGen.Run | text_119_utils/pw_gen.py:34 | a run of `n` consecutive characters from `lo` |
| PasswordGen.RunsAreTheAlphabets | text_119_utils/pw_gen.py:34 | the runs are Python's `ascii_lowercase`, `ascii_uppercase` and `digits`, 62 characters together |
| PasswordGen.Reverse | text_119_utils/pw_gen.py:50 | `s[::-1]` has the same length, its characters in reverse order |
| PasswordGen.InRunIffCountsUp | text_119_utils/pw_gen.py:49 | a three-character string lies in an alphabet exactly when it counts up by one inside it |
| PasswordGen.ReverseInRunIffCountsDown | text_119_utils/pw_gen.py:50 | reversed, it lies in an alphabet exactly when it counts down by one inside it |
| PasswordGen.ContinuousMeans | text_119_utils/pw_gen.py:48-50 | a window is continuous exactly when it counts up or down by one within the lower-case letters, the upper-case letters or the digits |
| PasswordGen.HasContinuousSequenceScan | text_119_utils/pw_gen.py:41-46 | the scan answers true exactly when some window of three is continuous, and false for a password shorter than three |
| PasswordGen.ContinuousSurvivesExtension | text_119_utils/pw_gen.py:41-46 | a rejected password stays rejected whatever is added before or after it |
| PasswordGen.CandidateShape | text_119_utils/pw_gen.py:36-37 | every candidate has 6 to 16 characters, each an ASCII letter or digit |
| PasswordGen.GeneratePassword | text_119_utils/pw_gen.py:33-39 | the answer is the first acceptable candidate: 6 to 16 letters and digits, unused, without a continuous window; it is absent exactly when no candidate drawn was acceptable |
| DepartmentMapping.Names | gpt_utils/department_mapping.py:1-149 | an entry's names are keyed by exactly the five languages, each holding its own field |
| DepartmentMapping.TableCoversOfferedDepartments | gpt_utils/department_mapping.py:1-149 | the table has 21 entries, one per department the triage prompt offers (gpt_utils/prompting_gpt.py:138-158), in the same order, and each entry's Korean name is its key |
| DepartmentMapping.Lookup | gpt_utils/department_mapping.py:151 | `DEPARTMENT_TRANSLATIONS.get` finds nothing exactly when no entry has the key, and otherwise an entry with it |
| DepartmentMapping.TranslateKeys | gpt_utils/department_mapping.py:150-158 | for any table keyed by Korean name: `KO` always holds the department asked about; an unknown one comes back alone; `KO` asks for the Korean name only; another language gives exactly `KO` and that language, `""` where the entry lacks it |
| DepartmentMapping.KnownIffOffered | gpt_utils/department_mapping.py:150-153 | a department has translations exactly when the triage prompt offers it |
| DepartmentMapping.TranslationKeys | gpt_utils/department_mapping.py:150-158 | the same answers for the shipped table |
| DepartmentUtils.SplitHead | utils/department_utils.py:32 | `s.split(sep)[0]` is the prefix before the first separator, or all of `s` |
| DepartmentUtils.StripInside | utils/department_utils.py:32-36 | `strip()` keeps only characters of its input, and stripping twice is stripping once |
| DepartmentUtils.ExtractSingleMeans | utils/department_utils.py:22-36 | an empty name gives internal medicine; a name with both parentheses gives the stripped text before its first `(`, which holds no `(`; any other name comes back stripped |
| DepartmentUtils.LeadingParenthesisGivesNothing | utils/department_utils.py:30-33 | a name that opens with `(` is cut back to the empty string |
| DepartmentUtils.ExtractSingleIdempotent | utils/department_utils.py:22-36 | a non-empty cut-back name is left as it is when cut back again |
| DepartmentUtils.PlainNameStays | utils/department_utils.py:35-36 | a name without `(` or surrounding whitespace is its own cut-back form |
| DepartmentUtils.ExtractKoreanDepartment | utils/department_utils.py:1-20 | a falsy input gives internal medicine; a list gives its non-empty cut-back names joined with `", "`, or internal medicine when none is left; a string gives its cut-back name |
| DepartmentUtils.ListAnswerNonEmpty | utils/department_utils.py:11-17 | the list path never answers with an empty string |
| DepartmentUtils.CutBackHasNoComma | utils/department_utils.py:22-36 | cutting back a comma-free name gives a comma-free, already stripped name |
| DepartmentUtils.ListAnswerReadsBack | utils/department_utils.py:17 | splitting the list answer at commas and stripping each part, as the hospital search does (hosp_utils/es_functions.py:8-9), gives back exactly the kept names when none holds a comma |
| DepartmentUtils.ProcessedClean | utils/department_utils.py:12-16 | the names kept from a comma-free list hold no comma and are stripped |
| DepartmentUtils.ListAnswerJoins | utils/department_utils.py:17 | a non-empty list of kept names is answered with their join |
| DepartmentUtils.StripFixed | utils/department_utils.py:32 | stripping names that are already stripped changes nothing |
| HospitalSearch.TypeFilterMeans | hosp_utils/es_functions.py:19-43 | with all three tier flags or none the body has no type filter; otherwise it has exactly one, as its last clause, listing a type exactly when its tier's flag is set |
| HospitalSearch.DepartmentClausesOffType | hosp_utils/es_functions.py:49-76 | no department clause filters on the hospital type |
| HospitalSearch.QueryBounds | hosp_utils/es_functions.py:79-101 | every body asks for at most 30 hits within 100 km of the user, nearest first, with at most one department clause and one type clause |
| HospitalSearch.DepartmentClausesShape | hosp_utils/es_functions.py:49-76 | an empty department adds no clause; one name adds its clause directly; several add one `bool/should` with one clause per name, in order |
| HospitalSearch.DepartmentClauseKinds | hosp_utils/es_functions.py:53-70 | dentistry and oriental medicine become `terms` over their 12 and 9 subjects; any other name a phrase match on itself; every clause is on `dgsbjt` |
| HospitalSearch.StripSpaced | hosp_utils/es_functions.py:50 | a leading space does not change `strip()` |
| HospitalSearch.JoinCommaSpace | hosp_utils/es_functions.py:9 | `", ".join(xs)` is `",".join` of the names, all but the first behind a space |
| HospitalSearch.SpacedNoComma | hosp_utils/es_functions.py:9 | the spaced names hold no comma when the names hold none |
| HospitalSearch.SpacedStrip | hosp_utils/es_functions.py:50 | names behind a space strip to what the names strip to |
| HospitalSearch.ListedNamesRoundTrip | hosp_utils/es_functions.py:8-9 | a list of comma-free names, joined and split again, comes back as the same names stripped |
| HospitalSearch.ListedSplit | hosp_utils/es_functions.py:50 | splitting the joined names at the commas gives the names, all but the first behind a space |
| HospitalSearch.QueryElasticsearchHosp | hosp_utils/es_functions.py:1-113 | the body is the one specified by the lemmas above, and the response is what the search gives for it |
| HospitalSearch.TypeClauses | hosp_utils/es_functions.py:19-43 | the tier-by-tier gathering gives the type filter |
| HospitalSearch.DepartmentQueries | hosp_utils/es_functions.py:53-70 | one clause per name, in order |
| HospitalSearch.Get | hosp_utils/es_functions.py:125-138 | `source.get(key)` is present exactly when the key is, with its value |
| HospitalSearch.RecordOfHitFields | hosp_utils/es_functions.py:120-140 | a hit with a source gives a record whose name and address are present exactly when the source has `yadmnm` and `addr`, whose distance is absent exactly when the hit has none, and whose sort score is the first sort value |
| HospitalSearch.FilteringHosp | hosp_utils/es_functions.py:115-141 | one record per hit, in hit order, succeeding exactly when every hit does; a failure is the error of some hit |
| MedicineRag.GenderBonus | medicine_rag_utils/medicineRAG.py:177-187 | 5 points or nothing, and 5 only for a patient whose sex is given |
| MedicineRag.AgeBonus | medicine_rag_utils/medicineRAG.py:189-201 | +3 or -2 only for a child under 12, +2 only for a patient over 65, nothing otherwise |
| MedicineRag.BmiBonus | medicine_rag_utils/medicineRAG.py:203-213 | 2 points or nothing, and 2 only for a patient with height and weight whose BMI is over 30 |
| MedicineRag.Adjustment | medicine_rag_utils/medicineRAG.py:177-213 | the profile bonuses together lie between -2 and 10 |
| MedicineRag.AllergyNames | medicine_rag_utils/medicineRAG.py:220-221 | one stripped name per comma-separated entry |
| MedicineRag.FoundAllergiesExact | medicine_rag_utils/medicineRAG.py:215-224 | an allergy is reported exactly when it is a non-empty stripped entry found in the drug's precautions or side effects |
| MedicineRag.KeywordPenalties | medicine_rag_utils/medicineRAG.py:215-244 | one warning per allergy found, plus one for a medication clash and one for a history clash; the score never exceeds the profile adjustment, and equals it exactly when there is no warning |
| MedicineRag.ProfileOnlyAdjusts | medicine_rag_utils/medicineRAG.py:172-244 | two profiles with the same allergies, medications and history get the same warnings, and their scores differ by exactly their profile adjustments |
| MedicineRag.AnalyzeDrugKeywords | medicine_rag_utils/medicineRAG.py:172-244 | the keyword analysis gives the score and warnings the lemmas above describe |
| MedicineRag.ScanAllergies | medicine_rag_utils/medicineRAG.py:220-224 | the allergies found are the stripped entries reported in the text, each costing 10 points and giving its warning |
| MedicineRag.FoundAllergiesAsWritten | medicine_rag_utils/medicineRAG.py:220-224 | as written, every entry found, the blank one included, occurs in the text |
| MedicineRag.TrailingComma | medicine_rag_utils/medicineRAG.py:220 | a plain word followed by a comma splits into the word and a blank entry |
| MedicineRag.BlankEntryMatchesEveryDrug | medicine_rag_utils/medicineRAG.py:215-233 | with a trailing comma in the allergies and in the medications, the code as written warns of an allergy to `""` and of a medication clash for a drug that mentions neither, while the corrected rule gives no warning |
| MedicineRag.BlankHistoryMatchesEveryDrug | medicine_rag_utils/medicineRAG.py:235-241 | with a trailing comma in the medical history, the code as written finds a history clash for a drug that does not mention the condition, while the corrected rule finds none |
| MedicineRag.ByScore | medicine_rag_utils/medicineRAG.py:98 | the sort key orders by score, highest first, and is a total preorder |
| MedicineRag.RankScoredPermutation | medicine_rag_utils/medicineRAG.py:98-105 | re-ranking neither drops nor adds a candidate |
| MedicineRag.RankScoredOrder | medicine_rag_utils/medicineRAG.py:98-105 | every drug with warnings comes after every drug without, and within each group scores never increase |
| MedicineRag.RankScoredKeepsTies | medicine_rag_utils/medicineRAG.py:98-105 | candidates with the same score and the same safety keep the order the vector search gave them |
| MedicineRag.SortKeepsTies | medicine_rag_utils/medicineRAG.py:98 | the stable sort keeps tied candidates in input order |
| MedicineRag.RankScoredFirst | medicine_rag_utils/medicineRAG.py:98-105 | the first drug is a candidate; it draws no warning whenever some candidate draws none, and then has the highest score among those; if all draw warnings it has the highest score overall |
| MedicineRag.FilterAndRankPermutation | medicine_rag_utils/medicineRAG.py:69-107 | re-ranking returns a permutation of the candidates (unchanged without a profile), empty only for no candidates |
| MedicineRag.ScoredDrugs | medicine_rag_utils/medicineRAG.py:91-95 | scoring keeps each candidate with its score |
| MedicineRag.FilterAndRankDrugs | medicine_rag_utils/medicineRAG.py:69-107 | the loop and sort give the re-ranking the lemmas above describe |
| MedicineRag.ScoreCandidates | medicine_rag_utils/medicineRAG.py:76-95 | one scored entry per candidate, in order |
| MedicineRag.ScoreOne | medicine_rag_utils/medicineRAG.py:77-95 | 10, plus the context analysis (0 and no warnings when it fails), plus the keyword analysis |
| MedicineRag.ErrorResponse | medicine_rag_utils/medicineRAG.py:346-360 | an error response: every drug and question field empty, the message (translated unless Korean) as the warning |
| MedicineRag.WarningMessage | medicine_rag_utils/medicineRAG.py:339-344 | the disclaimer in Korean, translated otherwise |
| MedicineRag.ToKorean | medicine_rag_utils/medicineRAG.py:362-385 | a Korean symptom is used as it is; any other is translated |
| MedicineRag.SummaryParts | medicine_rag_utils/medicineRAG.py:296-335 | one non-empty part per field filled in, in the fixed order |
| MedicineRag.PatientSummaryEmpty | medicine_rag_utils/medicineRAG.py:291-337 | the summary is empty exactly when there is no profile or none of height-and-weight, allergies, medications or history is filled in |
| MedicineRag.GeneratePatientSummary | medicine_rag_utils/medicineRAG.py:291-337 | appending the parts one by one and joining them gives the summary the lemma describes |
| MedicineRag.PharmacistQuestionsQuote | medicine_rag_utils/medicineRAG.py:246-289 | the first question quotes the Korean symptom, the second the symptom as written, and the third is empty exactly when the summary is and otherwise quotes it |
| MedicineRag.TranslateDrugName | medicine_rag_utils/medicineRAG.py:404-417 | a Korean request keeps the name; otherwise the name comes first, followed by its romanization in parentheses |
| MedicineRag.TranslateDrug | medicine_rag_utils/medicineRAG.py:387-402 | the English name and the image are kept, and an empty purpose stays empty |
| MedicineRag.Candidates | medicine_rag_utils/medicineRAG.py:33 | the lookup succeeds exactly when every row number is within Python's index range, negative numbers counting from the end, and gives one drug per row number |
| MedicineRag.RecommendDrugOutcome | medicine_rag_utils/medicineRAG.py:9-67 | an out-of-range row number raises; otherwise the response is an error exactly when the search found nothing, and in Korean it then says no suitable drug was found |
| MedicineRag.FilterAndRankFirst | medicine_rag_utils/medicineRAG.py:69-107 | with a profile, the first drug is a candidate, and when some candidate draws no warning it draws none and has the highest score among them |
| MedicineRag.RecommendDrugBest | medicine_rag_utils/medicineRAG.py:36-67 | in Korean, the response names the first re-ranked drug as "name(English name)", with its purpose and the disclaimer, and is not an error |
| DrugRagManager.LoadStatus | medicine_rag_utils/drug_rag_manager.py:129-139 | a recorded update time replaces the field; nothing else changes |
| DrugRagManager.Initialize | medicine_rag_utils/drug_rag_manager.py:23-78 | already initialising: False and no change; loading: nothing is written, True exactly when both files read back, and then they become the fields; an unreadable index file: False and no change; a readable index with an unreadable records file: False with the index already replaced; an empty fetch or a failed build: False and no change; a rebuild: index and records replaced in memory, each file either written, left as it was, or emptied by the write that raised, True exactly when all three writes succeed, with the update time saved; after True memory and disk agree; the flag is cleared on every return but the first |
| DrugRagManager.Load | medicine_rag_utils/drug_rag_manager.py:35-41 | nothing is written; True exactly when both files read back, and then they become the fields; an unreadable index file changes nothing; a readable index with an unreadable records file leaves the index replaced and the old records and update time |
| DrugRagManager.Save | medicine_rag_utils/drug_rag_manager.py:61-69 | the built index and records stay in memory; each file is written, kept, or emptied by the write that raised, in the order index, records, status; True exactly when all three writes succeed, and then the update time is set and saved |
| DrugRagManager.Recommendation | medicine_rag_utils/drug_rag_manager.py:80-103 | a response exactly when there is an index and records, no initialisation is under way and the recommender does not raise; it is then the recommender's response |
| DrugRagManager.Status | medicine_rag_utils/drug_rag_manager.py:105-115 | the count is the number of records; initialised and not initialising exactly when ready; the file flags say which files exist, readable or not |
| DrugRagManager.InitializeThenReady | medicine_rag_utils/drug_rag_manager.py:23-78 | whenever initialisation returns True, the manager is ready (line 141-143) |
| DrugRagManager.RebuildThenLoad | medicine_rag_utils/drug_rag_manager.py:33-73 | what a successful rebuild saves, a fresh manager over the same files loads back: the same index, records and update time |
| DrugRagManager.ReadyWithoutRecords | medicine_rag_utils/drug_rag_manager.py:82-84 | after loading a saved but empty record list the manager is ready and still answers every request with `None` |
| DrugRagManager.PartialSaveMixesFiles | medicine_rag_utils/drug_rag_manager.py:61-65 | a rebuild whose records write raises leaves the new index on disk; if the write raised before `open(..., 'wb')` emptied the file, the old records stay beside it and the next manager loads that mismatched pair; if after, the next manager's initialisation returns False with the new index loaded and no records |
| DrugRagManager.FailedLoadStillReady | medicine_rag_utils/drug_rag_manager.py:33-38 | a load whose index reads back but whose records file does not returns False, yet the manager reports itself initialised and ready, and answers every request with `None` |
| DrugRagManager.Manager.constructor | medicine_rag_utils/drug_rag_manager.py:11-21 | a new manager has no index, no records, no update time and is not initialising |
| DrugRagManager.Manager.InitializeRagSystem | medicine_rag_utils/drug_rag_manager.py:23-78 | the steps give the new state and flag of `Initialize` |
| DrugRagManager.Manager.LoadFiles | medicine_rag_utils/drug_rag_manager.py:35-41 | the steps give the new state and flag of `Load` |
| DrugRagManager.Manager.SaveFiles | medicine_rag_utils/drug_rag_manager.py:61-69 | the steps give the new state and flag of `Save` |
| DrugRagManager.Manager.LoadStatusFile | medicine_rag_utils/drug_rag_manager.py:129-139 | the state becomes `LoadStatus` of the old one |
| DrugRagManager.Manager.SaveStatusFile | medicine_rag_utils/drug_rag_manager.py:117-127 | the status file records the current update time; nothing else changes |
| DrugRagManager.Manager.GetRecommendation | medicine_rag_utils/drug_rag_manager.py:80-103 | the answer is `Recommendation` of the current state |
| DrugRagManager.Manager.GetSystemStatus | medicine_rag_utils/drug_rag_manager.py:105-115 | the answer is `Status` of the current state |
| DrugRagManager.Manager.IsReady | medicine_rag_utils/drug_rag_manager.py:141-143 | ready exactly when an index is present and no initialisation is under way |
| RagSearch.ProbeCount | rag_utils/rag_search.py:38 | `min(8, nlist)`: at most both, equal to one of them, and equal to `nlist` exactly when `nlist` is at most 8 |
| RagSearch.IvfIndex.constructor | rag_utils/rag_search.py:26-27 | a new IVF index has the given quantizer, width, cluster count and metric, is untrained and empty, and probes FAISS's default of one cluster |
| RagSearch.IvfIndex.Train | rag_utils/rag_search.py:31 | training succeeds exactly when there are at least as many vectors as clusters; it adds no vectors |
| RagSearch.IvfIndex.Add | rag_utils/rag_search.py:35 | a trained index appends the vectors in order |
| RagSearch.IvfIndex.SetProbe | rag_utils/rag_search.py:38 | only the probe count changes |
| RagSearch.CreateIvfIndexForDiseases | rag_utils/rag_search.py:10-42 | an inner-product IVF index over an inner-product quantizer, trained, holding exactly the embeddings and probing `min(8, nlist)` clusters; nothing exactly when training fails |
| RagSearch.QueryTextSingle | rag_utils/rag_search.py:66 | a single symptom is queried as itself |
| RagSearch.QueryTextCons | rag_utils/rag_search.py:66 | each later symptom is preceded by `", "` in the query text |
| RagSearch.SearchResultsAsWritten | rag_utils/rag_search.py:79 | as written: succeeds exactly when every label is within Python's index range, and `-1` reads the last record |
| RagSearch.SearchResults | rag_utils/rag_search.py:78-79 | corrected: the padding labels are dropped and every real hit gives its record, in search order; a label past the end still raises |
| RagSearch.SearchResultsAgree | rag_utils/rag_search.py:79 | with no padding labels the corrected and as-written results are the same |
| RagSearch.MissingHitReadsLastRecord | rag_utils/rag_search.py:78-79 | a top-2 search with one hit returns the last record as a second result as written, and only the hit when corrected |
| RagSearch.OneHitLeft | rag_utils/rag_search.py:79 | dropping the padding from one hit and one padding label leaves the hit |
| RagSearch.SearchSimilarDiseases | rag_utils/rag_search.py:58-80 | an embedding failure raises; otherwise the records the index's labels name, in search order, with the `-1` padding labels dropped; this equals the code's `[meta[i] for i in I[0]]` whenever every label names a record; at most `top_k` records, exactly `top_k` when the search found that many |
| VectorFaiss.Embeddings | medicine_rag_utils/vector_faiss.py:16-20 | one embedding per record, in order, each the model's answer for that record's text; absent exactly when some request fails |
| VectorFaiss.Build | medicine_rag_utils/vector_faiss.py:13-24 | fails exactly when some embedding request fails; otherwise a flat index of the model's width with one row per record, each the embedding of that record's text, and the records themselves as metadata |
| VectorFaiss.BuildFaissIndex | medicine_rag_utils/vector_faiss.py:13-24 | the loop gives `Build` |
| VectorFaiss.SameTextSameRow | medicine_rag_utils/vector_faiss.py:17-18 | two records with the same embedded text get the same row |
| CreateIvfIndex.DiseaseClusters | rag_utils/create_ivf_index.py:38 | the cluster count lies between 5 and 50, and is `n // 20` exactly when `n` is between 100 and 1019 |
| CreateIvfIndex.DrugClusters | medicine_rag_utils/create_ivf_index.py:38 | the cluster count lies between 10 and 100, and is `n // 10` exactly when `n` is between 100 and 1009 |
| CreateIvfIndex.ClustersMonotone | rag_utils/create_ivf_index.py:38 | more embeddings never give fewer clusters, for either script |
| CreateIvfIndex.EnoughToTrain | rag_utils/create_ivf_index.py:38-45 | there are enough embeddings to train exactly when there are at least 5 (diseases) or 10 (drugs) |
| CreateIvfIndex.CreateDiseaseIvfIndex | rag_utils/create_ivf_index.py:14-55 | no embeddings file: False and nothing written; True exactly when there are at least 5 embeddings and the write succeeds, and then the index written is trained, holds exactly the embeddings at the file's width, and has the computed cluster and probe counts |
| CreateIvfIndex.CreateDrugIvfIndex | medicine_rag_utils/create_ivf_index.py:14-55 | no embeddings file: False and nothing written; True exactly when there are at least 10 embeddings and the write succeeds, and then the index written is trained and holds exactly the embeddings with the drug cluster count |
| CsvToFaiss.SymptomColumns | rag_utils/csv_to_faiss.py:26 | the symptom columns are exactly the columns other than `disease` in any case |
| CsvToFaiss.Marked | rag_utils/csv_to_faiss.py:31 | a column is marked exactly when the row holds the number 1 there |
| CsvToFaiss.SymptomsPresent | rag_utils/csv_to_faiss.py:31 | the symptoms listed are exactly the symptom columns the row marks with 1 |
| CsvToFaiss.SymptomsInColumnOrder | rag_utils/csv_to_faiss.py:31 | they are listed in column order |
| CsvToFaiss.Convert | rag_utils/csv_to_faiss.py:25-42 | succeeds exactly when there is a row, a `Disease` column and every embedding request answers; then one row and one record per CSV row, in order, each row the embedding of the joined symptoms |
| CsvToFaiss.BuildDiseaseIndex | rag_utils/csv_to_faiss.py:25-42 | the loop and stacking succeed exactly when `Convert` does, with the same index and records |
| CsvToFaiss.EmbedRows | rag_utils/csv_to_faiss.py:30-38 | on success one embedding and one record per row, in order; a failure has a missing `Disease` column or an embedding that failed as its cause |
| CsvToFaiss.EmbedRow | rag_utils/csv_to_faiss.py:31-38 | one row's embedding and record, or the failure of its request or its `Disease` lookup |
| CsvToFaiss.ConvertBuilt | rag_utils/csv_to_faiss.py:40-42 | the vectors and records the loop gathered, stacked, are what `Convert` specifies |
| CsvToFaiss.HasColumn | rag_utils/csv_to_faiss.py:25 | a row of a complete frame has a `Disease` cell exactly when the frame has the column |
| CsvToFaiss.Basename | rag_utils/csv_to_faiss.py:45 | the base name holds no `/` and is no longer than the path |
| CsvToFaiss.OutputNames | rag_utils/csv_to_faiss.py:45-47 | `folder/name.ext` is saved as `rag_utils/name.index` and `rag_utils/name_meta.json` |
| CsvToFaiss.CommandLine | rag_utils/csv_to_faiss.py:53-57 | the run stops with a usage message exactly when no path is given, and otherwise converts the first argument |
| Ranking.Descending | hosp_utils/recommendation.py:194 | the order `nlargest` ranks by: one row stands before another exactly when its key is at least as large |
| Ranking.DescendingIsTotalPreorder | hosp_utils/recommendation.py:194 | that order is total and transitive, so the sorts below may use it |
| Ranking.Filter | medicine_rag_utils/medicineRAG.py:101-102 | a comprehension with a condition keeps only elements that pass, and no more than there were |
| Ranking.FilterSubset | medicine_rag_utils/medicineRAG.py:101-102 | it keeps exactly the elements of the input that pass |
| Ranking.FilterPartition | medicine_rag_utils/medicineRAG.py:101-105 | two complementary filters together hold each element once |
| Ranking.FilterSorted | medicine_rag_utils/medicineRAG.py:101-102 | filtering keeps a sorted sequence sorted |
| Ranking.SortBy | medicine_rag_utils/medicineRAG.py:98 | `list.sort` returns a permutation of its input |
| Ranking.SortBySorted | medicine_rag_utils/medicineRAG.py:98 | the sorted list is in order under any total preorder |
| Ranking.SortByStable | medicine_rag_utils/medicineRAG.py:98 | the sort is stable: elements of equal rank keep their input order |
| Ranking.TopK | pharm_utils/recommendation.py:156 | `nlargest(k)` returns `min(k, n)` rows |
| Ranking.TopKSelects | hosp_utils/recommendation.py:194 | the rows returned come from the input, in rank order, and no row left out ranks strictly above one that was kept |
| Ranking.Map | utils/department_utils.py:13-14 | a comprehension `[f(x) for x in s]` gives one image per element, in order |
| Ranking.MapPermutation | medicine_rag_utils/medicineRAG.py:107 | mapping two permutations of one list gives permutations of one list of images |
| PyText.TrimLeft | text_119_utils/cleaning.py:4 | the longest prefix of characters to drop is removed, and what is left does not start with one |
| PyText.TrimRight | text_119_utils/cleaning.py:4 | the longest suffix of characters to drop is removed, and what is left does not end with one |
| PyText.StripNoop | utils/department_utils.py:36 | a string that neither starts nor ends with whitespace is its own `strip()` |
| PyText.Split | hosp_utils/es_functions.py:50 | `split(sep)` gives at least one piece, none holding the separator |
| PyText.JoinEmpty | medicine_rag_utils/medicineRAG.py:337 | a join of non-empty pieces is empty exactly when there are none |
| PyText.JoinSplit | hosp_utils/es_functions.py:50 | joining the pieces of a split with the separator gives the string back |
| PyText.SplitJoin | hosp_utils/es_functions.py:9 | splitting a join gives the pieces back when none holds the separator |
| PyText.Words | er_utils/apis.py:5 | `split()` gives the whitespace-free words of the string |
| PyText.Lower | text_119_utils/cleaning.py:4 | `lower()` keeps the length and leaves no upper-case ASCII letter |
| PyText.NatToString | medicine_rag_utils/medicineRAG.py:303 | `str(n)` of a natural number is a string of digits |
| PyText.ParseIntOfNatToString | utils/feedback_manager.py:221-224 | `int(str(n)) == n` |

## Left out

- The OpenAI calls are parameters. This covers the chat answer of `analyze_drug_context` (only its `(0, [])` fallback is fixed), the symptom conversion in `convert_symptom_to_korean`, `translate_text`, `romanize_korean_names` and the embeddings.
- FAISS internals are left out: k-means training, probing, distances, and `read_index`/`write_index`. A search is an oracle answering ids.
- The torch policy networks and the Adam optimiser are oracles. The model records whether an optimiser step is taken and on which batch, not the gradient values.
- sklearn's cosine similarity is an oracle with values in [-1, 1].
- The Elasticsearch client, its configuration, the index name and the Painless script text are left out. The model builds the query body and reads the hits.
- The HTTP calls (the emergency-medical APIs, Google Directions, the drug API) are oracles answering per request. The Kakao geocoder and `call_api`'s internals are left out.
- MySQL queries, including `get_used_passwords`, are parameters. Connection setup and `keys.config` are outside the model.
- Pickle, JSON and CSV file I/O are oracles or given values, and unpickling is not modelled. The drug manager's two pickle files can be unreadable, which is a failure outcome. Elsewhere, a file that fails to load is not modelled: the disease index and records that `search_similar_diseases` reads, the embeddings file of the IVF builders, and the CSV table.
- Floating point: scores, coordinates and distances are exact `real`s, so rounding and NaN coordinates are not modelled.
- Redis connection errors and TTL reads are left out. Expiry is a time stamp compared with `now`.
- Serialising pandas `Timestamp`s in the feedback cache write is left out. The write is modelled as succeeding, though `json.dumps` may reject such values.
- `time.sleep` between API pages is left out, because waiting does not change any value.
- Threads and concurrent requests are left out. `is_initializing` only matters under concurrency, and the model keeps its flag without interleavings.
- The scheduling, threads and globals of app_core.py are not part of this model. This includes `retrain_models`, whose single `try` lets one member's failure abort the rest.
- The other LLM helpers are not part of this model: `analyze_symptoms` with its random question sample, ai_utils.py, the form, speech and profile prompts.
- pharm_utils/es_functions_for_pharmacy.py (a fixed query and the search call), utils/en_juso.py, mongodb_utils.py, main_language.py and the drug API client are not part of this model.
- pandas frames are sequences of rows. The model leaves out duplicate index labels, an `apply` on an empty frame and dictionary key order.
- Duplicate tags in one XML item are left out: each item is a map from tag to text.
- `translate_drug_info` changes the metadata dictionaries in place, and those dictionaries are shared with the search results. The model returns new records, so that aliasing is not captured.
- `None` conditions and empty lists are the same value in the model.
- `EmbedRows`: when several rows fail, the order of the collected error messages is not modelled.
- `embed_user_profile` (hosp_utils/recommendation.py:59-73) formats a profile sentence and embeds it. The user vector reaches the ranking as a parameter, so that sentence template is not part of this model.
- `main.py`, the selenium scraper and the S3 upload are not part of this model.
- The status file's `drug_count` field is written but never read back. The model keeps only `last_update` in that file.
- PasswordGen.GeneratePassword: the source retries forever. The model stops when the given finite list of draws runs out and answers `None`.
- Cleaning.CleanFormValue: `str()` of non-string values is not modelled, and lower-casing covers ASCII letters only.
- DepartmentUtils.ExtractKoreanDepartment: list elements that are `None` or not strings are not modelled.
- DepartmentMapping.Lookup: the table is a list of pairs. With a duplicate key the first pair wins, whereas a Python dictionary literal keeps the last one. The table has no duplicate keys.
- VectorFaiss.Build: requires a non-empty list of records, because `np.vstack` raises on an empty list and the only caller never passes one. It also requires every embedding to have the same width.
- CreateIvfIndex.CreateDiseaseIvfIndex and CreateIvfIndex.CreateDrugIvfIndex: require the embeddings file, when present, to be rectangular (one width for all rows). That is the shape `np.array` needs.
- CreateIvfIndex.CreateDrugIvfIndex: medicine_rag_utils/create_ivf_index.py imports `create_ivf_index_for_drugs`, which medicine_rag_utils/medicineRAG.py does not define. The model builds the drug index with the disease builder and the drug cluster count.
- MedicineRag.ToKorean: medicineRAG.py lines 377-378 are mis-indented, so the module cannot be imported as written. The model follows the evident intent of the `try`/`except`.
- MedicineRag.ToKorean, MedicineRag.WarningMessage and MedicineRag.TranslateDrug: the translation is an oracle, so their contracts speak of the untranslated paths and of the fields translation keeps.
- MedicineRag.AnalyzeDrugKeywords: skips blank comma-separated entries in allergies, medications and medical history, which the code as written matches against every drug (see Findings). `FoundAllergiesAsWritten` and `ClashAsWritten` model the code's rule.
- RagSearch.SearchSimilarDiseases: drops FAISS's `-1` padding labels, where the code as written reads the last record for each of them (see Findings). `SearchResultsAsWritten` models the code's rule, and the two agree whenever every label names a record.
- HospitalRecommendation.HospitalRecommender.UpdateFromFeedback: reads the `hospital_name` column the feedback rows carry, where the code reads the missing `name` column and raises (see Findings). `UpdateAsWritten` models the code's behaviour. The corrected update still needs the two embedding columns the rows lack (see the HospitalRecommendation.PolicyUpdateSteps line).
- PharmacyRecommendation.PharmacyRecommender.UpdateFromFeedback: reads the `pharmacy_name` column the feedback rows carry, where the code reads the missing `dutyname` column and raises (see Findings). `UpdateAsWritten` models the code's behaviour. The corrected update still needs the three travel-time columns the rows lack (see the PharmacyRecommendation.PolicyUpdateSteps line).
- HospitalRecommendation.PolicyUpdateSteps: with the name column corrected, each rewarded row's state is still `row['user_embedding'] - row['facility_embedding']` (hosp_utils/recommendation.py:223). The hospital feedback rows (utils/feedback_manager.py:27-31) carry neither column, so that line raises `KeyError` too. The `loss` oracle stands for `-log(policy(state))` as if the rows carried both embeddings, a state the code never builds.
- PharmacyRecommendation.PolicyUpdateSteps: with the name column corrected, each rewarded row's state still comes from `calculate_base_score(pd.DataFrame([row]))` (pharm_utils/recommendation.py:50-51), which reads `transit_travel_time_h`, `transit_travel_time_m` and `transit_travel_time_s`. The pharmacy feedback rows (utils/feedback_manager.py:62-65) carry none of them, so that call raises `KeyError` too. The `loss` oracle stands for `-log(policy(features))` as if the rows carried travel times, a state the code never builds.
- HospitalRecommendation.HospitalRecommender.RecommendHospitals: the empty frame is modelled as the `ValueError` that `cosine_similarity` raises for zero samples (hosp_utils/recommendation.py:155); the message is the model's name for it, not sklearn's exact text. Separately, it pairs each row with the embedding at its position. The code indexes the embeddings with the `iterrows` label (hosp_utils/recommendation.py:175-176), which is the position only when the frame has a default index. A frame sorted in place without `reset_index` (as er_utils/direction_for_er.py:67-71 sorts) has labels that are not positions, and then the code scores a row against another hospital's embedding or raises `IndexError`. The call that hands such a frame to the recommender is not part of this model, so that case is not modelled.
- HospitalRecommendation.Distinct: keeps the sentences in order of first appearance, where `list(set(...))` (hosp_utils/recommendation.py:90) has no fixed order. Only the batch boundaries of the embedding calls depend on it; every sentence still gets its own embedding.
- ErApis and FilteringForAddr: the request for the total count and the request for page 1 are the same call of the API oracle, where the code sends two HTTP requests. Two different answers to them are not modelled.
- PyText.Lower lower-cases ASCII letters only. Besides Cleaning, MedicineRag uses it for the patient's entries and the drug texts, so non-ASCII upper-case letters are not folded there either.
- FeedbackStore.FeedbackManager.CheckHospitalLogs: gives the 0.2 bonus only to hospitals whose row has a selection id, where the code gives it to every listed hospital once any of them has one, because the NULL ids then read back as NaN and `is not None` holds of NaN (see Findings). `LogBonusAsWritten` models the code's rule, and `LogBonusWithinAsWritten` says where the two agree.
- FeedbackStore.FeedbackManager.CheckPharmacyLogs: the same corrected rule for pharmacies, where the code rewards every listed pharmacy once any of them has been selected.
- FeedbackStore.FeedbackManager.CollectBonus: builds the corrected bonus map `LogBonus`, not the code's `LogBonusAsWritten`.
- FeedbackStore.ReadBonusValues: states the corrected rule; under the code's rule a successful query names every listed facility as soon as one of them is selected.
- HospitalRecommendation.Filled: travel times are natural numbers, so a hospital with no route is not modelled. For such a hospital `calculate_travel_time_and_distance` stores `None` (utils/direction.py:63-65), the frame holds NaN, and `fillna(0)` on numeric columns (hosp_utils/recommendation.py:79-80) turns it into 0 seconds, which scores the best base score 1.0. `FillZero` and `NoRouteScoresBest` state that consequence. The emergency-room path fills the missing seconds with 0 before splitting them, with the same effect.
- PharmacyRecommendation.ImmediateReward: travel times are natural numbers. A pharmacy with no route has NaN travel columns, which pharm_utils/recommendation.py:71-83 does not fill, so its base score, reward and final score are NaN. That case is not modelled.

## Findings

| source | as written | input that shows it | evidently intended | confidence | as-written member | corrected member |
|---|---|---|---|---|---|---|
| utils/feedback_manager.py:141-143 | a log row counts as a selection when `selected_id is not None`, but pandas reads the NULL id of an unmatched LEFT JOIN row as NaN, which is not `None` | hospital A selected, hospital B listed but never selected: both get the 0.2 bonus | only facilities with a selection id get the bonus | not executed | FeedbackStore.LogBonusAsWrittenRewardsUnselected | FeedbackStore.LogBonus |
| hosp_utils/recommendation.py:217-219 | the reward of a feedback row reads `row['name']` (utils/feedback_manager.py line 96), but the feedback rows carry `hospital_name` and no `name` | one hospital chosen an hour ago: `KeyError` | the row's own hospital name is compared with the recent selections; the state then reads `user_embedding` and `facility_embedding` (line 223), which the rows also lack, so the corrected model takes the loss per row as an oracle | not executed | HospitalRecommendation.UpdateAsWrittenRaises | HospitalRecommendation.PolicyUpdateSteps |
| pharm_utils/recommendation.py:43-45 | the reward of a feedback row reads `row['dutyname']` (utils/feedback_manager.py line 111), but the feedback rows carry `pharmacy_name` and no `dutyname` | one pharmacy chosen an hour ago: `KeyError` | the row's own pharmacy name is compared with the recent selections; the state then needs `transit_travel_time_h/m/s` (lines 50-51), which the rows also lack, so the corrected model takes the loss per row as an oracle | not executed | PharmacyRecommendation.UpdateAsWrittenRaises | PharmacyRecommendation.PolicyUpdateSteps |
| medicine_rag_utils/medicineRAG.py:220-241 | every comma-separated entry of the allergies, medications and history is searched for in the drug text, and a blank entry left by a trailing comma is found in every text | allergies `"penicillin,"`: the blank entry flags any drug as an allergy risk; the same for medications and history | blank entries are skipped | not executed | MedicineRag.BlankEntryMatchesEveryDrug | MedicineRag.FoundAllergiesExact |
| rag_utils/rag_search.py:78-79 | every returned id indexes the metadata, and the `-1` FAISS pads a short answer with reads the last record in Python | `top_k = 2` with one hit: ids `[hit, -1]` give the hit and the last record | padding ids are dropped | not executed | RagSearch.MissingHitReadsLastRecord | RagSearch.SearchResults |
