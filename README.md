# picklab-battlecalc, modelled in Dafny

picklab-battlecalc is a set of browser pages for team preview and battle
decisions in Pokémon battles. This project models the parts of six
of those pages that compute something. Every part of those pages that only draws,
stores or fetches is left out.

- **Action advisor** (`ai.js`):
  - the type chart and its product-of-factors effectiveness;
  - the heuristic damage percent and a mon's best threat;
  - the anti-setup check, the worst defensive multiplier and safe-switch counting;
  - the candidate actions, each scored by four risks combined into a losing
    probability, with reject reasons;
  - the two ranking scenarios, with the top-3 and top-12 cuts.
  Modules `TypeChart`, `Battle`, `Advisor`.
- **Capture page** (`capture/capture.js`):
  - name normalisation, the edit distance, and the exact-then-fuzzy dex lookup;
  - extracting a Japanese name from recognised text;
  - locating the green HP bar in an RGBA frame;
  - the bounded, de-duplicated party list.
  Modules `CaptureNames`, `CaptureHud`.
- **Party snapshot page** (`capture/team-snap.js`):
  - the branch-free popcount and the 64-bit Hamming distance;
  - packing a 9×8 thumbnail's 64 comparisons into two words (the difference hash);
  - sprite-sheet tile indexing and the reference hashes;
  - the nearest-hash search with its distance threshold of 22;
  - the per-slot ink bounding-box scan and crop;
  - HTML escaping.
  Module `TeamSnap`.
- **Calculator bridge** (`calc/picklab-bridge.js`): id normalisation, the
  guessing cascade of `bestGuessFromSet`, the form cascade of `idToBdcName`,
  move-name conversion, and the six-slot arrays written into the calculator.
  Module `Bridge`.
- **Learning log** (`learn/log.js`): the page state (two six-slot teams, three
  pick selectors per side, the stored logs) as a class. It covers order-preserving
  de-duplication, the option-restore rule, the duplicate-pick warning, saving one
  entry, clearing, and parsing the regulation CSV into the name list.
  Module `LearnLog`.
- **Statistics** (`learn/data.js`):
  - per-name appearance, pick and lead counts, and their rates;
  - the row comparator, the query filter and the limit slice;
  - the regulation labels, options and filter.
  Module `LearnData`.

Shared modules:
- `Common`: Option, JavaScript's white space, trim, lower/upper-casing,
  includes and replace, and the Set-based de-duplication.
- `Sorting`: `Array.prototype.sort` with a comparator, as a stable insertion sort.
- `Raster`: RGBA frames as `getImageData` returns them.

Modelling choices:
- Numbers are `real`, which is exact.
- Every value a page reads from the DOM, the clock, storage or the network is a parameter.
- Loops of the source are `method`s proved equal to a recursive specification
  function. The properties are proved about that function.
- State the pages change in place is a `class`: the learning-log page and the
  capture party. The reference-hash buffers are `array`s, and so is the
  edit-distance row.

## Model

| member | source | states |
|---|---|---|
| TypeChart.ChartEntry | ai.js:16-35 | every chart entry is 0, 0.5, 1 or 2; a pairing the row does not list is 1 |
| TypeChart.Factor | ai.js:37-45 | one defender type's factor is 0, 0.5, 1 or 2, and 1 whenever the attacking or defending type is not in the chart |
| TypeChart.TypeEffect | ai.js:37-45 | the running product over the defender types equals the product of one factor per defender type (1 for an empty list) |
| TypeChart.EffectNonNegative | ai.js:37-45 | effectiveness is never negative |
| TypeChart.UnknownAttackerNeutral | ai.js:38-39 | an attacking type missing from the chart is neutral against any defender list |
| TypeChart.SingleTypeValues | ai.js:37-45 | against one defender type the effectiveness is 0, 0.5, 1 or 2 |
| TypeChart.DualTypeValues | ai.js:37-45 | against two defender types the effectiveness is 0, 0.25, 0.5, 1, 2 or 4 |
| TypeChart.EffectSnoc | ai.js:41-43 | adding a defender type multiplies the effectiveness by that type's factor |
| TypeChart.ProductOfFactors | ai.js:41-43 | the product of two chart factors is one of the six dual-type values |
| Battle.Clamp | ai.js:47 | the result lies in [a, b], is n when n is already inside, a below and b above |
| Battle.PredictDamage | ai.js:347-360 | the damage percent lies in [0, 100] and is 0 for an unknown or Status move |
| Battle.DamageZeroIff | ai.js:347-360 | with non-negative base powers, the damage is 0 exactly for an unknown move, a Status move or an immune defender |
| Battle.ScaledZeroIff | ai.js:355-359 | with a positive base power and bonus, the clamped damage is 0 exactly when the effectiveness is 0 |
| Battle.BestOfIsFirstMax | ai.js:362-371 | the best threat is the maximum of 0 and every listed move's damage; it names the earliest move reaching it, and "" exactly when the maximum is 0 |
| Battle.BestThreatPct | ai.js:362-371 | the loop over the mon's moves returns the best-threat specification |
| Battle.HasAntiSetup | ai.js:373-383 | true exactly when some ally with a species has the Unaware ability or a move in STOP_SETUP |
| Battle.WorstOf | ai.js:385-392 | the worst defensive multiplier is never below 1 |
| Battle.WorstIsMax | ai.js:385-392 | every opponent type's effectiveness against the defender is at most the worst multiplier |
| Battle.WorstIsAttained | ai.js:385-392 | the worst multiplier is the starting 1 or the effectiveness of one of the opponent's types |
| Battle.DefenseWorstMult | ai.js:385-392 | the loop returns the worst-multiplier specification |
| Battle.SafeCount | ai.js:394-403 | the count is at most the number of allies, and positive exactly when some non-active ally with HP above 0 has a worst multiplier of exactly 1 |
| Battle.SafeSwitchCount | ai.js:394-403 | the counting loop returns the safe-count specification |
| Advisor.ParseScenario | ai.js:467-468 | scenario A exactly when the stored value upper-cases to "A"; every other value, missing included, is B |
| Advisor.HpOf | ai.js:519-520 | an HP value is clamped into [0, 100], and a missing one is 100 |
| Advisor.LookupHp | ai.js:412-422 | the ally HP map has an entry for idx exactly when one of its entries has that key, and returns that entry's value |
| Advisor.AlliesOf | ai.js:412-422 | the ally list holds exactly the HP-map entries whose index names a left slot with a species, each paired with that slot's mon |
| Advisor.AllyList | ai.js:412-422 | the loop over the HP map returns the ally-list specification |
| Advisor.AlliesWithActive | ai.js:525-529 | the allies used for the anti-setup check always include the active mon, and every entry names its own left slot |
| Advisor.MakeContext | ai.js:504-533 | the context's allies are all left-team slots, and its active mon is the left slot at the active index |
| Advisor.MoveActions | ai.js:541-544 | one move action per non-empty move id of the active mon, in stored order with repeated ids kept: the k-th action uses the k-th non-empty id, and there is nothing else |
| Advisor.SwitchActions | ai.js:545-549 | a switch to index i exactly when some ally at i is not the active mon and has HP above 0 |
| Advisor.CandidatesShape | ai.js:539-555 | the candidate list starts with the only stay action, then one move action per non-empty id in stored order, then only switch actions, one for each eligible ally; so it is never empty and the no-actions branch is dead |
| Advisor.CandidatesOrder | ai.js:539-555 | stay first, then the move actions at positions 1 to n in the order of the non-empty ids, then only switch actions |
| Advisor.CandidatesMembers | ai.js:539-555 | a move or switch action is present exactly when its id is non-empty or its ally is eligible, and no stay follows the first |
| Advisor.BuildActions | ai.js:539-549 | building the list by pushes gives exactly the candidate specification |
| Advisor.PushMoves | ai.js:541-544 | the push loop appends the move actions in stored order |
| Advisor.PushSwitches | ai.js:545-549 | the push loop appends the switch actions in ally order |
| Advisor.SwitchTargetsValid | ai.js:545-586 | every switch target is a slot of the left team, so evalAction reads a real mon |
| Advisor.Assess | ai.js:557-603 | a knockout is only ever a move whose damage is positive and at least the opponent's HP; the worst multiplier is at least 1 |
| Advisor.RiskLevels | ai.js:605-661 | setup risk is 0.05/0.12/0.35/0.7, no-switch 0.05/0.18/0.55, exposure 0.08/0.22/0.35 (0.03 is unreachable), punish 0/0.45/0.6/0.75 and positive only for a switch |
| Advisor.SurviveBounds | ai.js:672 | one more risk in [0,1] keeps the survival chance in [0,1], at most the chance before and at most 1 - r |
| Advisor.UnitProduct | ai.js:663-669 | proof helper for LoseProbBounds, not a model of these lines on its own: scaling by a factor in [0,1] stays in [0,1] and never grows |
| Advisor.SurviveMonotone | ai.js:672 | a smaller survival chance and a larger risk never give a larger survival chance |
| Advisor.NoneHappenBounds | ai.js:672 | the product of (1 - r) over risks in [0,1] lies in [0,1] and is at most each 1 - r |
| Advisor.NoneHappenAntitone | ai.js:672 | raising any risk never raises the chance that none happens |
| Advisor.LoseProbBounds | ai.js:672 | the losing probability lies in [0,1] and is at least each of the four risks |
| Advisor.LoseProbMonotone | ai.js:672 | the losing probability is monotone in every risk |
| Advisor.KnockOutLowersRisk | ai.js:663-672 | a knockout is a move, and its dampened losing probability is at most the undampened one |
| Advisor.EvalLoseProbInUnit | ai.js:557-702 | every scored action's losing probability lies in [0,1] |
| Advisor.RejectReasonsMeaning | ai.js:608-684 | the free-setup reason comes with setup risk 0.7 and threat below 50; no-answers with no-switch risk 0.55 and exposure at least 0.22; weak-switch only for a switch with punish risk at least 0.45; with both toggles off nothing is rejected |
| Advisor.ScoreAll | ai.js:704 | one scored entry per candidate, in order |
| Advisor.Accepted | ai.js:705 | exactly the scored entries without a reject reason |
| Advisor.RejectedOf | ai.js:706 | exactly the scored entries with a reject reason |
| Advisor.OrdersArePreorders | ai.js:708-716 | both scenario comparators are total and transitive, so the stable sort is well defined |
| Advisor.RankShape | ai.js:718-753 | with any candidate the advice holds 1 to 3 actions and is degraded exactly when every action is rejected; top actions are accepted ones unless degraded; at most 12 rejected ones are listed |
| Advisor.Pool | ai.js:718 | the advice is drawn from the accepted actions, or from the rejected ones exactly when none is accepted |
| Advisor.RankOrdered | ai.js:708-753 | both shown lists are sorted by the scenario order; the advice holds min(3, n) actions of its pool and the rejected list min(12, m); every shown action goes no later than every action of its list left out |
| Advisor.RankTies | ai.js:708-718 | actions the order ranks equal keep their scored order in the advice and in the rejected list (the sort is stable and the lists are prefixes) |
| Advisor.TopFirst | ai.js:708-718 | the first advised action goes no later than any action of the pool |
| Advisor.OrderMeans | ai.js:710-715 | what "goes no later" means for each comparator, in terms of threat and losing probability |
| Advisor.ComputeAdvises | ai.js:504-555 | compute reports the unset field exactly when an active mon lacks a species, and otherwise always ranks the non-empty scored candidates |
| Advisor.TopIsBest | ai.js:708-718 | among the pool (accepted actions, or rejected ones when none is accepted): in scenario A the first suggestion has the highest threat, ties broken by the lowest losing probability; in B the lowest losing probability, ties broken by the highest threat |
| CaptureNames.BracketChar | capture/capture.js:52-53 | full-width and lenticular brackets become half-width parentheses |
| CaptureNames.Brackets | capture/capture.js:52-53 | the bracket rewrite keeps the length and maps every character |
| CaptureNames.RunFrom | capture/capture.js:54 | the run found from j is the maximal run of characters with the property |
| CaptureNames.LvMatchAt | capture/capture.js:54 | a level marker match is empty or at least "Lv" plus a digit long, inside the string |
| CaptureNames.RemoveLv | capture/capture.js:54 | removing level markers never lengthens the text or adds characters |
| CaptureNames.NormalizeJa | capture/capture.js:48-56 | normalisation never lengthens the text |
| CaptureNames.NormalizeJaKeeps | capture/capture.js:48-56 | the trim removes nothing: the result is the input with white space and punctuation dropped and brackets mapped, less its level markers; on input without "L"/"l" it is exactly every other character, in order |
| CaptureNames.RemoveLvNoMarker | capture/capture.js:54 | text without "L" or "l" has no level marker, so the replacement leaves it unchanged |
| CaptureNames.NormalizeJaChars | capture/capture.js:48-56 | a normalised name holds no white space, no removed punctuation and no full-width bracket |
| CaptureNames.BracketedClean | capture/capture.js:50-53 | stripping white space and punctuation, then rewriting brackets, leaves only normalised characters |
| CaptureNames.DistBound | capture/capture.js:58-80 | the edit distance of two prefixes is at most the longer prefix's length |
| CaptureNames.DistZeroIff | capture/capture.js:58-80 | the edit distance of two prefixes is 0 exactly when they are equal |
| CaptureNames.EditDistanceBound | capture/capture.js:58-80 | the distance is at most the longer length, and 0 exactly for equal strings |
| CaptureNames.Levenshtein | capture/capture.js:58-80 | the single-row dynamic programme returns the unit-cost edit distance, including the empty-string cases |
| CaptureNames.NextRow | capture/capture.js:65-78 | after outer step i every dp[j] holds the distance between a[..i] and b[..j] |
| CaptureNames.MaxLen | capture/capture.js:122 | the divisor is at least 1 and at least both lengths |
| CaptureNames.Score | capture/capture.js:122-123 | a similarity score is at most 1 |
| CaptureNames.ScoreInUnit | capture/capture.js:122-123 | the score lies in [0,1] and is 1 exactly for equal strings |
| CaptureNames.RatioInUnit | capture/capture.js:123 | proof helper for ScoreInUnit, not a model of this line on its own: a distance over its bound lies in [0,1] and is 0 exactly for distance 0 |
| CaptureNames.FuzzyScanBest | capture/capture.js:114-132 | the fuzzy pass ends with the initial pick or with the name, score and distance of one entry sharing the first character; no such entry scores higher, an equal score is never closer, and every earlier entry with that score is strictly farther away |
| CaptureNames.GlobalScanBest | capture/capture.js:134-141 | the global pass keeps its initial pick unless an entry beats the score; then it holds the name and score of the first entry of highest score, and no entry scores higher |
| CaptureNames.FirstHit | capture/capture.js:111 | the exact hit is the first dex entry with that normalised name |
| CaptureNames.Clamp01 | capture/capture.js:142 | the returned score lies in [0,1], unchanged when already inside |
| CaptureNames.ScanSpec | capture/capture.js:114-142 | without an exact hit the score lies in [0,1); a fuzzy answer is the fuzzy pass's winner with its tie-break, and otherwise a name is that of the first entry of highest score |
| CaptureNames.BestMatchSpec | capture/capture.js:107-143 | an empty query gives ("", 0); the score is 1 exactly for an exact hit, which names the first such entry; otherwise the name and score are those of the first best same-first-character entry (least distance among equal scores), or, when the fuzzy pass names nothing, of the first entry of highest score |
| CaptureNames.BestMatchName | capture/capture.js:107-143 | the two loops compute the lookup specification |
| CaptureNames.FuzzyPass | capture/capture.js:114-132 | the fuzzy loop, with its tie-break on a smaller distance, computes the fuzzy specification |
| CaptureNames.GlobalPass | capture/capture.js:134-141 | the global loop computes the global specification |
| CaptureNames.JpRuns | capture/capture.js:436 | every run found is at least two kana, kanji or long-vowel characters |
| CaptureNames.ExtractNameCandidateSpec | capture/capture.js:430-440 | the result is "" exactly when there is no run, and otherwise the first of the longest runs of the cleaned text |
| CaptureHud.PixelIsGreen | capture/capture.js:254-268 | reading a pixel classifies it by g > 110, g > r + 28 and g > b + 28 |
| CaptureHud.RunLen | capture/capture.js:263-283 | a run is a maximal block of green pixels inside the row |
| CaptureHud.RunLenExact | capture/capture.js:272-282 | a run ended by a non-green pixel or the right edge has the length the scan computes |
| CaptureHud.GreenHasStart | capture/capture.js:263-283 | every green pixel belongs to a run that starts at or before it |
| CaptureHud.LongestRun | capture/capture.js:261-283 | the scan returns None exactly for a frame without green, and otherwise the first longest run in row-major order, edge-touching runs included |
| CaptureHud.ScanRow | capture/capture.js:264-282 | after a row the best run beats every finished run and is the earliest among equals |
| CaptureHud.StepGreen | capture/capture.js:269-270 | a green pixel finishes no run |
| CaptureHud.StepGap | capture/capture.js:271-276 | a non-green pixel after a gap finishes no run |
| CaptureHud.Recorded | capture/capture.js:272-282 | a run is recorded only when strictly longer, which keeps the best run first and longest |
| CaptureHud.RecordedBeats | capture/capture.js:273-274 | after recording, every finished run is beaten by the new best |
| CaptureHud.RowEnd | capture/capture.js:279-282 | past the last column every run of the row is finished |
| CaptureHud.EndsTogether | capture/capture.js:272-276 | two runs of a row that end together start together |
| CaptureHud.GreenIn | capture/capture.js:290-294 | the green count of a row segment is at most its width |
| CaptureHud.CountGreen | capture/capture.js:290-294 | the counting loop returns the green count |
| CaptureHud.Expand | capture/capture.js:286-299 | top and bottom lie within 8 rows of the run and inside the frame, bracket the run's row, are the run row or thick rows, and enclose every thick row in range |
| CaptureHud.FindHpBarRect | capture/capture.js:258-301 | None exactly when every run is shorter than max(1, floor(w*0.18)); otherwise it keeps the first longest run's x and width, has height at least 1, and spans at most 8 rows around that run's row |
| CaptureHud.AddToPartyKeeps | capture/capture.js:442-451 | a blank or present name leaves the party unchanged; otherwise the oldest of six is dropped and the name appended; the party stays at most six distinct names |
| CaptureHud.PushNew | capture/capture.js:447-448 | dropping the oldest of six and appending an absent name changes the list and keeps it at most six distinct names |
| CaptureHud.Party.constructor | capture/capture.js:157-162 | the party starts empty |
| CaptureHud.Party.Add | capture/capture.js:442-451 | adding a recognised name updates the held party as the add rule says and keeps it at most six distinct names |
| TeamSnap.Popcnt32Counts | capture/team-snap.js:55-59 | the branch-free popcount equals the number of set bits, added bit by bit |
| TeamSnap.PopcntRange | capture/team-snap.js:55-59 | the popcount lies in 0..32 and is 0 only for 0 |
| TeamSnap.BitCountBound | capture/team-snap.js:55-59 | a word has at most 32 set bits |
| TeamSnap.BitCountZero | capture/team-snap.js:55-59 | only the zero word has no set bit |
| TeamSnap.HammingSymmetric | capture/team-snap.js:60-62 | the Hamming distance is symmetric |
| TeamSnap.HammingBound | capture/team-snap.js:60-62 | two hashes differ in at most 64 positions |
| TeamSnap.HammingZero | capture/team-snap.js:60-62 | the distance is 0 exactly when both words are equal |
| TeamSnap.ValueBit | capture/team-snap.js:83-87 | bit k shifted in from the right ends up at position n - 1 - k of the word |
| TeamSnap.DiffBits | capture/team-snap.js:76-84 | a 9 by 8 thumbnail gives exactly 64 comparison bits |
| TeamSnap.DiffBitAt | capture/team-snap.js:78-82 | comparison 8y + x is 1 exactly when the pixel's gray value is below its right neighbour's |
| TeamSnap.DHashHighBits | capture/team-snap.js:74-93 | comparison 8y + x of the top four rows is bit 31 - (8y + x) of the high word |
| TeamSnap.DHashLowBits | capture/team-snap.js:74-93 | comparison 8y + x of the bottom four rows is bit 63 - (8y + x) of the low word |
| TeamSnap.PackHash | capture/team-snap.js:74-93 | the shift loop packs the comparisons into the difference hash |
| TeamSnap.TileIndex | capture/team-snap.js:156-163 | a tile's corner lies in the twelve-column sheet and gives its national number back |
| TeamSnap.TilesDistinct | capture/team-snap.js:156-163 | no two numbers share a tile |
| TeamSnap.BuildReference | capture/team-snap.js:146-170 | the reference arrays hold, for every number up to the maximum, the hash of its tile when the tile fits in the sheet and 0 otherwise |
| TeamSnap.SoFarZero | capture/team-snap.js:338 | stopping at distance 0 does not change the nearest number |
| TeamSnap.NearestDex | capture/team-snap.js:327-340 | no match exactly when no number has a non-zero reference; otherwise the smallest listed number at the least Hamming distance |
| TeamSnap.Label | capture/team-snap.js:343-344 | a slot shows a name only for a match that has a name and lies within distance 22, and then it shows that name |
| TeamSnap.MatchSlot | capture/team-snap.js:323-352 | a slot's hash is the difference hash, the number is None exactly when no reference is listed and is otherwise the nearest one, and the label is the label rule applied to the number and distance, so "?" when nothing has a reference |
| TeamSnap.PixelIsInk | capture/team-snap.js:222-228 | reading a pixel classifies it by alpha ≥ 10 and not all channels above 225 |
| TeamSnap.InkBoxUnique | capture/team-snap.js:216-234 | the band's ink determines its bounding box |
| TeamSnap.ScanInk | capture/team-snap.js:216-236 | the scan reports no ink exactly for an inkless band, and otherwise the band's ink bounding box |
| TeamSnap.SearchWidth | capture/team-snap.js:212 | proof helper for ScanInk, not a model of this line on its own: the searched columns never exceed the frame |
| TeamSnap.BandsTile | capture/team-snap.js:205-209 | the six bands cover the rows from top to bottom without overlap |
| TeamSnap.BandInside | capture/team-snap.js:208-209 | each band lies inside the frame |
| TeamSnap.CropCoversInk | capture/team-snap.js:242-255 | with the knobs at their defaults the crop is the box padded by 2 and clamped into the band, and it covers all the ink |
| TeamSnap.ExtractSlots | capture/team-snap.js:204-266 | None exactly when a band or the search width is empty (where getImageData throws); otherwise six slots, each empty or the crop around that band's ink |
| TeamSnap.BandSlot | capture/team-snap.js:207-263 | one loop step yields the slot specification for band i |
| TeamSnap.EscapeHtml | capture/team-snap.js:301-303 | the escaped text holds none of < > " ' |
| TeamSnap.UnescapeEscape | capture/team-snap.js:301-303 | decoding the five entities gives the original text back |
| Bridge.NormalizeId | calc/picklab-bridge.js:46-48 | a normalised id holds no upper-case letter, white space, ' ’ - _ : or . |
| Bridge.NormalizeIdAppend | calc/picklab-bridge.js:46-48 | normalising works character by character: the id of a concatenation is the concatenation of the ids |
| Bridge.NormalizeIdChar | calc/picklab-bridge.js:46-48 | one character is dropped when it is white space or one of ' ’ - _ : ., and lower-cased otherwise |
| Bridge.NormalizeIdIdempotent | calc/picklab-bridge.js:46-48 | normalising twice equals normalising once |
| Bridge.Clean | calc/picklab-bridge.js:54 | the cleaned name holds no white space and no full-width parenthesis |
| Bridge.FirstOf | calc/picklab-bridge.js:81 | the first occurrence of a character, or None when absent |
| Bridge.LastOf | calc/picklab-bridge.js:81 | the last occurrence of a character, or None when absent |
| Bridge.RemoveParenGroupSpec | calc/picklab-bridge.js:81 | the removed part runs from the first "(" to the last ")" with something between, or nothing is removed |
| Bridge.RemoveParenGroupIff | calc/picklab-bridge.js:81 | something is removed exactly when a "(" is followed, after at least one character, by a ")" |
| Bridge.RegionRule | calc/picklab-bridge.js:73-84 | a regional rewrite is only returned when the set has it |
| Bridge.RegionalFrom | calc/picklab-bridge.js:67-85 | the regional loop only returns members of the set |
| Bridge.FormRules | calc/picklab-bridge.js:87-93 | the genie and Urshifu rules only return members of the set |
| Bridge.PrefixScore | calc/picklab-bridge.js:98-101 | a fallback score is 0, 10, 40 or 150, and 150 exactly for equality |
| Bridge.FallbackFirstMax | calc/picklab-bridge.js:96-104 | the fallback returns the first member with the highest score, and some member whenever the set is non-empty |
| Bridge.BestGuessSpec | calc/picklab-bridge.js:50-105 | "" for an empty name; the name itself when in the set; then the cleaned name; the result is always a member or the name; a member whenever the set is non-empty without "" |
| Bridge.RegionFirst | calc/picklab-bridge.js:67-78 | for each region in order (アローラ → A, ガラル → G, ヒスイ → H), a leading region name rewritten to the rest + the letter is the guess when the set has it, the earlier rules did not apply and no earlier region matched |
| Bridge.RegionalLoop | calc/picklab-bridge.js:73-85 | the loop with its early return computes the regional rule |
| Bridge.FallbackLoop | calc/picklab-bridge.js:96-103 | the scoring loop computes the fallback |
| Bridge.BestGuessFromSet | calc/picklab-bridge.js:50-105 | the rule-by-rule method computes the guess |
| Bridge.FormAttempt | calc/picklab-bridge.js:138-153 | the direct form attempts only return members of the set |
| Bridge.IdKnownCascade | calc/picklab-bridge.js:134-156 | a formless base in the set is returned; with a form, base + suffix, then base + form, then the untrimmed yakkuncom name, each when the set has it; after these, the trimmed yakkuncom name when the set has it |
| Bridge.IdToBdcNameSpec | calc/picklab-bridge.js:128-161 | an unknown id goes to the guess; every result is a member, the id, or a name of its entry; a non-empty id never gives "" |
| Bridge.MoveIdToJa | calc/picklab-bridge.js:163-169 | an empty move id gives ""; otherwise the Japanese name of the move's English name when known, else the English name, else the id itself (never "") |
| Bridge.Party | calc/picklab-bridge.js:203-215 | the party array always has six rows, one per left slot |
| Bridge.DefNames | calc/picklab-bridge.js:217-220 | the opponent name list always has six names, one per right slot |
| Bridge.WrittenMoves | calc/picklab-bridge.js:245 | at most the first four move names are written, in order |
| Bridge.ImportShape | calc/picklab-bridge.js:203-245 | slots without a species id get ""; other slots get the converted name; move lists keep their length and their empty entries; at most four moves are written |
| Common.Trim | learn/log.js:85 | trim removes exactly the leading and trailing white space |
| Common.TrimEmptyIffBlank | learn/log.js:210-213 | a value trims to "" exactly when it is all white space |
| Common.DedupMembers | learn/log.js:58-68 | de-duplication keeps exactly the non-empty values, each once, and never lengthens the list |
| Common.DedupOrder | learn/log.js:58-68 | the de-duplicated values keep the order of their first occurrences |
| Common.Lower | learn/data.js:109-111 | lower-casing keeps the length and folds each letter |
| Sorting.SortBy | ai.js:708-716 | sorting keeps the length and the multiset of elements; its stability is SortByStable |
| Sorting.SortBySorted | ai.js:708-716 | for a total, transitive comparator the result is sorted |
| Sorting.SortByStable | ai.js:708-716 | the sort is stable: the elements the order ranks equal to any given one keep their relative order |
| Sorting.SortByFirstBest | capture/capture.js:438-439 | the sorted list starts with the first element that goes no later than every element |
| Sorting.SortByTake | ai.js:718 | the first n sorted elements number min(n, length), are sorted, and each goes no later than any element left out |
| Sorting.SortByPrefix | learn/data.js:243-244 | any prefix of the sorted list is sorted, drawn from the input, and each element goes no later than any element left out |
| Sorting.TiesTake | ai.js:718 | a prefix keeps a prefix of the elements ranked equal to any given one |
| Sorting.SortByHead | capture/capture.js:438-439 | the first element of a sorted non-empty list is an element that goes no later than any other |
| Sorting.SortBySameElements | learn/data.js:243-244 | sorting keeps exactly the same elements |
| Sorting.Take | ai.js:718 | slice(0, n) keeps a prefix of length min(n, length) |
| LearnLog.Uniq | learn/log.js:58-68 | the loop with its seen set returns the de-duplicated list |
| Common.Filled | learn/log.js:129 | filter(Boolean) keeps exactly the non-empty values |
| Common.FilledRepeats | learn/log.js:147-159 | the filtered values repeat exactly when two non-empty values are equal |
| LearnLog.FilledEmpty | learn/log.js:213 | nothing is left after filtering exactly when every value is empty |
| LearnLog.NothingEntered | learn/log.js:210-213 | a side has no entry exactly when every slot is white space |
| LearnLog.TeamMembers | learn/log.js:129 | the offered team is distinct, at most six, and holds exactly the non-empty trimmed slot values |
| LearnLog.Restore | learn/log.js:138-139 | a selection is kept exactly when it is still offered (or empty); otherwise it becomes "" |
| LearnLog.Fill | learn/log.js:128-141 | the loop over the three selectors restores each one by the rule, so every selection is offered |
| LearnLog.RestoreStable | learn/log.js:127-141 | rebuilding when every selection is already offered changes nothing |
| LearnLog.GetPicks | learn/log.js:147-149 | the picks are the trimmed non-empty selector values, at most three |
| LearnLog.ElemsCount | learn/log.js:156 | the set of a list is at most as large as the list, and equally large exactly for a distinct list |
| LearnLog.DupIff | learn/log.js:156 | the set-size check is true exactly when some value occurs twice |
| LearnLog.Warnings | learn/log.js:151-159 | at most two warnings, one per side exactly when that side's picks repeat |
| LearnLog.WarnsOnRepeat | learn/log.js:151-159 | a side warns exactly when two of its picks are the same non-empty name, which holds exactly when two of its selectors hold the same non-blank trimmed value |
| LearnLog.LastSaved | learn/log.js:46-51 | the shown last time is never empty, and "-" with no logs |
| LearnLog.LogPage.constructor | learn/log.js:18-22 | the page starts with six empty slots and three empty selections per side |
| LearnLog.LogPage.RebuildPickOptions | learn/log.js:127-145 | every selection is reset to "" unless still offered; slots and logs are unchanged |
| LearnLog.LogPage.Input | learn/log.js:84-87 | typing sets one slot to the trimmed text, then rebuilds the options; nothing else changes |
| LearnLog.LogPage.Choose | learn/log.js:131-139 | choosing an offered value sets exactly that selector |
| LearnLog.LogPage.SaveLog | learn/log.js:209-234 | nothing is stored when both sides are empty after trimming; otherwise exactly one entry with the trimmed six-slot teams and three picks is appended, and the count grows by one |
| LearnLog.LogPage.ClearAll | learn/log.js:236-250 | both sides become six empty slots and three empty selections; the logs are unchanged |
| LearnLog.RestoreBlank | learn/log.js:243-249 | empty selections stay empty whatever is offered |
| LearnLog.Split | learn/log.js:182-187 | splitting gives at least one piece, and no piece holds the separator |
| LearnLog.SplitJoin | learn/log.js:182-187 | joining the pieces with the separator gives the text back |
| LearnLog.Lines | learn/log.js:182 | a text has at least one line |
| LearnLog.NameCells | learn/log.js:187-188 | one name cell per line |
| LearnLog.ParseNames | learn/log.js:182-196 | the loop returns the CSV name list |
| LearnLog.CsvNamesSpec | learn/log.js:182-196 | the names are distinct and exactly the non-empty trimmed second fields of the non-blank lines after the header |
| LearnLog.HeaderSkipped | learn/log.js:182-186 | a non-empty first line is the first record, the one the loop skips |
| LearnLog.SplitPrefix | learn/log.js:182 | the first line of header + newline + body is the header |
| LearnLog.FilledHead | learn/log.js:182 | a non-empty first value stays first after filtering |
| LearnLog.LoadNames | learn/log.js:168-200 | the names are the cache rule's result, and the cache is rewritten with any names loaded |
| LearnLog.CacheRule | learn/log.js:171-199 | a cache of more than 100 names is used as is; otherwise the fetched CSV's names are used, and a failed fetch gives none |
| LearnData.UniqNonEmpty | learn/data.js:26-33 | the Set loop returns the distinct trimmed non-empty values |
| LearnData.UniqNonEmptySpec | learn/data.js:26-33 | the result is distinct and holds exactly the non-empty trimmed values |
| LearnData.LeadIsPicked | learn/data.js:54-63 | a non-empty lead is one of the entry's picks |
| LearnData.ListsDistinct | learn/data.js:49-54 | each entry's team and pick lists are distinct and hold no empty name |
| LearnData.CountBounds | learn/data.js:37-64 | appearances are at most the total; leads ≤ picks ≤ games with picks ≤ total |
| LearnData.BumpAllCounts | learn/data.js:50-52 | bumping a distinct list adds one to each listed name and nothing else |
| LearnData.AppearCounts | learn/data.js:45-52 | each name's appear count is the number of entries whose team lists it |
| LearnData.PickCounts | learn/data.js:54-59 | each name's pick count is the number of entries whose picks list it, and the games count is the entries with any pick |
| LearnData.LeadCounts | learn/data.js:55-63 | each name's lead count is the number of entries with picks whose first pick is that name |
| LearnData.KeysCounted | learn/data.js:50-62 | every key of a tally has a positive count |
| LearnData.CountsPositive | learn/data.js:45-65 | every key of the three maps has a positive count |
| LearnData.Rate | learn/data.js:80-82 | a rate times its denominator is its count, it is 0 with a zero denominator, and it lies in [0,1] when the count is at most the denominator |
| LearnData.AddEach | learn/data.js:50-59 | the loop over a list bumps each name |
| LearnData.Visit | learn/data.js:46-64 | one loop step updates the three maps and the games count as the step specification says |
| LearnData.BuildStats | learn/data.js:35-93 | the method computes the statistics specification |
| LearnData.NamesMeaning | learn/data.js:67-71 | the row names are distinct and exactly the names with a positive appear, pick or lead count |
| LearnData.StatsRows | learn/data.js:35-93 | the total is the entry count; each row's counts are the reference counts; the names are distinct; a name has a row exactly when one of its counts is positive |
| LearnData.NoEmptyName | learn/data.js:29-61 | the empty name is never counted |
| LearnData.StatsBounds | learn/data.js:37-92 | games with picks ≤ total; per row appear ≤ total and lead ≤ pick ≤ games with picks; every rate lies in [0,1] |
| LearnData.LexCmp | learn/data.js:101-104 | the name comparison returns -1, 0 or 1 |
| LearnData.LexAntisymmetric | learn/data.js:101-104 | swapping the names negates the comparison |
| LearnData.LexZero | learn/data.js:101-104 | the comparison is 0 exactly for equal names |
| LearnData.LexTransitive | learn/data.js:101-104 | the name order is transitive |
| LearnData.CompareAntisymmetric | learn/data.js:100-106 | swapping rows negates the comparison, which is 0 only for rows with the same name |
| LearnData.CompareDescending | learn/data.js:102-105 | numeric keys sort larger values first |
| LearnData.CompareTransitive | learn/data.js:100-106 | the row comparison is transitive |
| LearnData.RowOrder | learn/data.js:100-106 | the row order is total and transitive, so the stable sort is well defined |
| LearnData.Keep | learn/data.js:111 | filtering keeps exactly the elements that pass |
| LearnData.ApplyFilters | learn/data.js:108-112 | an empty query keeps every row; otherwise exactly the rows whose lower-cased name includes the lower-cased trimmed query |
| LearnData.DigitPrefix | learn/data.js:116 | the digit prefix is the longest leading run of digits |
| LearnData.ParseInt | learn/data.js:116 | parseInt fails exactly when no digit follows the optional sign, and a value without a minus sign is non-negative |
| LearnData.ParseIntDigits | learn/data.js:116 | a string of digits parses to its decimal value |
| LearnData.SliceRows | learn/data.js:114-119 | 'all', an invalid limit or a limit ≤ 0 keeps every row; otherwise the first n rows |
| LearnData.RegLabel | learn/data.js:167-170 | the label is the trimmed regulation, or 未設定 when blank |
| LearnData.Labels | learn/data.js:174-176 | one label per log |
| LearnData.RegOptionsSpec | learn/data.js:172-179 | the options start with すべて, followed by exactly the labels of the logs, distinct and sorted |
| LearnData.LabelsMembers | learn/data.js:173-177 | the distinct labels are exactly the labels of the logs |
| LearnData.LexOrder | learn/data.js:177 | the label order is total and transitive |
| LearnData.PermutationDistinct | learn/data.js:177 | sorting a distinct list keeps it distinct |
| LearnData.DistinctCount | learn/data.js:177 | a distinct list holds each value at most once |
| LearnData.FilterByReg | learn/data.js:181-185 | すべて keeps every log; 未設定 exactly the blank ones; any other value exactly the logs with that label |
| LearnData.FilterKeepsLabel | learn/data.js:181-185 | a kept log carries the selected label, except that a log whose regulation is literally 未設定 is listed under that label yet never kept by its filter |
| LearnData.TableSpec | learn/data.js:226-244 | the shown rows are sorted by the chosen key and all match a non-empty query |
| LearnData.TableRows | learn/data.js:226-244 | the shown rows come from the rows matching the query, are all of them when the limit cuts nothing and min(limit, n) of them otherwise, and each goes no later than every matching row left out |
| LearnData.Shown | learn/data.js:243-244 | the sorted, cut rows are sorted, drawn from the rows given, as many as the limit allows, and the best of them |

## Left out

- Rendering, HTML building, event wiring, timers, the clipboard and the DOM are not modelled. This covers renderTeamTable, renderAllyState, renderParty, renderSlots, renderTable, fmtPct, setStatus and setMsg, and the retry loop and field writes of applyImport.
- Storage, the network and cross-tab sync are not modelled. The tables they supply are inputs: species types, moves, the setup sets, the dex names, the number-to-name map, the calculator name set and the species entries. This covers fetch, loadDex, loadNumToJa, buildMaps, localStorage and JSON parsing.
  - The learning log is a field whose stored value may be missing, malformed or a list.
  - The names cache comes back as a returned value.
- Camera, canvas drawing and OCR are not modelled: start, stop, ensureOcr, detectOnce and preprocessForOcr, and drawImage down-scaling.
  - The thumbnail's gray values and the sheet tile thumbnails are inputs.
  - The grayscale weights are floating point, so they are not modelled.
- The full-screen crop of the party snapshot is not modelled: the 1.25 aspect test and the 55% cut. The model scans the frame it is given.
- TeamSnap.CropCoversInk: stated only with the position and scale knobs at their defaults. Those knobs multiply fractional percentages and are taken as given reals.
- IEEE floating point is not modelled. Numbers are exact reals, so rounding in rates, risks and scores is not captured, and NaN knobs are not modelled.
- Unicode case mapping is modelled as ASCII folding, and localeCompare('ja') as code-point lexicographic order.
- parseInt of digit strings too long for a double (which give Infinity) is not modelled.
- The sorts in place are modelled on values: Sorting.SortBy is a stable insertion sort over a sequence. Its stability is proved (Sorting.SortByStable); update in place is not modelled.
- Strings are sequences of Unicode scalar values, while JavaScript's length and indexing count UTF-16 code units. For a character outside the Basic Multilingual Plane, levenshtein (capture/capture.js:58-80) and the maxLen of bestMatchName (capture/capture.js:122) would count two units where the model counts one. The dex names are all inside that plane.
- A JavaScript Set or Map is modelled as its members in insertion order, which is the order every loop in the source visits them in. Object.prototype keys and non-string inputs are not modelled.
- Bridge.RemoveParenGroupSpec: stated for strings without white space. It is applied only after white space has been stripped, so no line break can stop the regular expression's `.`.
- The learning log and the statistics page use different storage keys: learn/log.js:2 against learn/data.js:8.
  - So no property links a saved entry to the statistics.
  - The log page never writes a regulation, so logs it saves would carry none.
- The regulation selector's restore-from-storage logic in render is UI state and is not modelled.
- The page's clock strings (ts, savedAt) are parameters of LearnLog.LogPage.SaveLog.
- The party snapshot's active-slot choice, status counts and party storage after matching are UI and storage, and are not modelled.
- calc/capture-sync.js and calc/sw.js are storage polling and service-worker plumbing, and are not part of this model.
- getImageData throws on an empty band. TeamSnap.ExtractSlots returns None there instead of raising.
