# Delhight route engine — a Dafny model

This project models the route-variant engine of the Delhight backend. The engine turns an origin and a destination into a ranked list of metro journeys. Each journey has three legs:

- an **access** leg from the origin to a station, walking or by auto;
- a **metro** ride between two stations;
- an **egress** leg from the second station to the destination.

The model covers five parts of the backend:

- **Nearest stations** (`Nearest`): filter the places provider's candidates, tag each with its rounded distance, sort stably by distance and keep the first `top`.
- **Route computation** (`Engine`):
  - look up the stations near both ends;
  - try every (origin station, destination station) pair in loop order;
  - choose walk or drive per hop;
  - skip a pair at its first missing leg;
  - build one variant per surviving pair, with id, totals, cost and summary;
  - sort stably by duration, then cost, and keep the first `maxVariants`.
- **Fare and summary text** (`Fare`, `Summary`): fare-text parsing, the per-km auto fare, and the "Walk → METRO (line) → Auto" summary.
- **Variant record** (`Variant`): the setters of `RouteVariant`, including the legacy `setPieceN` slots that append to the leg list.
- **Transfer objects** (`Mapper`) and the **transit instruction sentence** (`Formatter`).

The external services are parameters of the model:

| Service | Parameter |
|---|---|
| Directions provider | `fetch: LegRequest -> Option<RouteLeg>` |
| Places provider | `places: Coordinate -> PlacesReply` |
| Haversine distance, rounded | `dist: (Coordinate, Coordinate) -> nat` |
| Clock (departure time) | a field of `Query` |

Java `null` is `Option`. An exception the places lookup lets escape is a `Result` failure, and `setPieceN` on a null leg list gives `SetOutcome.NullPointer`. The directions provider `fetch` is total: exceptions thrown inside the directions call are not modelled (see "Left out").

The station lookup otherwise degrades to no stations on every bad reply it checks for: a failed request (`NearestStationsService.java:62-66`), an empty body (`:68`), a status other than OK or ZERO_RESULTS (`:72-75`), and a missing or empty results array (`:78`). Two JSON exceptions are not caught, though: a body that is not a JSON object (`:70`) and a results element that is not an object (`:82`). `Nearest.FindNearestStations` and `Engine.ComputeRoutes` model the code as written, exceptions included. The lookup that degrades to no stations on every malformed reply is under "Findings".

Files:

| File | Contents |
|---|---|
| `wrappers.dfy` | `Option`, `Result` |
| `text.dfy` | digits, decimal printing, ASCII lower-casing, `trim` |
| `model.dfy` | the records |
| `variant.dfy` | the `RouteVariant` setters |
| `ordering.dfy` | the stable sort and truncation |
| `fare.dfy` | fare parsing and the auto fare |
| `summary.dfy` | mode labels and the summary text |
| `nearest.dfy` | the station finder |
| `engine.dfy` | the route computation |
| `mapper.dfy` | the transfer objects |
| `formatter.dfy` | the instruction sentence |

## Model

Source paths are relative to the repository root.

| member | source | states |
|---|---|---|
| Variant.Fresh | src/main/java/com/delhight/backend/model/RouteVariant.java:19-36 | a new variant has null pieces, id and summary, zero totals and an empty, non-null leg list |
| Variant.SetPiece | src/main/java/com/delhight/backend/model/RouteVariant.java:46-67 | sets only the chosen slot; a non-null leg is appended to the leg list; a null leg leaves the list alone; a non-null leg on a null list throws a NullPointerException after the slot is set; no other field changes |
| Variant.SetLegs | src/main/java/com/delhight/backend/model/RouteVariant.java:123-125 | get-after-set: the leg list is the new one, possibly null; frame: the slots and all other fields are unchanged |
| Variant.SetId | src/main/java/com/delhight/backend/model/RouteVariant.java:115-117 | get-after-set: the getter returns the new id; frame: every other field is unchanged |
| Variant.SetSummaryText | src/main/java/com/delhight/backend/model/RouteVariant.java:131-133 | get-after-set: the getter returns the new summary; frame: every other field is unchanged |
| Variant.SetTotalDurationSeconds | src/main/java/com/delhight/backend/model/RouteVariant.java:78-80 | get-after-set: the getter returns the new total duration; frame: every other field is unchanged |
| Variant.SetTotalDistanceMeters | src/main/java/com/delhight/backend/model/RouteVariant.java:86-88 | get-after-set: the getter returns the new total distance; frame: every other field is unchanged |
| Variant.SetTotalCostRs | src/main/java/com/delhight/backend/model/RouteVariant.java:90-104 | afterwards both cost getters, `getTotalCostRs` and `getTotalCost`, return the new cost; frame: every other field is unchanged |
| Variant.SetTotalCost | src/main/java/com/delhight/backend/model/RouteVariant.java:98-100 | the alias setter has exactly the effect of `setTotalCostRs` |
| Variant.CostGettersAgree | src/main/java/com/delhight/backend/model/RouteVariant.java:90-104 | the two cost getters always agree |
| Variant.SameOutsideCoversAllFields | src/main/java/com/delhight/backend/model/RouteVariant.java:19-33 | the setters' frame names every field of `RouteVariant`: agreeing outside two different fields means agreeing everywhere |
| Variant.SetPieceTwiceAppendsTwice | src/main/java/com/delhight/backend/model/RouteVariant.java:46-49 | setting one slot twice leaves the second leg in the slot but both legs in the list, so the list grows by two |
| Variant.PiecesInOrderMatchSetLegs | src/main/java/com/delhight/backend/model/RouteVariant.java:46-67 | filling slots 1, 2, 3 of a fresh variant gives the same leg list as one `setLegs` with the three legs |
| Ordering.KeyLeTotalOrder | src/main/java/com/delhight/backend/service/RouteComputationService.java:214-215 | comparing by duration, then cost, is a total order: reflexive, total, antisymmetric, transitive |
| Ordering.Insert | src/main/java/com/delhight/backend/service/RouteComputationService.java:214-215 | inserting into a sorted list keeps it sorted and adds exactly the one element |
| Ordering.SortBy | src/main/java/com/delhight/backend/service/RouteComputationService.java:214-215 | the sorted list is ascending by key and a permutation of the input |
| Ordering.SortByStable | src/main/java/com/delhight/backend/service/RouteComputationService.java:214-215 | elements with equal keys keep their input order, as `List.sort` guarantees |
| Ordering.SortByIsStableSort | src/main/java/com/delhight/backend/service/NearestStationsService.java:107 | the sort meets the whole specification of a stable sort |
| Ordering.StableArrangementUnique | src/main/java/com/delhight/backend/service/RouteComputationService.java:214-215 | two sorted permutations that agree on the order inside every key class are equal |
| Ordering.StableSortIsSortBy | src/main/java/com/delhight/backend/service/NearestStationsService.java:107 | every list meeting the stable-sort specification is the one the model computes, so the result is determined by the input |
| Ordering.Take | src/main/java/com/delhight/backend/service/RouteComputationService.java:217-218 | keeps the whole list when it has at most `n` elements, else exactly its first `n` |
| Ordering.TakeSubMultiset | src/main/java/com/delhight/backend/service/NearestStationsService.java:109-110 | truncation only drops elements |
| Ordering.PrefixSorted | src/main/java/com/delhight/backend/service/NearestStationsService.java:109-110 | a prefix of a sorted list is sorted |
| Ordering.SelectAppend | src/main/java/com/delhight/backend/service/RouteComputationService.java:214-215 | a key class of a concatenation is the concatenation of the key classes |
| Ordering.SelectInsert | src/main/java/com/delhight/backend/service/RouteComputationService.java:214-215 | an inserted element goes to the front of its own key class, ahead of the later input elements with that key, and leaves the other classes alone |
| Ordering.SelectMembers | src/main/java/com/delhight/backend/service/RouteComputationService.java:214-215 | a key class holds exactly the elements with that key |
| Ordering.SortByKeepsDistinct | src/main/java/com/delhight/backend/service/RouteComputationService.java:214-215 | sorting keeps distinct ids distinct |
| Ordering.InsertKeepsDistinct | src/main/java/com/delhight/backend/service/RouteComputationService.java:214-215 | inserting an element with a new id keeps ids distinct |
| Fare.Clean | src/main/java/com/delhight/backend/service/RouteComputationService.java:225 | the cleaned text keeps only digits and dots and is never longer than the input |
| Fare.CleanAppend | src/main/java/com/delhight/backend/service/RouteComputationService.java:225 | cleaning works character by character: cleaning a concatenation concatenates the cleaned parts |
| Fare.CleanKeepsKept | src/main/java/com/delhight/backend/service/RouteComputationService.java:225 | text of digits and dots only is left unchanged |
| Fare.CleanDropsNoise | src/main/java/com/delhight/backend/service/RouteComputationService.java:225 | text without digits or dots cleans to the empty string |
| Fare.CleanMembers | src/main/java/com/delhight/backend/service/RouteComputationService.java:225 | cleaning invents no characters |
| Fare.DotIndex | src/main/java/com/delhight/backend/service/RouteComputationService.java:227 | finds the first '.' when there is one and reports none otherwise |
| Fare.ParseDecimal | src/main/java/com/delhight/backend/service/RouteComputationService.java:227 | a parsed digits-and-dot text is never negative |
| Fare.ParseFare | src/main/java/com/delhight/backend/service/RouteComputationService.java:222-231 | the fare is never negative, and a null fare text is 0 |
| Fare.ParseFareOnlyReadsKept | src/main/java/com/delhight/backend/service/RouteComputationService.java:225-227 | the fare depends only on the digits and dots of the text |
| Fare.BlankCleansEmpty | src/main/java/com/delhight/backend/service/RouteComputationService.java:223 | a blank text has no digits or dots, so the blank check and the empty-after-cleaning check agree |
| Fare.ParseFareNoDigits | src/main/java/com/delhight/backend/service/RouteComputationService.java:223-226 | a text without digits reads as 0: empty after cleaning, or only dots, which `parseDouble` rejects |
| Fare.ParseFareTwoDots | src/main/java/com/delhight/backend/service/RouteComputationService.java:227-229 | two decimal points make `parseDouble` throw, and the caught exception gives 0 |
| Fare.ParseFareWhole | src/main/java/com/delhight/backend/service/RouteComputationService.java:222-231 | a currency prefix followed by a whole number reads as that number |
| Fare.ParseFareRupeesPaise | src/main/java/com/delhight/backend/service/RouteComputationService.java:222-231 | a prefix followed by "rupees.dd" reads as rupees + dd/100 |
| Fare.ParseFareAfterNoise | src/main/java/com/delhight/backend/service/RouteComputationService.java:222-231 | after a prefix of currency symbols or words, the fare is what the digits-and-dots part parses to |
| Fare.ParseDecimalSplit | src/main/java/com/delhight/backend/service/RouteComputationService.java:227 | "<whole>.<frac>" with at least one digit after the dot parses as whole + frac / 10^|frac| |
| Fare.ParseDecimalAt | src/main/java/com/delhight/backend/service/RouteComputationService.java:227 | a digits-and-dots text with a single dot parses as the digits before it plus the scaled digits after it |
| Fare.DecimalRupeesPaise | src/main/java/com/delhight/backend/service/RouteComputationService.java:227 | "<rupees>.<p1><p2>" parses as rupees + (10·p1 + p2)/100 |
| Fare.ParseFareExample | src/main/java/com/delhight/backend/service/RouteComputationService.java:221 | "₹32.00" reads as 32 |
| Fare.AutoFare | src/main/java/com/delhight/backend/service/RouteComputationService.java:196-197 | the auto fare is the whole number nearest to distance in km times the rate, halves rounded up, and is non-negative for a non-negative distance and rate |
| Fare.Round | src/main/java/com/delhight/backend/service/RouteComputationService.java:197 | `Math.round` gives the unique whole number r with r − 1/2 ≤ x < r + 1/2 |
| Summary.ModeLabel | src/main/java/com/delhight/backend/service/RouteComputationService.java:252-260 | "walking", "driving" and "transit" in any letter case show as "Walk", "Auto" and "Metro"; null shows as "move"; any other mode is shown unchanged |
| Summary.ModeLabelIdempotent | src/main/java/com/delhight/backend/service/RouteComputationService.java:252-260 | labelling a label changes nothing |
| Summary.ModeLabelIgnoresCase | src/main/java/com/delhight/backend/service/RouteComputationService.java:254 | two spellings of "walking", "driving" or "transit" that are equal ignoring case get the same label; two spellings of any other mode are each shown as written |
| Summary.LineNote | src/main/java/com/delhight/backend/service/RouteComputationService.java:240-245 | the line is shown exactly when the first transit segment exists and its line name is neither null nor blank, and then it is that name |
| Summary.SummaryEnds | src/main/java/com/delhight/backend/service/RouteComputationService.java:234-250 | `Summary.BuildSummaryText` for every combination of null and present legs: with no legs the summary is empty; a present access leg opens it with its label and an arrow; with no access leg a present metro leg opens it with "METRO"; a present egress leg closes it with its label; a missing egress leg after any present leg leaves a trailing arrow. The complete-journey shape is stated by Summary.SummaryShape |
| Summary.SummaryShape | src/main/java/com/delhight/backend/service/RouteComputationService.java:234-250 | the summary of three legs is "<access label> → METRO", then " (<line>)" exactly when a line is shown, then " → <egress label>" |
| Nearest.StatusAccepted | src/main/java/com/delhight/backend/service/NearestStationsService.java:71-75 | a status is accepted exactly when it is present and reads "ok" or "zero_results" in some letter case; a missing status and every other status, such as OVER_QUERY_LIMIT, are rejected; every accepted status has 2 or 12 characters |
| Nearest.ToStation | src/main/java/com/delhight/backend/service/NearestStationsService.java:83-103 | a station copies the candidate's name, place id, vicinity and coordinates, and carries the distance from the query point |
| Nearest.UsableOnly | src/main/java/com/delhight/backend/service/NearestStationsService.java:86-92 | every kept candidate has a geometry, a location and numeric latitude and longitude |
| Nearest.UsableOnlyMembers | src/main/java/com/delhight/backend/service/NearestStationsService.java:81-92 | a candidate is kept exactly when it is usable (`Nearest.Usable`: a geometry with a location whose latitude and longitude are numbers); a null name does not matter |
| Nearest.UsableOnlyAllUsable | src/main/java/com/delhight/backend/service/NearestStationsService.java:81-92 | when all candidates are usable, none is skipped and their order is kept |
| Nearest.FindNearestStations | src/main/java/com/delhight/backend/service/NearestStationsService.java:61-111 | the lookup fails exactly on a non-JSON body, or on a non-object result under an accepted status; otherwise it returns at most `top` stations |
| Nearest.DegradesToEmpty | src/main/java/com/delhight/backend/service/NearestStationsService.java:61-78 | a failed request, an empty body, a status other than OK/ZERO_RESULTS in any case, and a missing or empty results array each give no stations |
| Nearest.NearestIsSortedPrefix | src/main/java/com/delhight/backend/service/NearestStationsService.java:80-110 | the result is the first min(top, n) stations of the stable sort of the usable candidates by distance: sorted, no station invented, ties in provider order |
| Nearest.NearestStationsComeFromCandidates | src/main/java/com/delhight/backend/service/NearestStationsService.java:80-104 | every returned station is built from a usable candidate of the reply |
| Nearest.MalformedReplyEscapes | src/main/java/com/delhight/backend/service/NearestStationsService.java:70-82 | a non-JSON body, or a results array holding a non-object under status OK, makes the lookup fail rather than return no stations |
| Nearest.FindNearestStationsDegrading | src/main/java/com/delhight/backend/service/NearestStationsService.java:61-111 | the corrected lookup never fails, returns at most `top` stations, and gives no stations for a reply that is not JSON |
| Nearest.DegradingAgrees | src/main/java/com/delhight/backend/service/NearestStationsService.java:61-111 | wherever the original lookup succeeds, the corrected one returns the same stations |
| Nearest.DegradingSkipsNonObjects | src/main/java/com/delhight/backend/service/NearestStationsService.java:80-110 | with non-object elements skipped, the corrected lookup still returns the sorted first min(top, n) usable candidates |
| Engine.SelectHop | src/main/java/com/delhight/backend/service/RouteComputationService.java:83-111 | walk first; a missing or longer-than-threshold walk leads to a drive request; the drive replaces the walk when it comes back, and a too-long walk is kept when it does not; the hop is missing exactly when both walk and drive are |
| Engine.HopCases | src/main/java/com/delhight/backend/service/RouteComputationService.java:91-111 | the four cases of the walk-or-drive rule, including that no drive is requested when the walk is short enough |
| Engine.TryPair | src/main/java/com/delhight/backend/service/RouteComputationService.java:83-161 | a pair gives a journey exactly when access, metro ride and egress all come back, and the journey is those three legs; walk and drive calls carry no departure time, and the only transit call is between the pair's stations at the run's departure time |
| Engine.RequestLog | src/main/java/com/delhight/backend/service/RouteComputationService.java:84-155 | every provider call of the pair loop is a walking or driving call without a departure time, or a transit call at the run's departure time |
| Engine.BuildVariant | src/main/java/com/delhight/backend/service/RouteComputationService.java:163-207 | the variant holds the three legs in order; its duration and distance are the sums over the legs; its cost is the metro fare plus the auto fare of each driving leg; its summary describes the legs; its id is "r<n>-<origin tag>-<destination tag>" |
| Engine.DriveFare | src/main/java/com/delhight/backend/service/RouteComputationService.java:192-198 | a leg is charged only when its mode is "driving" in any letter case, and then the whole number nearest to its km times the rate; the charge is a whole number, non-negative for a non-negative distance and rate |
| Engine.JourneyTotals | src/main/java/com/delhight/backend/service/RouteComputationService.java:176-199 | the totals loops over a journey's three legs add up exactly those three legs |
| Engine.IdStartsWithSerial | src/main/java/com/delhight/backend/service/RouteComputationService.java:165-166 | every id starts with "r<counter>-" |
| Engine.Pairs | src/main/java/com/delhight/backend/service/RouteComputationService.java:80-81 | the nested loops visit |os|·|ds| pairs |
| Engine.PairsIndex | src/main/java/com/delhight/backend/service/RouteComputationService.java:80-81 | pair (i, j) is visited at step i·|ds| + j: all destination stations for the first origin station, then the second, and so on |
| Engine.Survivors | src/main/java/com/delhight/backend/service/RouteComputationService.java:113-161 | at most one survivor per pair |
| Engine.SurvivorsMembers | src/main/java/com/delhight/backend/service/RouteComputationService.java:113-161 | a pair survives exactly when all three of its legs come back |
| Engine.NumberedIndex | src/main/java/com/delhight/backend/service/RouteComputationService.java:165 | the i-th built element uses counter value start + i |
| Engine.CollectNumbersSurvivors | src/main/java/com/delhight/backend/service/RouteComputationService.java:78-211 | the pair loop emits one variant per surviving pair, in loop order, numbered consecutively from the counter's start |
| Engine.CollectEmitted | src/main/java/com/delhight/backend/service/RouteComputationService.java:163-209 | every emitted variant has three present legs and the totals, cost and summary those legs call for |
| Engine.CollectSerials | src/main/java/com/delhight/backend/service/RouteComputationService.java:165-166 | the i-th emitted variant's id starts with "r<start + i>-" |
| Engine.AllAnsweredAllEmitted | src/main/java/com/delhight/backend/service/RouteComputationService.java:80-211 | when the provider answers every call, every pair yields exactly one variant |
| Engine.NoRideNoRoutes | src/main/java/com/delhight/backend/service/RouteComputationService.java:126-129 | without any metro ride the pair loop emits nothing |
| Engine.SerialDetermined | src/main/java/com/delhight/backend/service/RouteComputationService.java:165 | an id determines its counter value |
| Engine.SerialsDistinct | src/main/java/com/delhight/backend/service/RouteComputationService.java:165-166 | variants numbered with consecutive counter values have pairwise distinct ids |
| Engine.CollectIdsDistinct | src/main/java/com/delhight/backend/service/RouteComputationService.java:165-166 | the ids of the emitted variants are pairwise distinct, even when two station pairs share their tags |
| Engine.RoutesFor | src/main/java/com/delhight/backend/service/RouteComputationService.java:73-218 | at most `maxVariants` and at most |os|·|ds| routes; none when a station list is empty; sorted by duration, then cost; all well formed; ids distinct |
| Engine.RoutesArePrefixOfStableSort | src/main/java/com/delhight/backend/service/RouteComputationService.java:213-218 | the routes are exactly the first min(maxVariants, n) of the stable sort of the loop's variants |
| Engine.ComputeRoutes | src/main/java/com/delhight/backend/service/RouteComputationService.java:65-219 | for a directions call that never throws (exceptions inside it are under "Left out"): fails exactly when a station lookup throws; otherwise returns at most `maxVariants` and at most topStations² routes, sorted, well formed, with distinct ids |
| Engine.NoStationsNoRoutes | src/main/java/com/delhight/backend/service/RouteComputationService.java:70-81 | no stations at either end gives no routes, not an error |
| Engine.ComputeRoutesDegrading | src/main/java/com/delhight/backend/service/RouteComputationService.java:65-219 | the computation over the corrected lookup never fails, returns what the original returns whenever that succeeds, and keeps the bounds, order, well-formedness and distinct ids |
| Engine.UnparseableOriginGivesNoRoutes | src/main/java/com/delhight/backend/service/RouteComputationService.java:70 | a non-JSON places body at the origin makes the original computation fail, while the corrected one returns no routes |
| Mapper.EmptyLegDTO | src/main/java/com/delhight/backend/mapper/RouteMapper.java:48-49 | a null leg maps to a transfer object with nothing set |
| Mapper.ToSegmentDTO | src/main/java/com/delhight/backend/mapper/RouteMapper.java:68-76 | line name, vehicle, both stops, headsign and stop count are copied |
| Mapper.ToSegmentDTOs | src/main/java/com/delhight/backend/mapper/RouteMapper.java:65-79 | one transfer object per segment, in order |
| Mapper.ToLegDTO | src/main/java/com/delhight/backend/mapper/RouteMapper.java:47-82 | null gives the empty object; otherwise mode, names, duration, distance, polyline, steps and fare text are copied, and the segment list is null exactly when the leg's is, else mapped one by one |
| Mapper.ToLegDTOs | src/main/java/com/delhight/backend/mapper/RouteMapper.java:38-42 | one leg object per leg entry, in order |
| Mapper.ToDTO | src/main/java/com/delhight/backend/mapper/RouteMapper.java:29-45 | id, summary and the three totals are copied; the leg list is always set, empty for a null list, else mapped in order |
| Mapper.ToDTOList | src/main/java/com/delhight/backend/mapper/RouteMapper.java:22-27 | null gives an empty list; otherwise one object per variant, in order |
| Mapper.ToDTOs | src/main/java/com/delhight/backend/mapper/RouteMapper.java:25 | one object per variant, in order |
| Mapper.SegmentsRoundTrip | src/main/java/com/delhight/backend/mapper/RouteMapper.java:65-79 | reading mapped segments back gives exactly their shown fields, in order |
| Mapper.LegRoundTrip | src/main/java/com/delhight/backend/mapper/RouteMapper.java:47-82 | reading a mapped leg back gives exactly its shown fields; nothing shown is altered or reordered |
| Mapper.VariantLegsRoundTrip | src/main/java/com/delhight/backend/mapper/RouteMapper.java:37-43 | each leg of a mapped variant reads back as the shown part of the corresponding leg; null legs come back as the empty object |
| Mapper.EmittedVariantDTO | src/main/java/com/delhight/backend/mapper/RouteMapper.java:29-45 | an engine variant reaches the web layer with three legs whose durations and distances add up to its totals and with the metro leg's fare text |
| Formatter.LineText | src/main/java/com/delhight/backend/utils/TransitInstructionsFormatter.java:61-72 | both names give "full (short)"; only the full name gives it; only the short name gives "Line short"; neither gives "the metro line" |
| Formatter.StopText | src/main/java/com/delhight/backend/utils/TransitInstructionsFormatter.java:75-77 | the stop name unchanged, or "the station" for null |
| Formatter.Format | src/main/java/com/delhight/backend/utils/TransitInstructionsFormatter.java:17-58 | null gives "No transit information available."; otherwise the final `trim` removes nothing from the built sentence |
| Formatter.SentenceShape | src/main/java/com/delhight/backend/utils/TransitInstructionsFormatter.java:23-55 | the built sentence opens with "Take " and ends with "Get down at <stop>." |
| Formatter.FormatShape | src/main/java/com/delhight/backend/utils/TransitInstructionsFormatter.java:17-58 | every formatted segment opens with "Take " and ends with "Get down at <arrival stop>." |
| Formatter.RideClausePresent | src/main/java/com/delhight/backend/utils/TransitInstructionsFormatter.java:46 | "Ride for <numStops> stops" is in every built sentence, which `format` returns untrimmed, right after the opening and the optional platform, direction and departure clauses |
| Formatter.PieceAt | src/main/java/com/delhight/backend/utils/TransitInstructionsFormatter.java:20-57 | each appended piece sits in the text right where the pieces before it end |
| Formatter.PlatformClause | src/main/java/com/delhight/backend/utils/TransitInstructionsFormatter.java:29-31 | " (Platform p)" appears exactly when the platform is non-null and non-empty, right after the opening clause, and changes nothing else |
| Formatter.DirectionClause | src/main/java/com/delhight/backend/utils/TransitInstructionsFormatter.java:36-38 | a non-null headsign inserts "Direction: h. " at its place and changes nothing else |
| Formatter.DepartsClause | src/main/java/com/delhight/backend/utils/TransitInstructionsFormatter.java:41-43 | a non-null departure time inserts "Departs at t. " at its place and changes nothing else |
| Formatter.ArrivesClause | src/main/java/com/delhight/backend/utils/TransitInstructionsFormatter.java:48-50 | a non-null arrival time inserts " (arrives at t)" right after the ride clause and changes nothing else |
| Text.NatToStringRoundTrip | src/main/java/com/delhight/backend/service/RouteComputationService.java:165 | the decimal text of the id counter reads back as the counter |
| Text.NatToStringInjective | src/main/java/com/delhight/backend/service/RouteComputationService.java:165 | distinct counter values print differently |
| Text.TrimNoOp | src/main/java/com/delhight/backend/utils/TransitInstructionsFormatter.java:57 | `trim` leaves a string unchanged exactly when it is empty or neither starts nor ends with a character at or below a space |
| Text.ToLower | src/main/java/com/delhight/backend/service/RouteComputationService.java:254 | lower-casing keeps the length and maps each character on its own |

## Left out

- Engine.ComputeRoutes: exceptions thrown inside the directions call are not modelled, because `fetch` is total. `GoogleDirectionsService.getRouteLeg` lets several escape out of `computeRoutes`: `new JSONObject(body)`, `getJSONObject(0)` on the routes and legs arrays, and `optJSONObject("distance")`/`optJSONObject("duration")` followed by `optInt` on a missing object. So the contract's "fails exactly when a station lookup throws" holds only for a directions call that never throws.
- Networking: the HTTP calls, Spring wiring and JSON decoding are not modelled. The directions call is the parameter `fetch`; the places reply is already decoded into `PlacesReply`, as `optString`, `optJSONArray`, `optJSONObject` and `optDouble` read it.
- Geometry: the haversine formula and its `Math.round` are the parameter `dist`, because they are floating-point trigonometry.
- Floating point: costs, fares and distances are exact reals, and `Math.round(x)` is `floor(x + 0.5)`. Double rounding, and `Double.parseDouble` forms such as exponents, "NaN" or a trailing 'd', are not modelled, because `[^0-9.]` cleaning leaves only digits and dots.
- Clock: the departure time is an input field, not the local clock's 10:00, because the clock is outside the model.
- The address-based entry point (`computeRoutes(String, String)`, geocoding) is not part of this model.
- Text.ToLower: case folding is ASCII only; Java's locale and full-Unicode folding are not modelled.
- Integer overflow: `long` and `int` overflow of the totals, and of the id counter, is not modelled, because the values are small in practice.
- Null elements inside station lists, variant lists or a leg's `transitSegments` list are not modelled, because the engine never produces such lists. `toDTO(null)` throwing a NullPointerException is left out too. So are two behaviours on a null segment:
  - `buildSummaryText` swallows the NullPointerException from a null first segment and omits the line (`RouteComputationService.java:239-245`);
  - `toLegDTO` throws on a null segment (`RouteMapper.java:67-69`).
- Mapper.ToSegmentDTOs: TransitSegmentDTO.java is not part of this model. Its six fields are the ones `RouteMapper` sets.
- Engine.Collect: its own contract gives only the length. Its content is stated by Engine.CollectNumbersSurvivors, Engine.CollectEmitted and Engine.CollectSerials.
- Nearest.Candidates: its contract is carried by Nearest.NearestIsSortedPrefix and Nearest.NearestStationsComeFromCandidates.
- Variant.SetLegs: sharing of the leg list is not modelled. `setLegs` stores the caller's list by reference, `getLegs` hands out the live list, and a later `setPieceN` appends to that shared list, so a list the caller still holds changes too. Variants are values here, and the engine never touches a list after passing it to `setLegs`.
- `RouteVariant.toString` and the getters are not modelled. The getters are the datatype's fields.
- `top` and `maxVariants` are `nat`. The controller passes the request parameter `top` to `findNearestStations` unchecked. A negative `top` would throw `IllegalArgumentException` at `subList(0, top)` once the lookup reaches the truncation. That error path is not modelled.

## Findings

| source | as written | input that shows it | evidently intended | confidence | as-written member | corrected member |
|---|---|---|---|---|---|---|
| src/main/java/com/delhight/backend/service/NearestStationsService.java:70-82 | `new JSONObject(body)` and `results.getJSONObject(i)` are outside any try, so a malformed places reply throws out of `findNearestStations` and then out of `computeRoutes` | places body "x", or `{"status":"OK","results":[1]}` | the lookup degrades to "no stations" on a malformed payload, and a non-object result is skipped like any other unusable candidate | not executed | Nearest.MalformedReplyEscapes | Nearest.FindNearestStationsDegrading, Nearest.DegradingAgrees, Nearest.DegradingSkipsNonObjects, Engine.ComputeRoutesDegrading |
