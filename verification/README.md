# Verification of the arknights-mcp core

This project models the parts of arknights-mcp where a stateful or branching fast form has to agree with a
simple idea, and proves that it does. `dafny verify dfyconfig.toml` checks everything.

| file | what it models |
|---|---|
| `RateLimit.dfy` | the per-principal rate and concurrency limiter, as a machine over interleaved requests |
| `EffectChanges.dfy` | merging duplicate talent and trait bundles |
| `Shed.dfy`, `PayloadHygiene.dfy`, `Envelope.dfy`, `JsonText.dfy` | a response: cleaned, measured, and shrunk to its cap |
| `Promotion.dfy` | installing an immutable database build, with a crash possible after any file operation |
| `EnemyNormalization.dfy` | enemy levels that inherit from their base level |
| `LevelNormalization.dfy`, `Levels.dfy` | a raw level: spawns, inline variants, and their rows in the database |
| `Announcements.dfy` | the year of a date that was published without one |
| `RangeGrid.dfy` | the attack-range board |
| `Farming.dfy`, `Drops.dfy` | sanity per item, ranked, in pages |
| `Json.dfy`, `Lists.dfy` | JSON values with Python's equality; sorting and sequences |

In each file the loops and in-place updates of the source are methods, proved against a specification
function or predicate. What that specification promises is then proved, mostly under "main results", and
stated on the raw inputs and the stored or served values, apart from the functions that compute them.

## Where the code and its documentation disagree

The model follows the code.

- Response cap (`mcp/envelopes.py:350-369`). The fit is measured before `ok` becomes `partial`, so a response can be
  up to 10 bytes over the cap; the withheld floor is not measured at all. `CapExceededExactly` and
  `FloorExceedsExactly` say exactly when.
- JSON-RPC framing (`mcp/envelopes.py:91-100`). The framing around the result is 38 bytes with default
  separators and 33 in compact form, plus the id; the allowance of 64 therefore covers ids of up to 26 bytes,
  and not longer ones.
- "Byte-lossless" (`services/effect_changes.py:82-118`). Conflict is Python's `!=`, under which 1, 1.0 and True are
  equal, so one of them can be dropped in favour of another. `LosslessUnlessAmbiguous` and
  `LosslessIffUnambiguous` give the condition on the input.
- Identity of a bundle (`services/effect_changes.py:57-79`). The docstring of `dedup_effect_changes` lists three
  keys; the code uses a fourth, `isToken`.
- The base level of an enemy (`importers/enemy_normalization.py:224-248`) is found by `== 0`, which `False` and
  `0.0` satisfy as well.
- Rate limiter (`middleware/rate_limit.py:67-68`). A served request leaves its timestamp behind, so collecting at its
  end normally keeps the entry; no bound on memory is claimed. `requests_per_minute >= 1` is assumed, since
  line 86 reads the oldest timestamp of a full window.

## Assumptions

- Time is a real number and does not run backwards. The section between two `await`s is one step.
- One writer promotes; replacing a file is atomic; file times and the bytes a candidate reads as are inputs.
- `repr` of a float, `\w` of a regular expression, reading of timestamps and dates, canonical JSON for identities,
  content hashes, the wording of a mask disclosure and rounding for display are parameters: the results hold for
  every choice of them, or state what they need.
- Text is Unicode scalar values. Floats are reals, without NaN and rounding.
- Sanitising and allowlisting leave ids as they are. A row's primary key is its position.
- An item has one row per stage where a comparison is paired with its rows.

## Model

| member | source | states |
|---|---|---|
| `RateLimit.RateLimitMiddleware.Arrive` | src/arknights_mcp/middleware/rate_limit.py:80-108 | the critical section changes window and counter exactly as `Reserve` says and returns its verdict |
| `RateLimit.RateLimitMiddleware.Finish` | src/arknights_mcp/middleware/rate_limit.py:113-115 | the `finally` clause gives the slot back and collects |
| `RateLimit.RateLimitMiddleware.Collect` | src/arknights_mcp/middleware/rate_limit.py:117-121 | an entry goes only when its window is empty and nothing is in flight; other principals are untouched |
| `RateLimit.VerdictsOfEveryRun` | src/arknights_mcp/middleware/rate_limit.py:79-121 | over every interleaving of arrivals, completions and late collections the middleware gives each request the verdict of a limiter that never forgets anything, and neither machine can make a step the other cannot |
| `RateLimit.DequeIsTheWindow` | src/arknights_mcp/middleware/rate_limit.py:81-84 | the purged deque is the served history in (now-60, now], in order |
| `RateLimit.CounterIsExact` | src/arknights_mcp/middleware/rate_limit.py:106-121 | in every reachable state the counter is the number of requests between acceptance and `finally`, never negative, never above the limit |
| `RateLimit.AtMostRpmInAnyWindow` | src/arknights_mcp/middleware/rate_limit.py:85-107 | for every real t at most `requests_per_minute` served requests of a principal lie in (t-60, t] |
| `RateLimit.RetryAfterIsExact` | src/arknights_mcp/middleware/rate_limit.py:85-86 | after waiting the hint, with nothing of the principal served meanwhile, a request is not rate-rejected; one second less is, while the hint exceeds 1 |
| `EffectChanges.Row.MergeEffect` | src/arknights_mcp/services/effect_changes.py:97-108 | the row ends as its old fields, with empty non-identity ones filled from the entry |
| `EffectChanges.FirstFit` | src/arknights_mcp/services/effect_changes.py:132-141 | the search stops at the first row of the same identity without conflict, or past the last row |
| `EffectChanges.DedupEffectChanges` | src/arknights_mcp/services/effect_changes.py:111-145 | the loop over mutable rows computes `Dedup`; a value that is no list comes back as it is |
| `EffectChanges.DedupIsGood` | src/arknights_mcp/services/effect_changes.py:77-145 | every row survives in one output row of its identity that has all its non-empty fields; every output field came from a row merged there; output rows of one identity conflict pairwise |
| `EffectChanges.EntryIsJoined` | src/arknights_mcp/services/effect_changes.py:77-145 | the row an entry went to agrees with it in talent index, potential rank, unlock condition and subject, for any `canonical` that renders lists element by element, and carries everything it carries |
| `EffectChanges.RowsStandApart` | src/arknights_mcp/services/effect_changes.py:82-145 | two output rows differ in one of those four, or carry different values under another key |
| `EffectChanges.OrderOfFirstAppearance` | src/arknights_mcp/services/effect_changes.py:126-145 | an entry joins the row an earlier entry opened or opens the next one; opened rows keep their place and only grow |
| `EffectChanges.DedupIsIdempotent` | src/arknights_mcp/services/effect_changes.py:111-145 | running it again changes nothing |
| `EffectChanges.LosslessUnlessAmbiguous` | src/arknights_mcp/services/effect_changes.py:82-121 | every list in which no two bundles of one identity hold equal but different values (Python's 1 == True == 1.0) under a shared key is merged byte for byte |
| `EffectChanges.LosslessIffUnambiguous` | src/arknights_mcp/services/effect_changes.py:82-121 | and if and only if there is no such pair, for every list in which no identity has both such a pair and a conflict |
| `EffectChanges.AmbiguousYetLossless` | src/arknights_mcp/services/effect_changes.py:82-121 | beyond that such a pair decides nothing: two bundles that conflict under another key stay apart and lose nothing |
| `EffectChanges.NotByteLossless` | src/arknights_mcp/services/effect_changes.py:82-108 | two rows, 1 and True under one key, of which the second is in no output row |
| `Shed.ShallowestFitting` | src/arknights_mcp/mcp/shed.py:85-111 | without any assumption: a fitting variant whose next shallower one does not fit, or the deepest; at most floor(log2 depths)+1 measurements |
| `Shed.HalvingsIsLog` | src/arknights_mcp/mcp/shed.py:85-111 | the bound on measurements is floor(log2 n) + 1 |
| `Shed.ShedToFit` | src/arknights_mcp/mcp/shed.py:114-137 | under the steps' monotonicity contract the first fitting candidate in (step, depth) order, `None` exactly when nothing fits, and the flag iff a non-paginated step was applied |
| `PayloadHygiene.CleanNode` | src/arknights_mcp/mcp/payload_hygiene.py:84-109 | the walk returns `Clean` of the node and appends exactly its masks, in traversal order, to the shared list |
| `PayloadHygiene.CleanPayload` | src/arknights_mcp/mcp/payload_hygiene.py:139-148 | cleaned data, and one disclosure exactly when a mask was found |
| `PayloadHygiene.CleanHasNoNullField` | src/arknights_mcp/mcp/payload_hygiene.py:84-99 | no dictionary value is null at any depth |
| `PayloadHygiene.CleanKeepsTheRest` | src/arknights_mcp/mcp/payload_hygiene.py:84-109 | at every path of keys and indices the value is what it was, and a null dictionary value has become absent: lists keep length and positions, other leaves are unchanged |
| `PayloadHygiene.CleanIsIdempotent` | src/arknights_mcp/mcp/payload_hygiene.py:84-109 | cleaning again changes nothing and finds the same masks |
| `PayloadHygiene.MasksAreTheLeaves` | src/arknights_mcp/mcp/payload_hygiene.py:73-109 | the mask list is exactly the mask leaves: each under its path, every one that any path leads to, in traversal order |
| `PayloadHygiene.EachMaskOnce` | src/arknights_mcp/mcp/payload_hygiene.py:84-109 | so no leaf is listed twice |
| `PayloadHygiene.MaskableKeyExactly` | src/arknights_mcp/mcp/payload_hygiene.py:57-66 | the keys a mask rule reads are one of four words, alone or after an underscore |
| `Envelope.WireSizeCoversTheMessage` | src/arknights_mcp/mcp/envelopes.py:91-100 | `wire_size` bounds the whole JSON-RPC message, ASCII or compact UTF-8, if and only if the id takes at most 26 bytes; through the doubly escaped mirror |
| `JsonText.DumpsWorst` | src/arknights_mcp/mcp/envelopes.py:208-222 | the ASCII-escaped form is the longest form of any document |
| `JsonText.EscapeReadsBack` | src/arknights_mcp/mcp/envelopes.py:208-222 | what is written for a character inside a string stands for it: itself, a short or a six-character escape, or a surrogate pair |
| `Envelope.StatusCostsTwice` | src/arknights_mcp/mcp/envelopes.py:241-261 | a status k letters longer costs exactly 2k bytes |
| `Envelope.EnforceCap` | src/arknights_mcp/mcp/envelopes.py:320-369 | the three answers with exact sizes and exact fields: unchanged within the cap; the first fitting shed candidate, with the payload and limitations of its frame and everything else of the envelope, a lost section turning `ok` into `partial`; the floor only when the plan fails |
| `Envelope.AnswerTells` | src/arknights_mcp/mcp/envelopes.py:335-369 | every shed answer has the payload and limitations of its frame, the provenance and versions of the envelope, and its status or `partial` when a section was shed |
| `Envelope.FitsByMeasure` | src/arknights_mcp/mcp/envelopes.py:335-349 | a candidate fits exactly when the response with its payload and limitations, written out, is within the cap |
| `Envelope.CapExceededExactly` | src/arknights_mcp/mcp/envelopes.py:320-369 | on envelope and monotone plan: the answer is over the cap if and only if the envelope is and either the first fitting candidate is an `ok` response that lost a section and has under 10 bytes to spare, or nothing fits and the response without data leaves no room for the note |
| `Envelope.OverByTenAtMost` | src/arknights_mcp/mcp/envelopes.py:350-360 | short of the floor an answer is at most 10 bytes over, and never over when the response was not `ok` or the plan only trims pages |
| `Envelope.ShedSectionCanExceedCap` | src/arknights_mcp/mcp/envelopes.py:350-360 | an envelope and a one-step plan whose only answer is over the cap |
| `Envelope.FloorExceedsExactly` | src/arknights_mcp/mcp/envelopes.py:362-369 | the unmeasured floor is over the cap if and only if the response without its data came within 244 bytes of it (247 with other limitations) |
| `Envelope.FloorCanExceedCap` | src/arknights_mcp/mcp/envelopes.py:362-369 | an envelope and the empty plan, whose only answer is a floor over the cap |
| `Envelope.BuildEnvelope` | src/arknights_mcp/mcp/envelopes.py:372-408 | both payload rules run before measuring, so the answers are about what is sent; if no step brings a null back, what is sent has no null field, shed or not |
| `Promotion.BuildStore.VersionedFilename` | src/arknights_mcp/db/promotion.py:190-200 | terminates on every finite directory with a name that is not there |
| `Promotion.Pigeonhole` | src/arknights_mcp/db/promotion.py:190-200 | a directory of fewer builds than tried names cannot hold them all |
| `Promotion.BuildStore.PruneOldBuilds` | src/arknights_mcp/db/promotion.py:203-228 | whatever order the listing comes in, exactly the builds retention dooms are removed, newest first, and nothing else changes |
| `Promotion.RetentionCount` | src/arknights_mcp/db/promotion.py:203-228 | pruning leaves min(max(1, retain), n) builds, the kept one among them |
| `Promotion.DoomedAreOlder` | src/arknights_mcp/db/promotion.py:217-228 | each pruned build is older by (mtime, name) than each survivor but the kept one |
| `Promotion.BuildStore.Promote` | src/arknights_mcp/db/promotion.py:231-303 | which file operations a call performs, in which order, for each of its outcomes; refused and no-op calls perform none |
| `Promotion.AttemptIsSafe` | src/arknights_mcp/db/promotion.py:231-303 | stopped after any file operation, one call keeps the manifest sound and alters no build it leaves in place; without promotion nothing changes at all |
| `Promotion.ServesWhatWasPromoted` | src/arknights_mcp/db/promotion.py:231-303 | over every sequence of calls, each crashing anywhere: the manifest is that of the last call that swapped it, and the existing build it names holds exactly the bytes promoted then; nothing is assumed of the hashes |
| `Promotion.NoOpExactly` | src/arknights_mcp/db/promotion.py:268-290 | a call on a sound store is a no-op exactly when a valid candidate has the content hash of the manifest and the hash of the bytes of its standing build matches |
| `Promotion.RepeatIsNoOp` | src/arknights_mcp/db/promotion.py:231-303 | after a promotion, and while its build stands, a candidate with the same contents is a no-op without any file operation; only such a candidate is, if content hashes do not collide |
| `Promotion.EveryRunIsSafe` | src/arknights_mcp/db/promotion.py:173-303 | in such a run no call alters a build it leaves in place, a reader that could resolve a build still can, and the manifest agrees with its build field by field: hash of the bytes, hash of the contents, schema version and snapshots |
| `Promotion.SurvivesExactly` | src/arknights_mcp/db/promotion.py:203-228 | an old build survives a promotion if and only if fewer than retain-1 old builds are newer |
| `Promotion.PreviousActiveSurvives` | src/arknights_mcp/db/promotion.py:203-303 | with growing mtimes, no orphan and two retained versions the previous active build survives, at every crash point |
| `Promotion.OrderlyRunKeepsPrevious` | src/arknights_mcp/db/promotion.py:203-303 | the same over every orderly run |
| `EnemyNormalization.NormalizeEnemyLevel` | src/arknights_mcp/importers/enemy_normalization.py:137-213 | extraction leaves exactly what the level itself defines |
| `EnemyNormalization.ExtractedReads` | src/arknights_mcp/importers/enemy_normalization.py:116-213 | on the raw cells: under each of the mapped source keys a defined cell is read, and an absent, null or undefined one is not |
| `EnemyNormalization.ApplyLevelDeltas` | src/arknights_mcp/importers/enemy_normalization.py:224-248 | in place: every level but the base takes undefined keys and flags from the base, which is untouched |
| `EnemyNormalization.FinalizeLevel` | src/arknights_mcp/importers/enemy_normalization.py:251-296 | a negative radius becomes the denial, flags become the sorted list of true tokens |
| `EnemyNormalization.NormalizeLevels` | src/arknights_mcp/importers/enemy_normalization.py:313-322 | each level is decided cell by cell from its raw dictionary: a defined cell is stored under its key, an absent, null or `m_defined: false` one takes what the base stored; a negative radius is denied and not stored, an unreadable one neither; each flag by its own cell or the base; immunities sorted, absent iff nobody answered |
| `EnemyNormalization.OnlyInheritedKeys` | src/arknights_mcp/importers/enemy_normalization.py:216-221 | nothing outside the inherited key table is ever set |
| `Announcements.InferDate` | src/arknights_mcp/importers/announcements.py:129-144 | the loop finds the first nearest of the three candidate years |
| `Announcements.NextDay` | src/arknights_mcp/importers/announcements.py:129-144 | the days are numbered without a gap, through month and year ends |
| `Announcements.NormalizeDate` | src/arknights_mcp/importers/announcements.py:100-144 | explicit dates, missing month or day and inferred dates; the stored text spells year, month and day of the nearest date |
| `Announcements.NoYearIsNearer` | src/arknights_mcp/importers/announcements.py:129-144 | no year at all gives a calendar date nearer to the fetch day, and a tie goes to the earlier year |
| `Announcements.WithinHalfAYear` | src/arknights_mcp/importers/announcements.py:129-144 | except for 29 February, and with all three years supported, the distance is at most 183 days |
| `Announcements.NoDateOnlyForLeapDays` | src/arknights_mcp/importers/announcements.py:129-144 | a day that exists in some year is given up only when it is 29 February |
| `LevelNormalization.EnemyRefMap` | src/arknights_mcp/importers/normalization.py:146-192 | each id that some ref has gets the entry of its last ref, inline or not |
| `LevelNormalization.CollectVariants` | src/arknights_mcp/importers/normalization.py:195-244 | the variants are exactly the ids with an inline ref, each with the base of its last inline ref |
| `LevelNormalization.LastRefWins` | src/arknights_mcp/importers/normalization.py:172-191 | the last ref of an id wins, whatever its kind |
| `LevelNormalization.LastInlineWins` | src/arknights_mcp/importers/normalization.py:222-243 | the last inline ref of an id gives its variant |
| `LevelNormalization.FirstInlineFirst` | src/arknights_mcp/importers/normalization.py:222-243 | variants stand in the order in which their ids first had an inline ref |
| `LevelNormalization.NormalizeLevel` | src/arknights_mcp/importers/normalization.py:429-456 | tiles, routes, waves and variants of a grid level; no two tiles share a place, no variant is emitted twice, and every spawn's variant is declared with the spawn's own enemy as base |
| `LevelNormalization.NormalizeTiles` | src/arknights_mcp/importers/normalization.py:247-282 | the tiles of a ragged grid, no two at one place |
| `LevelNormalization.CollectInOrder` | src/arknights_mcp/importers/normalization.py:327-344 | spawns of a fragment, fragments, waves and routes: the n-th comes from the n-th accepted element, with that element's position as fallback index |
| `LevelNormalization.AcceptedIsCollected` | src/arknights_mcp/importers/normalization.py:401-426 | no accepted element is lost |
| `LevelNormalization.SpawnActionsExactly` | src/arknights_mcp/importers/normalization.py:365-369 | exactly the SPAWN actions with a key become spawns |
| `LevelNormalization.SpawnFollowsTheLastRef` | src/arknights_mcp/importers/normalization.py:370-389 | enemy, level and variant of the n-th spawn are those of the last ref of its action's key, a key without ref stands for itself, and route, time, count, interval and group are the action's own |
| `LevelNormalization.MapsAgree` | src/arknights_mcp/importers/normalization.py:146-244 | the two last-wins maps agree wherever a ref carries a variant, and no variant is emitted twice |
| `LevelNormalization.NoSpawnDangles` | src/arknights_mcp/importers/normalization.py:347-389 | a normalised spawn with a variant id has exactly one collected variant of that id, based on the spawn's own enemy |
| `LevelNormalization.LevelDeclares` | src/arknights_mcp/importers/normalization.py:392-426 | the same for every spawn of every wave |
| `LevelNormalization.VariantIsCarriedExactly` | src/arknights_mcp/importers/normalization.py:146-244 | some spawn action carries a collected variant if and only if the last ref of its id, of whatever kind, is an inline one |
| `LevelNormalization.VariantWithoutSpawn` | src/arknights_mcp/importers/normalization.py:146-244 | a level with a collected variant that no spawn can carry |
| `Levels.ParseLevel` | src/arknights_mcp/importers/levels.py:157-235 | every wave keeps its index and the spawns of all its fragments, one after the other |
| `Levels.ParsedKeepsAll` | src/arknights_mcp/importers/levels.py:157-235 | of a normalised level nothing is dropped: tiles, routes, each variant and each spawn in its place, with count and route truncated toward zero and time as a number |
| `Levels.Database.InsertMap` | src/arknights_mcp/importers/levels.py:277-307 | accepted if and only if the stage has no map and no tile place is taken; one row per tile |
| `Levels.Database.InsertRoutes` | src/arknights_mcp/importers/levels.py:309-324 | accepted if and only if all indices are new; one row per route, with the key recorded for its index |
| `Levels.Database.InsertVariants` | src/arknights_mcp/importers/levels.py:330-360 | accepted if and only if every base is known and every id new; one row per variant, based on its own prefab, with the key recorded for its id |
| `Levels.Database.InsertSpawns` | src/arknights_mcp/importers/levels.py:374-422 | accepted if and only if every enemy is known; one row per spawn, resolved, in order, and the buckets are those of all rows so far |
| `Levels.Database.InsertWaves` | src/arknights_mcp/importers/levels.py:364-422 | the same over all waves, whose indices must be new |
| `Levels.Database.InsertStageEnemies` | src/arknights_mcp/importers/levels.py:424-444 | the summary rows are the group-by of the spawns |
| `Levels.Database.InsertLevel` | src/arknights_mcp/importers/levels.py:270-453 | succeeds if and only if the map, tile places, route, variant and wave names are new and every base and enemy is known; then each spawn has one row, in order, with its enemy, level, time and count, the key of the route of its index and of the variant of its id where the level has one, and none otherwise; and the summary is the group-by of those rows |
| `Levels.ResolvedAreSpawnRows` | src/arknights_mcp/importers/levels.py:364-408 | what resolving comes to, column by column, on the level's own routes and variants |
| `Levels.BucketStep` | src/arknights_mcp/importers/levels.py:414-422 | adding one spawn to its bucket keeps every bucket's sum, least and greatest time and route set those of its group |
| `Levels.GroupByIsUnique` | src/arknights_mcp/importers/levels.py:424-444 | strictly increasing keys and group figures leave one possible summary |
| `Levels.TotalsAreConserved` | src/arknights_mcp/importers/levels.py:414-444 | the totals of the summary add up to the counts of all spawns, null as 0 |
| `Levels.NoRowDangles` | src/arknights_mcp/importers/levels.py:330-389 | for any level, normalised and parsed: each row of a spawn with a variant id is linked to the inserted variant of that id, whose base is the row's own enemy, and no other row to any |
| `Levels.ImportLevel` | src/arknights_mcp/importers/stages.py:339-352 | normalise, parse and insert: of the rows left in the table none dangles, and the new summary adds up to the new spawns |
| `RangeGrid.RangeGridRows` | src/arknights_mcp/services/range_grid.py:49-89 | the board of the least frame around cells and origin, empty exactly for no cells or a frame over 1024 |
| `RangeGrid.OneOrigin` | src/arknights_mcp/services/range_grid.py:66-88 | exactly one origin symbol, covered or not |
| `RangeGrid.ReadsBackExactly` | src/arknights_mcp/services/range_grid.py:66-88 | reading symbols relative to the origin symbol gives back exactly the cells |
| `RangeGrid.BoardDeterminesRange` | src/arknights_mcp/services/range_grid.py:49-89 | one board, one set of cells |
| `RangeGrid.RangeDeterminesBoard` | src/arknights_mcp/services/range_grid.py:49-89 | one set of cells, in any order and with repetitions, one board |
| `Farming.ComputeEfficiency` | src/arknights_mcp/analyzers/farming.py:264-296 | the exact quotient, the lowest confidence of the conditions present, and the sample markers |
| `Farming.RankedObservation` | src/arknights_mcp/analyzers/farming.py:343-368 | each caveat once, in a fixed order, for the conditions present in some row |
| `Farming.AnalyzeFarming` | src/arknights_mcp/analyzers/farming.py:378-437 | one stage: each drop has a row or a warning, once; rows cheapest first, each with the figure, markers and confidence of its drop; warnings in order, naming what is missing; or the one warning without a sanity cost |
| `Farming.AnalyzeItemFarming` | src/arknights_mcp/analyzers/farming.py:520-595 | one item across stages: the same, with the comparison caveats and one caveat for each condition of some ranked stage |
| `Farming.EveryDropOnce` | src/arknights_mcp/analyzers/farming.py:404-437 | every drop becomes exactly one row or one warning; rows are a permutation of the rankable drops sorted by exact sanity per item, then identity |
| `Farming.StageViewDescends` | src/arknights_mcp/analyzers/farming.py:404-437 | in the stage view that is descending drop rate |
| `Farming.RankingIgnoresListing` | src/arknights_mcp/analyzers/farming.py:542-577 | unless two drops share code and id, the order they are listed in does not matter |
| `Farming.DisplayedFiguresAscend` | src/arknights_mcp/analyzers/farming.py:329-340 | rounding for display keeps the order if it is monotone |
| `Drops.ItemProvenance` | src/arknights_mcp/services/drops.py:492-509 | the loop with its `seen` set lists snapshots by first appearance |
| `Drops.ProvenanceExactly` | src/arknights_mcp/services/drops.py:492-509 | each snapshot behind some stage, once, and no other |
| `Drops.GetItemDrops` | src/arknights_mcp/services/drops.py:512-646 | page errors first, then the two empty answers; plain pages show the rows from (page-1)*size on; a comparison pairs each row of the page with the ranked stage of its own database row: figure round(cost / rate), markers by sample, expiry by time, cheapest first, and every stage ranked or warned about exactly once |
| `Drops.VerdictOfAllRows` | src/arknights_mcp/services/drops.py:577-632 | whatever the page: stale iff some row of the whole set has expired, provenance of all rows, each once, and every row ranked or warned about |
| `Drops.PagesServeTheRanking` | src/arknights_mcp/services/drops.py:577-632 | the pages up to the first without more, one after the other, are the database rows of every rankable stage once, cheapest first |
| `Drops.PagesAreTheList` | src/arknights_mcp/services/stages.py:553-576 | `has_more` holds exactly when the next page is not empty, and the pages up to the last are the whole list |

## Left out

- SQL text, SQLite, savepoints and rollback: tables are sequences with append and the uniqueness rules of the schema.
- LosslessIffUnambiguous: does not decide a list in which one identity has an ambiguous pair and a conflict as well; there the answer depends on which row first fit reaches, and `ByteLosslessExactly` states it entry by entry in those terms.
- Board size, environment, tile kinds and passability, route positions and checkpoints of a level, and the conversion of route rows into the tile frame: field copying and one subtraction.
- Stat overrides and motion of inline variants, wave and spawn scheduling fields that are stored as they are.
- The outer loop of `normalize_enemy_database`, the motion map and the bridge for the second enemy source.
- `hoist_uniform_changes`, `label_token_effects`, key renaming and the combined pipeline: renaming removes the identity keys, so only deduplication is idempotent.
- The order of the keys inside a deduplicated row: a row is a map from key to value.
- Lone surrogates, NaN and infinities in JSON text.
- Concurrent promoters, temporary files, `fsync`, and changes to the directory by anyone else.
- Memory held by the limiter, other ASGI middleware, authentication, configuration, logging and tool descriptions.
- `unresolved_range_limitation`, the summary texts and warning texts of the analyzers: a warning is a datatype naming its cause.
- `get_stage_drops`, apart from its analyzer: it has no pages.
- `db/purge.py` and `mcp/cap_pressure.py`: a deletion order over foreign keys, and figures about one corpus.
- Roster, skin, banner, module and skill parsing: long but shallow.
