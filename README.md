# MahoShojo Generator, modelled in Dafny

MahoShojo Generator is a web application for creating and playing with
magical-girl characters. A questionnaire is turned into a character profile
by a language model. Character files can be signed, edited, "sublimated"
(re-generated on top of themselves) and stored as data cards. Characters
fight in an arena whose reports and win/loss statistics are kept in a
database. Portraits are generated by an external image service. A small
Python script maintains the flower-name list the prompts draw from.

This project models the logic of that application, one Dafny module per
source file:

| module | source |
|---|---|
| `FlowerMerge` | public/safe_update_flowers.py |
| `Sublimation` | pages/api/generate-sublimation.ts |
| `CharacterManager` | pages/character-manager.tsx |
| `Battle` | pages/battle.tsx |
| `Signature` | lib/signature.ts |
| `FieldTranslations` | lib/fieldTranslations.ts |
| `SensitiveFilter` | lib/sensitive-word-filter.ts |
| `RateLimiting` | lib/rate-limiter.ts |
| `Queueing` | lib/queue-system.ts |
| `NameSeed` | pages/name.tsx |
| `HanaNames`, `Shuffle` | lib/random-choose-hana-name.ts, lib/ai.ts |
| `Journalist` | lib/random-choose-journalist.ts |
| `AiProviders` | lib/ai.ts |
| `AiConfig` | lib/config.ts |
| `Ids` | lib/database/core.ts |
| `DataCards`, `Tables` | lib/database/data-cards.ts |
| `DataCardsApi` | pages/api/data-cards.ts |
| `Arena` | lib/database/arena.ts |
| `BattleStory` | pages/api/generate-battle-story.ts |
| `DetailsApi` | pages/api/generate-magical-girl-details.ts |
| `UserTitle` | components/UserTitle.tsx |
| `Presets` | pages/get-presets.ts |
| `ScenarioEditor` | components/ScenarioEditor.tsx |
| `LocalStorage` | lib/localStorage.ts |
| `TachieTypes`, `TachieApi`, `TachieUtils`, `TachieManager` | lib/tachie/liblib/types.ts, api.ts, utils.ts, lib/tachie/manager.ts |

`Json` models JavaScript values as the code sees them after `JSON.parse`.
`JsText` holds the string operations JavaScript gives them. `Wrappers`
holds `Option` and `Result`.

How state is modelled follows the source:
- Objects whose methods update fields become classes. These are the
  queue, the rate limiter, the sensitive-word filter, the battle roster,
  the card store and the arena tables, and the local storage of card ids.
- Loops become methods with invariants, proved against a specification
  function.
- Pure helpers become functions with lemmas.

The world outside the program is given as parameters:
- the clock and `Math.random()` draws;
- the result of each database query and of each model or image-service call;
- HMAC;
- `JSON.parse` of raw text;
- the regular-expression engine for pattern words;
- the collation order of `localeCompare`.

## Model

| member | source | states |
|---|---|---|
| FlowerMerge.FlowersOf | public/safe_update_flowers.py:31-41 | the `flowers` property is found exactly when the object has one, and it is that value |
| FlowerMerge.MainNames | public/safe_update_flowers.py:35 | the name set exists exactly when every main entry has a hashable `name`; otherwise the comprehension raises |
| FlowerMerge.MergeFlowerData | public/safe_update_flowers.py:5-64 | the script reaches the outcome of the merge; the file is written only when at least one entry was added |
| FlowerMerge.AppendNew | public/safe_update_flowers.py:45-50 | the loop finishes exactly when no iteration raises; the list is then the main list followed by the appended entries, and the counter is the growth in length |
| FlowerMerge.AppendedInOrder | public/safe_update_flowers.py:45-49 | appended entries come from the supplement, in supplement order |
| FlowerMerge.AppendedNamesFresh | public/safe_update_flowers.py:47-49 | every appended entry has a truthy name not known before, and no two appended entries share a name |
| FlowerMerge.MainNamesConcat | public/safe_update_flowers.py:35-49 | the name set of a concatenation is the union of the name sets |
| FlowerMerge.AppendedAgain | public/safe_update_flowers.py:47-50 | once every appended name is known, a second pass appends nothing |
| FlowerMerge.MergeIdempotent | public/safe_update_flowers.py:45-59 | running the script again on the file it wrote, with the same supplement, adds nothing and writes nothing |
| FlowerMerge.WrittenFlowers | public/safe_update_flowers.py:31-56 | a written file's `flowers` list is the main list followed by the entries the pass appended |
| FlowerMerge.MergeAgainNothing | public/safe_update_flowers.py:45-59 | when the main list already names every entry the supplement offers, the script adds nothing and writes nothing |
| FlowerMerge.MergeWrittenShape | public/safe_update_flowers.py:31-56 | a written file had both `flowers` lists; it keeps the main list as a prefix and appends exactly `added` supplement entries after it, in supplement order |
| FlowerMerge.MissingMainNameAborts | public/safe_update_flowers.py:35-64 | a main entry without `name` makes the set construction raise, and nothing is written |
| FlowerMerge.Merge | public/safe_update_flowers.py:5-64 | the script's outcome from the two files; `MergeIdempotent`, `MergeAgainNothing`, `MergeWrittenShape` and `MissingMainNameAborts` state what it writes and when it stops |
| Sublimation.MergeFromGet | pages/api/generate-sublimation.ts:174-180 | after the `forEach`, every source name reads as its merged value and every other name as in the target copy |
| Sublimation.SafeDeepMerge | pages/api/generate-sublimation.ts:171-183 | `safeDeepMerge` as written; `SafeDeepMergeObjects` and `SafeDeepMergeIgnoresSource` state what it yields for objects and for anything else |
| Sublimation.SafeDeepMergeObjects | pages/api/generate-sublimation.ts:171-183 | for two plain objects every source property is taken, merged recursively where both sides hold plain objects, and every other target property is kept |
| Sublimation.SafeDeepMergeIgnoresSource | pages/api/generate-sublimation.ts:171-182 | when either side is not a plain object the result is the target's spread copy; a string target becomes an object keyed by character positions |
| Sublimation.IsObject | pages/api/generate-sublimation.ts:161-163 | `isObject` holds for plain objects and for nothing else (not `null`, not arrays, not strings or numbers); `SafeDeepMergeObjects` and `SafeDeepMergeIgnoresSource` state what the merge does on each side of it |
| Sublimation.FindUnchangedFields | pages/api/generate-sublimation.ts:192-219 | `findUnchangedFields` as written; `FindUnchangedFieldsNeverReports` proves it reports nothing on any input |
| Sublimation.FindUnchangedFieldsIntended | pages/api/generate-sublimation.ts:192-219 | the corrected report that the handler uses: an object-valued property kept equal is reported; `IdenticalReportsObjects`, `UnchangedUnderPath` and `IgnoresUserAnswers` state what it reports |
| Sublimation.FindUnchangedFieldsNeverReports | pages/api/generate-sublimation.ts:192-219 | as written `findUnchangedFields` returns `[]` on every input: a property is only compared when it differs, and an empty sub-report for a differing property pushes nothing |
| Sublimation.UnchangedInNeverReports | pages/api/generate-sublimation.ts:198-217 | the loop over the original's properties, as written, never pushes a path |
| Sublimation.UnchangedInIntendedSame | pages/api/generate-sublimation.ts:198-217 | with the intended report, a run of properties the update holds unchanged reports exactly the object-valued ones other than `userAnswers` |
| Sublimation.IdenticalReportsObjects | pages/api/generate-sublimation.ts:198-217 | with the intended report, an update identical to the original reports every object-valued property except `userAnswers`, in order |
| Sublimation.UnchangedObjectExample | pages/api/generate-sublimation.ts:192-219 | the original `{"a": {}}` compared with itself: as written the report is `[]`, as intended it is `["a"]` |
| Sublimation.UnchangedUnderPath | pages/api/generate-sublimation.ts:205-216 | with the intended report, every reported path lies under the path the call started from |
| Sublimation.UnchangedInUnderPath | pages/api/generate-sublimation.ts:198-217 | with the intended report, the loop over the properties reports only paths under the starting path |
| Sublimation.IgnoresUserAnswers | pages/api/generate-sublimation.ts:199 | with the intended report, `userAnswers` is never compared: removing it from the original changes nothing, although an unchanged object there would otherwise be reported |
| Sublimation.ExtractTextForCheck | pages/api/generate-sublimation.ts:370-387 | the text gathered for the content check; `ExtractCoversChildren` and `ExtractIgnoresSkippedKeys` state what it contains and what it skips |
| Sublimation.ExtractFieldsContains | pages/api/generate-sublimation.ts:379-384 | the text of an object contains the text of each property not named `signature` or `userAnswers` |
| Sublimation.ExtractItemsContains | pages/api/generate-sublimation.ts:374-377 | the text of an array contains the text of each element |
| Sublimation.ExtractCoversChildren | pages/api/generate-sublimation.ts:370-387 | a string contributes itself and a space; arrays and objects contain the text of every element and of every property not skipped |
| Sublimation.ExtractIgnoresSkippedKeys | pages/api/generate-sublimation.ts:380-383 | removing a `signature` or `userAnswers` property leaves the checked text unchanged |
| Sublimation.MergePayload | pages/api/generate-sublimation.ts:259-266 | the merge of the AI payload as written, each property through `safeDeepMerge`; `MergePayloadGarblesStrings` exhibits a string turned into an object of characters |
| Sublimation.MergePayloadIntended | pages/api/generate-sublimation.ts:259-266 | the corrected merge, where a property that is not an object on both sides takes the AI value; `MergePayloadIntendedGet` states every property it holds, `MergePayloadsAgree` when it equals the merge as written |
| Sublimation.MergePayloadGarblesStrings | pages/api/generate-sublimation.ts:259-266 | as written, an AI string replacing an existing string becomes an object of the old string's characters |
| Sublimation.MergePayloadIntendedGet | pages/api/generate-sublimation.ts:259-266 | with the intended merge, an AI property holds the AI's value, merged into the old one when both are objects; every other property keeps its old value |
| Sublimation.MergeIntendedTakesValues | pages/api/generate-sublimation.ts:259-266 | with the intended merge, every non-object AI value arrives unchanged |
| Sublimation.MergePayloadIntendedKeepsStrings | pages/api/generate-sublimation.ts:259-266 | the counterexample input, merged as intended, keeps the new string |
| Sublimation.MergePropertiesAgree | pages/api/generate-sublimation.ts:259-266 | one pass of the merge as written and one of the corrected merge give the same object when the property is new or both sides are objects |
| Sublimation.MergePayloadsAgree | pages/api/generate-sublimation.ts:259-266 | the corrected merge and the merge as written give the same object whenever every AI property is new or an object replacing an object |
| Sublimation.RestoreImmutables | pages/api/generate-sublimation.ts:275-277 | the copy-back fails exactly when the original has no usable `magicConstruct` or the merged one cannot take a property |
| Sublimation.RestoreConstructNameGet | pages/api/generate-sublimation.ts:275 | only `magicConstruct.name` is replaced, by the original's |
| Sublimation.RestoreRulesGet | pages/api/generate-sublimation.ts:276-277 | `wonderlandRule` and `blooming` are the original's; nothing else changes |
| Sublimation.RestoreImmutablesGet | pages/api/generate-sublimation.ts:273-277 | the result holds the original's `wonderlandRule`, `blooming` and `magicConstruct.name`; everything else is as merged |
| Sublimation.LongestTitleAt | pages/api/generate-sublimation.ts:284 | the greedy `.{1,8}` takes the longest title of at most eight characters at a position |
| Sublimation.TitleSearch | pages/api/generate-sublimation.ts:284 | the match is at the leftmost position that has one, with the longest title there; none means no position matches |
| Sublimation.BaseNameOfTitled | pages/api/generate-sublimation.ts:281 | the base name of `base「…` is `base` when `base` has no 「 |
| Sublimation.FinalNameKeepsBase | pages/api/generate-sublimation.ts:280-294 | the AI never changes the base name |
| Sublimation.FinalNameHasTitle | pages/api/generate-sublimation.ts:284-292 | the final name always carries a 「 |
| Sublimation.FinalNameAdoptsTitle | pages/api/generate-sublimation.ts:284-286 | an AI name `base「t」` with t of one to eight characters gives the original base name with title t |
| Sublimation.KeepSublimations | pages/api/generate-sublimation.ts:322 | the filter fails exactly when some entry is `null` |
| Sublimation.KeptSublimations | pages/api/generate-sublimation.ts:322 | the filter keeps exactly the sublimation entries |
| Sublimation.MaxId | pages/api/generate-sublimation.ts:323 | the maximum exists exactly when every id is a number; it bounds every id and is one of them |
| Sublimation.NextEntryIdFresh | pages/api/generate-sublimation.ts:323-326 | a numeric new id is larger than every old id |
| Sublimation.KeepSublimationsStable | pages/api/generate-sublimation.ts:321-334 | a history of sublimation entries only is kept whole, so a later sublimation keeps every entry an earlier one wrote |
| Sublimation.NewEntryIsSublimation | pages/api/generate-sublimation.ts:325-333 | the new entry has type `sublimation` |
| Sublimation.NextCountIncrements | pages/api/generate-sublimation.ts:338 | a missing or numeric count goes up by exactly one |
| Sublimation.UpdateArena | pages/api/generate-sublimation.ts:334-340 | the history gets the new entry list and, when `attributes` is an object, the count and both timestamps; other properties are untouched; it fails exactly where the source raises a TypeError |
| Sublimation.RecordHistory | pages/api/generate-sublimation.ts:320-340 | only `arena_history` changes |
| Sublimation.SignOrStrip | pages/api/generate-sublimation.ts:342-347 | a native character is re-signed so that it verifies, any other loses `signature`; nothing else changes |
| Sublimation.SublimationReply | pages/api/generate-sublimation.ts:226-366 | 405 for a non-POST, 400 for flagged text or a missing history; success only for a POST object whose AI payload has the right kind, reporting the intended unchanged-field report of the original and the payload; the merge step is the corrected one of "## Findings" |
| Sublimation.Sublimate | pages/api/generate-sublimation.ts:226-366 | the handler, with its merge loop over the AI properties proved to compute the corrected merge, answers as the reply function says |
| Sublimation.SublimationReplyAsWritten | pages/api/generate-sublimation.ts:226-366 | given distinct property names, when every AI property is new, an object replacing an object, or one the handler overwrites after the merge (the name, a magical girl's rules), the reply equals the one built on the merge as written |
| Sublimation.MergePayloadsAgreeExcept | pages/api/generate-sublimation.ts:259-266 | the merge as written and the corrected merge keep the same names at the same positions and differ only under the exempt names, when every other AI property is new or an object replacing an object |
| Sublimation.SublimationName | pages/api/generate-sublimation.ts:280-313 | the name is the original base name with the new or fallback title |
| Sublimation.KeptThroughSteps | pages/api/generate-sublimation.ts:320-347 | steps 5 to 7 leave every property but the name, the history and the signature as restored |
| Sublimation.HistoryThroughSteps | pages/api/generate-sublimation.ts:320-347 | after step 7 `arena_history` is as steps 5 and 6 wrote it |
| Sublimation.CompleteSteps | pages/api/generate-sublimation.ts:268-347 | a successful completion passed the kind check and each later step |
| Sublimation.CompleteImmutables | pages/api/generate-sublimation.ts:273-277 | a completed magical girl keeps the original's immutable fields |
| Sublimation.SublimationImmutables | pages/api/generate-sublimation.ts:273-277 | a magical girl keeps her `wonderlandRule`, `blooming` and magic construct's name |
| Sublimation.CompleteHistory | pages/api/generate-sublimation.ts:320-340 | a completion writes the kept sublimation entries plus the new one and the counters |
| Sublimation.SublimationHistory | pages/api/generate-sublimation.ts:320-340 | the history holds the old sublimation entries followed by exactly one new one, and the count goes up by one |
| Sublimation.SublimationSignature | pages/api/generate-sublimation.ts:244-347 | a native character comes back with a valid signature, any other without one |
| Sublimation.SublimationKeepsMerged | pages/api/generate-sublimation.ts:253-266 | every property the handler does not write afterwards is as the corrected merge left it |
| CharacterManager.Dedup | pages/character-manager.tsx:33 | the key union holds exactly the keys of either side, each once |
| CharacterManager.FindChangedKeys | pages/character-manager.tsx:28-47 | the recursive diff of two objects; `FindChangedKeysSound` and `FindChangedKeysComplete` state that it reports differing paths and every differing non-object key |
| CharacterManager.FindChangedKeysSelf | pages/character-manager.tsx:28-47 | comparing an object with itself reports nothing |
| CharacterManager.DiffKeysSelf | pages/character-manager.tsx:35-45 | the loop over the keys reports nothing for equal objects |
| CharacterManager.FindChangedKeysSound | pages/character-manager.tsx:28-47 | every reported dotted path leads to values that differ |
| CharacterManager.DiffKeysSound | pages/character-manager.tsx:35-45 | every path the loop reports leads to differing values |
| CharacterManager.DiffKeySound | pages/character-manager.tsx:36-44 | every path one key contributes leads to differing values |
| CharacterManager.DiffersBelow | pages/character-manager.tsx:40-41 | a difference inside two nested objects is a difference of their parents |
| CharacterManager.DiffKeysHas | pages/character-manager.tsx:35-45 | the loop reports whatever any of its keys contributes |
| CharacterManager.FindChangedKeysComplete | pages/character-manager.tsx:40-44 | every key whose values differ and are not both plain objects is reported, including a key present on one side only |
| CharacterManager.ChangedKeysOfAssignment | pages/character-manager.tsx:28-47 | after one top-level assignment of a non-object, the diff reports at most that key |
| CharacterManager.DiffKeysOfAssignment | pages/character-manager.tsx:35-45 | the loop reports at most the assigned key |
| CharacterManager.FindChangedKeysUnder | pages/character-manager.tsx:36-41 | below a non-empty path every reported path starts with that path and a dot |
| CharacterManager.DiffKeysUnder | pages/character-manager.tsx:35-45 | the loop's paths start with the current path and a dot |
| CharacterManager.BreakingExamples | pages/character-manager.tsx:10-59 | `magicConstruct.name` is breaking; `codename`, `name` and a change under `arena_history` are not |
| CharacterManager.SetPath | pages/character-manager.tsx:133-142 | a successful edit yields an object |
| CharacterManager.SetPathWrites | pages/character-manager.tsx:137-140 | after the edit the path holds the new value |
| CharacterManager.SetPathKeepsOthers | pages/character-manager.tsx:133-142 | the edit touches nothing off its own path |
| CharacterManager.HandleChange | pages/character-manager.tsx:131-142 | the edit at a dotted path; `HandleChangeFollowsKeys`, `SetPathWrites` and `SetPathKeepsOthers` state what it writes and keeps |
| CharacterManager.HandleChangeFollowsKeys | pages/character-manager.tsx:131-142 | a dotted path built from dot-free keys edits exactly the field those keys name |
| CharacterManager.Editor.constructor | pages/character-manager.tsx:14-19 | nothing is loaded and no flag is set |
| CharacterManager.Editor.Recheck | pages/character-manager.tsx:24-65 | the lost-nativeness flag becomes true when the diff has a breaking change, and is never reset here |
| CharacterManager.Editor.Load | pages/character-manager.tsx:68-102 | a load succeeds iff the text parses to an object with a truthy `codename` or `name` and the origin check answers; both copies and the native flag are then set, otherwise cleared; the lost flag is reset |
| CharacterManager.Editor.Edit | pages/character-manager.tsx:131-142 | the data is the edited data when the path can be followed; otherwise the update throws (`thrown`) and the data is unchanged; the lost flag is re-evaluated and stays sticky |
| CharacterManager.Editor.RandomCodename | pages/character-manager.tsx:172-175 | `codename` is set to the drawn name and the lost flag is re-evaluated |
| CharacterManager.Editor.Save | pages/character-manager.tsx:178-192 | something is saved iff data is loaded and the content check passes; `signature` is dropped iff nativeness was lost or never there |
| CharacterManager.RenameKeepsNativeness | pages/character-manager.tsx:10-59 | renaming the `codename` of a loaded character is not a breaking change |
| Battle.LegacyAccepted | pages/battle.tsx:161-165 | a file with truthy `name` and `construct` is accepted uncorrected, with `codename` copied from `name` and nothing else changed |
| Battle.CodenameRequired | pages/battle.tsx:167-171 | a current-format file without a non-empty string `codename` is rejected with the missing-codename message |
| Battle.MagicalGirlCheck | pages/battle.tsx:160-205 | `validateMagicalGirlData`: `LegacyAccepted` (a legacy file passes with `codename` copied from `name`), `CodenameRequired` (no string `codename` is rejected), `SpreadAppearanceRepaired` and `CheckWarningMarked` (a repair passes, corrected, with a `✔️` warning) |
| Battle.CanshouCheck | pages/battle.tsx:207-214 | a canshou passes exactly when every core field is present, with no message; otherwise the message names the first missing core field in `CANSHOU_CORE_FIELDS` order; the data is never repaired |
| Battle.MoveChildren | pages/battle.tsx:186-190 | the inner loop performs exactly the repair of one parent |
| Battle.ValidateMagicalGirl | pages/battle.tsx:160-204 | validating in place gives the result of the magical-girl check |
| Battle.RepairParents | pages/battle.tsx:175-197 | the loop over the parents gives the outcome of the repair recursion |
| Battle.MoveOneAt | pages/battle.tsx:188-189 | one move puts the child into the parent and removes it from the top level; nothing else changes |
| Battle.MoveFromAt | pages/battle.tsx:187-190 | distinct children move into the parent with their top-level values and leave the top level; the parent keeps the rest; other properties are untouched |
| Battle.MoveFromEffect | pages/battle.tsx:187-190 | the same, for every property at once |
| Battle.RepairAt | pages/battle.tsx:186-190 | a rebuilt parent holds exactly its children, which leave the top level |
| Battle.RepairEffect | pages/battle.tsx:181-190 | a repair creates the missing parent with exactly its children's top-level values, deletes them from the top level and leaves every other property alone |
| Battle.CompleteFilesPassUnchanged | pages/battle.tsx:175-176 | a file with every core parent present passes unchanged |
| Battle.SharedChildrenBlockSecondRepair | pages/battle.tsx:175-196 | a file missing both `magicConstruct` and `wonderlandRule` is rejected: the first repair removes the children the second needs, with no rollback |
| Battle.FirstThenClashFails | pages/battle.tsx:175-196 | a first repair that does not touch the two clashing parents still ends in failure |
| Battle.RepairKeepsClash | pages/battle.tsx:186-190 | repairing another parent leaves `magicConstruct` and `wonderlandRule` missing |
| Battle.SecondAndThirdClash | pages/battle.tsx:18-19 | the construct and the wonderland rule share children |
| Battle.ConstructThenRuleFails | pages/battle.tsx:175-196 | with both clashing parents missing, the loop fails |
| Battle.RepairFromMissing | pages/battle.tsx:176-190 | a missing parent with all children present is rebuilt, a warning line is added and the file is marked corrected |
| Battle.RepairFromPresent | pages/battle.tsx:176 | a present parent is passed over |
| Battle.FirstParentFails | pages/battle.tsx:191-194 | a missing parent with a missing child fails the check |
| Battle.FirstMissing | pages/battle.tsx:208 | the first field that is undefined, in declared order, or none exactly when all are present |
| Battle.ItemLoadedKind | pages/battle.tsx:269-281 | a loaded item was an object of the kind detected from a truthy `codename`, else a truthy `evolutionStage` |
| Battle.ProcessItemsLoaded | pages/battle.tsx:265-293 | a batch that loads holds one combatant per item, in input order, of the detected kind |
| Battle.LoadedFits | pages/battle.tsx:258-260 | a loaded batch never takes the roster past four |
| Battle.ItemWarningMarked | pages/battle.tsx:199-202 | the warning a loaded item carries starts with `✔️` |
| Battle.CheckWarningMarked | pages/battle.tsx:199-203 | a successful check's message is a `✔️` warning |
| Battle.RepairWarningMarked | pages/battle.tsx:201 | the repair warning starts with `✔️` |
| Battle.BatchWarningsMarked | pages/battle.tsx:265-293 | every warning a batch carries starts with `✔️` |
| Battle.LooseAppearanceIsSpread | pages/battle.tsx:16-22 | the example file has its appearance fields at the top level and every other parent present |
| Battle.LooseAppearanceHead | pages/battle.tsx:162-168 | the example file is current-format with a codename and no `appearance` |
| Battle.LooseAppearanceKeys | pages/battle.tsx:16-21 | the example file has the four appearance children and the other four parents at the top level |
| Battle.SpreadAppearanceRepaired | pages/battle.tsx:175-203 | a file whose appearance is spread over the top level is accepted with a warning |
| Battle.SpreadAppearanceFits | pages/battle.tsx:175-197 | such a file misses only the first parent |
| Battle.RepairOnlyFirst | pages/battle.tsx:175-197 | when only the first parent is missing and can be rebuilt, the loop ends after that one repair |
| Battle.RepairWarningLostAsWritten | pages/battle.tsx:297-299 | as written, a file repaired onto a page with no message produces a warning, yet the page ends with no message |
| Battle.SpreadItemLoads | pages/battle.tsx:265-292 | such a file loads as an item with a warning |
| Battle.SpreadIsMagicalGirl | pages/battle.tsx:270 | such a file is detected as a magical girl |
| Battle.MagicalGirlItemLoads | pages/battle.tsx:277-292 | a magical girl whose check succeeds with a message loads with that warning |
| Battle.SingleItemLoads | pages/battle.tsx:262-293 | a single item that loads makes a batch of its own |
| Battle.LooseAppearanceWarningLost | pages/battle.tsx:297-299 | the example file loses its repair warning as written |
| Battle.RepairWarningShown | pages/battle.tsx:295-299 | with the intended rule, a load shows only a `✔️` repair warning or nothing |
| Battle.RepairWarningKept | pages/battle.tsx:295-299 | with the intended rule, a repaired file leaves its warning on screen |
| Battle.LeadingSpace | pages/battle.tsx:334 | the leading white-space run is no longer than the text |
| Battle.LeadingSpaceRun | pages/battle.tsx:334 | `\s*` takes all the leading white space and stops before the first other character |
| Battle.ReplaceBracesNoBrace | pages/battle.tsx:334 | text without `}` is left alone |
| Battle.ReplaceBraces | pages/battle.tsx:334 | `text.replace(/}\s*{/g, '},{')`; `ReplaceBracesJoins`, `ReplaceBracesJoinStep`, `ReplaceBracesUnjoined` and `ReplaceBracesCopy` state what each match and non-match becomes, `ReplaceBracesIdempotent` that a second pass changes nothing |
| Battle.ReplaceBracesJoins | pages/battle.tsx:334 | `}`, white space, `{` becomes `},{` |
| Battle.LeadingSpaceOf | pages/battle.tsx:334 | the leading run of white space followed by another character is exactly that white space |
| Battle.ReplaceBracesFirst | pages/battle.tsx:334 | the first character survives the replacement |
| Battle.ReplaceBracesSpace | pages/battle.tsx:334 | leading white space is copied unchanged |
| Battle.ReplaceBracesCopy | pages/battle.tsx:334 | a character other than `}` is copied |
| Battle.ReplaceBracesIdempotent | pages/battle.tsx:334 | a second replacement changes nothing |
| Battle.ReplaceBracesJoinStep | pages/battle.tsx:334 | where `}\s*{` starts, it becomes `},{` and the scan resumes after it |
| Battle.ClosingParts | pages/battle.tsx:334 | a `}` that starts no match is that brace, its white space, and a rest opening with neither white space nor `{` |
| Battle.ReplaceBracesJoined | pages/battle.tsx:334 | a `},{` the replacement wrote stays as it is |
| Battle.ReplaceBracesUnjoined | pages/battle.tsx:334 | a `}` whose white space is not followed by `{` is copied with that white space |
| Battle.CopyClosing | pages/battle.tsx:334 | an unmatched `}` is copied and the rest is replaced on its own |
| Battle.UnjoinedHead | pages/battle.tsx:334 | after `}` and its white space comes something other than `{`, so no match starts there |
| Battle.ReplaceBracesStep | pages/battle.tsx:334 | where no match starts, the first character is copied |
| Battle.ReplaceBracesUnjoinedTwice | pages/battle.tsx:334 | a second pass over an unmatched `}` changes nothing when it changes nothing after it |
| Battle.Roster.constructor | pages/battle.tsx:55-69 | an empty roster with no message and no corrected files |
| Battle.Roster.AddCombatant | pages/battle.tsx:217-224 | refused with `最多只能选择 4 位参战者。` at four; otherwise appended and the message cleared |
| Battle.PresetOutcome | pages/battle.tsx:234-249 | a failed fetch leaves its message; an accepted preset becomes a combatant of the preset's kind and filename whose data is the checked file marked `isPreset: true` |
| Battle.Roster.SelectPreset | pages/battle.tsx:227-254 | a selected preset is removed with the message cleared; otherwise a failed fetch or a rejected check leaves the roster as it was with that message, an accepted preset is appended with the message cleared when fewer than four are selected, and a full roster gets the four-combatant message |
| Battle.Roster.ProcessJsonData | pages/battle.tsx:257-300 | all items are appended in order or none is; a rejected item leaves the checker's message; a load ends with the intended message |
| Battle.Roster.AddFromPaste | pages/battle.tsx:322-343 | blank text does nothing; otherwise the parsed or repaired items, a single object wrapped in a list, go to `processJsonData`; `correctedFiles` gains the batch's repaired names only when the batch loads |
| Battle.Roster.AddParsed | pages/battle.tsx:337-342 | a parse failure leaves the roster and sets the paste message; otherwise the items are processed, and the box is emptied exactly when processing does not throw |
| Battle.Roster.AddFiles | pages/battle.tsx:302-320 | a non-JSON or unparsable file stops the upload with its message; otherwise every parsed file goes to `processJsonData`; `correctedFiles` gains the batch's repaired names only when the batch loads |
| Battle.Roster.Clear | pages/battle.tsx:346-354 | the roster, the message and the corrected files are cleared |
| Battle.Without | pages/battle.tsx:229 | the filter removes exactly the combatants with that filename and keeps the rest |
| Signature.SecretKey | lib/signature.ts:20-53 | a signing key exists exactly when SIGNATURE_SECRET_KEY is set and non-empty, and it is that text |
| Signature.Insert | lib/signature.ts:70 | inserting a property into a list adds exactly that property (multiset) |
| Signature.SortFields | lib/signature.ts:70-75 | sorting the property names is a permutation of the properties |
| Signature.InsertGet | lib/signature.ts:70-75 | inserting a new name makes it read as its value and leaves every other name's value unchanged |
| Signature.InsertSorted | lib/signature.ts:70 | under a strict total collation, inserting a fresh name into a strictly sorted list keeps it strictly sorted |
| Signature.SortFieldsGet | lib/signature.ts:70-75 | sorting an object without repeated names keeps every name's value |
| Signature.SortFieldsSorted | lib/signature.ts:70 | under a strict total collation the sorted names are strictly increasing |
| Signature.SortStep | lib/signature.ts:70 | placing the last property into the sorted others keeps the order strict |
| Signature.SortedFresh | lib/signature.ts:70-75 | without repeated names, the last name is absent from the sorted others |
| Signature.SortedUnique | lib/signature.ts:55-60 | two strictly sorted property lists with the same name/value pairs are equal |
| Signature.SortFieldsCanonical | lib/signature.ts:55-60 | objects holding the same pairs in different orders sort to the same list |
| Signature.SortItems | lib/signature.ts:65-68 | sorting inside an array keeps its length |
| Signature.SortValues | lib/signature.ts:71-75 | sorting the values keeps every property's name in place |
| Signature.SortValuesGet | lib/signature.ts:72-75 | each name reads as the recursively sorted original value; absent names stay absent |
| Signature.SortObjectKeys | lib/signature.ts:61-77 | the recursive key sort; `SortObjectKeysObject` and `SortObjectKeysCanonical` state what the sorted object holds and that property order does not matter |
| Signature.SortObjectKeysObject | lib/signature.ts:61-77 | the sorted object holds exactly the original names, each with its value sorted, in strictly increasing order |
| Signature.SortObjectKeysCanonical | lib/signature.ts:55-60 | objects that differ only in property order sort to the same value |
| Signature.HexDigit | lib/signature.ts:86 | each digit is a lowercase hexadecimal character |
| Signature.ByteToHex | lib/signature.ts:86 | every byte prints as exactly two characters |
| Signature.BufferToHex | lib/signature.ts:84-88 | the text has two lowercase hexadecimal digits per byte |
| Signature.HexDigitValue | lib/signature.ts:86 | each printed digit reads back as its value |
| Signature.HexRoundTrip | lib/signature.ts:84-88 | reading the hexadecimal text back gives the original bytes |
| Signature.HexStep | lib/signature.ts:84-88 | reading one printed byte and then the rest gives that byte before the rest |
| Signature.BufferToHexInjective | lib/signature.ts:84-88 | different byte buffers never print the same text |
| Signature.GenerateSignature | lib/signature.ts:95-118 | a signature is produced exactly when a key is configured |
| Signature.VerifySignature | lib/signature.ts:125-145 | verification succeeds exactly when a key is configured, the value is an object, and its `signature` is the string `generateSignature` computes for the object without it |
| Signature.SignatureIgnoresOldSignature | lib/signature.ts:101-104 | a `signature` already inside the data does not change the new signature |
| Signature.SignedDataVerifies | lib/signature.ts:125-145 | data carrying its freshly generated signature verifies |
| Signature.SignatureIgnoresOrder | lib/signature.ts:55-60 | under a strict total collation, property order changes neither the signature nor the verdict |
| FieldTranslations.DisplayName | lib/fieldTranslations.ts:249-251 | `getFieldDisplayName`; `ListedNames` states that listed names get their label |
| FieldTranslations.ListedNames | lib/fieldTranslations.ts:249-251 | listed names get their label, `background` and `backstory` alike |
| FieldTranslations.TranslatedItems | lib/fieldTranslations.ts:260 | arrays are mapped element by element, keeping length and order |
| FieldTranslations.LaterWins | lib/fieldTranslations.ts:264-267 | a renamed property holds the translated value of the last property renamed to it |
| FieldTranslations.Untouched | lib/fieldTranslations.ts:264-267 | a name no property is renamed to keeps what it held |
| FieldTranslations.OnlyNewNames | lib/fieldTranslations.ts:263-267 | every property of the result is the new name of an input property |
| FieldTranslations.TranslateIntoSize | lib/fieldTranslations.ts:263-267 | the result has no repeated name and no more properties than went in |
| FieldTranslations.TranslatedObject | lib/fieldTranslations.ts:263-269 | a translated object holds exactly the new names of its properties, each with the translated value of the last property renamed to it, no repeated names and no more properties than the input |
| FieldTranslations.TranslatedScalar | lib/fieldTranslations.ts:255-257 | values that are neither arrays nor objects, `null` included, come back unchanged |
| FieldTranslations.TranslatedArray | lib/fieldTranslations.ts:259-261 | arrays keep their length and order, each element translated |
| FieldTranslations.BackstoryCollision | lib/fieldTranslations.ts:264-267 | an object with both `background` and `backstory` keeps one property, `背景故事`, holding the later value |
| FieldTranslations.TranslateObjectKeys | lib/fieldTranslations.ts:254-270 | the loop-based rewrite gives the recursive translation of its input |
| SensitiveFilter.Repeat | lib/sensitive-word-filter.ts:300-312 | `repeat(n)` has `n` times the length |
| SensitiveFilter.ShippedMaskStars | lib/sensitive-word-filter.ts:307-314 | with the shipped `*` and empty `mask_word`, a match becomes as many `*` as it has characters |
| SensitiveFilter.ReplaceMasks | lib/sensitive-word-filter.ts:290-301 | masking with the shipped settings keeps the length and only writes `*` |
| SensitiveFilter.AddNew | lib/sensitive-word-filter.ts:251-255 | earlier detections stay first; every match is then present, each added one new and added once |
| SensitiveFilter.CheckSpec | lib/sensitive-word-filter.ts:276-284 | `originalText` is the input; `hasSensitiveWords` holds exactly when something was detected; `shouldRedirectToArrested` equals it |
| SensitiveFilter.Mentioned | lib/sensitive-word-filter.ts:267-273 | exactly the listed words the lower-cased text contains |
| SensitiveFilter.PlainWordsDetected | lib/sensitive-word-filter.ts:242-273 | for plain words, the detections are exactly the mentioned words in list order, a word listed twice reported twice |
| SensitiveFilter.NothingFoundNothingMasked | lib/sensitive-word-filter.ts:239-274 | without any detection nothing is replaced |
| SensitiveFilter.ScanMasks | lib/sensitive-word-filter.ts:242-274 | every pass of the loop keeps the filtered text a masked copy of the input |
| SensitiveFilter.FilteredKeepsLength | lib/sensitive-word-filter.ts:233-301 | with the shipped settings, the filtered text has the input's length and each character is the input's or `*` |
| SensitiveFilter.NoDetectionUnchanged | lib/sensitive-word-filter.ts:239-284 | a check that detects nothing returns the text unchanged |
| SensitiveFilter.PatternAddsDistinct | lib/sensitive-word-filter.ts:244-258 | a pattern that compiles adds each distinct new match once, after what was found before |
| SensitiveFilter.LoadedWords | lib/sensitive-word-filter.ts:213-219 | the words are decoded one by one when the list is marked Base64, else copied |
| SensitiveFilter.Filter.constructor | lib/sensitive-word-filter.ts:198-201 | the filter takes the settings and is initialised exactly when they hold a word list |
| SensitiveFilter.Filter.Initialize | lib/sensitive-word-filter.ts:206-228 | succeeds exactly when the settings hold a word list, loading it; otherwise nothing changes |
| SensitiveFilter.Filter.CheckText | lib/sensitive-word-filter.ts:233-285 | throws before initialisation; otherwise scans every word in turn |
| SensitiveFilter.Filter.CheckTextArray | lib/sensitive-word-filter.ts:320-322 | `checkText` on each text in order, or the first error it throws |
| RateLimiting.Fresh | lib/rate-limiter.ts:20-43 | exactly the records still inside the 120 000 ms window, in order |
| RateLimiting.FreshTwice | lib/rate-limiter.ts:35-43 | filtering twice at the same time drops nothing more, so the second filter after `cleanup()` changes nothing |
| RateLimiting.Pruned | lib/rate-limiter.ts:16-29 | each address keeps its fresh records; an address left with none is deleted |
| RateLimiting.ForEndpoint | lib/rate-limiter.ts:46-82 | exactly the records for that endpoint |
| RateLimiting.Oldest | lib/rate-limiter.ts:88 | the least request time of a non-empty list |
| RateLimiting.CeilSeconds | lib/rate-limiter.ts:130 | milliseconds rounded up to whole seconds |
| RateLimiting.RateLimiter.constructor | lib/rate-limiter.ts:9 | no records |
| RateLimiting.RateLimiter.Cleanup | lib/rate-limiter.ts:16-29 | the records become the pruned records |
| RateLimiting.RateLimiter.IsRateLimited | lib/rate-limiter.ts:34-59 | prunes every address, then refuses an address that reached this endpoint, or two other endpoints, inside the window |
| RateLimiting.RateLimiter.RecordRequest | lib/rate-limiter.ts:64-75 | one record appended for the address; nothing else changes |
| RateLimiting.RateLimiter.TimeUntilReset | lib/rate-limiter.ts:80-92 | 0 without a record for the endpoint; otherwise the time until the oldest such record leaves the window, never negative |
| RateLimiting.RecordedEndpointRefused | lib/rate-limiter.ts:48-75 | a request recorded at `t` shuts that endpoint for the address until `t` plus the window |
| RateLimiting.TwoEndpointsRefuseAll | lib/rate-limiter.ts:46-56 | after two distinct endpoints inside the window, every endpoint is refused |
| RateLimiting.ExpiredAdmitted | lib/rate-limiter.ts:41-58 | an address whose records have all left the window is admitted to any endpoint |
| RateLimiting.ClientIP | lib/rate-limiter.ts:101-115 | the first forwarded address trimmed, else `x-real-ip`, else the connection or socket address, else `unknown` |
| RateLimiting.ForwardedFirstWins | lib/rate-limiter.ts:106-108 | the first address of a forwarded list wins, whatever follows it |
| RateLimiting.WithRateLimit | lib/rate-limiter.ts:120-154 | a refused request gets 429 with the wait in whole seconds and the handler does not run; an admitted one is recorded, then the handler runs; a limiter failure falls through to the handler |
| Queueing.ConfiguredMax | lib/queue-system.ts:46-60 | the limit is positive, and differs from the default 10 only when the variable parses to it |
| Queueing.ConfiguredWait | lib/queue-system.ts:47-67 | the wait differs from the default 30 only when the variable parses to it |
| Queueing.ConfigurationOverrides | lib/queue-system.ts:44-74 | unset variables give 10 and 30; a printed positive number is taken as the limit and any printed number as the wait; `0` is not a limit |
| Queueing.PrintedNumberTaken | lib/queue-system.ts:55-67 | a printed number is taken as the wait, and as the limit when positive |
| Queueing.ZeroMaxIgnored | lib/queue-system.ts:57 | a limit of `0` falls back to the default |
| Queueing.Settle | lib/queue-system.ts:224-246 | an item ends resolved or rejected after a failure, under its own id |
| Queueing.AtMostThreeRuns | lib/queue-system.ts:239-245 | a new item's processor runs at least once and at most three times |
| Queueing.ResolvedIffSomeAttempt | lib/queue-system.ts:228-245 | an item is resolved exactly when one of its remaining attempts succeeds |
| Queueing.OutcomesInOrder | lib/queue-system.ts:217-247 | one settlement per item, in queue order |
| Queueing.SettledHead | lib/queue-system.ts:221-231 | settling the head moves its outcome to the settled list |
| Queueing.OutcomesHead | lib/queue-system.ts:221 | the queue's outcomes are its head's settlement then the rest's |
| Queueing.RetriedHead | lib/queue-system.ts:239-242 | a failed head put back at the front with one more retry settles as before |
| Queueing.CountResolvedAppend | lib/queue-system.ts:230 | the success count of two runs adds up |
| Queueing.BudgetStep | lib/queue-system.ts:217-247 | each turn of the loop, settling or retrying the head, leaves less work, so the loop ends |
| Queueing.IndexOfKey | lib/queue-system.ts:265-302 | the first index with that persistence key, or -1 when there is none |
| Queueing.IndexOfIp | lib/queue-system.ts:273-306 | the first index with that address, or -1 when there is none |
| Queueing.KeptMembers | lib/queue-system.ts:335-341 | the kept items are exactly those that have not expired |
| Queueing.TimedOut | lib/queue-system.ts:338 | every dropped item is rejected with the timeout message |
| Queueing.TimedOutExactly | lib/queue-system.ts:335-341 | exactly the expired items are timed out; the others are kept |
| Queueing.SweepSplits | lib/queue-system.ts:335-341 | every item is kept or timed out, never both |
| Queueing.KeptStep | lib/queue-system.ts:335-341 | the sweep goes item by item, in order |
| Queueing.KeptAppend | lib/queue-system.ts:335-341 | sweeping one more item extends the kept list by it when it has not expired |
| Queueing.TimedOutAppend | lib/queue-system.ts:335-341 | sweeping one more item extends the timed-out list by it when it has expired |
| Queueing.WaitSecondsLeft | lib/queue-system.ts:174 | the seconds left are the remaining wait rounded up |
| Queueing.RequestQueue.constructor | lib/queue-system.ts:36-140 | an empty idle queue with the configured limit and wait |
| Queueing.RequestQueue.CalculateWaitTime | lib/queue-system.ts:127-135 | 0 for position 0; otherwise the smallest whole number of seconds that covers `p` requests at the configured rate plus the user wait |
| Queueing.RequestQueue.AddToQueue | lib/queue-system.ts:160-206 | a key (persistence key, else address) that asked within the wait is refused with the message `请求过于频繁，请等待 N 秒后再试`, N the seconds left, and nothing changes; otherwise its time is recorded and the item appended with no retries; the counters, the flag and `lastProcessTime` never change |
| Queueing.RequestQueue.CanUserMakeRequest | lib/queue-system.ts:147-155 | a key may ask when it has no truthy last request time or at least `userWaitTime` seconds have passed since it; `AddToQueue` refuses exactly the other requests, with the seconds left |
| Queueing.RequestQueue.SettleHead | lib/queue-system.ts:221-245 | one pass of the loop settles the head item or puts it back with one more retry; what is settled plus what the queue still owes stays the same, successes are counted, and the remaining work shrinks |
| Queueing.RequestQueue.ProcessQueue | lib/queue-system.ts:211-251 | a running queue is left alone; otherwise the queue is emptied, each item settled in order, and only successes counted; the per-user request times and `lastProcessTime` stay as they were |
| Queueing.RequestQueue.GetQueueStatus | lib/queue-system.ts:258-293 | the length and processing flag; the 1-based place of the key's item (else the address's) when past the head, else 0 with the wait of the whole queue |
| Queueing.RequestQueue.GetPositionInQueue | lib/queue-system.ts:298-310 | the 1-based place of the first item with the key, else of the first from the address, else 0 exactly when neither is queued |
| Queueing.RequestQueue.GetPersistedQueue | lib/queue-system.ts:315-325 | the queue in order, each field copied and a missing key shown as `''` |
| Queueing.RequestQueue.Cleanup | lib/queue-system.ts:330-346 | items older than ten minutes are rejected and dropped; the rest keep their order |
| NameSeed.ToInt32 | pages/name.tsx:64 | `hash & hash` is the signed 32-bit value congruent to its argument |
| NameSeed.ToInt32Congruent | pages/name.tsx:63-64 | the 32-bit reduction depends on its argument only modulo 2^32 |
| NameSeed.HashStepIsTimes31 | pages/name.tsx:63-64 | `(hash << 5) - hash + char` reduced to 32 bits is `31 * hash + char` reduced to 32 bits |
| NameSeed.HashIsWrappedPoly | pages/name.tsx:59-65 | the hash is the signed 32-bit reduction of the polynomial sum of 31^k times the code units |
| NameSeed.Hash | pages/name.tsx:59-65 | the hash loop; `HashIsWrappedPoly` states it is the signed 32-bit reduction of the sum of 31^k times the code units, and `SeedRandom` that the loop computes it |
| NameSeed.WrapStep | pages/name.tsx:63-64 | values congruent modulo 2^32 stay congruent after one hash step |
| NameSeed.SeedRandom | pages/name.tsx:59-67 | the loop computes the absolute value of the wrapped polynomial hash, which lies in [0, 2^31] |
| NameSeed.JsRem | pages/name.tsx:71 | JavaScript's `%` takes the sign of the dividend |
| NameSeed.PseudoRandomInUnit | pages/name.tsx:71 | for a non-negative seed plus offset the value lies in [0, 1) |
| NameSeed.Cumulative | pages/name.tsx:74-75 | one running sum per weight |
| NameSeed.CumulativeAt | pages/name.tsx:74-75 | running sum i is the sum of the first i + 1 weights |
| NameSeed.FirstReaching | pages/name.tsx:80 | the first index whose running sum reaches the value, or -1 exactly when none does |
| NameSeed.CumulativeWeights | pages/name.tsx:74-75 | the `map` loop with its mutated running sum computes the running sums |
| NameSeed.FindIndex | pages/name.tsx:80 | the search loop returns the first index reaching the value, or -1 |
| NameSeed.GetWeightedRandomFromSeed | pages/name.tsx:69-83 | the pick is the element at the first index whose running sum reaches value·total, else element 0 |
| NameSeed.LastCumulative | pages/name.tsx:76 | the last running sum is the total weight |
| NameSeed.RandomValueBelowTotal | pages/name.tsx:79 | a value in [0, 1) scaled by a positive total stays below it |
| NameSeed.AlwaysFound | pages/name.tsx:79-82 | with a positive total and a non-negative seed plus offset the search always succeeds |
| NameSeed.ZeroWeightNeverPicked | pages/name.tsx:74-82 | an entry of weight 0 after the first position is never picked |
| NameSeed.ExtremeWeightsPickLast | tests/getWeightedRandomFromSeed.test.js:131-133 | with weights [0,0,0,0,0,1], seed 12345 and offset 6, the last level `宝石权杖` is picked |
| NameSeed.PickLevel | pages/name.tsx:115-120 | the level is the weighted pick over the hash of flower name plus input name at offset 6, and it is one of the levels |
| NameSeed.ProbabilitiesSumToOne | pages/name.tsx:116 | the six level probabilities add up to exactly 1 |
| NameSeed.CheckNameLength | pages/name.tsx:85-87 | a name passes exactly when it has at most 300 UTF-16 code units |
| HanaNames.SliceEnd | lib/random-choose-hana-name.ts:26 | `slice(0, count)` ends at min(count, n), a negative count counting back from the end |
| HanaNames.FormatLines | lib/random-choose-hana-name.ts:29-30 | one formatted line per flower |
| HanaNames.LineHasNoNewline | lib/random-choose-hana-name.ts:30 | a line built from a flower without newlines holds no newline |
| HanaNames.FormatSplitsIntoLines | lib/random-choose-hana-name.ts:29-31 | the text splits on `\n` into exactly the lines `k. name - meaning`, one per flower in order, with no trailing newline |
| HanaNames.GetRandomFlowersArray | lib/random-choose-hana-name.ts:41-52 | the result is the first `count` flowers of the shuffle; there are min(count, n) of them, all taken from the list |
| HanaNames.GetRandomFlowers | lib/random-choose-hana-name.ts:13-34 | the text formats exactly that selection |
| HanaNames.RandomChooseHanaName | lib/random-choose-hana-name.ts:54-57 | the result is always the empty string |
| HanaNames.RandomChooseOneHanaName | lib/random-choose-hana-name.ts:60-63 | a name is returned exactly when there are flowers, and it is the name of a listed flower |
| Shuffle.ScaledDrawBelow | lib/ai.ts:41 | a draw in [0, 1) scaled by n > 0 stays in [0, n) |
| Shuffle.DrawIndex | lib/random-choose-hana-name.ts:21 | `Math.floor(Math.random() * (i + 1))` lies in [0, i] |
| Shuffle.IndicesFromRandoms | lib/random-choose-hana-name.ts:20-21 | the indices the loop draws from any `Math.random()` values are valid swap partners |
| Shuffle.Swap | lib/random-choose-hana-name.ts:22 | the exchange keeps the length |
| Shuffle.SwapPermutes | lib/random-choose-hana-name.ts:22 | the exchange keeps the elements and their multiplicities |
| Shuffle.Before | lib/random-choose-hana-name.ts:20-23 | after any prefix of the steps the list is a permutation of the input |
| Shuffle.FisherYates | lib/random-choose-hana-name.ts:17-23 | whatever the draws, the shuffle is a permutation of its input |
| Shuffle.BeforeStep | lib/random-choose-hana-name.ts:20-23 | the step at position i exchanges i with its draw |
| Shuffle.ShuffleArray | lib/ai.ts:38-45 | the in-place loop over a fresh copy computes the Fisher–Yates shuffle; the input is a value and stays unchanged |
| Journalist.Pick | lib/random-choose-journalist.ts:32-33 | a draw in [0, 1) picks an element of a non-empty list |
| Journalist.GetRandomJournalist | lib/random-choose-journalist.ts:22-50 | a missing or empty list gives `佚名记者`/`魔法国度时报`; otherwise the name is a listed journalist's, whose truthy `source` is the publication, else one of `sources`, else `魔法国度时报` |
| AiProviders.ApplySwaps | lib/ai.ts:58-63 | the exchanges a comparison sort makes keep the length and the multiset of providers |
| AiProviders.WeightedRandomSelect | lib/ai.ts:50-66 | empty input gives []; the result is a permutation of the input; without any weight it is the Fisher–Yates shuffle of the input |
| AiProviders.SelectRandomModel | lib/ai.ts:71-79 | a string model is returned as is, a non-empty array yields one of its elements, an empty array fails with `无效的模型配置` |
| AiProviders.ExpandOne | lib/ai.ts:88-100 | a string-model provider stays as it is; an array-model provider becomes one provider per model |
| AiProviders.ExpandProviders | lib/ai.ts:84-105 | the push loop builds exactly the expansion of the provider list |
| AiProviders.ExpandLength | lib/ai.ts:84-105 | the expansion has one entry per string model and one per element of each model array |
| AiProviders.ExpandedAreSingle | lib/ai.ts:84-105 | every expanded provider has a single model |
| AiProviders.ExpandOneEntry | lib/ai.ts:93-99 | model i of an array becomes a provider named `${name}_model_${i+1}` with that model, weight defaulting to 1, other settings copied |
| AiProviders.Rotate | lib/ai.ts:152-156 | the rotation starts at `start`, wraps to the front, and is a permutation |
| AiProviders.Strategy | lib/ai.ts:137 | the strategy name is never empty: the request, else the configuration, else `random` |
| AiProviders.Balancer.constructor | lib/ai.ts:117 | the round-robin counter starts at 0 |
| AiProviders.Balancer.RoundRobinOrder | lib/ai.ts:150-159 | the order is the expansion rotated left by counter mod n, and the counter moves on by one |
| AiProviders.Balancer.ProvidersToTry | lib/ai.ts:142-167 | the try order is a permutation of the expansion: weighted random, round robin (the counter moves on by one) or as configured |
| AiProviders.Balancer.GenerateWithAI | lib/ai.ts:120-238 | no providers fails with `没有配置 API Key`; otherwise the order follows the strategy and the result is that of trying the providers in that order |
| AiProviders.TryInOrder | lib/ai.ts:170-237 | the nested loops give the first object any attempt returns, else the failure message naming `taskName` |
| AiProviders.FirstNeverSkipped | lib/ai.ts:173-177 | the first provider of the order is never skipped |
| AiProviders.TryProviderOutcome | lib/ai.ts:179-231 | a provider succeeds iff one of its first `retryCount` attempts does, and then returns that attempt's object |
| AiProviders.FailureNamesTask | lib/ai.ts:236-237 | the final error message starts with the task name followed by `失败: ` |
| AiProviders.FailureMessage | lib/ai.ts:237 | the error thrown after every attempt failed names the task: it starts with `<taskName>失败: ` |
| AiConfig.EnvOr | lib/config.ts:34-35 | a set, non-empty variable wins; otherwise the fallback |
| AiConfig.OrDefault | lib/config.ts:24-25 | `??` keeps any present non-null value, 0 included, and otherwise gives the fallback |
| AiConfig.WithDefaultsReads | lib/config.ts:22-26 | a kept entry reads `retryCount` 1 and `skipProbability` 0 only where they were absent; every other property reads as in the entry |
| AiConfig.FilterMap | lib/config.ts:20-26 | filtering then mapping never yields more entries than it was given |
| AiConfig.FallbackFields | lib/config.ts:33-46 | the single-key provider carries the key, the URL (default `https://api.openai.com/v1`), the model (default `gemini-2.0-flash`), type `google` iff the URL contains `googleapis.com`, and counters 1 and 0 |
| AiConfig.FilterMapFrom | lib/config.ts:20-26 | every output entry is the filled form of an input entry the filter kept |
| AiConfig.FilterMapAll | lib/config.ts:20-26 | when the filter keeps everything, the output is every entry filled, in order |
| AiConfig.KeptAreComplete | lib/config.ts:20-26 | entries lacking `apiKey`, `baseUrl`, `model` or `type` are dropped; each kept one is a complete parsed entry with defaults filled |
| AiConfig.AllCompleteKept | lib/config.ts:20-26 | when all entries are complete, all are kept in order with defaults filled |
| AiConfig.FilterMapAppend | lib/config.ts:20-26 | filtering and mapping a concatenation is the concatenation of the two results |
| AiConfig.FilterMapKeepsAt | lib/config.ts:20-26 | a kept entry appears, mapped, at the position counting the kept entries before it |
| AiConfig.CompleteEntriesKept | lib/config.ts:20-26 | in a mixed list every complete entry is kept with defaults filled, at the position counting the complete entries before it, so kept entries keep list order |
| AiConfig.FillComplete | lib/config.ts:22-26 | filling defaults keeps the four required properties |
| AiConfig.ParseAIProviders | lib/config.ts:15-50 | the provider list; `ParsedConfigWins`, `FallbackWhenNoConfig` and `ProvidersHaveModels` state which list it is and that every provider has a model |
| AiConfig.ParsedConfigWins | lib/config.ts:17-29 | a config that parses is used even when the filter drops every entry |
| AiConfig.FallbackWhenNoConfig | lib/config.ts:32-49 | without a usable config: one provider when `AI_API_KEY` is set, with the URL and model defaults and the `googleapis.com` type rule; otherwise none |
| AiConfig.GetDefaultModel | lib/config.ts:70-76 | the first provider's model, else `gemini-2.5-flash` |
| AiConfig.ProvidersHaveModels | lib/config.ts:15-50 | every provider the configuration yields has a truthy model |
| AiConfig.FallbackHasModel | lib/config.ts:33-46 | the single-key provider has a truthy model |
| AiConfig.KeptHaveModels | lib/config.ts:20-21 | every entry the filter keeps has a truthy model |
| AiConfig.GetLoadBalanceStrategy | lib/config.ts:79-81 | the variable when set and non-empty, else `random` |
| Ids.AlphabetIsAlphanumeric | lib/database/core.ts:9 | every character of the alphabet is in [A-Za-z0-9] |
| Ids.IdChar | lib/database/core.ts:12 | every draw picks an alphanumeric character |
| Ids.GenerateRandomId | lib/database/core.ts:8-15 | the loop builds 32 characters, character i being the one draw i picks, all alphanumeric |
| Ids.FallbackByte | lib/database/core.ts:26 | every fallback byte lies in [0, 255] |
| Ids.FallbackBytes | lib/database/core.ts:24-28 | the fallback fills sixteen bytes, byte i from draw i |
| Ids.VersionMask | lib/database/core.ts:35 | `(b & 0x0f) | 0x40` is the low nibble plus 0x40 on every byte |
| Ids.VariantMask | lib/database/core.ts:36 | `(b & 0x3f) | 0x80` is the low six bits plus 0x80 on every byte |
| Ids.Stamp | lib/database/core.ts:34-36 | stamping keeps sixteen bytes |
| Ids.Hex | lib/database/core.ts:39-41 | two lowercase hex digits per byte, high nibble first |
| Ids.Groups | lib/database/core.ts:43-49 | the five groups joined by `-` have 36 characters |
| Ids.GroupsAt | lib/database/core.ts:43-49 | hex digit h lands at its place in the grouped text |
| Ids.GroupsDashes | lib/database/core.ts:43-49 | the dashes sit at indices 8, 13, 18 and 23 |
| Ids.GenerateUUID | lib/database/core.ts:31-49 | stamping the byte array in place and formatting gives the UUID of the drawn bytes, 36 characters long |
| Ids.HexDigitIsHex | lib/database/core.ts:40 | every digit is a lowercase hexadecimal character |
| Ids.UuidLayout | lib/database/core.ts:38-49 | 36 characters, `-` at 8, 13, 18 and 23, lowercase hex elsewhere |
| Ids.VersionDigit | lib/database/core.ts:35 | index 14 is the version digit `4` |
| Ids.VariantDigit | lib/database/core.ts:36 | index 19 is one of `8`, `9`, `a`, `b` |
| Ids.HexDigitInjective | lib/database/core.ts:40 | different nibbles print as different digits |
| Ids.HexInjective | lib/database/core.ts:39-41 | different byte strings of one length print differently |
| Ids.GroupsInjective | lib/database/core.ts:43-49 | inserting the dashes loses nothing |
| Ids.UuidInjective | lib/database/core.ts:31-49 | two byte strings give the same UUID exactly when they agree on the 122 bits the stamp keeps |
| Tables.Where | lib/database/data-cards.ts:100-189 | exactly the rows satisfying the condition, in table order |
| Tables.WhereShrinks | lib/database/data-cards.ts:100 | selection drops a row exactly when some row fails the condition |
| Tables.WhereAll | lib/database/data-cards.ts:100 | a condition every row meets selects the whole table |
| Tables.WhereAppend | lib/database/data-cards.ts:53-100 | an appended row joins a selection exactly when it meets the condition |
| Tables.CountWhere | lib/database/data-cards.ts:10-15 | `COUNT(*)` is positive exactly when some row meets the condition, and never exceeds the table |
| Tables.InsertBy | lib/database/data-cards.ts:100-197 | one row inserted: one more row, the same rows plus it |
| Tables.SortBy | lib/database/data-cards.ts:100-197 | `ORDER BY … DESC` gives a permutation of the rows |
| Tables.InsertBySorted | lib/database/data-cards.ts:100-197 | inserting into a sorted list keeps it sorted |
| Tables.SortBySorted | lib/database/data-cards.ts:100-197 | for a total order, the result is sorted |
| Tables.Start | lib/database/data-cards.ts:197 | a page never starts past the end |
| Tables.Page | lib/database/data-cards.ts:197 | `LIMIT … OFFSET …`: a contiguous run of the rows from the offset, at most `limit` long, stopping early only at the end; a negative limit means none |
| Tables.PageSorted | lib/database/data-cards.ts:197 | a page of sorted rows is sorted |
| Tables.Paging | lib/database/data-cards.ts:197 | paging skips `offset` rows and shows the next `limit` in order; with no limit and no offset every row |
| DataCards.NameExists | lib/database/data-cards.ts:4-22 | true exactly when the query succeeds and a public card of that name and type exists; a failed or thrown query says false |
| DataCards.WithAuthor | lib/database/data-cards.ts:44-48 | `_author` and `_authorId` override the parsed data; every other property is the parsed value's own |
| DataCards.CreateRefusesDuplicate | lib/database/data-cards.ts:36-41 | a public card whose name and type a public card already has is refused with the duplicate-name error and the table is unchanged |
| DataCards.CreateAddsOneRow | lib/database/data-cards.ts:25-66 | a create succeeds exactly when no duplicate is found, the data parses and the insert succeeds; it then appends one row (fresh id, owner, visibility, author fields); otherwise the table is unchanged |
| DataCards.PrivateNotChecked | lib/database/data-cards.ts:36 | a private card is never checked against public names |
| DataCards.CreateKeepsNamesUnique | lib/database/data-cards.ts:36-41 | when the name check's query succeeds, creating keeps public names unique per type |
| DataCards.CreateFailsOpen | lib/database/data-cards.ts:18-41 | when the name check throws, a second public card with the same name and type is created |
| DataCards.CreatePlainStoresData | lib/database/data-cards.ts:69-94 | the plain create appends the row with `data` as given exactly when the insert succeeds, and returns the id; otherwise null and no change |
| DataCards.UserCardsListing | lib/database/data-cards.ts:97-112 | the user listing holds exactly that user's cards, each as often as in the table, most recently updated first |
| DataCards.UpdateOwnedOnly | lib/database/data-cards.ts:115-144 | true exactly when the owner's row exists; only that row changes: name, description and time, and the visibility only when one is given |
| DataCards.UpdateSkipsNameCheck | lib/database/data-cards.ts:115-144 | an update does not check names, so making a card public can duplicate a public name |
| DataCards.DeleteOwnedOnly | lib/database/data-cards.ts:147-162 | true exactly when the owner's row existed; only that row is removed, other users' cards stay |
| DataCards.VerifyOwnership | lib/database/data-cards.ts:165-180 | true exactly when the query succeeds and a row with that id and owner exists |
| DataCards.PageListed | lib/database/data-cards.ts:189-198 | every card on a page is public and of the requested type, if any |
| DataCards.Attach | lib/database/data-cards.ts:189 | the join gives each card with its author's name, in order |
| DataCards.PublicCardsRows | lib/database/data-cards.ts:189-204 | one row per card of the listed page, in order |
| DataCards.PublicListingRows | lib/database/data-cards.ts:183-210 | the public listing shows only public cards of the requested type, with the author's name, at most `limit` of them |
| DataCards.PublicListingOrder | lib/database/data-cards.ts:197 | the public listing is newest first |
| DataCards.Store.constructor | lib/database/data-cards.ts:1 | the table starts empty |
| DataCards.Store.CheckPublicCardNameExists | lib/database/data-cards.ts:4-22 | true exactly when the query succeeds and a public card of that name and type exists |
| DataCards.Store.CreateDataCardWithAuthor | lib/database/data-cards.ts:25-66 | the result and new table are those of the create with author |
| DataCards.Store.CreateDataCard | lib/database/data-cards.ts:69-94 | the result and new table are those of the plain create |
| DataCards.Store.GetUserDataCards | lib/database/data-cards.ts:97-112 | the rows are the user listing, all of them that user's cards |
| DataCards.Store.UpdateDataCard | lib/database/data-cards.ts:115-144 | the result and new table are those of the update |
| DataCards.Store.DeleteDataCard | lib/database/data-cards.ts:147-162 | the result and new table are those of the delete |
| DataCards.Store.VerifyCardOwnership | lib/database/data-cards.ts:165-180 | true exactly when the query succeeds and the user owns the card |
| DataCards.Store.GetPublicDataCards | lib/database/data-cards.ts:183-210 | the rows are the public listing, all of them public cards of the table |
| DataCardsApi.UserFromAuth | pages/api/data-cards.ts:13-24 | a missing, empty or non-`Bearer ` header gives no user; otherwise the key after the seven-character prefix is looked up |
| DataCardsApi.CreateReply | pages/api/data-cards.ts:85-111 | 201 with one new row owned by the user and carrying the fresh id, or 409/500 with the table unchanged |
| DataCardsApi.UnauthenticatedRejected | pages/api/data-cards.ts:28-34 | without a `Bearer ` key naming a user, every method gets 401 and nothing changes |
| DataCardsApi.OtherMethodsRejected | pages/api/data-cards.ts:187-191 | another method gets 405, but only after authentication (401 before) |
| DataCardsApi.FailuresChangeNothing | pages/api/data-cards.ts:26-193 | every answer other than 200 and 201 leaves the table unchanged |
| DataCardsApi.PostFailuresChangeNothing | pages/api/data-cards.ts:55-118 | a POST answered with anything but 201 creates nothing |
| DataCardsApi.PutFailuresChangeNothing | pages/api/data-cards.ts:120-151 | a PUT answered with anything but 200 updates nothing |
| DataCardsApi.DeleteFailuresChangeNothing | pages/api/data-cards.ts:153-185 | a DELETE answered with anything but 200 removes nothing |
| DataCardsApi.PostNeedsFields | pages/api/data-cards.ts:60-65 | a POST without a truthy `type`, `name` or `data` gets 400 and nothing changes |
| DataCardsApi.PostNeedsKnownType | pages/api/data-cards.ts:67-72 | a POST whose type is neither `character` nor `scenario` gets 400 and nothing changes |
| DataCardsApi.PostAtCapacity | pages/api/data-cards.ts:75-83 | a user who owns `capacity` cards or more gets 429 and nothing is created |
| DataCardsApi.PostKeepsCapacity | pages/api/data-cards.ts:75-93 | when the listing query succeeds, a POST never takes a user above the capacity |
| DataCardsApi.CreateFailureStatus | pages/api/data-cards.ts:95-101 | a failed create gets 409 exactly when its error mentions `同名`: the duplicate refusal is 409, other failures 500 |
| DataCardsApi.PutAndDeleteNeedOwnedCard | pages/api/data-cards.ts:125-173 | PUT and DELETE without an id get 400; a card the user does not own gets 404 |
| DataCardsApi.Handle | pages/api/data-cards.ts:26-193 | authentication first, then dispatch on the method; `UnauthenticatedRejected` (401 without a user), `OtherMethodsRejected` (405 after authentication) and `FailuresChangeNothing` (only 200 and 201 change the table) |
| DataCardsApi.HandlePost | pages/api/data-cards.ts:55-118 | `PostNeedsFields` (400 without `type`, `name` or `data`), `PostNeedsKnownType` (400 for another type), `PostAtCapacity` (429 at capacity), `PostKeepsCapacity` and `PostFailuresChangeNothing` |
| DataCardsApi.HandlePut | pages/api/data-cards.ts:120-151 | `PutAndDeleteNeedOwnedCard` (400 without an id, 404 for a card the user does not own) and `PutFailuresChangeNothing` (only a 200 updates) |
| DataCardsApi.HandleDelete | pages/api/data-cards.ts:153-185 | `PutAndDeleteNeedOwnedCard` (400 without an id, 404 for a card the user does not own) and `DeleteFailuresChangeNothing` (only a 200 removes) |
| Arena.Find | lib/database/arena.ts:9-16 | a row comes back exactly when the name is in the table, and it is a row of that name |
| Arena.GetOrCreateRow | lib/database/arena.ts:6-39 | an existing row comes back and nothing is written; a new name gets a row with zero counters and the preset flag; the table stays valid |
| Arena.Bump | lib/database/arena.ts:48-54 | one more participation, then one more win when won, else one more loss when the character took part; consistent counters stay consistent |
| Arena.UpdateStats | lib/database/arena.ts:56-58 | only the rows of that name are bumped |
| Arena.UpdateStatsValid | lib/database/arena.ts:42-65 | counter updates keep names unique and every row consistent |
| Arena.UpdateCharacterStatsResult | lib/database/arena.ts:42-65 | true exactly when a row of that name exists; other rows are untouched |
| Arena.InsertIgnore | pages/api/generate-battle-story.ts:118-121 | the name is in the table afterwards; an existing name leaves the table alone, a new one appends a fresh row |
| Arena.InsertIgnoreValid | pages/api/generate-battle-story.ts:118-121 | insert-or-ignore keeps the table valid |
| Arena.FindAppend | lib/database/arena.ts:10 | a lookup after an append finds the old row, else the appended one |
| Arena.FindInsertIgnore | pages/api/generate-battle-story.ts:118-121 | after insert-or-ignore a name reads its old row, or the new one |
| Arena.FindUpdateStats | lib/database/arena.ts:48-58 | after a counter update the named row reads bumped and every other row as before |
| Arena.Leaderboard | lib/database/arena.ts:92-107 | the leaderboard query; `LeaderboardOrder` states its rows and order |
| Arena.LeaderboardOrder | lib/database/arena.ts:92-107 | at most `limit` rows from the table, by wins then participations, both descending |
| Arena.RecentBattlesOrder | lib/database/arena.ts:110-125 | at most `limit` battles, newest first, all from the table; with a limit no smaller than the table, every battle |
| Arena.ArenaDb.constructor | lib/database/arena.ts:1 | both tables start empty |
| Arena.ArenaDb.GetOrCreateCharacter | lib/database/arena.ts:6-39 | the result and the characters table are those of get-or-create; battles unchanged |
| Arena.ArenaDb.InsertOrIgnore | pages/api/generate-battle-story.ts:118-121 | the characters table becomes its insert-or-ignore; battles unchanged |
| Arena.ArenaDb.UpdateCharacterStats | lib/database/arena.ts:42-65 | the table afterwards and the result are those of the counter update: participations always, wins iff won, losses iff lost while participating, on the named row only |
| Arena.ArenaDb.RecordBattle | lib/database/arena.ts:68-89 | on success one battle row appended and its id returned; otherwise nothing changes and null |
| Arena.ArenaDb.GetCharacterLeaderboard | lib/database/arena.ts:92-107 | the leaderboard, all rows from the table |
| Arena.ArenaDb.GetRecentBattles | lib/database/arena.ts:110-125 | the recent battles |
| BattleStory.Entries | pages/api/generate-battle-story.ts:109-114 | one entry per participant, in order, each with the name `codename \|\| name` and its preset flag |
| BattleStory.FirstUnnamed | pages/api/generate-battle-story.ts:112-121 | the participants before the result have a text name and the one at the result does not |
| BattleStory.Reached | pages/api/generate-battle-story.ts:112-146 | at most the `2n + 1` queries of the update take effect |
| BattleStory.CountedAtInsert | pages/api/generate-battle-story.ts:118-152 | a failed or nameless insert ends the update with the earlier participants counted |
| BattleStory.CountedAtCount | pages/api/generate-battle-story.ts:124-152 | a failed counter update leaves that participant inserted but not counted |
| BattleStory.CountedBeforeRow | pages/api/generate-battle-story.ts:143-146 | a failed battle insert leaves every participant counted and no battle row |
| BattleStory.CountedComplete | pages/api/generate-battle-story.ts:112-146 | when every query succeeds, every participant is counted and one battle row is appended |
| BattleStory.TakeFind | pages/api/generate-battle-story.ts:118-139 | after one participant, only its own row changes: created if missing, then given one participation and a win, a loss or neither |
| BattleStory.Tally | pages/api/generate-battle-story.ts:112-140 | the per-participant updates of the battle; `TallyCounts` and `TallyValid` state the counts and the table invariant |
| BattleStory.TallyCounts | pages/api/generate-battle-story.ts:112-140 | each name gains one participation per occurrence, and as many wins (the winner) or losses (others, unless `平局`); a row exists exactly when it existed or the name took part |
| BattleStory.TallyValid | pages/api/generate-battle-story.ts:112-140 | the characters table keeps unique names and wins plus losses within participations |
| BattleStory.BattleLogged | pages/api/generate-battle-story.ts:143-146 | the battle log gains one row, holding the winner and the names in input order, exactly when every query went through; otherwise it is unchanged |
| BattleStory.UpdateBattleStats | pages/api/generate-battle-story.ts:107-153 | the update leaves the tables valid and equal to the query-by-query outcome; an error is caught and never reaches the caller |
| BattleStory.CountParticipant | pages/api/generate-battle-story.ts:113-139 | insert-or-ignore then count for one participant; the battle log is untouched |
| BattleStory.RunQueries | pages/api/generate-battle-story.ts:112-146 | the loop of queries gives the counted tables and stops at the first failing query |
| BattleStory.Question | pages/api/generate-battle-story.ts:77 | the questionnaire's question when present and non-empty, else `问题 i+1` |
| BattleStory.QaLines | pages/api/generate-battle-story.ts:75-79 | one `Q:`/`A:` pair per answer, in answer order |
| BattleStory.RestOfProfile | pages/api/generate-battle-story.ts:67 | every own property except `userAnswers` and `isPreset` |
| BattleStory.ProfileHeader | pages/api/generate-battle-story.ts:68 | every profile opens with its own numbered header, and different positions give different headers |
| BattleStory.HeaderInjective | pages/api/generate-battle-story.ts:68 | equal headers come from equal positions |
| BattleStory.Profiles | pages/api/generate-battle-story.ts:63-83 | the profiles exist exactly when no fighter is `null`, one per fighter, in order |
| BattleStory.InstructionsDiffer | pages/api/generate-battle-story.ts:89-91 | neither closing instruction ends with the other |
| BattleStory.LevelInstructionIff | pages/api/generate-battle-story.ts:86-94 | the prompt ends with the level instruction when a non-blank level is given, and with the default instruction exactly when none is |
| BattleStory.InstructionLast | pages/api/generate-battle-story.ts:88-92 | the closing instruction alone decides how the prompt ends |
| BattleStory.PromptBuilt | pages/api/generate-battle-story.ts:62-95 | a prompt is built unless a fighter is `null` or a truthy level is not text |
| BattleStory.HandleRejects | pages/api/generate-battle-story.ts:156-172 | only POST is served (405 otherwise); exactly the POSTs whose roster is not a list of 2 to 6 get 400 |
| BattleStory.StatsOnlyWithReport | pages/api/generate-battle-story.ts:178-202 | the statistics update starts exactly when the report is returned with 200, with the report's winner and the request's 2 to 6 fighters |
| BattleStory.Handle | pages/api/generate-battle-story.ts:155-218 | only POST is served; `HandleRejects` (405, and 400 exactly for a roster that is not 2 to 6 fighters) and `StatsOnlyWithReport` (the statistics update starts exactly with a 200 report) |
| DetailsApi.AnswerError | pages/api/generate-magical-girl-details.ts:111-124 | an answer passes exactly when it is a string, non-blank after trimming and at most 30 characters; a non-string or blank answer gets the non-empty message |
| DetailsApi.FirstBadFrom | pages/api/generate-magical-girl-details.ts:111-124 | the loop stops at the first answer that fails, every earlier one passing, or at the end |
| DetailsApi.FirstAnswerErrorMeaning | pages/api/generate-magical-girl-details.ts:111-124 | the loop passes exactly when every answer is good; otherwise its message is the first bad answer's |
| DetailsApi.FirstAnswerErrorKind | pages/api/generate-magical-girl-details.ts:113-119 | a failure reports either the blank-answer or the too-long message |
| DetailsApi.QaLines | pages/api/generate-magical-girl-details.ts:80-82 | one numbered line per answer, in answer order |
| DetailsApi.QaLineNoNewline | pages/api/generate-magical-girl-details.ts:81 | an answer without a line break gives a line without one |
| DetailsApi.AnswerBlockLines | pages/api/generate-magical-girl-details.ts:80-82 | answers without line breaks come back from the joined block one line per answer, in order |
| DetailsApi.QaPrefixInjective | pages/api/generate-magical-girl-details.ts:81 | different positions never share a numbered prefix |
| DetailsApi.Texts | pages/api/generate-magical-girl-details.ts:127 | the string of each answer, one per item |
| DetailsApi.AnswersCheck | pages/api/generate-magical-girl-details.ts:103-124 | when the checks pass, `answers` is an array |
| DetailsApi.AnswersCheckMeaning | pages/api/generate-magical-girl-details.ts:103-124 | the checks pass exactly on a non-empty array of good answers, and fail with one of the three messages |
| DetailsApi.Generate | pages/api/generate-magical-girl-details.ts:126-148 | the model call answers 200 or 500 |
| DetailsApi.HandleValidation | pages/api/generate-magical-girl-details.ts:94-124 | only POST is served (405 otherwise); exactly the requests whose answers fail the checks get 400, with the check's message |
| DetailsApi.AnswersValidation | pages/api/generate-magical-girl-details.ts:103-124 | 400 exactly when the checks fail, with their message |
| DetailsApi.HandleSaves | pages/api/generate-magical-girl-details.ts:127-141 | a record is saved exactly when the reply is 200: the model's profile with the request's answers added; the write's outcome does not change the reply |
| DetailsApi.HandlePrompt | pages/api/generate-magical-girl-details.ts:79-148 | accepted answers get the model's profile for the prompt listing them in request order (200), or 500 when generation fails |
| DetailsApi.Handle | pages/api/generate-magical-girl-details.ts:91-149 | only POST is served; an unreadable or `null` body throws before the `try`; `HandleValidation` (400 exactly when the answers fail the checks), `HandleSaves` and `HandlePrompt` (200 with the model's profile, or 500) |
| UserTitle.ParsePrefix | components/UserTitle.tsx:20-43 | a parsed title comes from a non-empty string, has two valid colours and a title without `,` |
| UserTitle.SplitPieces | components/UserTitle.tsx:25 | no piece of a split holds the separator |
| UserTitle.ParsePrefixCases | components/UserTitle.tsx:20-43 | refused exactly when the prefix is missing, null, not a string or empty, does not split into three parts, or its trimmed colours do not both match `#RRGGBB`; otherwise the three trimmed parts |
| UserTitle.ColorIsTrimmed | components/UserTitle.tsx:33 | a valid colour has nothing to trim |
| UserTitle.ParseFormat | components/UserTitle.tsx:20-43 | a comma-free trimmed title with two valid colours, written as `title,#RRGGBB,#RRGGBB`, parses back to itself |
| UserTitle.TrimIdempotent | components/UserTitle.tsx:30 | trimming twice is trimming once |
| UserTitle.FormatParse | components/UserTitle.tsx:20-43 | a parsed title written back out parses to the same title |
| Presets.Middle | pages/get-presets.ts:33 | the text between `魔法少女_` and `.json`, non-empty, when the name has both around it |
| Presets.FirstParen | pages/get-presets.ts:33 | `[^(]+` reaches at most the first ASCII `(` |
| Presets.Tail | pages/get-presets.ts:33 | what follows group 1 is nothing, or `（description）` with a non-empty description free of `）` |
| Presets.GroupEnd | pages/get-presets.ts:33 | backtracking picks the longest group 1 after which the rest matches |
| Presets.Match | pages/get-presets.ts:33 | a match needs the prefix and the extension around a non-empty middle |
| Presets.ParsePreset | pages/get-presets.ts:33-42 | a parsed entry keeps the file name, ends in `.json`, has a non-empty name without `(` and a description |
| Presets.MatchGroup | pages/get-presets.ts:33 | a matching name ends in `.json`; group 1 is non-empty without `(`; group 2, when present, is non-empty |
| Presets.Presets | pages/get-presets.ts:28-44 | every entry comes from a listed `.json` file that parses to it, and there are no more entries than files |
| Presets.PresetsAppend | pages/get-presets.ts:28-44 | the list keeps directory order |
| Presets.PresetsOne | pages/get-presets.ts:29-44 | a file is listed exactly when its name ends in `.json` and matches the pattern |
| Presets.MiddleOf | pages/get-presets.ts:33 | the middle of `魔法少女_` + m + `.json` is m |
| Presets.GreedyName | pages/get-presets.ts:33-38 | a middle without ASCII `(` is taken whole as the name, full-width brackets included, with the default description |
| Presets.BracketedSearch | pages/get-presets.ts:33 | with an ASCII `(` inside the description, group 1 ends before the full-width bracket and the description is read |
| Presets.AsciiParenDescription | pages/get-presets.ts:33-40 | such a file parses to its name and description |
| Presets.GreedyNameExample | pages/get-presets.ts:33-38 | as written, `魔法少女_A（B）.json` is the preset named `A（B）` with the default description |
| Presets.FirstStop | pages/get-presets.ts:33 | with group 1 written `[^(（]+`, it reaches at most the first `(` or `（` |
| Presets.ParsePresetIntended | pages/get-presets.ts:33-42 | with the intended pattern, a parsed entry keeps the file name, ends in `.json` and has a description |
| Presets.FirstStopAfter | pages/get-presets.ts:33 | the intended group 1 stops at the first full-width bracket after a bracket-free name |
| Presets.IntendedSearch | pages/get-presets.ts:33 | with the intended pattern, group 1 is the name before `（` and the bracketed text is read as the description |
| Presets.IntendedDescription | pages/get-presets.ts:32-40 | with the intended pattern, `魔法少女_<name>（<description>）.json` yields that name and description |
| Presets.IntendedPlainName | pages/get-presets.ts:32-38 | with the intended pattern, a bracket-free name still gets the default description |
| Presets.Handle | pages/get-presets.ts:16-50 | 405 unless GET; 500 when the directory read throws; otherwise at most one entry per file |
| ScenarioEditor.FollowMissing | components/ScenarioEditor.tsx:50-52 | once a value on the path is `null` or `undefined`, `getNestedValue` gives `undefined` |
| ScenarioEditor.FollowAppend | components/ScenarioEditor.tsx:50-52 | following a dotted path in two pieces is following the whole path |
| ScenarioEditor.FollowObject | components/ScenarioEditor.tsx:51 | through an object, each key selects that property |
| ScenarioEditor.GetNestedValue | components/ScenarioEditor.tsx:50-52 | follows a dotted path; `FollowMissing` (`null` or `undefined` on the way gives `undefined`), `FollowAppend` and `FollowObject` state how each key is taken |
| ScenarioEditor.SpreadItems | components/ScenarioEditor.tsx:15-44 | arrays spread into their elements, strings into as many characters; anything else throws |
| ScenarioEditor.Put | components/ScenarioEditor.tsx:16-45 | the copy holds the value at `index`, every other position unchanged, and positions past the end as holes |
| ScenarioEditor.Without | components/ScenarioEditor.tsx:27-38 | the filter drops the element at `index`, or nothing when `index` is outside the array |
| ScenarioEditor.WithField | components/ScenarioEditor.tsx:45 | the role's own properties with `field` set to the value |
| ScenarioEditor.HandleArrayChange | components/ScenarioEditor.tsx:13-18 | the change one array edit sends; `ArrayChangeOnly` states it |
| ScenarioEditor.AddArrayItem | components/ScenarioEditor.tsx:20-23 | the change adding an item sends; `AddThenRemove` states it |
| ScenarioEditor.RemoveArrayItem | components/ScenarioEditor.tsx:25-29 | the change removing an item sends; `RemoveExactlyOne` and `AddThenRemove` state it |
| ScenarioEditor.AddRole | components/ScenarioEditor.tsx:31-34 | the change adding a role sends; `AddRoleAppends` states it |
| ScenarioEditor.RemoveRole | components/ScenarioEditor.tsx:36-40 | the change removing a role sends, through the same filter as `removeArrayItem`; `RemoveExactlyOne` states what the filter drops |
| ScenarioEditor.HandleRoleChange | components/ScenarioEditor.tsx:42-47 | the change one role edit sends; `RoleChangeOnly` states it |
| ScenarioEditor.ArrayChangeOnly | components/ScenarioEditor.tsx:13-18 | `handleArrayChange` sends the path with an array whose `index` holds the value and every other element where it was |
| ScenarioEditor.AddThenRemove | components/ScenarioEditor.tsx:20-29 | `addArrayItem` appends `''`, and removing that last element gives the array back |
| ScenarioEditor.RemoveExactlyOne | components/ScenarioEditor.tsx:25-40 | removal drops exactly the element at `index`, the others keeping their order |
| ScenarioEditor.RoleChangeOnly | components/ScenarioEditor.tsx:42-47 | `handleRoleChange` sets only the chosen field of role `index`; the role's other properties and every other role are kept |
| ScenarioEditor.AddRoleAppends | components/ScenarioEditor.tsx:31-34 | `addRole` appends one role with empty name and description and keeps the others |
| LocalStorage.CardIds | lib/localStorage.ts:20 | the set of card ids is exactly the ids the interaction entries carry; other elements contribute no string id |
| LocalStorage.Cards | lib/localStorage.ts:13-27 | no window, a missing or empty entry, text that does not parse to an array, or an array holding `null` (its `cardId` read throws) gives the empty set; otherwise the ids of the entries |
| LocalStorage.Add | lib/localStorage.ts:47-70 | one add to a card list; `AddResult`, `AddThenHas` and `NullishListHidesCards` state when it succeeds and what it stores |
| LocalStorage.AddResult | lib/localStorage.ts:47-70 | an add succeeds exactly when there is a window, the card is not yet listed, the entry is empty or a JSON array (of entries or not) and the write goes through; it then appends one entry and keeps every other element; otherwise storage is unchanged |
| LocalStorage.AddThenHas | lib/localStorage.ts:59-65 | after a successful add over a list without `null` the card reads as present, and it is the only card added |
| LocalStorage.KeysIndependent | lib/localStorage.ts:2-5 | adding to one list leaves the other list's cards as they were |
| LocalStorage.UnreadableEntry | lib/localStorage.ts:22-69 | an entry that does not parse to an array reads as no cards, and adding to it fails without a change |
| LocalStorage.NullishListHidesCards | lib/localStorage.ts:20-66 | a stored array holding `null` reads as no cards; an add over it still appends and succeeds, and the card still does not read as present |
| LocalStorage.CardStore.constructor | lib/localStorage.ts:14 | the store holds the given window flag and storage |
| LocalStorage.CardStore.GetLikedCards | lib/localStorage.ts:13-27 | the liked card ids |
| LocalStorage.CardStore.GetUsedCards | lib/localStorage.ts:30-44 | the used card ids |
| LocalStorage.CardStore.ReadCards | lib/localStorage.ts:13-44 | the card ids under the key |
| LocalStorage.CardStore.AddCard | lib/localStorage.ts:47-96 | the result and the new storage are those of an add |
| LocalStorage.CardStore.AddLikedCard | lib/localStorage.ts:47-70 | an add to the liked list |
| LocalStorage.CardStore.AddUsedCard | lib/localStorage.ts:73-96 | an add to the used list |
| LocalStorage.CardStore.IsCardLiked | lib/localStorage.ts:99-102 | true exactly when the card is among the liked ids |
| LocalStorage.CardStore.IsCardUsed | lib/localStorage.ts:105-108 | true exactly when the card is among the used ids |
| TachieApi.CalculateProgress | lib/tachie/liblib/api.ts:127-142 | the percentage is between 0 and 100, and 100 on success |
| TachieApi.ProgressMonotone | lib/tachie/liblib/api.ts:127-142 | for a fixed state, more polls never show less progress |
| TachieApi.ProgressStages | lib/tachie/liblib/api.ts:127-142 | waiting stays at or below 30, processing between 30 and 80, then generated, auditing and success strictly above; an unknown state never above 50 |
| TachieApi.FirstStop | lib/tachie/liblib/api.ts:88-116 | the first poll that ends the wait, every earlier one unfinished, or the bound when none does |
| TachieApi.FirstStopUnique | lib/tachie/liblib/api.ts:88-116 | only one position can be the first stop |
| TachieApi.WaitResult | lib/tachie/liblib/api.ts:79-119 | a returned result is a poll, within the allowed ones, whose state is success |
| TachieApi.WaitForGeneration | lib/tachie/liblib/api.ts:79-119 | the loop's outcome is the first stop's; it polls up to and including the first stop, at most the allowed number of times, and waits once per unfinished poll |
| TachieApi.WaitResultCases | lib/tachie/liblib/api.ts:92-118 | the first stop decides: success returns the data, failure and timeout throw their messages, and an unfinished last poll throws the polling-limit message |
| TachieManager.Arguments | lib/tachie/manager.ts:54-57 | a state report passes the estimate for the state (0 to 100, 100 on success) and the state's description |
| TachieManager.LogStep | lib/tachie/manager.ts:52-96 | an unfinished poll before the last adds its report and a 12-second pause |
| TachieManager.LogLast | lib/tachie/manager.ts:93-96 | the last allowed poll, unfinished, adds its report and no pause |
| TachieManager.StoppedAt | lib/tachie/manager.ts:60-91 | the first poll that ends the wait decides the run |
| TachieManager.NeverStopped | lib/tachie/manager.ts:99-111 | when none of the 30 polls ends the wait, the run fails with the polling-limit message |
| TachieManager.GenerateTachieWithProgress | lib/tachie/manager.ts:31-113 | the loop's result, progress events and poll count are those of the run definition |
| TachieManager.LogPauses | lib/tachie/manager.ts:93-96 | the first `k` unfinished polls are each followed by a pause, except the 30th |
| TachieManager.PollsAndPauses | lib/tachie/manager.ts:47-97 | at most 30 status requests, one pause between two consecutive ones and none after the last |
| TachieManager.Generation | lib/tachie/manager.ts:31-113 | the whole run of one generation; `GenerationCases`, `PollsAndPauses` and `ProgressReports` state its outcome, its polls and its reports |
| TachieManager.GenerationCases | lib/tachie/manager.ts:31-113 | success exactly when there is no error; an unsupported source fails with no report; a success with an image returns its address and seed at 100; a failure, timeout, thrown request or exhausted polling gives its message |
| TachieManager.EventsStart | lib/tachie/manager.ts:39-57 | a submitted run opens with the two reports, then the events of the unfinished polls |
| TachieManager.ProgressReports | lib/tachie/manager.ts:39-57 | the reports open with 5 and 10, and each unfinished poll `j` is reported in order with the estimate for its state after `j` polls |
| TachieManager.LogLength | lib/tachie/manager.ts:52-96 | two events per unfinished poll, the 30th without its pause |
| TachieManager.LogAt | lib/tachie/manager.ts:57-95 | poll `j`'s report is at position `2j` and its pause right after it |
| TachieTypes.StatusDescription | lib/tachie/liblib/types.ts:14-25 | a known state gets a fixed word of two to four characters; any other code `未知状态: ` and the code |
| TachieTypes.StatusCodes | lib/tachie/liblib/types.ts:4-12 | the codes run from `WAITING` = 1 to `TIMEOUT` = 7 |
| TachieTypes.StatusDescriptionInjective | lib/tachie/liblib/types.ts:14-25 | different codes get different descriptions |
| TachieUtils.BaseUrlIsHost | lib/tachie/liblib/utils.ts:4-8 | with the proxy switched off, the base address is the service host |
| TachieUtils.Digits | lib/tachie/liblib/utils.ts:36 | the Base64 digits: four per three bytes, two or three for a short tail, all in the alphabet and none `=` |
| TachieUtils.MapUrlSafe | lib/tachie/liblib/utils.ts:41-42 | each `+` becomes `-` and each `/` becomes `_`, everything else kept |
| TachieUtils.TrimPadding | lib/tachie/liblib/utils.ts:43 | every trailing `=` is dropped and nothing else |
| TachieUtils.UrlSafeBase64 | lib/tachie/liblib/utils.ts:36-43 | the signature is the digits with `+` and `/` replaced and no padding, so it holds no `+`, `/` or `=` |
| TachieUtils.Sha1SignatureLength | lib/tachie/liblib/utils.ts:23-43 | a 20-byte HMAC-SHA1 digest gives a 27-character signature |
| TachieUtils.Nonce | lib/tachie/liblib/utils.ts:14 | the nonce has 16 characters |
| TachieUtils.UrlSignature | lib/tachie/liblib/utils.ts:11-49 | nothing for an empty URL; otherwise the signature of `url&timestamp&nonce`, with that time and a 16-character nonce |
| TachieUtils.SignedUrlUnsigned | lib/tachie/liblib/utils.ts:59-67 | an empty endpoint gets `''`, `0` and `''` as signature, time and nonce |
| TachieUtils.SignedUrlSigned | lib/tachie/liblib/utils.ts:59-67 | a non-empty endpoint gets the base address, the endpoint, the access key, then a signature free of `+`, `/` and `=`, the time and a 16-character nonce |
| TachieUtils.GetSignedUrl | lib/tachie/liblib/utils.ts:59-67 | the endpoint on the service with the four query parameters; `SignedUrlSigned` and `SignedUrlUnsigned` state them for a non-empty and an empty endpoint |
| Json.Get | components/ScenarioEditor.tsx:51 | a property read finds a value exactly when the object has that name, and the value is that property's |
| Json.Set | lib/signature.ts:74 | after `obj[k] = v`, `k` reads `v` and every other name reads as before |
| Json.SetShape | lib/fieldTranslations.ts:266 | assignment to an existing name keeps every position; to a new name it appends |
| Json.SetUnique | lib/fieldTranslations.ts:266 | assignment never introduces a repeated name |
| Json.Delete | lib/signature.ts:102-104 | after `delete obj[k]`, `k` is absent, every other name reads as before and no name is added |
| Json.DeleteSet | lib/signature.ts:101-104 | deleting a property just written removes every trace of the write |
| Json.Spread | lib/signature.ts:101 | `{...v}` copies an object's properties, an array's or a string's elements, and nothing of other values |
| Json.SpreadUnique | lib/signature.ts:101 | spreading a well-formed value never yields a repeated name |
| JsText.TrimEmptyIff | pages/api/generate-magical-girl-details.ts:112 | the trimmed string is empty exactly when every character is white space |
| JsText.ToLower | lib/sensitive-word-filter.ts:269 | `toLowerCase` keeps the length and lowers each character |
| JsText.Split | components/UserTitle.tsx:25 | `split` gives at least one piece, none holding the separator |
| JsText.JoinSplit | pages/api/generate-magical-girl-details.ts:80-82 | splitting then joining with the same separator gives the string back |
| JsText.SplitJoin | pages/api/generate-magical-girl-details.ts:80-82 | splitting a join of separator-free pieces gives the pieces back |
| JsText.SplitFirst | lib/rate-limiter.ts:107 | the first piece of a split is the text before the first separator |
| JsText.NatToString | pages/api/generate-battle-story.ts:68 | a number prints as a non-empty run of decimal digits |
| JsText.NatToStringInjective | pages/api/generate-battle-story.ts:68 | different numbers print differently |
| JsText.ParseInt | lib/queue-system.ts:56 | `parseInt` gives a number exactly when digits follow the leading white space and sign |
| JsText.ParseIntOfNat | lib/queue-system.ts:56 | `parseInt` of a printed number gives it back |

## Left out

- React rendering and UI state are left out. Only the helper logic of pages/battle.tsx, pages/character-manager.tsx, components/ScenarioEditor.tsx and components/UserTitle.tsx is modelled, as functions and classes without a screen.
- Network and database plumbing are left out: `queryFromD1`, `saveToD1`, the HTTP calls to the image service, and the user lookups of lib/database/users.ts. Tables are in-memory sequences of rows, and how each query ended (succeeded, failed, threw) is an input.
- Language-model calls are left out. Their output is an input value, and so is each provider attempt's outcome in the retry loop of lib/ai.ts.
- Cryptographic primitives are parameters: HMAC-SHA-256 (RFC 2104) and its key import in lib/signature.ts, and HMAC-SHA1 in lib/tachie/liblib/utils.ts. The Base64 and URL-safe post-processing of section 5 of RFC 4648 is modelled. Whether the signing secret is configured is an input, and the caching of the imported key is not modelled.
- Timers and concurrency are left out: `sleep`, the pacing waits of `canProcessRequest` (lib/queue-system.ts:87-122), the five-minute cleanup interval (lib/queue-system.ts:361-364), the pauses between polls and `waitUntil`. Every operation takes the current time as an argument, and no two operations interleave.
- Floating point is not modelled. JSON numbers are integers in the `Json` model, so a fractional `weight` or `skipProbability` in `AI_PROVIDERS_CONFIG` (lib/config.ts) cannot be read from the configuration, although lib/ai.ts takes both as reals. The level weights of pages/name.tsx are exact reals, so the IEEE rounding of cumulative sums is not captured. `calculateWaitTime` uses exact rational arithmetic before rounding up.
- Strings are sequences of UTF-16 code units. Astral characters are not treated specially, and `toLowerCase` lowers ASCII letters only. The UTF-8 decoding in `base64Decode` is a parameter.
- Objects keep their properties in insertion order. JavaScript's rule that integer-like names come first is not modelled.
- `FieldTranslations.DisplayName`: inherited names are not modelled. The source reads `FIELD_TRANSLATIONS[fieldName]` on a plain object literal, so inherited names such as `constructor` or `toString` find a function rather than a label. The model's table holds only the listed names.
- `RateLimiting.WithRateLimit` returns the limiter's decision instead of calling the handler. In the source, a handler that throws after being admitted is caught by the fail-open `catch` (lib/rate-limiter.ts:147-151) and run a second time; that second run is not modelled. A limiter failure is modelled only as a request without headers.
- `Sublimation.SublimationReply` merges the AI payload with the corrected merge of "## Findings" (`MergePayloadIntended`), not the loop as written, and reports the corrected unchanged-field list (`FindUnchangedFieldsIntended`), not the always-empty one the source returns. `Sublimation.SublimationReplyAsWritten` shows the two replies are equal, given distinct property names, on payloads whose every property is new, an object replacing an object, or one the handler overwrites afterwards (the name, and a magical girl's `wonderlandRule` and `blooming`).
- `Sublimation.Sublimate` is proved against `SublimationReply`, so its merge loop computes the corrected merge, not the garbling one of generate-sublimation.ts:259-266.
- `Sublimation.SublimationKeepsMerged` speaks of the corrected merge; for the merge as written see `Sublimation.MergePayloadsAgree` and `Sublimation.MergePayloadGarblesStrings`.
- `Battle.Roster.ProcessJsonData` leaves the page showing the corrected message of "## Findings" (`ErrorAfterLoad`), so the `✔️` repair warning stays. As written, pages/battle.tsx:297-299 computes `ErrorAfterLoadAsWritten` from the message of the earlier render and clears that warning (`Battle.RepairWarningLostAsWritten`).
- `Battle.Roster.AddFromPaste` goes through `ProcessJsonData`, so it keeps the repair warning that pages/battle.tsx:297-299 as written clears.
- `Battle.Roster.AddParsed` goes through `ProcessJsonData`, so it keeps the repair warning that pages/battle.tsx:297-299 as written clears.
- `Battle.Roster.AddFiles` goes through `ProcessJsonData`, so it keeps the repair warning that pages/battle.tsx:297-299 as written clears.
- `CharacterManager.Editor.Edit` treats an array met along a dotted path like a value that cannot hold properties, so it reports a throw. The source sets a property on the array instead. Rendered paths only pass through plain objects unless a property name contains a dot.
- `FlowerMerge.FlowersOf` reads the first of repeated property names, where Python's `json.load` keeps the last. Parsed documents are taken to have distinct names in every object, on which the two agree.
- `DataCardsApi.Text` turns an absent `name` or `description` into the empty string and a `null` one into the text `null`, and `DataCardsApi.HandlePut` stores those. The source passes `undefined` and `null` in the JSON body of the D1 request (lib/database/core.ts:58-68), where the database binds SQL NULL; an object or array value goes to D1 as JSON. How D1 binds parameters is not modelled.
- `SensitiveFilter.MaskFor` inserts a replacement word literally. On the whole-word path, `text.replace(regex, mask_word)` (lib/sensitive-word-filter.ts:297) expands the replacement patterns `$$`, `$&`, `` $` ``, `$'` and `$1` to `$99`, so a `mask_word` containing `$` is not modelled.
- `Queueing.RequestQueue.AddToQueue` does not itself start `processQueue`; the caller runs `ProcessQueue` as a separate step. The promise each item resolves or rejects is recorded in the `settled` list.
- `Queueing.RequestQueue.ProcessQueue` runs the queue to completion. The per-minute pacing of `canProcessRequest` is not modelled, so `lastProcessTime` stays as it is and `processedCount` is never reset.
- `BattleStory.CountedAtInsert` and `BattleStory.RunQueries` assume that the database refuses the insert of a participant whose `codename || name` is not text (missing, a number, an object), so the update stops there as at a failed query. How D1 actually binds such a value is not modelled.
- `LocalStorage.CardIds` keeps only string card ids. The `undefined` or non-string ids that list elements without a string `cardId` put into the source's set are dropped; no card id the page asks about can equal them.
- `Presets.Presets` and `Presets.Handle` list the presets with the pattern as written. The corrected reading of "## Findings" is `Presets.ParsePresetIntended`, which nothing else uses.
- `Tables.SortBy` does not state that tied rows keep table order, because SQLite does not promise an order for ties either.
- `checkAndRedirect`, `quickCheck` and `createSensitiveWordFilter` (lib/sensitive-word-filter.ts:327-365) are not modelled, because they only wrap `checkText` with browser navigation.
- Pattern-type sensitive words go through a regular-expression engine, which is an input. The engine says whether a pattern compiles and how it cuts a text into matched and unmatched pieces.
- The directory listing of pages/get-presets.ts, the asset lists (flowers, journalists, questionnaire) and the environment variables are inputs.

## Findings

| source | as written | input that shows it | evidently intended | confidence | as-written member | corrected member |
|---|---|---|---|---|---|---|
| pages/api/generate-sublimation.ts:259-266 | a property the AI returns that already exists is replaced by `safeDeepMerge(old, new)`, which spreads the old value whenever either side is not a plain object | original `coreConcept: "ab"`, AI `coreConcept: "cd"`: the result is `{"0": "a", "1": "b"}` | objects merge into objects; any other AI value replaces the old one | not executed | Sublimation.MergePayloadGarblesStrings | Sublimation.MergeIntendedTakesValues, Sublimation.MergePayloadIntendedKeepsStrings |
| pages/api/generate-sublimation.ts:198-217 | a property is skipped when its content is identical, and a differing property with an empty sub-report pushes nothing, so the unchanged-field report is always empty | the original `{"a": {}}` with an identical update: the report is `[]` | a property the update left identical is reported as unchanged, as the comments at lines 201 and 211 say | not executed | Sublimation.FindUnchangedFieldsNeverReports, Sublimation.UnchangedObjectExample | Sublimation.IdenticalReportsObjects, Sublimation.IgnoresUserAnswers |
| pages/get-presets.ts:33-37 | group 1 `[^(]+` excludes only the ASCII `(`, so it runs over the full-width `（` of the documented `魔法少女_名字（描述）.json` format and the description group never matches | `魔法少女_A（B）.json` lists the preset `A（B）` with the default description `无特殊描述` | group 1 stops at `（`, giving the name `A` and the description `B`, as the comment at line 32 documents | not executed | Presets.GreedyName, Presets.GreedyNameExample | Presets.ParsePresetIntended, Presets.IntendedDescription |
| pages/battle.tsx:297-299 | after a batch loads, `error` is read from the render the handler closed over, so the `✔️` repair warning set during validation (lines 199-202) is cleared again | a character file whose `appearance` fields sit at the top level, loaded while no message is shown: it is repaired with a warning, and the page ends with no message | the repair warning stays on screen | not executed | Battle.RepairWarningLostAsWritten, Battle.LooseAppearanceWarningLost | Battle.RepairWarningShown, Battle.RepairWarningKept |
