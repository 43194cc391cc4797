# Uma Musume support-card collection, modelled in Dafny

This project models the core of a small command-line tool that manages a
collection of "Uma Musume" support cards. The model covers four commands:

- `add` puts a card into the collection. If the card is already there, its
  limit break (`lb`, 0 to 4) goes up by one.
- `enrich` joins the collection with a community tierlist. Each card gets
  the tierlist's `id` and the `score` and `tier` for its limit break.
- `recommend` builds a deck of six cards from the enriched collection. It
  can borrow one support card from the tierlist, and it also has a
  "best cards" mode.
- `visualize` renders the enriched collection as a Markdown report.

JSON records are datatypes whose fields are `Option`s. A field that is
missing, or that holds a value of the wrong JSON type, is `None`. A
tierlist's `cards` object is a sequence of (key, entry) pairs in file
order. Errors that the tool reports and then exits on become values of a
`Result` type. The modules follow the source files:

- `util.dfy`: the records and the type names (py/util.py), and the LB and rarity labels shared by the report table (py/visualize.py:48-56) and the card line (py/recommend.py:165-171).
- `text.dfy`: case mapping, numerals and joining strings.
- `sorting.dfy`: Python's stable `sort(key=score, reverse=True)` as an insertion sort, and `sorted` on ints.
- `add.dfy`: py/add.py.
- `enrich.dfy`: py/enrich.py.
- `recommend_tiers.dfy`, `recommend_scan.dfy`, `recommend_select.dfy` and `recommend_deck.dfy`: py/recommend.py.
- `visualize.dfy`: py/visualize.py.

The source's loops are methods with loop invariants, with one exception.
The two loops that build `type_counts` from the positional counts
(py/recommend.py:279-284) only copy the counts and pad them with zeros, so
`TypeCounts` writes them as one sequence expression. `FindCardIndex` is
proved against the property it promises, stated outright. Every other
loop is proved equal to a specification function, and lemmas then prove
what the source promises about those functions.

## Model

| member | source | states |
|---|---|---|
| Util.LbLabelIsMlbExactlyAtMax | py/visualize.py:48-49 | the LB label is "MLB" exactly at level 4; otherwise it is the level's numeral |
| Util.RarityLabelNamesOnlySrAndSsr | py/visualize.py:51-56 | the rarity label is "SSR" exactly for 3, "SR" exactly for 2, and the numeral otherwise |
| Text.ShowNatRoundTrip | py/add.py:22-23 | a natural number's numeral consists of digits and reads back as the same number |
| Sorting.SortIsStablePermutation | py/recommend.py:135-136 | sorting by descending score gives a permutation of the input, ordered by score, with cards of equal score kept in input order |
| Sorting.PrefixDominates | py/recommend.py:142 | in a score-sorted list, every card of a prefix scores at least as high as every card after it |
| Sorting.SortIntsIsOrderedPermutation | py/visualize.py:30 | sorting the type keys gives an ascending permutation of them |
| Add.ParseRarity | py/add.py:13-27 | Ok exactly for "R", "SR" or "SSR" in any case, or the numerals "1" to "3"; the value is always 1 to 3; anything else is an error |
| Add.ParseType | py/add.py:30-49 | Ok exactly for the six three-letter type codes in any case, or the numerals "0" to "5"; the value is always 0 to 5 and has a type name; anything else is an error |
| Add.ParseRarityIgnoresCase | py/add.py:15-23 | upper- and lower-casing the argument does not change the parse |
| Add.ParseTypeIgnoresCase | py/add.py:32-45 | upper- and lower-casing the argument does not change the parse |
| Add.RaritySpellingsParse | py/add.py:16-23 | each rarity 1 to 3 is reached both by its name and by its numeral |
| Add.TypeSpellingsParse | py/add.py:33-45 | each type 0 to 5 is reached both by its code and by its numeral |
| Add.FindCardIndex | py/add.py:52-63 | returns -1 exactly when no card has that name, type and rarity; otherwise returns the first index that matches |
| Add.Collection.AddCard | py/add.py:66-98 | a card matching at lb 4 or above leaves the collection unchanged; a matching card below 4 has its lb raised by one and nothing else changes; with no match a new card with lb 0 is appended; a collection whose levels are 0 to 4 and whose keys are distinct stays that way |
| Enrich.IndexIsFirstWins | py/enrich.py:57-86 | the index holds exactly the keys of entries with a valid name, type and rarity; each key maps to the first such entry in file order |
| Enrich.BuildTierlistIndex | py/enrich.py:50-86 | a MissingCards error exactly when the tierlist has no `cards` object; otherwise the first-wins index |
| Enrich.EnrichOne | py/enrich.py:97-169 | a card without a valid key passes through unchanged; a card with a key missing from the index is dropped; a matched card takes the entry's id when the entry has one; score and tier are set exactly when lb is an int in range of both lists, and otherwise kept; no other field changes |
| Enrich.EnrichedKeepsOrder | py/enrich.py:95-171 | enriching a concatenation gives the enriched parts, concatenated, so kept cards stay in input order |
| Enrich.EnrichedIsFilteredMap | py/enrich.py:95-171 | every output card is the enrichment of some input card; the enrichment of every input card that is kept appears in the output; the output is never longer than the input |
| Enrich.EnrichIsIdempotent | py/enrich.py:89-171 | enriching an already enriched collection with the same index changes nothing |
| Enrich.EnrichCards | py/enrich.py:89-171 | the loop's output is exactly the enriched collection |
| Enrich.CorruptOutputEndsRun | py/enrich.py:239-254 | without --force, an existing output file that is not valid JSON ends the command as written; the intended check goes on to enrich |
| Enrich.ReuseIntendedSkipsOnlyUnchanged | py/enrich.py:239-254 | the intended check never ends the run; it skips exactly when not forced and both recorded hashes match the current inputs; on readable files it agrees with the code as written |
| Enrich.RunEnrich | py/enrich.py:233-280 | with the corrected skip check (`ReuseIntended`, see Findings): skips exactly when the output is up to date; fails with NotAList or MissingCards exactly when the input or the tierlist is malformed; otherwise writes the enriched cards with both hashes, and that output is then itself up to date |
| RecommendTiers.TierValue | py/recommend.py:24-28 | a tier's value lies between 0 and the number of tiers |
| RecommendTiers.TierValueIsPositiveExactlyOnKnownTiers | py/recommend.py:21-28 | a tier is worth more than 0 exactly when it is one of the thirteen listed tiers; None and "" are worth 0 |
| RecommendTiers.TierValuesFollowOrder | py/recommend.py:20-21 | the tier at position i of the order is worth 13 - i, so values strictly decrease from "S+" to "F" |
| RecommendTiers.CardLineHasOnePartPerGivenField | py/recommend.py:147-176 | a card line has the name-and-type part and the score part, then one part for each of tier (when not empty), LB, rarity and the support mark that is present, in that order; the LB and rarity parts read "LB: " and "Rarity: " followed by their labels |
| RecommendTiers.CardLineStartsWithNameAndScore | py/recommend.py:158-176 | the joined card line starts with the name, the type name in parentheses, " \| " and the score part |
| RecommendTiers.BorrowedCardLineEndsWithMark | py/recommend.py:173-176 | the line of the borrowed card ends with the support mark |
| RecommendTiers.BareCardLine | py/recommend.py:158-176 | with no tier, LB or rarity and not borrowed, the line is exactly the name, the type and the score joined by " \| " |
| RecommendTiers.CardLineShowsMlbExactlyAtMax | py/recommend.py:165-167 | a card line shows "LB: MLB" exactly when the card's lb is 4 |
| RecommendTiers.CardLineNamesRarity | py/recommend.py:169-171 | a card line shows "Rarity: SSR" exactly for rarity 3 and "Rarity: SR" exactly for rarity 2 |
| RecommendScan.MaxOf | py/recommend.py:78 | the result is an element of the list and no element exceeds it |
| RecommendScan.Eligible | py/recommend.py:54-82 | an entry is a candidate exactly when its id is not one of the collection's max-limit-break ids, it has non-empty scores and tiers, and its type is an int other than -1; the candidate's score is the maximum score and its tier the last tier |
| RecommendScan.PositionOfType | py/recommend.py:85 | finds the one kept candidate of a type, or reports that there is none |
| RecommendScan.ScanKeepsBestPerType | py/recommend.py:49-92 | the scan keeps at most one candidate per type; each ranks strictly above every earlier entry of its type by tier value and then maximum score, and no entry of its type ranks above it; every type with a candidate is covered; no kept id is at max limit break in the collection |
| RecommendScan.BestCardsByType | py/recommend.py:31-92 | a MissingCards error exactly when the tierlist has no `cards`; otherwise the scan's result |
| RecommendScan.BestIndex | py/recommend.py:102 | the index of the first candidate that no other candidate ranks above, by tier value and then maximum score |
| RecommendScan.FindBestCardInTierlist | py/recommend.py:95-102 | an error exactly when there is no `cards` object or no candidate; otherwise the first best candidate |
| RecommendScan.BestOverallRanksFirst | py/recommend.py:95-102 | the overall best is one of the kept candidates, and no eligible entry of the tierlist beats it |
| RecommendSelect.GroupByType | py/recommend.py:121-132 | each type's list holds the collection's cards of that type, except the excluded id, in collection order |
| RecommendSelect.SortGroups | py/recommend.py:134-136 | each list is replaced by its stable descending-score sort, and the set of keys is unchanged |
| RecommendSelect.SelectBestCardsByType | py/recommend.py:105-144 | the selection is the first `count` cards of each type's sorted list, type by type (a negative count slices as Python does) |
| RecommendSelect.GroupIsFilter | py/recommend.py:122-132 | a card is in a type's list exactly when it is in the collection, has that type and is not the excluded id |
| RecommendSelect.SelectionOnlyEligible | py/recommend.py:122-144 | every selected card is in the collection, has one of the six types and is not the excluded id |
| RecommendSelect.SelectionPerType | py/recommend.py:134-144 | the selected cards of each counted type are exactly that type's chunk, a prefix of its sorted list; a type that is not counted contributes none |
| RecommendSelect.SelectionLength | py/recommend.py:139-144 | the selection's length is the sum of the slice sizes, and it is at most the sum of the counts when no count is negative |
| RecommendSelect.SelectionIsBounded | py/recommend.py:121-144 | with non-negative counts the selection has at most as many cards as the counts total |
| RecommendSelect.SelectionIsFromCollection | py/recommend.py:121-142 | the selection is a sub-multiset of the collection: no card is picked more often than the collection holds it |
| RecommendDeck.TypeCounts | py/recommend.py:270-294 | more than six positional counts is an error; otherwise six counts: the positional counts padded with zeros, or, when none is given, the named counts in the order speed, stamina, power, guts, wit, friend, with 0 for those missing |
| RecommendDeck.ParseCountsAsWritten | py/recommend.py:270-308 | Ok exactly when the counts parse and total neither 0 nor more than six, and then holds those counts; otherwise the error for too many positional counts, for a total of 0 (`NoCardsRequested`) or for a total above six (`TooManyCards` with that total) |
| RecommendDeck.ParseCounts | py/recommend.py:270-308 | accepts exactly the counts accepted as written that are non-negative, which are six counts whose total is 1 to 6; a negative count gives `NegativeCount`; every other input gives the same result as written |
| RecommendDeck.RemainingIsFilter | py/recommend.py:377-380 | the remaining cards are exactly the collection's scored cards whose id is not taken |
| RecommendDeck.BackfillTakesBestRemaining | py/recommend.py:371-385 | the top-up adds the wanted number of cards, or every remaining card if there are fewer; they are a prefix of the score-sorted remaining cards, and no card left out scores higher than one added |
| RecommendDeck.SimCountsBounded | py/recommend.py:331-334 | taking one slot from the borrowed card's type keeps the counts non-negative, never raises the total, and lowers it by one when that type had a slot |
| RecommendDeck.TryBorrow | py/recommend.py:329-350 | builds the trial deck and its score and tier totals for one borrow candidate |
| RecommendDeck.TopUp | py/recommend.py:339-346 | when the selection and the borrowed card leave a slot free, the remaining free slots are filled from the collection's remaining cards, skipping the selected ids and the borrowed id; otherwise the selection is unchanged |
| RecommendDeck.ChooseSupport | py/recommend.py:318-358 | the loop's choice is the search over all candidates' trials, in which a trial replaces the best so far only with a strictly higher tier total, or an equal tier total and a strictly higher score total |
| RecommendDeck.BestIsFirstMaximum | py/recommend.py:353-357 | the chosen trial is not beaten by any trial and beats every trial before it |
| RecommendDeck.SearchPicksFirstBest | py/recommend.py:318-357 | the search returns the trial of the first candidate whose trial no other beats |
| RecommendDeck.SupportIsBestBorrow | py/recommend.py:318-385 | a card is borrowed exactly when borrowing is allowed, a slot is free and some candidate exists; a borrowed card is a kept candidate and is not at max limit break in the collection, and the deck is its trial deck; with no borrow the deck is the collection-only deck |
| RecommendDeck.TrialDeckExcludesBorrow | py/recommend.py:337-346 | a trial deck never contains a collection card with the borrowed card's id |
| RecommendDeck.DeckHasAtMostSix | py/recommend.py:318-385 | with valid counts the deck, including a borrowed card, never has more than six cards |
| RecommendDeck.DeckIsFromCollection | py/recommend.py:318-385 | every recommended deck, with or without a borrow, is a sub-multiset of the collection |
| RecommendDeck.DeckRepeatsNoId | py/recommend.py:337-385 | when no two collection cards share an id, no two deck cards share one, and no deck card has the borrowed card's id |
| RecommendDeck.NegativeCountOverfillsDeck | py/recommend.py:296-308 | the counts "7 -1" pass validation as written, and with seven speed cards the deck has more than six cards; the intended validation refuses them |
| RecommendDeck.RunRecommend | py/recommend.py:264-385 | with the corrected validation (`ParseCounts`, see Findings): the validation's error, or the recommendation for the validated counts |
| RecommendDeck.RunBestCards | py/recommend.py:443-470 | the borrowed card is the tierlist's best candidate unless borrowing is off or impossible; the deck is the best-cards pick |
| RecommendDeck.BestCardsAreTopScorers | py/recommend.py:452-470 | the best-cards deck fills its five or six slots with as many scored cards as there are, excluding the borrowed id; they are sorted by score, and no card left out scores higher than one taken |
| RecommendDeck.BestCardsRepeatNoId | py/recommend.py:461-470 | the best-cards deck is a sub-multiset of the collection and, when no two collection cards share an id, no two of its cards do |
| Visualize.GroupByType | py/visualize.py:18-24 | each type's list holds that type's cards in input order; the keys are exactly the types present, in the order first seen |
| Visualize.AppendRows | py/visualize.py:41-60 | appends one table row per card, in order |
| Visualize.AppendSections | py/visualize.py:30-60 | appends the sections of the given types, in order |
| Visualize.GenerateMarkdown | py/visualize.py:15-88 | the report is the model's report lines joined with newlines |
| Visualize.TypeGroupCounts | py/visualize.py:18-24 | a type's list holds each input card of that type as often as the input does, and no other card |
| Visualize.TypeOrderFacts | py/visualize.py:18-24 | the keys are distinct, and they are exactly the types that some card has |
| Visualize.SectionTypesAscendAndCover | py/visualize.py:30 | the sections come in strictly ascending type order, with one for every type some card has and none for any other |
| Visualize.SectionIsStableSortOfType | py/visualize.py:32-35 | a section lists the input cards of its type by descending score, each as often as the input does, with cards of equal score in input order |
| Visualize.EveryTypedCardInItsSection | py/visualize.py:18-41 | across all sections, each card with a type appears exactly as often as in the input, and a card without a type never appears |
| Visualize.RowsAreCardRows | py/visualize.py:41-60 | row k of a table is the row of card k |
| Visualize.MarkdownLayout | py/visualize.py:27-88 | the report starts with the title; then three lines per section plus one row per sectioned card; then the all-cards heading and one row per input card in stable descending-score order |
| Visualize.CellsFollowFormat | py/visualize.py:42-56 | the LB cell is "MLB" exactly at level 4 (a missing lb counts as 0); the rarity cell is "SSR" for 3 and "SR" for 2; a missing tier reads "?" and a missing name "Unknown"; rows have five cells, or six with the type column |

## Left out

- File and console I/O are not modelled. This covers load_json, save_json, load_enriched_cards, `sys.exit`, printed messages and warnings, and argparse with its main dispatch. The commands are methods over values, and an error that would be printed is an `Error` value.
- `add`'s run (py/add.py:137-154) reads and writes the collection file, which makes it I/O. Its check that the file holds a JSON array is not modelled either.
- File hashes (SHA-256 of the input files) are opaque strings, because hashing is outside the model.
- The emoji before "SUPPORT CARD" in a card line is left out, because it is only decoration.
- The console report of `recommend` is not modelled: the printed card lines, per-type counts and totals. The model stops at the `Recommendation` value. `CombinedScore` gives the total that is printed.
- Python's dynamic typing is not modelled in full. A JSON field of the wrong type is `None`, so a boolean never counts as an int. A `null` field is treated as a missing one, which differs from the source in these places:
  - a null `lb` raises TypeError in `add`; the model uses 0;
  - a null tier prints as "None" in a report; the model uses "?";
  - a null score cannot be compared when sorting; the model sorts it as 0;
  - a tierlist entry holding `"id": null` overwrites the card's id with null in `enrich` (py/enrich.py:132-133); `EnrichOne` keeps the card's old id;
  - in the markdown report a null name, lb or rarity prints as "None" (py/visualize.py:42-46, py/visualize.py:71-77); the model prints "Unknown", "0" and "0";
  - in the all-cards table a null type prints as "Type None" (py/visualize.py:74-75); the model prints "Type -1";
  - a tierlist entry that is not an object (`"123": null`, say) makes `enrich` stop with an AttributeError (py/enrich.py:59-62); the model reads such an entry as a card with no fields, and it skips that card, as the scan of `recommend` does (py/recommend.py:55-56).
- Non-int card ids are not modelled: an id is `Option<int>`, so only ints enter the set of max-limit-break ids.
- Type keys of mixed kinds are not modelled: they are ints, so `sorted` on them never fails.
- Case mapping and `str.isdigit` are ASCII only, because Unicode case tables are outside the model.
- recommend's generic `except Exception` handlers are partly modelled. The model covers a missing or malformed tierlist `cards` object and the absence of any candidate. Other unexpected exceptions are not modelled.
- Dicts are modelled as sequences. The tierlist's `cards` object is a sequence of pairs in file order, so JSON's unique keys are not required. `cards_by_type` is a map together with its key order.
- Python mutates the group lists in place when it sorts them. The model sorts values, so the fact that the caller's card list keeps its order holds by construction and has no lemma of its own.
- DeckRepeatsNoId: assumes that no two collection cards share an id, because nothing in the source enforces it. A collection that lists one id on two cards can give a deck holding both. DeckIsFromCollection needs no such assumption.
- py/fetch.py (downloading the tierlist) is not part of this model.

## Findings

| source | as written | input that shows it | evidently intended | confidence | as-written member | corrected member |
|---|---|---|---|---|---|---|
| py/recommend.py:296-308 | only the total of the counts is checked (not 0, at most 6), so negative counts pass; a negative count then slices `[:-1]` off the end of a type's sorted list (py/recommend.py:142) | `recommend 7 -1` with at least seven speed cards that carry an `id` (with no borrow, py/recommend.py:127 drops id-less cards): the total is 6, seven speed cards plus all but one stamina card are selected, and the deck has more than six cards | reject any negative count, so that a deck never exceeds six cards | not executed | RecommendDeck.NegativeCountOverfillsDeck | RecommendDeck.ParseCounts |
| py/enrich.py:239-254 | the skip check reads the existing output with load_json, which calls `sys.exit` on invalid JSON (py/util.py:91-93); SystemExit is not an Exception, so the handler meant to ignore an unreadable file never runs | an output file holding invalid JSON, run without --force: the command exits with status 1 instead of enriching | an unreadable output file is ignored and enrichment proceeds | not executed | Enrich.CorruptOutputEndsRun | Enrich.ReuseIntendedSkipsOnlyUnchanged |

Both corrections are used by the rest of the model. `RunRecommend` validates with `ParseCounts`, and `DeckHasAtMostSix` proves the six-card bound under it. `RunEnrich` decides with `ReuseIntended`.
