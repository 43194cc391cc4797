/**
 * The `enrich` command (py/enrich.py): index the tierlist by the composite
 * key (name, type, rarity), then give each of the user's cards the entry's
 * `id` and the `score` and `tier` found at the card's limit-break level.
 */
module Enrich {
  import opened Util

  /** CardKey: the composite lookup key. */
  datatype CardKey = CardKey(name: string, cardType: int, rarity: int)

  /** The key of a tierlist entry, when its name is a string and its type and rarity are ints. */
  function RefKey(e: RefCard): Option<CardKey> {
    if e.name.Some? && e.cardType.Some? && e.rarity.Some?
    then Some(CardKey(e.name.value, e.cardType.value, e.rarity.value))
    else None
  }

  /** The key of a user card, under the same conditions. */
  function KeyOf(c: Card): Option<CardKey> {
    if c.name.Some? && c.cardType.Some? && c.rarity.Some?
    then Some(CardKey(c.name.value, c.cardType.value, c.rarity.value))
    else None
  }

  type Index = map<CardKey, RefCard>

  /**
   * The index build_tierlist_index produces from the entries, in file order:
   * an entry without a key is skipped, and a key already present keeps its
   * first entry.
   */
  function IndexOf(entries: seq<(string, RefCard)>): Index {
    if |entries| == 0 then map[]
    else
      var index := IndexOf(entries[..|entries| - 1]);
      var e := entries[|entries| - 1].1;
      match RefKey(e)
      case None => index
      case Some(k) => if k in index then index else index[k := e]
  }

  /** Entry `i` is the first entry with key `k`. */
  ghost predicate FirstWithKey(entries: seq<(string, RefCard)>, i: int, k: CardKey) {
    0 <= i < |entries| && RefKey(entries[i].1) == Some(k) &&
    forall j :: 0 <= j < i ==> RefKey(entries[j].1) != Some(k)
  }

  /**
   * The index maps exactly the keys of well-formed entries, each to the
   * FIRST entry with that key, and every indexed entry carries its own key.
   */
  lemma IndexIsFirstWins(entries: seq<(string, RefCard)>)
    ensures forall k :: k in IndexOf(entries) ==> RefKey(IndexOf(entries)[k]) == Some(k)
    ensures forall k :: k in IndexOf(entries) ==>
              exists i :: FirstWithKey(entries, i, k) && IndexOf(entries)[k] == entries[i].1
    ensures forall i, k :: FirstWithKey(entries, i, k) ==> k in IndexOf(entries) && IndexOf(entries)[k] == entries[i].1
    ensures forall j :: 0 <= j < |entries| && RefKey(entries[j].1).Some? ==> RefKey(entries[j].1).value in IndexOf(entries)
  {
    IndexKeysAreOwn(entries);
    IndexedEntryIsFirst(entries);
    FirstEntryIsIndexed(entries);
  }

  lemma {:induction false} IndexKeysAreOwn(entries: seq<(string, RefCard)>)
    ensures forall k :: k in IndexOf(entries) ==> RefKey(IndexOf(entries)[k]) == Some(k)
    ensures forall j :: 0 <= j < |entries| && RefKey(entries[j].1).Some? ==> RefKey(entries[j].1).value in IndexOf(entries)
  {
    if |entries| > 0 {
      var n := |entries| - 1;
      var prefix := entries[..n];
      IndexKeysAreOwn(prefix);
      assert forall j :: 0 <= j < n ==> prefix[j] == entries[j];
    }
  }

  lemma {:induction false} IndexedEntryIsFirst(entries: seq<(string, RefCard)>)
    ensures forall k :: k in IndexOf(entries) ==>
              exists i :: FirstWithKey(entries, i, k) && IndexOf(entries)[k] == entries[i].1
  {
    if |entries| > 0 {
      var n := |entries| - 1;
      var prefix := entries[..n];
      IndexedEntryIsFirst(prefix);
      IndexKeysAreOwn(prefix);
      forall k | k in IndexOf(entries)
        ensures exists i :: FirstWithKey(entries, i, k) && IndexOf(entries)[k] == entries[i].1
      {
        if k in IndexOf(prefix) {
          var i :| FirstWithKey(prefix, i, k) && IndexOf(prefix)[k] == prefix[i].1;
          assert FirstWithKey(entries, i, k);
        } else {
          forall j | 0 <= j < n
            ensures RefKey(entries[j].1) != Some(k)
          {
            assert prefix[j] == entries[j];
          }
          assert FirstWithKey(entries, n, k);
        }
      }
    }
  }

  lemma {:induction false} FirstEntryIsIndexed(entries: seq<(string, RefCard)>)
    ensures forall i, k :: FirstWithKey(entries, i, k) ==> k in IndexOf(entries) && IndexOf(entries)[k] == entries[i].1
  {
    if |entries| > 0 {
      var n := |entries| - 1;
      var prefix := entries[..n];
      FirstEntryIsIndexed(prefix);
      forall i, k | FirstWithKey(entries, i, k)
        ensures k in IndexOf(entries) && IndexOf(entries)[k] == entries[i].1
      {
        if i < n {
          assert FirstWithKey(prefix, i, k);
        } else {
          forall j | 0 <= j < n
            ensures RefKey(prefix[j].1) != Some(k)
          {
            assert prefix[j] == entries[j];
          }
          assert k !in IndexOf(prefix) by {
            IndexedEntryIsFirst(prefix);
          }
        }
      }
    }
  }

  /**
   * build_tierlist_index: fails when the tierlist has no `cards` object;
   * otherwise the first-wins index of its entries.
   */
  method BuildTierlistIndex(tierlist: Tierlist) returns (r: Result<Index>)
    ensures r.Err? <==> tierlist.cards.None?
    ensures r.Err? ==> r.error == MissingCards
    ensures r.Ok? ==> r.value == IndexOf(tierlist.cards.value)
  {
    if tierlist.cards.None? {
      return Err(MissingCards);
    }
    var entries := tierlist.cards.value;
    var index: Index := map[];
    for i := 0 to |entries|
      invariant index == IndexOf(entries[..i])
    {
      assert entries[..i + 1][..i] == entries[..i];
      var e := entries[i].1;
      if e.name.None? || e.cardType.None? || e.rarity.None? {
        continue;
      }
      var key := CardKey(e.name.value, e.cardType.value, e.rarity.value);
      if key in index {
        continue;
      }
      index := index[key := e];
    }
    assert entries[..|entries|] == entries;
    return Ok(index);
  }

  /**
   * The level `lb` indexes both of the entry's lists: it is an int and in
   * range of `scores` and of `tiers`.
   */
  predicate LevelApplies(c: Card, e: RefCard) {
    c.lb.Some? && e.scores.Some? && e.tiers.Some? &&
    0 <= c.lb.value < |e.scores.value| && c.lb.value < |e.tiers.value|
  }

  /**
   * What enrich_cards makes of one card: `None` when it is dropped. A card
   * without a valid key passes through unchanged; a valid key without a
   * match drops the card; a match sets `id` from the entry when it has one
   * and sets `score` and `tier` exactly when the level applies; no other
   * field changes.
   */
  function EnrichOne(c: Card, index: Index): (r: Option<Card>)
    ensures KeyOf(c).None? ==> r == Some(c)
    ensures KeyOf(c).Some? ==> (r.None? <==> KeyOf(c).value !in index)
    ensures r.Some? ==> r.value.(id := c.id, score := c.score, tier := c.tier) == c
    ensures r.Some? && KeyOf(c).Some? ==>
              var e := index[KeyOf(c).value];
              && r.value.id == (if e.id.Some? then e.id else c.id)
              && (LevelApplies(c, e) ==>
                    r.value.score == Some(e.scores.value[c.lb.value]) &&
                    r.value.tier == Some(e.tiers.value[c.lb.value]))
              && (!LevelApplies(c, e) ==> r.value.score == c.score && r.value.tier == c.tier)
  {
    match KeyOf(c)
    case None => Some(c)
    case Some(k) =>
      if k !in index then None
      else
        var e := index[k];
        var out := if e.id.Some? then c.(id := e.id) else c;
        if LevelApplies(c, e)
        then Some(out.(score := Some(e.scores.value[c.lb.value]), tier := Some(e.tiers.value[c.lb.value])))
        else Some(out)
  }

  function AsSeq(o: Option<Card>): seq<Card> {
    if o.Some? then [o.value] else []
  }

  /** enrich_cards on a whole list: each card's outcome, in input order. */
  function Enriched(cards: seq<Card>, index: Index): seq<Card> {
    if |cards| == 0 then []
    else Enriched(cards[..|cards| - 1], index) + AsSeq(EnrichOne(cards[|cards| - 1], index))
  }

  /**
   * Enriching a concatenation enriches each part in place: the output keeps
   * the input's order, card by card.
   */
  lemma {:induction false} EnrichedKeepsOrder(a: seq<Card>, b: seq<Card>, index: Index)
    ensures Enriched(a + b, index) == Enriched(a, index) + Enriched(b, index)
    decreases |b|
  {
    if |b| > 0 {
      var n := |b| - 1;
      assert (a + b)[..|a + b| - 1] == a + b[..n];
      assert (a + b)[|a + b| - 1] == b[n];
      EnrichedKeepsOrder(a, b[..n], index);
    } else {
      assert a + b == a;
    }
  }

  /**
   * The output is no longer than the input, every output card is the
   * outcome of an input card, and every kept outcome is in the output.
   */
  lemma {:induction false} EnrichedIsFilteredMap(cards: seq<Card>, index: Index)
    ensures |Enriched(cards, index)| <= |cards|
    ensures forall o :: o in Enriched(cards, index) ==> exists c :: c in cards && EnrichOne(c, index) == Some(o)
    ensures forall c :: c in cards && EnrichOne(c, index).Some? ==> EnrichOne(c, index).value in Enriched(cards, index)
  {
    if |cards| > 0 {
      var n := |cards| - 1;
      EnrichedIsFilteredMap(cards[..n], index);
      assert cards == cards[..n] + [cards[n]];
      forall o | o in Enriched(cards, index)
        ensures exists c :: c in cards && EnrichOne(c, index) == Some(o)
      {
        if o in Enriched(cards[..n], index) {
          var c :| c in cards[..n] && EnrichOne(c, index) == Some(o);
          assert c in cards;
        } else {
          assert EnrichOne(cards[n], index) == Some(o);
        }
      }
    }
  }

  /** A card that enrichment kept is enriched again to itself. */
  lemma EnrichOneIsIdempotent(c: Card, index: Index)
    requires EnrichOne(c, index).Some?
    ensures EnrichOne(EnrichOne(c, index).value, index) == EnrichOne(c, index)
  {
  }

  /** Enriching an enriched list with the same index changes nothing. */
  lemma {:induction false} EnrichIsIdempotent(cards: seq<Card>, index: Index)
    ensures Enriched(Enriched(cards, index), index) == Enriched(cards, index)
  {
    if |cards| > 0 {
      var n := |cards| - 1;
      EnrichIsIdempotent(cards[..n], index);
      var tail := AsSeq(EnrichOne(cards[n], index));
      EnrichedKeepsOrder(Enriched(cards[..n], index), tail, index);
      if EnrichOne(cards[n], index).Some? {
        EnrichOneIsIdempotent(cards[n], index);
        assert Enriched(tail, index) == Enriched([], index) + AsSeq(EnrichOne(tail[0], index));
      }
    }
  }

  /**
   * enrich_cards: a fresh list built card by card; the input list and its
   * records are values here, so they cannot be changed.
   */
  method EnrichCards(cards: seq<Card>, index: Index) returns (enriched: seq<Card>)
    ensures enriched == Enriched(cards, index)
  {
    enriched := [];
    for i := 0 to |cards|
      invariant enriched == Enriched(cards[..i], index)
    {
      assert cards[..i + 1][..i] == cards[..i];
      var card := cards[i];
      var out := card;
      if card.name.None? || card.cardType.None? || card.rarity.None? {
        enriched := enriched + [out];
        continue;
      }
      var key := CardKey(card.name.value, card.cardType.value, card.rarity.value);
      if key !in index {
        continue;
      }
      var entry := index[key];
      if entry.id.Some? {
        out := out.(id := entry.id);
      }
      if card.lb.None? {
        enriched := enriched + [out];
        continue;
      }
      var lb := card.lb.value;
      if entry.scores.None? || entry.tiers.None? {
        enriched := enriched + [out];
        continue;
      }
      var scores, tiers := entry.scores.value, entry.tiers.value;
      if !(0 <= lb < |scores|) || !(0 <= lb < |tiers|) {
        enriched := enriched + [out];
        continue;
      }
      out := out.(score := Some(scores[lb]), tier := Some(tiers[lb]));
      enriched := enriched + [out];
    }
    assert cards[..|cards|] == cards;
  }

  /** The `metadata` object of an existing output file. */
  datatype Metadata = Metadata(inputHash: Option<string>, tierlistHash: Option<string>)

  /**
   * An existing output file: not valid JSON, or parsed, with its metadata
   * when it has a `metadata` object.
   */
  datatype ExistingOutput = Unparsable | Parsed(metadata: Option<Metadata>)

  /** The output file the command writes. */
  datatype EnrichedData = EnrichedData(inputHash: string, tierlistHash: string, cards: seq<Card>)

  /** What the command does with an existing output file before enriching. */
  datatype Reuse = Skip | Proceed | Exit

  /**
   * The skip-if-unchanged check AS WRITTEN: an output file that is not
   * valid JSON makes load_json end the process, because the SystemExit it
   * raises is not an Exception and escapes the handler meant to proceed.
   */
  function ReuseAsWritten(force: bool, existing: Option<ExistingOutput>, inputHash: string, tierlistHash: string): Reuse {
    if force || existing.None? then Proceed
    else match existing.value
      case Unparsable => Exit
      case Parsed(m) =>
        if m.Some? && m.value.inputHash == Some(inputHash) && m.value.tierlistHash == Some(tierlistHash)
        then Skip else Proceed
  }

  /** The stated intent: a file that cannot be read is ignored. */
  function ReuseIntended(force: bool, existing: Option<ExistingOutput>, inputHash: string, tierlistHash: string): Reuse {
    if force || existing.None? then Proceed
    else match existing.value
      case Unparsable => Proceed
      case Parsed(m) =>
        if m.Some? && m.value.inputHash == Some(inputHash) && m.value.tierlistHash == Some(tierlistHash)
        then Skip else Proceed
  }

  /** A corrupt output file, without --force, stops the command instead of being rebuilt. */
  lemma CorruptOutputEndsRun()
    ensures ReuseAsWritten(false, Some(Unparsable), "", "") == Exit
    ensures ReuseIntended(false, Some(Unparsable), "", "") == Proceed
  {
  }

  /**
   * The intended check never ends the run, skips exactly when not forced
   * and the recorded hashes of both inputs are the current ones, and agrees
   * with the code as written on every readable file.
   */
  lemma ReuseIntendedSkipsOnlyUnchanged(force: bool, existing: Option<ExistingOutput>, inputHash: string, tierlistHash: string)
    ensures ReuseIntended(force, existing, inputHash, tierlistHash) != Exit
    ensures ReuseIntended(force, existing, inputHash, tierlistHash) == Skip <==>
              !force && existing == Some(Parsed(Some(Metadata(Some(inputHash), Some(tierlistHash)))))
    ensures existing != Some(Unparsable) ==>
              ReuseIntended(force, existing, inputHash, tierlistHash) == ReuseAsWritten(force, existing, inputHash, tierlistHash)
  {
  }

  datatype RunOutcome = UpToDate | Wrote(data: EnrichedData) | Failed(error: Error)

  /**
   * The computational part of enrich's run: the skip check (with file
   * hashes as opaque strings), then the index and the join. `input` is
   * `None` when the input file is not a JSON array.
   */
  method RunEnrich(force: bool, existing: Option<ExistingOutput>, inputHash: string, tierlistHash: string,
                   input: Option<seq<Card>>, tierlist: Tierlist)
    returns (r: RunOutcome)
    ensures r == UpToDate <==> ReuseIntended(force, existing, inputHash, tierlistHash) == Skip
    ensures r.Failed? <==> r != UpToDate && (input.None? || tierlist.cards.None?)
    ensures r.Failed? ==> r.error == (if input.None? then NotAList else MissingCards)
    ensures r.Wrote? ==>
              r.data == EnrichedData(inputHash, tierlistHash, Enriched(input.value, IndexOf(tierlist.cards.value)))
    ensures r.Wrote? ==>
              ReuseIntended(false, Some(Parsed(Some(Metadata(Some(r.data.inputHash), Some(r.data.tierlistHash))))),
                            inputHash, tierlistHash) == Skip
  {
    if ReuseIntended(force, existing, inputHash, tierlistHash) == Skip {
      return UpToDate;
    }
    if input.None? {
      return Failed(NotAList);
    }
    var index := BuildTierlistIndex(tierlist);
    if index.Err? {
      return Failed(index.error);
    }
    var cards := EnrichCards(input.value, index.value);
    return Wrote(EnrichedData(inputHash, tierlistHash, cards));
  }
}
