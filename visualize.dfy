/**
 * The `visualize` command's report (py/visualize.py, generate_markdown):
 * one table per card type, in ascending type order and by descending
 * score within a type, then one table of all cards by descending score.
 */
module Visualize {
  import opened Util
  import opened Text
  import opened Sorting

  const Title: string := "# Uma Musume Card Collection"
  const SectionHeader: string := "| Tier | Score | Name | LB | Rarity |"
  const SectionRule: string := "|------|-------|------|----:|-------:|"
  const AllHeading: string := "\n## All Cards (by Score)\n"
  const AllHeader: string := "| Tier | Score | Name | Type | LB | Rarity |"
  const AllRule: string := "|------|-------|------|------|----:|-------:|"

  /** A section's title: the type's name, or "Unknown Type <t>". */
  function SectionName(t: int): string {
    match TypeName(t)
    case Some(n) => n
    case None => "Unknown Type " + Show(t)
  }

  function Heading(t: int): string {
    "\n## " + SectionName(t) + "\n"
  }

  /** The cells of a row: tier defaults to "?", name to "Unknown", lb and rarity to 0, type to -1. */
  function TierCell(c: Card): string { c.tier.GetOr("?") }
  function NameCell(c: Card): string { c.name.GetOr("Unknown") }
  function LbCell(c: Card): string { LbLabel(c.lb.GetOr(0)) }
  function RarityCell(c: Card): string { RarityLabel(c.rarity.GetOr(0)) }
  function TypeCell(c: Card): string { TypeLabel(c.cardType.GetOr(-1)) }

  /** The cells of a card's row; the all-cards table has a type column after the name. */
  function Cells(c: Card, withType: bool): seq<string> {
    [TierCell(c), Show(ScoreOf(c)), NameCell(c)]
    + (if withType then [TypeCell(c)] else [])
    + [LbCell(c), RarityCell(c)]
  }

  /** A Markdown table row. */
  function CardRow(c: Card, withType: bool): string {
    "| " + Join(Cells(c, withType), " | ") + " |"
  }

  function Rows(cs: seq<Card>, withType: bool): seq<string> {
    if |cs| == 0 then [] else Rows(cs[..|cs| - 1], withType) + [CardRow(cs[|cs| - 1], withType)]
  }

  /** cards_by_type[t] before sorting: the cards of type t, in input order. */
  function TypeGroup(cards: seq<Card>, t: int): seq<Card> {
    if |cards| == 0 then []
    else
      var last := cards[|cards| - 1];
      TypeGroup(cards[..|cards| - 1], t) + (if last.cardType == Some(t) then [last] else [])
  }

  /** The keys of cards_by_type, in the order the dictionary first saw them. */
  function TypeOrder(cards: seq<Card>): seq<int> {
    if |cards| == 0 then []
    else
      var prev := TypeOrder(cards[..|cards| - 1]);
      var last := cards[|cards| - 1];
      prev + (if last.cardType.Some? && last.cardType.value !in prev then [last.cardType.value] else [])
  }

  /** sorted(cards_by_type.keys()) */
  function SectionTypes(cards: seq<Card>): seq<int> {
    SortInts(TypeOrder(cards))
  }

  /** The section of type t: heading, table header and one row per card of the type by descending score. */
  function SectionBlock(t: int, cards: seq<Card>): seq<string> {
    [Heading(t), SectionHeader, SectionRule] + Rows(SortByScoreDesc(TypeGroup(cards, t)), false)
  }

  /** The lines of the sections of the given types. */
  function SectionLines(keys: seq<int>, cards: seq<Card>): seq<string> {
    if |keys| == 0 then []
    else SectionLines(keys[..|keys| - 1], cards) + SectionBlock(keys[|keys| - 1], cards)
  }

  /** The cards the sections of the given types list, in order. */
  function SectionCards(keys: seq<int>, cards: seq<Card>): seq<Card> {
    if |keys| == 0 then []
    else SectionCards(keys[..|keys| - 1], cards) + SortByScoreDesc(TypeGroup(cards, keys[|keys| - 1]))
  }

  /** Every line of the report, before they are joined with newlines. */
  function MarkdownLines(cards: seq<Card>): seq<string> {
    [Title] + SectionLines(SectionTypes(cards), cards)
    + [AllHeading, AllHeader, AllRule] + Rows(SortByScoreDesc(cards), true)
  }

  /** `cards_by_type` after the grouping loop has seen `cards`. */
  ghost predicate GroupedByType(groups: map<int, seq<Card>>, cards: seq<Card>) {
    forall t :: Lookup(groups, t) == TypeGroup(cards, t)
  }

  /** Filing one more card appends it to its type's list and changes no other. */
  lemma GroupStep(groups: map<int, seq<Card>>, cards: seq<Card>, card: Card)
    requires GroupedByType(groups, cards)
    ensures card.cardType.None? ==> GroupedByType(groups, cards + [card])
    ensures card.cardType.Some? ==>
      var t := card.cardType.value;
      GroupedByType(groups[t := Lookup(groups, t) + [card]], cards + [card])
  {
    var next := cards + [card];
    assert next[..|next| - 1] == cards;
    forall u
      ensures TypeGroup(next, u) == TypeGroup(cards, u) + (if card.cardType == Some(u) then [card] else [])
    {
    }
  }

  /**
   * The grouping loop of generate_markdown: file each typed card under its
   * type, and list the types in the order the dictionary first saw them.
   */
  method GroupByType(cards: seq<Card>) returns (groups: map<int, seq<Card>>, order: seq<int>)
    ensures GroupedByType(groups, cards)
    ensures order == TypeOrder(cards)
    ensures forall t :: t in groups <==> t in order
  {
    groups := map[];
    order := [];
    for i := 0 to |cards|
      invariant GroupedByType(groups, cards[..i])
      invariant order == TypeOrder(cards[..i])
      invariant forall t :: t in groups <==> t in order
    {
      var card := cards[i];
      assert cards[..i + 1] == cards[..i] + [card];
      assert (cards[..i] + [card])[..i] == cards[..i];
      GroupStep(groups, cards[..i], card);
      if card.cardType.Some? {
        var t := card.cardType.value;
        if t !in groups {
          order := order + [t];
        }
        groups := groups[t := Lookup(groups, t) + [card]];
      }
    }
    assert cards[..|cards|] == cards;
  }

  lemma ConcatAssoc(a: seq<string>, b: seq<string>, c: seq<string>)
    ensures (a + b) + c == a + (b + c)
  {
  }

  /** The row loops of generate_markdown: append one row per card, in order. */
  method AppendRows(lines: seq<string>, cs: seq<Card>, withType: bool) returns (out: seq<string>)
    ensures out == lines + Rows(cs, withType)
  {
    out := lines;
    for j := 0 to |cs|
      invariant out == lines + Rows(cs[..j], withType)
    {
      assert cs[..j + 1][..j] == cs[..j];
      out := out + [CardRow(cs[j], withType)];
    }
    assert cs[..|cs|] == cs;
  }

  /** The section loop of generate_markdown: one section per key, in the keys' order. */
  method AppendSections(lines: seq<string>, groups: map<int, seq<Card>>, keys: seq<int>, cards: seq<Card>)
    returns (out: seq<string>)
    requires GroupedByType(groups, cards)
    requires forall t :: t in keys ==> t in groups
    ensures out == lines + SectionLines(keys, cards)
  {
    out := lines;
    assert keys[..0] == [];
    for i := 0 to |keys|
      invariant out == lines + SectionLines(keys[..i], cards)
    {
      var t := keys[i];
      assert Lookup(groups, t) == TypeGroup(cards, t);
      var typeCards := SortByScoreDesc(groups[t]);
      ghost var prev := out;
      out := out + [Heading(t), SectionHeader, SectionRule];
      out := AppendRows(out, typeCards, false);
      NextSection(lines, prev, keys, i, cards);
    }
    assert keys[..|keys|] == keys;
  }

  /** Appending the next key's section extends the sections by that key. */
  lemma NextSection(lines: seq<string>, prev: seq<string>, keys: seq<int>, i: int, cards: seq<Card>)
    requires 0 <= i < |keys| && prev == lines + SectionLines(keys[..i], cards)
    ensures prev + [Heading(keys[i]), SectionHeader, SectionRule] + Rows(SortByScoreDesc(TypeGroup(cards, keys[i])), false)
            == lines + SectionLines(keys[..i + 1], cards)
  {
    var next := keys[..i + 1];
    assert next[..i] == keys[..i] && next[i] == keys[i];
    assert SectionLines(next, cards) == SectionLines(keys[..i], cards) + SectionBlock(keys[i], cards);
    ConcatAssoc(lines, SectionLines(keys[..i], cards), SectionBlock(keys[i], cards));
  }

  /**
   * generate_markdown: group the typed cards, emit one section per type in
   * ascending order with its cards by descending score, then the table of
   * all cards by descending score, and join the lines with newlines.
   */
  method GenerateMarkdown(cards: seq<Card>) returns (markdown: string)
    ensures markdown == Join(MarkdownLines(cards), "\n")
  {
    var groups, order := GroupByType(cards);
    var keys := SortInts(order);
    SortIntsIsOrderedPermutation(order);
    forall t | t in keys
      ensures t in groups
    {
      assert t in multiset(keys);
    }
    var lines := AppendSections([Title], groups, keys, cards);
    var allSorted := SortByScoreDesc(cards);
    lines := lines + [AllHeading, AllHeader, AllRule];
    lines := AppendRows(lines, allSorted, true);
    markdown := Join(lines, "\n");
  }

  /** A type's list holds each input card of that type as often as the input does, and no other card. */
  lemma {:induction false} TypeGroupCounts(cards: seq<Card>, t: int)
    ensures forall c :: multiset(TypeGroup(cards, t))[c] == if c.cardType == Some(t) then multiset(cards)[c] else 0
  {
    if |cards| > 0 {
      TypeGroupCounts(cards[..|cards| - 1], t);
      assert cards == cards[..|cards| - 1] + [cards[|cards| - 1]];
    }
  }

  /** The key order lists each type once, exactly the types some card has. */
  lemma {:induction false} TypeOrderFacts(cards: seq<Card>)
    ensures Distinct(TypeOrder(cards))
    ensures forall t :: t in TypeOrder(cards) <==> |TypeGroup(cards, t)| > 0
  {
    if |cards| > 0 {
      TypeOrderFacts(cards[..|cards| - 1]);
    }
  }

  /** Sorting distinct keys gives strictly ascending keys. */
  lemma SortedDistinctAscends(order: seq<int>)
    requires Distinct(order)
    ensures var keys := SortInts(order);
      forall i, j :: 0 <= i < j < |keys| ==> keys[i] < keys[j]
  {
    var keys := SortInts(order);
    SortIntsIsOrderedPermutation(order);
    forall i, j | 0 <= i < j < |keys|
      ensures keys[i] < keys[j]
    {
      CountOfRepeated(keys, i, j);
      CountOfDistinct(order, keys[i]);
    }
  }

  /**
   * The sections come in strictly ascending type order, one for every type
   * some card has and none for a type no card has.
   */
  lemma SectionTypesAscendAndCover(cards: seq<Card>)
    ensures var keys := SectionTypes(cards);
      && (forall i, j :: 0 <= i < j < |keys| ==> keys[i] < keys[j])
      && (forall c :: c in cards && c.cardType.Some? ==> c.cardType.value in keys)
      && (forall t :: t in keys ==> |TypeGroup(cards, t)| > 0)
  {
    var order := TypeOrder(cards);
    var keys := SectionTypes(cards);
    TypeOrderFacts(cards);
    SortIntsIsOrderedPermutation(order);
    SortedDistinctAscends(order);
    forall c | c in cards && c.cardType.Some?
      ensures c.cardType.value in keys
    {
      TypeGroupCounts(cards, c.cardType.value);
      assert c in TypeGroup(cards, c.cardType.value);
      assert c.cardType.value in multiset(order);
    }
    forall t | t in keys
      ensures |TypeGroup(cards, t)| > 0
    {
      assert t in multiset(keys);
    }
  }

  /**
   * A type's section lists the input cards of that type, each as often as
   * the input does, by descending score, with cards of equal score in input
   * order.
   */
  lemma SectionIsStableSortOfType(cards: seq<Card>, t: int)
    ensures var s := SortByScoreDesc(TypeGroup(cards, t));
      && SortedByScoreDesc(s)
      && (forall c :: multiset(s)[c] == if c.cardType == Some(t) then multiset(cards)[c] else 0)
      && (forall k :: WithScore(s, k) == WithScore(TypeGroup(cards, t), k))
  {
    SortIsStablePermutation(TypeGroup(cards, t));
    TypeGroupCounts(cards, t);
  }

  lemma {:induction false} SectionCardsCounts(keys: seq<int>, cards: seq<Card>)
    requires Distinct(keys)
    ensures forall c :: multiset(SectionCards(keys, cards))[c] ==
              if c.cardType.Some? && c.cardType.value in keys then multiset(cards)[c] else 0
  {
    if |keys| > 0 {
      var n := |keys| - 1;
      var t := keys[n];
      var s := SortByScoreDesc(TypeGroup(cards, t));
      SectionCardsCounts(keys[..n], cards);
      SortIsPermutation(TypeGroup(cards, t));
      TypeGroupCounts(cards, t);
      assert keys == keys[..n] + [t];
      assert t !in keys[..n];
      forall c
        ensures multiset(SectionCards(keys, cards))[c] ==
                if c.cardType.Some? && c.cardType.value in keys then multiset(cards)[c] else 0
      {
        assert multiset(SectionCards(keys, cards))[c] == multiset(SectionCards(keys[..n], cards))[c] + multiset(s)[c];
      }
    }
  }

  /**
   * Across all sections, every card with a type appears exactly as often as
   * in the input, and a card without a type never does.
   */
  lemma EveryTypedCardInItsSection(cards: seq<Card>)
    ensures forall c :: multiset(SectionCards(SectionTypes(cards), cards))[c] ==
              if c.cardType.Some? then multiset(cards)[c] else 0
  {
    var keys := SectionTypes(cards);
    SectionTypesAscendAndCover(cards);
    SectionCardsCounts(keys, cards);
  }

  lemma {:induction false} RowsAreCardRows(cs: seq<Card>, withType: bool)
    ensures |Rows(cs, withType)| == |cs|
    ensures forall k :: 0 <= k < |cs| ==> Rows(cs, withType)[k] == CardRow(cs[k], withType)
  {
    if |cs| > 0 {
      RowsAreCardRows(cs[..|cs| - 1], withType);
    }
  }

  lemma {:induction false} SectionLinesLength(keys: seq<int>, cards: seq<Card>)
    ensures |SectionLines(keys, cards)| == 3 * |keys| + |SectionCards(keys, cards)|
  {
    if |keys| > 0 {
      var g := TypeGroup(cards, keys[|keys| - 1]);
      SectionLinesLength(keys[..|keys| - 1], cards);
      RowsAreCardRows(SortByScoreDesc(g), false);
    }
  }

  /**
   * The report starts with the title, has three lines per section plus one
   * row per sectioned card, and ends with the all-cards heading and one row
   * per input card in stable descending-score order.
   */
  lemma MarkdownLayout(cards: seq<Card>)
    ensures var lines := MarkdownLines(cards);
            var keys := SectionTypes(cards);
            var start := |lines| - |cards|;
      && |SortByScoreDesc(cards)| == |cards|
      && lines[0] == Title
      && |lines| == 4 + 3 * |keys| + |SectionCards(keys, cards)| + |cards|
      && lines[start - 3..start] == [AllHeading, AllHeader, AllRule]
      && (forall k :: 0 <= k < |cards| ==> lines[start + k] == CardRow(SortByScoreDesc(cards)[k], true))
  {
    var sorted := SortByScoreDesc(cards);
    SortIsStablePermutation(cards);
    RowsAreCardRows(sorted, true);
    SectionLinesLength(SectionTypes(cards), cards);
  }

  /**
   * The LB cell reads "MLB" exactly at level 4 (a missing level is 0),
   * the rarity cell "SSR" exactly for 3 and "SR" exactly for 2, a missing
   * tier reads "?" and a missing name "Unknown".
   */
  lemma CellsFollowFormat(c: Card, withType: bool)
    ensures LbCell(c) == "MLB" <==> c.lb.GetOr(0) == 4
    ensures c.lb.GetOr(0) != 4 ==> LbCell(c) == Show(c.lb.GetOr(0))
    ensures RarityCell(c) == "SSR" <==> c.rarity.GetOr(0) == 3
    ensures RarityCell(c) == "SR" <==> c.rarity.GetOr(0) == 2
    ensures c.tier.None? ==> TierCell(c) == "?"
    ensures c.name.None? ==> NameCell(c) == "Unknown"
    ensures var cells := Cells(c, withType);
      |cells| == (if withType then 6 else 5) && cells[|cells| - 2] == LbCell(c) && cells[|cells| - 1] == RarityCell(c)
  {
    LbLabelIsMlbExactlyAtMax(c.lb.GetOr(0));
    RarityLabelNamesOnlySrAndSsr(c.rarity.GetOr(0));
  }
}
