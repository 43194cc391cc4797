/**
 * The ranking and the card line of the `recommend` command
 * (py/recommend.py): the ordinal value of a tier string, and how one card
 * of a recommended deck is printed.
 */
module RecommendTiers {
  import opened Util
  import opened Text

  /** TIER_ORDER, best first. */
  const TierOrder: seq<string> := ["S+", "S", "A+", "A", "B+", "B", "C+", "C", "D+", "D", "E+", "E", "F"]

  /**
   * TIER_VALUE written out: the tier at position i of TIER_ORDER is worth
   * 13 - i, anything else nothing (TierValuesFollowOrder ties the two).
   */
  function TierValueOf(t: string): int {
    if t == "S+" then 13 else if t == "S" then 12 else if t == "A+" then 11 else if t == "A" then 10
    else if t == "B+" then 9 else if t == "B" then 8 else if t == "C+" then 7 else if t == "C" then 6
    else if t == "D+" then 5 else if t == "D" then 4 else if t == "E+" then 3 else if t == "E" then 2
    else if t == "F" then 1 else 0
  }

  /** get_tier_value: None and "" are worth 0, as is a string TIER_VALUE lacks. */
  function TierValue(tier: Option<string>): (v: int)
    ensures 0 <= v <= |TierOrder|
  {
    if tier.None? then 0 else TierValueOf(tier.value)
  }

  lemma TierOrderIsDistinct()
    ensures forall i, j :: 0 <= i < j < |TierOrder| ==> TierOrder[i] != TierOrder[j]
    ensures "" !in TierOrder
  {
  }

  /** Only the tiers of TIER_ORDER are worth anything: None, "" and unknown strings give 0. */
  lemma TierValueIsPositiveExactlyOnKnownTiers(tier: Option<string>)
    ensures TierValue(tier) > 0 <==> tier.Some? && tier.value in TierOrder
    ensures tier.None? || tier == Some("") ==> TierValue(tier) == 0
  {
    TierOrderIsDistinct();
  }

  /**
   * "S+" is worth 13 and "F" 1, each tier one more than the next, so the
   * values strictly decrease along TIER_ORDER.
   */
  lemma TierValuesFollowOrder()
    ensures forall i :: 0 <= i < |TierOrder| ==> TierValue(Some(TierOrder[i])) == 13 - i
    ensures forall i, j :: 0 <= i < j < |TierOrder| ==> TierValue(Some(TierOrder[i])) > TierValue(Some(TierOrder[j]))
  {
    forall i | 0 <= i < |TierOrder|
      ensures TierValue(Some(TierOrder[i])) == 13 - i
    {
      TierValueAt(i);
    }
  }

  lemma TierValueAt(i: int)
    requires 0 <= i < |TierOrder|
    ensures TierValue(Some(TierOrder[i])) == 13 - i
  {
  }

  /** The part that marks the borrowed card (the source prefixes an emoji, not modelled). */
  const SupportMarker: string := "SUPPORT CARD"

  /** The parts of a card line, before they are joined. */
  function DisplayParts(name: string, cardType: int, score: int, tier: Option<string>,
                        lb: Option<int>, rarity: Option<int>, isBorrowed: bool): seq<string>
  {
    [name + " (" + TypeLabel(cardType) + ")", "Score: " + Show(score)]
    + (if tier.Some? && tier.value != "" then ["Tier: " + tier.value] else [])
    + (if lb.Some? then ["LB: " + LbLabel(lb.value)] else [])
    + (if rarity.Some? then ["Rarity: " + RarityLabel(rarity.value)] else [])
    + (if isBorrowed then [SupportMarker] else [])
  }

  /** format_card_display: the parts joined with " | ". */
  function FormatCardDisplay(name: string, cardType: int, score: int, tier: Option<string>,
                             lb: Option<int>, rarity: Option<int>, isBorrowed: bool): string
  {
    Join(DisplayParts(name, cardType, score, tier, lb, rarity, isBorrowed), " | ")
  }

  /** A card line starts with the name, the type and the score. */
  lemma CardLineStartsWithNameAndScore(name: string, cardType: int, score: int, tier: Option<string>,
                                       lb: Option<int>, rarity: Option<int>, isBorrowed: bool)
    ensures var line := FormatCardDisplay(name, cardType, score, tier, lb, rarity, isBorrowed);
            var head := name + " (" + TypeLabel(cardType) + ") | Score: " + Show(score);
      |head| <= |line| && line[..|head|] == head
  {
    var parts := DisplayParts(name, cardType, score, tier, lb, rarity, isBorrowed);
    DisplayPartsBegin(name, cardType, score, tier, lb, rarity, isBorrowed);
    JoinStartsWithFirstTwo(parts, " | ");
    NameAndScoreSpelledOut(name, TypeLabel(cardType), Show(score));
  }

  lemma DisplayPartsBegin(name: string, cardType: int, score: int, tier: Option<string>,
                          lb: Option<int>, rarity: Option<int>, isBorrowed: bool)
    ensures var parts := DisplayParts(name, cardType, score, tier, lb, rarity, isBorrowed);
      |parts| >= 2 && parts[0] == name + " (" + TypeLabel(cardType) + ")" && parts[1] == "Score: " + Show(score)
  {
  }

  lemma NameAndScoreSpelledOut(name: string, typeName: string, score: string)
    ensures (name + " (" + typeName + ")") + " | " + ("Score: " + score) == name + " (" + typeName + ") | Score: " + score
  {
    assert ")" + " | " + "Score: " == ") | Score: ";
  }

  /** The line of the borrowed card ends with the support mark. */
  lemma BorrowedCardLineEndsWithMark(name: string, cardType: int, score: int, tier: Option<string>,
                                     lb: Option<int>, rarity: Option<int>)
    ensures var line := FormatCardDisplay(name, cardType, score, tier, lb, rarity, true);
      |SupportMarker| <= |line| && line[|line| - |SupportMarker|..] == SupportMarker
  {
    var parts := DisplayParts(name, cardType, score, tier, lb, rarity, true);
    assert parts[|parts| - 1] == SupportMarker;
    JoinEndsWithLast(parts, " | ");
  }

  /** With no tier, LB or rarity, and not borrowed, the line is just name, type and score. */
  lemma BareCardLine(name: string, cardType: int, score: int)
    ensures FormatCardDisplay(name, cardType, score, None, None, None, false) ==
            name + " (" + TypeLabel(cardType) + ") | Score: " + Show(score)
  {
    var parts := DisplayParts(name, cardType, score, None, None, None, false);
    assert parts == [name + " (" + TypeLabel(cardType) + ")", "Score: " + Show(score)];
    JoinFirstTwo(parts, " | ");
  }

  function Count(b: bool): nat {
    if b then 1 else 0
  }

  /**
   * A card line has the name part and the score part, then one part for
   * each of tier (when non-empty), LB, rarity and the support mark that is
   * given, in that order, and nothing for those that are not.
   */
  lemma CardLineHasOnePartPerGivenField(name: string, cardType: int, score: int, tier: Option<string>,
                                        lb: Option<int>, rarity: Option<int>, isBorrowed: bool)
    ensures var parts := DisplayParts(name, cardType, score, tier, lb, rarity, isBorrowed);
      && |parts| == 2 + Count(tier.Some? && tier.value != "") + Count(lb.Some?) + Count(rarity.Some?) + Count(isBorrowed)
      && parts[0] == name + " (" + TypeLabel(cardType) + ")"
      && parts[1] == "Score: " + Show(score)
      && (tier.Some? && tier.value != "" ==> parts[2] == "Tier: " + tier.value)
      && (lb.Some? ==> parts[2 + Count(tier.Some? && tier.value != "")] == "LB: " + LbLabel(lb.value))
      && (rarity.Some? ==>
            parts[2 + Count(tier.Some? && tier.value != "") + Count(lb.Some?)] == "Rarity: " + RarityLabel(rarity.value))
      && (isBorrowed ==> parts[|parts| - 1] == SupportMarker)
  {
  }

  /** Of all the parts, only the LB part can read exactly `cell`. */
  lemma OnlyLbPartReads(cell: string, name: string, cardType: int, score: int, tier: Option<string>,
                        lb: Option<int>, rarity: Option<int>, isBorrowed: bool)
    requires |cell| >= 2 && cell[..2] == "LB" && cell[|cell| - 1] != ')'
    ensures cell in DisplayParts(name, cardType, score, tier, lb, rarity, isBorrowed) <==>
            lb.Some? && cell == "LB: " + LbLabel(lb.value)
  {
    var first := name + " (" + TypeLabel(cardType) + ")";
    assert first[|first| - 1] == ')';
    StartsWith("Score: ", Show(score));
    assert "Score: "[..2] == "Sc";
    if tier.Some? {
      StartsWith("Tier: ", tier.value);
      assert "Tier: "[..2] == "Ti";
    }
    if rarity.Some? {
      StartsWith("Rarity: ", RarityLabel(rarity.value));
      assert "Rarity: "[..2] == "Ra";
    }
    assert SupportMarker[..2] == "SU";
  }

  /** Of all the parts, only the rarity part can read exactly `cell`. */
  lemma OnlyRarityPartReads(cell: string, name: string, cardType: int, score: int, tier: Option<string>,
                            lb: Option<int>, rarity: Option<int>, isBorrowed: bool)
    requires |cell| >= 2 && cell[..2] == "Ra" && cell[|cell| - 1] != ')'
    ensures cell in DisplayParts(name, cardType, score, tier, lb, rarity, isBorrowed) <==>
            rarity.Some? && cell == "Rarity: " + RarityLabel(rarity.value)
  {
    var first := name + " (" + TypeLabel(cardType) + ")";
    assert first[|first| - 1] == ')';
    StartsWith("Score: ", Show(score));
    assert "Score: "[..2] == "Sc";
    if tier.Some? {
      StartsWith("Tier: ", tier.value);
      assert "Tier: "[..2] == "Ti";
    }
    if lb.Some? {
      StartsWith("LB: ", LbLabel(lb.value));
      assert "LB: "[..2] == "LB";
    }
    assert SupportMarker[..2] == "SU";
  }

  /** A card line says "LB: MLB" exactly when the card is at limit break 4. */
  lemma CardLineShowsMlbExactlyAtMax(name: string, cardType: int, score: int, tier: Option<string>,
                                     lb: Option<int>, rarity: Option<int>, isBorrowed: bool)
    ensures "LB: MLB" in DisplayParts(name, cardType, score, tier, lb, rarity, isBorrowed) <==> lb == Some(4)
  {
    OnlyLbPartReads("LB: MLB", name, cardType, score, tier, lb, rarity, isBorrowed);
    if lb.Some? {
      LbLabelIsMlbExactlyAtMax(lb.value);
      if "LB: MLB" == "LB: " + LbLabel(lb.value) {
        assert LbLabel(lb.value) == ("LB: " + LbLabel(lb.value))[4..];
      }
    }
  }

  /** A card line names the rarity "SSR" exactly for 3 and "SR" exactly for 2. */
  lemma CardLineNamesRarity(name: string, cardType: int, score: int, tier: Option<string>,
                            lb: Option<int>, rarity: Option<int>, isBorrowed: bool)
    ensures "Rarity: SSR" in DisplayParts(name, cardType, score, tier, lb, rarity, isBorrowed) <==> rarity == Some(3)
    ensures "Rarity: SR" in DisplayParts(name, cardType, score, tier, lb, rarity, isBorrowed) <==> rarity == Some(2)
  {
    OnlyRarityPartReads("Rarity: SSR", name, cardType, score, tier, lb, rarity, isBorrowed);
    OnlyRarityPartReads("Rarity: SR", name, cardType, score, tier, lb, rarity, isBorrowed);
    if rarity.Some? {
      RarityLabelNamesOnlySrAndSsr(rarity.value);
      var cell := "Rarity: " + RarityLabel(rarity.value);
      if cell == "Rarity: SSR" || cell == "Rarity: SR" {
        assert RarityLabel(rarity.value) == cell[8..];
      }
    }
  }

  lemma StartsWith(a: string, b: string)
    requires |a| >= 2
    ensures (a + b)[..2] == a[..2]
  {
  }
}
