/**
 * The `add` command (py/add.py): parse a card's type and rarity from the
 * command line, then add the card to the collection or raise its
 * limit-break level by one, saturating at 4.
 */
module Add {
  import opened Util
  import opened Text

  /** The three rarity names, R = 1, SR = 2, SSR = 3. */
  function RarityName(rarity: int): string
    requires 1 <= rarity <= 3
  {
    ["R", "SR", "SSR"][rarity - 1]
  }

  /** The six type codes, spd = 0 … fri = 5. */
  function TypeCode(t: int): string
    requires 0 <= t <= 5
  {
    ["spd", "sta", "pow", "gut", "wit", "fri"][t]
  }

  /**
   * parse_rarity: a rarity name in any letter case, or one of the numerals
   * "1", "2", "3"; anything else is an error.
   */
  function ParseRarity(value: string): (r: Result<int>)
    ensures r.Ok? ==> 1 <= r.value <= 3
    ensures r.Ok? <==>
              Upper(value) in {"R", "SR", "SSR"} || value in {"1", "2", "3"}
  {
    var upper := Upper(value);
    if upper == "R" then Ok(1)
    else if upper == "SR" then Ok(2)
    else if upper == "SSR" then Ok(3)
    else if value in ["1", "2", "3"] then Ok(DigitsValue(value))
    else Err(InvalidRarity)
  }

  /**
   * parse_type: a type code in any letter case, or one of the numerals
   * "0" … "5"; anything else is an error. Every type parsed has a name.
   */
  function ParseType(value: string): (r: Result<int>)
    ensures r.Ok? ==> 0 <= r.value <= 5 && TypeName(r.value).Some?
    ensures r.Ok? <==>
              Lower(value) in {"spd", "sta", "pow", "gut", "wit", "fri"} ||
              value in {"0", "1", "2", "3", "4", "5"}
  {
    var lower := Lower(value);
    if lower == "spd" then Ok(0)
    else if lower == "sta" then Ok(1)
    else if lower == "pow" then Ok(2)
    else if lower == "gut" then Ok(3)
    else if lower == "wit" then Ok(4)
    else if lower == "fri" then Ok(5)
    else if value in ["0", "1", "2", "3", "4", "5"] then Ok(DigitsValue(value))
    else Err(InvalidType)
  }

  lemma UpperOfUpper(s: string)
    ensures Upper(Upper(s)) == Upper(s) && Upper(Lower(s)) == Upper(s)
  {
  }

  lemma LowerOfLower(s: string)
    ensures Lower(Lower(s)) == Lower(s) && Lower(Upper(s)) == Lower(s)
  {
  }

  /** Case mapping leaves a one-digit numeral alone, and only a numeral maps to one. */
  lemma CaseKeepsNumerals(s: string)
    ensures Upper(s) == s <== IsDigits(s)
    ensures Lower(s) == s <== IsDigits(s)
    ensures |s| == 1 && IsDigit(Upper(s)[0]) ==> Upper(s) == s
    ensures |s| == 1 && IsDigit(Lower(s)[0]) ==> Lower(s) == s
  {
  }

  /** The rarity is read regardless of letter case. */
  lemma ParseRarityIgnoresCase(s: string)
    ensures ParseRarity(Upper(s)) == ParseRarity(s)
    ensures ParseRarity(Lower(s)) == ParseRarity(s)
  {
    UpperOfUpper(s);
    CaseKeepsNumerals(s);
    CaseKeepsNumerals(Upper(s));
    CaseKeepsNumerals(Lower(s));
    if |s| == 1 {
      assert Upper(s)[0] == UpperChar(s[0]) && Lower(s)[0] == LowerChar(s[0]);
    }
  }

  /** The type is read regardless of letter case. */
  lemma ParseTypeIgnoresCase(s: string)
    ensures ParseType(Upper(s)) == ParseType(s)
    ensures ParseType(Lower(s)) == ParseType(s)
  {
    LowerOfLower(s);
    CaseKeepsNumerals(s);
    CaseKeepsNumerals(Upper(s));
    CaseKeepsNumerals(Lower(s));
    if |s| == 1 {
      assert Upper(s)[0] == UpperChar(s[0]) && Lower(s)[0] == LowerChar(s[0]);
    }
  }

  /**
   * Every rarity can be given by its name, its numeral, or the label the
   * report prints for it.
   */
  lemma RaritySpellingsParse(k: int)
    requires 1 <= k <= 3
    ensures ParseRarity(RarityName(k)) == Ok(k)
    ensures ParseRarity(Lower(RarityName(k))) == Ok(k)
    ensures ParseRarity(Show(k)) == Ok(k)
    ensures ParseRarity(RarityLabel(k)) == Ok(k)
  {
    assert Upper(RarityName(k)) == RarityName(k);
    ParseRarityIgnoresCase(RarityName(k));
    assert Show(k) == [DigitChar(k)];
    assert Upper(Show(k)) == Show(k);
  }

  /** Every type can be given by its code, in either case, or its numeral. */
  lemma TypeSpellingsParse(t: int)
    requires 0 <= t <= 5
    ensures ParseType(TypeCode(t)) == Ok(t)
    ensures ParseType(Upper(TypeCode(t))) == Ok(t)
    ensures ParseType(Show(t)) == Ok(t)
  {
    assert Lower(TypeCode(t)) == TypeCode(t);
    ParseTypeIgnoresCase(TypeCode(t));
    assert Show(t) == [DigitChar(t)];
    assert Lower(Show(t)) == Show(t);
  }

  /** The card's composite key (name, type, rarity) equals the given one. */
  predicate IsCard(c: Card, name: string, cardType: int, rarity: int) {
    c.name == Some(name) && c.cardType == Some(cardType) && c.rarity == Some(rarity)
  }

  /** `i` is the first position holding the card. */
  ghost predicate IsFirstMatch(cards: seq<Card>, i: int, name: string, cardType: int, rarity: int) {
    0 <= i < |cards| && IsCard(cards[i], name, cardType, rarity) &&
    forall j :: 0 <= j < i ==> !IsCard(cards[j], name, cardType, rarity)
  }

  ghost predicate Absent(cards: seq<Card>, name: string, cardType: int, rarity: int) {
    forall j :: 0 <= j < |cards| ==> !IsCard(cards[j], name, cardType, rarity)
  }

  /** find_card_index: the first position of the card, or -1 exactly when it is absent. */
  method FindCardIndex(cards: seq<Card>, name: string, cardType: int, rarity: int) returns (idx: int)
    ensures idx == -1 <==> Absent(cards, name, cardType, rarity)
    ensures idx != -1 ==> IsFirstMatch(cards, idx, name, cardType, rarity)
  {
    for i := 0 to |cards|
      invariant forall j :: 0 <= j < i ==> !IsCard(cards[j], name, cardType, rarity)
    {
      if IsCard(cards[i], name, cardType, rarity) {
        return i;
      }
    }
    return -1;
  }

  /** `card.get("lb", 0)` */
  function LbOf(c: Card): int {
    c.lb.GetOr(0)
  }

  /** Same (name, type, rarity) fields, present or not. */
  predicate SameKey(a: Card, b: Card) {
    a.name == b.name && a.cardType == b.cardType && a.rarity == b.rarity
  }

  /**
   * The shape the command keeps: every level in 0..4 and no card listed
   * twice under the same key.
   */
  ghost predicate WellFormed(cards: seq<Card>) {
    (forall i :: 0 <= i < |cards| ==> 0 <= LbOf(cards[i]) <= 4) &&
    (forall i, j :: 0 <= i < j < |cards| ==> !SameKey(cards[i], cards[j]))
  }

  /** The record add_card appends for a card not yet in the collection. */
  function NewCard(name: string, cardType: int, rarity: int): (c: Card)
    ensures IsCard(c, name, cardType, rarity) && LbOf(c) == 0
  {
    Card(Some(name), Some(cardType), Some(rarity), Some(0), None, None, None)
  }

  /** What add_card reports; the message text itself is not modelled. */
  datatype AddOutcome =
    | AlreadyMax(index: nat)              // the matching card is at max limit break: nothing changes
    | Increased(index: nat, from: int)    // the matching card's lb went up by one from `from`
    | AddedNew                            // no card matched: a new card with lb 0 was appended

  /** The user's collection, the JSON list add_card updates in place. */
  class Collection {
    var cards: seq<Card>

    constructor (cards: seq<Card>)
      ensures this.cards == cards
    {
      this.cards := cards;
    }

    /**
     * add_card: a card at level 4 is left alone; a card below 4 has its
     * level raised by one and nothing else changes; a missing card is
     * appended with level 0. A well-formed collection stays well-formed.
     */
    method AddCard(name: string, cardType: int, rarity: int) returns (outcome: AddOutcome)
      modifies this
      ensures match outcome
        case AlreadyMax(i) =>
          IsFirstMatch(old(cards), i, name, cardType, rarity) && LbOf(old(cards)[i]) >= 4 &&
          cards == old(cards)
        case Increased(i, from) =>
          IsFirstMatch(old(cards), i, name, cardType, rarity) && from == LbOf(old(cards)[i]) < 4 &&
          cards == old(cards)[i := old(cards)[i].(lb := Some(from + 1))]
        case AddedNew =>
          Absent(old(cards), name, cardType, rarity) &&
          cards == old(cards) + [NewCard(name, cardType, rarity)]
      ensures WellFormed(old(cards)) ==> WellFormed(cards)
    {
      var idx := FindCardIndex(cards, name, cardType, rarity);
      if idx != -1 {
        var current := LbOf(cards[idx]);
        if current >= 4 {
          outcome := AlreadyMax(idx);
        } else {
          cards := cards[idx := cards[idx].(lb := Some(current + 1))];
          outcome := Increased(idx, current);
        }
      } else {
        cards := cards + [NewCard(name, cardType, rarity)];
        outcome := AddedNew;
      }
    }
  }
}
