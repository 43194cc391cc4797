/**
 * The deck the `recommend` command builds (py/recommend.py, run and
 * run_best_cards): validate the per-type counts, try borrowing the best
 * tierlist card of each type, fill the rest from the user's collection, and
 * keep the borrow whose deck ranks highest.
 */
module RecommendDeck {
  import opened Util
  import opened Sorting
  import opened RecommendTiers
  import opened RecommendScan
  import opened RecommendSelect

  /** A deck has six slots. */
  const DeckSize: nat := 6

  /** The --speed … --friend options, each possibly not given. */
  datatype NamedCounts = NamedCounts(
    speed: Option<int>, stamina: Option<int>, power: Option<int>,
    guts: Option<int>, wit: Option<int>, friend: Option<int>)

  /**
   * type_counts, indexed by type: the positional counts padded with 0 up to
   * six, or, when none is given, the named ones with 0 for those missing.
   */
  function TypeCounts(positional: seq<int>, named: NamedCounts): (r: Result<seq<int>>)
    ensures r.Err? <==> |positional| > DeckSize
    ensures r.Err? ==> r.error == TooManyCounts
    ensures r.Ok? ==> |r.value| == DeckSize
    ensures r.Ok? && |positional| > 0 ==>
              r.value[..|positional|] == positional &&
              forall i :: |positional| <= i < DeckSize ==> r.value[i] == 0
    ensures r.Ok? && |positional| == 0 ==>
              r.value == [named.speed.GetOr(0), named.stamina.GetOr(0), named.power.GetOr(0),
                          named.guts.GetOr(0), named.wit.GetOr(0), named.friend.GetOr(0)]
  {
    if |positional| > DeckSize then Err(TooManyCounts)
    else if |positional| > 0 then Ok(positional + seq(DeckSize - |positional|, _ => 0))
    else Ok([named.speed.GetOr(0), named.stamina.GetOr(0), named.power.GetOr(0),
             named.guts.GetOr(0), named.wit.GetOr(0), named.friend.GetOr(0)])
  }

  /** The validation run performs: the total must be non-zero and at most 6; negative counts are let through. */
  function ParseCountsAsWritten(positional: seq<int>, named: NamedCounts): (r: Result<seq<int>>)
    ensures r.Ok? ==> |r.value| == DeckSize && Sum(r.value) != 0 && Sum(r.value) <= DeckSize
    ensures r.Ok? <==> TypeCounts(positional, named).Ok? &&
                       Sum(TypeCounts(positional, named).value) != 0 &&
                       Sum(TypeCounts(positional, named).value) <= DeckSize
    ensures r.Ok? ==> r.value == TypeCounts(positional, named).value
    ensures TypeCounts(positional, named).Err? ==> r == Err(TooManyCounts)
    ensures TypeCounts(positional, named).Ok? && Sum(TypeCounts(positional, named).value) == 0 ==>
              r == Err(NoCardsRequested)
    ensures TypeCounts(positional, named).Ok? && Sum(TypeCounts(positional, named).value) > DeckSize ==>
              r == Err(TooManyCards(Sum(TypeCounts(positional, named).value)))
  {
    match TypeCounts(positional, named)
    case Err(e) => Err(e)
    case Ok(counts) =>
      var total := Sum(counts);
      if total == 0 then Err(NoCardsRequested)
      else if total > DeckSize then Err(TooManyCards(total))
      else Ok(counts)
  }

  /** The validation as intended: also refuse a negative count, which would cut cards off a slice. */
  function ParseCounts(positional: seq<int>, named: NamedCounts): (r: Result<seq<int>>)
    ensures r.Ok? ==> |r.value| == DeckSize && NonNegative(r.value) && 0 < Sum(r.value) <= DeckSize
    ensures r.Ok? <==> ParseCountsAsWritten(positional, named).Ok? &&
                       NonNegative(ParseCountsAsWritten(positional, named).value)
    ensures r.Ok? ==> r == ParseCountsAsWritten(positional, named)
    ensures TypeCounts(positional, named).Ok? && !NonNegative(TypeCounts(positional, named).value) ==>
              r == Err(NegativeCount)
    ensures (TypeCounts(positional, named).Err? || NonNegative(TypeCounts(positional, named).value)) ==>
              r == ParseCountsAsWritten(positional, named)
  {
    match TypeCounts(positional, named)
    case Err(e) => Err(e)
    case Ok(counts) =>
      var total := Sum(counts);
      if !NonNegative(counts) then Err(NegativeCount)
      else if total == 0 then Err(NoCardsRequested)
      else if total > DeckSize then Err(TooManyCards(total))
      else SumOfNonNegative(counts); Ok(counts)
  }

  lemma {:induction false} SumOfNonNegative(s: seq<int>)
    requires NonNegative(s)
    ensures Sum(s) >= 0
  {
    if |s| > 0 {
      SumOfNonNegative(s[..|s| - 1]);
    }
  }

  /** The ids of a list of cards, `None` for a card without one. */
  function IdsOf(s: seq<Card>): set<Option<int>> {
    set c | c in s :: c.id
  }

  /** The collection's scored cards whose id is not taken, in collection order. */
  function Remaining(cards: seq<Card>, taken: set<Option<int>>): seq<Card> {
    if |cards| == 0 then []
    else
      var last := cards[|cards| - 1];
      Remaining(cards[..|cards| - 1], taken) + (if last.id !in taken && last.score.Some? then [last] else [])
  }

  /** The best `slots` of the remaining cards by score. */
  function Backfill(cards: seq<Card>, taken: set<Option<int>>, slots: int): seq<Card> {
    Take(SortByScoreDesc(Remaining(cards, taken)), slots)
  }

  /** The deck without a borrowed card: the per-type selection, topped up to six. */
  function PlainDeck(cards: seq<Card>, counts: seq<int>): seq<Card> {
    var selected := Selection(cards, counts, None);
    if |selected| < DeckSize then selected + Backfill(cards, IdsOf(selected), DeckSize - |selected|)
    else selected
  }

  /** sim_type_counts: the borrowed card takes one slot of its type, if that type asks for any. */
  function SimCounts(counts: seq<int>, t: int): seq<int> {
    if 0 <= t < |counts| && counts[t] > 0 then counts[t := counts[t] - 1] else counts
  }

  /** The collection part of the deck tried with `c` borrowed: never `c` itself, topped up to five. */
  function TrialDeck(cards: seq<Card>, counts: seq<int>, c: Candidate): seq<Card> {
    var selected := Selection(cards, SimCounts(counts, c.cardType), Some(c.id));
    if |selected| + 1 < DeckSize then
      selected + Backfill(cards, IdsOf(selected) + {Some(c.id)}, DeckSize - (|selected| + 1))
    else selected
  }

  function ScoreSum(s: seq<Card>): int {
    if |s| == 0 then 0 else ScoreSum(s[..|s| - 1]) + ScoreOf(s[|s| - 1])
  }

  function TierSum(s: seq<Card>): (r: int)
    ensures r >= 0
  {
    if |s| == 0 then 0 else TierSum(s[..|s| - 1]) + TierValue(s[|s| - 1].tier)
  }

  /** The best borrow so far, the tier and score totals of its deck, and that deck. */
  datatype Choice = Choice(support: Option<Candidate>, tier: int, score: int, deck: seq<Card>)

  /** The deck tried with `c` borrowed, with its totals. */
  function Trial(cards: seq<Card>, counts: seq<int>, c: Candidate): (t: Choice)
    ensures t.support == Some(c) && t.tier >= 0
  {
    var deck := TrialDeck(cards, counts, c);
    Choice(Some(c), TierValue(Some(c.maxTier)) + TierSum(deck), c.maxScore + ScoreSum(deck), deck)
  }

  /** Higher tier total, or the same tier total and a higher score total. */
  predicate Outranks(a: Choice, b: Choice) {
    a.tier > b.tier || (a.tier == b.tier && a.score > b.score)
  }

  /** Nothing borrowed yet: totals below any deck's. */
  const NoChoice: Choice := Choice(None, -1, -1, [])

  /** One step of the search: a trial replaces the best so far only by ranking strictly higher. */
  function Pick(best: Choice, t: Choice): Choice {
    if Outranks(t, best) then t else best
  }

  /** The search over trials in order, from nothing borrowed. */
  function Best(trials: seq<Choice>): Choice {
    if |trials| == 0 then NoChoice else Pick(Best(trials[..|trials| - 1]), trials[|trials| - 1])
  }

  /** The trial of every candidate, in order. */
  function Trials(cards: seq<Card>, counts: seq<int>, cands: seq<Candidate>): (ts: seq<Choice>)
    ensures |ts| == |cands|
  {
    seq(|cands|, j requires 0 <= j < |cands| => Trial(cards, counts, cands[j]))
  }

  /** The loop of run over the borrow candidates, as a value. */
  function Search(cands: seq<Candidate>, counts: seq<int>, cards: seq<Card>): Choice {
    Best(Trials(cards, counts, cands))
  }

  /** get_best_cards_by_type_from_tierlist, as a value: missing `cards` is the error the search swallows. */
  function Borrowable(tierlist: Tierlist, myCards: seq<Card>): Result<seq<Candidate>> {
    if tierlist.cards.None? then Err(MissingCards) else Ok(Scan(tierlist.cards.value, MlbIds(myCards)))
  }

  /** The recommended deck: the borrowed card, if any, and the cards from the collection. */
  datatype Recommendation = Recommendation(support: Option<Candidate>, cards: seq<Card>)

  /** What run recommends for validated counts. */
  function Recommend(counts: seq<int>, myCards: seq<Card>, tierlist: Tierlist, noSupport: bool): Recommendation {
    var borrowable := Borrowable(tierlist, myCards);
    var choice :=
      if !noSupport && Sum(counts) < DeckSize && borrowable.Ok? then Search(borrowable.value, counts, myCards)
      else NoChoice;
    if choice.support.Some? then Recommendation(choice.support, choice.deck)
    else Recommendation(None, PlainDeck(myCards, counts))
  }

  /** The "Combined score" line: the borrowed card's score plus the collection cards' scores. */
  function CombinedScore(r: Recommendation): int {
    (if r.support.Some? then r.support.value.maxScore else 0) + ScoreSum(r.cards)
  }

  /**
   * The loop of run over the borrow candidates: simulate each deck, and
   * keep the first one with the highest (tier total, score total).
   */
  method ChooseSupport(cands: seq<Candidate>, counts: seq<int>, myCards: seq<Card>) returns (choice: Choice)
    ensures choice == Search(cands, counts, myCards)
  {
    ghost var trials := Trials(myCards, counts, cands);
    choice := NoChoice;
    for i := 0 to |cands|
      invariant choice == Best(trials[..i])
    {
      assert trials[..i + 1][..i] == trials[..i];
      var trial := TryBorrow(cands[i], counts, myCards);
      if trial.tier > choice.tier || (trial.tier == choice.tier && trial.score > choice.score) {
        choice := trial;
      }
    }
    assert trials[..|cands|] == trials;
  }

  /**
   * One pass of that loop: the deck simulated with `cand` borrowed, with
   * its tier and score totals.
   */
  method TryBorrow(cand: Candidate, counts: seq<int>, myCards: seq<Card>) returns (trial: Choice)
    ensures trial == Trial(myCards, counts, cand)
  {
    var simCounts := counts;
    if 0 <= cand.cardType < |simCounts| && simCounts[cand.cardType] > 0 {
      simCounts := simCounts[cand.cardType := simCounts[cand.cardType] - 1];
    }
    assert simCounts == SimCounts(counts, cand.cardType);
    var selected := SelectBestCardsByType(myCards, simCounts, Some(cand.id));
    var current := TopUp(selected, cand, myCards);
    var totalScore := cand.maxScore + ScoreSum(current);
    var totalTier := TierValue(Some(cand.maxTier)) + TierSum(current);
    trial := Choice(Some(cand), totalTier, totalScore, current);
  }

  /** The top-up of a trial deck: the best remaining cards, up to five with the borrowed one. */
  method TopUp(selected: seq<Card>, cand: Candidate, myCards: seq<Card>) returns (current: seq<Card>)
    ensures |selected| + 1 < DeckSize ==>
              current == selected + Backfill(myCards, IdsOf(selected) + {Some(cand.id)}, DeckSize - (|selected| + 1))
    ensures |selected| + 1 >= DeckSize ==> current == selected
  {
    current := selected;
    var currentTotal := |current| + 1;
    if currentTotal < DeckSize {
      var selIds := IdsOf(current) + {Some(cand.id)};
      var rem := SortByScoreDesc(Remaining(myCards, selIds));
      current := current + Take(rem, DeckSize - currentTotal);
    }
  }

  /**
   * run: validate the counts, try the borrow candidates when a slot is
   * free and borrowing is allowed, otherwise (or when none is found) select
   * from the collection alone and top the deck up to six.
   */
  method RunRecommend(positional: seq<int>, named: NamedCounts, myCards: seq<Card>, tierlist: Tierlist, noSupport: bool)
    returns (r: Result<Recommendation>)
    ensures match ParseCounts(positional, named)
      case Err(e) => r == Err(e)
      case Ok(counts) => r == Ok(Recommend(counts, myCards, tierlist, noSupport))
  {
    var parsed := ParseCounts(positional, named);
    if parsed.Err? {
      return Err(parsed.error);
    }
    var counts := parsed.value;
    var choice := NoChoice;
    if !noSupport && Sum(counts) < DeckSize {
      var borrowable := BestCardsByType(tierlist, myCards);
      if borrowable.Ok? {
        choice := ChooseSupport(borrowable.value, counts, myCards);
      }
    }
    if choice.support.Some? {
      return Ok(Recommendation(choice.support, choice.deck));
    }
    var selected := SelectBestCardsByType(myCards, counts, None);
    if |selected| < DeckSize {
      var remaining := SortByScoreDesc(Remaining(myCards, IdsOf(selected)));
      selected := selected + Take(remaining, DeckSize - |selected|);
    }
    return Ok(Recommendation(None, selected));
  }

  /** The remaining cards are exactly the scored cards of the collection whose id is not taken. */
  lemma {:induction false} RemainingIsFilter(cards: seq<Card>, taken: set<Option<int>>)
    ensures forall c :: c in Remaining(cards, taken) <==> c in cards && c.id !in taken && c.score.Some?
  {
    if |cards| > 0 {
      RemainingIsFilter(cards[..|cards| - 1], taken);
      assert cards == cards[..|cards| - 1] + [cards[|cards| - 1]];
    }
  }

  /**
   * Topping up takes the best-scoring remaining cards, as many as fit:
   * all of them when fewer remain than there are slots. Every card taken
   * is from the collection, has a score and an id not already taken, and
   * scores at least as high as every remaining card left out.
   */
  lemma BackfillTakesBestRemaining(cards: seq<Card>, taken: set<Option<int>>, slots: int)
    requires slots >= 0
    ensures var b := Backfill(cards, taken, slots);
            var r := SortByScoreDesc(Remaining(cards, taken));
      && |b| == (if slots < |Remaining(cards, taken)| then slots else |Remaining(cards, taken)|)
      && b == r[..|b|]
      && SortedByScoreDesc(b)
      && (forall c :: c in b ==> c in cards && c.id !in taken && c.score.Some?)
      && (forall x, y :: x in b && y in r[|b|..] ==> ScoreOf(x) >= ScoreOf(y))
  {
    var rem := Remaining(cards, taken);
    var r := SortByScoreDesc(rem);
    var b := Backfill(cards, taken, slots);
    SortIsStablePermutation(rem);
    RemainingIsFilter(cards, taken);
    PrefixDominates(r, |b|);
    forall c | c in b
      ensures c in rem
    {
      assert c in r;
      assert c in multiset(r);
    }
  }

  /** Taking one slot of a requested type lowers the total by one. */
  lemma {:induction false} SumDecrement(s: seq<int>, i: int)
    requires 0 <= i < |s|
    ensures Sum(s[i := s[i] - 1]) == Sum(s) - 1
  {
    var n := |s| - 1;
    var u := s[i := s[i] - 1];
    if i < n {
      assert u[..n] == s[..n][i := s[i] - 1];
      SumDecrement(s[..n], i);
    } else {
      assert u[..n] == s[..n];
    }
  }

  /** The simulated counts stay non-negative and never total more than the requested ones. */
  lemma SimCountsBounded(counts: seq<int>, t: int)
    requires NonNegative(counts)
    ensures NonNegative(SimCounts(counts, t)) && |SimCounts(counts, t)| == |counts|
    ensures Sum(SimCounts(counts, t)) <= Sum(counts)
    ensures 0 <= t < |counts| && counts[t] > 0 ==> Sum(SimCounts(counts, t)) == Sum(counts) - 1
  {
    if 0 <= t < |counts| && counts[t] > 0 {
      SumDecrement(counts, t);
    }
  }

  /**
   * Over trials that all rank above nothing, the search ends on the first
   * trial with the highest (tier total, score total): none ranks above it
   * and every earlier one ranks strictly below.
   */
  lemma {:induction false} BestIsFirstMaximum(trials: seq<Choice>) returns (i: nat)
    requires |trials| > 0 && forall j :: 0 <= j < |trials| ==> trials[j].tier >= 0
    ensures i < |trials| && Best(trials) == trials[i]
    ensures forall j :: 0 <= j < |trials| ==> !Outranks(trials[j], trials[i])
    ensures forall j :: 0 <= j < i ==> Outranks(trials[i], trials[j])
  {
    var n := |trials| - 1;
    var t := trials[n];
    if n == 0 {
      i := 0;
    } else {
      var prefix := trials[..n];
      var k := BestIsFirstMaximum(prefix);
      var prev := Best(prefix);
      assert forall j :: 0 <= j < n ==> prefix[j] == trials[j];
      if Outranks(t, prev) {
        i := n;
        forall j | 0 <= j < n
          ensures Outranks(t, trials[j])
        {
          assert !Outranks(prefix[j], prev);
        }
      } else {
        i := k;
      }
    }
  }

  /**
   * The search keeps the first candidate whose deck has the highest
   * (tier total, score total): none ranks above it and every earlier one
   * ranks strictly below.
   */
  lemma SearchPicksFirstBest(cands: seq<Candidate>, counts: seq<int>, cards: seq<Card>) returns (i: nat)
    requires |cands| > 0
    ensures i < |cands| && Search(cands, counts, cards) == Trial(cards, counts, cands[i])
    ensures forall j :: 0 <= j < |cands| ==>
              !Outranks(Trial(cards, counts, cands[j]), Trial(cards, counts, cands[i]))
    ensures forall j :: 0 <= j < i ==>
              Outranks(Trial(cards, counts, cands[i]), Trial(cards, counts, cands[j]))
  {
    var trials := Trials(cards, counts, cands);
    assert forall j :: 0 <= j < |trials| ==> trials[j] == Trial(cards, counts, cands[j]);
    i := BestIsFirstMaximum(trials);
  }

  /**
   * A card is borrowed exactly when borrowing is allowed, a slot is free,
   * the tierlist has its `cards` object and some card survives the scan.
   * The borrowed card is then the best of its type among the cards the user
   * lacks at MLB, the collection part is the deck simulated for it, and no
   * card of the collection with the same id is also in the deck. Without a
   * borrow the deck is the plain selection topped up to six.
   */
  lemma SupportIsBestBorrow(counts: seq<int>, myCards: seq<Card>, tierlist: Tierlist, noSupport: bool)
    ensures var rec := Recommend(counts, myCards, tierlist, noSupport);
      rec.support.Some? <==>
        !noSupport && Sum(counts) < DeckSize && tierlist.cards.Some? &&
        |Scan(tierlist.cards.value, MlbIds(myCards))| > 0
    ensures var rec := Recommend(counts, myCards, tierlist, noSupport);
      rec.support.None? ==> rec.cards == PlainDeck(myCards, counts)
    ensures var rec := Recommend(counts, myCards, tierlist, noSupport);
      rec.support.Some? ==>
        var s := rec.support.value;
        && s in Scan(tierlist.cards.value, MlbIds(myCards))
        && s.id !in MlbIds(myCards)
        && rec.cards == TrialDeck(myCards, counts, s)
        && (forall c :: c in rec.cards ==> c.id != Some(s.id))
        && CombinedScore(rec) == Search(Scan(tierlist.cards.value, MlbIds(myCards)), counts, myCards).score
  {
    var rec := Recommend(counts, myCards, tierlist, noSupport);
    if !noSupport && Sum(counts) < DeckSize && tierlist.cards.Some? {
      var entries := tierlist.cards.value;
      var cands := Scan(entries, MlbIds(myCards));
      if |cands| > 0 {
        var i := SearchPicksFirstBest(cands, counts, myCards);
        var s := cands[i];
        ScanKeepsBestPerType(entries, MlbIds(myCards));
        TrialDeckExcludesBorrow(myCards, counts, s);
      }
    }
  }

  /** The deck simulated for a borrow never holds a collection card with the borrow's id. */
  lemma TrialDeckExcludesBorrow(cards: seq<Card>, counts: seq<int>, s: Candidate)
    ensures forall c :: c in TrialDeck(cards, counts, s) ==> c.id != Some(s.id)
  {
    var sim := SimCounts(counts, s.cardType);
    var selected := Selection(cards, sim, Some(s.id));
    SelectionIsBounded(cards, sim, Some(s.id));
    if |selected| + 1 < DeckSize {
      BackfillTakesBestRemaining(cards, IdsOf(selected) + {Some(s.id)}, DeckSize - (|selected| + 1));
    }
  }

  /**
   * With valid counts (non-negative, totalling at most six) the deck,
   * borrowed card included, never has more than six cards.
   */
  lemma DeckHasAtMostSix(counts: seq<int>, myCards: seq<Card>, tierlist: Tierlist, noSupport: bool)
    requires NonNegative(counts) && Sum(counts) <= DeckSize
    ensures var rec := Recommend(counts, myCards, tierlist, noSupport);
      |rec.cards| + Count(rec.support.Some?) <= DeckSize
  {
    var rec := Recommend(counts, myCards, tierlist, noSupport);
    SupportIsBestBorrow(counts, myCards, tierlist, noSupport);
    if rec.support.Some? {
      var s := rec.support.value;
      var sim := SimCounts(counts, s.cardType);
      SimCountsBounded(counts, s.cardType);
      var selected := Selection(cards := myCards, counts := sim, exclude := Some(s.id));
      SelectionIsBounded(myCards, sim, Some(s.id));
      if |selected| + 1 < DeckSize {
        BackfillTakesBestRemaining(myCards, IdsOf(selected) + {Some(s.id)}, DeckSize - (|selected| + 1));
      }
    } else {
      var selected := Selection(myCards, counts, None);
      SelectionIsBounded(myCards, counts, None);
      if |selected| < DeckSize {
        BackfillTakesBestRemaining(myCards, IdsOf(selected), DeckSize - |selected|);
      }
    }
  }

  /**
   * The validation as written accepts the counts 7 and -1: they total six,
   * so no card is borrowed, and with seven speed cards in the collection
   * the deck gets seven cards from the speed slice alone.
   */
  lemma NegativeCountOverfillsDeck(myCards: seq<Card>, named: NamedCounts, tierlist: Tierlist, noSupport: bool)
    requires |Group(myCards, 0, None)| >= 7
    ensures ParseCountsAsWritten([7, -1], named) == Ok([7, -1, 0, 0, 0, 0])
    ensures |Recommend([7, -1, 0, 0, 0, 0], myCards, tierlist, noSupport).cards| > DeckSize
    ensures ParseCounts([7, -1], named) == Err(NegativeCount)
  {
    var counts := [7, -1, 0, 0, 0, 0];
    assert [7, -1] + seq(4, _ => 0) == counts;
    SevenMinusOneTotalsSix();
    assert !NonNegative(counts) by { assert counts[1] < 0; }
    OverfilledPlainDeck(myCards, counts);
    assert Recommend(counts, myCards, tierlist, noSupport).cards == PlainDeck(myCards, counts);
  }

  lemma SevenMinusOneTotalsSix()
    ensures Sum([7, -1, 0, 0, 0, 0]) == 6
  {
    var counts := [7, -1, 0, 0, 0, 0];
    assert counts[..1] == [7] && counts[..2] == [7, -1] && counts[..3] == [7, -1, 0];
    assert counts[..4] == [7, -1, 0, 0] && counts[..5] == [7, -1, 0, 0, 0];
    assert [7][..0] == [] && [7, -1][..1] == [7] && [7, -1, 0][..2] == [7, -1];
    assert [7, -1, 0, 0][..3] == [7, -1, 0] && [7, -1, 0, 0, 0][..4] == [7, -1, 0, 0];
  }

  /** With seven cards of type 0 and a count of 7 for it, the plain deck holds at least seven. */
  lemma OverfilledPlainDeck(myCards: seq<Card>, counts: seq<int>)
    requires |counts| == DeckSize && counts[0] == 7 && |Group(myCards, 0, None)| >= 7
    ensures |PlainDeck(myCards, counts)| > DeckSize
  {
    SelectionIsBounded(myCards, counts, None);
    SortIsStablePermutation(Group(myCards, 0, None));
    assert SliceTotal(myCards, counts, None, 1) == 7;
    SliceTotalGrows(myCards, counts, None, 1, |counts|);
  }

  /** SliceTotal never shrinks as more types are counted. */
  lemma {:induction false} SliceTotalGrows(cards: seq<Card>, counts: seq<int>, exclude: Option<int>, j: nat, k: nat)
    requires j <= k <= |counts|
    ensures SliceTotal(cards, counts, exclude, j) <= SliceTotal(cards, counts, exclude, k)
  {
    if j < k {
      SliceTotalGrows(cards, counts, exclude, j, k - 1);
    }
  }

  /** find_best_card_in_tierlist's result, or none when it is not wanted or fails. */
  function BestSupport(tierlist: Tierlist, myCards: seq<Card>, noSupport: bool): Option<Candidate> {
    if noSupport || tierlist.cards.None? || |Scan(tierlist.cards.value, MlbIds(myCards))| == 0 then None
    else Some(BestOf(Scan(tierlist.cards.value, MlbIds(myCards))))
  }

  /** The id left out of the collection: the borrowed card's, or `None`, which leaves out id-less cards. */
  function ExcludedId(support: Option<Candidate>): Option<int> {
    if support.Some? then Some(support.value.id) else None
  }

  /** run_best_cards' pick: the top five (with a borrow) or six scored, non-excluded cards. */
  function BestCards(myCards: seq<Card>, support: Option<Candidate>): seq<Card> {
    Backfill(myCards, {ExcludedId(support)}, if support.Some? then DeckSize - 1 else DeckSize)
  }

  /** run_best_cards: borrow the best tierlist card unless told not to, then take the top scorers. */
  method RunBestCards(myCards: seq<Card>, tierlist: Tierlist, noSupport: bool)
    returns (support: Option<Candidate>, selected: seq<Card>)
    ensures support == BestSupport(tierlist, myCards, noSupport)
    ensures selected == BestCards(myCards, support)
  {
    support := None;
    if !noSupport {
      var best := FindBestCardInTierlist(tierlist, myCards);
      if best.Ok? {
        support := Some(best.value);
      }
    }
    var excludeId := if support.Some? then Some(support.value.id) else None;
    var available := SortByScoreDesc(Remaining(myCards, {excludeId}));
    var numToTake := if support.Some? then DeckSize - 1 else DeckSize;
    selected := Take(available, numToTake);
  }

  /**
   * The best-cards deck fills as many of its six slots as there are scored
   * cards, with the best scores first, never the borrowed card's id, and
   * no card left out scoring higher than one taken.
   */
  lemma BestCardsAreTopScorers(myCards: seq<Card>, tierlist: Tierlist, noSupport: bool)
    ensures var support := BestSupport(tierlist, myCards, noSupport);
            var selected := BestCards(myCards, support);
            var available := Remaining(myCards, {ExcludedId(support)});
            var slots := DeckSize - Count(support.Some?);
      && |selected| == (if slots < |available| then slots else |available|)
      && |selected| + Count(support.Some?) <= DeckSize
      && SortedByScoreDesc(selected)
      && (forall c :: c in selected ==> c in myCards && c.score.Some? && c.id != ExcludedId(support))
      && (forall x, y :: x in selected && y in SortByScoreDesc(available)[|selected|..] ==> ScoreOf(x) >= ScoreOf(y))
  {
    var support := BestSupport(tierlist, myCards, noSupport);
    BackfillTakesBestRemaining(myCards, {ExcludedId(support)}, DeckSize - Count(support.Some?));
  }

  /** No two cards of `s` share an id; cards without an id are not compared. */
  predicate UniqueIds(s: seq<Card>) {
    forall i, j :: 0 <= i < j < |s| && s[i].id.Some? ==> s[i].id != s[j].id
  }

  /** The remaining cards hold each scored card with a free id as often as the collection does, and no other card. */
  lemma {:induction false} RemainingCounts(cards: seq<Card>, taken: set<Option<int>>)
    ensures forall c :: multiset(Remaining(cards, taken))[c] ==
              if c.id !in taken && c.score.Some? then multiset(cards)[c] else 0
  {
    if |cards| > 0 {
      var n := |cards| - 1;
      RemainingCounts(cards[..n], taken);
      assert cards == cards[..n] + [cards[n]];
    }
  }

  /**
   * Topping a selection drawn from the collection up with cards whose ids
   * it does not hold keeps the deck drawn from the collection: the top-up
   * repeats no selected card.
   */
  lemma ToppedUpIsFromCollection(cards: seq<Card>, selected: seq<Card>, taken: set<Option<int>>, slots: int)
    requires multiset(selected) <= multiset(cards) && IdsOf(selected) <= taken
    ensures multiset(selected + Backfill(cards, taken, slots)) <= multiset(cards)
  {
    var rest := Remaining(cards, taken);
    var sorted := SortByScoreDesc(rest);
    var added := Backfill(cards, taken, slots);
    RemainingCounts(cards, taken);
    SortIsPermutation(rest);
    PrefixCounts(sorted, SliceEnd(|sorted|, slots));
    forall c: Card
      ensures multiset(selected + added)[c] <= multiset(cards)[c]
    {
      assert multiset(selected + added)[c] == multiset(selected)[c] + multiset(added)[c];
      if c in selected {
        assert c.id in IdsOf(selected);
      }
    }
  }

  /** The deck simulated for a borrow is drawn from the collection. */
  lemma TrialDeckIsFromCollection(cards: seq<Card>, counts: seq<int>, s: Candidate)
    ensures multiset(TrialDeck(cards, counts, s)) <= multiset(cards)
  {
    var sim := SimCounts(counts, s.cardType);
    var selected := Selection(cards, sim, Some(s.id));
    SelectionIsFromCollection(cards, sim, Some(s.id));
    if |selected| + 1 < DeckSize {
      ToppedUpIsFromCollection(cards, selected, IdsOf(selected) + {Some(s.id)}, DeckSize - (|selected| + 1));
    }
  }

  /** The deck without a borrow is drawn from the collection. */
  lemma PlainDeckIsFromCollection(cards: seq<Card>, counts: seq<int>)
    ensures multiset(PlainDeck(cards, counts)) <= multiset(cards)
  {
    var selected := Selection(cards, counts, None);
    SelectionIsFromCollection(cards, counts, None);
    if |selected| < DeckSize {
      ToppedUpIsFromCollection(cards, selected, IdsOf(selected), DeckSize - |selected|);
    }
  }

  /** Every recommended deck is drawn from the collection: no card appears more often than the collection holds it. */
  lemma DeckIsFromCollection(counts: seq<int>, myCards: seq<Card>, tierlist: Tierlist, noSupport: bool)
    ensures multiset(Recommend(counts, myCards, tierlist, noSupport).cards) <= multiset(myCards)
  {
    var rec := Recommend(counts, myCards, tierlist, noSupport);
    SupportIsBestBorrow(counts, myCards, tierlist, noSupport);
    if rec.support.Some? {
      TrialDeckIsFromCollection(myCards, counts, rec.support.value);
    } else {
      PlainDeckIsFromCollection(myCards, counts);
    }
  }

  /** In a collection without shared ids, two cards with the same id are the same card. */
  lemma SameIdSameCard(cards: seq<Card>, a: Card, b: Card)
    requires UniqueIds(cards) && a in cards && b in cards
    ensures a.id.Some? && a.id == b.id ==> a == b
  {
    var p :| 0 <= p < |cards| && cards[p] == a;
    var q :| 0 <= q < |cards| && cards[q] == b;
  }

  /** In a collection without shared ids, a card with an id occurs at most once. */
  lemma {:induction false} UniqueIdsOccurOnce(cards: seq<Card>, c: Card)
    requires UniqueIds(cards)
    ensures c.id.Some? ==> multiset(cards)[c] <= 1
  {
    if |cards| > 0 {
      var n := |cards| - 1;
      var prev := cards[..n];
      assert UniqueIds(prev);
      UniqueIdsOccurOnce(prev, c);
      assert cards == prev + [cards[n]];
      assert forall i :: 0 <= i < n && cards[i].id.Some? ==> cards[i].id != cards[n].id;
      assert c.id.Some? && cards[n] == c ==> c !in prev;
    }
  }

  /** Drawing cards from a collection without shared ids gives cards without shared ids. */
  lemma UniqueIdsOfSubMultiset(s: seq<Card>, cards: seq<Card>)
    requires multiset(s) <= multiset(cards) && UniqueIds(cards)
    ensures UniqueIds(s)
  {
    forall i, j | 0 <= i < j < |s| && s[i].id.Some?
      ensures s[i].id != s[j].id
    {
      assert s[i] in multiset(cards) && s[j] in multiset(cards);
      SameIdSameCard(cards, s[i], s[j]);
      CountOfRepeated(s, i, j);
      UniqueIdsOccurOnce(cards, s[i]);
    }
  }

  /**
   * When no two cards of the collection share an id, no two cards of the
   * recommended deck do, and none of them has the borrowed card's id: no
   * card is counted twice.
   */
  lemma DeckRepeatsNoId(counts: seq<int>, myCards: seq<Card>, tierlist: Tierlist, noSupport: bool)
    requires UniqueIds(myCards)
    ensures var rec := Recommend(counts, myCards, tierlist, noSupport);
      && UniqueIds(rec.cards)
      && (rec.support.Some? ==> forall c :: c in rec.cards ==> c.id != Some(rec.support.value.id))
  {
    var rec := Recommend(counts, myCards, tierlist, noSupport);
    DeckIsFromCollection(counts, myCards, tierlist, noSupport);
    UniqueIdsOfSubMultiset(rec.cards, myCards);
    SupportIsBestBorrow(counts, myCards, tierlist, noSupport);
  }

  /** The best-cards deck is drawn from the collection, and repeats no id when the collection does not. */
  lemma BestCardsRepeatNoId(myCards: seq<Card>, tierlist: Tierlist, noSupport: bool)
    ensures var support := BestSupport(tierlist, myCards, noSupport);
      multiset(BestCards(myCards, support)) <= multiset(myCards)
    ensures var support := BestSupport(tierlist, myCards, noSupport);
      UniqueIds(myCards) ==> UniqueIds(BestCards(myCards, support))
  {
    var support := BestSupport(tierlist, myCards, noSupport);
    var slots := if support.Some? then DeckSize - 1 else DeckSize;
    var taken: set<Option<int>> := {ExcludedId(support)};
    ToppedUpIsFromCollection(myCards, [], taken, slots);
    assert [] + Backfill(myCards, taken, slots) == BestCards(myCards, support);
    if UniqueIds(myCards) {
      UniqueIdsOfSubMultiset(BestCards(myCards, support), myCards);
    }
  }
}
