/**
 * select_best_cards_by_type (py/recommend.py): group the user's cards by
 * type, leaving out typeless cards and the excluded id, sort each group by
 * score, and take the requested number from each type in type order.
 */
module RecommendSelect {
  import opened Util
  import opened Sorting

  /** The end of the slice s[:count] on a list of length len, negative counts included. */
  function SliceEnd(len: nat, count: int): (e: nat)
    ensures e <= len
  {
    if count >= 0 then (if count < len then count else len)
    else if len + count > 0 then len + count else 0
  }

  /** s[:count] */
  function Take(s: seq<Card>, count: int): seq<Card> {
    s[..SliceEnd(|s|, count)]
  }

  /** The card would be filed under type `t`: it has that type and is not the excluded id. */
  predicate InGroup(c: Card, t: int, exclude: Option<int>) {
    c.cardType == Some(t) && c.id != exclude
  }

  /** cards_by_type[t] before sorting: the cards filed under `t`, in input order. */
  function Group(cards: seq<Card>, t: int, exclude: Option<int>): seq<Card> {
    if |cards| == 0 then []
    else
      var last := cards[|cards| - 1];
      Group(cards[..|cards| - 1], t, exclude) + (if InGroup(last, t, exclude) then [last] else [])
  }

  /** What type `t` contributes: its group sorted by descending score, cut to counts[t]. */
  function Chunk(cards: seq<Card>, counts: seq<int>, exclude: Option<int>, t: nat): seq<Card>
    requires t < |counts|
  {
    Take(SortByScoreDesc(Group(cards, t, exclude)), counts[t])
  }

  /** The chunks of types 0 .. k - 1, in type order. */
  function Picked(cards: seq<Card>, counts: seq<int>, exclude: Option<int>, k: nat): seq<Card>
    requires k <= |counts|
  {
    if k == 0 then [] else Picked(cards, counts, exclude, k - 1) + Chunk(cards, counts, exclude, k - 1)
  }

  /** The list select_best_cards_by_type returns, for counts indexed by type. */
  function Selection(cards: seq<Card>, counts: seq<int>, exclude: Option<int>): seq<Card> {
    Picked(cards, counts, exclude, |counts|)
  }

  /** `groups` is cards_by_type after the loop has seen `cards`. */
  ghost predicate Grouped(groups: map<int, seq<Card>>, cards: seq<Card>, exclude: Option<int>) {
    forall t :: Lookup(groups, t) == Group(cards, t, exclude)
  }

  /** Filing one more card appends it to its own type's group and changes no other. */
  lemma GroupedStep(groups: map<int, seq<Card>>, cards: seq<Card>, card: Card, exclude: Option<int>)
    requires Grouped(groups, cards, exclude)
    ensures !InGroup(card, card.cardType.GetOr(0), exclude) ==> Grouped(groups, cards + [card], exclude)
    ensures InGroup(card, card.cardType.GetOr(0), exclude) ==>
      var t := card.cardType.GetOr(0);
      Grouped(groups[t := Lookup(groups, t) + [card]], cards + [card], exclude)
  {
    var t := card.cardType.GetOr(0);
    if InGroup(card, t, exclude) {
      var after := groups[t := Lookup(groups, t) + [card]];
      forall u
        ensures Lookup(after, u) == Group(cards + [card], u, exclude)
      {
        GroupAppend(cards, card, u, exclude);
      }
    } else {
      forall u
        ensures Lookup(groups, u) == Group(cards + [card], u, exclude)
      {
        GroupAppend(cards, card, u, exclude);
      }
    }
  }

  lemma GroupAppend(cards: seq<Card>, card: Card, u: int, exclude: Option<int>)
    ensures Group(cards + [card], u, exclude) == Group(cards, u, exclude) + (if InGroup(card, u, exclude) then [card] else [])
  {
    var next := cards + [card];
    assert next[..|next| - 1] == cards;
  }

  /**
   * The first loop of select_best_cards_by_type: file each typed,
   * non-excluded card under its type. `order` lists the types in the order
   * the dictionary first saw them, which is the order it iterates in.
   */
  method GroupByType(cards: seq<Card>, exclude: Option<int>) returns (groups: map<int, seq<Card>>, order: seq<int>)
    ensures Grouped(groups, cards, exclude)
    ensures Distinct(order) && forall t :: t in groups <==> t in order
  {
    groups := map[];
    order := [];
    for i := 0 to |cards|
      invariant Grouped(groups, cards[..i], exclude)
      invariant Distinct(order) && forall t :: t in groups <==> t in order
    {
      var card := cards[i];
      assert cards[..i + 1] == cards[..i] + [card];
      GroupedStep(groups, cards[..i], card, exclude);
      if card.cardType.None? || card.id == exclude {
        continue;
      }
      var t := card.cardType.value;
      if t !in groups {
        order := order + [t];
      }
      groups := groups[t := Lookup(groups, t) + [card]];
    }
    assert cards[..|cards|] == cards;
  }

  /** The second loop: sort every group by descending score, in the dictionary's order. */
  method SortGroups(groups: map<int, seq<Card>>, order: seq<int>) returns (sorted: map<int, seq<Card>>)
    requires Distinct(order) && forall t :: t in groups <==> t in order
    ensures sorted.Keys == groups.Keys
    ensures forall t :: t in groups ==> sorted[t] == SortByScoreDesc(groups[t])
  {
    sorted := groups;
    for j := 0 to |order|
      invariant sorted.Keys == groups.Keys
      invariant forall t :: t in groups ==>
        sorted[t] == if t in order[..j] then SortByScoreDesc(groups[t]) else groups[t]
    {
      var t := order[j];
      assert t !in order[..j];
      assert order[..j + 1] == order[..j] + [t];
      sorted := sorted[t := SortByScoreDesc(sorted[t])];
    }
    assert order[..|order|] == order;
  }

  /**
   * select_best_cards_by_type: the per-type groups are filled in one pass,
   * each group is sorted, and the requested prefix of each type is appended
   * in type order.
   */
  method SelectBestCardsByType(cards: seq<Card>, counts: seq<int>, exclude: Option<int>) returns (selected: seq<Card>)
    ensures selected == Selection(cards, counts, exclude)
  {
    var grouped, order := GroupByType(cards, exclude);
    var groups := SortGroups(grouped, order);
    forall t
      ensures Lookup(groups, t) == SortByScoreDesc(Group(cards, t, exclude))
    {
      assert Lookup(grouped, t) == Group(cards, t, exclude);
    }
    selected := [];
    for t := 0 to |counts|
      invariant selected == Picked(cards, counts, exclude, t)
    {
      var available := Lookup(groups, t);
      assert Picked(cards, counts, exclude, t + 1) == Picked(cards, counts, exclude, t) + Chunk(cards, counts, exclude, t);
      selected := selected + Take(available, counts[t]);
    }
  }

  /** A group holds exactly the input cards filed under its type. */
  lemma {:induction false} GroupIsFilter(cards: seq<Card>, t: int, exclude: Option<int>)
    ensures forall c :: c in Group(cards, t, exclude) <==> c in cards && InGroup(c, t, exclude)
  {
    if |cards| > 0 {
      GroupIsFilter(cards[..|cards| - 1], t, exclude);
      assert cards == cards[..|cards| - 1] + [cards[|cards| - 1]];
    }
  }

  /** Every card of a chunk comes from the input, has the chunk's type, and is not excluded. */
  lemma ChunkIsFromGroup(cards: seq<Card>, counts: seq<int>, exclude: Option<int>, t: nat)
    requires t < |counts|
    ensures forall c :: c in Chunk(cards, counts, exclude, t) ==> c in cards && InGroup(c, t, exclude)
  {
    var g := Group(cards, t, exclude);
    var sorted := SortByScoreDesc(g);
    GroupIsFilter(cards, t, exclude);
    SortIsPermutation(g);
    forall c | c in Chunk(cards, counts, exclude, t)
      ensures c in g
    {
      assert c in sorted;
      assert c in multiset(sorted);
    }
  }

  /**
   * The selection holds only cards of the input that have a type among
   * the counted ones and whose id is not the excluded one.
   */
  lemma {:induction false} SelectionOnlyEligible(cards: seq<Card>, counts: seq<int>, exclude: Option<int>, k: nat)
    requires k <= |counts|
    ensures forall c :: c in Picked(cards, counts, exclude, k) ==>
              c in cards && c.cardType.Some? && 0 <= c.cardType.value < k && c.id != exclude
  {
    if k > 0 {
      SelectionOnlyEligible(cards, counts, exclude, k - 1);
      ChunkIsFromGroup(cards, counts, exclude, k - 1);
    }
  }

  /** The cards of `s` whose type is `t`, in order. */
  function CardsOfType(s: seq<Card>, t: int): seq<Card> {
    if |s| == 0 then []
    else CardsOfType(s[..|s| - 1], t) + (if s[|s| - 1].cardType == Some(t) then [s[|s| - 1]] else [])
  }

  lemma {:induction false} CardsOfTypeDistributes(a: seq<Card>, b: seq<Card>, t: int)
    ensures CardsOfType(a + b, t) == CardsOfType(a, t) + CardsOfType(b, t)
  {
    if |b| > 0 {
      CardsOfTypeDistributes(a, b[..|b| - 1], t);
      assert (a + b)[..|a + b| - 1] == a + b[..|b| - 1];
    } else {
      assert a + b == a;
    }
  }

  /** Every card of `s` has type `t`. */
  predicate AllOfType(s: seq<Card>, t: int) {
    forall i :: 0 <= i < |s| ==> s[i].cardType == Some(t)
  }

  lemma {:induction false} CardsOfTypeAll(s: seq<Card>, t: int)
    requires AllOfType(s, t)
    ensures CardsOfType(s, t) == s
  {
    if |s| > 0 {
      CardsOfTypeAll(s[..|s| - 1], t);
      assert s == s[..|s| - 1] + [s[|s| - 1]];
    }
  }

  lemma {:induction false} CardsOfTypeNone(s: seq<Card>, u: int, t: int)
    requires AllOfType(s, u) && u != t
    ensures CardsOfType(s, t) == []
  {
    if |s| > 0 {
      CardsOfTypeNone(s[..|s| - 1], u, t);
    }
  }

  /**
   * For each counted type, the cards of that type in the selection are
   * exactly the first counts[t] cards of its group in stable
   * descending-score order; other types contribute none.
   */
  lemma SelectionPerType(cards: seq<Card>, counts: seq<int>, exclude: Option<int>, k: nat, t: int)
    requires k <= |counts|
    ensures CardsOfType(Picked(cards, counts, exclude, k), t) ==
            if 0 <= t < k then Chunk(cards, counts, exclude, t) else []
  {
    var chunks := Chunks(cards, counts, exclude);
    PickedIsFlattened(cards, counts, exclude, k);
    forall j | 0 <= j < k
      ensures AllOfType(chunks[..k][j], j)
    {
      ChunkIsFromGroup(cards, counts, exclude, j);
      assert forall i :: 0 <= i < |chunks[j]| ==> chunks[j][i] in Chunk(cards, counts, exclude, j);
    }
    FlattenPerType(chunks[..k], t);
  }

  /** Every type's chunk, in type order. */
  function Chunks(cards: seq<Card>, counts: seq<int>, exclude: Option<int>): (chunks: seq<seq<Card>>)
    ensures |chunks| == |counts|
  {
    seq(|counts|, j requires 0 <= j < |counts| => Chunk(cards, counts, exclude, j))
  }

  function Flatten(chunks: seq<seq<Card>>): seq<Card> {
    if |chunks| == 0 then [] else Flatten(chunks[..|chunks| - 1]) + chunks[|chunks| - 1]
  }

  lemma {:induction false} PickedIsFlattened(cards: seq<Card>, counts: seq<int>, exclude: Option<int>, k: nat)
    requires k <= |counts|
    ensures Picked(cards, counts, exclude, k) == Flatten(Chunks(cards, counts, exclude)[..k])
  {
    if k > 0 {
      var chunks := Chunks(cards, counts, exclude);
      PickedIsFlattened(cards, counts, exclude, k - 1);
      assert chunks[..k][..k - 1] == chunks[..k - 1];
      assert chunks[..k][k - 1] == Chunk(cards, counts, exclude, k - 1);
    }
  }

  /** When chunk j holds cards of type j only, the cards of type t are chunk t. */
  lemma {:induction false} FlattenPerType(chunks: seq<seq<Card>>, t: int)
    requires forall j :: 0 <= j < |chunks| ==> AllOfType(chunks[j], j)
    ensures CardsOfType(Flatten(chunks), t) == if 0 <= t < |chunks| then chunks[t] else []
  {
    if |chunks| > 0 {
      var n := |chunks| - 1;
      var prev := chunks[..n];
      var last := chunks[n];
      var before := Flatten(prev);
      FlattenPerType(prev, t);
      CardsOfTypeDistributes(before, last, t);
      if t == n {
        CardsOfTypeAll(last, t);
      } else {
        CardsOfTypeNone(last, n, t);
      }
    }
  }

  function Sum(counts: seq<int>): int {
    if |counts| == 0 then 0 else Sum(counts[..|counts| - 1]) + counts[|counts| - 1]
  }

  /** Σ over types < k of the number of cards the slice of that type keeps. */
  function SliceTotal(cards: seq<Card>, counts: seq<int>, exclude: Option<int>, k: nat): int
    requires k <= |counts|
  {
    if k == 0 then 0
    else SliceTotal(cards, counts, exclude, k - 1) + SliceEnd(|Group(cards, k - 1, exclude)|, counts[k - 1])
  }

  predicate NonNegative(counts: seq<int>) {
    forall i :: 0 <= i < |counts| ==> counts[i] >= 0
  }

  /**
   * The selection has one card per slice position: Σ min(count, available)
   * when counts are non-negative, so never more than the counts ask for.
   */
  lemma SelectionLength(cards: seq<Card>, counts: seq<int>, exclude: Option<int>, k: nat)
    requires k <= |counts|
    ensures |Picked(cards, counts, exclude, k)| == SliceTotal(cards, counts, exclude, k)
    ensures NonNegative(counts) ==> |Picked(cards, counts, exclude, k)| <= Sum(counts[..k])
  {
    PickedLength(cards, counts, exclude, k);
    if NonNegative(counts) {
      SliceTotalAtMostSum(cards, counts, exclude, k);
    }
  }

  lemma {:induction false} PickedLength(cards: seq<Card>, counts: seq<int>, exclude: Option<int>, k: nat)
    requires k <= |counts|
    ensures |Picked(cards, counts, exclude, k)| == SliceTotal(cards, counts, exclude, k)
  {
    if k > 0 {
      PickedLength(cards, counts, exclude, k - 1);
      ChunkLength(cards, counts, exclude, k - 1);
    }
  }

  lemma {:induction false} SliceTotalAtMostSum(cards: seq<Card>, counts: seq<int>, exclude: Option<int>, k: nat)
    requires k <= |counts| && NonNegative(counts)
    ensures SliceTotal(cards, counts, exclude, k) <= Sum(counts[..k])
  {
    if k > 0 {
      SliceTotalAtMostSum(cards, counts, exclude, k - 1);
      assert counts[..k][..k - 1] == counts[..k - 1];
      assert Sum(counts[..k]) == Sum(counts[..k - 1]) + counts[k - 1];
    }
  }

  /** A chunk keeps as many cards as its slice end says, never more than a non-negative count. */
  lemma ChunkLength(cards: seq<Card>, counts: seq<int>, exclude: Option<int>, j: nat)
    requires j < |counts|
    ensures |Chunk(cards, counts, exclude, j)| == SliceEnd(|Group(cards, j, exclude)|, counts[j])
    ensures counts[j] >= 0 ==> |Chunk(cards, counts, exclude, j)| <= counts[j]
  {
    SortIsStablePermutation(Group(cards, j, exclude));
  }

  /** The whole selection: eligible cards only, at most Sum(counts) of them for non-negative counts. */
  lemma SelectionIsBounded(cards: seq<Card>, counts: seq<int>, exclude: Option<int>)
    ensures forall c :: c in Selection(cards, counts, exclude) ==>
              c in cards && c.cardType.Some? && 0 <= c.cardType.value < |counts| && c.id != exclude
    ensures |Selection(cards, counts, exclude)| == SliceTotal(cards, counts, exclude, |counts|)
    ensures NonNegative(counts) ==> |Selection(cards, counts, exclude)| <= Sum(counts)
  {
    SelectionOnlyEligible(cards, counts, exclude, |counts|);
    SelectionLength(cards, counts, exclude, |counts|);
    assert counts[..|counts|] == counts;
  }

  /** A group holds each card filed under its type as often as the input does, and no other card. */
  lemma {:induction false} GroupCounts(cards: seq<Card>, t: int, exclude: Option<int>)
    ensures forall c :: multiset(Group(cards, t, exclude))[c] == if InGroup(c, t, exclude) then multiset(cards)[c] else 0
  {
    if |cards| > 0 {
      var n := |cards| - 1;
      var prev := cards[..n];
      GroupCounts(prev, t, exclude);
      assert cards == prev + [cards[n]];
      assert multiset(cards) == multiset(prev) + multiset([cards[n]]);
      assert Group(cards, t, exclude) == Group(prev, t, exclude) + (if InGroup(cards[n], t, exclude) then [cards[n]] else []);
    }
  }

  lemma PrefixCounts(s: seq<Card>, n: nat)
    requires n <= |s|
    ensures multiset(s[..n]) <= multiset(s)
  {
    assert s == s[..n] + s[n..];
  }

  /** A chunk holds no card more often than its group does. */
  lemma ChunkCounts(cards: seq<Card>, counts: seq<int>, exclude: Option<int>, t: nat)
    requires t < |counts|
    ensures forall c :: multiset(Chunk(cards, counts, exclude, t))[c] <=
              if InGroup(c, t, exclude) then multiset(cards)[c] else 0
  {
    var g := Group(cards, t, exclude);
    var sorted := SortByScoreDesc(g);
    GroupCounts(cards, t, exclude);
    SortIsPermutation(g);
    PrefixCounts(sorted, SliceEnd(|sorted|, counts[t]));
  }

  /** How often the chunks of types 0 .. k - 1 may hold `c`: as often as the input, if `c` is picked at all. */
  function Allowance(cards: seq<Card>, exclude: Option<int>, k: int, c: Card): nat {
    if c.cardType.Some? && 0 <= c.cardType.value < k && c.id != exclude then multiset(cards)[c] else 0
  }

  /** Adding the chunk of type k - 1 to those of the types before it stays within the allowance. */
  lemma AllowanceStep(prev: seq<Card>, chunk: seq<Card>, cards: seq<Card>, exclude: Option<int>, k: int)
    requires k >= 1
    requires forall c :: multiset(prev)[c] <= Allowance(cards, exclude, k - 1, c)
    requires forall c :: multiset(chunk)[c] <= if InGroup(c, k - 1, exclude) then multiset(cards)[c] else 0
    ensures forall c :: multiset(prev + chunk)[c] <= Allowance(cards, exclude, k, c)
  {
    forall c: Card
      ensures multiset(prev + chunk)[c] <= Allowance(cards, exclude, k, c)
    {
      assert multiset(prev + chunk)[c] == multiset(prev)[c] + multiset(chunk)[c];
    }
  }

  /**
   * The chunks of types 0 .. k - 1 hold a card at most as often as the
   * input does, and only when its type is among them and its id is not
   * the excluded one.
   */
  lemma {:induction false} PickedCounts(cards: seq<Card>, counts: seq<int>, exclude: Option<int>, k: nat)
    requires k <= |counts|
    ensures forall c :: multiset(Picked(cards, counts, exclude, k))[c] <= Allowance(cards, exclude, k, c)
  {
    if k > 0 {
      PickedCounts(cards, counts, exclude, k - 1);
      ChunkCounts(cards, counts, exclude, k - 1);
      AllowanceStep(Picked(cards, counts, exclude, k - 1), Chunk(cards, counts, exclude, k - 1), cards, exclude, k);
    }
  }

  /** The selection is drawn from the collection: no card is picked more often than the collection holds it. */
  lemma SelectionIsFromCollection(cards: seq<Card>, counts: seq<int>, exclude: Option<int>)
    ensures multiset(Selection(cards, counts, exclude)) <= multiset(cards)
  {
    PickedCounts(cards, counts, exclude, |counts|);
  }
}
