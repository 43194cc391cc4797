/**
 * The per-type scan of the reference tierlist (py/recommend.py): for each
 * card type, the reference card ranked highest by (tier value of its
 * last tier, best score) among those the user does not already hold at
 * limit break 4; and the best of those bests, the card to borrow.
 */
module RecommendScan {
  import opened Util
  import opened Text
  import opened RecommendTiers

  /** The tuple (card_id, card_name, card_type, max_score, max_tier). */
  datatype Candidate = Candidate(id: int, name: string, cardType: int, maxScore: int, maxTier: string)

  /** mlb_ids: the ids of the user's cards at limit break 4. */
  function MlbIds(myCards: seq<Card>): set<int> {
    set c | c in myCards && c.lb == Some(4) && c.id.Some? :: c.id.value
  }

  /** max(scores) */
  function MaxOf(s: seq<int>): (m: int)
    requires |s| > 0
    ensures m in s
    ensures forall i :: 0 <= i < |s| ==> s[i] <= m
  {
    if |s| == 1 then s[0]
    else
      var m := MaxOf(s[1..]);
      assert forall i :: 1 <= i < |s| ==> s[i] == s[1..][i - 1];
      if s[0] > m then s[0] else m
  }

  /** The entry's "id" when it is an int, else its key read as a number when it is all digits, else 0. */
  function EntryId(key: string, e: RefCard): int {
    if e.id.Some? then e.id.value
    else if IsDigits(key) then DigitsValue(key)
    else 0
  }

  /** The tuple the scan would record for the entry, or None when it skips the entry. */
  function Eligible(key: string, e: RefCard, mlb: set<int>): (r: Option<Candidate>)
    ensures r.None? <==>
              EntryId(key, e) in mlb ||
              e.scores.None? || e.tiers.None? || |e.scores.value| == 0 || |e.tiers.value| == 0 ||
              e.cardType.None? || e.cardType.value == -1
    ensures r.Some? ==>
              r.value.id == EntryId(key, e) && r.value.id !in mlb &&
              r.value.maxScore == MaxOf(e.scores.value) &&
              r.value.maxTier == e.tiers.value[|e.tiers.value| - 1] &&
              Some(r.value.cardType) == e.cardType &&
              r.value.name == e.name.GetOr("Unknown")
  {
    var id := EntryId(key, e);
    if id in mlb then None
    else
      var scores := e.scores.GetOr([]);
      var tiers := e.tiers.GetOr([]);
      if e.scores.None? || e.tiers.None? || |scores| == 0 || |tiers| == 0 then None
      else if e.cardType.None? || e.cardType.value == -1 then None
      else Some(Candidate(id, e.name.GetOr("Unknown"), e.cardType.value, MaxOf(scores), tiers[|tiers| - 1]))
  }

  /** `a` ranks strictly above `b` in lexicographic (tier value, max score) order. */
  predicate Better(a: Candidate, b: Candidate) {
    var ta, tb := TierValue(Some(a.maxTier)), TierValue(Some(b.maxTier));
    ta > tb || (ta == tb && a.maxScore > b.maxScore)
  }

  /** best_by_type.get(t): the position of the candidate of type `t`, or -1. */
  function PositionOfType(best: seq<Candidate>, t: int): (p: int)
    ensures -1 <= p < |best|
    ensures p >= 0 ==> best[p].cardType == t
    ensures p == -1 <==> forall k :: 0 <= k < |best| ==> best[k].cardType != t
  {
    if |best| == 0 then -1
    else if best[|best| - 1].cardType == t then |best| - 1
    else PositionOfType(best[..|best| - 1], t)
  }

  /**
   * One step of the scan: a new type is appended; a candidate ranking
   * strictly higher replaces the one of its type in place; otherwise
   * nothing changes.
   */
  function Step(best: seq<Candidate>, c: Option<Candidate>): seq<Candidate> {
    if c.None? then best
    else
      var p := PositionOfType(best, c.value.cardType);
      if p < 0 then best + [c.value]
      else if Better(c.value, best[p]) then best[p := c.value]
      else best
  }

  function EligibleAt(entries: seq<(string, RefCard)>, j: int, mlb: set<int>): Option<Candidate>
    requires 0 <= j < |entries|
  {
    Eligible(entries[j].0, entries[j].1, mlb)
  }

  /** best_by_type.values() after scanning `entries` in order. */
  function Scan(entries: seq<(string, RefCard)>, mlb: set<int>): seq<Candidate> {
    if |entries| == 0 then []
    else Step(Scan(entries[..|entries| - 1], mlb), EligibleAt(entries, |entries| - 1, mlb))
  }

  predicate OfType(entries: seq<(string, RefCard)>, mlb: set<int>, j: int, t: int)
    requires 0 <= j < |entries|
  {
    EligibleAt(entries, j, mlb).Some? && EligibleAt(entries, j, mlb).value.cardType == t
  }

  /**
   * Entry `i` gives `c`, no eligible entry of its type ranks above it, and
   * every earlier one of its type ranks strictly below (the first of equals wins).
   */
  ghost predicate Wins(entries: seq<(string, RefCard)>, mlb: set<int>, i: int, c: Candidate) {
    0 <= i < |entries| && EligibleAt(entries, i, mlb) == Some(c) &&
    forall j :: 0 <= j < |entries| && OfType(entries, mlb, j, c.cardType) ==>
      !Better(EligibleAt(entries, j, mlb).value, c) && (j < i ==> Better(c, EligibleAt(entries, j, mlb).value))
  }

  /** Some entry gives `c` and wins its type. */
  ghost predicate IsWinner(entries: seq<(string, RefCard)>, mlb: set<int>, c: Candidate) {
    exists i :: Wins(entries, mlb, i, c)
  }

  ghost predicate DistinctTypes(best: seq<Candidate>) {
    forall k, l :: 0 <= k < l < |best| ==> best[k].cardType != best[l].cardType
  }

  /** Every type with an eligible entry has a candidate. */
  ghost predicate Covers(entries: seq<(string, RefCard)>, mlb: set<int>, best: seq<Candidate>) {
    forall j :: 0 <= j < |entries| && EligibleAt(entries, j, mlb).Some? ==>
      PositionOfType(best, EligibleAt(entries, j, mlb).value.cardType) >= 0
  }

  /** What the scan keeps, with `origin[k]` the entry candidate `k` came from. */
  ghost predicate ScanInv(entries: seq<(string, RefCard)>, mlb: set<int>, best: seq<Candidate>, origin: seq<int>) {
    DistinctTypes(best) && Covers(entries, mlb, best) && |origin| == |best| &&
    forall k :: 0 <= k < |best| ==> Wins(entries, mlb, origin[k], best[k])
  }

  lemma PrefixAgrees(entries: seq<(string, RefCard)>, mlb: set<int>)
    requires |entries| > 0
    ensures forall j :: 0 <= j < |entries| - 1 ==>
              EligibleAt(entries[..|entries| - 1], j, mlb) == EligibleAt(entries, j, mlb)
  {
  }

  /** A winner over a prefix still wins when the next entry is not of its type or does not beat it. */
  lemma WinsExtends(entries: seq<(string, RefCard)>, mlb: set<int>, i: int, c: Candidate)
    requires |entries| > 0
    requires Wins(entries[..|entries| - 1], mlb, i, c)
    requires !OfType(entries, mlb, |entries| - 1, c.cardType) ||
             !Better(EligibleAt(entries, |entries| - 1, mlb).value, c)
    ensures Wins(entries, mlb, i, c)
  {
    PrefixAgrees(entries, mlb);
  }

  /** The new entry wins when it ranks above every earlier entry of its type. */
  lemma LastWins(entries: seq<(string, RefCard)>, mlb: set<int>, c: Candidate)
    requires |entries| > 0 && EligibleAt(entries, |entries| - 1, mlb) == Some(c)
    requires forall j :: 0 <= j < |entries| - 1 && OfType(entries, mlb, j, c.cardType) ==>
               Better(c, EligibleAt(entries, j, mlb).value)
    ensures Wins(entries, mlb, |entries| - 1, c)
  {
  }

  /** Covering carries over when no old type is lost and the new entry's type is present. */
  lemma CoversExtends(entries: seq<(string, RefCard)>, mlb: set<int>, best: seq<Candidate>, r: seq<Candidate>)
    requires |entries| > 0
    requires Covers(entries[..|entries| - 1], mlb, best)
    requires forall t :: PositionOfType(best, t) >= 0 ==> PositionOfType(r, t) >= 0
    requires EligibleAt(entries, |entries| - 1, mlb).Some? ==>
               PositionOfType(r, EligibleAt(entries, |entries| - 1, mlb).value.cardType) >= 0
    ensures Covers(entries, mlb, r)
  {
    var n := |entries| - 1;
    PrefixAgrees(entries, mlb);
    forall j | 0 <= j < |entries| && EligibleAt(entries, j, mlb).Some?
      ensures PositionOfType(r, EligibleAt(entries, j, mlb).value.cardType) >= 0
    {
      if j < n {
        assert PositionOfType(best, EligibleAt(entries[..n], j, mlb).value.cardType) >= 0;
      }
    }
  }

  /** Before an entry of a type the candidates lack, no eligible entry had that type. */
  lemma NothingEarlierOfType(entries: seq<(string, RefCard)>, mlb: set<int>, best: seq<Candidate>, t: int)
    requires |entries| > 0
    requires Covers(entries[..|entries| - 1], mlb, best) && PositionOfType(best, t) < 0
    ensures forall j :: 0 <= j < |entries| - 1 ==> !OfType(entries, mlb, j, t)
  {
    var n := |entries| - 1;
    PrefixAgrees(entries, mlb);
    forall j | 0 <= j < n
      ensures !OfType(entries, mlb, j, t)
    {
      assert EligibleAt(entries[..n], j, mlb).Some? ==>
        PositionOfType(best, EligibleAt(entries[..n], j, mlb).value.cardType) >= 0;
    }
  }

  /** Winners of the other types are not affected by the new entry. */
  lemma OthersStillWin(entries: seq<(string, RefCard)>, mlb: set<int>, best: seq<Candidate>, origin: seq<int>)
    requires |entries| > 0
    requires ScanInv(entries[..|entries| - 1], mlb, best, origin)
    ensures forall k :: 0 <= k < |best| && !OfType(entries, mlb, |entries| - 1, best[k].cardType) ==>
              Wins(entries, mlb, origin[k], best[k])
  {
    forall k | 0 <= k < |best| && !OfType(entries, mlb, |entries| - 1, best[k].cardType)
      ensures Wins(entries, mlb, origin[k], best[k])
    {
      WinsExtends(entries, mlb, origin[k], best[k]);
    }
  }

  /** The step skips the new entry. */
  lemma StepSkips(entries: seq<(string, RefCard)>, mlb: set<int>, best: seq<Candidate>, origin: seq<int>)
    requires |entries| > 0 && EligibleAt(entries, |entries| - 1, mlb).None?
    requires ScanInv(entries[..|entries| - 1], mlb, best, origin)
    ensures ScanInv(entries, mlb, best, origin)
  {
    OthersStillWin(entries, mlb, best, origin);
    CoversExtends(entries, mlb, best, best);
  }

  lemma AppendPosition(best: seq<Candidate>, c: Candidate, t: int)
    ensures PositionOfType(best + [c], t) == if t == c.cardType then |best| else PositionOfType(best, t)
  {
    assert (best + [c])[..|best|] == best;
  }

  /** The step appends a candidate of a type not seen before. */
  lemma StepAppends(entries: seq<(string, RefCard)>, mlb: set<int>, best: seq<Candidate>, origin: seq<int>, c: Candidate)
    requires |entries| > 0 && EligibleAt(entries, |entries| - 1, mlb) == Some(c)
    requires PositionOfType(best, c.cardType) < 0
    requires ScanInv(entries[..|entries| - 1], mlb, best, origin)
    ensures ScanInv(entries, mlb, best + [c], origin + [|entries| - 1])
  {
    var n := |entries| - 1;
    var r := best + [c];
    var o := origin + [n];
    NothingEarlierOfType(entries, mlb, best, c.cardType);
    LastWins(entries, mlb, c);
    OthersStillWin(entries, mlb, best, origin);
    forall k | 0 <= k < |r|
      ensures Wins(entries, mlb, o[k], r[k])
    {
      if k < |best| {
        assert best[k].cardType != c.cardType;
        assert !OfType(entries, mlb, n, best[k].cardType);
        assert r[k] == best[k] && o[k] == origin[k];
      }
    }
    assert DistinctTypes(r) by {
      forall k, l | 0 <= k < l < |r|
        ensures r[k].cardType != r[l].cardType
      {
        if l == |best| {
          assert r[k].cardType == best[k].cardType;
        } else {
          assert r[k].cardType == best[k].cardType && r[l].cardType == best[l].cardType;
        }
      }
    }
    forall t
      ensures PositionOfType(best, t) >= 0 ==> PositionOfType(r, t) >= 0
    {
      AppendPosition(best, c, t);
    }
    AppendPosition(best, c, c.cardType);
    CoversExtends(entries, mlb, best, r);
  }

  /** In place replacement keeps every type's position. */
  lemma {:induction false} ReplaceKeepsPosition(best: seq<Candidate>, p: int, c: Candidate, t: int)
    requires 0 <= p < |best| && best[p].cardType == c.cardType
    ensures PositionOfType(best[p := c], t) == PositionOfType(best, t)
  {
    var n := |best| - 1;
    if p < n {
      ReplaceKeepsPosition(best[..n], p, c, t);
      assert best[p := c][..n] == best[..n][p := c];
    } else {
      assert best[p := c][..n] == best[..n];
    }
  }

  /** A new entry that beats the winner of its type beats every earlier entry of that type. */
  lemma ReplacementWins(entries: seq<(string, RefCard)>, mlb: set<int>, prev: Candidate, i: int, c: Candidate)
    requires |entries| > 0 && EligibleAt(entries, |entries| - 1, mlb) == Some(c)
    requires prev.cardType == c.cardType && Better(c, prev)
    requires Wins(entries[..|entries| - 1], mlb, i, prev)
    ensures Wins(entries, mlb, |entries| - 1, c)
  {
    var n := |entries| - 1;
    PrefixAgrees(entries, mlb);
    forall j | 0 <= j < n && OfType(entries, mlb, j, c.cardType)
      ensures Better(c, EligibleAt(entries, j, mlb).value)
    {
      assert OfType(entries[..n], mlb, j, prev.cardType);
      BetterThroughUnbeaten(c, prev, EligibleAt(entries, j, mlb).value);
    }
    LastWins(entries, mlb, c);
  }

  /** The step replaces the candidate of its type by one ranking strictly higher. */
  lemma StepReplaces(entries: seq<(string, RefCard)>, mlb: set<int>, best: seq<Candidate>, origin: seq<int>,
                     c: Candidate, p: int)
    requires |entries| > 0 && EligibleAt(entries, |entries| - 1, mlb) == Some(c)
    requires 0 <= p < |best| && best[p].cardType == c.cardType && Better(c, best[p])
    requires ScanInv(entries[..|entries| - 1], mlb, best, origin)
    ensures ScanInv(entries, mlb, best[p := c], origin[p := |entries| - 1])
  {
    var n := |entries| - 1;
    var r := best[p := c];
    var o := origin[p := n];
    ReplacementWins(entries, mlb, best[p], origin[p], c);
    OthersStillWin(entries, mlb, best, origin);
    forall k | 0 <= k < |r|
      ensures Wins(entries, mlb, o[k], r[k])
    {
      if k != p {
        assert best[k].cardType != c.cardType;
        assert !OfType(entries, mlb, n, best[k].cardType);
        assert r[k] == best[k] && o[k] == origin[k];
      }
    }
    assert DistinctTypes(r) by {
      forall k, l | 0 <= k < l < |r|
        ensures r[k].cardType != r[l].cardType
      {
        assert r[k].cardType == best[k].cardType && r[l].cardType == best[l].cardType;
      }
    }
    forall t
      ensures PositionOfType(r, t) == PositionOfType(best, t)
    {
      ReplaceKeepsPosition(best, p, c, t);
    }
    CoversExtends(entries, mlb, best, r);
  }

  /** The step keeps the candidate of its type, which the new entry does not beat. */
  lemma StepKeeps(entries: seq<(string, RefCard)>, mlb: set<int>, best: seq<Candidate>, origin: seq<int>,
                  c: Candidate, p: int)
    requires |entries| > 0 && EligibleAt(entries, |entries| - 1, mlb) == Some(c)
    requires 0 <= p < |best| && best[p].cardType == c.cardType && !Better(c, best[p])
    requires ScanInv(entries[..|entries| - 1], mlb, best, origin)
    ensures ScanInv(entries, mlb, best, origin)
  {
    OthersStillWin(entries, mlb, best, origin);
    WinsExtends(entries, mlb, origin[p], best[p]);
    CoversExtends(entries, mlb, best, best);
  }

  lemma {:induction false} ScanInvariant(entries: seq<(string, RefCard)>, mlb: set<int>) returns (origin: seq<int>)
    ensures ScanInv(entries, mlb, Scan(entries, mlb), origin)
  {
    if |entries| == 0 {
      return [];
    }
    var n := |entries| - 1;
    var o := ScanInvariant(entries[..n], mlb);
    var best := Scan(entries[..n], mlb);
    var e := EligibleAt(entries, n, mlb);
    if e.None? {
      StepSkips(entries, mlb, best, o);
      origin := o;
    } else {
      var p := PositionOfType(best, e.value.cardType);
      if p < 0 {
        StepAppends(entries, mlb, best, o, e.value);
        origin := o + [n];
      } else if Better(e.value, best[p]) {
        StepReplaces(entries, mlb, best, o, e.value, p);
        origin := o[p := n];
      } else {
        StepKeeps(entries, mlb, best, o, e.value, p);
        origin := o;
      }
    }
  }

  /**
   * get_best_cards_by_type_from_tierlist: at most one candidate per type;
   * each is the first entry ranked highest among the eligible entries of
   * its type; every type with an eligible entry is present; no candidate
   * is a card the user holds at limit break 4.
   */
  lemma ScanKeepsBestPerType(entries: seq<(string, RefCard)>, mlb: set<int>)
    ensures DistinctTypes(Scan(entries, mlb))
    ensures forall k :: 0 <= k < |Scan(entries, mlb)| ==> IsWinner(entries, mlb, Scan(entries, mlb)[k])
    ensures forall k :: 0 <= k < |Scan(entries, mlb)| ==> Scan(entries, mlb)[k].id !in mlb
    ensures Covers(entries, mlb, Scan(entries, mlb))
  {
    var origin := ScanInvariant(entries, mlb);
    forall k | 0 <= k < |Scan(entries, mlb)|
      ensures IsWinner(entries, mlb, Scan(entries, mlb)[k])
    {
      assert Wins(entries, mlb, origin[k], Scan(entries, mlb)[k]);
    }
    forall k | 0 <= k < |Scan(entries, mlb)|
      ensures Scan(entries, mlb)[k].id !in mlb
    {
      assert Wins(entries, mlb, origin[k], Scan(entries, mlb)[k]);
    }
  }

  /**
   * get_best_cards_by_type_from_tierlist: an error when the tierlist has
   * no "cards" object, else the scan of its entries in order.
   */
  method BestCardsByType(tierlist: Tierlist, myCards: seq<Card>) returns (r: Result<seq<Candidate>>)
    ensures r.Err? <==> tierlist.cards.None?
    ensures r.Err? ==> r.error == MissingCards
    ensures r.Ok? ==> r.value == Scan(tierlist.cards.value, MlbIds(myCards))
  {
    if tierlist.cards.None? {
      return Err(MissingCards);
    }
    var entries := tierlist.cards.value;
    var mlb := MlbIds(myCards);
    var best: seq<Candidate> := [];
    for i := 0 to |entries|
      invariant best == Scan(entries[..i], mlb)
    {
      assert entries[..i + 1][..i] == entries[..i];
      ghost var next := Eligible(entries[i].0, entries[i].1, mlb);
      assert Scan(entries[..i + 1], mlb) == Step(best, next);
      var (key, info) := entries[i];
      var id := EntryId(key, info);
      if id in mlb {
        continue;
      }
      if info.scores.None? || info.tiers.None? {
        continue;
      }
      var scores, tiers := info.scores.value, info.tiers.value;
      if |scores| == 0 || |tiers| == 0 {
        continue;
      }
      var maxScore := MaxOf(scores);
      var maxTier := tiers[|tiers| - 1];
      if info.cardType.None? || info.cardType.value == -1 {
        continue;
      }
      var cardType := info.cardType.value;
      var c := Candidate(id, info.name.GetOr("Unknown"), cardType, maxScore, maxTier);
      var p := PositionOfType(best, cardType);
      if p < 0 {
        best := best + [c];
      } else if Better(c, best[p]) {
        best := best[p := c];
      }
    }
    assert entries[..|entries|] == entries;
    return Ok(best);
  }

  /** `b` ranks no lower than `c`, and `a` above `b`, so `a` ranks above `c`. */
  lemma BetterThroughUnbeaten(a: Candidate, b: Candidate, c: Candidate)
    requires Better(a, b) && !Better(c, b)
    ensures Better(a, c) && !Better(c, a)
  {
  }

  /**
   * The position max() returns: no candidate ranks above it, and every
   * earlier one ranks strictly below it, since max() keeps the first of equals.
   */
  function BestIndex(cands: seq<Candidate>): (i: nat)
    requires |cands| > 0
    ensures i < |cands|
    ensures forall j :: 0 <= j < |cands| ==> !Better(cands[j], cands[i])
    ensures forall j :: 0 <= j < i ==> Better(cands[i], cands[j])
  {
    if |cands| == 1 then 0
    else
      var n := |cands| - 1;
      var b := BestIndex(cands[..n]);
      assert forall j :: 0 <= j < n ==> cands[..n][j] == cands[j];
      if Better(cands[n], cands[b]) then
        assert forall j :: 0 <= j < n ==> Better(cands[n], cands[j]) by {
          forall j | 0 <= j < n ensures Better(cands[n], cands[j]) {
            BetterThroughUnbeaten(cands[n], cands[b], cands[j]);
          }
        }
        n
      else b
  }

  /** max(best_by_type.values(), key=(tier value, max score)) */
  function BestOf(cands: seq<Candidate>): Candidate
    requires |cands| > 0
  {
    cands[BestIndex(cands)]
  }

  /**
   * find_best_card_in_tierlist: an error when the tierlist has no cards
   * object or no eligible entry, else the best of the per-type bests.
   */
  method FindBestCardInTierlist(tierlist: Tierlist, myCards: seq<Card>) returns (r: Result<Candidate>)
    ensures r.Err? <==> tierlist.cards.None? || |Scan(tierlist.cards.value, MlbIds(myCards))| == 0
    ensures r.Ok? ==> r.value == BestOf(Scan(tierlist.cards.value, MlbIds(myCards)))
  {
    var best := BestCardsByType(tierlist, myCards);
    if best.Err? {
      return Err(best.error);
    }
    if |best.value| == 0 {
      return Err(NoValidCards);
    }
    return Ok(BestOf(best.value));
  }

  /**
   * The card to borrow ranks at least as high as every eligible entry of
   * the tierlist, and is not held at limit break 4.
   */
  lemma BestOverallRanksFirst(entries: seq<(string, RefCard)>, mlb: set<int>)
    requires |Scan(entries, mlb)| > 0
    ensures var b := BestOf(Scan(entries, mlb));
      && b.id !in mlb
      && forall j :: 0 <= j < |entries| && EligibleAt(entries, j, mlb).Some? ==>
           !Better(EligibleAt(entries, j, mlb).value, b)
  {
    var best := Scan(entries, mlb);
    ScanKeepsBestPerType(entries, mlb);
    var b := BestOf(best);
    var kb := BestIndex(best);
    forall j | 0 <= j < |entries| && EligibleAt(entries, j, mlb).Some?
      ensures !Better(EligibleAt(entries, j, mlb).value, b)
    {
      var c := EligibleAt(entries, j, mlb).value;
      var k := PositionOfType(best, c.cardType);
      var i :| Wins(entries, mlb, i, best[k]);
      assert OfType(entries, mlb, j, best[k].cardType);
      assert !Better(c, best[k]);
      assert !Better(best[k], b);
    }
  }
}
