/**
 * The records shared by every command (py/util.py): a card of the user's
 * collection, an entry of the precomputed tierlist, and the type names.
 *
 * A JSON object is a record whose every key is an `Option`: `None` stands
 * for a key that is absent or whose value is not of the expected JSON type,
 * so the source's `isinstance` checks become `Some?` tests.
 */
module Util {
  import opened Text

  datatype Option<+T> = None | Some(value: T) {
    /** `d.get(key, default)` */
    function GetOr(default: T): T {
      match this
      case Some(v) => v
      case None => default
    }
  }

  /** Why an operation gave up. */
  datatype Error =
    | InvalidRarity          // parse_rarity
    | InvalidType            // parse_type
    | MissingCards           // tierlist without a `cards` object
    | NoValidCards           // tierlist scan found nothing
    | TooManyCounts          // more than 6 positional counts
    | NoCardsRequested       // all counts sum to 0
    | TooManyCards(total: int)
    | NegativeCount          // only the corrected validation reports this
    | NotAList               // input file is not a JSON array
    | CorruptOutput          // existing output is not valid JSON (load_json exits)

  datatype Result<+T> = Ok(value: T) | Err(error: Error)

  /**
   * A card of the user's collection, enriched or not (UserCard and
   * EnrichedCard are the same JSON object, the latter with more keys).
   */
  datatype Card = Card(
    name: Option<string>,
    cardType: Option<int>,
    rarity: Option<int>,
    lb: Option<int>,
    id: Option<int>,
    score: Option<int>,
    tier: Option<string>)

  /** One entry of the tierlist's `cards` object. */
  datatype RefCard = RefCard(
    id: Option<int>,
    name: Option<string>,
    cardType: Option<int>,
    rarity: Option<int>,
    scores: Option<seq<int>>,
    tiers: Option<seq<string>>)

  /**
   * The tierlist file: `cards` is a JSON object, kept as its (key, entry)
   * pairs in the file's order, or `None` when the key is missing.
   */
  datatype Tierlist = Tierlist(cards: Option<seq<(string, RefCard)>>)

  /** `card.get("score", 0)`, the sort key of every ranking. */
  function ScoreOf(c: Card): int {
    c.score.GetOr(0)
  }

  /** TYPE_NAMES.get(t) */
  function TypeName(t: int): Option<string> {
    match t
    case 0 => Some("Speed")
    case 1 => Some("Stamina")
    case 2 => Some("Power")
    case 3 => Some("Guts")
    case 4 => Some("Wit")
    case 5 => Some("Friend")
    case _ => None
  }

  /** `d.get(key, [])` on a dictionary of lists. */
  function Lookup<K, V>(d: map<K, seq<V>>, key: K): seq<V> {
    if key in d then d[key] else []
  }

  /** A type's name, or "Type <t>" for one without a name. */
  function TypeLabel(t: int): string {
    match TypeName(t)
    case Some(n) => n
    case None => "Type " + Show(t)
  }

  /**
   * How a limit-break level is shown in a table cell or a card line: "MLB"
   * for the maximum, 4, and the number itself otherwise.
   */
  function LbLabel(lb: int): string {
    if lb == 4 then "MLB" else Show(lb)
  }

  /** How a rarity is shown: "SSR" for 3, "SR" for 2, the number otherwise. */
  function RarityLabel(rarity: int): string {
    if rarity == 3 then "SSR" else if rarity == 2 then "SR" else Show(rarity)
  }

  lemma LbLabelIsMlbExactlyAtMax(lb: int)
    ensures LbLabel(lb) == "MLB" <==> lb == 4
    ensures lb != 4 ==> LbLabel(lb) == Show(lb)
  {
    ShowHasNoLetters(lb);
    if lb != 4 {
      assert LbLabel(lb)[0] != 'M';
    }
  }

  lemma RarityLabelNamesOnlySrAndSsr(rarity: int)
    ensures RarityLabel(rarity) == "SSR" <==> rarity == 3
    ensures RarityLabel(rarity) == "SR" <==> rarity == 2
    ensures rarity != 2 && rarity != 3 ==> RarityLabel(rarity) == Show(rarity)
  {
    ShowHasNoLetters(rarity);
    if rarity != 2 && rarity != 3 {
      assert RarityLabel(rarity)[0] != 'S';
    }
  }

  /** No element is listed twice. */
  predicate Distinct<T(==)>(s: seq<T>) {
    forall i, j :: 0 <= i < j < |s| ==> s[i] != s[j]
  }

  lemma {:induction false} CountOfDistinct<T>(s: seq<T>, v: T)
    requires Distinct(s)
    ensures multiset(s)[v] <= 1
  {
    if |s| > 0 {
      var n := |s| - 1;
      CountOfDistinct(s[..n], v);
      assert s == s[..n] + [s[n]];
      assert s[n] !in s[..n];
    }
  }

  /** An element found at two positions occurs at least twice. */
  lemma CountOfRepeated<T>(s: seq<T>, i: int, j: int)
    requires 0 <= i < j < |s|
    ensures s[i] == s[j] ==> multiset(s)[s[i]] >= 2
  {
    assert s == s[..i] + [s[i]] + s[i + 1..j] + [s[j]] + s[j + 1..];
  }
}
