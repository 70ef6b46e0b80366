/**
 * Camel cards (src/day-07.cc): hands of five cards are ranked by their type
 * (five of a kind down to high card) and then card by card; the answer is
 * the sum of each bid times the rank of its hand.  In part two 'J' is a
 * joker: the weakest card for comparisons, and counted as the most
 * frequent other card when classifying.
 */
module CamelCards {
  import opened Common
  import opened Splitting

  datatype Part = One | Two

  /** The cards of a part, weakest first. */
  function Alphabet(part: Part): string {
    if part == One then "23456789TJQKA" else "J23456789TQKA"
  }

  /** The thirteen cards: the digits 2 to 9 and the letters T, J, Q, K, A. */
  predicate IsCard(c: char) {
    '2' <= c <= '9' || c == 'T' || c == 'J' || c == 'Q' || c == 'K' || c == 'A'
  }

  /** `compare_cards<Part>(c1, c2)`: "c1 is strictly weaker than c2", for any two characters. */
  function CompareCards(part: Part, c1: char, c2: char): bool {
    if part == Two && c2 == 'J' then false
    else if part == Two && c1 == 'J' then true
    else if IsDigit(c1) then (if IsDigit(c2) then c1 < c2 else true)
    else if IsDigit(c2) then false
    else if part == One && c2 == 'J' then c1 == 'T'
    else if part == One && c1 == 'J' then c2 != 'T'
    else c1 > c2
  }

  /** The position of a card in its part's alphabet, weakest first. */
  function Strength(part: Part, c: char): (s: nat)
    requires IsCard(c)
    ensures s < 13
  {
    var shift := if part == Two then 1 else 0;
    if part == Two && c == 'J' then 0
    else if IsDigit(c) then (c as int - '2' as int) + shift
    else if c == 'T' then 8 + shift
    else if c == 'J' then 9
    else if c == 'Q' then 10
    else if c == 'K' then 11
    else 12
  }

  /** `Strength` numbers the cards in the order of `Alphabet`, one to one. */
  lemma StrengthIsPosition(part: Part, c: char)
    requires IsCard(c)
    ensures Alphabet(part)[Strength(part, c)] == c
  {
  }

  /**
   * `compare_cards` is the order of the strengths: in part one
   * 2 < 3 < ... < 9 < T < J < Q < K < A, and in part two J comes first.
   */
  lemma CompareCardsByStrength(part: Part, c1: char, c2: char)
    requires IsCard(c1) && IsCard(c2)
    ensures CompareCards(part, c1, c2) <==> Strength(part, c1) < Strength(part, c2)
  {
  }

  /** Nothing is strictly weaker than J in part two, and J is weaker than every other card. */
  lemma JokerIsWeakest(c: char)
    ensures !CompareCards(Two, c, 'J')
    ensures c != 'J' ==> CompareCards(Two, 'J', c)
  {
  }

  /** No card is strictly weaker than itself, whatever the characters. */
  lemma CompareCardsIrreflexive(part: Part, c: char)
    ensures !CompareCards(part, c, c)
  {
  }

  // ---------------------------------------------------------------------
  // Hand types
  // ---------------------------------------------------------------------

  /** `card_hand::hand_type`. */
  datatype HandType = HighCard | OnePair | TwoPair | ThreeOfAKind | FullHouse | FourOfAKind | FiveOfAKind

  /** The enumerator's value, 1 for high card up to 7 for five of a kind. */
  function Rank(t: HandType): nat {
    match t
    case HighCard => 1
    case OnePair => 2
    case TwoPair => 3
    case ThreeOfAKind => 4
    case FullHouse => 5
    case FourOfAKind => 6
    case FiveOfAKind => 7
  }

  /** The decision at the end of `compute_type`, from the largest count and the number of distinct cards counted. */
  function Classify(maxCount: nat, distinct: nat): HandType {
    if maxCount == 5 then FiveOfAKind
    else if maxCount == 4 then FourOfAKind
    else if maxCount == 1 then HighCard
    else if maxCount == 2 then (if distinct == 4 then OnePair else TwoPair)
    else if distinct == 2 then FullHouse
    else ThreeOfAKind
  }

  /** How many times `c` occurs in `cards`. */
  function Count(cards: string, c: char): nat {
    multiset(cards)[c]
  }

  /** The number of jokers moved onto the most frequent card: the J count in part two unless all five are J. */
  function Jokers(part: Part, cards: string): nat {
    if part == Two && 0 < Count(cards, 'J') < 5 then Count(cards, 'J') else 0
  }

  /** The distinct cards left in the counter: the J entry is erased when the jokers are moved. */
  function Counted(part: Part, cards: string): set<char> {
    var all := set k | 0 <= k < |cards| :: cards[k];
    if Jokers(part, cards) > 0 then all - {'J'} else all
  }

  /** The largest count among the cards of `cards[i..]` that are in `keys`. */
  function MaxCountFrom(cards: string, keys: set<char>, i: nat): (m: nat)
    requires i <= |cards|
    ensures forall k :: i <= k < |cards| && cards[k] in keys ==> Count(cards, cards[k]) <= m
    ensures m == 0 || exists k :: i <= k < |cards| && cards[k] in keys && Count(cards, cards[k]) == m
    decreases |cards| - i
  {
    if i == |cards| then 0
    else
      var rest := MaxCountFrom(cards, keys, i + 1);
      var here := if cards[i] in keys then Count(cards, cards[i]) else 0;
      if here > rest then here else rest
  }

  /** The largest count left in the counter once the jokers have been added to it. */
  function RaisedMax(part: Part, cards: string): nat {
    MaxCountFrom(cards, Counted(part, cards), 0) + Jokers(part, cards)
  }

  /** What `compute_type` returns. */
  function TypeOf(part: Part, cards: string): HandType {
    Classify(RaisedMax(part, cards), |Counted(part, cards)|)
  }

  /** Five equal cards make five of a kind in both parts; JJJJJ stays five of a kind in part two. */
  lemma FiveEqualCards(part: Part, c: char)
    ensures TypeOf(part, [c, c, c, c, c]) == FiveOfAKind
  {
    var cards := [c, c, c, c, c];
    assert multiset(cards)[c] == 5;
    assert Jokers(part, cards) == 0;
    assert Counted(part, cards) == {c};
    assert MaxCountFrom(cards, {c}, 4) == 5;
  }

  /** Five different cards make a high card in part one. */
  lemma FiveDifferentCards(cards: string)
    requires |cards| == 5 && forall i, j :: 0 <= i < j < 5 ==> cards[i] != cards[j]
    ensures TypeOf(One, cards) == HighCard
  {
    forall k | 0 <= k < 5 ensures Count(cards, cards[k]) == 1 {
      CountDistinct(cards, k);
    }
    assert cards[0] in Counted(One, cards);
  }

  lemma CountDistinct(cards: string, k: nat)
    requires |cards| == 5 && k < 5 && forall i, j :: 0 <= i < j < 5 ==> cards[i] != cards[j]
    ensures Count(cards, cards[k]) == 1
  {
    assert cards == [cards[0], cards[1], cards[2], cards[3], cards[4]];
    assert multiset(cards) == multiset{cards[0], cards[1], cards[2], cards[3], cards[4]};
  }

  /** In part two the jokers join the most frequent other card: with j jokers (0 < j < 5) the largest count is raised by j. */
  lemma JokersJoinTheLargestCount(cards: string)
    requires 0 < Count(cards, 'J') < 5
    ensures TypeOf(Two, cards) == Classify(MaxCountFrom(cards, Counted(Two, cards), 0) + Count(cards, 'J'), |Counted(Two, cards)|)
    ensures 'J' !in Counted(Two, cards)
  {
    assert RaisedMax(Two, cards) == MaxCountFrom(cards, Counted(Two, cards), 0) + Count(cards, 'J');
  }

  /**
   * `max_element` needs a non-empty counter: the hand has a card, and in
   * part two it is not made of fewer than five J, all of which would be erased.
   */
  predicate CounterLeftNonEmpty(part: Part, cards: string) {
    |cards| > 0 && !(part == Two && Count(cards, 'J') == |cards| && |cards| < 5)
  }

  /** The counter of `compute_type` after the first `i` cards. */
  predicate Tallies(counter: map<char, nat>, cards: string) {
    (forall c :: c in counter <==> c in multiset(cards)) &&
    forall c :: c in counter ==> counter[c] == multiset(cards)[c]
  }

  lemma TalliesExtend(counter: map<char, nat>, cards: string, i: nat)
    requires i < |cards| && Tallies(counter, cards[..i])
    ensures Tallies(counter[cards[i] := (if cards[i] in counter then counter[cards[i]] else 0) + 1], cards[..i + 1])
  {
    assert cards[..i + 1] == cards[..i] + [cards[i]];
  }

  /** The keys of the full counter are the cards that occur. */
  lemma CounterKeys(counter: map<char, nat>, part: Part, cards: string)
    requires Tallies(counter, cards)
    ensures counter.Keys == set k | 0 <= k < |cards| :: cards[k]
  {
    forall c | c in counter ensures exists k :: 0 <= k < |cards| && cards[k] == c {
      assert c in multiset(cards);
      assert c in cards;
    }
  }

  /**
   * `card_hand::compute_type`: count the cards in a map, in part two move
   * the jokers' count onto the largest entry (unless all five are J), then
   * classify.  `max_element` may pick any of several largest entries.
   */
  method ComputeType(part: Part, cards: string) returns (t: HandType)
    requires CounterLeftNonEmpty(part, cards)
    ensures t == TypeOf(part, cards)
  {
    var counter: map<char, nat> := map[];
    var i := 0;
    while i < |cards|
      invariant 0 <= i <= |cards|
      invariant Tallies(counter, cards[..i])
    {
      TalliesExtend(counter, cards, i);
      counter := counter[cards[i] := (if cards[i] in counter then counter[cards[i]] else 0) + 1];
      i := i + 1;
    }
    assert cards[..i] == cards;
    ghost var full := counter;
    var wildcardCount := 0;
    if part == Two && 'J' in counter && counter['J'] < 5 {
      wildcardCount := wildcardCount + counter['J'];
      counter := counter - {'J'};
    }
    AfterErase(full, part, cards, counter, wildcardCount);
    var best :| best in counter && forall k :: k in counter ==> counter[k] <= counter[best];
    ghost var erased := counter;
    counter := counter[best := counter[best] + wildcardCount];
    var maxCount := counter[best];
    AfterRaise(erased, part, cards, best, wildcardCount, counter);
    if maxCount == 5 {
      t := FiveOfAKind;
    } else if maxCount == 4 {
      t := FourOfAKind;
    } else if maxCount == 1 {
      t := HighCard;
    } else if maxCount == 2 {
      t := if |counter| == 4 then OnePair else TwoPair;
    } else {
      t := if |counter| == 2 then FullHouse else ThreeOfAKind;
    }
  }

  /** What the counter holds once the jokers have been taken out of it. */
  lemma AfterErase(full: map<char, nat>, part: Part, cards: string, counter: map<char, nat>, w: nat)
    requires CounterLeftNonEmpty(part, cards) && Tallies(full, cards)
    requires part == Two && 'J' in full && full['J'] < 5 ==> counter == full - {'J'} && w == full['J']
    requires !(part == Two && 'J' in full && full['J'] < 5) ==> counter == full && w == 0
    ensures counter.Keys == Counted(part, cards) && w == Jokers(part, cards) && |counter| > 0
    ensures forall c :: c in counter ==> c in multiset(cards) && counter[c] == multiset(cards)[c]
    ensures exists best :: best in counter && forall k :: k in counter ==> counter[k] <= counter[best]
  {
    CounterKeys(full, part, cards);
    var some: nat;
    if Jokers(part, cards) > 0 {
      assert Count(cards, 'J') <= |cards| by {
        assert |multiset(cards)| == |cards|;
      }
      NotAllJokers(cards);
      some :| some < |cards| && cards[some] != 'J';
    } else {
      some := 0;
    }
    assert cards[some] in counter;
    LargestEntryExists(counter, cards, some);
  }

  /** A counter holding the counts of some of the cards has a largest entry (what `max_element` finds). */
  lemma LargestEntryExists(counter: map<char, nat>, cards: string, some: nat)
    requires some < |cards| && cards[some] in counter
    requires forall c :: c in counter ==> c in multiset(cards) && counter[c] == multiset(cards)[c]
    ensures exists best :: best in counter && forall k :: k in counter ==> counter[k] <= counter[best]
  {
    var m := MaxCountFrom(cards, counter.Keys, 0);
    assert Count(cards, cards[some]) <= m;
    var top :| 0 <= top < |cards| && cards[top] in counter.Keys && Count(cards, cards[top]) == m;
    forall c | c in counter ensures counter[c] <= counter[cards[top]] {
      assert c in cards;
      var j :| 0 <= j < |cards| && cards[j] == c;
    }
  }

  /** Raising the largest entry by the jokers gives the largest count plus the jokers, over the same keys. */
  lemma AfterRaise(erased: map<char, nat>, part: Part, cards: string, best: char, w: nat, counter: map<char, nat>)
    requires erased.Keys == Counted(part, cards) && w == Jokers(part, cards)
    requires forall c :: c in erased ==> c in multiset(cards) && erased[c] == multiset(cards)[c]
    requires best in erased && forall k :: k in erased ==> erased[k] <= erased[best]
    requires counter == erased[best := erased[best] + w]
    ensures Classify(counter[best], |counter|) == TypeOf(part, cards)
  {
    var keys := Counted(part, cards);
    MaxOfCounterRestricted(erased, cards, best);
    UpdateKeepsSize(erased, best, erased[best] + w);
    assert |counter| == |keys| by {
      assert |erased| == |erased.Keys|;
    }
    assert counter[best] == RaisedMax(part, cards);
  }

  /** Overwriting the entry of a key that is present keeps the number of entries. */
  lemma UpdateKeepsSize(m: map<char, nat>, k: char, v: nat)
    requires k in m
    ensures |m[k := v]| == |m|
  {
    assert m[k := v].Keys == m.Keys;
  }

  lemma NotAllJokers(cards: string)
    requires Count(cards, 'J') < |cards|
    ensures exists k :: 0 <= k < |cards| && cards[k] != 'J'
  {
    AllJokersCount(cards);
  }

  lemma {:induction false} AllJokersCount(cards: string)
    ensures (forall k :: 0 <= k < |cards| ==> cards[k] == 'J') ==> Count(cards, 'J') == |cards|
  {
    if cards != [] {
      AllJokersCount(cards[1..]);
      assert cards == [cards[0]] + cards[1..];
      assert forall k :: 1 <= k < |cards| ==> cards[1..][k - 1] == cards[k];
    }
  }

  /** The largest entry of the counter is the largest count of the cards it holds. */
  lemma MaxOfCounterRestricted(counter: map<char, nat>, cards: string, best: char)
    requires best in counter && forall k :: k in counter ==> counter[k] <= counter[best]
    requires forall c :: c in counter ==> c in multiset(cards) && counter[c] == multiset(cards)[c]
    ensures counter[best] == MaxCountFrom(cards, counter.Keys, 0)
  {
    assert best in multiset(cards);
    var i :| 0 <= i < |cards| && cards[i] == best;
    var m := MaxCountFrom(cards, counter.Keys, 0);
    assert Count(cards, cards[i]) <= m;
    if m > 0 {
      var k :| 0 <= k < |cards| && cards[k] in counter.Keys && Count(cards, cards[k]) == m;
      assert counter[cards[k]] <= counter[best];
    }
  }

  // ---------------------------------------------------------------------
  // Hands and their order
  // ---------------------------------------------------------------------

  /** `card_hand`: the cards, the type computed from them, and the bid. */
  datatype Hand = Hand(cards: string, handType: HandType, bid: u32)

  /** The `card_hand` constructor: the type is computed once, from the cards. */
  method NewHand(part: Part, cards: string, bid: u32) returns (h: Hand)
    requires CounterLeftNonEmpty(part, cards)
    ensures h.cards == cards && h.bid == bid && h.handType == TypeOf(part, cards)
  {
    var t := ComputeType(part, cards);
    h := Hand(cards, t, bid);
  }

  /** A hand as the input writes it: five cards, its type computed from them. */
  predicate ValidHand(part: Part, h: Hand) {
    WellFormedCards(h.cards) && h.handType == TypeOf(part, h.cards)
  }

  /** The loop of `operator<` from position `i`: the first differing card decides. */
  function CardsLess(part: Part, a: string, b: string, i: nat): bool
    requires |a| >= 5 && |b| >= 5 && i <= 5
    decreases 5 - i
  {
    if i == 5 then false
    else if a[i] != b[i] then CompareCards(part, a[i], b[i])
    else CardsLess(part, a, b, i + 1)
  }

  /** `card_hand::operator<`: the type first, then the cards from the left. */
  function HandLess(part: Part, h1: Hand, h2: Hand): bool
    requires |h1.cards| >= 5 && |h2.cards| >= 5
  {
    if h1.handType != h2.handType then Rank(h1.handType) < Rank(h2.handType)
    else CardsLess(part, h1.cards, h2.cards, 0)
  }

  function Pow13(n: nat): (p: nat)
    ensures p >= 1
  {
    if n == 0 then 1 else 13 * Pow13(n - 1)
  }

  /** 13^5: the number of five-card strings, and the weight of a hand's type in its key. */
  const TypeWeight: nat := 371293

  /** The cards read as a number in base 13, the first card the most significant digit. */
  function Value(part: Part, s: string): nat
    requires forall k :: 0 <= k < |s| ==> IsCard(s[k])
  {
    if s == [] then 0 else 13 * Value(part, s[..|s| - 1]) + Strength(part, s[|s| - 1])
  }

  /** A numeric sort key: the type's rank, then the cards in base 13. */
  function Key(part: Part, h: Hand): nat
    requires WellFormedCards(h.cards)
  {
    Rank(h.handType) * TypeWeight + Value(part, h.cards)
  }

  lemma {:induction false} ValueBound(part: Part, s: string)
    requires forall k :: 0 <= k < |s| ==> IsCard(s[k])
    ensures Value(part, s) < Pow13(|s|)
    decreases |s|
  {
    if s != [] {
      ValueBound(part, s[..|s| - 1]);
    }
  }

  /** Two strings of cards that agree before position `i` and differ at `i` are ordered by that card. */
  lemma {:induction false} ValueOrder(part: Part, s: string, t: string, i: nat)
    requires |s| == |t| && i < |s|
    requires forall k :: 0 <= k < |s| ==> IsCard(s[k]) && IsCard(t[k])
    requires s[..i] == t[..i] && Strength(part, s[i]) < Strength(part, t[i])
    ensures Value(part, s) < Value(part, t)
    decreases |s|
  {
    var n := |s| - 1;
    if i == n {
      assert s[..n] == t[..n];
    } else {
      assert s[..n][..i] == t[..n][..i] by {
        assert s[..n][..i] == s[..i] && t[..n][..i] == t[..i];
      }
      ValueOrder(part, s[..n], t[..n], i);
    }
  }

  /** Equal cards have equal strengths, so the strength determines the card. */
  lemma StrengthInjective(part: Part, c1: char, c2: char)
    requires IsCard(c1) && IsCard(c2) && Strength(part, c1) == Strength(part, c2)
    ensures c1 == c2
  {
    StrengthIsPosition(part, c1);
    StrengthIsPosition(part, c2);
  }

  /** From position `i` on, the loop of `operator<` compares the base-13 values. */
  lemma {:induction false} CardsLessIsValueLess(part: Part, a: string, b: string, i: nat)
    requires |a| == 5 && |b| == 5 && i <= 5
    requires forall k :: 0 <= k < 5 ==> IsCard(a[k]) && IsCard(b[k])
    requires a[..i] == b[..i]
    ensures CardsLess(part, a, b, i) <==> Value(part, a) < Value(part, b)
    decreases 5 - i
  {
    if i == 5 {
      assert a == a[..5] && b == b[..5];
    } else if a[i] != b[i] {
      CompareCardsByStrength(part, a[i], b[i]);
      if Strength(part, a[i]) < Strength(part, b[i]) {
        ValueOrder(part, a, b, i);
      } else {
        if Strength(part, a[i]) == Strength(part, b[i]) {
          StrengthInjective(part, a[i], b[i]);
        }
        ValueOrder(part, b, a, i);
      }
    } else {
      assert a[..i + 1] == a[..i] + [a[i]] && b[..i + 1] == b[..i] + [b[i]];
      CardsLessIsValueLess(part, a, b, i + 1);
    }
  }

  lemma RankInjective(t1: HandType, t2: HandType)
    requires t1 != t2
    ensures Rank(t1) != Rank(t2)
  {
  }

  /**
   * `operator<` on well-formed hands is the order of the numeric keys: it
   * is a strict total order on the card strings, as `std::sort` needs.
   */
  lemma HandLessIsKeyLess(part: Part, h1: Hand, h2: Hand)
    requires WellFormedCards(h1.cards) && WellFormedCards(h2.cards)
    ensures HandLess(part, h1, h2) <==> Key(part, h1) < Key(part, h2)
  {
    ValueBound(part, h1.cards);
    ValueBound(part, h2.cards);
    assert Pow13(5) == TypeWeight;
    if h1.handType != h2.handType {
      RankInjective(h1.handType, h2.handType);
    } else {
      CardsLessIsValueLess(part, h1.cards, h2.cards, 0);
    }
  }

  /** Two well-formed hands neither of which is less than the other have the same cards. */
  lemma EquivalentHandsHaveEqualCards(part: Part, h1: Hand, h2: Hand)
    requires WellFormedCards(h1.cards) && WellFormedCards(h2.cards)
    requires !HandLess(part, h1, h2) && !HandLess(part, h2, h1)
    ensures h1.cards == h2.cards
  {
    if h1.handType == h2.handType {
      CardsEqualFrom(part, h1.cards, h2.cards, 0);
    }
  }

  lemma {:induction false} CardsEqualFrom(part: Part, a: string, b: string, i: nat)
    requires |a| == 5 && |b| == 5 && i <= 5 && a[..i] == b[..i]
    requires forall k :: 0 <= k < 5 ==> IsCard(a[k]) && IsCard(b[k])
    requires !CardsLess(part, a, b, i) && !CardsLess(part, b, a, i)
    ensures a == b
    decreases 5 - i
  {
    if i == 5 {
      assert a == a[..5] && b == b[..5];
    } else if a[i] != b[i] {
      CompareCardsByStrength(part, a[i], b[i]);
      CompareCardsByStrength(part, b[i], a[i]);
      StrengthInjective(part, a[i], b[i]);
    } else {
      assert a[..i + 1] == a[..i] + [a[i]] && b[..i + 1] == b[..i] + [b[i]];
      CardsEqualFrom(part, a, b, i + 1);
    }
  }

  // ---------------------------------------------------------------------
  // Winnings
  // ---------------------------------------------------------------------

  /** The sort keys of the hands, in order. */
  function KeysOf(part: Part, s: seq<Hand>): (ks: seq<nat>)
    requires AllWellFormed(s)
    ensures |ks| == |s| && forall k :: 0 <= k < |s| ==> ks[k] == Key(part, s[k])
  {
    seq(|s|, k requires 0 <= k < |s| => Key(part, s[k]))
  }

  predicate NonDecreasing(ks: seq<int>) {
    forall x, y :: 0 <= x < y < |ks| ==> ks[x] <= ks[y]
  }

  /** Every hand has five cards, and the keys are in non-decreasing order. */
  predicate SortedHands(part: Part, s: seq<Hand>) {
    AllWellFormed(s) && NonDecreasing(KeysOf(part, s))
  }

  method Swap(a: array<Hand>, i: int, j: int)
    requires 0 <= i < j < a.Length
    modifies a
    ensures a[..] == old(a[..])[i := old(a[..])[j]][j := old(a[..])[i]]
    ensures multiset(a[..]) == multiset(old(a[..]))
  {
    var t := a[i];
    a[i] := a[j];
    a[j] := t;
  }

  /** Every hand of `s` has five cards of the thirteen. */
  predicate AllWellFormed(s: seq<Hand>) {
    forall k :: 0 <= k < |s| ==> WellFormedCards(s[k].cards)
  }

  /** Every hand of `s` is well formed and carries the type of its cards. */
  predicate AllValid(part: Part, s: seq<Hand>) {
    forall k :: 0 <= k < |s| ==> ValidHand(part, s[k])
  }

  /** Swapping two neighbours swaps their keys and keeps every hand well formed. */
  lemma SwapKeys(part: Part, s: seq<Hand>, j: nat)
    requires 0 < j < |s| && AllWellFormed(s)
    ensures var ks := KeysOf(part, s);
            KeysOf(part, s[j - 1 := s[j]][j := s[j - 1]]) == ks[j - 1 := ks[j]][j := ks[j - 1]]
    ensures AllWellFormed(s[j - 1 := s[j]][j := s[j - 1]])
  {
  }

  lemma PrefixKeys(part: Part, s: seq<Hand>, n: nat)
    requires n <= |s| && AllWellFormed(s)
    ensures KeysOf(part, s[..n]) == KeysOf(part, s)[..n]
    ensures AllWellFormed(s[..n])
  {
  }

  /**
   * Halfway through an insertion: `ks[..i + 1]` is in order except for the
   * key at `j`, which is smaller than every key to its right.
   */
  predicate Sinking(ks: seq<int>, i: nat, j: nat)
    requires j <= i < |ks|
  {
    (forall x, y :: 0 <= x < y <= i && x != j && y != j ==> ks[x] <= ks[y]) &&
    forall y :: j < y <= i ==> ks[j] < ks[y]
  }

  lemma SinkingStart(ks: seq<int>, i: nat)
    requires i < |ks| && NonDecreasing(ks[..i])
    ensures Sinking(ks, i, i)
  {
    forall x, y | 0 <= x < y <= i && x != i && y != i ensures ks[x] <= ks[y] {
      assert ks[x] == ks[..i][x] && ks[y] == ks[..i][y];
    }
  }

  /** Swapping the sinking key with a larger left neighbour moves the gap one place left. */
  lemma SinkingStep(ks: seq<int>, i: nat, j: nat)
    requires 0 < j <= i < |ks| && Sinking(ks, i, j) && ks[j] < ks[j - 1]
    ensures Sinking(ks[j - 1 := ks[j]][j := ks[j - 1]], i, j - 1)
  {
  }

  /** One swap of the insertion, on the hands. */
  lemma SinkHand(part: Part, s: seq<Hand>, t: seq<Hand>, i: nat, j: nat)
    requires 0 < j <= i < |s| && AllWellFormed(s) && Sinking(KeysOf(part, s), i, j)
    requires Key(part, s[j]) < Key(part, s[j - 1])
    requires t == s[j - 1 := s[j]][j := s[j - 1]]
    ensures AllWellFormed(t) && Sinking(KeysOf(part, t), i, j - 1)
  {
    SwapKeys(part, s, j);
    SinkingStep(KeysOf(part, s), i, j);
  }

  /** Once the sinking key is not smaller than its left neighbour, the prefix is in order. */
  lemma SinkingDone(ks: seq<int>, i: nat, j: nat)
    requires j <= i < |ks| && Sinking(ks, i, j)
    requires j > 0 ==> ks[j - 1] <= ks[j]
    ensures NonDecreasing(ks[..i + 1])
  {
    var t := ks[..i + 1];
    forall x, y | 0 <= x < y < |t| ensures t[x] <= t[y] {
      if x == j {
        assert ks[j] < ks[y];
      } else if y == j {
        assert ks[x] <= ks[j - 1] || x == j - 1;
      }
    }
  }

  /** Swaps the sinking hand `a[j]` with its larger left neighbour. */
  method SinkOnce(part: Part, a: array<Hand>, i: nat, j: nat)
    requires 0 < j <= i < a.Length && AllWellFormed(a[..])
    requires Sinking(KeysOf(part, a[..]), i, j) && Key(part, a[j]) < Key(part, a[j - 1])
    modifies a
    ensures AllWellFormed(a[..]) && Sinking(KeysOf(part, a[..]), i, j - 1)
    ensures multiset(a[..]) == multiset(old(a[..]))
  {
    ghost var s := a[..];
    Swap(a, j - 1, j);
    SinkHand(part, s, a[..], i, j);
  }

  /**
   * Sinks `a[i]` into the sorted prefix `a[..i]` by swapping it with its
   * left neighbour while `operator<` says it is smaller.
   */
  method InsertHand(part: Part, a: array<Hand>, i: int)
    requires 0 < i < a.Length && AllWellFormed(a[..]) && SortedHands(part, a[..i])
    modifies a
    ensures AllWellFormed(a[..]) && SortedHands(part, a[..i + 1])
    ensures multiset(a[..]) == multiset(old(a[..]))
  {
    var j := i;
    PrefixKeys(part, a[..], i);
    SinkingStart(KeysOf(part, a[..]), i);
    while j > 0 && HandLess(part, a[j], a[j - 1])
      invariant 0 <= j <= i
      invariant AllWellFormed(a[..]) && Sinking(KeysOf(part, a[..]), i, j)
      invariant multiset(a[..]) == multiset(old(a[..]))
    {
      HandLessIsKeyLess(part, a[j], a[j - 1]);
      SinkOnce(part, a, i, j);
      j := j - 1;
    }
    if j > 0 {
      HandLessIsKeyLess(part, a[j], a[j - 1]);
    }
    SinkingDone(KeysOf(part, a[..]), i, j);
    PrefixKeys(part, a[..], i + 1);
  }

  /** The `std::sort` of `winnings`, here an insertion sort with the same order. */
  method SortHands(part: Part, a: array<Hand>)
    requires AllWellFormed(a[..])
    modifies a
    ensures SortedHands(part, a[..])
    ensures multiset(a[..]) == multiset(old(a[..]))
  {
    if a.Length == 0 {
      return;
    }
    var i := 1;
    while i < a.Length
      invariant 1 <= i <= a.Length
      invariant SortedHands(part, a[..i]) && AllWellFormed(a[..])
      invariant multiset(a[..]) == multiset(old(a[..]))
    {
      InsertHand(part, a, i);
      i := i + 1;
    }
    assert a[..i] == a[..];
  }

  /** The sum of each bid times its hand's rank, the rank being its position plus one. */
  function WinningsOf(s: seq<Hand>): nat {
    if s == [] then 0 else WinningsOf(s[..|s| - 1]) + |s| * s[|s| - 1].bid
  }

  /** The summing loop of `winnings`, over the sorted hands. */
  method SumWinnings(hands: array<Hand>) returns (res: nat)
    ensures res == WinningsOf(hands[..])
  {
    res := 0;
    var i := 0;
    while i < hands.Length
      invariant 0 <= i <= hands.Length
      invariant res == WinningsOf(hands[..i])
    {
      ghost var prefix := hands[..i + 1];
      assert prefix[..i] == hands[..i] && prefix[i] == hands[i];
      res := res + (i + 1) * hands[i].bid;
      i := i + 1;
    }
    assert hands[..i] == hands[..];
  }

  /** `winnings`: sort the hands, then add up rank times bid. */
  method Winnings(part: Part, hands: array<Hand>) returns (res: nat)
    requires AllWellFormed(hands[..])
    modifies hands
    ensures SortedHands(part, hands[..])
    ensures multiset(hands[..]) == multiset(old(hands[..]))
    ensures res == WinningsOf(hands[..])
  {
    SortHands(part, hands);
    res := SumWinnings(hands);
  }

  // ---------------------------------------------------------------------
  // Parsing "32T3K 765"
  // ---------------------------------------------------------------------

  /** Five cards of the thirteen. */
  predicate WellFormedCards(cards: string) {
    |cards| == 5 && forall k :: 0 <= k < 5 ==> IsCard(cards[k])
  }

  /** One non-empty line: the cards before the first " ", the bid after it. */
  function HandOf(part: Part, line: string): (r: Result<Hand, string>)
    ensures r.Ok? ==> ValidHand(part, r.value) && r.value.cards == SplitOnce(line, " ").0
    ensures r.Ok? ==> r.value.bid == ParseU32(SplitOnce(line, " ").1)
    ensures r.Err? <==> !WellFormedCards(SplitOnce(line, " ").0)
  {
    var (cards, valueRepr) := SplitOnce(line, " ");
    if WellFormedCards(cards) then Ok(Hand(cards, TypeOf(part, cards), ParseU32(valueRepr)))
    else Err("a hand is not five cards")
  }

  /** The hands of the input in order, empty lines skipped; the first malformed hand is an error. */
  function HandsOf(part: Part, lines: seq<string>): Result<seq<Hand>, string> {
    if lines == [] then Ok([])
    else
      match HandsOf(part, lines[..|lines| - 1])
      case Err(msg) => Err(msg)
      case Ok(hs) =>
        var line := lines[|lines| - 1];
        if |line| == 0 then Ok(hs)
        else
          match HandOf(part, line)
          case Err(msg) => Err(msg)
          case Ok(h) => Ok(hs + [h])
  }

  /** The non-empty lines, in order. */
  function NonEmpty(lines: seq<string>): seq<string> {
    if lines == [] then []
    else NonEmpty(lines[..|lines| - 1]) + (if |lines[|lines| - 1]| == 0 then [] else [lines[|lines| - 1]])
  }

  /** There is one hand per non-empty line, the one that line denotes; every hand is well formed. */
  lemma {:induction false} HandsOfLines(part: Part, lines: seq<string>)
    requires HandsOf(part, lines).Ok?
    ensures |HandsOf(part, lines).value| == |NonEmpty(lines)|
    ensures forall k :: 0 <= k < |NonEmpty(lines)| ==> HandOf(part, NonEmpty(lines)[k]) == Ok(HandsOf(part, lines).value[k])
    ensures AllValid(part, HandsOf(part, lines).value)
    decreases |lines|
  {
    if lines != [] {
      HandsOfLines(part, lines[..|lines| - 1]);
    }
  }

  /** Once a line fails, the whole input fails. */
  lemma {:induction false} HandsOfErrPersists(part: Part, lines: seq<string>, i: nat)
    requires i <= |lines| && HandsOf(part, lines[..i]).Err?
    ensures HandsOf(part, lines) == HandsOf(part, lines[..i])
    decreases |lines| - i
  {
    if i < |lines| {
      assert lines[..i + 1][..i] == lines[..i];
      HandsOfErrPersists(part, lines, i + 1);
    } else {
      assert lines[..i] == lines;
    }
  }

  /** One more line: skipped when empty, otherwise its hand appended or its error returned. */
  lemma HandsOfSnoc(part: Part, lines: seq<string>, i: nat)
    requires i < |lines|
    ensures HandsOf(part, lines[..i]).Ok? && |lines[i]| == 0 ==> HandsOf(part, lines[..i + 1]) == HandsOf(part, lines[..i])
    ensures HandsOf(part, lines[..i]).Ok? && |lines[i]| > 0 && HandOf(part, lines[i]).Err? ==>
              HandsOf(part, lines[..i + 1]) == Err(HandOf(part, lines[i]).error)
    ensures HandsOf(part, lines[..i]).Ok? && |lines[i]| > 0 && HandOf(part, lines[i]).Ok? ==>
              HandsOf(part, lines[..i + 1]) == Ok(HandsOf(part, lines[..i]).value + [HandOf(part, lines[i]).value])
  {
    assert lines[..i + 1][..i] == lines[..i];
  }

  /** The body of the reading loop of `process` for a non-empty line: split it, check the cards, build the hand. */
  method ReadHand(part: Part, line: string) returns (r: Result<Hand, string>)
    ensures r == HandOf(part, line)
  {
    var (cards, valueRepr) := SplitOnce(line, " ");
    if !WellFormedCards(cards) {
      return Err("a hand is not five cards");
    }
    var h := NewHand(part, cards, ParseU32(valueRepr));
    return Ok(h);
  }

  /** The reading loop of `process`: one `card_hand` per non-empty line. */
  method ParseHands(part: Part, lines: seq<string>) returns (r: Result<seq<Hand>, string>)
    ensures r == HandsOf(part, lines)
  {
    var hands: seq<Hand> := [];
    var i := 0;
    while i < |lines|
      invariant 0 <= i <= |lines|
      invariant HandsOf(part, lines[..i]) == Ok(hands)
    {
      var next := ParseStep(part, lines, i, hands);
      if next.Err? {
        return next;
      }
      hands := next.value;
      i := i + 1;
    }
    assert lines[..i] == lines;
    r := Ok(hands);
  }

  /** One turn of the reading loop: line `i` skipped, read into a hand, or the failure of the whole input. */
  method ParseStep(part: Part, lines: seq<string>, i: nat, hands: seq<Hand>) returns (r: Result<seq<Hand>, string>)
    requires i < |lines| && HandsOf(part, lines[..i]) == Ok(hands)
    ensures r.Ok? ==> HandsOf(part, lines[..i + 1]) == r
    ensures r.Err? ==> HandsOf(part, lines) == r
  {
    var line := lines[i];
    HandsOfSnoc(part, lines, i);
    if |line| == 0 {
      return Ok(hands);
    }
    var h := ReadHand(part, line);
    if h.Err? {
      HandsOfErrPersists(part, lines, i + 1);
      return Err(h.error);
    }
    return Ok(hands + [h.value]);
  }

  /**
   * `process`: parse, sort and add up.  The total is that of an order of
   * the parsed hands sorted by `operator<`.
   */
  method Process(part: Part, lines: seq<string>) returns (r: Result<nat, string>)
    ensures r.Err? <==> HandsOf(part, lines).Err?
    ensures r.Ok? ==> exists s :: SortedHands(part, s) && multiset(s) == multiset(HandsOf(part, lines).value) && r.value == WinningsOf(s)
  {
    var parsed := ParseHands(part, lines);
    if parsed.Err? {
      return Err(parsed.error);
    }
    var hs := parsed.value;
    HandsOfLines(part, lines);
    var a := new Hand[|hs|](k requires 0 <= k < |hs| => hs[k]);
    assert a[..] == hs;
    var total := Winnings(part, a);
    r := Ok(total);
  }
}
