/**
 * Scratchcards (src/day-04.cc): a card holds the set of numbers we have and
 * the set of winning numbers.  The first match is worth 1 point and every
 * further match doubles the score, in `uint32_t`.
 */
module Scratchcards {
  import opened Common
  import opened Splitting

  /** `struct card`: two `std::unordered_set<uint32_t>`. */
  datatype Card = Card(weHave: set<u32>, winning: set<u32>)

  /** The numbers we have that are winning numbers. */
  function Matches(c: Card): set<u32> {
    c.weHave * c.winning
  }

  /** One step of the loop of `card_value`: 0 becomes 1, anything else is shifted left by one bit. */
  function Double(res: u32): (r: u32)
    ensures res == 0 ==> r == 1
    ensures res != 0 && 2 * res < U32_MODULUS ==> r == 2 * res
    ensures res != 0 && 2 * res >= U32_MODULUS ==> r == 2 * res - U32_MODULUS
  {
    if res == 0 then 1 else (2 * res) % U32_MODULUS
  }

  /** The score after `k` matches: `Double` applied `k` times to 0. */
  function Score(k: nat): u32 {
    if k == 0 then 0 else Double(Score(k - 1))
  }

  function Pow2(n: nat): (p: nat)
    ensures p >= 1
  {
    if n == 0 then 1 else 2 * Pow2(n - 1)
  }

  /** No match scores 0; k matches, for 1 <= k <= 32, score 2^(k-1). */
  lemma {:induction false} ScoreIsPowerOfTwo(k: nat)
    requires k <= 32
    ensures k == 0 ==> Score(k) == 0
    ensures k >= 1 ==> Score(k) == Pow2(k - 1)
  {
    if k >= 2 {
      ScoreIsPowerOfTwo(k - 1);
      Pow2Bound(k - 1);
    }
  }

  lemma Pow2Bound(n: nat)
    requires n <= 31
    ensures Pow2(n) <= 0x8000_0000
  {
    Pow2Monotone(n, 31);
    Pow2Value31();
  }

  lemma {:induction false} Pow2Monotone(n: nat, m: nat)
    requires n <= m
    ensures Pow2(n) <= Pow2(m)
    decreases m - n
  {
    if n < m {
      Pow2Monotone(n, m - 1);
    }
  }

  /** The 33rd match shifts the only set bit out of `uint32_t`: the score drops back to 0. */
  lemma ScoreWrapsAt33()
    ensures Score(32) == 0x8000_0000 && Score(33) == 0 && Score(34) == 1
  {
    ScoreIsPowerOfTwo(32);
    assert Pow2(31) == 0x8000_0000 by {
      Pow2Value31();
    }
  }

  lemma Pow2Value31()
    ensures Pow2(31) == 0x8000_0000
  {
    assert Pow2(8) == 256;
    assert Pow2(16) == 256 * Pow2(8) by {
      Pow2Add(8, 8);
    }
    assert Pow2(24) == 256 * Pow2(16) by {
      Pow2Add(16, 8);
    }
    assert Pow2(31) == 128 * Pow2(24) by {
      Pow2Add(24, 7);
    }
  }

  lemma {:induction false} Pow2Add(a: nat, b: nat)
    ensures Pow2(a + b) == Pow2(a) * Pow2(b)
    decreases b
  {
    if b > 0 {
      Pow2Add(a, b - 1);
      assert Pow2(a + b) == 2 * Pow2(a + b - 1);
    }
  }

  lemma MatchesInsert(seen: set<u32>, n: u32, winning: set<u32>)
    requires n !in seen
    ensures |(seen + {n}) * winning| == |seen * winning| + (if n in winning then 1 else 0)
  {
    if n in winning {
      assert (seen + {n}) * winning == seen * winning + {n};
    } else {
      assert (seen + {n}) * winning == seen * winning;
    }
  }

  /**
   * `card_value`: the loop over `we_have` in the set's own (unspecified)
   * order, doubling for each number that is also winning.
   */
  method CardValue(c: Card) returns (res: u32)
    ensures res == Score(|Matches(c)|)
  {
    res := 0;
    var remaining := c.weHave;
    ghost var seen: set<u32> := {};
    while remaining != {}
      invariant remaining + seen == c.weHave && remaining !! seen
      invariant res == Score(|seen * c.winning|)
      decreases |remaining|
    {
      var n :| n in remaining;
      MatchesInsert(seen, n, c.winning);
      if n in c.winning {
        res := if res == 0 then 1 else (2 * res) % U32_MODULUS;
      }
      remaining := remaining - {n};
      seen := seen + {n};
    }
  }

  /** The card scores of `cards`, summed without truncation. */
  function TotalScore(cards: seq<Card>): nat {
    if cards == [] then 0 else TotalScore(cards[..|cards| - 1]) + Score(|Matches(cards[|cards| - 1])|)
  }

  /** `compute_values`: the scores added up in `uint32_t`. */
  method ComputeValues(cards: seq<Card>) returns (res: u32)
    ensures res == TotalScore(cards) % U32_MODULUS
  {
    res := 0;
    var i := 0;
    while i < |cards|
      invariant 0 <= i <= |cards|
      invariant res == TotalScore(cards[..i]) % U32_MODULUS
    {
      assert cards[..i + 1][..i] == cards[..i];
      var v := CardValue(cards[i]);
      res := AddU32(res, v);
      i := i + 1;
    }
    assert cards[..i] == cards;
  }

  // ---------------------------------------------------------------------
  // Parsing "Card 1: 41 48 83 86 17 | 83 86  6 31 17  9 48 53"
  // ---------------------------------------------------------------------

  /** The numbers of the non-empty tokens, as a set. */
  function NumberSet(tokens: seq<string>): set<u32> {
    if tokens == [] then {}
    else
      var t := tokens[|tokens| - 1];
      NumberSet(tokens[..|tokens| - 1]) + (if t == "" then {} else {ParseU32(t)})
  }

  /** A number is in the set exactly when some non-empty token denotes it. */
  lemma {:induction false} NumberSetMembers(tokens: seq<string>, x: u32)
    ensures x in NumberSet(tokens) <==> exists k :: 0 <= k < |tokens| && tokens[k] != "" && ParseU32(tokens[k]) == x
    decreases |tokens|
  {
    if tokens != [] {
      var init := tokens[..|tokens| - 1];
      NumberSetMembers(init, x);
      assert forall k :: 0 <= k < |init| ==> init[k] == tokens[k];
      if x in NumberSet(tokens) && x !in NumberSet(init) {
        assert tokens[|tokens| - 1] != "" && ParseU32(tokens[|tokens| - 1]) == x;
      }
    }
  }

  /** A number written twice on one side of the card is stored, and counted, once. */
  lemma DuplicateNumber(tokens: seq<string>, k: nat)
    requires k < |tokens|
    ensures NumberSet(tokens + [tokens[k]]) == NumberSet(tokens)
  {
    assert (tokens + [tokens[k]])[..|tokens|] == tokens;
    if tokens[k] != "" {
      NumberSetMembers(tokens, ParseU32(tokens[k]));
    }
  }

  /** One loop of the parser: insert every non-empty token of `repr` split at " ". */
  method ParseNumbers(repr: string) returns (numbers: set<u32>)
    ensures numbers == NumberSet(Tokens(repr, " "))
  {
    var parts := Collect(repr, " ");
    numbers := {};
    var i := 0;
    while i < |parts|
      invariant 0 <= i <= |parts|
      invariant numbers == NumberSet(parts[..i])
    {
      assert parts[..i + 1][..i] == parts[..i];
      if |parts[i]| != 0 {
        numbers := numbers + {ParseU32(parts[i])};
      }
      i := i + 1;
    }
    assert parts[..i] == parts;
  }

  /** One input line: the numbers after ": " up to " | " are ours, the rest are winning. */
  method ParseCard(line: string) returns (c: Card)
    ensures var numbers := SplitOnce(line, ": ").1;
            c.weHave == NumberSet(Tokens(SplitOnce(numbers, " | ").0, " ")) &&
            c.winning == NumberSet(Tokens(SplitOnce(numbers, " | ").1, " "))
  {
    var (_, numbers) := SplitOnce(line, ": ");
    var (weHaveRepr, winningRepr) := SplitOnce(numbers, " | ");
    var weHave := ParseNumbers(weHaveRepr);
    var winning := ParseNumbers(winningRepr);
    c := Card(weHave, winning);
  }
}
