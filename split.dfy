/**
 * The `split` range: a forward iterator that cuts a string at every
 * occurrence of a separator (include/utils/split.hh).
 *
 * The iterator's state is the pair of cursors `begin`/`end`; the token it
 * designates is `view[begin..end]`, and `end` is always the first occurrence
 * of the separator at or after `begin` (or the end of the view).  `Tokens`
 * is the list of tokens a range-for over the split visits.
 */
module Splitting {
  import opened Common

  /** `sep` occurs in `view` starting at index `i`. */
  predicate OccursAt(view: string, sep: string, i: nat) {
    i + |sep| <= |view| && view[i..i + |sep|] == sep
  }

  /** `sep` does not occur anywhere inside `t`. */
  predicate NoOccurrence(t: string, sep: string) {
    forall j :: 0 <= j < |t| ==> !OccursAt(t, sep, j)
  }

  /** `std::string_view::find(sep, pos)`: the first occurrence at or after `pos`, `None` for `npos`. */
  function Find(view: string, sep: string, pos: nat): (r: Option<nat>)
    ensures r.Some? ==> pos <= r.value && OccursAt(view, sep, r.value)
    ensures r.Some? ==> forall j :: pos <= j < r.value ==> !OccursAt(view, sep, j)
    ensures r.None? ==> forall j :: pos <= j ==> !OccursAt(view, sep, j)
    decreases |view| - pos
  {
    if pos + |sep| > |view| then None
    else if view[pos..pos + |sep|] == sep then Some(pos)
    else Find(view, sep, pos + 1)
  }

  /** `iterator::next_pos`: where the token starting at `pos` ends. */
  function NextPos(view: string, sep: string, pos: nat): (r: nat)
    ensures r <= |view|
    ensures pos <= |view| ==> pos <= r
    ensures r < |view| ==> OccursAt(view, sep, r)
    ensures forall j :: pos <= j < r ==> !OccursAt(view, sep, j)
  {
    if pos >= |view| then |view|
    else match Find(view, sep, pos)
      case None => |view|
      case Some(i) => i
  }

  /** The new `begin` that `operator++` computes from the old `end`: one separator further, clamped to the view. */
  function Skip(view: string, sep: string, end: nat): (b: nat)
    ensures b <= |view|
    ensures end + |sep| <= |view| ==> b == end + |sep|
    ensures end + |sep| > |view| ==> b == |view|
  {
    if end + |sep| > |view| then |view| else end + |sep|
  }

  /** The tokens visited from an iterator whose `begin` is `b` up to the end iterator. */
  function TokensFrom(view: string, sep: string, b: nat): seq<string>
    requires |sep| > 0 && b <= |view|
    decreases |view| - b
  {
    if b == |view| then []
    else
      var e := NextPos(view, sep, b);
      [view[b..e]] + TokensFrom(view, sep, Skip(view, sep, e))
  }

  /** The tokens of `for (auto t : split(view, sep))`. */
  function Tokens(view: string, sep: string): seq<string>
    requires |sep| > 0
  {
    TokensFrom(view, sep, 0)
  }

  /** The tokens glued back together with `sep` between consecutive ones. */
  function Join(tokens: seq<string>, sep: string): string
    decreases |tokens|
  {
    if |tokens| == 0 then []
    else if |tokens| == 1 then tokens[0]
    else tokens[0] + sep + Join(tokens[1..], sep)
  }

  predicate EndsWith(s: string, suffix: string) {
    |suffix| <= |s| && s[|s| - |suffix|..] == suffix
  }

  /** `split_once`: the text before and after the first occurrence of `sep`; `(s, "")` when there is none. */
  function SplitOnce(s: string, sep: string): (r: (string, string))
    ensures Find(s, sep, 0).Some? ==> r.0 + sep + r.1 == s && forall j :: 0 <= j < |r.0| ==> !OccursAt(s, sep, j)
    ensures Find(s, sep, 0).None? ==> r == (s, [])
  {
    match Find(s, sep, 0)
    case None => (s, [])
    case Some(i) =>
      assert s == s[..i] + s[i..i + |sep|] + s[i + |sep|..];
      (s[..i], s[i + |sep|..])
  }

  /** `split::iterator`. */
  class SplitIterator {
    const view: string
    const sep: string
    var begin: nat
    var end: nat

    /** The cursor invariant: `begin <= end <= |view|`, and `end` is where the token at `begin` stops. */
    ghost predicate Valid()
      reads this
    {
      begin <= end <= |view| && end == NextPos(view, sep, begin)
    }

    /** `iterator::make_begin`. */
    constructor Begin(view: string, sep: string)
      ensures Valid() && this.view == view && this.sep == sep
      ensures begin == 0
    {
      this.view := view;
      this.sep := sep;
      begin := 0;
      end := NextPos(view, sep, 0);
    }

    /** `iterator::make_end`. */
    constructor End(view: string, sep: string)
      ensures Valid() && this.view == view && this.sep == sep
      ensures begin == |view| && end == |view|
    {
      this.view := view;
      this.sep := sep;
      begin := |view|;
      end := |view|;
    }

    /** `operator++`: skip the separator after the token and find where the next token ends. */
    method Increment()
      requires Valid()
      modifies this
      ensures Valid()
      ensures begin == Skip(view, sep, old(end))
      ensures |sep| > 0 && old(begin) < |view| ==> old(begin) < begin
      ensures |sep| == 0 ==> begin == old(begin) && end == old(end)
    {
      begin := end + |sep|;
      if begin > |view| {
        begin := |view|;
      }
      end := NextPos(view, sep, begin);
    }

    /** `operator*`: the current token, which never contains the separator. */
    function Current(): (t: string)
      requires Valid()
      reads this
      ensures t == view[begin..end]
      ensures NoOccurrence(t, sep)
    {
      var t := view[begin..end];
      assert forall j :: 0 <= j < |t| && OccursAt(t, sep, j) ==> OccursAt(view, sep, begin + j) by {
        forall j | 0 <= j < |t| && OccursAt(t, sep, j)
          ensures OccursAt(view, sep, begin + j)
        {
          assert view[begin + j..begin + j + |sep|] == t[j..j + |sep|];
        }
      }
      t
    }

    /**
     * `operator==`: same view, same separator, same cursors.  The C++
     * compares the buffers' addresses; here the view and separator are
     * compared as values.
     */
    function Equals(other: SplitIterator): (b: bool)
      reads this, other
      ensures b ==> (view, sep) == (other.view, other.sep)
      ensures Valid() && other.Valid() && view == other.view && sep == other.sep ==> (b <==> begin == other.begin)
    {
      view == other.view && sep == other.sep && begin == other.begin && end == other.end
    }
  }

  /** The `split` range object: a view and a separator it hands to its iterators. */
  class Split {
    const view: string
    const separator: string

    constructor (view: string, separator: string)
      ensures this.view == view && this.separator == separator
    {
      this.view := view;
      this.separator := separator;
    }

    method Begin() returns (it: SplitIterator)
      ensures fresh(it) && it.Valid() && it.view == view && it.sep == separator && it.begin == 0
    {
      it := new SplitIterator.Begin(view, separator);
    }

    method End() returns (it: SplitIterator)
      ensures fresh(it) && it.Valid() && it.view == view && it.sep == separator
      ensures it.begin == |view| && it.end == |view|
    {
      it := new SplitIterator.End(view, separator);
    }
  }

  /** The `begin()` and `end()` cursors of one range coincide exactly when the view is empty: the range-for then runs no step. */
  lemma BeginIsEnd(view: string, sep: string)
    ensures (0, NextPos(view, sep, 0)) == (|view|, |view|) <==> view == []
  {
  }

  /**
   * A range-for over `split(view, sep)` collecting every token, as
   * `std::vector<std::string_view>(s.begin(), s.end())` does.
   */
  method Collect(view: string, sep: string) returns (tokens: seq<string>)
    requires |sep| > 0
    ensures tokens == Tokens(view, sep)
  {
    var range := new Split(view, sep);
    var it := range.Begin();
    var last := range.End();
    tokens := [];
    while !it.Equals(last)
      invariant it.Valid() && it.view == view && it.sep == sep
      invariant last.begin == |view| && last.end == |view| && last.view == view && last.sep == sep
      invariant tokens + TokensFrom(view, sep, it.begin) == Tokens(view, sep)
      decreases |view| - it.begin
    {
      var t := it.Current();
      tokens := tokens + [t];
      it.Increment();
    }
  }

  // ---------------------------------------------------------------------
  // Properties of the token list
  // ---------------------------------------------------------------------

  /** An empty view has no tokens, and a non-empty one has at least one. */
  lemma TokensEmptyIff(view: string, sep: string)
    requires |sep| > 0
    ensures Tokens(view, sep) == [] <==> view == []
  {
  }

  /** No token contains an occurrence of the separator. */
  lemma {:induction false} TokensHaveNoSeparator(view: string, sep: string, b: nat)
    requires |sep| > 0 && b <= |view|
    ensures forall k, j :: 0 <= k < |TokensFrom(view, sep, b)| && 0 <= j < |TokensFrom(view, sep, b)[k]|
                           ==> !OccursAt(TokensFrom(view, sep, b)[k], sep, j)
    decreases |view| - b
  {
    if b < |view| {
      var e := NextPos(view, sep, b);
      var t := view[b..e];
      forall j | 0 <= j < |t| ensures !OccursAt(t, sep, j) {
        if OccursAt(t, sep, j) {
          assert view[b + j..b + j + |sep|] == t[j..j + |sep|];
          assert OccursAt(view, sep, b + j);
        }
      }
      TokensHaveNoSeparator(view, sep, Skip(view, sep, e));
    }
  }

  /** Every token is a slice of the view. */
  lemma {:induction false} TokensAreSlices(view: string, sep: string, b: nat, k: nat)
    requires |sep| > 0 && b <= |view| && k < |TokensFrom(view, sep, b)|
    ensures exists i, j :: b <= i <= j <= |view| && TokensFrom(view, sep, b)[k] == view[i..j]
    decreases |view| - b
  {
    var e := NextPos(view, sep, b);
    if k == 0 {
      assert TokensFrom(view, sep, b)[0] == view[b..e];
    } else {
      TokensAreSlices(view, sep, Skip(view, sep, e), k - 1);
    }
  }

  /** A separator right at a token's start (a leading one, or one right after another) gives an empty token. */
  lemma SeparatorAtStartGivesEmptyToken(view: string, sep: string, b: nat)
    requires |sep| > 0 && b < |view| && OccursAt(view, sep, b)
    ensures TokensFrom(view, sep, b) == [""] + TokensFrom(view, sep, Skip(view, sep, b))
  {
    assert NextPos(view, sep, b) == b;
    assert view[b..b] == "";
  }

  /** A view that starts with the separator has an empty first token. */
  lemma LeadingSeparator(view: string, sep: string)
    requires |sep| > 0 && OccursAt(view, sep, 0)
    ensures Tokens(view, sep) != [] && Tokens(view, sep)[0] == ""
  {
    SeparatorAtStartGivesEmptyToken(view, sep, 0);
  }

  lemma {:induction false} JoinCons(t: string, ts: seq<string>, sep: string)
    requires ts != []
    ensures Join([t] + ts, sep) == t + sep + Join(ts, sep)
  {
    assert ([t] + ts)[1..] == ts;
  }

  lemma {:induction false} JoinSnoc(ts: seq<string>, t: string, sep: string)
    requires ts != []
    ensures Join(ts + [t], sep) == Join(ts, sep) + sep + t
    decreases |ts|
  {
    if |ts| == 1 {
      assert ts + [t] == [ts[0]] + [t];
      JoinCons(ts[0], [t], sep);
    } else {
      assert ts + [t] == [ts[0]] + (ts[1..] + [t]);
      JoinCons(ts[0], ts[1..] + [t], sep);
      JoinSnoc(ts[1..], t, sep);
      JoinCons(ts[0], ts[1..], sep);
      assert [ts[0]] + ts[1..] == ts;
    }
  }

  /**
   * Joining the tokens gives back the view, except when the last separator
   * found sits at the very end of the view: then that trailing separator
   * produces no final empty token, and joining drops exactly it.
   */
  lemma {:induction false} JoinTokensFrom(view: string, sep: string, b: nat)
    requires |sep| > 0 && b <= |view|
    ensures JoinsBack(view, sep, b)
    decreases |view| - b
  {
    if b < |view| {
      var e := NextPos(view, sep, b);
      var nb := Skip(view, sep, e);
      var ts := TokensFrom(view, sep, b);
      assert ts == [view[b..e]] + TokensFrom(view, sep, nb);
      if e == |view| {
        assert nb == |view|;
        assert TokensFrom(view, sep, nb) == [];
        assert view[b..e] == view[b..];
        assert ts == [view[b..]];
      } else if nb == |view| {
        JoinLastSeparator(view, sep, b, e);
      } else {
        JoinTokensFrom(view, sep, nb);
        JoinMiddleSeparator(view, sep, b, e);
      }
    }
  }

  /** The relation between the tokens from `b` and the rest of the view that `JoinTokensFrom` proves. */
  predicate JoinsBack(view: string, sep: string, b: nat)
    requires |sep| > 0 && b <= |view|
  {
    var j := Join(TokensFrom(view, sep, b), sep);
    j == view[b..] || (EndsWith(view, sep) && j + sep == view[b..] && TokensFrom(view, sep, b) != [])
  }

  lemma JoinLastSeparator(view: string, sep: string, b: nat, e: nat)
    requires |sep| > 0 && b < |view| && e == NextPos(view, sep, b) && e < |view|
    requires Skip(view, sep, e) == |view|
    ensures JoinsBack(view, sep, b)
  {
    assert OccursAt(view, sep, e);
    assert e + |sep| == |view|;
    assert TokensFrom(view, sep, b) == [view[b..e]];
    assert view[b..] == view[b..e] + view[e..e + |sep|];
    assert view[|view| - |sep|..] == view[e..e + |sep|];
  }

  lemma JoinMiddleSeparator(view: string, sep: string, b: nat, e: nat)
    requires |sep| > 0 && b < |view| && e == NextPos(view, sep, b) && e < |view|
    requires Skip(view, sep, e) < |view| && JoinsBack(view, sep, Skip(view, sep, e))
    ensures JoinsBack(view, sep, b)
  {
    var nb := Skip(view, sep, e);
    var rest := TokensFrom(view, sep, nb);
    assert OccursAt(view, sep, e);
    assert nb == e + |sep|;
    assert TokensFrom(view, sep, b) == [view[b..e]] + rest;
    assert rest != [];
    ConsJoinsBack(view[b..e], rest, sep, view[nb..]);
    SliceSplit(view, b, e, nb);
  }

  /** A suffix cut in three. */
  lemma SliceSplit(v: string, b: nat, e: nat, nb: nat)
    requires b <= e <= nb <= |v|
    ensures v[b..] == v[b..e] + v[e..nb] + v[nb..]
  {
  }

  /** A token put in front of tokens that join back to `tail` joins back to the token, a separator and `tail`. */
  lemma ConsJoinsBack(x: string, rest: seq<string>, sep: string, tail: string)
    requires rest != []
    ensures Join(rest, sep) == tail ==> Join([x] + rest, sep) == x + sep + tail
    ensures Join(rest, sep) + sep == tail ==> Join([x] + rest, sep) + sep == x + sep + tail
  {
    var j := Join(rest, sep);
    JoinCons(x, rest, sep);
    assert (x + sep + j) + sep == x + sep + (j + sep);
  }

  /** When the view does not end with the separator, joining its tokens reconstructs it exactly. */
  lemma Reconstruction(view: string, sep: string)
    requires |sep| > 0 && !EndsWith(view, sep)
    ensures Join(Tokens(view, sep), sep) == view
  {
    JoinTokensFrom(view, sep, 0);
  }

  /** A view ending with a separator that `split` actually stops at has no final empty token. */
  lemma TrailingSeparator(view: string, sep: string)
    requires |sep| > 0 && Join(Tokens(view, sep), sep) != view
    ensures Tokens(view, sep) != [] && Join(Tokens(view, sep), sep) + sep == view
  {
    JoinTokensFrom(view, sep, 0);
  }

  /** With an empty separator, `operator++` on an iterator inside the view leaves it where it was. */
  lemma EmptySeparatorStalls(view: string, b: nat)
    requires b < |view|
    ensures NextPos(view, [], b) == b && Skip(view, [], NextPos(view, [], b)) == b
  {
    assert OccursAt(view, [], b);
  }

  /** An occurrence at `j` in `s` is still one in any extension of `s`. */
  lemma OccursInExtension(s: string, rest: string, sep: string, j: nat)
    requires OccursAt(s, sep, j)
    ensures OccursAt(s + rest, sep, j)
  {
    assert (s + rest)[j..j + |sep|] == s[j..j + |sep|];
  }

  /** An occurrence that starts early enough in an extension of `s` lies within `s`. */
  lemma OccursInPrefix(s: string, rest: string, sep: string, j: nat)
    requires j + |sep| <= |s| && OccursAt(s + rest, sep, j)
    ensures OccursAt(s, sep, j)
  {
    assert (s + rest)[j..j + |sep|] == s[j..j + |sep|];
  }

  /** `t` is a token that `Join` followed by `Tokens` gives back: the first separator in `t + sep` is the appended one. */
  predicate CleanToken(t: string, sep: string) {
    forall j :: 0 <= j < |t| ==> !OccursAt(t + sep, sep, j)
  }

  /** The argument of `Join` when splitting undoes it: clean tokens, the last one non-empty and free of the separator. */
  predicate Separable(ts: seq<string>, sep: string) {
    |sep| > 0 && ts != [] &&
    (forall k :: 0 <= k < |ts| ==> CleanToken(ts[k], sep)) &&
    ts[|ts| - 1] != [] && NoOccurrence(ts[|ts| - 1], sep)
  }

  /** Occurrences in `pre + t` past `pre` are the occurrences in `t`, shifted. */
  lemma OccursShift(pre: string, t: string, sep: string, j: nat)
    requires |pre| <= j
    ensures OccursAt(pre + t, sep, j) == OccursAt(t, sep, j - |pre|)
  {
    if j + |sep| <= |pre + t| {
      assert (pre + t)[j..j + |sep|] == t[j - |pre|..j - |pre| + |sep|];
    }
  }

  /** In `pre + t + sep + more`, the token starting right after `pre` ends just before that `sep`. */
  lemma FirstTokenOfJoin(pre: string, t: string, sep: string, more: string)
    requires |sep| > 0 && CleanToken(t, sep)
    ensures NextPos(pre + t + sep + more, sep, |pre|) == |pre| + |t|
  {
    var v := pre + t + sep + more;
    var b := |pre|;
    assert v[b + |t|..b + |t| + |sep|] == sep;
    assert OccursAt(v, sep, b + |t|);
    forall j | b <= j < b + |t| ensures !OccursAt(v, sep, j) {
      if OccursAt(v, sep, j) {
        var local := t + sep;
        assert v == pre + local + more;
        assert v[j..j + |sep|] == local[j - b..j - b + |sep|];
        assert OccursAt(local, sep, j - b);
      }
    }
    var e := NextPos(v, sep, b);
    assert e == b + |t|;
  }

  /** In `pre + t` with `t` free of the separator, the token starting right after `pre` is all of `t`. */
  lemma LastTokenOfJoin(pre: string, t: string, sep: string)
    requires |sep| > 0 && t != [] && NoOccurrence(t, sep)
    ensures TokensFrom(pre + t, sep, |pre|) == [t]
  {
    var v := pre + t;
    var b := |pre|;
    forall j | b <= j < |v| ensures !OccursAt(v, sep, j) {
      OccursShift(pre, t, sep, j);
    }
    var e := NextPos(v, sep, b);
    assert e == |v|;
    assert Skip(v, sep, e) == |v|;
    assert TokensFrom(v, sep, |v|) == [];
    assert v[b..e] == t;
    assert TokensFrom(v, sep, b) == [v[b..e]] + TokensFrom(v, sep, |v|);
  }

  lemma {:induction false} TokensOfJoinFrom(pre: string, ts: seq<string>, sep: string)
    requires Separable(ts, sep)
    ensures |pre| <= |pre + Join(ts, sep)|
    ensures TokensFrom(pre + Join(ts, sep), sep, |pre|) == ts
    decreases |ts|
  {
    var t := ts[0];
    if |ts| == 1 {
      LastTokenOfJoin(pre, t, sep);
    } else {
      var rest := ts[1..];
      assert Separable(rest, sep);
      JoinCons(t, rest, sep);
      assert ts == [t] + rest;
      var v := pre + Join(ts, sep);
      var pre' := pre + t + sep;
      assert v == pre' + Join(rest, sep);
      FirstTokenOfJoin(pre, t, sep, Join(rest, sep));
      var e := |pre| + |t|;
      assert NextPos(v, sep, |pre|) == e;
      assert v[|pre|..e] == t;
      assert Skip(v, sep, e) == |pre'|;
      TokensOfJoinFrom(pre', rest, sep);
      assert TokensFrom(v, sep, |pre|) == [t] + TokensFrom(v, sep, |pre'|);
    }
  }

  /** Splitting a join of separable tokens gives the tokens back: `Tokens` inverts `Join`. */
  lemma TokensOfJoin(ts: seq<string>, sep: string)
    requires Separable(ts, sep)
    ensures Tokens(Join(ts, sep), sep) == ts
  {
    TokensOfJoinFrom([], ts, sep);
    assert [] + Join(ts, sep) == Join(ts, sep);
  }
}
