/**
 * `operator<<` for `std::vector<T>` (include/utils/print.hh): the elements,
 * each already rendered as text, written between brackets and separated by
 * ", ".  The stream is modelled as the string that is appended to.
 */
module Print {
  import opened Common
  import opened Splitting

  const Separator: string := ", "

  /** The text written for a vector whose elements render as `elems`. */
  function Rendered(elems: seq<string>): string {
    "[" + Join(elems, Separator) + "]"
  }

  /** The printing loop: '[', the first element, then ", " and the next element while any remain, then ']'. */
  method Format(elems: seq<string>) returns (out: string)
    ensures out == Rendered(elems)
  {
    out := "[";
    var i := 0;
    if i < |elems| {
      out := out + elems[i];
      i := i + 1;
      while i < |elems|
        invariant 1 <= i <= |elems|
        invariant out == "[" + Join(elems[..i], Separator)
      {
        JoinSnoc(elems[..i], elems[i], Separator);
        assert elems[..i + 1] == elems[..i] + [elems[i]];
        out := out + Separator + elems[i];
        i := i + 1;
      }
      assert elems[..i] == elems;
    }
    out := out + "]";
  }

  /** An empty vector prints as "[]". */
  lemma EmptyVector()
    ensures Rendered([]) == "[]"
  {
  }

  function TotalLength(elems: seq<string>): nat {
    if elems == [] then 0 else |elems[0]| + TotalLength(elems[1..])
  }

  lemma {:induction false} JoinLength(elems: seq<string>, sep: string)
    requires elems != []
    ensures |Join(elems, sep)| == TotalLength(elems) + |sep| * (|elems| - 1)
    decreases |elems|
  {
    if |elems| > 1 {
      JoinLength(elems[1..], sep);
    }
  }

  /** A non-empty vector of n elements prints as 2 + (their lengths) + 2(n - 1) characters. */
  lemma RenderedLength(elems: seq<string>)
    requires elems != []
    ensures |Rendered(elems)| == 2 + TotalLength(elems) + 2 * (|elems| - 1)
  {
    JoinLength(elems, Separator);
  }

  /** The number of non-overlapping occurrences of `sep` that a left-to-right search finds in `s`. */
  function CountFrom(s: string, sep: string, pos: nat): nat
    requires |sep| > 0
    decreases |s| - pos
  {
    match Find(s, sep, pos)
    case None => 0
    case Some(i) => 1 + CountFrom(s, sep, i + |sep|)
  }

  /**
   * When no element contains a comma, the output holds exactly n - 1
   * separators ", " for n >= 1 elements, and splitting the text between
   * the brackets at ", " yields the elements again.
   */
  lemma {:induction false} SeparatorCount(elems: seq<string>)
    requires elems != [] && elems[|elems| - 1] != []
    requires forall k, j :: 0 <= k < |elems| && 0 <= j < |elems[k]| ==> elems[k][j] != ','
    ensures Tokens(Join(elems, Separator), Separator) == elems
    ensures CountFrom(Join(elems, Separator), Separator, 0) == |elems| - 1
  {
    forall k | 0 <= k < |elems| ensures CleanToken(elems[k], Separator) && NoOccurrence(elems[k], Separator) {
      NoCommaClean(elems[k]);
    }
    TokensOfJoin(elems, Separator);
    CountOfJoinFrom([], elems);
    assert [] + Join(elems, Separator) == Join(elems, Separator);
  }

  lemma NoCommaClean(t: string)
    requires forall j :: 0 <= j < |t| ==> t[j] != ','
    ensures CleanToken(t, Separator) && NoOccurrence(t, Separator)
  {
    forall j | 0 <= j < |t| ensures !OccursAt(t + Separator, Separator, j) && !OccursAt(t, Separator, j) {
      assert (t + Separator)[j..j + 2][0] == t[j];
      if j + 2 <= |t| {
        assert t[j..j + 2][0] == t[j];
      }
    }
  }

  lemma {:induction false} CountOfJoinFrom(pre: string, elems: seq<string>)
    requires elems != [] && forall k :: 0 <= k < |elems| ==> CleanToken(elems[k], Separator) && NoOccurrence(elems[k], Separator)
    ensures CountFrom(pre + Join(elems, Separator), Separator, |pre|) == |elems| - 1
    decreases |elems|
  {
    var t := elems[0];
    if |elems| == 1 {
      CountOfLast(pre, t);
    } else {
      var rest := elems[1..];
      JoinCons(t, rest, Separator);
      assert elems == [t] + rest;
      var pre' := pre + t + Separator;
      var v := pre' + Join(rest, Separator);
      assert pre + Join(elems, Separator) == v;
      assert forall k :: 0 <= k < |rest| ==> rest[k] == elems[k + 1];
      CountOfJoinFrom(pre', rest);
      CountStep(pre, t, Join(rest, Separator));
    }
  }

  lemma CountOfLast(pre: string, t: string)
    requires NoOccurrence(t, Separator)
    ensures CountFrom(pre + t, Separator, |pre|) == 0
  {
    var v := pre + t;
    forall j | |pre| <= j ensures !OccursAt(v, Separator, j) {
      OccursShift(pre, t, Separator, j);
    }
    assert Find(v, Separator, |pre|).None?;
  }

  lemma CountStep(pre: string, t: string, more: string)
    requires CleanToken(t, Separator)
    ensures CountFrom(pre + t + Separator + more, Separator, |pre|)
            == 1 + CountFrom(pre + t + Separator + more, Separator, |pre + t + Separator|)
  {
    var v := pre + t + Separator + more;
    FirstTokenOfJoin(pre, t, Separator, more);
    var i := |pre| + |t|;
    assert i < |v|;
    assert Find(v, Separator, |pre|) == Some(i);
  }
}
