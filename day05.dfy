/**
 * Almanac range maps (src/day-05.cc): a `range_map` is an ordered list of
 * entries, each sending `[source_start, source_start + length)` onto
 * `[destination_start, ...)`.  The first entry that covers a value wins and
 * a value that no entry covers maps to itself.  Each seed is sent through
 * every map in turn and the smallest location is kept.
 */
module Almanac {
  import opened Common
  import opened Splitting

  /** `range_map::entry`. */
  datatype Entry = Entry(sourceStart: u32, destinationStart: u32, length: u32)

  /** The guard of `operator[]`: `val >= source_start && val - source_start < length`. */
  predicate Covers(e: Entry, val: u32) {
    val >= e.sourceStart && val - e.sourceStart < e.length
  }

  /** `destination_start + (val - source_start)` in `uint32_t`; the subtraction cannot go below zero. */
  function Translate(e: Entry, val: u32): u32
    requires Covers(e, val)
  {
    (e.destinationStart + (val - e.sourceStart)) % U32_MODULUS
  }

  /** No entry of `entries` covers `val`. */
  predicate Uncovered(entries: seq<Entry>, val: u32) {
    forall k :: 0 <= k < |entries| ==> !Covers(entries[k], val)
  }

  /** `k` is the first entry of `entries` that covers `val`. */
  predicate FirstCover(entries: seq<Entry>, val: u32, k: int) {
    0 <= k < |entries| && Covers(entries[k], val) && Uncovered(entries[..k], val)
  }

  /** `operator[]`: the translation by the first covering entry, or `val` itself when none covers it. */
  function Lookup(entries: seq<Entry>, val: u32): (r: u32)
    ensures Uncovered(entries, val) ==> r == val
    ensures forall k :: FirstCover(entries, val, k) ==> r == Translate(entries[k], val)
  {
    if entries == [] then val
    else if Covers(entries[0], val) then
      assert forall k :: FirstCover(entries, val, k) ==> k == 0;
      Translate(entries[0], val)
    else
      var r := Lookup(entries[1..], val);
      assert forall k :: FirstCover(entries, val, k) ==> k > 0 && FirstCover(entries[1..], val, k - 1) by {
        forall k | FirstCover(entries, val, k) ensures k > 0 && FirstCover(entries[1..], val, k - 1) {
          assert k != 0;
          var tail := entries[1..][..k - 1];
          forall m | 0 <= m < k - 1 ensures !Covers(tail[m], val) {
            assert tail[m] == entries[..k][m + 1];
          }
        }
      }
      r
  }

  /** A map without entries is the identity. */
  lemma EmptyMapIsIdentity(val: u32)
    ensures Lookup([], val) == val
  {
  }

  /**
   * Appending an entry leaves the lookup of every value an earlier entry
   * covers unchanged; a value no earlier entry covers is now translated by
   * the new entry when it covers it.
   */
  lemma {:induction false} LookupAppend(entries: seq<Entry>, e: Entry, val: u32)
    ensures !Uncovered(entries, val) ==> Lookup(entries + [e], val) == Lookup(entries, val)
    ensures Uncovered(entries, val) ==> Lookup(entries + [e], val) == if Covers(e, val) then Translate(e, val) else val
    decreases |entries|
  {
    if entries != [] {
      assert (entries + [e])[1..] == entries[1..] + [e];
      LookupAppend(entries[1..], e, val);
      if !Covers(entries[0], val) {
        assert forall k :: 0 < k < |entries| ==> entries[1..][k - 1] == entries[k];
      }
    }
  }

  /** `class range_map`: its entries in insertion order. */
  class RangeMap {
    var entries: seq<Entry>

    constructor()
      ensures entries == []
    {
      entries := [];
    }

    /** `operator[]`. */
    function Get(val: u32): u32
      reads this
    {
      Lookup(entries, val)
    }

    /** `add_entry`: appends exactly one entry. */
    method AddEntry(sourceStart: u32, destinationStart: u32, length: u32)
      modifies this
      ensures entries == old(entries) + [Entry(sourceStart, destinationStart, length)]
    {
      entries := entries + [Entry(sourceStart, destinationStart, length)];
    }
  }

  /** The entries of each map, in order. */
  function EntriesOf(maps: seq<RangeMap>): (tables: seq<seq<Entry>>)
    reads maps
    ensures |tables| == |maps| && forall k :: 0 <= k < |maps| ==> tables[k] == maps[k].entries
  {
    if maps == [] then [] else EntriesOf(maps[..|maps| - 1]) + [maps[|maps| - 1].entries]
  }

  lemma EntriesOfSnoc(maps: seq<RangeMap>, m: RangeMap)
    ensures EntriesOf(maps + [m]) == EntriesOf(maps) + [m.entries]
  {
    assert (maps + [m])[..|maps|] == maps;
  }

  /** `val` sent through every table in order. */
  function Compose(tables: seq<seq<Entry>>, val: u32): u32 {
    if tables == [] then val else Lookup(tables[|tables| - 1], Compose(tables[..|tables| - 1], val))
  }

  /** What `min_location` returns: the running minimum of the locations, starting from 0xffffffff. */
  function MinLocationOf(seeds: seq<u32>, tables: seq<seq<Entry>>): u32 {
    if seeds == [] then U32_MAX
    else
      var res := MinLocationOf(seeds[..|seeds| - 1], tables);
      var loc := Compose(tables, seeds[|seeds| - 1]);
      if res < loc then res else loc
  }

  /** No seeds give 0xffffffff; otherwise the result is the location of some seed and no seed's location is smaller. */
  lemma {:induction false} MinLocationIsMinimum(seeds: seq<u32>, tables: seq<seq<Entry>>)
    ensures seeds == [] ==> MinLocationOf(seeds, tables) == U32_MAX
    ensures seeds != [] ==> exists k :: 0 <= k < |seeds| && MinLocationOf(seeds, tables) == Compose(tables, seeds[k])
    ensures forall k :: 0 <= k < |seeds| ==> MinLocationOf(seeds, tables) <= Compose(tables, seeds[k])
    decreases |seeds|
  {
    if seeds != [] {
      var init := seeds[..|seeds| - 1];
      var last := |seeds| - 1;
      MinLocationIsMinimum(init, tables);
      assert forall k :: 0 <= k < |init| ==> init[k] == seeds[k];
      if init != [] && MinLocationOf(init, tables) < Compose(tables, seeds[last]) {
        var k :| 0 <= k < |init| && MinLocationOf(init, tables) == Compose(tables, init[k]);
        assert MinLocationOf(seeds, tables) == Compose(tables, seeds[k]);
      } else {
        assert MinLocationOf(seeds, tables) == Compose(tables, seeds[last]);
      }
    }
  }

  /** `min_location`: for each seed, the maps applied in turn, then the minimum with the result so far. */
  method MinLocation(seeds: seq<u32>, maps: seq<RangeMap>) returns (res: u32)
    ensures res == MinLocationOf(seeds, EntriesOf(maps))
  {
    ghost var tables := EntriesOf(maps);
    res := U32_MAX;
    var i := 0;
    while i < |seeds|
      invariant 0 <= i <= |seeds|
      invariant res == MinLocationOf(seeds[..i], tables)
    {
      var seed := seeds[i];
      var j := 0;
      while j < |maps|
        invariant 0 <= j <= |maps|
        invariant seed == Compose(tables[..j], seeds[i])
      {
        assert tables[..j + 1][..j] == tables[..j];
        seed := maps[j].Get(seed);
        j := j + 1;
      }
      assert tables[..j] == tables;
      assert seeds[..i + 1][..i] == seeds[..i];
      res := if res < seed then res else seed;
      i := i + 1;
    }
    assert seeds[..i] == seeds;
  }

  // ---------------------------------------------------------------------
  // The line-by-line state machine of `main`
  // ---------------------------------------------------------------------

  /** The parser's state as values: the seeds, the finished maps, and `current_map`. */
  datatype ParseState = ParseState(seeds: seq<u32>, maps: seq<seq<Entry>>, current: Option<seq<Entry>>)

  const Start := ParseState([], [], None)

  /** The numbers after ": ", one per " "-separated token. */
  function SeedsOf(line: string): (seeds: seq<u32>)
    ensures |seeds| == |Tokens(SplitOnce(line, ": ").1, " ")|
  {
    var ts := Tokens(SplitOnce(line, ": ").1, " ");
    seq(|ts|, k requires 0 <= k < |ts| => ParseU32(ts[k]))
  }

  /**
   * One line: read the seeds while there are none yet; an empty line closes
   * the open map; a line with no open map opens one (and is otherwise
   * skipped); any other line is an entry "destination source length".  An
   * entry line with fewer than three fields indexes past the end of the
   * token vector in the source, which is reported here as an error.
   */
  function Step(st: ParseState, line: string): (r: Result<ParseState, string>)
    ensures r.Ok? ==> |r.value.maps| >= |st.maps| && r.value.maps[..|st.maps|] == st.maps
  {
    StepMaps(if |st.seeds| == 0 then st.(seeds := SeedsOf(line)) else st, line)
  }

  /** The part of `Step` after the seeds: closing, opening or extending a map. */
  function StepMaps(st1: ParseState, line: string): (r: Result<ParseState, string>)
    ensures r.Ok? ==> |r.value.maps| >= |st1.maps| && r.value.maps[..|st1.maps|] == st1.maps
    ensures r.Ok? ==> r.value.seeds == st1.seeds
  {
    if |line| == 0 && st1.current.Some? then Ok(st1.(maps := st1.maps + [st1.current.value], current := None))
    else if st1.current.None? then Ok(st1.(current := Some([])))
    else
      var ts := Tokens(line, " ");
      if |ts| < 3 then Err("entry line with fewer than three fields")
      else
        var e := Entry(ParseU32(ts[1]), ParseU32(ts[0]), ParseU32(ts[2]));
        Ok(st1.(current := Some(st1.current.value + [e])))
  }

  /** The state after all of `lines`, or the first error. */
  function Feed(st: ParseState, lines: seq<string>): (r: Result<ParseState, string>)
    ensures r.Ok? ==> |r.value.maps| >= |st.maps| && r.value.maps[..|st.maps|] == st.maps
    decreases |lines|
  {
    if lines == [] then Ok(st)
    else
      match Step(st, lines[0])
      case Err(msg) => Err(msg)
      case Ok(st') =>
        var r := Feed(st', lines[1..]);
        if r.Ok? then
          assert r.value.maps[..|st'.maps|][..|st.maps|] == r.value.maps[..|st.maps|];
          r
        else r
  }

  /** After the input: an open map is closed. */
  function Finish(st: ParseState): ParseState {
    if st.current.Some? then st.(maps := st.maps + [st.current.value], current := None) else st
  }

  /** The seeds and the tables `main` hands to `min_location`. */
  function ParseAlmanac(lines: seq<string>): Result<ParseState, string> {
    match Feed(Start, lines)
    case Err(msg) => Err(msg)
    case Ok(st) => Ok(Finish(st))
  }

  /**
   * With the usual layout (a seeds line, then an empty line), the seeds line
   * itself opens a map and the empty line closes it: the first map has no
   * entries, so it is the identity.
   */
  lemma StandardLayoutFirstMapEmpty(lines: seq<string>)
    requires |lines| >= 2 && |lines[0]| > 0 && lines[1] == [] && |SeedsOf(lines[0])| > 0
    requires ParseAlmanac(lines).Ok?
    ensures |ParseAlmanac(lines).value.maps| >= 1 && ParseAlmanac(lines).value.maps[0] == []
  {
    var st1 := Step(Start, lines[0]).value;
    assert st1 == ParseState(SeedsOf(lines[0]), [], Some([]));
    var st2 := Step(st1, lines[1]).value;
    assert st2 == ParseState(SeedsOf(lines[0]), [[]], None);
    assert lines[1..][1..] == lines[2..];
    assert Feed(Start, lines) == Feed(st2, lines[2..]);
    var st := Feed(st2, lines[2..]).value;
    assert st.maps[..1] == [[]];
  }

  /** The seeds loop of `main`: one `stoul` per " "-separated token after ": ". */
  method ParseSeeds(line: string) returns (seeds: seq<u32>)
    ensures seeds == SeedsOf(line)
  {
    var (_, seedsRepr) := SplitOnce(line, ": ");
    var parts := Collect(seedsRepr, " ");
    seeds := [];
    var k := 0;
    while k < |parts|
      invariant 0 <= k <= |parts| && |seeds| == k
      invariant forall m :: 0 <= m < k ==> seeds[m] == ParseU32(parts[m])
    {
      seeds := seeds + [ParseU32(parts[k])];
      k := k + 1;
    }
  }

  /** The objects of `main` hold what the parser state `st` says. */
  ghost predicate Mirrors(st: ParseState, seeds: seq<u32>, maps: seq<RangeMap>, current: RangeMap?)
    reads maps, current
  {
    seeds == st.seeds && EntriesOf(maps) == st.maps && (current == null) == st.current.None? &&
    (current != null ==> current !in maps && current.entries == st.current.value)
  }

  /** The body of the read loop of `main` for one line; `ok` is false where the source would index past the entry's fields. */
  method ParseLine(line: string, ghost st: ParseState, seeds: seq<u32>, maps: seq<RangeMap>, current: RangeMap?)
    returns (ok: bool, seeds': seq<u32>, maps': seq<RangeMap>, current': RangeMap?, ghost st': ParseState)
    requires Mirrors(st, seeds, maps, current)
    modifies current
    ensures ok <==> Step(st, line).Ok?
    ensures ok ==> Step(st, line) == Ok(st') && Mirrors(st', seeds', maps', current')
    ensures current' != null ==> current' == current || fresh(current')
  {
    seeds' := seeds;
    ghost var st1 := st;
    if |seeds| == 0 {
      seeds' := ParseSeeds(line);
      st1 := st.(seeds := seeds');
    }
    ok, maps', current', st' := ApplyLine(line, st1, seeds', maps, current);
  }

  /** The map part of one line, on the objects: close, open or extend the current map. */
  method ApplyLine(line: string, ghost st: ParseState, seeds: seq<u32>, maps: seq<RangeMap>, current: RangeMap?)
    returns (ok: bool, maps': seq<RangeMap>, current': RangeMap?, ghost st': ParseState)
    requires Mirrors(st, seeds, maps, current)
    modifies current
    ensures ok <==> StepMaps(st, line).Ok?
    ensures ok ==> StepMaps(st, line) == Ok(st') && Mirrors(st', seeds, maps', current')
    ensures current' != null ==> current' == current || fresh(current')
  {
    maps', current', st' := maps, current, st;
    if |line| == 0 && current != null {
      maps' := maps + [current];
      EntriesOfSnoc(maps, current);
      current' := null;
      st' := st.(maps := st.maps + [st.current.value], current := None);
    } else if current == null {
      current' := new RangeMap();
      st' := st.(current := Some([]));
    } else {
      var parts := Collect(line, " ");
      if |parts| < 3 {
        return false, maps', current', st';
      }
      var e := Entry(ParseU32(parts[1]), ParseU32(parts[0]), ParseU32(parts[2]));
      current.AddEntry(e.sourceStart, e.destinationStart, e.length);
      st' := st.(current := Some(st.current.value + [e]));
    }
    ok := true;
  }

  /** The shape of `main` up to the call of `min_location`: the maps are built as objects, line by line. */
  method ParseInput(lines: seq<string>) returns (r: Result<(seq<u32>, seq<RangeMap>), string>)
    ensures ParseAlmanac(lines).Err? <==> r.Err?
    ensures r.Ok? ==> r.value.0 == ParseAlmanac(lines).value.seeds && EntriesOf(r.value.1) == ParseAlmanac(lines).value.maps
  {
    var seeds: seq<u32> := [];
    var maps: seq<RangeMap> := [];
    var current: RangeMap? := null;
    ghost var st := Start;
    var i := 0;
    while i < |lines|
      invariant 0 <= i <= |lines|
      invariant Feed(st, lines[i..]) == Feed(Start, lines)
      invariant Mirrors(st, seeds, maps, current)
      invariant current != null ==> fresh(current)
    {
      assert lines[i..][0] == lines[i] && lines[i..][1..] == lines[i + 1..];
      var ok;
      ok, seeds, maps, current, st := ParseLine(lines[i], st, seeds, maps, current);
      if !ok {
        return Err("entry line with fewer than three fields");
      }
      i := i + 1;
    }
    assert lines[i..] == [];
    if current != null {
      maps := maps + [current];
      st := st.(maps := st.maps + [st.current.value], current := None);
    }
    r := Ok((seeds, maps));
  }
}
