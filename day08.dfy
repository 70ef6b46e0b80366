/**
 * Haunted wasteland (src/day-08.cc): a network of nodes, each naming a left
 * and a right successor, is walked by a cyclic string of L/R instructions
 * from "AAA" until a node named "ZZZ" is reached.  Nodes look their
 * successors up in the table lazily and remember them.
 */
module Network {
  import opened Common
  import opened Splitting

  /** What a node says about itself: its name and the names of its successors. */
  datatype Entry = Entry(name: string, leftName: string, rightName: string)

  /** The node table by value: what each key of the table holds. */
  type Table = map<string, Entry>

  /** The successor name an instruction selects: 'L' picks the left one, any other character the right one. */
  function Successor(e: Entry, c: char): string {
    if c == 'L' then e.leftName else e.rightName
  }

  /** `lazy_node`: the three names, and the successors it has looked up so far. */
  class LazyNode {
    const name: string
    const leftName: string
    const rightName: string
    var left: LazyNode?
    var right: LazyNode?

    constructor(n: string, l: string, r: string)
      ensures name == n && leftName == l && rightName == r
      ensures left == null && right == null
    {
      name := n;
      leftName := l;
      rightName := r;
      left := null;
      right := null;
    }

    /** A remembered successor is the node the table holds under its name. */
    predicate Cached(nodes: map<string, LazyNode>)
      reads this
    {
      (left != null ==> leftName in nodes && left == nodes[leftName]) &&
      (right != null ==> rightName in nodes && right == nodes[rightName])
    }

    /**
     * `lazy_node::go`: the successor the instruction selects, looked up in
     * the table on the first request in that direction and remembered; a
     * name missing from the table is the `out_of_range` of `at`.
     */
    method Go(lr: char, nodes: map<string, LazyNode>) returns (r: Option<LazyNode>)
      requires Cached(nodes)
      modifies this
      ensures Cached(nodes)
      ensures var next := Successor(Entry(name, leftName, rightName), lr);
              r == (if next in nodes then Some(nodes[next]) else None)
      ensures lr == 'L' && old(left) != null ==> r.Some? && r.value == old(left)
      ensures lr != 'L' && old(right) != null ==> r.Some? && r.value == old(right)
      ensures lr == 'L' ==> right == old(right) && (r.Some? ==> left == r.value) && (r.None? ==> left == old(left))
      ensures lr != 'L' ==> left == old(left) && (r.Some? ==> right == r.value) && (r.None? ==> right == old(right))
    {
      if lr == 'L' {
        if left == null {
          if leftName !in nodes {
            return None;
          }
          left := nodes[leftName];
        }
        return Some(left);
      }
      if right == null {
        if rightName !in nodes {
          return None;
        }
        right := nodes[rightName];
      }
      return Some(right);
    }
  }

  /** The table of nodes seen as values. */
  function TableOf(nodes: map<string, LazyNode>): (t: Table)
    ensures t.Keys == nodes.Keys
    ensures forall k :: k in nodes ==> t[k] == Entry(nodes[k].name, nodes[k].leftName, nodes[k].rightName)
  {
    map k | k in nodes :: Entry(nodes[k].name, nodes[k].leftName, nodes[k].rightName)
  }

  /** Every node of the table remembers only successors the table itself holds. */
  ghost predicate AllCached(nodes: map<string, LazyNode>)
    reads nodes.Values
  {
    forall k :: k in nodes ==> nodes[k].Cached(nodes)
  }

  // ---------------------------------------------------------------------
  // The walk
  // ---------------------------------------------------------------------

  /** The value of `pos` after `k` moves: it goes up by one and wraps to 0 at the end of the instructions. */
  function Pos(directions: string, k: nat): (p: nat)
    ensures |directions| > 0 ==> p < |directions|
    ensures |directions| == 0 ==> p == 0
  {
    if k == 0 then 0
    else
      var p := Pos(directions, k - 1) + 1;
      if p >= |directions| then 0 else p
  }

  /**
   * The instruction used by move `j`; with no instructions `directions[0]`
   * reads the terminating '\0', which goes right.
   */
  function Direction(directions: string, j: nat): char {
    var p := Pos(directions, j);
    if p < |directions| then directions[p] else '\0'
  }

  /** The key looked up after `k` moves from `start`, or None once a lookup has failed. */
  function KeyAfter(t: Table, directions: string, start: string, k: nat): (r: Option<string>)
    ensures r.Some? ==> r.value in t
  {
    if k == 0 then (if start in t then Some(start) else None)
    else
      match KeyAfter(t, directions, start, k - 1)
      case None => None
      case Some(key) =>
        var next := Successor(t[key], Direction(directions, k - 1));
        if next in t then Some(next) else None
  }

  /** The walk reaches a node named `destination` after `k` moves and not before. */
  ghost predicate FirstArrival(t: Table, directions: string, start: string, destination: string, k: nat) {
    (forall j :: 0 <= j <= k ==> KeyAfter(t, directions, start, j).Some?) &&
    t[KeyAfter(t, directions, start, k).value].name == destination &&
    forall j :: 0 <= j < k ==> t[KeyAfter(t, directions, start, j).value].name != destination
  }

  /** The first `k` lookups succeed and none of them finds `destination`. */
  ghost predicate NoArrivalBefore(t: Table, directions: string, start: string, destination: string, k: nat) {
    forall j :: 0 <= j < k ==> KeyAfter(t, directions, start, j).Some? && t[KeyAfter(t, directions, start, j).value].name != destination
  }

  /** The walk looks up a missing name after `k` moves, never having met `destination` before. */
  ghost predicate FailsAt(t: Table, directions: string, start: string, destination: string, k: nat) {
    KeyAfter(t, directions, start, k).None? && NoArrivalBefore(t, directions, start, destination, k)
  }

  lemma NoArrivalStep(t: Table, directions: string, start: string, destination: string, k: nat)
    requires NoArrivalBefore(t, directions, start, destination, k)
    requires KeyAfter(t, directions, start, k).Some? && t[KeyAfter(t, directions, start, k).value].name != destination
    ensures NoArrivalBefore(t, directions, start, destination, k + 1)
  {
  }

  /** Once a lookup has failed, every later one has too. */
  lemma {:induction false} KeyAfterStaysNone(t: Table, directions: string, start: string, j: nat, k: nat)
    requires j <= k && KeyAfter(t, directions, start, j).None?
    ensures KeyAfter(t, directions, start, k).None?
    decreases k - j
  {
    if j < k {
      KeyAfterStaysNone(t, directions, start, j + 1, k);
    }
  }

  /** The number of moves of `compute_steps` is well defined: there is at most one first arrival. */
  lemma FirstArrivalUnique(t: Table, directions: string, start: string, destination: string, k1: nat, k2: nat)
    requires FirstArrival(t, directions, start, destination, k1)
    requires FirstArrival(t, directions, start, destination, k2)
    ensures k1 == k2
  {
  }

  /** A walk that starts on the destination takes no move. */
  lemma StartAtDestination(t: Table, directions: string, start: string)
    requires start in t
    ensures FirstArrival(t, directions, start, t[start].name, 0)
  {
  }

  /** The first pass reads the instructions in order. */
  lemma {:induction false} PosFirstPass(directions: string, k: nat)
    requires k < |directions|
    ensures Pos(directions, k) == k
  {
    if k > 0 {
      PosFirstPass(directions, k - 1);
    }
  }

  /** The instructions are followed cyclically: move `j + |directions|` uses the instruction of move `j`. */
  lemma {:induction false} DirectionsCycle(directions: string, j: nat)
    ensures Pos(directions, j + |directions|) == Pos(directions, j)
    ensures Direction(directions, j + |directions|) == Direction(directions, j)
  {
    var n := |directions|;
    if j == 0 {
      if n > 0 {
        PosFirstPass(directions, n - 1);
      }
    } else {
      DirectionsCycle(directions, j - 1);
    }
  }

  /** How `compute_steps` ends: the destination reached, a missing name looked up, or the model's move bound hit. */
  datatype WalkResult = Reached(steps: u32) | MissingNode | OutOfFuel

  /** The walk makes `fuel + 1` lookups that all succeed without meeting `destination`. */
  ghost predicate NoArrivalWithin(t: Table, directions: string, start: string, destination: string, fuel: nat) {
    forall j :: 0 <= j <= fuel ==>
      KeyAfter(t, directions, start, j).Some? && t[KeyAfter(t, directions, start, j).value].name != destination
  }

  /**
   * What `compute_steps` computes: the number of moves to the first
   * arrival (modulo 2^32), the failure of a lookup before any arrival, or,
   * cut off by the move bound, neither within `fuel` moves.
   */
  ghost predicate Outcome(t: Table, directions: string, start: string, destination: string, fuel: nat, r: WalkResult) {
    (r.Reached? <==> exists k: nat :: k <= fuel && FirstArrival(t, directions, start, destination, k)) &&
    (r.Reached? ==> forall k: nat :: FirstArrival(t, directions, start, destination, k) ==> r.steps == k % U32_MODULUS) &&
    (r.MissingNode? <==> exists k: nat :: k <= fuel && FailsAt(t, directions, start, destination, k)) &&
    (r.OutOfFuel? <==> NoArrivalWithin(t, directions, start, destination, fuel))
  }

  lemma ReachedOutcome(t: Table, directions: string, start: string, destination: string, fuel: nat, count: nat)
    requires count <= fuel && FirstArrival(t, directions, start, destination, count)
    ensures Outcome(t, directions, start, destination, fuel, Reached((count % U32_MODULUS) as u32))
  {
    forall k: nat | k <= fuel ensures !FailsAt(t, directions, start, destination, k) {
      if k > count {
        assert KeyAfter(t, directions, start, count).Some?;
      }
    }
  }

  lemma MissingOutcome(t: Table, directions: string, start: string, destination: string, fuel: nat, count: nat)
    requires count <= fuel && FailsAt(t, directions, start, destination, count)
    ensures Outcome(t, directions, start, destination, fuel, MissingNode)
  {
    forall k: nat | k <= fuel ensures !FirstArrival(t, directions, start, destination, k) {
      if k >= count {
        assert KeyAfter(t, directions, start, count).None?;
      }
    }
  }

  lemma FuelOutcome(t: Table, directions: string, start: string, destination: string, fuel: nat)
    requires NoArrivalWithin(t, directions, start, destination, fuel)
    ensures Outcome(t, directions, start, destination, fuel, OutOfFuel)
  {
    forall k: nat | k <= fuel ensures !FailsAt(t, directions, start, destination, k) && !FirstArrival(t, directions, start, destination, k) {
      assert KeyAfter(t, directions, start, k).Some?;
    }
  }

  /** One move of the walk from the node under `key`: every node stays cached and the table is read as a value. */
  method Advance(nodes: map<string, LazyNode>, ghost key: string, n: LazyNode, c: char) returns (r: Option<LazyNode>)
    requires AllCached(nodes) && key in nodes && n == nodes[key]
    modifies n
    ensures AllCached(nodes)
    ensures var next := Successor(TableOf(nodes)[key], c);
            r == (if next in nodes then Some(nodes[next]) else None)
  {
    r := n.Go(c, nodes);
    forall k | k in nodes
      ensures nodes[k].Cached(nodes)
    {
      if nodes[k] != n {
        assert old(nodes[k].Cached(nodes));
      }
    }
  }

  /** The instruction index after one more move, wrapping to the start of `directions`. */
  method NextPos(directions: string, pos: nat, ghost count: nat) returns (p: nat)
    requires pos == Pos(directions, count)
    ensures p == Pos(directions, count + 1)
  {
    p := pos + 1;
    if p >= |directions| {
      p := 0;
    }
  }

  /** The move of the walk after `count` moves: the instruction at `pos` read and followed from the node under `key`. */
  method Move(nodes: map<string, LazyNode>, directions: string, start: string, ghost count: nat, ghost key: string, n: LazyNode, pos: nat)
    returns (next: Option<LazyNode>, ghost key': string)
    requires AllCached(nodes) && key in nodes && n == nodes[key]
    requires KeyAfter(TableOf(nodes), directions, start, count) == Some(key) && pos == Pos(directions, count)
    modifies n
    ensures AllCached(nodes)
    ensures next.None? ==> KeyAfter(TableOf(nodes), directions, start, count + 1).None?
    ensures next.Some? ==> KeyAfter(TableOf(nodes), directions, start, count + 1) == Some(key') && key' in nodes && next.value == nodes[key']
  {
    var c := if pos < |directions| then directions[pos] else '\0';
    assert c == Direction(directions, count);
    next := Advance(nodes, key, n, c);
    key' := Successor(TableOf(nodes)[key], c);
  }

  /**
   * `compute_steps`: follow the instructions from the node under `start`
   * until a node named `destination` is reached, counting the moves in
   * `uint32_t`.  At most `fuel` moves are made.
   */
  method ComputeSteps(nodes: map<string, LazyNode>, directions: string, start: string, destination: string, fuel: nat)
    returns (r: WalkResult)
    requires AllCached(nodes)
    modifies nodes.Values
    ensures AllCached(nodes)
    ensures Outcome(TableOf(nodes), directions, start, destination, fuel, r)
  {
    ghost var t := TableOf(nodes);
    if start !in nodes {
      MissingOutcome(t, directions, start, destination, fuel, 0);
      return MissingNode;
    }
    var n := nodes[start];
    var res: u32 := 0;
    var pos: nat := 0;
    var count: nat := 0;
    ghost var key := start;
    while n.name != destination
      invariant AllCached(nodes) && key in nodes && n == nodes[key]
      invariant count <= fuel && KeyAfter(t, directions, start, count) == Some(key)
      invariant NoArrivalBefore(t, directions, start, destination, count)
      invariant res == Low32(count)
      invariant pos == Pos(directions, count)
      decreases fuel - count
    {
      if count == fuel {
        FuelOutcome(t, directions, start, destination, fuel);
        return OutOfFuel;
      }
      NoArrivalStep(t, directions, start, destination, count);
      var next, key' := Move(nodes, directions, start, count, key, n, pos);
      if next.None? {
        MissingOutcome(t, directions, start, destination, fuel, count + 1);
        return MissingNode;
      }
      n := next.value;
      key := key';
      Low32Step(count);
      res := IncU32(res);
      pos := NextPos(directions, pos, count);
      count := count + 1;
    }
    ReachedOutcome(t, directions, start, destination, fuel, count);
    return Reached(res);
  }

  // ---------------------------------------------------------------------
  // The node table: "AAA = (BBB, CCC)"
  // ---------------------------------------------------------------------

  /**
   * One node line: the name before " = ", then the part after it with its
   * first and last character (the parentheses) dropped, split at ", ".
   * `substr(1, length - 2)` throws on an empty part and yields "" for a
   * part of one character.
   */
  function NodeLine(line: string): (r: Result<(string, Entry), string>)
    ensures r.Ok? ==> r.value.0 == r.value.1.name
  {
    var (name, rep) := SplitOnce(line, " = ");
    if |rep| == 0 then Err("nothing after the node name")
    else
      var inner := if |rep| == 1 then "" else rep[1..|rep| - 1];
      var (l, r) := SplitOnce(inner, ", ");
      Ok((name, Entry(name, l, r)))
  }

  /** The node lines in order, empty lines skipped; the first malformed one is an error. */
  function NodeLines(lines: seq<string>): Result<seq<(string, Entry)>, string> {
    if lines == [] then Ok([])
    else
      match NodeLines(lines[..|lines| - 1])
      case Err(msg) => Err(msg)
      case Ok(es) =>
        var line := lines[|lines| - 1];
        if |line| == 0 then Ok(es)
        else
          match NodeLine(line)
          case Err(msg) => Err(msg)
          case Ok(e) => Ok(es + [e])
  }

  /** `nodes[name] = ...` for each entry in turn: a later entry for a name replaces the earlier one. */
  function TableFrom(entries: seq<(string, Entry)>): Table {
    if entries == [] then map[]
    else
      var e := entries[|entries| - 1];
      TableFrom(entries[..|entries| - 1])[e.0 := e.1]
  }

  /** The table the node lines build. */
  function ParsedTable(lines: seq<string>): Result<Table, string> {
    match NodeLines(lines)
    case Err(msg) => Err(msg)
    case Ok(es) => Ok(TableFrom(es))
  }

  /** The table holds exactly the names of the entries. */
  lemma {:induction false} TableKeys(entries: seq<(string, Entry)>, k: string)
    ensures k in TableFrom(entries) <==> exists i :: 0 <= i < |entries| && entries[i].0 == k
    decreases |entries|
  {
    if entries != [] {
      var n := |entries| - 1;
      var init := entries[..n];
      TableKeys(init, k);
      assert forall i :: 0 <= i < n ==> init[i] == entries[i];
      if k in TableFrom(entries) && entries[n].0 != k {
        assert k in TableFrom(init);
      }
    }
  }

  /** Each name holds the entry of the last line for it. */
  lemma {:induction false} LastLineWins(entries: seq<(string, Entry)>, k: string)
    requires k in TableFrom(entries)
    ensures exists i :: 0 <= i < |entries| && entries[i] == (k, TableFrom(entries)[k]) &&
                        forall j :: i < j < |entries| ==> entries[j].0 != k
    decreases |entries|
  {
    var n := |entries| - 1;
    var init := entries[..n];
    if entries[n].0 != k {
      LastLineWins(init, k);
      var i :| 0 <= i < |init| && init[i] == (k, TableFrom(init)[k]) && forall j :: i < j < |init| ==> init[j].0 != k;
      assert entries[i] == init[i];
      forall j | i < j < |entries| ensures entries[j].0 != k {
        if j < n {
          assert entries[j] == init[j];
        }
      }
    }
  }

  /** Once a line fails, the whole input fails with that line's error. */
  lemma {:induction false} NodeLinesErrPersists(lines: seq<string>, i: nat)
    requires i <= |lines| && NodeLines(lines[..i]).Err?
    ensures NodeLines(lines) == NodeLines(lines[..i])
    decreases |lines| - i
  {
    if i < |lines| {
      assert lines[..i + 1][..i] == lines[..i];
      NodeLinesErrPersists(lines, i + 1);
    } else {
      assert lines[..i] == lines;
    }
  }

  lemma NodeLinesSnoc(lines: seq<string>, i: nat)
    requires i < |lines| && NodeLines(lines[..i]).Ok?
    ensures |lines[i]| == 0 ==> NodeLines(lines[..i + 1]) == NodeLines(lines[..i])
    ensures |lines[i]| > 0 && NodeLine(lines[i]).Err? ==> NodeLines(lines[..i + 1]) == Err(NodeLine(lines[i]).error)
    ensures |lines[i]| > 0 && NodeLine(lines[i]).Ok? ==> NodeLines(lines[..i + 1]) == Ok(NodeLines(lines[..i]).value + [NodeLine(lines[i]).value])
  {
    assert lines[..i + 1][..i] == lines[..i];
  }

  /** One non-empty node line, parsed as `NodeLine` says, turned into a fresh `lazy_node` with nothing looked up yet. */
  method MakeNode(line: string) returns (r: Result<LazyNode, string>)
    ensures r.Err? ==> NodeLine(line).Err? && r.error == NodeLine(line).error
    ensures r.Ok? ==> NodeLine(line) == Ok((r.value.name, Entry(r.value.name, r.value.leftName, r.value.rightName)))
    ensures r.Ok? ==> fresh(r.value) && r.value.left == null && r.value.right == null
  {
    var parsed := NodeLine(line);
    if parsed.Err? {
      return Err(parsed.error);
    }
    var e := parsed.value.1;
    var node := new LazyNode(e.name, e.leftName, e.rightName);
    r := Ok(node);
  }

  /** The reading loop of `main`: one fresh `lazy_node` per non-empty line, stored under its name. */
  method BuildNodes(lines: seq<string>) returns (r: Result<map<string, LazyNode>, string>)
    ensures r.Err? ==> ParsedTable(lines).Err? && r.error == ParsedTable(lines).error
    ensures r.Ok? ==> ParsedTable(lines) == Ok(TableOf(r.value))
    ensures r.Ok? ==> AllCached(r.value) && forall k :: k in r.value ==> fresh(r.value[k])
  {
    var nodes: map<string, LazyNode> := map[];
    ghost var entries: seq<(string, Entry)> := [];
    var i := 0;
    while i < |lines|
      invariant 0 <= i <= |lines|
      invariant NodeLines(lines[..i]) == Ok(entries) && TableFrom(entries) == TableOf(nodes)
      invariant forall k :: k in nodes ==> fresh(nodes[k]) && nodes[k].left == null && nodes[k].right == null
    {
      var line := lines[i];
      NodeLinesSnoc(lines, i);
      if |line| > 0 {
        var made := MakeNode(line);
        if made.Err? {
          NodeLinesErrPersists(lines, i + 1);
          return Err(made.error);
        }
        var node := made.value;
        ghost var e := (node.name, Entry(node.name, node.leftName, node.rightName));
        assert TableOf(nodes[node.name := node]) == TableOf(nodes)[e.0 := e.1];
        nodes := nodes[node.name := node];
        entries := entries + [e];
      }
      i := i + 1;
    }
    assert lines[..i] == lines;
    r := Ok(nodes);
  }

  /**
   * `main`: the first line is the instruction string and the second is
   * skipped; the walk goes from "AAA" to "ZZZ".  It fails exactly when
   * there is no line at all or a node line is malformed.
   */
  method Solve(lines: seq<string>, fuel: nat) returns (r: Result<WalkResult, string>)
    ensures r.Err? <==> lines == [] || ParsedTable(if |lines| >= 2 then lines[2..] else []).Err?
    ensures r.Ok? ==> var table := ParsedTable(if |lines| >= 2 then lines[2..] else []);
                       table.Ok? && Outcome(table.value, lines[0], "AAA", "ZZZ", fuel, r.value)
  {
    if |lines| == 0 {
      return Err("no instruction line");
    }
    var directions := lines[0];
    var built := BuildNodes(if |lines| >= 2 then lines[2..] else []);
    if built.Err? {
      return Err(built.error);
    }
    var nodes := built.value;
    var steps := ComputeSteps(nodes, directions, "AAA", "ZZZ", fuel);
    r := Ok(steps);
  }
}
