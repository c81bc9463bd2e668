/** The round set-ups of the Implicit Association Test (`iat/blocks.py`):
    each block places categories, by their position in a configured pair,
    on the left and the right; `configure` puts the configured category
    names in place of the positions. */
module IatBlocks {
  import opened Wrappers
  import opened PyList

  datatype Side = Left | Right
  /** The two category pairs: `'primary'` and `'secondary'`. */
  datatype Cls = Primary | Secondary

  function SideName(s: Side): string {
    match s
    case Left => "left"
    case Right => "right"
  }

  /** A block. Each side is the side's dict as its items in insertion
      order: a class and the 1-based position in that class's pair. */
  datatype Block = Block(title: string, practice: bool, left: seq<(Cls, int)>, right: seq<(Cls, int)>)

  /** A configured block: the positions replaced by category names. */
  datatype Setup = Setup(title: string, practice: bool, left: seq<(Cls, string)>, right: seq<(Cls, string)>)

  /** `d.get(cls)` on a side given by its items. */
  function Lookup<V>(entries: seq<(Cls, V)>, cls: Cls): Option<V> {
    if entries == [] then None
    else if entries[0].0 == cls then Some(entries[0].1)
    else Lookup(entries[1..], cls)
  }

  /** `config[cls][idx - 1]` */
  function CategoryAt(config: map<Cls, seq<string>>, cls: Cls, idx: int): Result<string> {
    if cls !in config then Err(KeyError) else PyAt(config[cls], idx - 1)
  }

  // ---- the tables ----------------------------------------------------------

  /** `BLOCKS1`: the primary pair switches sides in rounds 5 to 7. */
  const BLOCKS1: map<int, Block> := map[
    1 := Block("Round 1 (practice)", true, [(Primary, 1)], [(Primary, 2)]),
    2 := Block("Round 2 (practice)", true, [(Secondary, 1)], [(Secondary, 2)]),
    3 := Block("Round 3", false, [(Primary, 1), (Secondary, 1)], [(Primary, 2), (Secondary, 2)]),
    4 := Block("Round 4", false, [(Primary, 1), (Secondary, 1)], [(Primary, 2), (Secondary, 2)]),
    5 := Block("Round 5 (practice)", true, [(Primary, 2)], [(Primary, 1)]),
    6 := Block("Round 6", false, [(Primary, 2), (Secondary, 1)], [(Primary, 1), (Secondary, 2)]),
    7 := Block("Round 7", false, [(Primary, 2), (Secondary, 1)], [(Primary, 1), (Secondary, 2)])
  ]

  /** `BLOCKS2`: the secondary pair switches sides in rounds 5 to 7. */
  const BLOCKS2: map<int, Block> := map[
    1 := Block("Round 1 (practice)", true, [(Primary, 1)], [(Primary, 2)]),
    2 := Block("Round 2 (practice)", true, [(Secondary, 1)], [(Secondary, 2)]),
    3 := Block("Round 3", false, [(Primary, 1), (Secondary, 1)], [(Primary, 2), (Secondary, 2)]),
    4 := Block("Round 4", false, [(Primary, 1), (Secondary, 1)], [(Primary, 2), (Secondary, 2)]),
    5 := Block("Round 5 (practice)", true, [(Secondary, 2)], [(Secondary, 1)]),
    6 := Block("Round 6", false, [(Primary, 1), (Secondary, 2)], [(Primary, 2), (Secondary, 1)]),
    7 := Block("Round 7", false, [(Primary, 1), (Secondary, 2)], [(Primary, 2), (Secondary, 1)])
  ]

  const BLOCKS: map<int, Block> := BLOCKS1

  /** Block `b` has class `cls` on the opposite sides to block `a`. */
  predicate Swaps(b: Block, a: Block, cls: Cls) {
    Lookup(b.left, cls) == Lookup(a.right, cls) && Lookup(b.right, cls) == Lookup(a.left, cls)
  }

  /** Block `b` has class `cls` where block `a` has it. */
  predicate Keeps(b: Block, a: Block, cls: Cls) {
    Lookup(b.left, cls) == Lookup(a.left, cls) && Lookup(b.right, cls) == Lookup(a.right, cls)
  }

  /** Both tables have rounds 1 to 7, practice exactly in rounds 1, 2 and
      5; `BLOCKS1` switches the primary pair from round 5 on, keeping the
      secondary pair in place, and `BLOCKS2` the other way round. */
  lemma TablesDesign()
    ensures BLOCKS == BLOCKS1
    ensures forall r :: r in BLOCKS1 <==> 1 <= r <= 7
    ensures forall r :: r in BLOCKS2 <==> 1 <= r <= 7
    ensures forall r :: r in BLOCKS1 ==> (BLOCKS1[r].practice <==> r == 1 || r == 2 || r == 5)
    ensures forall r :: r in BLOCKS2 ==> (BLOCKS2[r].practice <==> r == 1 || r == 2 || r == 5)
    ensures Swaps(BLOCKS1[5], BLOCKS1[1], Primary) && Lookup(BLOCKS1[5].left, Secondary).None?
    ensures Swaps(BLOCKS1[6], BLOCKS1[3], Primary) && Keeps(BLOCKS1[6], BLOCKS1[3], Secondary) && BLOCKS1[7].left == BLOCKS1[6].left
    ensures Swaps(BLOCKS2[5], BLOCKS2[2], Secondary) && Lookup(BLOCKS2[5].left, Primary).None?
    ensures Swaps(BLOCKS2[6], BLOCKS2[3], Secondary) && Keeps(BLOCKS2[6], BLOCKS2[3], Primary) && BLOCKS2[7].left == BLOCKS2[6].left
  {
    assert BLOCKS1.Keys == {1, 2, 3, 4, 5, 6, 7};
    assert BLOCKS2.Keys == {1, 2, 3, 4, 5, 6, 7};
  }

  // ---- configure -----------------------------------------------------------

  /** One side of `configure`: every position in turn replaced by its name;
      the first failing lookup ends it. */
  function ConfigureSide(entries: seq<(Cls, int)>, config: map<Cls, seq<string>>): (r: Result<seq<(Cls, string)>>)
    ensures r.Ok? ==> |r.value| == |entries|
  {
    if entries == [] then Ok([])
    else
      match ConfigureSide(entries[..|entries| - 1], config)
      case Err(e) => Err(e)
      case Ok(done) =>
        var (cls, idx) := entries[|entries| - 1];
        match CategoryAt(config, cls, idx)
        case Err(e) => Err(e)
        case Ok(name) => Ok(done + [(cls, name)])
  }

  /** `configure(block, config)` */
  function ConfigureSpec(block: Block, config: map<Cls, seq<string>>): Result<Setup> {
    match ConfigureSide(block.left, config)
    case Err(e) => Err(e)
    case Ok(left) =>
      match ConfigureSide(block.right, config)
      case Err(e) => Err(e)
      case Ok(right) => Ok(Setup(block.title, block.practice, left, right))
  }

  /** A failure on a prefix is the failure of the whole side. */
  lemma {:induction false} FailureStays(entries: seq<(Cls, int)>, j: nat, config: map<Cls, seq<string>>)
    requires j <= |entries| && ConfigureSide(entries[..j], config).Err?
    ensures ConfigureSide(entries, config) == ConfigureSide(entries[..j], config)
    decreases |entries| - j
  {
    if j < |entries| {
      var n := |entries| - 1;
      assert entries[..n][..j] == entries[..j];
      FailureStays(entries[..n], j, config);
    } else {
      assert entries[..j] == entries;
    }
  }

  /** A side configures exactly when every class is configured and every
      position is within its pair; the result keeps the classes in their
      order and names each by `config[cls][idx - 1]`. */
  lemma {:induction false} ConfigureSideMeans(entries: seq<(Cls, int)>, config: map<Cls, seq<string>>)
    ensures var r := ConfigureSide(entries, config);
      (r.Ok? <==> forall k :: 0 <= k < |entries| ==> CategoryAt(config, entries[k].0, entries[k].1).Ok?) &&
      (r.Ok? ==> forall k :: 0 <= k < |entries| ==>
         r.value[k] == (entries[k].0, CategoryAt(config, entries[k].0, entries[k].1).value))
  {
    if entries != [] {
      var n := |entries| - 1;
      ConfigureSideMeans(entries[..n], config);
      assert forall k :: 0 <= k < n ==> entries[..n][k] == entries[k];
    }
  }

  /** `configure` keeps the title, the practice flag and each side's
      classes, and fails with a KeyError for an unconfigured class or an
      IndexError for a position outside its pair. */
  lemma ConfigureMeans(block: Block, config: map<Cls, seq<string>>)
    ensures var r := ConfigureSpec(block, config);
      (r.Ok? <==> (forall k :: 0 <= k < |block.left| ==> CategoryAt(config, block.left[k].0, block.left[k].1).Ok?) &&
                  (forall k :: 0 <= k < |block.right| ==> CategoryAt(config, block.right[k].0, block.right[k].1).Ok?)) &&
      (r.Err? ==> r.error == KeyError || r.error == IndexError) &&
      (r.Ok? ==>
        r.value.title == block.title && r.value.practice == block.practice &&
        |r.value.left| == |block.left| && |r.value.right| == |block.right| &&
        (forall k :: 0 <= k < |block.left| ==> r.value.left[k] == (block.left[k].0, config[block.left[k].0][block.left[k].1 - 1])) &&
        (forall k :: 0 <= k < |block.right| ==> r.value.right[k] == (block.right[k].0, config[block.right[k].0][block.right[k].1 - 1])))
    requires forall k :: 0 <= k < |block.left| ==> block.left[k].1 >= 1
    requires forall k :: 0 <= k < |block.right| ==> block.right[k].1 >= 1
  {
    ConfigureSideMeans(block.left, config);
    ConfigureSideMeans(block.right, config);
    ErrorKinds(block.left, config);
    ErrorKinds(block.right, config);
  }

  lemma {:induction false} ErrorKinds(entries: seq<(Cls, int)>, config: map<Cls, seq<string>>)
    ensures ConfigureSide(entries, config).Err? ==> ConfigureSide(entries, config).error in {KeyError, IndexError}
  {
    if entries != [] {
      ErrorKinds(entries[..|entries| - 1], config);
    }
  }

  /** One side, position by position: `result[side][cls] = config[cls][idx - 1]`. */
  method ConfigureSideLoop(entries: seq<(Cls, int)>, config: map<Cls, seq<string>>) returns (r: Result<seq<(Cls, string)>>)
    ensures r == ConfigureSide(entries, config)
  {
    var done: seq<(Cls, string)> := [];
    var i := 0;
    while i < |entries|
      invariant 0 <= i <= |entries|
      invariant ConfigureSide(entries[..i], config) == Ok(done)
    {
      var (cls, idx) := entries[i];
      assert entries[..i + 1][..i] == entries[..i];
      if cls !in config {
        FailureStays(entries, i + 1, config);
        return Err(KeyError);
      }
      var name := PyAt(config[cls], idx - 1);
      if name.Err? {
        FailureStays(entries, i + 1, config);
        return Err(name.error);
      }
      done := done + [(cls, name.value)];
      i := i + 1;
    }
    assert entries[..i] == entries;
    return Ok(done);
  }

  /** `configure(block, config)`: a fresh result, the left side then the
      right; the block itself is a value and stays as it was. */
  method Configure(block: Block, config: map<Cls, seq<string>>) returns (r: Result<Setup>)
    ensures r == ConfigureSpec(block, config)
  {
    var left := ConfigureSideLoop(block.left, config);
    if left.Err? {
      return Err(left.error);
    }
    var right := ConfigureSideLoop(block.right, config);
    if right.Err? {
      return Err(right.error);
    }
    return Ok(Setup(block.title, block.practice, left.value, right.value));
  }
}
