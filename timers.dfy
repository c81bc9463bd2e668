/** The named-timer table of the front-end library (class `Timers`).  The
    browser's `setTimeout`/`clearTimeout` are outside the model: the id a
    `setTimeout` returns is a parameter, and the model records which timers
    were started and which ids were cleared. */
module Timers {
  import opened Wrappers
  import opened Assoc

  /** A browser timer id; the model never looks inside it. */
  type TimerId(==)

  /** The `Map` of named timers, in insertion order. */
  type Table = seq<(string, TimerId)>

  /** `cancel(...names)` for a non-empty list: the table without the names
      and the ids cleared, one per name that had a timer. */
  function CancelNames(t: Table, names: seq<string>): (Table, seq<TimerId>)
    decreases |names|
  {
    if names == [] then (t, [])
    else
      var rest := CancelNames(Delete(t, names[0]), names[1..]);
      (rest.0, Cleared(t, names[0]) + rest.1)
  }

  /** The id cleared for one name: its timer's, if it has one. */
  function Cleared(t: Table, name: string): seq<TimerId> {
    match Lookup(t, name) case Some(id) => [id] case None => []
  }

  lemma CancelStep(t: Table, names: seq<string>)
    requires names != []
    ensures CancelNames(t, names).0 == CancelNames(Delete(t, names[0]), names[1..]).0
    ensures CancelNames(t, names).1 == Cleared(t, names[0]) + CancelNames(Delete(t, names[0]), names[1..]).1
  {
  }

  /** After cancelling names none of them has a timer, and every other name
      keeps its own. */
  lemma {:induction false} CancelNamesLookup(t: Table, names: seq<string>, other: string)
    requires UniqueKeys(t)
    ensures UniqueKeys(CancelNames(t, names).0)
    ensures Lookup(CancelNames(t, names).0, other) == if other in names then None else Lookup(t, other)
    decreases |names|
  {
    if names != [] {
      DeleteLookup(t, names[0], other);
      CancelNamesLookup(Delete(t, names[0]), names[1..], other);
    }
  }

  /** The `names.forEach` loop of `cancel`, on the table's value: the table
      left and the ids passed to `clearTimeout`. */
  method CancelLoop(table: Table, names: seq<string>) returns (t: Table, ids: seq<TimerId>)
    ensures (t, ids) == CancelNames(table, names)
  {
    var rest := names;
    t, ids := table, [];
    while rest != []
      invariant CancelNames(table, names).0 == CancelNames(t, rest).0
      invariant CancelNames(table, names).1 == ids + CancelNames(t, rest).1
      decreases |rest|
    {
      var n := rest[0];
      CancelStep(t, rest);
      ghost var before := ids;
      var id := Lookup(t, n);
      if id.Some? {
        ids := ids + [id.value];
      }
      assert ids == before + Cleared(t, n);
      assert CancelNames(table, names).1 == ids + CancelNames(Delete(t, n), rest[1..]).1;
      t := Delete(t, n);
      rest := rest[1..];
    }
    assert ids + [] == ids;
  }

  class Timers {
    var table: Table
    /** Timers started with `setTimeout`: the id and the delay in ms. */
    var started: seq<(TimerId, int)>
    /** Ids passed to `clearTimeout`, in order. */
    var cleared: seq<TimerId>

    ghost predicate Valid() reads this {
      UniqueKeys(table)
    }

    constructor()
      ensures Valid() && table == [] && started == [] && cleared == []
    {
      table, started, cleared := [], [], [];
    }

    /** `delay(name, fn, timeout)`; `id` is what `setTimeout` returns. */
    method Delay(name: string, timeout: int, id: TimerId)
      requires Valid()
      modifies this
      ensures Valid()
      ensures table == Put(old(table), name, id)
      ensures cleared == old(cleared) + (match Lookup(old(table), name) case Some(prev) => [prev] case None => [])
      ensures started == old(started) + [(id, timeout)]
      ensures Lookup(table, name) == Some(id)
    {
      var prev := Lookup(table, name);
      if prev.Some? {
        cleared := cleared + [prev.value];
      }
      started := started + [(id, timeout)];
      PutLookup(table, name, id, name);
      table := Put(table, name, id);
    }

    /** `cancel(...names)`; with no names every timer is cleared. */
    method Cancel(names: seq<string>)
      requires Valid()
      modifies this
      ensures Valid() && started == old(started)
      ensures names != [] ==> (table, cleared) == (CancelNames(old(table), names).0, old(cleared) + CancelNames(old(table), names).1)
      ensures names == [] ==> table == [] && cleared == old(cleared) + Values(old(table))
    {
      if names != [] {
        CancelEach(names);
      } else {
        CancelAll();
      }
    }

    /** The given names, one after another. */
    method CancelEach(names: seq<string>)
      requires Valid()
      modifies this
      ensures Valid() && started == old(started)
      ensures (table, cleared) == (CancelNames(old(table), names).0, old(cleared) + CancelNames(old(table), names).1)
    {
      var t, ids := CancelLoop(table, names);
      CancelNamesLookup(table, names, "");
      table, cleared := t, cleared + ids;
    }

    /** The loop over every running timer. */
    method CancelAll()
      requires Valid()
      modifies this
      ensures Valid() && started == old(started)
      ensures table == [] && cleared == old(cleared) + Values(old(table))
    {
      var i := 0;
      while i < |table|
        invariant 0 <= i <= |table| && table == old(table) && started == old(started)
        invariant cleared == old(cleared) + Values(table[..i])
      {
        assert Values(table[..i + 1]) == Values(table[..i]) + [table[i].1];
        cleared := cleared + [table[i].1];
        i := i + 1;
      }
      assert table[..|table|] == table;
      table := [];
    }
  }
}
