/** The table of pipes: ids, slots, the count of open pipes and the search for a free slot. */
module PipeTable {
  import opened PipeCode

  const MAX_PIPES: nat := 4096
  const BUILT_IN_DESCRIPTORS: nat := 3
  const NO_INDEX: int := -1

  /** How many slots are in use. */
  ghost function InUse<T>(slots: seq<T>, free: T): nat {
    if slots == [] then 0 else InUse(slots[..|slots| - 1], free) + if slots[|slots| - 1] == free then 0 else 1
  }

  lemma {:induction false} InUseAtMost<T>(slots: seq<T>, free: T)
    ensures InUse(slots, free) <= |slots|
    ensures InUse(slots, free) == |slots| <==> forall i :: 0 <= i < |slots| ==> slots[i] != free
  {
    if slots != [] {
      InUseAtMost(slots[..|slots| - 1], free);
      assert forall i :: 0 <= i < |slots| - 1 ==> slots[i] == slots[..|slots| - 1][i];
    }
  }

  lemma {:induction false} InUseUpdate<T>(slots: seq<T>, free: T, k: nat, x: T)
    requires k < |slots|
    ensures InUse(slots[k := x], free) + (if slots[k] == free then 0 else 1) == InUse(slots, free) + if x == free
            then 0 else 1
  {
    var n := |slots| - 1;
    if k < n {
      InUseUpdate(slots[..n], free, k, x);
      assert slots[k := x][..n] == slots[..n][k := x];
    } else {
      assert slots[k := x][..n] == slots[..n];
    }
  }

  lemma {:induction false} NoneInUse<T>(slots: seq<T>, free: T)
    requires forall i :: 0 <= i < |slots| ==> slots[i] == free
    ensures InUse(slots, free) == 0
  {
    if slots != [] {
      NoneInUse(slots[..|slots| - 1], free);
    }
  }

  /** The slot of an id: an id of 16 bits, taken as signed. */
  function IndexOf(id: nat): (index: int)
    ensures index == NO_INDEX || 0 <= index < MAX_PIPES
    ensures id < 0x1_0000 ==> (index != NO_INDEX <==> BUILT_IN_DESCRIPTORS <= id < BUILT_IN_DESCRIPTORS + MAX_PIPES)
  {
    var word := id % 0x1_0000;
    var index := (if word < 0x8000 then word else word - 0x1_0000) - BUILT_IN_DESCRIPTORS;
    if index < 0 || index >= MAX_PIPES then NO_INDEX else index
  }

  /** Ids and slots correspond: no slot's id overflows 16 signed bits or is a built-in descriptor. */
  lemma IdsAreSlots(index: nat, id: nat)
    requires index < MAX_PIPES && id < 0x1_0000
    ensures IndexOf(index + BUILT_IN_DESCRIPTORS) == index && index + BUILT_IN_DESCRIPTORS < 0x8000
    ensures IndexOf(id) == index <==> id == index + BUILT_IN_DESCRIPTORS
  {
  }

  /** How far slot `k` lies ahead of slot `from` around the table. */
  function Ahead(from: nat, k: nat): (d: nat)
    requires from < MAX_PIPES && k < MAX_PIPES
    ensures d < MAX_PIPES && (d == 0 <==> from == k)
    ensures d > 0 ==> (if from + 1 == MAX_PIPES then 0 else from + 1) < MAX_PIPES
  {
    if k >= from then k - from else k + MAX_PIPES - from
  }

  lemma AheadNext(from: nat, k: nat)
    requires from < MAX_PIPES && k < MAX_PIPES && from != k
    ensures (from + 1) % MAX_PIPES < MAX_PIPES && Ahead((from + 1) % MAX_PIPES, k) == Ahead(from, k) - 1
  {
  }

  class PipeManager {
    const pipes: array<Pipe?>
    var lastFreePipe: nat
    var qtyPipes: nat

    ghost predicate Valid()
      reads this, pipes
    {
      pipes.Length == MAX_PIPES && lastFreePipe < MAX_PIPES && qtyPipes == InUse(pipes[..], null)
    }

    constructor ()
      ensures Valid() && qtyPipes == 0 && fresh(pipes)
    {
      pipes := new Pipe?[MAX_PIPES](_ => null);
      lastFreePipe, qtyPipes := 0, 0;
      new;
      NoneInUse<Pipe?>(pipes[..], null);
    }

    /** `oom` says whether the heap refuses the pipe. A slot is found whenever one is free: the first
        from `lastFreePipe` on. Its id leads back to the new pipe, and is no other pipe's. */
    method Get(oom: bool) returns (id: int)
      requires Valid()
      modifies this, pipes
      ensures Valid()
      ensures id == -1 <==> oom || old(qtyPipes) == MAX_PIPES
      ensures id == -1 ==> pipes[..] == old(pipes[..]) && qtyPipes == old(qtyPipes)
      ensures id != -1 ==>
                && id >= BUILT_IN_DESCRIPTORS && IndexOf(id) != NO_INDEX
                && var i := IndexOf(id);
                && old(pipes[i]) == null && pipes[i] != null && fresh(pipes[i])
                && (forall k :: 0 <= k < MAX_PIPES && k != i ==> pipes[k] == old(pipes[k]))
                && (forall k :: 0 <= k < MAX_PIPES && Ahead(old(lastFreePipe), k) < Ahead(old(lastFreePipe), i) ==>
                   old(pipes[k]) != null)
                && qtyPipes == old(qtyPipes) + 1 && lastFreePipe == (i + 1) % MAX_PIPES
    {
      InUseAtMost<Pipe?>(pipes[..], null);
      if qtyPipes >= MAX_PIPES {
        return -1;
      }
      var at := Find(lastFreePipe);
      lastFreePipe := at;
      if oom {
        return -1;
      }
      var newPipe := new Pipe();
      IdsAreSlots(at, 0);
      Fill(at, newPipe);
      id := at + BUILT_IN_DESCRIPTORS;
      lastFreePipe := (at + 1) % MAX_PIPES;
    }

    /** The scan for a free slot ends because one is free. */
    method Find(from: nat) returns (at: nat)
      requires Valid() && qtyPipes < MAX_PIPES && from < MAX_PIPES
      ensures at < MAX_PIPES && pipes[at] == null
      ensures forall k :: 0 <= k < MAX_PIPES && Ahead(from, k) < Ahead(from, at) ==> pipes[k] != null
    {
      InUseAtMost<Pipe?>(pipes[..], null);
      ghost var goal :| 0 <= goal < MAX_PIPES && pipes[..][goal] == null;
      at := from;
      while pipes[at] != null
        invariant at < MAX_PIPES && Ahead(at, goal) <= Ahead(from, goal)
        invariant forall k :: 0 <= k < MAX_PIPES && Ahead(from, k) < Ahead(from, at) ==> pipes[k] != null
        decreases Ahead(at, goal)
      {
        AheadNext(at, goal);
        ghost var was := at;
        at := (at + 1) % MAX_PIPES;
        Passed(from, was, at, goal);
      }
    }

    lemma Passed(from: nat, was: nat, at: nat, goal: nat)
      requires from < MAX_PIPES && was < MAX_PIPES && goal < MAX_PIPES && at == (was + 1) % MAX_PIPES && was != goal
      requires Ahead(was, goal) <= Ahead(from, goal)
      ensures at < MAX_PIPES
      ensures forall k :: 0 <= k < MAX_PIPES && Ahead(from, k) < Ahead(from, at) ==>
                Ahead(from, k) < Ahead(from, was) || k == was
    {
    }

    method Fill(at: nat, pipe: Pipe)
      requires Valid() && at < MAX_PIPES && pipes[at] == null
      modifies this`qtyPipes, pipes
      ensures Valid() && pipes[..] == old(pipes[..])[at := pipe] && qtyPipes == old(qtyPipes) + 1
    {
      InUseUpdate<Pipe?>(pipes[..], null, at, pipe);
      pipes[at] := pipe;
      qtyPipes := qtyPipes + 1;
      assert pipes[..] == old(pipes[..])[at := pipe];
    }

    method ById(id: nat) returns (pipe: Pipe?)
      requires Valid()
      ensures pipe == if IndexOf(id) == NO_INDEX then null else pipes[IndexOf(id)]
    {
      var index := IndexOf(id);
      if index == NO_INDEX {
        return null;
      }
      pipe := pipes[index];
    }

    /** What `pipe_open` does with the table: an id without a pipe gets one. */
    method Ensure(id: nat, oom: bool) returns (pipe: Pipe?)
      requires Valid()
      modifies this`qtyPipes, pipes
      ensures Valid()
      ensures pipe == null <==> IndexOf(id) == NO_INDEX || (old(pipes[IndexOf(id)]) == null && oom)
      ensures pipe == null ==> pipes[..] == old(pipes[..]) && qtyPipes == old(qtyPipes)
      ensures pipe != null ==>
                && pipes[..] == old(pipes[..])[IndexOf(id) := pipe]
                && (old(pipes[IndexOf(id)]) != null ==> pipe == old(pipes[IndexOf(id)]))
                && (old(pipes[IndexOf(id)]) == null ==> fresh(pipe))
    {
      var index := IndexOf(id);
      if index == NO_INDEX {
        return null;
      }
      pipe := pipes[index];
      if pipe == null {
        InUseAtMost<Pipe?>(pipes[..], null);
        assert pipes[..][index] == null;
        if qtyPipes >= MAX_PIPES || oom {
          return null;
        }
        pipe := new Pipe();
        Fill(index, pipe);
      }
    }

    /** What `pipe_close` does with the table once the reader is gone. */
    method Release(id: nat)
      requires Valid() && IndexOf(id) != NO_INDEX && pipes[IndexOf(id)] != null
      modifies this`qtyPipes, pipes
      ensures Valid() && pipes[..] == old(pipes[..])[IndexOf(id) := null] && qtyPipes == old(qtyPipes) - 1
    {
      var index := IndexOf(id);
      InUseUpdate<Pipe?>(pipes[..], null, index, null);
      pipes[index] := null;
      qtyPipes := qtyPipes - 1;
      assert pipes[..] == old(pipes[..])[index := null];
    }
  }
}
