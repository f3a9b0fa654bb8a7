/** What a try of `down` and a post do to their process, and the order in which sleepers are woken. */
module SemaphoreOrder {
  import opened SemaphoreSpec

  predicate Tries(op: Op, pid: nat, oom: bool) {
    op == Wait(pid, oom) || op == Retry(pid, oom)
  }

  /** A process that finds the counter at zero sleeps, and cannot try again until it is woken. */
  lemma ZeroSleeps(s: Semaphore, op: Op, pid: nat)
    requires Ok(s) && Enabled(s, op) && Tries(op, pid, false) && s.value == 0
    ensures var t := Step(s, op);
            && t.value == 0 && pid !in s.blocked && t.blocked == s.blocked + {pid} && pid in t.waiting
            && forall oom :: !Enabled(t, Retry(pid, oom)) && !Enabled(t, Wait(pid, oom))
  {
  }

  /** One that finds no memory for its queue node leaves, and nothing else changes. */
  lemma ZeroFails(s: Semaphore, op: Op, pid: nat)
    requires Ok(s) && Enabled(s, op) && Tries(op, pid, true) && s.value == 0
    ensures var t := Step(s, op);
            && t.value == 0 && t.blocked == s.blocked && t.waiting == s.waiting - {pid}
  {
  }

  /** One that finds a positive counter takes one off it and is through. */
  lemma PositivePasses(s: Semaphore, op: Op, pid: nat, oom: bool)
    requires Ok(s) && Enabled(s, op) && Tries(op, pid, oom) && s.value > 0
    ensures var t := Step(s, op);
            && t.value == s.value - 1 && t.blocked == s.blocked && t.waiting == s.waiting - {pid}
            && pid !in t.blocked
  {
  }

  /** A post adds one and wakes exactly one sleeper if there is any, unless it overflows: then the
      counter is lost and nobody wakes. Whoever wakes may try again. */
  lemma PostWakes(s: Semaphore)
    requires Ok(s)
    ensures var t := Step(s, Post);
            && t.waiting == s.waiting && t.blocked <= s.blocked
            && (if s.value + 1 == LIMIT then t.value == 0 && t.blocked == s.blocked
                else t.value == s.value + 1 && |s.blocked - t.blocked| == if s.blocked == {} then 0 else 1)
            && forall pid, oom :: pid in s.blocked - t.blocked ==> Enabled(t, Retry(pid, oom))
  {
    hide Distinct, Roused, Members;
    UpOk(s);
    QueuedSleep(s);
    if s.value + 1 < LIMIT && s.queue != [] {
      assert s.blocked - Step(s, Post).blocked == {s.queue[0]};
    }
  }

  lemma QueuedSleep(s: Semaphore)
    requires Ok(s)
    ensures s.blocked == {} <==> s.queue == []
    ensures s.queue != [] ==> s.queue[0] in s.blocked
  {
    hide Distinct, Roused;
    if s.queue != [] {
      assert s.queue[0] in s.queue;
      assert s.queue[0] in Members(s.queue);
    }
  }

  // ---------------------------------------------------------------- order

  /** Who fell asleep in the step, if anyone. */
  ghost function Falls(s: Semaphore, op: Op): seq<nat> {
    One(Step(s, op).blocked - s.blocked)
  }

  /** Who was woken in the step, if anyone. */
  ghost function Rises(s: Semaphore, op: Op): seq<nat> {
    One(s.blocked - Step(s, op).blocked)
  }

  ghost function One(pids: set<nat>): seq<nat> {
    if pids == {} then [] else var pid :| pid in pids; [pid]
  }

  lemma OneOf(pids: set<nat>, pid: nat)
    requires pids == {pid}
    ensures One(pids) == [pid]
  {
  }

  ghost function FallAsleep(s: Semaphore, ops: seq<Op>): seq<nat>
    decreases |ops|
  {
    if ops == [] then [] else Falls(s, ops[0]) + FallAsleep(Step(s, ops[0]), ops[1..])
  }

  ghost function AreWoken(s: Semaphore, ops: seq<Op>): seq<nat>
    decreases |ops|
  {
    if ops == [] then [] else Rises(s, ops[0]) + AreWoken(Step(s, ops[0]), ops[1..])
  }

  /** A step takes the sleeper it wakes off the front of the queue and puts the one that falls asleep
      at its end. */
  lemma StepOrder(s: Semaphore, op: Op)
    requires Ok(s) && Enabled(s, op)
    ensures s.queue + Falls(s, op) == Rises(s, op) + Step(s, op).queue
  {
    hide Ok, Step, Falls, Rises;
    match op
    case Post => PostOrder(s);
    case Wait(pid, oom) => TryOrder(s, op, pid, oom);
    case Retry(pid, oom) => TryOrder(s, op, pid, oom);
  }

  lemma PostQueue(s: Semaphore)
    requires Ok(s)
    ensures var t := Step(s, Post);
            && t.blocked - s.blocked == {}
            && if s.queue != t.queue
               then s.queue != [] && s.blocked - t.blocked == {s.queue[0]} && t.queue == s.queue[1..]
               else s.blocked - t.blocked == {}
  {
    hide Distinct, Roused;
    UpOk(s);
    if s.value + 1 < LIMIT && s.queue != [] {
      assert s.queue[0] in s.queue;
    }
  }

  lemma PostOrder(s: Semaphore)
    requires Ok(s)
    ensures s.queue + Falls(s, Post) == Rises(s, Post) + Step(s, Post).queue
  {
    hide Ok, Step;
    PostQueue(s);
    var t := Step(s, Post);
    if s.queue != t.queue {
      OneOf(s.blocked - t.blocked, s.queue[0]);
      assert s.queue == [s.queue[0]] + s.queue[1..];
    }
  }

  lemma TryQueue(s: Semaphore, op: Op, pid: nat, oom: bool)
    requires Ok(s) && Enabled(s, op) && Tries(op, pid, oom)
    ensures var t := Step(s, op);
            && s.blocked - t.blocked == {}
            && if s.value == 0 && !oom then t.queue == s.queue + [pid] && t.blocked - s.blocked == {pid}
               else t.queue == s.queue && t.blocked - s.blocked == {}
  {
    hide Distinct, Members, Roused;
  }

  lemma TryOrder(s: Semaphore, op: Op, pid: nat, oom: bool)
    requires Ok(s) && Enabled(s, op) && Tries(op, pid, oom)
    ensures s.queue + Falls(s, op) == Rises(s, op) + Step(s, op).queue
  {
    hide Ok, Step;
    TryQueue(s, op, pid, oom);
    if s.value == 0 && !oom {
      OneOf(Step(s, op).blocked - s.blocked, pid);
    }
  }

  lemma {:induction false} RunOrder(s: Semaphore, ops: seq<Op>)
    requires Ok(s) && 0 !in s.waiting && Runs(s, ops)
    ensures s.queue + FallAsleep(s, ops) == AreWoken(s, ops) + After(s, ops).queue
    decreases |ops|
  {
    hide Ok, Step, Enabled, Falls, Rises;
    if ops != [] {
      var t := Step(s, ops[0]);
      StepOk(s, ops[0]);
      StepOrder(s, ops[0]);
      RunOrder(t, ops[1..]);
      var f, r := Falls(s, ops[0]), Rises(s, ops[0]);
      assert s.queue + (f + FallAsleep(t, ops[1..])) == (s.queue + f) + FallAsleep(t, ops[1..]);
      assert r + (t.queue + FallAsleep(t, ops[1..])) == (r + t.queue) + FallAsleep(t, ops[1..]);
      assert r + (AreWoken(t, ops[1..]) + After(t, ops[1..]).queue)
             == (r + AreWoken(t, ops[1..])) + After(t, ops[1..]).queue;
    }
  }

  /** In every run sleepers are woken in the order in which they fell asleep: those woken, followed
      by those that still sleep, each once, are those that fell asleep. */
  lemma FirstAsleepFirstWoken(value: nat, ops: seq<Op>) returns (asleep: seq<nat>)
    requires value < LIMIT && Runs(New(value), ops)
    ensures FallAsleep(New(value), ops) == AreWoken(New(value), ops) + asleep
    ensures Distinct(asleep) && Members(asleep) == After(New(value), ops).blocked
  {
    hide Runs, FallAsleep, AreWoken, After;
    NewOk(value);
    RunOk(New(value), ops);
    RunOrder(New(value), ops);
    asleep := After(New(value), ops).queue;
    assert [] + FallAsleep(New(value), ops) == FallAsleep(New(value), ops);
  }
}
