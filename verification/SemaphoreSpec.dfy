/** A counting semaphore whose waiters sleep in a queue, its calls split where they sleep. */
module SemaphoreSpec {
  const LIMIT: nat := 0x1_0000_0000   // the values of a 32-bit counter

  /** `queue` holds the pids to be woken, `blocked` those that sleep, `waiting` those that are inside
      `down`: asleep, or woken and yet to try again. */
  datatype Semaphore = Semaphore(value: nat, queue: seq<nat>, blocked: set<nat>, waiting: set<nat>)

  datatype Woken = Nobody | Somebody(pid: nat)
  datatype Resumed = Resumed(queue: seq<nat>, woken: Woken)

  /** The first process of the queue that is alive leaves it, and all before it. */
  function Resume(queue: seq<nat>): Resumed
    decreases |queue|
  {
    if queue == [] then Resumed([], Nobody)
    else if queue[0] > 0 then Resumed(queue[1..], Somebody(queue[0]))
    else Resume(queue[1..])
  }

  function Awake(blocked: set<nat>, woken: Woken): set<nat> {
    if woken.Somebody? then blocked - {woken.pid} else blocked
  }

  /** A counter that overflows is left at zero, and nobody is woken. */
  function Up(s: Semaphore): Semaphore {
    var value := (s.value + 1) % LIMIT;
    if value == 0 then s.(value := 0)
    else
      var r := Resume(s.queue);
      s.(value := value, queue := r.queue, blocked := Awake(s.blocked, r.woken))
  }

  /** One try of `down`, the first or one after being woken: the process passes, goes to sleep or,
      when there is no memory for its queue node, leaves with an error. */
  function Down(s: Semaphore, pid: nat, oom: bool): Semaphore {
    if s.value > 0 then s.(value := s.value - 1, waiting := s.waiting - {pid})
    else if oom then s.(waiting := s.waiting - {pid})
    else s.(queue := s.queue + [pid], blocked := s.blocked + {pid}, waiting := s.waiting + {pid})
  }

  predicate Passes(s: Semaphore) {
    s.value > 0
  }

  function New(value: nat): Semaphore {
    Semaphore(value, [], {}, {})
  }

  // ---------------------------------------------------------------- runs

  datatype Op = Post | Wait(pid: nat, oom: bool) | Retry(pid: nat, oom: bool)

  predicate Enabled(s: Semaphore, op: Op) {
    match op
    case Post => true
    case Wait(pid, _) => pid > 0 && pid !in s.waiting
    case Retry(pid, _) => pid in s.waiting && pid !in s.blocked
  }

  function Step(s: Semaphore, op: Op): Semaphore {
    match op
    case Post => Up(s)
    case Wait(pid, oom) => Down(s, pid, oom)
    case Retry(pid, oom) => Down(s, pid, oom)
  }

  ghost function Members(queue: seq<nat>): set<nat> {
    set pid | pid in queue
  }

  /** The processes that were woken and have not tried again. */
  ghost function Roused(s: Semaphore): set<nat> {
    s.waiting - s.blocked
  }

  ghost predicate Distinct(queue: seq<nat>) {
    forall i, j :: 0 <= i < j < |queue| ==> queue[i] != queue[j]
  }

  lemma HeadLeaves(queue: seq<nat>)
    requires Distinct(queue) && queue != []
    ensures Distinct(queue[1..]) && Members(queue[1..]) == Members(queue) - {queue[0]} && queue[0] in Members(queue)
  {
    assert queue == [queue[0]] + queue[1..];
    assert forall x :: x in queue[1..] <==> x in queue && x != queue[0];
  }

  lemma TailJoins(queue: seq<nat>, pid: nat)
    requires Distinct(queue) && pid !in Members(queue)
    ensures Distinct(queue + [pid]) && Members(queue + [pid]) == Members(queue) + {pid}
  {
    assert pid !in queue;
    assert forall i :: 0 <= i < |queue| ==> queue[i] in queue;
  }

  /** Just the queued processes sleep, each queued once; and no wakeup is lost: while some sleep, the
      counter is no more than there are woken processes on their way to it. */
  ghost predicate Ok(s: Semaphore) {
    && s.value < LIMIT
    && Distinct(s.queue) && 0 !in s.queue && s.blocked == Members(s.queue) && s.blocked <= s.waiting
    && (s.queue != [] ==> s.value <= |Roused(s)|)
  }

  lemma NewOk(value: nat)
    requires value < LIMIT
    ensures Ok(New(value))
  {
  }

  lemma UpOk(s: Semaphore)
    requires Ok(s)
    ensures Ok(Up(s)) && Up(s).waiting == s.waiting
    ensures s.value + 1 < LIMIT ==> Up(s).value == s.value + 1
    ensures s.value + 1 < LIMIT ==>
              Up(s).blocked == if s.queue == [] then s.blocked else s.blocked - {s.queue[0]}
  {
    hide Distinct, Members;
    var t := Up(s);
    if s.value + 1 < LIMIT && s.queue != [] {
      HeadLeaves(s.queue);
      assert s.queue[0] > 0 by {
        assert s.queue[0] in s.queue;
      }
      assert Roused(t) == Roused(s) + {s.queue[0]};
    }
  }

  lemma DownOk(s: Semaphore, pid: nat, oom: bool)
    requires Ok(s) && pid > 0 && pid !in s.blocked
    ensures Ok(Down(s, pid, oom))
  {
    hide Distinct, Members;
    var t := Down(s, pid, oom);
    if s.value == 0 && !oom {
      TailJoins(s.queue, pid);
    } else {
      LoseOne(Roused(s), pid);
      assert Roused(t) == Roused(s) - {pid};
    }
  }

  lemma LoseOne(pids: set<nat>, pid: nat)
    ensures |pids - {pid}| >= |pids| - 1
  {
    if pid in pids {
      assert |pids - {pid}| == |pids| - 1;
    } else {
      assert pids - {pid} == pids;
    }
  }

  lemma StepOk(s: Semaphore, op: Op)
    requires Ok(s) && Enabled(s, op) && 0 !in s.waiting
    ensures Ok(Step(s, op)) && 0 !in Step(s, op).waiting
  {
    match op
    case Post => UpOk(s);
    case Wait(pid, oom) => DownOk(s, pid, oom);
    case Retry(pid, oom) => DownOk(s, pid, oom);
  }

  predicate Runs(s: Semaphore, ops: seq<Op>)
    decreases |ops|
  {
    ops == [] || (Enabled(s, ops[0]) && Runs(Step(s, ops[0]), ops[1..]))
  }

  function After(s: Semaphore, ops: seq<Op>): Semaphore
    decreases |ops|
  {
    if ops == [] then s else After(Step(s, ops[0]), ops[1..])
  }

  lemma {:induction false} RunOk(s: Semaphore, ops: seq<Op>)
    requires Ok(s) && 0 !in s.waiting && Runs(s, ops)
    ensures Ok(After(s, ops)) && 0 !in After(s, ops).waiting
    decreases |ops|
  {
    hide Ok, Step, Enabled;
    if ops != [] {
      StepOk(s, ops[0]);
      RunOk(Step(s, ops[0]), ops[1..]);
    }
  }

  /** In every run, with any fresh callers barging in and any tries failing for memory: while the
      queue is not empty the counter is at most the number of processes woken and not yet back, so a
      positive counter has one coming. */
  lemma NoLostWakeup(value: nat, ops: seq<Op>)
    requires value < LIMIT && Runs(New(value), ops)
    ensures var s := After(New(value), ops);
            s.queue != [] ==>
              && s.value <= |Roused(s)|
              && (s.value > 0 ==> exists pid :: pid in Roused(s) && Enabled(s, Retry(pid, false)))
  {
    hide Runs, After;
    NewOk(value);
    RunOk(New(value), ops);
    var s := After(New(value), ops);
    if s.queue != [] && s.value > 0 {
      var pid :| pid in Roused(s);
      assert Enabled(s, Retry(pid, false));
    }
  }

  // ---------------------------------------------------------------- tokens

  /** Waits that pass in a run. */
  function Passed(s: Semaphore, ops: seq<Op>): nat
    decreases |ops|
  {
    if ops == [] then 0 else (if ops[0] != Post && Passes(s) then 1 else 0) + Passed(Step(s, ops[0]), ops[1..])
  }

  function Posts(ops: seq<Op>): nat {
    if ops == [] then 0 else (if ops[0] == Post then 1 else 0) + Posts(ops[1..])
  }

  /** No post of the run finds the counter at its largest value. */
  predicate NeverOverflows(s: Semaphore, ops: seq<Op>)
    decreases |ops|
  {
    ops == [] || ((ops[0] == Post ==> s.value + 1 < LIMIT) && NeverOverflows(Step(s, ops[0]), ops[1..]))
  }

  /** Posts that overflow, which throw the whole counter away. */
  function Overflows(s: Semaphore, ops: seq<Op>): nat
    decreases |ops|
  {
    if ops == [] then 0
    else (if ops[0] == Post && s.value + 1 >= LIMIT then 1 else 0) + Overflows(Step(s, ops[0]), ops[1..])
  }

  lemma {:induction false} TokensCounted(s: Semaphore, ops: seq<Op>)
    requires Ok(s) && 0 !in s.waiting && Runs(s, ops)
    ensures After(s, ops).value + Passed(s, ops) + LIMIT * Overflows(s, ops) == s.value + Posts(ops)
    ensures NeverOverflows(s, ops) <==> Overflows(s, ops) == 0
    decreases |ops|
  {
    if ops != [] {
      StepOk(s, ops[0]);
      StepTokens(s, ops[0]);
      hide Ok, Step, Enabled;
      TokensCounted(Step(s, ops[0]), ops[1..]);
    }
  }

  lemma StepTokens(s: Semaphore, op: Op)
    requires Ok(s)
    ensures Step(s, op).value + (if op != Post && Passes(s) then 1 else 0)
            + (if op == Post && s.value + 1 >= LIMIT then LIMIT else 0)
            == s.value + if op == Post then 1 else 0
  {
  }

  /** Over every run the counter and the waits that passed add up to the initial value and the posts
      exactly when no post overflows the counter. */
  lemma Tokens(value: nat, ops: seq<Op>)
    requires value < LIMIT && Runs(New(value), ops)
    ensures After(New(value), ops).value + Passed(New(value), ops) == value + Posts(ops) <==>
            NeverOverflows(New(value), ops)
  {
    NewOk(value);
    TokensCounted(New(value), ops);
  }
}
