/** A semaphore updated in place under its inner lock, each call up to where it sleeps. */
module SemaphoreCode {
  import opened SemaphoreSpec

  datatype Outcome = Failed | Asleep | Passed

  class SemaphoreCell {
    var value: nat
    var mutex: int
    var semaphoreQueue: seq<nat>
    var mutexQueue: seq<nat>
    var blocked: set<nat>         // the pids that `set_status` has blocked here and not made ready since
    ghost var waiting: set<nat>   // the pids inside `down`

    ghost function Contents(): Semaphore
      reads this
    {
      Semaphore(value, semaphoreQueue, blocked, waiting)
    }

    /** Nobody holds the inner lock or queues for it: so it is whenever the processor changes hands. */
    ghost predicate Quiet()
      reads this
    {
      mutex == 0 && mutexQueue == []
    }

    constructor (initialValue: nat)
      ensures Contents() == New(initialValue) && Quiet()
    {
      value, mutex, semaphoreQueue, mutexQueue, blocked, waiting := initialValue, 0, [], [], {}, {};
    }

    /** Takes the lock, or queues for it and sleeps; then it is tried again on waking. */
    method AcquireMutex(pid: nat) returns (asleep: bool)
      modifies this`mutex, this`mutexQueue, this`blocked
      ensures mutex == 1 && (asleep <==> old(mutex) != 0)
      ensures !asleep ==> mutexQueue == old(mutexQueue) && blocked == old(blocked)
      ensures asleep ==> mutexQueue == old(mutexQueue) + [pid] && blocked == old(blocked) + {pid}
    {
      var was := mutex;
      mutex := 1;
      asleep := was != 0;
      if asleep {
        mutexQueue := mutexQueue + [pid];
        blocked := blocked + {pid};
      }
    }

    /** Takes processes off the front of a queue up to the first that is alive, and wakes that one. */
    method ResumeFirstAvailable(queue: seq<nat>) returns (rest: seq<nat>)
      modifies this`blocked
      ensures rest == Resume(queue).queue && blocked == Awake(old(blocked), Resume(queue).woken)
    {
      rest := queue;
      while rest != []
        invariant Resume(rest) == Resume(queue) && blocked == old(blocked)
        decreases |rest|
      {
        var pid := rest[0];
        rest := rest[1..];
        if pid > 0 {
          blocked := blocked - {pid};
          break;
        }
      }
    }

    method ReleaseMutex()
      modifies this`mutex, this`mutexQueue, this`blocked
      ensures mutex == 0 && mutexQueue == Resume(old(mutexQueue)).queue
      ensures blocked == Awake(old(blocked), Resume(old(mutexQueue)).woken)
    {
      mutexQueue := ResumeFirstAvailable(mutexQueue);
      mutex := 0;
    }

    /** `up`, in one go: the lock is free when it starts, so nobody sleeps for it. */
    method Post(pid: nat) returns (result: int)
      requires Quiet() && value < LIMIT
      modifies this
      ensures Quiet() && Contents() == Up(old(Contents()))
      ensures value == if old(value) + 1 == LIMIT then 0 else old(value) + 1
      ensures result == if old(value) + 1 == LIMIT then -1 else 0
    {
      var asleep := AcquireMutex(pid);
      assert !asleep;
      value := (value + 1) % LIMIT;
      if value == 0 {
        ReleaseMutex();
        return -1;
      }
      semaphoreQueue := ResumeFirstAvailable(semaphoreQueue);
      ReleaseMutex();
      result := 0;
    }

    /** `down` from its start, or from where it wakes, to where it passes, sleeps or fails. `oom` says
        whether the heap refuses the queue node. */
    method Wait(pid: nat, oom: bool) returns (r: Outcome)
      requires Quiet()
      modifies this
      ensures Quiet()
      ensures r == if old(value) > 0 then Passed else if oom then Failed else Asleep
      ensures Contents() == Down(old(Contents()), pid, oom)
      ensures r == Asleep ==>
                && value == 0 && pid in blocked && pid in waiting
                && semaphoreQueue == old(semaphoreQueue) + [pid] && blocked == old(blocked) + {pid}
      ensures r != Asleep ==> pid !in waiting && semaphoreQueue == old(semaphoreQueue) && blocked == old(blocked)
      ensures value == old(value) - if r == Passed then 1 else 0
    {
      var asleep := AcquireMutex(pid);
      assert !asleep;
      if value == 0 {
        if oom {
          ReleaseMutex();
          waiting := waiting - {pid};
          return Failed;
        }
        semaphoreQueue := semaphoreQueue + [pid];
        blocked := blocked + {pid};
        ReleaseMutex();
        waiting := waiting + {pid};
        return Asleep;
      }
      value := value - 1;
      ReleaseMutex();
      waiting := waiting - {pid};
      r := Passed;
    }
  }
}
