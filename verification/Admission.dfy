/** Request admission: in-flight byte leases, a bounded queue, and tasks that complete exactly once
    (src/rpc/inflight_byte_limiter.cpp, src/rpc/bounded_task_queue.cpp).

    Each method is one critical section; completing a task takes two, because its callback runs
    between them. Any interleaving of threads is a sequence of these calls. */
module Admission {
  import opened Bytes
  import opened Order

  /** The bytes of all leases together. */
  function Sum(m: map<nat, nat>): nat
    decreases |m|
  {
    if m == map[] then 0
    else
      var k := Least(m.Keys);
      assert (m - {k}).Keys == m.Keys - {k};
      m[k] + Sum(m - {k})
  }

  /** The sum does not depend on which lease is taken out first. */
  lemma {:induction false} SumWithout(m: map<nat, nat>, k: nat)
    requires k in m
    ensures Sum(m) == m[k] + Sum(m - {k})
    decreases |m|
  {
    var l := Least(m.Keys);
    if l != k {
      var rest := m - {l};
      assert rest.Keys == m.Keys - {l};
      SumWithout(rest, k);
      assert rest - {k} == m - {k} - {l};
      assert (m - {k}).Keys == m.Keys - {k};
      var least := Least((m - {k}).Keys);
      assert l in (m - {k}).Keys && least in m.Keys && least == l;
    }
  }

  lemma SumWith(m: map<nat, nat>, k: nat, bytes: nat)
    requires k !in m
    ensures Sum(m[k := bytes]) == bytes + Sum(m)
  {
    SumWithout(m[k := bytes], k);
    assert m[k := bytes] - {k} == m;
  }

  datatype Progress = Active | Finishing(ran: bool) | Finished(ran: bool)

  /** A task owns at most one lease; `lease` is its number. */
  datatype Task = Task(lease: Option<nat>, progress: Progress)

  /** One of the two callbacks of a task was called. */
  datatype Event = Event(task: nat, ran: bool)

  datatype EnqueueResult = Accepted | Full | Stopped | Invalid

  function Calls(log: seq<Event>, task: nat): nat {
    if log == [] then 0 else Calls(log[..|log| - 1], task) + (if log[|log| - 1].task == task then 1 else 0)
  }

  /** The leases of tasks that have not finished are live, and no two tasks own the same lease. */
  predicate LeasesOwned(leases: map<nat, nat>, nextLease: nat, tasks: map<nat, Task>) {
    && (forall l :: l in leases ==> l < nextLease)
    && (forall t :: t in tasks && tasks[t].lease.Some? ==>
          tasks[t].lease.value < nextLease && (tasks[t].lease.value in leases <==> !tasks[t].progress.Finished?))
    && (forall s, t :: s in tasks && t in tasks && s != t && tasks[s].lease.Some? ==> tasks[s].lease != tasks[t].lease)
  }

  /** Every active task is queued or held by some object, and not both. */
  predicate TasksHeld(queue: seq<nat>, held: set<nat>, tasks: map<nat, Task>) {
    && (forall k :: 0 <= k < |queue| ==> queue[k] in tasks && tasks[queue[k]].progress == Active && queue[k] !in held)
    && (forall j, k :: 0 <= j < k < |queue| ==> queue[j] != queue[k])
    && (forall t :: t in held ==> t in tasks)
    && (forall t :: t in tasks && tasks[t].progress == Active ==> t in queue || t in held)
  }

  /** An active task has called no callback yet, every other task has called one. */
  ghost predicate CalledOnce(log: seq<Event>, tasks: map<nat, Task>) {
    forall t :: Calls(log, t) == if t in tasks && tasks[t].progress != Active then 1 else 0
  }

  class Gate {
    const limit: nat
    const capacity: nat
    var used: nat
    var leases: map<nat, nat>
    var nextLease: nat
    var tasks: map<nat, Task>
    var nextTask: nat
    var queue: seq<nat>
    var held: set<nat>
    var stopped: bool
    var log: seq<Event>

    /** Conservation: the bytes in use are those of the live leases and never exceed the limit; every
        task holds its lease until it has called exactly one callback. */
    ghost predicate Valid()
      reads this
    {
      && used == Sum(leases) && used <= limit && |queue| <= capacity
      && (forall t :: t in tasks ==> t < nextTask)
      && LeasesOwned(leases, nextLease, tasks) && TasksHeld(queue, held, tasks) && CalledOnce(log, tasks)
    }

    constructor (limit: nat, capacity: nat)
      ensures Valid() && this.limit == limit && this.capacity == capacity
      ensures used == 0 && leases == map[] && tasks == map[] && queue == [] && held == {} && !stopped && log == []
    {
      this.limit := limit;
      this.capacity := capacity;
      used := 0;
      leases := map[];
      nextLease := 0;
      tasks := map[];
      nextTask := 0;
      queue := [];
      held := {};
      stopped := false;
      log := [];
    }

    /** `TryAcquire`: refused exactly when the bytes do not fit under the limit. */
    method TryAcquire(bytes: nat) returns (lease: Option<nat>)
      requires Valid()
      modifies this`used, this`leases, this`nextLease
      ensures Valid()
      ensures lease == None <==> old(used) + bytes > limit
      ensures lease == None ==> used == old(used) && leases == old(leases)
      ensures lease.Some? ==> lease.value !in old(leases) && leases == old(leases)[lease.value := bytes] && used == old(used) + bytes
    {
      if bytes > limit - used {
        return None;
      }
      SumWith(leases, nextLease, bytes);
      used := used + bytes;
      leases := leases[nextLease := bytes];
      lease := Some(nextLease);
      nextLease := nextLease + 1;
    }

    /** `Lease::Reset` on a lease no task owns. */
    method ResetLease(lease: nat)
      requires Valid() && forall t :: t in tasks ==> tasks[t].lease != Some(lease)
      modifies this`used, this`leases
      ensures Valid() && leases == old(leases) - {lease}
      ensures used == old(used) - (if lease in old(leases) then old(leases)[lease] else 0)
    {
      if lease in leases {
        SumWithout(leases, lease);
        used := used - leases[lease];
      } else {
        assert leases - {lease} == leases;
      }
      leases := leases - {lease};
    }

    /** The task constructors; a task given a lease takes over the duty to return it. The new object
        holds the task; a move changes only which object that is. */
    method MakeTask(lease: Option<nat>) returns (task: nat)
      requires Valid() && (lease.Some? ==> lease.value in leases && forall t :: t in tasks ==> tasks[t].lease != lease)
      modifies this`tasks, this`nextTask, this`held
      ensures Valid() && task !in old(tasks) && tasks == old(tasks)[task := Task(lease, Active)]
      ensures held == old(held) + {task}
    {
      task := nextTask;
      held := held + {task};
      tasks := tasks[task := Task(lease, Active)];
      nextTask := nextTask + 1;
    }

    /** `TryEnqueue`: on any refusal the caller keeps the task unchanged. */
    method TryEnqueue(task: nat) returns (r: EnqueueResult)
      requires Valid() && task !in queue
      modifies this`queue, this`held
      ensures Valid()
      ensures r == (if task !in tasks || tasks[task].progress != Active then Invalid
                    else if stopped then Stopped else if |old(queue)| >= capacity then Full else Accepted)
      ensures queue == if r == Accepted then old(queue) + [task] else old(queue)
      ensures held == if r == Accepted then old(held) - {task} else old(held)
    {
      if task !in tasks || tasks[task].progress != Active {
        return Invalid;
      }
      if stopped {
        return Stopped;
      }
      if |queue| >= capacity {
        return Full;
      }
      queue := queue + [task];
      held := held - {task};
      r := Accepted;
    }

    /** `WaitPop` once it does not have to wait: first in, first out; nothing when stopped and empty. */
    method Pop() returns (task: Option<nat>)
      requires Valid() && (stopped || queue != [])
      modifies this`queue, this`held
      ensures Valid()
      ensures if old(queue) == [] then task == None && queue == [] && held == old(held)
              else task == Some(old(queue)[0]) && queue == old(queue)[1..] && tasks[task.value].progress == Active
                   && held == old(held) + {task.value}
    {
      if queue == [] {
        return None;
      }
      task := Some(queue[0]);
      held := held + {queue[0]};
      queue := queue[1..];
    }

    /** `StopAndTakePending`: rejects every later task and hands over all queued ones, still active. */
    method StopAndTakePending() returns (pending: seq<nat>)
      requires Valid()
      modifies this`queue, this`held, this`stopped
      ensures Valid() && stopped && queue == [] && pending == old(queue)
      ensures held == old(held) + (set k | 0 <= k < |pending| :: pending[k])
      ensures forall k :: 0 <= k < |pending| ==> pending[k] in tasks && tasks[pending[k]].progress == Active
    {
      pending := queue;
      held := held + (set k | 0 <= k < |pending| :: pending[k]);
      queue := [];
      stopped := true;
    }

    /** The first half of `Finish`: only an active task calls a callback. */
    method BeginFinish(task: nat, run: bool) returns (called: bool)
      requires Valid() && task in held
      modifies this`tasks, this`log
      ensures Valid()
      ensures called <==> old(tasks)[task].progress == Active
      ensures called ==> log == old(log) + [Event(task, run)]
      ensures called ==> tasks == old(tasks)[task := old(tasks)[task].(progress := Finishing(run))]
      ensures !called ==> log == old(log) && tasks == old(tasks)
    {
      hide Sum, LeasesOwned, TasksHeld, CalledOnce;
      HeldIsTask(queue, held, tasks, task);
      called := tasks[task].progress == Active;
      if called {
        Called(log, leases, nextLease, tasks, queue, held, task, run);
        tasks := tasks[task := tasks[task].(progress := Finishing(run))];
        log := log + [Event(task, run)];
      }
    }

    /** The second half: the lease goes back only after the callback has returned. */
    method EndFinish(task: nat)
      requires Valid() && task in tasks && tasks[task].progress.Finishing?
      modifies this`tasks, this`leases, this`used
      ensures Valid()
      ensures var t := old(tasks)[task];
        && tasks == old(tasks)[task := t.(progress := Finished(t.progress.ran))]
        && (t.lease == None ==> leases == old(leases) && used == old(used))
        && (t.lease.Some? ==> t.lease.value in old(leases) && leases == old(leases) - {t.lease.value}
                              && used == old(used) - old(leases)[t.lease.value])
    {
      hide Sum, LeasesOwned, TasksHeld, CalledOnce;
      var t := tasks[task];
      Returned(log, leases, nextLease, tasks, queue, held, task);
      if t.lease.Some? {
        SumWithout(leases, t.lease.value);
        used := used - leases[t.lease.value];
        leases := leases - {t.lease.value};
      }
      tasks := tasks[task := t.(progress := Finished(t.progress.ran))];
    }

    /** The destructor, and move assignment for the task it overwrites: a task that is still active is
        cancelled. The object is gone; `EndFinish` follows once the callback has returned. */
    method Destroy(task: nat) returns (called: bool)
      requires Valid() && task in held
      modifies this`tasks, this`log, this`held
      ensures Valid() && held == old(held) - {task}
      ensures called <==> old(tasks)[task].progress == Active
      ensures called ==> log == old(log) + [Event(task, false)]
      ensures called ==> tasks == old(tasks)[task := old(tasks)[task].(progress := Finishing(false))]
      ensures !called ==> log == old(log) && tasks == old(tasks)
    {
      called := BeginFinish(task, false);
      held := held - {task};
    }

    /** Exactly once: when no object and no queue holds a task any more, every task that was ever made has
        called exactly one of its callbacks. */
    lemma NothingIsLost(task: nat)
      requires Valid() && queue == [] && held == {} && task in tasks
      ensures Calls(log, task) == 1
    {}
  }

  lemma HeldIsTask(queue: seq<nat>, held: set<nat>, tasks: map<nat, Task>, task: nat)
    requires TasksHeld(queue, held, tasks) && task in held
    ensures task in tasks
  {}

  lemma Called(log: seq<Event>, leases: map<nat, nat>, nextLease: nat, tasks: map<nat, Task>, queue: seq<nat>, held: set<nat>,
               task: nat, run: bool)
    requires LeasesOwned(leases, nextLease, tasks) && TasksHeld(queue, held, tasks) && CalledOnce(log, tasks)
    requires task in held && task in tasks && tasks[task].progress == Active
    ensures var now := tasks[task := tasks[task].(progress := Finishing(run))];
      LeasesOwned(leases, nextLease, now) && TasksHeld(queue, held, now) && CalledOnce(log + [Event(task, run)], now)
  {
    hide Calls;
    CallLogged(log, Event(task, run));
  }

  lemma Returned(log: seq<Event>, leases: map<nat, nat>, nextLease: nat, tasks: map<nat, Task>, queue: seq<nat>, held: set<nat>,
                 task: nat)
    requires LeasesOwned(leases, nextLease, tasks) && TasksHeld(queue, held, tasks) && CalledOnce(log, tasks)
    requires task in tasks && tasks[task].progress.Finishing?
    ensures var t := tasks[task]; var now := tasks[task := t.(progress := Finished(t.progress.ran))];
      && TasksHeld(queue, held, now) && CalledOnce(log, now)
      && (t.lease == None ==> LeasesOwned(leases, nextLease, now))
      && (t.lease.Some? ==> t.lease.value in leases && LeasesOwned(leases - {t.lease.value}, nextLease, now))
  {
    hide Calls;
  }

  lemma CallLogged(log: seq<Event>, e: Event)
    ensures forall t :: Calls(log + [e], t) == Calls(log, t) + if e.task == t then 1 else 0
  {
    assert (log + [e])[..|log|] == log;
  }

  /** A task that has finished called exactly one callback, the one it was finished with. */
  lemma {:induction false} OneCall(log: seq<Event>, task: nat) returns (k: nat)
    requires Calls(log, task) == 1
    ensures k < |log| && log[k].task == task
    ensures forall j :: 0 <= j < |log| && log[j].task == task ==> j == k
  {
    var n := |log| - 1;
    var init := log[..n];
    if log[n].task == task {
      k := n;
      NoCall(init, task);
    } else {
      k := OneCall(init, task);
    }
    assert forall j :: 0 <= j < n ==> init[j] == log[j];
  }

  lemma {:induction false} NoCall(log: seq<Event>, task: nat)
    requires Calls(log, task) == 0
    ensures forall j :: 0 <= j < |log| ==> log[j].task != task
  {
    if log != [] {
      var n := |log| - 1;
      NoCall(log[..n], task);
      forall j | 0 <= j < |log|
        ensures log[j].task != task
      {
        if j < n {
          assert log[..n][j].task != task;
        }
      }
    }
  }
}
