/** The task queue and its workers: first as objects, then as a system in which any
    number of producers and workers take the queue's lock in any order. */
module TaskQueue {
  import opened Protocol

  class SafeQueue<T> {
    var queue: seq<T>
    ghost var pushed: seq<T>
    ghost var popped: seq<T>

    constructor ()
      ensures Valid() && queue == [] && pushed == []
    {
      queue, pushed, popped := [], [], [];
    }

    /** Everything pushed has been popped, in order, or is still waiting. */
    ghost predicate Valid()
      reads this
    {
      pushed == popped + queue
    }

    method Push(value: T)
      requires Valid()
      modifies this
      ensures Valid() && queue == old(queue) + [value]
      ensures pushed == old(pushed) + [value] && popped == old(popped)
    {
      Associative(popped, queue, [value]);
      queue, pushed := queue + [value], pushed + [value];
    }

    /** The wait is over once the queue is not empty. */
    method WaitAndPop() returns (value: T)
      requires Valid() && queue != []
      modifies this
      ensures Valid() && [value] + queue == old(queue)
      ensures popped == old(popped) + [value] && pushed == old(pushed)
    {
      value := queue[0];
      Associative(popped, [value], queue[1..]);
      assert queue == [value] + queue[1..];
      queue, popped := queue[1..], popped + [value];
    }
  }

  class ThreadPool<T> {
    const tasks: SafeQueue<T>

    constructor ()
      ensures tasks.Valid() && tasks.queue == [] && tasks.pushed == [] && fresh(tasks)
    {
      tasks := new SafeQueue<T>();
    }

    method Enqueue(task: T)
      requires tasks.Valid()
      modifies tasks
      ensures tasks.Valid() && tasks.queue == old(tasks.queue) + [task]
      ensures tasks.pushed == old(tasks.pushed) + [task] && tasks.popped == old(tasks.popped)
    {
      tasks.Push(task);
    }

    /** One worker alone: `stops` is what it reads in m_stop before each turn. It
        runs tasks until told to stop or until it would wait. */
    method WorkerThread(stops: seq<bool>) returns (ran: seq<T>)
      requires tasks.Valid()
      modifies tasks
      ensures tasks.Valid() && tasks.pushed == old(tasks.pushed)
      ensures ran + tasks.queue == old(tasks.queue)
      ensures tasks.popped == old(tasks.popped) + ran
      ensures |ran| <= |stops| && (tasks.queue == [] || |ran| == |stops| || stops[|ran|])
      ensures forall i :: 0 <= i < |ran| ==> !stops[i]
    {
      ran := [];
      assert ran + tasks.queue == tasks.queue && tasks.popped + ran == tasks.popped;
      var turn := 0;
      while turn < |stops| && !stops[turn] && tasks.queue != []
        invariant turn == |ran| <= |stops|
        invariant forall i :: 0 <= i < turn ==> !stops[i]
        invariant tasks.Valid() && tasks.pushed == old(tasks.pushed)
        invariant ran + tasks.queue == old(tasks.queue)
        invariant tasks.popped == old(tasks.popped) + ran
      {
        ghost var waiting := tasks.queue;
        var task := tasks.WaitAndPop();
        Associative(ran, [task], tasks.queue);
        Associative(old(tasks.popped), ran, [task]);
        ran := ran + [task];
        turn := turn + 1;
      }
    }
  }

  // ----- producers and workers interleaved -----

  datatype Task = Task(fd: int, packet: Packet)

  datatype Claim = Claim(worker: int, task: Task)

  datatype Pool = Pool(waiting: seq<Task>, pushed: seq<Task>, claims: seq<Claim>)

  // A producer's push or a worker's pop, each under the lock. A worker at an empty
  // queue goes on waiting.
  datatype Turn = Push(task: Task) | Pop(worker: int)

  function TakeTurn(p: Pool, t: Turn): (p': Pool) {
    match t
    case Push(task) => p.(waiting := p.waiting + [task], pushed := p.pushed + [task])
    case Pop(worker) =>
      if p.waiting == [] then p
      else p.(waiting := p.waiting[1..], claims := p.claims + [Claim(worker, p.waiting[0])])
  }

  function TakeTurns(turns: seq<Turn>): (p': Pool) {
    if turns == [] then Pool([], [], [])
    else TakeTurn(TakeTurns(turns[..|turns| - 1]), turns[|turns| - 1])
  }

  function Tasks(claims: seq<Claim>): (r: seq<Task>) {
    if claims == [] then [] else Tasks(claims[..|claims| - 1]) + [claims[|claims| - 1].task]
  }

  /** The tasks of one connection, in order. */
  function TasksOf(tasks: seq<Task>, fd: int): (packets: seq<Packet>) {
    if tasks == [] then []
    else TasksOf(tasks[..|tasks| - 1], fd)
         + if tasks[|tasks| - 1].fd == fd then [tasks[|tasks| - 1].packet] else []
  }

  lemma {:induction false} TasksOfConcat(a: seq<Task>, b: seq<Task>, fd: int)
    ensures TasksOf(a + b, fd) == TasksOf(a, fd) + TasksOf(b, fd)
  {
    if b == [] {
      assert a + b == a;
    } else {
      var n := |b| - 1;
      assert (a + b)[..|a + b| - 1] == a + b[..n];
      TasksOfConcat(a, b[..n], fd);
    }
  }

  lemma {:induction false} TasksAt(claims: seq<Claim>)
    ensures |Tasks(claims)| == |claims|
    ensures forall i :: 0 <= i < |claims| ==> Tasks(claims)[i] == claims[i].task
  {
    if claims != [] {
      TasksAt(claims[..|claims| - 1]);
    }
  }

  lemma {:induction false} ClaimedThenWaiting(turns: seq<Turn>)
    ensures var p := TakeTurns(turns);
            p.pushed == Tasks(p.claims) + p.waiting
  {
    if turns != [] {
      var before, t := TakeTurns(turns[..|turns| - 1]), turns[|turns| - 1];
      ClaimedThenWaiting(turns[..|turns| - 1]);
      match t
      case Push(task) => Associative(Tasks(before.claims), before.waiting, [task]);
      case Pop(worker) =>
        if before.waiting != [] {
          var claim := Claim(worker, before.waiting[0]);
          assert (before.claims + [claim])[..|before.claims|] == before.claims;
          Associative(Tasks(before.claims), [claim.task], before.waiting[1..]);
          assert before.waiting == [claim.task] + before.waiting[1..];
        }
    }
  }

  /** The i-th claim is of the i-th push: every task is claimed by exactly one worker,
      in the order pushed, and those of a connection in that connection's order. */
  lemma ClaimsInOrder(turns: seq<Turn>, fd: int)
    ensures var p := TakeTurns(turns);
            && |p.claims| + |p.waiting| == |p.pushed|
            && (forall i :: 0 <= i < |p.claims| ==> p.claims[i].task == p.pushed[i])
            && p.waiting == p.pushed[|p.claims|..]
            && TasksOf(Tasks(p.claims), fd) + TasksOf(p.waiting, fd) == TasksOf(p.pushed, fd)
  {
    var p := TakeTurns(turns);
    ClaimedThenWaiting(turns);
    TasksAt(p.claims);
    assert forall i :: 0 <= i < |p.claims| ==> p.pushed[i] == Tasks(p.claims)[i];
    TasksOfConcat(Tasks(p.claims), p.waiting, fd);
  }
}
