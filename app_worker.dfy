/**
 * The background worker (appWorker.py): it receives every queued task and
 * runs only those addressed to it, reporting failures and completion.
 *
 * The task's function is not run here: its outcome is a parameter, and the
 * worker's signals are an event log.
 */
module AppWorker {
  import opened Wrappers
  import opened Outcomes

  /** Which worker a task is for: the `worker_name` entry, if the task has one. */
  datatype Affinity = Untagged | Tagged(workerName: Option<string>)

  /** A queued task: its affinity, the function to call, and its arguments. */
  datatype Task = Task(affinity: Affinity, fcn: string, params: seq<string>)

  /** What the worker does that others can observe, in order. */
  datatype Event =
    | Called(fcn: string, params: seq<string>)  // `task['fcn'](*task['params'])`
    | ThreadException(error: Exception)         // the application's `thread_exception` signal
    | TaskCompleted(worker: Option<string>)      // the worker's `task_completed` signal

  /**
   * Whether a worker named `name` takes `task`: a tagged task goes to the
   * worker with that exact name (an absent name matching an absent one), an
   * untagged task to the unnamed worker only.
   */
  predicate Accepts(name: Option<string>, task: Task)
  {
    match task.affinity
    case Tagged(n) => n == name
    case Untagged => name.None?
  }

  /** The events one delivery of `task` to worker `name` produces when the call ends with `outcome`. */
  function TaskEvents(name: Option<string>, task: Task, outcome: Outcome): seq<Event>
  {
    if !Accepts(name, task) then []
    else
      [Called(task.fcn, task.params)]
      + (if outcome.Raised? then [ThreadException(outcome.error)] else [])
      + [TaskCompleted(name)]
  }

  /** Number of `TaskCompleted` events in a log. */
  function Completions(events: seq<Event>): nat
  {
    if events == [] then 0
    else (if events[0].TaskCompleted? then 1 else 0) + Completions(events[1..])
  }

  /** Number of `Called` events in a log. */
  function Calls(events: seq<Event>): nat
  {
    if events == [] then 0
    else (if events[0].Called? then 1 else 0) + Calls(events[1..])
  }

  lemma {:induction false} CountsAppend(a: seq<Event>, b: seq<Event>)
    ensures Completions(a + b) == Completions(a) + Completions(b)
    ensures Calls(a + b) == Calls(a) + Calls(b)
  {
    if a == [] {
      assert a + b == b;
    } else {
      assert (a + b)[0] == a[0];
      assert (a + b)[1..] == a[1..] + b;
      CountsAppend(a[1..], b);
    }
  }

  /** A task for another worker leaves no trace; the function is not called. */
  lemma IgnoredTaskIsSilent(name: Option<string>, task: Task, outcome: Outcome)
    requires !Accepts(name, task)
    ensures TaskEvents(name, task, outcome) == []
  {
  }

  /**
   * A task the worker takes calls its function exactly once and signals
   * completion exactly once, last, carrying the worker's name, whether or not
   * the call raised.
   */
  lemma {:induction false} AcceptedTaskCompletesOnce(name: Option<string>, task: Task, outcome: Outcome)
    requires Accepts(name, task)
    ensures var ev := TaskEvents(name, task, outcome);
      ev[0] == Called(task.fcn, task.params) && ev[|ev| - 1] == TaskCompleted(name) &&
      Calls(ev) == 1 && Completions(ev) == 1
  {
    var middle: seq<Event> := if outcome.Raised? then [ThreadException(outcome.error)] else [];
    CountsAppend([Called(task.fcn, task.params)], middle);
    CountsAppend([Called(task.fcn, task.params)] + middle, [TaskCompleted(name)]);
    assert Completions([Called(task.fcn, task.params)]) == 0 by {
      assert [Called(task.fcn, task.params)][1..] == [];
    }
    assert Calls([Called(task.fcn, task.params)]) == 1 by {
      assert [Called(task.fcn, task.params)][1..] == [];
    }
    assert Calls([TaskCompleted(name)]) == 0 && Completions([TaskCompleted(name)]) == 1 by {
      assert [TaskCompleted(name)][1..] == [];
    }
    if outcome.Raised? {
      assert middle[1..] == [];
    }
  }

  /**
   * The exception is reported exactly when the call raised, between the
   * call and the completion signal.
   */
  lemma ExceptionReportedIffRaised(name: Option<string>, task: Task, outcome: Outcome)
    requires Accepts(name, task)
    ensures var ev := TaskEvents(name, task, outcome);
      (exists i :: 0 <= i < |ev| && ev[i].ThreadException?) <==> outcome.Raised?
    ensures outcome.Raised? ==> TaskEvents(name, task, outcome)[1] == ThreadException(outcome.error)
  {
    var ev := TaskEvents(name, task, outcome);
    if outcome.Raised? {
      assert ev[1].ThreadException?;
    }
  }

  /** `Worker`: a name (possibly none) and what it has signalled so far. */
  class Worker {
    const name: Option<string>
    var events: seq<Event>

    constructor (name: Option<string>)
      ensures this.name == name && events == []
    {
      this.name := name;
      events := [];
    }

    /** `do_worker_task`: runs the task if it is addressed to this worker. */
    method DoWorkerTask(task: Task, outcome: Outcome)
      modifies this`events
      ensures events == old(events) + TaskEvents(name, task, outcome)
    {
      if (task.affinity.Tagged? && task.affinity.workerName == name)
        || (task.affinity.Untagged? && name.None?)
      {
        events := events + [Called(task.fcn, task.params)];
        if outcome.Raised? {
          events := events + [ThreadException(outcome.error)];
        }
        events := events + [TaskCompleted(name)];
      }
    }
  }
}
