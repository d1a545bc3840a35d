/** The single-thread executor both activities submit detection tasks to:
    tasks wait in submission order and run one at a time, the oldest first. */
module Worker {

  /** `queue` holds the submitted tasks that have not finished, the running one
      (if any) at its head; `finished` holds the tasks that ran to completion
      or threw, in the order they ran. */
  datatype Executor<T> = Executor(queue: seq<T>, finished: seq<T>)

  /** Every task ever submitted to `w`, in submission order. */
  function Log<T>(w: Executor<T>): seq<T>
  {
    w.finished + w.queue
  }

  /** An executor with nothing submitted yet. */
  function Idle<T>(): Executor<T>
  {
    Executor([], [])
  }

  /** `execute(task)`: the task joins the back of the queue; nothing runs ahead
      of tasks submitted earlier. */
  function Execute<T>(w: Executor<T>, task: T): (r: Executor<T>)
    ensures Log(r) == Log(w) + [task]
    ensures r.finished == w.finished && |r.queue| == |w.queue| + 1
  {
    Executor(w.queue + [task], w.finished)
  }

  /** The running task, the oldest one queued, ends (normally or by throwing):
      the order of submission is the order of completion. */
  function Finish<T>(w: Executor<T>): (r: Executor<T>)
    requires |w.queue| > 0
    ensures Log(r) == Log(w)
    ensures |r.queue| == |w.queue| - 1
    ensures r.finished == w.finished + [w.queue[0]]
  {
    assert w.finished + w.queue == (w.finished + [w.queue[0]]) + w.queue[1..];
    Executor(w.queue[1..], w.finished + [w.queue[0]])
  }
}
