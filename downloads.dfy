/** The download side: the size gate of `save_file`, the shared FIFO with its count
    of unfinished tasks, and the worker loop, run as one sequential consumer. */
module Downloads {
  import opened Wrappers
  import opened Strings
  import opened Paths
  import opened Classify

  /** A queue entry: a `(url, save_path)` tuple, or the bare `None` that `main` puts
      as a stop signal. The traversal only ever puts tuples with a URL. */
  datatype Item = Pair(url: Option<Url>, path: string) | NoneItem

  /** The `content-length` header of a response: absent, an integer, or text that
      `int()` rejects. */
  datatype ContentLength = Absent | Numeric(n: int) | Malformed

  /** What the streaming request yields: a request error (including the status check
      of `raise_for_status`), or a successful reply with its declared length. */
  datatype Response = RequestError | Reply(length: ContentLength)

  /** How one `save_file` call ends: the file written, skipped as too large, failed
      with a request error (returns `False`), or an exception escaping the function. */
  datatype SaveOutcome = Saved(file: string) | TooLarge | Failed | Raised

  /** `max_size * 1024 * 1024`: the size limit in bytes for a limit in megabytes. */
  function Limit(maxSize: int): int {
    maxSize * 1024 * 1024
  }

  /** `int(response.headers.get('content-length', 0))` for a header `int()` accepts. */
  function DeclaredSize(l: ContentLength): int
    requires !l.Malformed?
  {
    if l.Absent? then 0 else l.n
  }

  /** `save_file`: the size gate runs before any file is opened; a passing response is
      streamed to the re-sanitised path. */
  function SaveFile(resp: Response, path: string, maxSize: int): (o: SaveOutcome)
    ensures o.Failed? <==> resp.RequestError?
    ensures o.Raised? <==> resp.Reply? && resp.length.Malformed?
    ensures o.TooLarge? <==>
              resp.Reply? && !resp.length.Malformed? && DeclaredSize(resp.length) > Limit(maxSize)
    ensures o.Saved? ==> o.file == WrittenFile(path)
  {
    match resp
    case RequestError => Failed
    case Reply(length) =>
      if length.Malformed? then Raised
      else if DeclaredSize(length) > Limit(maxSize) then TooLarge
      else Saved(WrittenFile(path))
  }

  /** A reply without a length header is never too large for a non-negative limit,
      and the gate is strict: exactly the limit passes, one byte more does not. */
  lemma SizeGateBoundary(path: string, maxSize: int)
    ensures maxSize >= 0 ==> SaveFile(Reply(Absent), path, maxSize).Saved?
    ensures SaveFile(Reply(Numeric(Limit(maxSize))), path, maxSize).Saved?
    ensures SaveFile(Reply(Numeric(Limit(maxSize) + 1)), path, maxSize) == TooLarge
  {
  }

  // ---------------------------------------------------------------------------
  // The worker loop, specified

  /** One task a worker took: the URL, the path and how `save_file` ended. */
  datatype Handled = Handled(url: Url, path: string, outcome: SaveOutcome)

  /** Why a worker's loop ended: a stop signal, the queue ran empty (the thread then
      waits in `get`), or an exception ended the thread. */
  datatype Exit = Stopped | Waiting | Crashed(reason: Crash)

  /** `UnpackNone`: `url, save_path = None` raises `TypeError`.
      `BadLength`: `int()` of the length header raises `ValueError`. */
  datatype Crash = UnpackNone | BadLength

  /** The tasks handled, how the loop ended, what is left in the queue and how many
      `task_done` calls were made. */
  datatype WorkerRun = WorkerRun(handled: seq<Handled>, exit: Exit, rest: seq<Item>, done: nat)

  /** `download_worker` (inidirici.py:84-91) run alone on the queue contents `items`. */
  function RunWorker(items: seq<Item>, server: Url -> Response, maxSize: int): (w: WorkerRun)
    ensures items != [] ==> |w.rest| < |items|
    ensures items == [] ==> w.rest == [] && w.exit == Waiting
    ensures w.done <= |w.handled| && w.done + |w.rest| <= |items|
    decreases |items|
  {
    if items == [] then WorkerRun([], Waiting, [], 0)
    else
      match items[0]
      case NoneItem => WorkerRun([], Crashed(UnpackNone), items[1..], 0)
      case Pair(None, _) => WorkerRun([], Stopped, items[1..], 0)
      case Pair(Some(u), p) =>
        var h := Handled(u, p, SaveFile(server(u), p, maxSize));
        if h.outcome.Raised? then WorkerRun([h], Crashed(BadLength), items[1..], 0)
        else
          var w := RunWorker(items[1..], server, maxSize);
          WorkerRun([h] + w.handled, w.exit, w.rest, w.done + 1)
  }

  /** A worker takes a prefix of the queue and leaves the rest of it, in order. */
  lemma {:induction false} WorkerLeavesSuffix(items: seq<Item>, server: Url -> Response, maxSize: int)
    ensures EndsWith(items, RunWorker(items, server, maxSize).rest)
    decreases |items|
  {
    if items != [] && items[0].Pair? && items[0].url.Some? {
      var w := RunWorker(items, server, maxSize);
      var u := items[0].url.value;
      if !SaveFile(server(u), items[0].path, maxSize).Raised? {
        WorkerLeavesSuffix(items[1..], server, maxSize);
        SuffixOfTail(items, |w.rest|);
      }
    }
  }

  lemma SuffixOfTail<T>(s: seq<T>, n: nat)
    requires n < |s|
    ensures s[1..][|s| - 1 - n..] == s[|s| - n..]
  {
  }

  predicate IsJob(x: Item) {
    x.Pair? && x.url.Some?
  }

  predicate Jobs(items: seq<Item>) {
    forall i :: 0 <= i < |items| ==> IsJob(items[i])
  }

  function Outcome(x: Item, server: Url -> Response, maxSize: int): SaveOutcome
    requires IsJob(x)
  {
    SaveFile(server(x.url.value), x.path, maxSize)
  }

  /** No task of `items` makes `save_file` raise. */
  predicate Clean(items: seq<Item>, server: Url -> Response, maxSize: int)
    requires Jobs(items)
  {
    forall i :: 0 <= i < |items| ==> !Outcome(items[i], server, maxSize).Raised?
  }

  /** No task before position `k` makes `save_file` raise. */
  predicate CleanBefore(items: seq<Item>, k: nat, server: Url -> Response, maxSize: int)
    requires Jobs(items) && k <= |items|
  {
    forall i :: 0 <= i < k ==> !Outcome(items[i], server, maxSize).Raised?
  }

  /** What handling every task of `items`, in order, records. */
  function Expected(items: seq<Item>, server: Url -> Response, maxSize: int): (r: seq<Handled>)
    requires Jobs(items)
    ensures |r| == |items|
  {
    seq(|items|, i requires 0 <= i < |items| && Jobs(items) =>
      Handled(items[i].url.value, items[i].path, Outcome(items[i], server, maxSize)))
  }

  /** A worker handles the tasks ahead of the first stop signal in FIFO order, calls
      `task_done` once for each, consumes the signal without `task_done` and leaves the
      rest of the queue alone. The bare `None` ends it with an unpacking error; a tuple
      whose URL is `None` ends it cleanly. */
  lemma {:induction false} WorkerStopsAtSignal(jobs: seq<Item>, signal: Item, rest: seq<Item>,
                                              server: Url -> Response, maxSize: int)
    requires Jobs(jobs) && Clean(jobs, server, maxSize) && !IsJob(signal)
    ensures RunWorker(jobs + [signal] + rest, server, maxSize) ==
            WorkerRun(Expected(jobs, server, maxSize),
                      if signal.NoneItem? then Crashed(UnpackNone) else Stopped,
                      rest, |jobs|)
    decreases |jobs|
  {
    var items := jobs + [signal] + rest;
    if jobs == [] {
      assert items == [signal] + rest;
    } else {
      assert items[0] == jobs[0] && items[1..] == jobs[1..] + [signal] + rest;
      CleanTail(jobs, server, maxSize);
      WorkerStep(items, server, maxSize);
      WorkerStopsAtSignal(jobs[1..], signal, rest, server, maxSize);
      ExpectedCons(jobs, server, maxSize);
    }
  }

  /** Without a stop signal and without a raising task, a worker handles the whole
      queue in order and then waits on the empty queue. */
  lemma {:induction false} WorkerDrains(jobs: seq<Item>, server: Url -> Response, maxSize: int)
    requires Jobs(jobs) && Clean(jobs, server, maxSize)
    ensures RunWorker(jobs, server, maxSize) ==
            WorkerRun(Expected(jobs, server, maxSize), Waiting, [], |jobs|)
    decreases |jobs|
  {
    if jobs != [] {
      CleanTail(jobs, server, maxSize);
      WorkerStep(jobs, server, maxSize);
      WorkerDrains(jobs[1..], server, maxSize);
      ExpectedCons(jobs, server, maxSize);
    }
  }

  /** A task whose `save_file` raises ends the worker right after it, without its
      `task_done`: the handled tasks are the queue's tasks up to and including it. */
  lemma {:induction false} WorkerDiesOnRaise(jobs: seq<Item>, k: nat, server: Url -> Response, maxSize: int)
    requires Jobs(jobs) && k < |jobs|
    requires CleanBefore(jobs, k, server, maxSize) && Outcome(jobs[k], server, maxSize).Raised?
    ensures RunWorker(jobs, server, maxSize) ==
            WorkerRun(Expected(jobs[..k + 1], server, maxSize), Crashed(BadLength), jobs[k + 1..], k)
    decreases k
  {
    var head := jobs[..k + 1];
    if k == 0 {
      assert head == [jobs[0]];
    } else {
      JobsTail(jobs);
      assert CleanBefore(jobs[1..], k - 1, server, maxSize) by {
        assert forall i :: 0 <= i < k - 1 ==> jobs[1..][i] == jobs[i + 1];
      }
      WorkerStep(jobs, server, maxSize);
      WorkerDiesOnRaise(jobs[1..], k - 1, server, maxSize);
      assert jobs[1..][k..] == jobs[k + 1..];
      assert Jobs(head) by {
        assert forall i :: 0 <= i < |head| ==> head[i] == jobs[i];
      }
      ExpectedCons(head, server, maxSize);
      assert head[0] == jobs[0] && head[1..] == jobs[1..][..k];
    }
  }

  lemma JobsTail(jobs: seq<Item>)
    requires Jobs(jobs) && jobs != []
    ensures Jobs(jobs[1..])
  {
    assert forall i :: 0 <= i < |jobs| - 1 ==> jobs[1..][i] == jobs[i + 1];
  }

  lemma CleanTail(jobs: seq<Item>, server: Url -> Response, maxSize: int)
    requires Jobs(jobs) && jobs != [] && Clean(jobs, server, maxSize)
    ensures Jobs(jobs[1..]) && Clean(jobs[1..], server, maxSize)
    ensures !Outcome(jobs[0], server, maxSize).Raised?
  {
    JobsTail(jobs);
    assert forall i :: 0 <= i < |jobs| - 1 ==> jobs[1..][i] == jobs[i + 1];
  }

  /** The record of a queue is its first task's followed by the rest's. */
  lemma ExpectedCons(items: seq<Item>, server: Url -> Response, maxSize: int)
    requires Jobs(items) && items != []
    ensures Jobs(items[1..])
    ensures Expected(items, server, maxSize) ==
            [Handled(items[0].url.value, items[0].path, Outcome(items[0], server, maxSize))] +
            Expected(items[1..], server, maxSize)
  {
    JobsTail(items);
    var e := Expected(items, server, maxSize);
    assert e == [e[0]] + e[1..];
    var t := Expected(items[1..], server, maxSize);
    assert forall i :: 0 <= i < |t| ==> e[1..][i] == t[i];
  }

  // ---------------------------------------------------------------------------
  // The stop signal

  /** The stop signal `main` puts (inidirici.py:268): the bare `None`. */
  function StopSignal(): (x: Item)
    ensures !IsJob(x)
  {
    NoneItem
  }

  /** The stop signal the worker's `if url is None: break` expects: a tuple whose URL
      is `None`. */
  function StopSignalCorrected(): (x: Item)
    ensures !IsJob(x)
  {
    Pair(None, "")
  }

  /** `n` copies of `x`. */
  function Repeat<T>(x: T, n: nat): (r: seq<T>)
    ensures |r| == n && forall i :: 0 <= i < n ==> r[i] == x
  {
    if n == 0 then [] else [x] + Repeat(x, n - 1)
  }

  /** One shutdown round: each of `n` idle workers takes one item from `items`. */
  function Shutdown(items: seq<Item>, n: nat, server: Url -> Response, maxSize: int): (r: seq<Exit>)
    ensures |r| <= n && |r| <= |items|
    ensures n > 0 && items != [] ==> |r| >= 1
    decreases n
  {
    if n == 0 || items == [] then []
    else
      var w := RunWorker(items, server, maxSize);
      [w.exit] + Shutdown(w.rest, n - 1, server, maxSize)
  }

  /** With the program's signal, each of the `n` workers consumes one `None` and ends
      with the unpacking error, not at the `break` meant for it. */
  lemma {:induction false} ShutdownAsWritten(n: nat, server: Url -> Response, maxSize: int)
    ensures Shutdown(Repeat(StopSignal(), n), n, server, maxSize) == Repeat(Crashed(UnpackNone), n)
    decreases n
  {
    if n > 0 {
      var q := Repeat(StopSignal(), n);
      WorkerStopsAtSignal([], StopSignal(), q[1..], server, maxSize);
      assert [] + [StopSignal()] + q[1..] == q;
      assert q[1..] == Repeat(StopSignal(), n - 1);
      ShutdownAsWritten(n - 1, server, maxSize);
    }
  }

  /** With the corrected signal, each of the `n` workers leaves its loop at `break`. */
  lemma {:induction false} ShutdownCorrected(n: nat, server: Url -> Response, maxSize: int)
    ensures Shutdown(Repeat(StopSignalCorrected(), n), n, server, maxSize) == Repeat(Stopped, n)
    decreases n
  {
    if n > 0 {
      var q := Repeat(StopSignalCorrected(), n);
      WorkerStopsAtSignal([], StopSignalCorrected(), q[1..], server, maxSize);
      assert [] + [StopSignalCorrected()] + q[1..] == q;
      assert q[1..] == Repeat(StopSignalCorrected(), n - 1);
      ShutdownCorrected(n - 1, server, maxSize);
    }
  }

  // ---------------------------------------------------------------------------
  // The queue and the worker, imperative

  /** `queue.Queue` as the program uses it: a FIFO and the count of unfinished tasks
      that `join` waits on. `put` counts every item, stop signals included. */
  class DownloadQueue {
    var items: seq<Item>
    var unfinished: nat

    constructor ()
      ensures items == [] && unfinished == 0
    {
      items := [];
      unfinished := 0;
    }

    method Put(x: Item)
      modifies this
      ensures items == old(items) + [x] && unfinished == old(unfinished) + 1
    {
      items := items + [x];
      unfinished := unfinished + 1;
    }

    /** `get` on a non-empty queue. (On an empty one the caller would block; the worker
        below reports `Waiting` instead of calling it.) */
    method Get() returns (x: Item)
      requires items != []
      modifies this
      ensures x == old(items)[0] && items == old(items)[1..] && unfinished == old(unfinished)
    {
      x := items[0];
      items := items[1..];
    }

    /** `task_done`; Python raises `ValueError` when no task is unfinished. */
    method TaskDone()
      requires unfinished > 0
      modifies this
      ensures items == old(items) && unfinished == old(unfinished) - 1
    {
      unfinished := unfinished - 1;
    }
  }

  /** Prepends the tasks already handled to the run of the rest of the loop. */
  function After(handled: seq<Handled>, w: WorkerRun): WorkerRun {
    WorkerRun(handled + w.handled, w.exit, w.rest, |handled| + w.done)
  }

  /** One task handled without an exception: the rest of the run is the run on the
      remaining queue. */
  lemma WorkerStep(items: seq<Item>, server: Url -> Response, maxSize: int)
    requires items != [] && IsJob(items[0]) && !Outcome(items[0], server, maxSize).Raised?
    ensures RunWorker(items, server, maxSize) ==
            After([Handled(items[0].url.value, items[0].path, Outcome(items[0], server, maxSize))],
                  RunWorker(items[1..], server, maxSize))
  {
  }

  lemma AfterAfter(a: seq<Handled>, b: seq<Handled>, w: WorkerRun)
    ensures After(a, After(b, w)) == After(a + b, w)
  {
    assert a + (b + w.handled) == (a + b) + w.handled;
  }

  /** `download_worker`'s loop: take the next item; stop at a signal; otherwise save
      the file and report `task_done`. */
  method Work(q: DownloadQueue, server: Url -> Response, maxSize: int)
    returns (handled: seq<Handled>, exit: Exit)
    requires |q.items| <= q.unfinished
    modifies q
    ensures q.unfinished <= old(q.unfinished)
    ensures RunWorker(old(q.items), server, maxSize) ==
            WorkerRun(handled, exit, q.items, old(q.unfinished) - q.unfinished)
    ensures |q.items| <= q.unfinished
  {
    ghost var total := RunWorker(q.items, server, maxSize);
    ghost var unfinished0 := q.unfinished;
    handled := [];
    while true
      invariant |q.items| <= q.unfinished
      invariant After(handled, RunWorker(q.items, server, maxSize)) == total
      invariant q.unfinished + |handled| == unfinished0
      decreases |q.items|
    {
      if q.items == [] {
        exit := Waiting;
        return;
      }
      ghost var before := q.items;
      var item := q.Get();
      if item.NoneItem? {
        exit := Crashed(UnpackNone);
        return;
      }
      if item.url.None? {
        exit := Stopped;
        return;
      }
      var outcome := SaveFile(server(item.url.value), item.path, maxSize);
      var h := Handled(item.url.value, item.path, outcome);
      if outcome.Raised? {
        handled := handled + [h];
        exit := Crashed(BadLength);
        return;
      }
      WorkerStep(before, server, maxSize);
      AfterAfter(handled, [h], RunWorker(q.items, server, maxSize));
      handled := handled + [h];
      q.TaskDone();
    }
  }
}
