/** `main` after option parsing: check the seed URL, crawl from depth 0, let the
    workers drain the queue, wait for every task, then send each worker a stop signal.
    The workers run one after another: each takes items until it stops, dies or finds
    the queue empty, and the next one carries on from there. */
module Mirror {
  import opened Wrappers
  import opened Paths
  import opened Classify
  import opened Downloads
  import opened Traversal

  /** The options the core reads. */
  datatype Options = Options(url: Url, dir: string, depth: int, threads: int, maxSize: int,
                             includeTypes: Option<string>, follow: bool)

  /** The outside world: the working directory, the pages, `urljoin` and the replies to
      download requests. */
  datatype Env = Env(cwd: string, fetch: Url -> Option<Page>, resolve: (Url, string) -> Url,
                     server: Url -> Response)

  /** How a run ends: the seed is rejected; `download_queue.join()` never returns
      because some task is never marked done; or every worker has met its signal. */
  datatype Ending =
    | InvalidSeed
    | Hung(pages: CrawlState, handled: seq<Handled>)
    | Finished(pages: CrawlState, handled: seq<Handled>, exits: seq<Exit>)

  /** `range(args.threads)` is empty for a count that is not positive. */
  function Threads(opts: Options): nat {
    if opts.threads > 0 then opts.threads else 0
  }

  /** The program as written, or with the include list and the stop signal
      corrected. */
  datatype Variant = AsWritten | Corrected

  function Signal(v: Variant): (x: Item)
    ensures !IsJob(x)
  {
    if v.AsWritten? then StopSignal() else StopSignalCorrected()
  }

  function ConfigOf(opts: Options, env: Env, v: Variant): Config {
    var types := if v.AsWritten? then IncludeTypes(opts.includeTypes)
                 else IncludeTypesCorrected(opts.includeTypes);
    Config(opts.dir, opts.depth, types, opts.follow, env.cwd, env.fetch, env.resolve)
  }

  /** The tasks handled, what is left, the workers still running and the `task_done`
      calls made. */
  datatype Drained = Drained(handled: seq<Handled>, rest: seq<Item>, alive: nat, done: nat)

  /** `alive` workers draining `items`, one after the other: a worker that meets the
      empty queue waits there; one that ends hands the rest to the next. */
  function Drain(items: seq<Item>, alive: nat, server: Url -> Response, maxSize: int): (d: Drained)
    ensures d.done <= |items| && d.alive <= alive
    decreases |items|
  {
    if alive == 0 || items == [] then Drained([], items, alive, 0)
    else
      var w := RunWorker(items, server, maxSize);
      if w.exit == Waiting then Drained(w.handled, w.rest, alive, w.done)
      else
        var d := Drain(w.rest, alive - 1, server, maxSize);
        Drained(w.handled + d.handled, d.rest, d.alive, w.done + d.done)
  }

  /** A worker that meets the empty queue ends the drain there. */
  lemma DrainWaits(items: seq<Item>, alive: nat, server: Url -> Response, maxSize: int)
    requires alive > 0 && items != [] && RunWorker(items, server, maxSize).exit == Waiting
    ensures var w := RunWorker(items, server, maxSize);
            Drain(items, alive, server, maxSize) == Drained(w.handled, w.rest, alive, w.done)
  {
  }

  /** A worker whose loop ends hands the rest of the queue to the next. */
  lemma DrainPasses(items: seq<Item>, alive: nat, server: Url -> Response, maxSize: int)
    requires alive > 0 && items != [] && RunWorker(items, server, maxSize).exit != Waiting
    ensures var w := RunWorker(items, server, maxSize);
            var d := Drain(w.rest, alive - 1, server, maxSize);
            Drain(items, alive, server, maxSize) ==
              Drained(w.handled + d.handled, d.rest, d.alive, w.done + d.done)
  {
  }

  /** The first task of a queue that is not clean to make `save_file` raise. */
  lemma {:induction false} FirstRaise(items: seq<Item>, server: Url -> Response, maxSize: int)
    returns (k: nat)
    requires Jobs(items) && !Clean(items, server, maxSize)
    ensures k < |items| && CleanBefore(items, k, server, maxSize) &&
            Outcome(items[k], server, maxSize).Raised?
    decreases |items|
  {
    if Outcome(items[0], server, maxSize).Raised? {
      k := 0;
    } else {
      assert Jobs(items[1..]) by {
        assert forall i :: 0 <= i < |items[1..]| ==> items[1..][i] == items[i + 1];
      }
      assert !Clean(items[1..], server, maxSize) by {
        var j :| 0 <= j < |items| && Outcome(items[j], server, maxSize).Raised?;
        assert j > 0 && items[1..][j - 1] == items[j];
      }
      var k' := FirstRaise(items[1..], server, maxSize);
      k := k' + 1;
      forall i | 0 <= i < k
        ensures !Outcome(items[i], server, maxSize).Raised?
      {
        if i > 0 {
          assert items[i] == items[1..][i - 1];
        }
      }
    }
  }

  /** Every task is done exactly when the queue was empty, or some worker runs and no
      task makes `save_file` raise; in that case the tasks are handled in queue order
      and no worker is lost. */
  lemma DrainCompletes(items: seq<Item>, alive: nat, server: Url -> Response, maxSize: int)
    requires Jobs(items)
    ensures var d := Drain(items, alive, server, maxSize);
            d.done == |items| <==> items == [] || (alive > 0 && Clean(items, server, maxSize))
    ensures alive > 0 && Clean(items, server, maxSize) ==>
              Drain(items, alive, server, maxSize) ==
              Drained(Expected(items, server, maxSize), [], alive, |items|)
  {
    if alive > 0 && items != [] {
      if Clean(items, server, maxSize) {
        WorkerDrains(items, server, maxSize);
      } else {
        var k := FirstRaise(items, server, maxSize);
        WorkerDiesOnRaise(items, k, server, maxSize);
      }
    }
  }

  /** The run of variant `v`. */
  function RunWith(opts: Options, env: Env, v: Variant): (o: Ending)
    ensures o.InvalidSeed? <==> !IsValidUrl(opts.url)
    ensures o.Finished? ==> |o.exits| <= Threads(opts)
  {
    if !IsValidUrl(opts.url) then InvalidSeed
    else
      var pages := Crawled(ConfigOf(opts, env, v), opts.url, 0, CrawlState({}, [], [], []));
      var d := Drain(pages.queue, Threads(opts), env.server, opts.maxSize);
      if d.done != |pages.queue| then Hung(pages, d.handled)
      else
        var stops := d.rest + Repeat(Signal(v), Threads(opts));
        Finished(pages, d.handled, Shutdown(stops, d.alive, env.server, opts.maxSize))
  }

  /** The outcome of a run with a valid seed: it finishes exactly when no task was
      queued, or a worker was started and no task makes `save_file` raise; then every
      queued task was handled once, in queue order. */
  lemma {:induction false} RunOutcome(opts: Options, env: Env, v: Variant)
    requires IsValidUrl(opts.url)
    ensures var o := RunWith(opts, env, v);
            var pages := Crawled(ConfigOf(opts, env, v), opts.url, 0, CrawlState({}, [], [], []));
            !o.InvalidSeed? && o.pages == pages && Good(ConfigOf(opts, env, v), pages) &&
            Jobs(pages.queue) &&
            (o.Finished? <==>
               pages.queue == [] || (Threads(opts) > 0 && Clean(pages.queue, env.server, opts.maxSize))) &&
            (o.Finished? ==> o.handled == Expected(pages.queue, env.server, opts.maxSize))
  {
    var cfg := ConfigOf(opts, env, v);
    var pages := Crawled(cfg, opts.url, 0, CrawlState({}, [], [], []));
    CrawlFromScratch(cfg, opts.url, 0);
    assert Jobs(pages.queue) by {
      assert forall i :: 0 <= i < |pages.queue| ==> Queued(cfg, pages.queue[i]);
    }
    DrainCompletes(pages.queue, Threads(opts), env.server, opts.maxSize);
  }

  /** As written, a finished run ends every worker with the unpacking error when the
      first item it takes is the bare `None`. */
  lemma {:induction false} RunEndsInCrash(opts: Options, env: Env)
    requires RunWith(opts, env, AsWritten).Finished?
    ensures RunWith(opts, env, AsWritten).exits == Repeat(Crashed(UnpackNone), Threads(opts))
  {
    FinishedShutdown(opts, env, AsWritten);
    ShutdownAsWritten(Threads(opts), env.server, opts.maxSize);
  }

  /** With the corrected signal, every worker leaves its loop at `break`. */
  lemma {:induction false} RunCorrectedStops(opts: Options, env: Env)
    requires RunWith(opts, env, Corrected).Finished?
    ensures RunWith(opts, env, Corrected).exits == Repeat(Stopped, Threads(opts))
  {
    FinishedShutdown(opts, env, Corrected);
    ShutdownCorrected(Threads(opts), env.server, opts.maxSize);
  }

  /** In a finished run the queue holds exactly the `threads` signals when the
      shutdown starts, and all started workers are still there to take them. */
  lemma {:induction false} FinishedShutdown(opts: Options, env: Env, v: Variant)
    requires RunWith(opts, env, v).Finished?
    ensures var pages := Crawled(ConfigOf(opts, env, v), opts.url, 0, CrawlState({}, [], [], []));
            var d := Drain(pages.queue, Threads(opts), env.server, opts.maxSize);
            d.rest == [] && d.alive == Threads(opts) &&
            RunWith(opts, env, v).exits ==
              Shutdown(Repeat(Signal(v), Threads(opts)), Threads(opts), env.server, opts.maxSize)
  {
    var cfg := ConfigOf(opts, env, v);
    var pages := Crawled(cfg, opts.url, 0, CrawlState({}, [], [], []));
    RunOutcome(opts, env, v);
    DrainCompletes(pages.queue, Threads(opts), env.server, opts.maxSize);
    var d := Drain(pages.queue, Threads(opts), env.server, opts.maxSize);
    assert d.rest == [] && d.alive == Threads(opts);
    assert d.rest + Repeat(Signal(v), Threads(opts)) == Repeat(Signal(v), Threads(opts));
  }

  // ---------------------------------------------------------------------------
  // `main`, imperative

  /** `main` (inidirici.py:245-270), as written or corrected. */
  method Mirror(opts: Options, env: Env, v: Variant) returns (o: Ending)
    ensures o == RunWith(opts, env, v)
  {
    if !IsValidUrl(opts.url) {
      return InvalidSeed;
    }
    var queue := new DownloadQueue();
    var crawler := new Crawler(ConfigOf(opts, env, v), queue);
    crawler.Crawl(opts.url, 0);
    var pages := crawler.State();
    var handled, alive := DrainQueue(queue, Threads(opts), env.server, opts.maxSize);
    // `download_queue.join()`
    if queue.unfinished != 0 {
      return Hung(pages, handled);
    }
    PutSignals(queue, Signal(v), Threads(opts));
    var exits := StopWorkers(queue, alive, env.server, opts.maxSize);
    return Finished(pages, handled, exits);
  }

  /** The started workers drain the queue, one after the other. */
  method DrainQueue(queue: DownloadQueue, workers: nat, server: Url -> Response, maxSize: int)
    returns (handled: seq<Handled>, alive: nat)
    requires |queue.items| <= queue.unfinished
    modifies queue
    ensures queue.unfinished <= old(queue.unfinished)
    ensures Drain(old(queue.items), workers, server, maxSize) ==
            Drained(handled, queue.items, alive, old(queue.unfinished) - queue.unfinished)
    ensures |queue.items| <= queue.unfinished
    decreases |queue.items|
  {
    if workers == 0 || queue.items == [] {
      return [], workers;
    }
    ghost var before := queue.items;
    var h, exit := Work(queue, server, maxSize);
    if exit == Waiting {
      DrainWaits(before, workers, server, maxSize);
      return h, workers;
    }
    DrainPasses(before, workers, server, maxSize);
    var rest;
    rest, alive := DrainQueue(queue, workers - 1, server, maxSize);
    handled := h + rest;
  }

  /** `for _ in range(args.threads): download_queue.put(signal)`. */
  method PutSignals(queue: DownloadQueue, signal: Item, n: nat)
    modifies queue
    ensures queue.items == old(queue.items) + Repeat(signal, n)
    ensures queue.unfinished == old(queue.unfinished) + n
  {
    ghost var items0 := queue.items;
    for t := 0 to n
      invariant queue.items == items0 + Repeat(signal, t)
      invariant queue.unfinished == old(queue.unfinished) + t
    {
      queue.Put(signal);
      assert Repeat(signal, t + 1) == Repeat(signal, t) + [signal];
    }
  }

  /** Each remaining worker takes items until its loop ends. */
  method StopWorkers(queue: DownloadQueue, alive: nat, server: Url -> Response, maxSize: int)
    returns (exits: seq<Exit>)
    requires |queue.items| <= queue.unfinished
    modifies queue
    ensures exits == Shutdown(old(queue.items), alive, server, maxSize)
  {
    ghost var goal := Shutdown(queue.items, alive, server, maxSize);
    exits := [];
    var t := 0;
    while t < alive && queue.items != []
      invariant t <= alive && |queue.items| <= queue.unfinished
      invariant exits + Shutdown(queue.items, alive - t, server, maxSize) == goal
      decreases alive - t
    {
      ghost var before := queue.items;
      var h, exit := Work(queue, server, maxSize);
      ShutdownStep(before, alive - t, server, maxSize);
      exits := exits + [exit];
      t := t + 1;
    }
  }

  /** A worker's exit heads the shutdown; the others take what it leaves. */
  lemma ShutdownStep(items: seq<Item>, n: nat, server: Url -> Response, maxSize: int)
    requires n > 0 && items != []
    ensures var w := RunWorker(items, server, maxSize);
            Shutdown(items, n, server, maxSize) == [w.exit] + Shutdown(w.rest, n - 1, server, maxSize)
  {
  }
}
