/** The traversal `parse_and_download`: a depth-gated, depth-first walk that marks each
    page URL visited before fetching it, queues resource downloads, rewrites their
    references to relative links, follows anchors one level deeper and finally writes
    the rewritten page. */
module Traversal {
  import opened Wrappers
  import opened Strings
  import opened Paths
  import opened Classify
  import opened Downloads

  /** Everything the traversal reads but never changes: the options, the working
      directory that relative paths are resolved against, the web (`None` is a fetch
      that failed) and `urljoin`. */
  datatype Config = Config(
    saveDir: string,
    maxDepth: int,
    includeTypes: seq<string>,
    follow: bool,
    cwd: string,
    fetch: Url -> Option<Page>,
    resolve: (Url, string) -> Url)

  /** One `get_page` call: the page URL and the depth it was requested at. */
  datatype Fetch = Fetch(url: Url, depth: int)

  /** One page written to disk: its URL, the file name opened and the rewritten page. */
  datatype Written = Written(url: Url, file: string, doc: Page)

  /** What the traversal changes: the `visited` set, the log of fetches, the contents
      of the download queue and the log of written pages. */
  datatype CrawlState = CrawlState(visited: set<Url>, fetches: seq<Fetch>, queue: seq<Item>,
                                   written: seq<Written>)

  /** The result of walking (part of) one page: its current document and the state. */
  datatype Walked = Walked(doc: Page, st: CrawlState)

  /** How many more levels may still be fetched from `depth`. */
  function Rank(cfg: Config, depth: int): nat {
    if depth <= cfg.maxDepth then cfg.maxDepth - depth + 1 else 0
  }

  // ---------------------------------------------------------------------------
  // What the traversal promises

  /** Nothing is taken back: the visited set and every log only grow. */
  predicate Grows(st: CrawlState, r: CrawlState) {
    st.visited <= r.visited && st.fetches <= r.fetches && st.queue <= r.queue &&
    st.written <= r.written
  }

  /** Every fetch made after `st` was requested at depth `depth` or deeper. */
  predicate FetchesFrom(st: CrawlState, r: CrawlState, depth: int)
    requires st.fetches <= r.fetches
  {
    forall i :: |st.fetches| <= i < |r.fetches| ==> r.fetches[i].depth >= depth
  }

  function FetchedUrls(fetches: seq<Fetch>): set<Url> {
    set i | 0 <= i < |fetches| :: fetches[i].url
  }

  predicate Distinct(fetches: seq<Fetch>) {
    forall i, j :: 0 <= i < j < |fetches| ==> fetches[i].url != fetches[j].url
  }

  /** A queued task is a valid resource URL whose lowercased extension is a resource
      type and passes the include list, paired with its mapped path. */
  predicate Queued(cfg: Config, x: Item) {
    x.Pair? && x.url.Some? && IsValidUrl(x.url.value) &&
    RefExt(x.url.value) in ResourceTypes &&
    (cfg.includeTypes != [] ==> RefExt(x.url.value) in cfg.includeTypes) &&
    x.path == ResourcePath(cfg.saveDir, x.url.value.path)
  }

  /** The invariant of the traversal's state: the visited set is exactly the set of
      URLs fetched, each fetched once, at a depth within the limit; every queued task
      is a resource download; every written page was visited and is written under the
      name its URL maps to. */
  predicate Good(cfg: Config, st: CrawlState) {
    st.visited == FetchedUrls(st.fetches) && FetchesOk(cfg, st.fetches) &&
    QueueOk(cfg, st.queue) && WrittenOk(cfg, st.visited, st.written)
  }

  predicate FetchesOk(cfg: Config, fetches: seq<Fetch>) {
    Distinct(fetches) &&
    forall i :: 0 <= i < |fetches| ==> fetches[i].depth <= cfg.maxDepth && IsValidUrl(fetches[i].url)
  }

  predicate QueueOk(cfg: Config, queue: seq<Item>) {
    forall x :: x in queue ==> Queued(cfg, x)
  }

  predicate WrittenOk(cfg: Config, visited: set<Url>, written: seq<Written>) {
    forall i :: 0 <= i < |written| ==>
      written[i].url in visited &&
      written[i].file == WrittenFile(SavePath(cfg.saveDir, written[i].url.path))
  }

  /** The rewritten page keeps every element, its name and its attribute names; an
      attribute value either is unchanged or is a link without a backslash. */
  predicate Rewrites(doc: Page, r: Page) {
    |r| == |doc| &&
    forall i :: 0 <= i < |doc| ==>
      r[i].name == doc[i].name && r[i].attrs.Keys == doc[i].attrs.Keys &&
      forall a :: a in doc[i].attrs ==> r[i].attrs[a] == doc[i].attrs[a] || '\\' !in r[i].attrs[a]
  }

  lemma GrowsTrans(a: CrawlState, b: CrawlState, c: CrawlState, depth: int)
    requires Grows(a, b) && Grows(b, c) && FetchesFrom(a, b, depth) && FetchesFrom(b, c, depth)
    ensures Grows(a, c) && FetchesFrom(a, c, depth)
  {
    assert forall i :: 0 <= i < |a.fetches| ==> c.fetches[i] == b.fetches[i];
  }

  lemma RewritesTrans(a: Page, b: Page, c: Page)
    requires Rewrites(a, b) && Rewrites(b, c)
    ensures Rewrites(a, c)
  {
  }

  lemma FetchedUrlsSnoc(fetches: seq<Fetch>, f: Fetch)
    ensures FetchedUrls(fetches + [f]) == FetchedUrls(fetches) + {f.url}
  {
    var s := fetches + [f];
    assert forall i :: 0 <= i < |fetches| ==> s[i] == fetches[i];
    assert s[|fetches|] == f;
  }

  /** Visiting a URL only adds to the visited set and the log of fetches. */
  lemma VisitGrows(st: CrawlState, url: Url, depth: int)
    ensures var st1 := st.(visited := st.visited + {url}, fetches := st.fetches + [Fetch(url, depth)]);
            Grows(st, st1) && FetchesFrom(st, st1, depth)
  {
    PrefixSnoc(st.fetches, Fetch(url, depth));
  }

  lemma FromDeeper(st: CrawlState, r: CrawlState, depth: int)
    requires st.fetches <= r.fetches && FetchesFrom(st, r, depth + 1)
    ensures FetchesFrom(st, r, depth)
  {
  }

  /** The fetch a visit appends stays where it was. */
  lemma VisitFirst(st: CrawlState, url: Url, depth: int, r: CrawlState)
    requires st.fetches + [Fetch(url, depth)] <= r.fetches
    ensures |st.fetches| < |r.fetches| && r.fetches[|st.fetches|] == Fetch(url, depth)
  {
    var f := st.fetches + [Fetch(url, depth)];
    assert f[|st.fetches|] == Fetch(url, depth);
    assert r.fetches[|st.fetches|] == f[|st.fetches|];
  }

  /** Visiting a new valid URL at a depth within the limit keeps the invariant. */
  lemma VisitKeepsGood(cfg: Config, st: CrawlState, url: Url, depth: int)
    requires Good(cfg, st) && url !in st.visited && IsValidUrl(url) && depth <= cfg.maxDepth
    ensures Good(cfg, st.(visited := st.visited + {url}, fetches := st.fetches + [Fetch(url, depth)]))
  {
    var f := st.fetches + [Fetch(url, depth)];
    FetchedUrlsSnoc(st.fetches, Fetch(url, depth));
    assert forall i :: 0 <= i < |st.fetches| ==> f[i] == st.fetches[i];
    assert forall i :: 0 <= i < |st.fetches| ==> f[i].url in st.visited;
    assert FetchesOk(cfg, f);
  }

  /** Writing a page only adds to the log of written pages. */
  lemma WriteGrows(st: CrawlState, w: Written, depth: int)
    ensures var r := st.(written := st.written + [w]);
            Grows(st, r) && FetchesFrom(st, r, depth)
  {
    PrefixSnoc(st.written, w);
  }

  /** Writing a visited page under the name its URL maps to keeps the invariant. */
  lemma WriteKeepsGood(cfg: Config, st: CrawlState, url: Url, doc: Page)
    requires Good(cfg, st) && url in st.visited
    ensures Good(cfg, st.(written := st.written + [Written(url, WrittenFile(SavePath(cfg.saveDir, url.path)), doc)]))
  {
    var w := Written(url, WrittenFile(SavePath(cfg.saveDir, url.path)), doc);
    var r := st.(written := st.written + [w]);
    WrittenSnoc(cfg, st.visited, st.written, w);
    assert r.visited == st.visited && r.fetches == st.fetches && r.queue == st.queue;
  }

  lemma WrittenSnoc(cfg: Config, visited: set<Url>, written: seq<Written>, w: Written)
    requires WrittenOk(cfg, visited, written)
    requires w.url in visited && w.file == WrittenFile(SavePath(cfg.saveDir, w.url.path))
    ensures WrittenOk(cfg, visited, written + [w])
  {
    var ws := written + [w];
    forall i | 0 <= i < |ws|
      ensures ws[i].url in visited && ws[i].file == WrittenFile(SavePath(cfg.saveDir, ws[i].url.path))
    {
      if i < |written| {
        assert ws[i] == written[i];
      }
    }
  }

  lemma PrefixSnoc<T>(q: seq<T>, x: T)
    ensures q <= q + [x]
  {
  }

  // ---------------------------------------------------------------------------
  // The traversal, specified

  /** `parse_and_download(url, …, current_depth=depth)` from state `st`. */
  function Crawled(cfg: Config, url: Url, depth: int, st: CrawlState): (r: CrawlState)
    ensures depth > cfg.maxDepth ==> r == st
    ensures url in st.visited ==> r == st
    ensures depth <= cfg.maxDepth && url !in st.visited ==>
              url in r.visited && |st.fetches| < |r.fetches| &&
              r.fetches[|st.fetches|] == Fetch(url, depth)
    ensures Grows(st, r) && FetchesFrom(st, r, depth)
    ensures depth <= cfg.maxDepth && url !in st.visited && cfg.fetch(url).None? ==>
              r == st.(visited := st.visited + {url}, fetches := st.fetches + [Fetch(url, depth)])
    ensures depth <= cfg.maxDepth && url !in st.visited && cfg.fetch(url).Some? ==>
              |r.written| > 0 && r.written[|r.written| - 1].url == url &&
              r.written[|r.written| - 1].file == WrittenFile(SavePath(cfg.saveDir, url.path))
    decreases Rank(cfg, depth), 2, 0, 0
  {
    if depth > cfg.maxDepth then st
    else if url in st.visited then st
    else
      var st1 := st.(visited := st.visited + {url}, fetches := st.fetches + [Fetch(url, depth)]);
      VisitGrows(st, url, depth);
      match cfg.fetch(url)
      case None => st1
      case Some(page) =>
        var savePath := SavePath(cfg.saveDir, url.path);
        var w := Dispatch(cfg, url, savePath, depth, page, 0, 0, st1);
        var written := Written(url, WrittenFile(savePath), w.doc);
        var r := w.st.(written := w.st.written + [written]);
        WriteGrows(w.st, written, depth);
        FromDeeper(st1, w.st, depth);
        GrowsTrans(st1, w.st, r, depth);
        VisitFirst(st, url, depth, r);
        GrowsTrans(st, st1, r, depth);
        r
  }

  /** The nested loops of `parse_and_download` from tag-table entry `k` and element
      `i` on: every element whose name is the entry's tag is handled in document order,
      then the next entry is taken. */
  function Dispatch(cfg: Config, page: Url, savePath: string, depth: int, doc: Page,
                    k: nat, i: nat, st: CrawlState): (r: Walked)
    requires depth <= cfg.maxDepth && k <= |TagTable| && i <= |doc|
    ensures Rewrites(doc, r.doc)
    ensures Grows(st, r.st) && FetchesFrom(st, r.st, depth + 1)
    decreases Rank(cfg, depth), 1, |TagTable| - k, |doc| - i
  {
    if k == |TagTable| then Walked(doc, st)
    else if i == |doc| then Dispatch(cfg, page, savePath, depth, doc, k + 1, 0, st)
    else if doc[i].name != TagTable[k].0 then Dispatch(cfg, page, savePath, depth, doc, k, i + 1, st)
    else
      var s := Step(cfg, page, savePath, depth, doc, k, i, st);
      var r := Dispatch(cfg, page, savePath, depth, s.doc, k, i + 1, s.st);
      GrowsTrans(st, s.st, r.st, depth + 1);
      RewritesTrans(doc, s.doc, r.doc);
      r
  }

  /** A crawl keeps the invariant `Good`: it visits only valid URLs within the depth
      limit, once each, queues only resource downloads and writes only visited pages. */
  lemma {:induction false} CrawledKeepsGood(cfg: Config, url: Url, depth: int, st: CrawlState)
    requires Good(cfg, st) && IsValidUrl(url)
    ensures Good(cfg, Crawled(cfg, url, depth, st))
    decreases Rank(cfg, depth), 2, 0, 0
  {
    if depth <= cfg.maxDepth && url !in st.visited {
      var st1 := st.(visited := st.visited + {url}, fetches := st.fetches + [Fetch(url, depth)]);
      VisitKeepsGood(cfg, st, url, depth);
      if cfg.fetch(url).Some? {
        var page := cfg.fetch(url).value;
        var savePath := SavePath(cfg.saveDir, url.path);
        var w := Dispatch(cfg, url, savePath, depth, page, 0, 0, st1);
        var r := w.st.(written := w.st.written + [Written(url, WrittenFile(savePath), w.doc)]);
        assert Good(cfg, r) by {
          DispatchKeepsGood(cfg, url, savePath, depth, page, 0, 0, st1);
          assert url in w.st.visited;
          WriteKeepsGood(cfg, w.st, url, w.doc);
        }
        assert Crawled(cfg, url, depth, st) == r;
      } else {
        assert Crawled(cfg, url, depth, st) == st1;
      }
    }
  }

  lemma {:induction false} DispatchKeepsGood(cfg: Config, page: Url, savePath: string, depth: int,
                                             doc: Page, k: nat, i: nat, st: CrawlState)
    requires depth <= cfg.maxDepth && k <= |TagTable| && i <= |doc|
    requires Good(cfg, st)
    ensures Good(cfg, Dispatch(cfg, page, savePath, depth, doc, k, i, st).st)
    decreases Rank(cfg, depth), 1, |TagTable| - k, |doc| - i
  {
    if k == |TagTable| {
    } else if i == |doc| {
      DispatchKeepsGood(cfg, page, savePath, depth, doc, k + 1, 0, st);
    } else if doc[i].name != TagTable[k].0 {
      DispatchKeepsGood(cfg, page, savePath, depth, doc, k, i + 1, st);
    } else {
      var s := Step(cfg, page, savePath, depth, doc, k, i, st);
      StepKeepsGood(cfg, page, savePath, depth, doc, k, i, st);
      DispatchKeepsGood(cfg, page, savePath, depth, s.doc, k, i + 1, s.st);
    }
  }

  lemma {:induction false} StepKeepsGood(cfg: Config, page: Url, savePath: string, depth: int,
                                         doc: Page, k: nat, i: nat, st: CrawlState)
    requires depth <= cfg.maxDepth && k < |TagTable| && i < |doc|
    requires Good(cfg, st)
    ensures Good(cfg, Step(cfg, page, savePath, depth, doc, k, i, st).st)
    decreases Rank(cfg, depth), 0, |TagTable| - k, |doc| - i
  {
    var d := Decision(cfg, page, doc, k, i, st);
    if d.Download? {
      DownloadQueued(cfg, page, doc, k, i, st);
      QueueKeepsGood(cfg, st, Pair(Some(d.url), d.path));
      StepDownload(cfg, page, savePath, depth, doc, k, i, st);
    } else if d.Follow? {
      FollowValid(cfg, page, doc, k, i, st);
      CrawledKeepsGood(cfg, d.url, depth + 1, st);
    }
  }

  /** The decision for element `i` of `doc` under tag-table entry `k`. */
  function Decision(cfg: Config, page: Url, doc: Page, k: nat, i: nat, st: CrawlState): (r: Action)
    requires k < |TagTable| && i < |doc|
    ensures r.Download? || r.Follow? ==>
              r.url == cfg.resolve(page, AttrValue(doc[i], TagTable[k].1)) &&
              IsValidUrl(r.url) && r.url !in st.visited
    ensures r.Follow? ==> TagTable[k].0 == "a" && cfg.follow
    ensures r.Download? ==> r.path == ResourcePath(cfg.saveDir, r.url.path)
  {
    var (tag, attr) := TagTable[k];
    Decide(tag, attr, doc[i], cfg.resolve(page, AttrValue(doc[i], attr)),
           cfg.includeTypes, cfg.follow, cfg.saveDir, st.visited)
  }

  /** The body of the inner loop for element `i`: a download is queued and the
      attribute rewritten to the relative link from the page's directory; an anchor to
      follow is crawled one level deeper; anything else changes nothing. */
  function Step(cfg: Config, page: Url, savePath: string, depth: int, doc: Page,
                k: nat, i: nat, st: CrawlState): (r: Walked)
    requires depth <= cfg.maxDepth && k < |TagTable| && i < |doc|
    ensures Rewrites(doc, r.doc)
    ensures forall j :: 0 <= j < |doc| && j != i ==> r.doc[j] == doc[j]
    ensures !Decision(cfg, page, doc, k, i, st).Download? ==> r.doc == doc
    ensures !Decision(cfg, page, doc, k, i, st).Follow? ==>
              r.st.visited == st.visited && r.st.fetches == st.fetches && r.st.written == st.written
    ensures Grows(st, r.st) && FetchesFrom(st, r.st, depth + 1)
    decreases Rank(cfg, depth), 0, |TagTable| - k, |doc| - i
  {
    var attr := TagTable[k].1;
    var d := Decision(cfg, page, doc, k, i, st);
    if d.Download? then
      DownloadQueued(cfg, page, doc, k, i, st);
      RewriteOne(doc, i, attr, RelLink(cfg.cwd, d.path, Dirname(savePath)));
      Enqueue(cfg, savePath, doc, k, i, st, d)
    else if d.Follow? then
      FollowValid(cfg, page, doc, k, i, st);
      Walked(doc, Crawled(cfg, d.url, depth + 1, st))
    else Walked(doc, st)
  }

  /** A queued download: the task goes to the back of the queue and the attribute is
      rewritten to the relative link from the page's directory to the task's path. */
  function Enqueue(cfg: Config, savePath: string, doc: Page, k: nat, i: nat, st: CrawlState,
                   d: Action): (r: Walked)
    requires k < |TagTable| && i < |doc| && d.Download? && d.path != ""
    ensures r.st.queue == st.queue + [Pair(Some(d.url), d.path)]
    ensures r.st.visited == st.visited && r.st.fetches == st.fetches && r.st.written == st.written
    ensures |r.doc| == |doc| && forall j :: 0 <= j < |doc| && j != i ==> r.doc[j] == doc[j]
    ensures r.doc[i].name == doc[i].name &&
            r.doc[i].attrs == doc[i].attrs[TagTable[k].1 := RelLink(cfg.cwd, d.path, Dirname(savePath))]
  {
    var attr := TagTable[k].1;
    var link := RelLink(cfg.cwd, d.path, Dirname(savePath));
    Walked(doc[i := doc[i].(attrs := doc[i].attrs[attr := link])],
           st.(queue := st.queue + [Pair(Some(d.url), d.path)]))
  }

  /** On a download decision the inner loop's body is `Enqueue`. */
  lemma StepDownload(cfg: Config, page: Url, savePath: string, depth: int, doc: Page,
                     k: nat, i: nat, st: CrawlState)
    requires depth <= cfg.maxDepth && k < |TagTable| && i < |doc|
    requires Decision(cfg, page, doc, k, i, st).Download?
    ensures Decision(cfg, page, doc, k, i, st).path != ""
    ensures Step(cfg, page, savePath, depth, doc, k, i, st) ==
            Enqueue(cfg, savePath, doc, k, i, st, Decision(cfg, page, doc, k, i, st))
  {
  }

  /** On a decision to follow, the inner loop's body is a crawl one level deeper. */
  lemma StepFollow(cfg: Config, page: Url, savePath: string, depth: int, doc: Page,
                   k: nat, i: nat, st: CrawlState)
    requires depth <= cfg.maxDepth && k < |TagTable| && i < |doc|
    requires Decision(cfg, page, doc, k, i, st).Follow?
    ensures Step(cfg, page, savePath, depth, doc, k, i, st) ==
            Walked(doc, Crawled(cfg, Decision(cfg, page, doc, k, i, st).url, depth + 1, st))
  {
  }

  /** On any other decision the inner loop's body changes nothing. */
  lemma StepOther(cfg: Config, page: Url, savePath: string, depth: int, doc: Page,
                  k: nat, i: nat, st: CrawlState)
    requires depth <= cfg.maxDepth && k < |TagTable| && i < |doc|
    requires !Decision(cfg, page, doc, k, i, st).Download? && !Decision(cfg, page, doc, k, i, st).Follow?
    ensures Step(cfg, page, savePath, depth, doc, k, i, st) == Walked(doc, st)
  {
  }

  /** The decision looks only at the element and the visited set. */
  lemma DecisionOfSame(cfg: Config, page: Url, doc: Page, k: nat, i: nat, st: CrawlState,
                       doc': Page, i': nat, st': CrawlState)
    requires k < |TagTable| && i < |doc| && i' < |doc'|
    requires doc'[i'] == doc[i] && st'.visited == st.visited
    ensures Decision(cfg, page, doc', k, i', st') == Decision(cfg, page, doc, k, i, st)
  {
  }

  lemma FollowValid(cfg: Config, page: Url, doc: Page, k: nat, i: nat, st: CrawlState)
    requires k < |TagTable| && i < |doc| && Decision(cfg, page, doc, k, i, st).Follow?
    ensures IsValidUrl(Decision(cfg, page, doc, k, i, st).url) && TagTable[k].0 == "a"
  {
  }

  /** A download decision names a task the invariant admits, for an attribute the
      element has. */
  lemma DownloadQueued(cfg: Config, page: Url, doc: Page, k: nat, i: nat, st: CrawlState)
    requires k < |TagTable| && i < |doc| && Decision(cfg, page, doc, k, i, st).Download?
    ensures var d := Decision(cfg, page, doc, k, i, st);
            Queued(cfg, Pair(Some(d.url), d.path)) && d.path != "" && TagTable[k].1 in doc[i].attrs
  {
  }

  lemma QueueKeepsGood(cfg: Config, st: CrawlState, x: Item)
    requires Queued(cfg, x)
    ensures Good(cfg, st) ==> Good(cfg, st.(queue := st.queue + [x]))
  {
    var r := st.(queue := st.queue + [x]);
    if Good(cfg, st) {
      QueueSnoc(cfg, st.queue, x);
      assert r.visited == st.visited && r.fetches == st.fetches && r.written == st.written;
    }
  }

  lemma QueueSnoc(cfg: Config, queue: seq<Item>, x: Item)
    requires QueueOk(cfg, queue) && Queued(cfg, x)
    ensures QueueOk(cfg, queue + [x])
  {
    forall y | y in queue + [x]
      ensures Queued(cfg, y)
    {
      MemberSnoc(queue, x, y);
    }
  }

  lemma MemberSnoc<T>(q: seq<T>, x: T, y: T)
    requires y in q + [x]
    ensures y in q || y == x
  {
  }

  lemma RewriteOne(doc: Page, i: nat, attr: string, link: string)
    requires i < |doc| && attr in doc[i].attrs && '\\' !in link
    ensures var r := doc[i := doc[i].(attrs := doc[i].attrs[attr := link])];
            Rewrites(doc, r) && forall j :: 0 <= j < |doc| && j != i ==> r[j] == doc[j]
  {
  }

  // ---------------------------------------------------------------------------
  // Consequences

  /** A crawl from the empty state keeps the invariant: each page URL is fetched at
      most once, never deeper than the limit, and `visited` holds exactly the URLs
      fetched, including those whose fetch failed. */
  lemma {:induction false} CrawlFromScratch(cfg: Config, url: Url, depth: int)
    requires IsValidUrl(url)
    ensures var r := Crawled(cfg, url, depth, CrawlState({}, [], [], []));
            Good(cfg, r) && Distinct(r.fetches) && r.visited == FetchedUrls(r.fetches) &&
            (forall i :: 0 <= i < |r.fetches| ==> depth <= r.fetches[i].depth <= cfg.maxDepth)
  {
    var st := CrawlState({}, [], [], []);
    assert Good(cfg, st);
    CrawledKeepsGood(cfg, url, depth, st);
    var r := Crawled(cfg, url, depth, st);
    assert FetchesFrom(st, r, depth);
  }

  /** Downloads never mark anything visited, so the same resource referenced by two
      consecutive elements is queued twice: after the first is queued, the second
      receives the same decision. */
  lemma SameResourceQueuedTwice(cfg: Config, page: Url, savePath: string,
                                doc: Page, k: nat, i: nat, st: CrawlState)
    requires k < |TagTable| && i + 1 < |doc| && doc[i] == doc[i + 1]
    requires Decision(cfg, page, doc, k, i, st).Download?
    requires Decision(cfg, page, doc, k, i, st).path != ""
    ensures var d := Decision(cfg, page, doc, k, i, st);
            var s1 := Enqueue(cfg, savePath, doc, k, i, st, d);
            Decision(cfg, page, s1.doc, k, i + 1, s1.st) == d &&
            Enqueue(cfg, savePath, s1.doc, k, i + 1, s1.st, d).st.queue ==
              st.queue + [Pair(Some(d.url), d.path), Pair(Some(d.url), d.path)]
  {
    var d := Decision(cfg, page, doc, k, i, st);
    var x := Pair(Some(d.url), d.path);
    var s1 := Enqueue(cfg, savePath, doc, k, i, st, d);
    assert |s1.doc| == |doc| && s1.doc[i + 1] == doc[i];
    DecisionOfSame(cfg, page, doc, k, i, st, s1.doc, i + 1, s1.st);
    var s2 := Enqueue(cfg, savePath, s1.doc, k, i + 1, s1.st, d);
    assert s2.st.queue == (st.queue + [x]) + [x];
    AppendTwice(st.queue, x);
  }

  lemma AppendTwice<T>(q: seq<T>, x: T)
    ensures (q + [x]) + [x] == q + [x, x]
  {
  }

  /** A followed anchor keeps its original value. */
  lemma FollowKeepsAnchor(cfg: Config, page: Url, savePath: string, depth: int,
                          doc: Page, k: nat, i: nat, st: CrawlState)
    requires depth <= cfg.maxDepth && k < |TagTable| && i < |doc|
    requires Decision(cfg, page, doc, k, i, st).Follow?
    ensures Step(cfg, page, savePath, depth, doc, k, i, st).doc == doc
    ensures TagTable[k].0 == "a"
  {
  }

  /** A queued download rewrites its attribute to a link that, read from the page's
      directory, names the path the task is queued under – when neither the working
      directory nor the output directory contains a backslash. */
  lemma DownloadLinkResolves(cfg: Config, page: Url, savePath: string, depth: int,
                             doc: Page, k: nat, i: nat, st: CrawlState)
    requires depth <= cfg.maxDepth && k < |TagTable| && i < |doc|
    requires Decision(cfg, page, doc, k, i, st).Download?
    requires '\\' !in cfg.cwd && '\\' !in cfg.saveDir
    ensures var d := Decision(cfg, page, doc, k, i, st);
            var r := Step(cfg, page, savePath, depth, doc, k, i, st);
            var link := r.doc[i].attrs[TagTable[k].1];
            Abs(cfg.cwd, Join(Dirname(savePath), link)) == Abs(cfg.cwd, d.path)
  {
    var d := Decision(cfg, page, doc, k, i, st);
    ResourceLinkResolves(cfg.cwd, cfg.saveDir, d.url.path, Dirname(savePath));
  }

  // ---------------------------------------------------------------------------
  // The traversal, imperative

  /** The traversal's mutable state: the shared `visited` set, the download queue it
      appends to, and the logs of fetches and written pages. */
  class Crawler {
    const cfg: Config
    const queue: DownloadQueue
    var visited: set<Url>
    var fetches: seq<Fetch>
    var written: seq<Written>

    function State(): CrawlState
      reads this, queue
    {
      CrawlState(visited, fetches, queue.items, written)
    }

    constructor (cfg: Config, queue: DownloadQueue)
      ensures this.cfg == cfg && this.queue == queue
      ensures visited == {} && fetches == [] && written == []
    {
      this.cfg := cfg;
      this.queue := queue;
      visited := {};
      fetches := [];
      written := [];
    }

    /** `parse_and_download(url, …, current_depth=depth)`. Every task it puts is
        counted as unfinished. */
    method Crawl(url: Url, depth: int)
      modifies this, queue
      ensures State() == Crawled(cfg, url, depth, old(State()))
      ensures queue.unfinished - |queue.items| == old(queue.unfinished) - old(|queue.items|)
      decreases Rank(cfg, depth), 2
    {
      if depth > cfg.maxDepth {
        return;
      }
      if url in visited {
        return;
      }
      visited := visited + {url};
      fetches := fetches + [Fetch(url, depth)];
      var fetched := cfg.fetch(url);
      if fetched.None? {
        return;
      }
      var savePath := SavePath(cfg.saveDir, url.path);
      ghost var goal := Dispatch(cfg, url, savePath, depth, fetched.value, 0, 0, State());
      var doc := fetched.value;
      for k := 0 to |TagTable|
        invariant Dispatch(cfg, url, savePath, depth, doc, k, 0, State()) == goal
        invariant queue.unfinished - |queue.items| == old(queue.unfinished) - old(|queue.items|)
      {
        doc := ScanTag(url, savePath, depth, doc, k);
      }
      written := written + [Written(url, WrittenFile(savePath), doc)];
    }

    /** The inner loop of `parse_and_download` for tag-table entry `k`: every element
        with the entry's tag, in document order. */
    method ScanTag(url: Url, savePath: string, depth: int, doc: Page, k: nat)
      returns (r: Page)
      requires depth <= cfg.maxDepth && k < |TagTable|
      modifies this, queue
      ensures Dispatch(cfg, url, savePath, depth, doc, k, 0, old(State())) ==
              Dispatch(cfg, url, savePath, depth, r, k + 1, 0, State())
      ensures queue.unfinished - |queue.items| == old(queue.unfinished) - old(|queue.items|)
      decreases Rank(cfg, depth), 1
    {
      var tag := TagTable[k].0;
      r := doc;
      for i := 0 to |doc|
        invariant |r| == |doc|
        invariant Dispatch(cfg, url, savePath, depth, doc, k, 0, old(State())) ==
                  Dispatch(cfg, url, savePath, depth, r, k, i, State())
        invariant queue.unfinished - |queue.items| == old(queue.unfinished) - old(|queue.items|)
      {
        if r[i].name == tag {
          r := HandleElement(url, savePath, depth, r, k, i);
        }
      }
    }

    /** Queues the download `d` and rewrites the element's attribute to the relative
        link from the page's directory. */
    method Download(savePath: string, doc: Page, k: nat, i: nat, d: Action) returns (r: Page)
      requires k < |TagTable| && i < |doc| && d.Download? && d.path != ""
      modifies queue
      ensures Walked(r, State()) == Enqueue(cfg, savePath, doc, k, i, old(State()), d)
      ensures queue.unfinished - |queue.items| == old(queue.unfinished) - old(|queue.items|)
    {
      ghost var e := Enqueue(cfg, savePath, doc, k, i, State(), d);
      queue.Put(Pair(Some(d.url), d.path));
      var attr := TagTable[k].1;
      var link := RelLink(cfg.cwd, d.path, Dirname(savePath));
      r := doc[i := doc[i].(attrs := doc[i].attrs[attr := link])];
      assert State() == e.st && r == e.doc;
    }

    /** The inner loop's body for element `i`, whose tag is entry `k`'s: queue a
        download and rewrite the attribute, follow an anchor one level deeper, or do
        nothing. */
    method HandleElement(url: Url, savePath: string, depth: int, doc: Page, k: nat, i: nat)
      returns (r: Page)
      requires depth <= cfg.maxDepth && k < |TagTable| && i < |doc|
      modifies this, queue
      ensures Walked(r, State()) == Step(cfg, url, savePath, depth, doc, k, i, old(State()))
      ensures queue.unfinished - |queue.items| == old(queue.unfinished) - old(|queue.items|)
      decreases Rank(cfg, depth), 0
    {
      var (tag, attr) := TagTable[k];
      var target := cfg.resolve(url, AttrValue(doc[i], attr));
      var action := Decide(tag, attr, doc[i], target, cfg.includeTypes, cfg.follow,
                           cfg.saveDir, visited);
      ghost var st := State();
      assert action == Decision(cfg, url, doc, k, i, st);
      r := doc;
      match action
      case Download(u, p) =>
        StepDownload(cfg, url, savePath, depth, doc, k, i, st);
        r := Download(savePath, doc, k, i, action);
      case Follow(u) =>
        StepFollow(cfg, url, savePath, depth, doc, k, i, st);
        Crawl(u, depth + 1);
      case _ =>
        StepOther(cfg, url, savePath, depth, doc, k, i, st);
    }
  }
}
