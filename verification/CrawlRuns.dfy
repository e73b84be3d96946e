/** What holds of whole runs of the crawl. */
module CrawlRuns {
  import opened Crawl
  import opened CrawlSafety
  import opened CrawlRows
  import opened CrawlOwnership
  import opened CrawlHistory
  import opened Tally

  /* ---- completion ---- */

  // Completion is reported when, and only when, the last live worker has left with no row
  // waiting; a load that read nothing starts nothing and never reports.
  predicate Reported(c: Crawl) {
    && (c.offset == 0 ==> c.workers == 0 && c.queue == [] && c.completions == 0)
    && (c.workers > 0 ==> c.completions == 0)
    && (c.workers == 0 && c.offset > 0 ==> c.completions == if c.queue == [] then 1 else 0)
  }

  lemma ResupplyReports(table: seq<string>, c: Crawl)
    requires SlotFreed(c) && c.completions == 0 && 0 < c.offset
    ensures Reported(Resupply(table, c))
  {
    if c.links == [] && c.queue == [] {
      var d := LoadDbData(table, c);
      assert d.queue != [] && !d.disabled ==> LoadPage(d).workers > 0;
    }
  }

  lemma LoadReports(table: seq<string>, c: Crawl)
    requires 1 <= c.max && c == Initial(c.max).(disabled := c.disabled)
    ensures Reported(Load(table, c))
  {
    var d := LoadDbData(table, c.(loaded := true, offset := 0));
    if d.queue != [] {
      assert LoadPage(d).workers > 0;
    }
  }

  lemma {:induction false} StepReports(site: Site, c: Crawl, e: Event)
    requires Enabled(c, e) && Basics(c) && Fresh(c) && Reported(c)
    ensures Reported(Step(site, c, e))
  {
    match e
    case LoadTimer => LoadReports(Table(site), c);
    case PageEnded(i) =>
      if !c.pages[i].phase.more {
        ResupplyReports(Table(site), Retire(c, i));
      }
    case ProductEnded(j) => ResupplyReports(Table(site), RetireProduct(c, j));
    case _ =>
  }

  /* ---- every reachable state ---- */

  ghost predicate Inv(site: Site, c: Crawl) {
    Basics(c) && Fresh(c) && DepthFirst(c) && Settled(site, c) && Logged(site, c) && Reported(c)
  }

  lemma InitialInv(site: Site, max: nat)
    requires 1 <= max
    ensures Inv(site, Initial(max))
  {
    var c := Initial(max);
    InitialSettled(site, c);
    GatherNothing(LoadGrid(site), |site|);
    GatherNothing(LinkGrid(site), |site|);
  }

  lemma StepKeepsInv(site: Site, c: Crawl, e: Event)
    requires Enabled(c, e) && Inv(site, c)
    ensures Inv(site, Step(site, c, e))
  {
    StepKeepsBasics(site, c, e);
    LoadedStays(site, c, e);
    StepKeepsDepthFirst(site, c, e);
    StepKeepsSettled(site, c, e);
    StepKeepsLogged(site, c, e);
    StepReports(site, c, e);
  }

  // For every site, every pool size and every interleaving, pauses included.
  lemma {:induction false} RunKeepsInv(site: Site, c: Crawl, es: seq<Event>)
    requires IsRun(site, c, es) && Inv(site, c)
    ensures Inv(site, After(site, c, es))
    decreases |es|
  {
    if es != [] {
      StepKeepsInv(site, c, es[0]);
      RunKeepsInv(site, Step(site, c, es[0]), es[1..]);
    }
  }

  predicate ReachedBy(site: Site, c: Crawl, max: nat, es: seq<Event>) {
    1 <= max && IsRun(site, Initial(max), es) && c == After(site, Initial(max), es)
  }

  ghost predicate Reachable(site: Site, c: Crawl) {
    exists max: nat, es: seq<Event> :: ReachedBy(site, c, max, es)
  }

  lemma ReachableInv(site: Site, c: Crawl)
    requires Reachable(site, c)
    ensures Inv(site, c)
  {
    var max: nat, es: seq<Event> :| ReachedBy(site, c, max, es);
    InitialInv(site, max);
    RunKeepsInv(site, Initial(max), es);
  }

  lemma ReachableOwned(site: Site, c: Crawl)
    requires Reachable(site, c)
    ensures Owned(site, c)
  {
    ReachableInv(site, c);
  }

  lemma RunCons(site: Site, c: Crawl, e: Event, es: seq<Event>)
    requires Enabled(c, e) && IsRun(site, Step(site, c, e), es)
    ensures IsRun(site, c, [e] + es) && After(site, c, [e] + es) == After(site, Step(site, c, e), es)
  {
    assert ([e] + es)[1..] == es;
  }

  lemma {:induction false} RunAppend(site: Site, c: Crawl, es: seq<Event>, e: Event)
    requires IsRun(site, c, es) && Enabled(After(site, c, es), e)
    ensures IsRun(site, c, es + [e])
    ensures After(site, c, es + [e]) == Step(site, After(site, c, es), e)
    decreases |es|
  {
    if es != [] {
      RunAppend(site, Step(site, c, es[0]), es[1..], e);
      assert (es + [e])[1..] == es[1..] + [e];
    }
  }

  lemma ReachableStep(site: Site, c: Crawl, e: Event)
    requires Reachable(site, c) && Enabled(c, e)
    ensures Reachable(site, Step(site, c, e))
  {
    var max: nat, es: seq<Event> :| ReachedBy(site, c, max, es);
    RunAppend(site, Initial(max), es, e);
    assert ReachedBy(site, Step(site, c, e), max, es + [e]);
  }

  /* ---- completeness ---- */

  // Every page has been loaded as often as it occurs in its row's chain, every link
  // launched as often as it occurs on the pages of its row, and nothing else.
  ghost predicate CrawledAll(site: Site, c: Crawl) {
    && (forall r: nat, u: string :: multiset(c.loads)[Row(r, u)] == PagesOn(site, r, u))
    && (forall r: nat, u: string :: multiset(c.launched)[Link(r, u)] == LinksOn(site, r, u))
  }

  lemma LoadedAll(site: Site, c: Crawl)
    ensures multiset(c.loads) == SitePages(site) <==>
            forall r: nat, u: string :: multiset(c.loads)[Row(r, u)] == PagesOn(site, r, u)
  {
    forall r: nat, u: string ensures SitePages(site)[Row(r, u)] == PagesOn(site, r, u) {
      PagesOfSite(site, r, u);
    }
    if forall r: nat, u: string :: multiset(c.loads)[Row(r, u)] == PagesOn(site, r, u) {
      SameCounts(multiset(c.loads), SitePages(site));
    }
  }

  lemma SameCounts(a: multiset<Row>, b: multiset<Row>)
    requires forall r: nat, u: string :: a[Row(r, u)] == b[Row(r, u)]
    ensures a == b
  {
    forall x: Row ensures a[x] == b[x] {
      assert x == Row(x.id, x.url);
    }
  }

  lemma LaunchedAll(site: Site, c: Crawl)
    requires multiset(c.launched) == SiteLinks(site)
    ensures forall r: nat, u: string :: multiset(c.launched)[Link(r, u)] == LinksOn(site, r, u)
  {
    forall r: nat, u: string ensures multiset(c.launched)[Link(r, u)] == LinksOn(site, r, u) {
      LinksOfSite(site, r, u);
    }
  }

  lemma EveryRowDone(site: Site, c: Crawl)
    requires Inv(site, c) && c.workers == 0 && c.queue == [] && c.offset == |site|
    ensures forall r: nat | r < |site| :: Done(site, c, r)
  {
    forall r: nat | r < |site| ensures Done(site, c, r) {
      assert Places(c, r) == 1;
      assert r in c.finished;
    }
  }

  lemma IdleHasAll(site: Site, c: Crawl)
    requires Inv(site, c) && c.workers == 0 && c.queue == [] && c.offset == |site|
    ensures multiset(c.loads) == SitePages(site) && multiset(c.launched) == SiteLinks(site)
    ensures c.launched == c.discovered
  {
    EveryRowDone(site, c);
    forall r: nat | r < |site|
      ensures Get(c.progress, r) == |LoadGrid(site)[r]| && Get(c.sent, r) == |LinkGrid(site)[r]|
    {
      assert Done(site, c, r);
    }
    GatherFull(LoadGrid(site), c.progress, |site|);
    GatherFull(LinkGrid(site), c.sent, |site|);
    assert c.launched == c.discovered;
  }

  lemma IdleIsComplete(site: Site, c: Crawl)
    requires Inv(site, c) && c.workers == 0 && c.queue == [] && c.offset == |site|
    ensures CrawledAll(site, c)
  {
    IdleHasAll(site, c);
    LoadedAll(site, c);
    LaunchedAll(site, c);
  }

  lemma ProgressWithin(site: Site, c: Crawl, r: nat)
    requires Settled(site, c) && r < |site|
    ensures Get(c.sent, r) <= Get(c.progress, r) <= |site[r]|
  {
    if r < c.offset {
      assert Places(c, r) == 1;
      if r in RowIds(c.queue) {
        var k :| 0 <= k < |c.queue| && RowIds(c.queue)[k] == r;
        assert InQueue(site, c, c.queue[k]);
      } else if r in WorkerIds(c.pages) {
        var i :| 0 <= i < |c.pages| && WorkerIds(c.pages)[i] == r;
        assert OnWorker(site, c, c.pages[i]);
      } else {
        var k :| 0 <= k < |c.finished| && c.finished[k] == r;
        assert Done(site, c, c.finished[k]);
      }
    }
  }

  lemma HistoryWithin(site: Site, c: Crawl)
    requires Settled(site, c) && Logged(site, c)
    ensures multiset(c.loads) <= SitePages(site) && |c.loads| <= |SitePages(site)|
    ensures multiset(c.discovered) <= SiteLinks(site) && |c.discovered| <= |SiteLinks(site)|
  {
    forall r: nat | r < |site| ensures Get(c.sent, r) <= Get(c.progress, r) <= |site[r]| {
      ProgressWithin(site, c, r);
    }
    GatherWithin(LoadGrid(site), c.progress, |site|);
    GatherWithin(LinkGrid(site), c.sent, |site|);
    SubsetSize(multiset(c.loads), SitePages(site));
    SubsetSize(multiset(c.discovered), SiteLinks(site));
  }

  // A row that still has a page to launch keeps the crawl from being complete.
  lemma UnlaunchedPageIsMissing(site: Site, c: Crawl, r: nat)
    requires Inv(site, c) && r < |site| && Get(c.progress, r) < |site[r]|
    ensures multiset(c.loads) != SitePages(site)
  {
    var grid := LoadGrid(site);
    forall k: nat | k < |site| ensures Get(c.progress, k) <= |grid[k]| {
      ProgressWithin(site, c, k);
    }
    var k := Get(c.progress, r);
    assert grid[r][k] == multiset{Row(r, site[r][k].url)};
    GatherMisses(grid, c.progress, r);
  }

  // With no worker left, everything was crawled if and only if the whole table was read and
  // no row is waiting.
  lemma IdleIsCompleteExactly(site: Site, c: Crawl)
    requires Inv(site, c) && c.workers == 0
    ensures CrawledAll(site, c) <==> c.offset == |site| && c.queue == []
  {
    LoadedAll(site, c);
    if c.offset < |site| {
      assert IsChain(site[c.offset]);
      UnlaunchedPageIsMissing(site, c, c.offset);
    } else if c.queue != [] {
      assert InQueue(site, c, c.queue[0]);
      UnlaunchedPageIsMissing(site, c, c.queue[0].id);
    } else {
      IdleIsComplete(site, c);
    }
  }

  // When completion has been reported, everything was crawled exactly once if and only if
  // the whole table had been read.
  lemma CompletionTheorem(site: Site, c: Crawl)
    requires Inv(site, c) && c.completions > 0
    ensures c.completions == 1 && c.workers == 0 && c.queue == [] && c.links == []
    ensures CrawledAll(site, c) <==> c.offset == |site|
  {
    IdleIsCompleteExactly(site, c);
  }

  lemma ResupplyExhausts(site: Site, c: Crawl)
    requires SlotFreed(c) && !c.disabled && c.offset <= |site|
    requires Resupply(Table(site), c).completions > c.completions
    ensures Resupply(Table(site), c).offset == |site|
  {
    var b := LoadDbData(Table(site), c);
    if c.links == [] && c.queue == [] {
      assert b.queue != [] ==> LoadPage(b).workers > 0;
    }
  }

  lemma ReportComesFromResupply(site: Site, c: Crawl, e: Event)
    requires Enabled(c, e) && Step(site, c, e).completions > c.completions
    ensures e.PageEnded? || e.ProductEnded?
    ensures e.PageEnded? ==> !c.pages[e.i].phase.more
  {
  }

  lemma {:induction false} EnabledReportExhausts(site: Site, c: Crawl, e: Event)
    requires Enabled(c, e) && Basics(c) && c.offset <= |site| && !c.disabled
    requires Step(site, c, e).completions > c.completions
    ensures Step(site, c, e).offset == |site|
  {
    ReportComesFromResupply(site, c, e);
    if e.PageEnded? {
      ResupplyExhausts(site, Retire(c, e.i));
    } else {
      ResupplyExhausts(site, RetireProduct(c, e.i));
    }
  }

  // A handler that reports completion while not disabled has found the table exhausted,
  // whatever pauses came before.
  lemma {:induction false} EnabledHandlerReportsAll(site: Site, c: Crawl, e: Event)
    requires Enabled(c, e) && Inv(site, c) && !c.disabled
    requires Step(site, c, e).completions > c.completions
    ensures Step(site, c, e).offset == |site| && CrawledAll(site, Step(site, c, e))
  {
    EnabledReportExhausts(site, c, e);
    StepKeepsInv(site, c, e);
    CompletionTheorem(site, Step(site, c, e));
  }

  /* ---- work conservation, never paused ---- */

  // An idle slot means that no work is left anywhere.
  predicate WorkConserving(site: Site, c: Crawl) {
    && !c.disabled
    && (c.loaded && c.workers < c.max ==> c.links == [] && c.queue == [] && c.offset == |site|)
  }

  lemma ResupplyConserves(site: Site, c: Crawl)
    requires SlotFreed(c) && !c.disabled && c.offset <= |site|
    requires c.workers + 1 < c.max ==> c.links == [] && c.queue == [] && c.offset == |site|
    ensures WorkConserving(site, Resupply(Table(site), c))
  {
    if c.links == [] && c.queue == [] {
      var b := LoadDbData(Table(site), c);
      if b.queue != [] {
        assert LoadPage(b).workers > c.workers;
      }
    }
  }

  lemma LoadConserves(site: Site, c: Crawl)
    requires 1 <= c.max && c == Initial(c.max)
    ensures WorkConserving(site, Load(Table(site), c))
  {
    var b := LoadDbData(Table(site), c.(loaded := true, offset := 0));
    assert |b.queue| == if |site| <= c.max then |site| else c.max;
  }

  lemma CategoryPageConserves(site: Site, c: Crawl, i: nat)
    requires i < |c.pages| && Basics(c) && c.offset <= |site| && WorkConserving(site, c) && c.loaded
    ensures WorkConserving(site, ManageCategoryPage(c, i))
  {
    var d := PutBack(c, i);
    if d.links == [] {
      assert LoadPage(d).workers > d.workers;
    }
  }

  lemma {:induction false} StepConserves(site: Site, c: Crawl, e: Event)
    requires Enabled(c, e) && e != Pause
    requires Basics(c) && Fresh(c) && c.offset <= |site| && WorkConserving(site, c)
    ensures WorkConserving(site, Step(site, c, e))
  {
    match e
    case LoadTimer => LoadConserves(site, c);
    case LinksFound(i) => LinksFoundKeepsBasics(c, i, PageAt(site, c, i).links);
    case PageEnded(i) =>
      if c.pages[i].phase.more {
        CategoryPageConserves(site, c, i);
      } else {
        ResupplyConserves(site, Retire(c, i));
      }
    case ProductEnded(j) => ResupplyConserves(site, RetireProduct(c, j));
    case _ =>
  }

  predicate NeverPaused(es: seq<Event>) {
    Pause !in es
  }

  lemma {:induction false} WorkConservation(site: Site, c: Crawl, es: seq<Event>)
    requires IsRun(site, c, es) && NeverPaused(es)
    requires Inv(site, c) && WorkConserving(site, c)
    ensures WorkConserving(site, After(site, c, es))
    decreases |es|
  {
    if es != [] {
      StepConserves(site, c, es[0]);
      StepKeepsInv(site, c, es[0]);
      WorkConservation(site, Step(site, c, es[0]), es[1..]);
    }
  }

  // A crawl that was never paused has crawled everything when it reports completion.
  lemma {:induction false} CrawlCompleteness(site: Site, max: nat, es: seq<Event>)
    requires 1 <= max && IsRun(site, Initial(max), es) && NeverPaused(es)
    ensures var c := After(site, Initial(max), es); c.completions > 0 ==> CrawledAll(site, c)
  {
    var c := After(site, Initial(max), es);
    InitialInv(site, max);
    RunKeepsInv(site, Initial(max), es);
    WorkConservation(site, Initial(max), es);
    if c.completions > 0 {
      CompletionTheorem(site, c);
    }
  }
}
