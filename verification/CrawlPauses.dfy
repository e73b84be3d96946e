/** What pausing changes, how tight the memory bound is, and that a drain starts one link. */
module CrawlPauses {
  import opened Crawl
  import opened CrawlSafety
  import opened CrawlOwnership
  import opened CrawlRuns
  import opened CrawlTermination

  /* ---- while disabled ---- */

  // No page is launched and no row is read; waiting links may still start, first ones first.
  predicate OnlyLinksMoved(c: Crawl, d: Crawl) {
    d.disabled && d.loads == c.loads && d.offset == c.offset && c.launched <= d.launched
  }

  lemma {:induction false} DrainLinksExtends(c: Crawl)
    ensures c.launched <= DrainLinks(c).launched
    decreases |c.links|
  {
    if c.links != [] && c.workers < c.max {
      DrainLinksExtends(LaunchFirstLink(c));
    }
  }

  lemma {:induction false} OfferLinksExtends(c: Crawl, r: nat, urls: seq<string>)
    ensures c.launched <= OfferLinks(c, r, urls).launched
    decreases |urls|
  {
    if urls != [] {
      OfferLinksExtends(OfferLink(c, Link(r, urls[0])), r, urls[1..]);
    }
  }

  lemma ResupplyWhileDisabled(table: seq<string>, c: Crawl)
    requires c.disabled
    ensures OnlyLinksMoved(c, Resupply(table, c))
  {
    DrainLinksExtends(c);
  }

  lemma StepWhileDisabled(site: Site, c: Crawl, e: Event)
    requires Enabled(c, e) && Fresh(c) && c.disabled && e != Resume
    ensures OnlyLinksMoved(c, Step(site, c, e))
  {
    match e
    case LinksFound(i) =>
      var w := c.pages[i];
      OfferLinksExtends(c.(pages := c.pages[i := w.(phase := LinksSent)], sent := Bump(c.sent, w.row.id)),
                        w.row.id, PageAt(site, c, i).links);
    case PageEnded(i) =>
      DrainLinksExtends(PutBack(c, i));
      ResupplyWhileDisabled(Table(site), Retire(c, i));
    case ProductEnded(j) => ResupplyWhileDisabled(Table(site), RetireProduct(c, j));
    case _ =>
  }

  // Over any stretch of a run without a resume, from any reachable paused state.  That the
  // links start in the order found is LinksInOrder, which holds of both ends.
  lemma {:induction false} PausedStretch(site: Site, c: Crawl, es: seq<Event>)
    requires IsRun(site, c, es) && Inv(site, c) && c.disabled && Resume !in es
    ensures OnlyLinksMoved(c, After(site, c, es))
    ensures LinksInOrder(After(site, c, es))
    decreases |es|
  {
    if es != [] {
      StepWhileDisabled(site, c, es[0]);
      StepKeepsInv(site, c, es[0]);
      PausedStretch(site, Step(site, c, es[0]), es[1..]);
    }
  }

  /* ---- three runs that a pause spoils ---- */

  // A single slot takes the first row of the table.
  lemma LoadWithOneSlot(site: Site)
    requires site != []
    ensures var row := Row(0, site[0][0].url);
            Step(site, Initial(1), LoadTimer) ==
            Initial(1).(loaded := true, offset := 1, workers := 1, active := 1,
                        pages := [PageWorker(row, Loading)], loads := [row], progress := map[0 := 1])
  {
    var row := Row(0, site[0][0].url);
    var c := LoadDbData(Table(site), Initial(1).(loaded := true, offset := 0));
    assert c.queue == [row];
    assert LoadPage(c) == LaunchPage(c);
  }

  const ONE_PAGE: seq<Event> := [PageLoaded(0), LinksFound(0), NextFound(0)]

  // Worker 0 loads the first page of its row, which has no links, and learns its next page.
  lemma OnePage(site: Site, c: Crawl, r: nat)
    requires r < |site| && site[r][0].links == []
    requires c.pages != [] && c.pages[0].row.id == r && c.pages[0].phase == Loading && Get(c.progress, r) == 1
    ensures IsRun(site, c, ONE_PAGE)
    ensures After(site, c, ONE_PAGE) ==
            c.(pages := RunDestructor(c, 0, site[r][0].next).pages, sent := Bump(c.sent, r))
  {
    var c1 := Step(site, c, PageLoaded(0));
    var c2 := Step(site, c1, LinksFound(0));
    var c3 := Step(site, c2, NextFound(0));
    assert PageAt(site, c1, 0) == site[r][0] == PageAt(site, c2, 0);
    RunCons(site, c2, NextFound(0), []);
    RunCons(site, c1, LinksFound(0), [NextFound(0)]);
    RunCons(site, c, PageLoaded(0), [LinksFound(0), NextFound(0)]);
    assert c2 == c.(pages := c.pages[0 := c.pages[0].(phase := LinksSent)], sent := Bump(c.sent, r));
    assert c3.pages == RunDestructor(c, 0, site[r][0].next).pages;
  }

  // One slot, paused right after load: the first page is crawled to its end event.
  function PausedRun(last: seq<Event>): seq<Event> {
    [LoadTimer] + ([Pause] + (ONE_PAGE + last))
  }

  function PausedState(site: Site): Crawl
    requires site != []
  {
    var row := Row(0, site[0][0].url);
    Initial(1).(loaded := true, offset := 1, workers := 1, active := 1, disabled := true,
                pages := [PageWorker(row, Loading)], loads := [row], progress := map[0 := 1])
  }

  lemma PausedRunReaches(site: Site, last: seq<Event>)
    requires site != [] && site[0][0].links == []
    requires IsRun(site, PausedState(site), ONE_PAGE + last)
    ensures IsRun(site, Initial(1), PausedRun(last))
    ensures After(site, Initial(1), PausedRun(last)) == After(site, PausedState(site), ONE_PAGE + last)
  {
    LoadWithOneSlot(site);
    var c := Step(site, Initial(1), LoadTimer);
    RunCons(site, c, Pause, ONE_PAGE + last);
    RunCons(site, Initial(1), LoadTimer, [Pause] + (ONE_PAGE + last));
  }

  // Completion is reported although all rows but the first were never read.
  lemma PausedRunReportsTooEarly(site: Site)
    requires 1 < |site| && |site[0]| == 1 && site[0][0].links == []
    ensures var es := PausedRun([PageEnded(0)]);
            && IsRun(site, Initial(1), es)
            && After(site, Initial(1), es).completions == 1
            && !CrawledAll(site, After(site, Initial(1), es))
  {
    var c := PausedState(site);
    OnePage(site, c, 0);
    assert IsChain(site[0]);
    var d := After(site, c, ONE_PAGE);
    RunAppend(site, c, ONE_PAGE, PageEnded(0));
    PausedRunReaches(site, [PageEnded(0)]);
    var e := Step(site, d, PageEnded(0));
    assert e.completions == 1 && e.offset == 1;
    InitialInv(site, 1);
    RunKeepsInv(site, Initial(1), PausedRun([PageEnded(0)]));
    CompletionTheorem(site, e);
  }

  // The row put back while paused waits for ever: no worker is left to take it up, and
  // resuming starts none.
  lemma {:induction false} PausedRunStalls(site: Site)
    requires site != [] && 1 < |site[0]| && site[0][0].links == []
    ensures var es := PausedRun([PageEnded(0)]);
            && IsRun(site, Initial(1), es)
            && var c := Step(site, After(site, Initial(1), es), Resume);
               c.queue != [] && c.workers == 0 && c.completions == 0 && Stopped(c)
  {
    var c := PausedState(site);
    OnePage(site, c, 0);
    assert IsChain(site[0]) && LeadsOn(site[0], 0);
    var d := After(site, c, ONE_PAGE);
    RunAppend(site, c, ONE_PAGE, PageEnded(0));
    PausedRunReaches(site, [PageEnded(0)]);
    assert d.pages[0].phase == Ended(true) && |d.pages| == 1;
    var e := Step(site, d, PageEnded(0));
    assert e == PutBack(d, 0);
    LiveMeansEnabled(Step(site, e, Resume));
  }

  // A pause before the timer fires: load starts nothing, and resuming does not help.
  lemma PausedLoadNeverStarts(site: Site, max: nat)
    requires 1 <= max
    ensures var es := [Pause] + ([LoadTimer] + ([Resume] + []));
            && IsRun(site, Initial(max), es)
            && var c := After(site, Initial(max), es);
               && c.loaded && !c.disabled && Stopped(c)
               && c.loads == [] && c.queue == [] && c.offset == 0 && c.completions == 0
  {
    var c1 := Step(site, Initial(max), Pause);
    var c2 := Step(site, c1, LoadTimer);
    assert c2 == c1.(loaded := true, offset := 0);
    RunCons(site, c2, Resume, []);
    RunCons(site, c1, LoadTimer, [Resume] + []);
    RunCons(site, Initial(max), Pause, [LoadTimer] + ([Resume] + []));
    LiveMeansEnabled(Step(site, c2, Resume));
  }

  /* ---- when exactly a pause spoils a run ---- */

  // Load starts nothing if and only if it runs while disabled or the table is empty.
  lemma LoadStartsNothingExactly(site: Site, c: Crawl)
    requires 1 <= c.max && c == Initial(c.max).(disabled := c.disabled)
    ensures Step(site, c, LoadTimer).workers == 0 <==> c.disabled || site == []
    ensures Step(site, c, LoadTimer).offset == 0 <==> c.disabled || site == []
  {
    var d := LoadDbData(Table(site), c.(loaded := true, offset := 0));
    assert d.queue != [] && !d.disabled ==> LoadPage(d).workers > 0;
  }

  // The worker that ends is the last one, it ends while disabled, no link is waiting.
  predicate LastWhileDisabled(c: Crawl) {
    c.disabled && c.workers == 1 && c.links == []
  }

  predicate LeavesRow(c: Crawl, e: Event)
    requires Enabled(c, e)
  {
    c.queue != [] || (e.PageEnded? && c.pages[e.i].phase.more)
  }

  lemma ResupplyStalls(table: seq<string>, c: Crawl)
    requires SlotFreed(c)
    ensures var d := Resupply(table, c);
            d.workers == 0 && d.queue != [] <==> c.disabled && c.workers == 0 && c.links == [] && c.queue != []
  {
    if c.links == [] && c.queue == [] {
      var b := LoadDbData(table, c);
      assert b.queue != [] ==> LoadPage(b).workers > 0;
    }
  }

  lemma CategoryPageStalls(c: Crawl, i: nat)
    requires Basics(c) && i < |c.pages|
    ensures var d := ManageCategoryPage(c, i);
            d.workers == 0 && d.queue != [] <==> LastWhileDisabled(c)
  {
  }

  // A worker's end leaves the crawl stalled, with rows waiting and nobody to take them, if
  // and only if it is the last end, while disabled, and leaves a row.
  lemma StallExactly(site: Site, c: Crawl, e: Event)
    requires Enabled(c, e) && Basics(c) && (e.PageEnded? || e.ProductEnded?)
    ensures var d := Step(site, c, e);
            d.workers == 0 && d.queue != [] <==> LastWhileDisabled(c) && LeavesRow(c, e)
  {
    if e.ProductEnded? {
      ResupplyStalls(Table(site), RetireProduct(c, e.i));
    } else if c.pages[e.i].phase.more {
      CategoryPageStalls(c, e.i);
    } else {
      ResupplyStalls(Table(site), Retire(c, e.i));
    }
  }

  lemma ResupplyReportsEarly(site: Site, c: Crawl)
    requires SlotFreed(c) && c.offset <= |site|
    ensures var d := Resupply(Table(site), c);
            d.completions > c.completions && d.offset < |site| <==>
            c.disabled && c.workers == 0 && c.links == [] && c.queue == [] && c.offset < |site|
  {
    if c.links == [] && c.queue == [] {
      var b := LoadDbData(Table(site), c);
      assert b.queue != [] ==> LoadPage(b).workers > 0;
    }
  }

  // It is reported as completion with rows never read if and only if it is the last end,
  // while disabled, leaves no row, and the table has not been read to its end.
  lemma EarlyReportExactly(site: Site, c: Crawl, e: Event)
    requires Enabled(c, e) && Basics(c) && c.offset <= |site| && (e.PageEnded? || e.ProductEnded?)
    ensures var d := Step(site, c, e);
            d.completions > c.completions && d.offset < |site| <==>
            LastWhileDisabled(c) && !LeavesRow(c, e) && c.offset < |site|
  {
    if e.ProductEnded? {
      ResupplyReportsEarly(site, RetireProduct(c, e.i));
    } else if c.pages[e.i].phase.more {
      assert Step(site, c, e).completions == c.completions;
    } else {
      ResupplyReportsEarly(site, Retire(c, e.i));
    }
  }

  /* ---- exact facts ---- */

  // A drain starts exactly one link: every slot but the one just freed is taken.
  lemma DrainStartsOne(c: Crawl, i: nat)
    requires Basics(c) && c.links != []
    ensures i < |c.pages| ==> DrainLinks(PutBack(c, i)) == LaunchFirstLink(PutBack(c, i))
    ensures i < |c.pages| ==> DrainLinks(Retire(c, i)) == LaunchFirstLink(Retire(c, i))
    ensures i < |c.products| ==> DrainLinks(RetireProduct(c, i)) == LaunchFirstLink(RetireProduct(c, i))
  {
  }

  // The bound on queued rows and page workers is reached: a batch of max rows is fetched
  // when the first of max one-page rows retires.
  lemma BoundIsReached(site: Site, max: nat)
    requires 1 <= max && 2 * max <= |site|
    requires forall r | 0 <= r < |site| :: |site[r]| == 1 && site[r][0].links == []
    ensures var es := [LoadTimer] + (ONE_PAGE + [PageEnded(0)]);
            && IsRun(site, Initial(max), es)
            && var c := After(site, Initial(max), es);
               |c.queue| + c.active == 2 * max - 1
  {
    var c := Step(site, Initial(max), LoadTimer);
    LoadFillsPool(site, max);
    FirstWorkerOnFirstPage(site, max);
    var r := c.pages[0].row.id;
    RetireFirst(site, c, r);
    RunCons(site, Initial(max), LoadTimer, ONE_PAGE + [PageEnded(0)]);
  }

  lemma RetireFirst(site: Site, c: Crawl, r: nat)
    requires r < |site| && |site[r]| == 1 && site[r][0].links == []
    requires c.pages != [] && c.pages[0] == PageWorker(c.pages[0].row, Loading) && c.pages[0].row.id == r
    requires Get(c.progress, r) == 1
    requires c.workers == c.active == c.max && 1 <= c.max && !c.disabled
    requires c.queue == [] && c.links == [] && c.offset == c.max && 2 * c.max <= |site|
    ensures IsRun(site, c, ONE_PAGE + [PageEnded(0)])
    ensures var d := After(site, c, ONE_PAGE + [PageEnded(0)]); |d.queue| + d.active == 2 * c.max - 1
  {
    OnePage(site, c, r);
    assert IsChain(site[r]);
    var d := After(site, c, ONE_PAGE);
    assert d.pages[0].phase == Ended(false);
    RunAppend(site, c, ONE_PAGE, PageEnded(0));
    FetchOnRetire(Table(site), d);
  }

  lemma FirstWorkerOnFirstPage(site: Site, max: nat)
    requires 1 <= max && Load(Table(site), Initial(max)).pages != []
    requires forall r | 0 <= r < |site| :: |site[r]| == 1
    ensures var c := Load(Table(site), Initial(max)); var r := c.pages[0].row.id;
            r < |site| && Get(c.progress, r) == 1
  {
    InitialInv(site, max);
    StepKeepsSettled(site, Initial(max), LoadTimer);
    var c := Load(Table(site), Initial(max));
    assert OnWorker(site, c, c.pages[0]);
  }

  lemma LoadFillsPool(site: Site, max: nat)
    requires 1 <= max <= |site|
    ensures var c := Load(Table(site), Initial(max));
            && c.workers == max == |c.pages| && c.queue == [] && c.links == [] && c.offset == max
            && c.loaded && c.active == max && !c.disabled && c.max == max
            && forall i | 0 <= i < |c.pages| :: c.pages[i].phase == Loading
  {
    var c := LoadDbData(Table(site), Initial(max).(loaded := true, offset := 0));
    LoadPageAppendsLoading(c);
  }

  lemma {:induction false} LoadPageAppendsLoading(c: Crawl)
    ensures forall i | |c.pages| <= i < |LoadPage(c).pages| :: LoadPage(c).pages[i].phase == Loading
    ensures c.pages <= LoadPage(c).pages
    decreases |c.queue|
  {
    if !c.disabled && c.workers < c.max && c.queue != [] {
      LoadPageAppendsLoading(LaunchPage(c));
    }
  }

  lemma FetchOnRetire(table: seq<string>, c: Crawl)
    requires c.pages != [] && c.workers == c.active == c.max && 1 <= c.max && !c.disabled
    requires c.queue == [] && c.links == [] && c.offset == c.max && 2 * c.max <= |table|
    ensures var d := Resupply(table, Retire(c, 0)); |d.queue| + d.active == 2 * c.max - 1
  {
    var d := LoadDbData(table, Retire(c, 0));
    assert |d.queue| == c.max;
  }
}
