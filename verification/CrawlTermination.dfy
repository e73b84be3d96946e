/** Every crawl ends: an exact count of the worker events still to come. */
module CrawlTermination {
  import opened Crawl
  import opened CrawlSafety
  import opened CrawlHistory
  import opened CrawlRuns

  // Events a page worker still has to deliver: load finished, links, next page, end.
  function EventsLeft(p: Phase): nat {
    match p
    case Loading => 4
    case Parsing => 3
    case LinksSent => 2
    case Ended(_) => 1
  }

  function PageWork(pages: seq<PageWorker>): nat {
    if pages == [] then 0 else EventsLeft(pages[0].phase) + PageWork(pages[1..])
  }

  function ProductWork(products: seq<ProductWorker>): nat {
    if products == [] then 0 else (if products[0].loaded then 1 else 2) + ProductWork(products[1..])
  }

  // How many pages and links a site has.
  datatype Size = Size(pages: nat, links: nat)

  function SizeOf(site: Site): Size {
    Size(|SitePages(site)|, |SiteLinks(site)|)
  }

  // Four events for each page not yet launched, two for each link not yet found or
  // waiting for a slot, and what the live workers still owe.
  function Remaining(size: Size, c: Crawl): int {
    4 * (size.pages - |c.loads|) + PageWork(c.pages) +
    2 * (size.links - |c.discovered|) + 2 * |c.links| + ProductWork(c.products)
  }

  function Total(site: Site): nat {
    4 * |SitePages(site)| + 2 * |SiteLinks(site)|
  }

  lemma {:induction false} PageWorkSplit(a: seq<PageWorker>, b: seq<PageWorker>)
    ensures PageWork(a + b) == PageWork(a) + PageWork(b)
  {
    if a == [] {
      assert a + b == b;
    } else {
      PageWorkSplit(a[1..], b);
      assert (a + b)[1..] == a[1..] + b;
    }
  }

  lemma {:induction false} ProductWorkSplit(a: seq<ProductWorker>, b: seq<ProductWorker>)
    ensures ProductWork(a + b) == ProductWork(a) + ProductWork(b)
  {
    if a == [] {
      assert a + b == b;
    } else {
      ProductWorkSplit(a[1..], b);
      assert (a + b)[1..] == a[1..] + b;
    }
  }

  lemma PageWorkAt(pages: seq<PageWorker>, i: nat, w: PageWorker)
    requires i < |pages|
    ensures PageWork(pages) == PageWork(Remove(pages, i)) + EventsLeft(pages[i].phase)
    ensures PageWork(pages[i := w]) == PageWork(Remove(pages, i)) + EventsLeft(w.phase)
  {
    var a, b := pages[..i], pages[i + 1..];
    assert pages == a + ([pages[i]] + b) && pages[i := w] == a + ([w] + b);
    PageWorkSplit(a, b);
    PageWorkSplit(a, [pages[i]] + b);
    PageWorkSplit(a, [w] + b);
  }

  lemma ProductWorkAt(products: seq<ProductWorker>, j: nat, w: ProductWorker)
    requires j < |products|
    ensures ProductWork(products) == ProductWork(Remove(products, j)) + (if products[j].loaded then 1 else 2)
    ensures ProductWork(products[j := w]) == ProductWork(Remove(products, j)) + (if w.loaded then 1 else 2)
  {
    var a, b := products[..j], products[j + 1..];
    assert products == a + ([products[j]] + b) && products[j := w] == a + ([w] + b);
    ProductWorkSplit(a, b);
    ProductWorkSplit(a, [products[j]] + b);
    ProductWorkSplit(a, [w] + b);
  }

  /* ---- launching costs nothing ---- */

  lemma {:induction false} LoadPageIsFree(size: Size, c: Crawl)
    ensures Remaining(size, LoadPage(c)) == Remaining(size, c)
    decreases |c.queue|
  {
    if !c.disabled && c.workers < c.max && c.queue != [] {
      PageWorkSplit(c.pages, [PageWorker(c.queue[0], Loading)]);
      LoadPageIsFree(size, LaunchPage(c));
    }
  }

  lemma {:induction false} DrainLinksIsFree(size: Size, c: Crawl)
    ensures Remaining(size, DrainLinks(c)) == Remaining(size, c)
    decreases |c.links|
  {
    if c.links != [] && c.workers < c.max {
      ProductWorkSplit(c.products, [ProductWorker(c.links[0], false)]);
      DrainLinksIsFree(size, LaunchFirstLink(c));
    }
  }

  lemma {:induction false} OfferLinksIsFree(size: Size, c: Crawl, r: nat, urls: seq<string>)
    ensures Remaining(size, OfferLinks(c, r, urls)) == Remaining(size, c)
    decreases |urls|
  {
    if urls != [] {
      var l := Link(r, urls[0]);
      ProductWorkSplit(c.products, [ProductWorker(l, false)]);
      OfferLinksIsFree(size, OfferLink(c, l), r, urls[1..]);
    }
  }

  lemma RefillIsFree(size: Size, table: seq<string>, c: Crawl)
    ensures Remaining(size, Refill(table, c)) == Remaining(size, c)
  {
    LoadPageIsFree(size, LoadDbData(table, c));
  }

  lemma ResupplyIsFree(size: Size, table: seq<string>, c: Crawl)
    ensures Remaining(size, Resupply(table, c)) == Remaining(size, c)
  {
    if c.links != [] {
      DrainLinksIsFree(size, c);
    } else if c.queue != [] {
      LoadPageIsFree(size, c);
    } else {
      RefillIsFree(size, table, c);
    }
  }

  lemma LinksFoundSpendsOne(size: Size, c: Crawl, i: nat, urls: seq<string>)
    requires i < |c.pages| && c.pages[i].phase == Parsing
    ensures Remaining(size, ManageLinks(c, i, urls)) == Remaining(size, c) - 1
  {
    var w := c.pages[i].(phase := LinksSent);
    PageWorkAt(c.pages, i, w);
    OfferLinksIsFree(size, c.(pages := c.pages[i := w], sent := Bump(c.sent, w.row.id)), w.row.id, urls);
  }

  lemma PageMovesOn(size: Size, c: Crawl, i: nat)
    requires i < |c.pages| && c.pages[i].phase.Ended?
    ensures Remaining(size, ManageCategoryPage(c, i)) == Remaining(size, c) - 1
  {
    PageWorkAt(c.pages, i, c.pages[i]);
    DrainLinksIsFree(size, PutBack(c, i));
    LoadPageIsFree(size, PutBack(c, i));
  }

  lemma PageRetires(size: Size, table: seq<string>, c: Crawl, i: nat)
    requires i < |c.pages| && c.pages[i].phase.Ended?
    ensures Remaining(size, Resupply(table, Retire(c, i))) == Remaining(size, c) - 1
  {
    PageWorkAt(c.pages, i, c.pages[i]);
    ResupplyIsFree(size, table, Retire(c, i));
  }

  lemma ProductRetires(size: Size, table: seq<string>, c: Crawl, j: nat)
    requires j < |c.products| && c.products[j].loaded
    ensures Remaining(size, Resupply(table, RetireProduct(c, j))) == Remaining(size, c) - 1
  {
    ProductWorkAt(c.products, j, c.products[j]);
    ResupplyIsFree(size, table, RetireProduct(c, j));
  }

  // Every worker event uses up exactly one; nothing else changes the count.
  lemma StepSpendsOne(site: Site, size: Size, c: Crawl, e: Event)
    requires Enabled(c, e)
    ensures Remaining(size, Step(site, c, e)) == Remaining(size, c) - (if IsWorkerEvent(e) then 1 else 0)
  {
    match e
    case LoadTimer => LoadPageIsFree(size, LoadDbData(Table(site), c.(loaded := true, offset := 0)));
    case PageLoaded(i) => PageWorkAt(c.pages, i, Step(site, c, e).pages[i]);
    case LinksFound(i) => LinksFoundSpendsOne(size, c, i, PageAt(site, c, i).links);
    case NextFound(i) => PageWorkAt(c.pages, i, Step(site, c, e).pages[i]);
    case PageEnded(i) =>
      if c.pages[i].phase.more {
        PageMovesOn(size, c, i);
      } else {
        PageRetires(size, Table(site), c, i);
      }
    case ProductLoaded(j) => ProductWorkAt(c.products, j, Step(site, c, e).products[j]);
    case ProductEnded(j) => ProductRetires(size, Table(site), c, j);
    case _ =>
  }

  function WorkerEvents(es: seq<Event>): nat {
    if es == [] then 0 else (if IsWorkerEvent(es[0]) then 1 else 0) + WorkerEvents(es[1..])
  }

  lemma {:induction false} RunSpends(site: Site, size: Size, c: Crawl, es: seq<Event>)
    requires IsRun(site, c, es)
    ensures Remaining(size, After(site, c, es)) == Remaining(size, c) - WorkerEvents(es)
    decreases |es|
  {
    if es != [] {
      StepSpendsOne(site, size, c, es[0]);
      RunSpends(site, size, Step(site, c, es[0]), es[1..]);
    }
  }

  lemma RemainingIsNatural(site: Site, c: Crawl)
    requires Inv(site, c)
    ensures Remaining(SizeOf(site), c) >= 0
  {
    HistoryWithin(site, c);
  }

  // From any state that keeps the invariant no run, paused or not, has more worker events
  // than are still to come.
  lemma RunsAreBounded(site: Site, c: Crawl, es: seq<Event>)
    requires IsRun(site, c, es) && Inv(site, c)
    ensures WorkerEvents(es) <= Remaining(SizeOf(site), c)
  {
    RunKeepsInv(site, c, es);
    RunSpends(site, SizeOf(site), c, es);
    RemainingIsNatural(site, After(site, c, es));
  }

  // So no run from the start, paused or not, has more than four for each page and two for
  // each link.
  lemma RunsFromStart(site: Site, max: nat, es: seq<Event>)
    requires 1 <= max && IsRun(site, Initial(max), es)
    ensures WorkerEvents(es) <= Total(site)
  {
    InitialInv(site, max);
    RunsAreBounded(site, Initial(max), es);
    AllRemains(site, max);
  }

  lemma AllRemains(site: Site, max: nat)
    ensures Remaining(SizeOf(site), Initial(max)) == Total(site)
  {
  }

  ghost predicate Stopped(c: Crawl) {
    forall e: Event | IsWorkerEvent(e) :: !Enabled(c, e)
  }

  // As long as a worker is live, some worker event can happen.
  lemma LiveMeansEnabled(c: Crawl)
    requires Accounted(c)
    ensures Stopped(c) <==> c.workers == 0
  {
    if c.pages != [] {
      var e := match c.pages[0].phase
               case Loading => PageLoaded(0)
               case Parsing => LinksFound(0)
               case LinksSent => NextFound(0)
               case Ended(_) => PageEnded(0);
      assert Enabled(c, e) && IsWorkerEvent(e);
    } else if c.products != [] {
      var e := if c.products[0].loaded then ProductEnded(0) else ProductLoaded(0);
      assert Enabled(c, e) && IsWorkerEvent(e);
    }
  }

  // A work-conserving crawl in which no worker event is left has crawled everything and
  // reported it once, unless the table is empty: then nothing ever reports.
  lemma StoppedIsDone(site: Site, c: Crawl)
    requires Inv(site, c) && WorkConserving(site, c) && c.loaded && Stopped(c)
    ensures CrawledAll(site, c)
    ensures c.completions == if site == [] then 0 else 1
    ensures Remaining(SizeOf(site), c) == 0
  {
    LiveMeansEnabled(c);
    IdleIsComplete(site, c);
    IdleHasAll(site, c);
    assert |c.loads| == |multiset(c.loads)| && |c.discovered| == |multiset(c.discovered)|;
  }

  // So does every run that was never paused and cannot go on, after exactly Total events.
  lemma {:induction false} MaximalRuns(site: Site, max: nat, es: seq<Event>)
    requires 1 <= max && IsRun(site, Initial(max), es) && NeverPaused(es)
    requires var c := After(site, Initial(max), es); c.loaded && Stopped(c)
    ensures var c := After(site, Initial(max), es);
            && CrawledAll(site, c)
            && c.completions == (if site == [] then 0 else 1)
            && WorkerEvents(es) == Total(site)
  {
    InitialInv(site, max);
    RunKeepsInv(site, Initial(max), es);
    WorkConservation(site, Initial(max), es);
    StoppedIsDone(site, After(site, Initial(max), es));
    RunSpends(site, SizeOf(site), Initial(max), es);
  }

  // With pauses: once no worker is left, completion has been reported if and only if some
  // row was read at load and no row is waiting.
  lemma StalledOrReported(site: Site, max: nat, es: seq<Event>)
    requires 1 <= max && IsRun(site, Initial(max), es) && Stopped(After(site, Initial(max), es))
    ensures var c := After(site, Initial(max), es);
            c.completions == 1 <==> c.queue == [] && 0 < c.offset
  {
    InitialInv(site, max);
    RunKeepsInv(site, Initial(max), es);
    LiveMeansEnabled(After(site, Initial(max), es));
  }
}
