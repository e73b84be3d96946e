/** The scheduler and the page parser as the program has them: objects updated in place.
    Every slot is proved to do to the fields what its function in module Crawl does to the
    crawl state. */
module ParserMain {
  import C = Crawl
  import CrawlOwnership
  import CrawlRuns

  class ParserRow {
    const id: nat
    var categoryUrl: string

    constructor (id: nat, url: string)
      ensures this.id == id && categoryUrl == url
    {
      this.id, categoryUrl := id, url;
    }
  }

  datatype LinkObject = LinkObject(prow: ParserRow, link: string)

  // A category page being loaded or parsed; its row stays shared with the scheduler.
  datatype LivePage = LivePage(row: ParserRow, phase: C.Phase)

  // A product page being loaded or parsed.
  datatype LiveProduct = LiveProduct(prow: ParserRow, link: string, loaded: bool)

  // What wpFinished starts, and what runDestructor emits.
  datatype Thread = PageThread(parser: PageParser) | ProductThread(row: ParserRow) | NoThread
  datatype EndSignal = PageParseEnd(row: ParserRow) | ParserEnd

  datatype History = History(finished: seq<nat>, loads: seq<C.Row>, discovered: seq<C.Link>, launched: seq<C.Link>,
                             progress: map<nat, nat>, sent: map<nat, nat>)

  function RowView(r: ParserRow): C.Row
    reads r
  {
    C.Row(r.id, r.categoryUrl)
  }

  function RowsView(rows: seq<ParserRow>): seq<C.Row>
    reads rows
  {
    seq(|rows|, k requires 0 <= k < |rows| reads rows => RowView(rows[k]))
  }

  function LinksView(links: seq<LinkObject>): seq<C.Link> {
    seq(|links|, k requires 0 <= k < |links| => C.Link(links[k].prow.id, links[k].link))
  }

  function RowsOf(pages: seq<LivePage>): seq<ParserRow> {
    seq(|pages|, k requires 0 <= k < |pages| => pages[k].row)
  }

  function PagesView(pages: seq<LivePage>): seq<C.PageWorker>
    reads RowsOf(pages)
  {
    seq(|pages|, k requires 0 <= k < |pages| reads RowsOf(pages) =>
      assert pages[k].row == RowsOf(pages)[k];
      C.PageWorker(RowView(pages[k].row), pages[k].phase))
  }

  lemma PagesViewRemove(pages: seq<LivePage>, i: nat)
    requires i < |pages|
    ensures PagesView(C.Remove(pages, i)) == C.Remove(PagesView(pages), i)
  {
    var rest := C.Remove(pages, i);
    forall k | 0 <= k < |rest| ensures PagesView(rest)[k] == C.Remove(PagesView(pages), i)[k] {
      assert rest[k] == pages[if k < i then k else k + 1];
    }
  }

  function ProductsView(products: seq<LiveProduct>): seq<C.ProductWorker> {
    seq(|products|, k requires 0 <= k < |products| =>
      C.ProductWorker(C.Link(products[k].prow.id, products[k].link), products[k].loaded))
  }

  function RowsIn(queue: seq<ParserRow>, pages: seq<LivePage>): set<ParserRow> {
    (set r | r in queue) + (set w | w in pages :: w.row)
  }

  class ParserMain {
    const table: seq<string>        // category_url of every row of product_parsers
    const maxThreadsCount: nat
    var disabled: bool
    var parserOffset: int
    var workersCount: int
    var pageActiveLoaderCount: int
    var categoryPages: seq<ParserRow>
    var productLinks: seq<LinkObject>
    // the workers that were started and have not ended
    var pages: seq<LivePage>
    var products: seq<LiveProduct>
    var completions: nat
    // what has been launched and found so far
    ghost var loaded: bool
    ghost var past: History

    ghost function View(): C.Crawl
      reads this, categoryPages, RowsOf(pages)
    {
      C.Crawl(loaded, maxThreadsCount, disabled, parserOffset, workersCount, pageActiveLoaderCount,
              RowsView(categoryPages), LinksView(productLinks), PagesView(pages), ProductsView(products),
              past.finished, past.loads, past.discovered, past.launched, past.progress, past.sent, completions)
    }

    // Every row object the scheduler or a page worker holds.
    ghost function AllRows(): set<ParserRow>
      reads this
    {
      RowsIn(categoryPages, pages)
    }

    constructor (table: seq<string>, maxThreadsCount: nat)
      ensures this.table == table && this.maxThreadsCount == maxThreadsCount
      ensures View() == C.Initial(maxThreadsCount) && AllRows() == {}
    {
      this.table, this.maxThreadsCount := table, maxThreadsCount;
      disabled, parserOffset, workersCount, pageActiveLoaderCount := false, 0, 0, 0;
      categoryPages, productLinks, pages, products, completions := [], [], [], [], 0;
      loaded, past := false, History([], [], [], [], map[], map[]);
    }

    method Pause()
      modifies `disabled
      ensures View() == old(View()).(disabled := true)
    {
      disabled := true;
    }

    method Resume()
      modifies `disabled
      ensures View() == old(View()).(disabled := false)
    {
      disabled := false;
    }

    method Load()
      modifies this
      ensures fresh(AllRows() - old(AllRows()))
      ensures View() == C.Load(table, old(View()))
    {
      loaded := true;
      parserOffset := 0;
      assert View() == old(View()).(loaded := true, offset := 0);
      ReadAndLaunch();
    }

    method ReadAndLaunch()
      modifies this
      ensures fresh(AllRows() - old(AllRows()))
      ensures View() == C.LoadPage(C.LoadDbData(table, old(View())))
    {
      LoadDbData();
      LoadPage();
    }

    method LoadPage()
      modifies this
      ensures AllRows() <= old(AllRows())
      ensures View() == C.LoadPage(old(View()))
    {
      if disabled == false {
        while workersCount < maxThreadsCount && |categoryPages| > 0
          invariant !disabled && AllRows() <= old(AllRows())
          invariant C.LoadPage(View()) == C.LoadPage(old(View()))
          decreases |categoryPages|
        {
          LaunchPage();
        }
      }
    }

    method LaunchPage()
      requires |categoryPages| > 0
      modifies this
      ensures AllRows() <= old(AllRows())
      ensures View() == C.LaunchPage(old(View()))
      ensures categoryPages == old(categoryPages)[1..] && disabled == old(disabled)
    {
      var r := categoryPages[0];
      categoryPages := categoryPages[1..];
      workersCount := workersCount + 1;
      pageActiveLoaderCount := pageActiveLoaderCount + 1;
      pages := pages + [LivePage(r, C.Loading)];
      past := past.(loads := past.loads + [RowView(r)], progress := C.Bump(past.progress, r.id));
      assert RowsView(categoryPages) == old(View()).queue[1..];
      assert PagesView(pages) == old(View()).pages + [C.PageWorker(RowView(r), C.Loading)];
    }

    method LoadDbData()
      modifies this
      ensures fresh(AllRows() - old(AllRows()))
      ensures View() == C.LoadDbData(table, old(View()))
    {
      if disabled == false {
        var first := parserOffset;
        var size := QuerySize();
        parserOffset := parserOffset + size;
        AppendRows(first, size);
      }
    }

    // while (getParserQuery.next()): the rows of the result, each a new object.
    method AppendRows(first: int, size: nat)
      requires size == |C.Batch(table, first, maxThreadsCount)|
      modifies this`categoryPages
      ensures fresh(AllRows() - old(AllRows()))
      ensures View() == old(View()).(queue := old(View()).queue + C.Batch(table, first, maxThreadsCount))
    {
      ghost var batch := C.Batch(table, first, maxThreadsCount);
      ghost var waiting := categoryPages;
      for k := 0 to size
        invariant waiting <= categoryPages && |categoryPages| == |waiting| + k
        invariant forall j | 0 <= j < k :: RowView(categoryPages[|waiting| + j]) == batch[j]
        invariant forall j | |waiting| <= j < |categoryPages| :: fresh(categoryPages[j])
      {
        assert batch[k] == C.Row(first + k, table[first + k]);
        var p := new ParserRow(first + k, table[first + k]);
        categoryPages := categoryPages + [p];
      }
      assert RowsView(categoryPages) == old(View()).queue + batch;
    }

    // The number of rows of SELECT ... LIMIT parserOffset, maxThreadsCount.
    method QuerySize() returns (n: nat)
      ensures n == |C.Batch(table, parserOffset, maxThreadsCount)|
    {
      if parserOffset < 0 || |table| < parserOffset {
        n := 0;
      } else if |table| - parserOffset <= maxThreadsCount {
        n := |table| - parserOffset;
      } else {
        n := maxThreadsCount;
      }
    }

    // A loadFinished signal; worker i of its kind has loaded.
    method WpFinished(r: ParserRow, action: string, i: nat) returns (t: Thread)
      requires action == "page" ==> i < |pages| && pages[i].row == r
      requires action == "link" ==> i < |products| && products[i].prow == r
      modifies `pages, `products
      ensures AllRows() <= old(AllRows())
      ensures View() ==
              if action == "page" then
                old(View()).(pages := old(View()).pages[i := old(View()).pages[i].(phase := C.Parsing)])
              else if action == "link" then
                old(View()).(products := old(View()).products[i := old(View()).products[i].(loaded := true)])
              else old(View())
      ensures match t
              case PageThread(p) => action == "page" && p.row == r
              case ProductThread(row) => action == "link" && row == r
              case NoThread => action != "page" && action != "link"
    {
      if action == "page" {
        var p := new PageParser(r);
        t := PageThread(p);
        SetPhase(i, C.Parsing);
      } else if action == "link" {
        t := ProductThread(r);
        products := products[i := products[i].(loaded := true)];
      } else {
        t := NoThread;
      }
    }

    method StartLink(prow: ParserRow, link: string)
      modifies `workersCount, `products, `past
      ensures View() == C.LaunchLink(old(View()), C.Link(prow.id, link))
    {
      workersCount := workersCount + 1;
      products := products + [LiveProduct(prow, link, false)];
      past := past.(launched := past.launched + [C.Link(prow.id, link)]);
    }

    // The links of page worker i, in the order of link_map.keys().
    method ManageLinks(links: seq<string>, r: ParserRow, i: nat)
      requires i < |pages| && pages[i].row == r
      modifies `workersCount, `products, `past, `productLinks, `pages
      ensures AllRows() <= old(AllRows())
      ensures View() == C.ManageLinks(old(View()), i, links)
    {
      MarkSent(i);
      ghost var start := View();
      for k := 0 to |links|
        invariant AllRows() <= old(AllRows())
        invariant C.OfferLinks(View(), r.id, links[k..]) == C.OfferLinks(start, r.id, links)
      {
        OfferLink(r, links[k]);
      }
    }

    method OfferLink(r: ParserRow, lk: string)
      modifies `workersCount, `products, `past, `productLinks
      ensures View() == C.OfferLink(old(View()), C.Link(r.id, lk))
    {
      past := past.(discovered := past.discovered + [C.Link(r.id, lk)]);
      if workersCount < maxThreadsCount {
        StartLink(r, lk);
      } else {
        productLinks := productLinks + [LinkObject(r, lk)];
        assert LinksView(productLinks) == old(View()).links + [C.Link(r.id, lk)];
      }
    }

    // Page worker i has handed its links over.
    method MarkSent(i: nat)
      requires i < |pages|
      modifies `pages, `past
      ensures AllRows() <= old(AllRows())
      ensures pages == old(pages)[i := old(pages)[i].(phase := C.LinksSent)]
      ensures var c := old(View());
              View() == c.(pages := c.pages[i := c.pages[i].(phase := C.LinksSent)],
                           sent := C.Bump(c.sent, c.pages[i].row.id))
    {
      past := past.(sent := C.Bump(past.sent, pages[i].row.id));
      SetPhase(i, C.LinksSent);
    }

    method SetPhase(i: nat, phase: C.Phase)
      requires i < |pages|
      modifies `pages
      ensures AllRows() <= old(AllRows())
      ensures pages == old(pages)[i := old(pages)[i].(phase := phase)]
      ensures View() == old(View()).(pages := old(View()).pages[i := old(View()).pages[i].(phase := phase)])
    {
      pages := pages[i := pages[i].(phase := phase)];
      assert View().pages == old(View()).pages[i := old(View()).pages[i].(phase := phase)];
    }

    method DrainLinks()
      modifies `workersCount, `products, `past, `productLinks
      ensures View() == C.DrainLinks(old(View()))
    {
      while |productLinks| > 0 && workersCount < maxThreadsCount
        invariant C.DrainLinks(View()) == C.DrainLinks(old(View()))
        decreases |productLinks|
      {
        StartFirstLink();
      }
    }

    method StartFirstLink()
      requires |productLinks| > 0
      modifies `workersCount, `products, `past, `productLinks
      ensures productLinks == old(productLinks)[1..]
      ensures View() == C.LaunchFirstLink(old(View()))
    {
      var lo := productLinks[0];
      productLinks := productLinks[1..];
      assert LinksView(productLinks) == old(View()).links[1..];
      StartLink(lo.prow, lo.link);
    }

    method ManageCategoryPage(row: ParserRow, i: nat)
      requires i < |pages| && pages[i].row == row
      modifies this
      ensures View() == C.ManageCategoryPage(old(View()), i)
      ensures AllRows() <= old(AllRows())
    {
      PutBack(row, i);
      if |productLinks| > 0 {
        DrainLinks();
      } else {
        LoadPage();
      }
    }

    method PutBack(row: ParserRow, i: nat)
      requires i < |pages| && pages[i].row == row
      modifies `pageActiveLoaderCount, `workersCount, `categoryPages, `pages
      ensures View() == C.PutBack(old(View()), i)
      ensures AllRows() <= old(AllRows())
    {
      pageActiveLoaderCount := pageActiveLoaderCount - 1;
      workersCount := workersCount - 1;
      assert View() == old(View()).(active := pageActiveLoaderCount, workers := workersCount);
      Prepend(row);
      RemovePage(i);
    }

    method Prepend(row: ParserRow)
      modifies `categoryPages
      ensures AllRows() == old(AllRows()) + {row}
      ensures View() == old(View()).(queue := [RowView(row)] + old(View()).queue)
    {
      categoryPages := [row] + categoryPages;
      assert RowsView(categoryPages) == [RowView(row)] + old(View()).queue;
    }

    // Page worker i is no longer live.
    method RemovePage(i: nat)
      requires i < |pages|
      modifies `pages
      ensures AllRows() <= old(AllRows())
      ensures View() == old(View()).(pages := C.Remove(old(View()).pages, i))
    {
      PagesViewRemove(pages, i);
      pages := C.Remove(pages, i);
    }

    // End of page worker i ("PageParser") or of product worker i (any other sender).
    method ManageParsers(senderName: string, i: nat)
      requires senderName == "PageParser" ==> i < |pages|
      requires senderName != "PageParser" && senderName != "TotalStop" ==> i < |products|
      modifies this
      ensures fresh(AllRows() - old(AllRows()))
      ensures View() ==
              if senderName == "TotalStop" then C.TotalStop(old(View()))
              else C.Resupply(table, if senderName == "PageParser" then C.Retire(old(View()), i)
                                     else C.RetireProduct(old(View()), i))
    {
      if senderName == "PageParser" {
        pageActiveLoaderCount := pageActiveLoaderCount - 1;
      }
      workersCount := workersCount - 1;
      ghost var c := old(View());
      assert View() == c.(active := pageActiveLoaderCount, workers := workersCount);
      if senderName == "TotalStop" {
        TotalStop();
      } else {
        if senderName == "PageParser" {
          ForgetPage(i);
        } else {
          ForgetProduct(i);
        }
        assert View() == if senderName == "PageParser" then C.Retire(c, i) else C.RetireProduct(c, i);
        Resupply();
      }
    }

    method TotalStop()
      modifies `productLinks, `categoryPages, `workersCount, `pageActiveLoaderCount, `parserOffset, `completions
      ensures AllRows() <= old(AllRows())
      ensures View() == C.TotalStop(old(View()))
    {
      productLinks := [];
      categoryPages := [];
      workersCount := 0;
      pageActiveLoaderCount := 0;
      parserOffset := 0;
      completions := completions + 1;
      assert View().pages == old(View()).pages;
    }

    // The worker that ended is no longer live.
    method ForgetPage(i: nat)
      requires i < |pages|
      modifies `pages, `past
      ensures AllRows() <= old(AllRows())
      ensures var c := old(View());
              View() == c.(pages := C.Remove(c.pages, i), finished := c.finished + [c.pages[i].row.id])
    {
      past := past.(finished := past.finished + [pages[i].row.id]);
      RemovePage(i);
    }

    method ForgetProduct(i: nat)
      requires i < |products|
      modifies `products
      ensures View() == old(View()).(products := C.Remove(old(View()).products, i))
    {
      products := C.Remove(products, i);
    }

    method Refill()
      modifies this
      ensures fresh(AllRows() - old(AllRows()))
      ensures View() == C.Refill(table, old(View()))
    {
      LoadDbData();
      ghost var read := View();
      if |categoryPages| > 0 {
        LoadPage();
        assert View() == C.LoadPage(read);
      }
    }

    method Resupply()
      modifies this
      ensures fresh(AllRows() - old(AllRows()))
      ensures View() == C.Resupply(table, old(View()))
    {
      if |productLinks| > 0 {
        DrainLinks();
      } else if |categoryPages| > 0 {
        LoadPage();
      } else {
        Refill();
        ghost var filled := View();
        if |categoryPages| <= 0 && pageActiveLoaderCount <= 0 && workersCount <= 0 {
          completions := completions + 1;
          assert View() == filled.(completions := filled.completions + 1);
        }
      }
    }
  }

  class PageParser {
    const row: ParserRow

    constructor (row: ParserRow)
      ensures this.row == row
    {
      this.row := row;
    }

    // The next-page script has answered v: the row moves on, or its chain ends.
    method RunDestructor(v: string) returns (e: EndSignal)
      modifies row`categoryUrl
      ensures e == if v != "false" then PageParseEnd(row) else ParserEnd
      ensures row.categoryUrl == if v != "false" then v else old(row.categoryUrl)
    {
      if v != "false" {
        row.categoryUrl := v;
        e := PageParseEnd(row);
      } else {
        e := ParserEnd;
      }
    }
  }

  /* ---- the event loop ---- */

  // What the page of an event's worker answers to the two scripts.
  ghost predicate Answers(site: C.Site, c: C.Crawl, e: C.Event, page: C.Page) {
    (e.LinksFound? || e.NextFound?) && e.i < |c.pages| ==> page == C.PageAt(site, c, e.i)
  }

  ghost predicate AnswersAll(site: C.Site, c: C.Crawl, es: seq<C.Event>, answers: seq<C.Page>)
    requires C.IsRun(site, c, es) && |answers| == |es|
    decreases |es|
  {
    es == [] || (Answers(site, c, es[0], answers[0])
                 && AnswersAll(site, C.Step(site, c, es[0]), es[1..], answers[1..]))
  }

  method LinksFound(ghost site: C.Site, pm: ParserMain, i: nat, page: C.Page)
    requires C.Enabled(pm.View(), C.LinksFound(i)) && page == C.PageAt(site, pm.View(), i)
    modifies pm
    ensures pm.View() == C.Step(site, old(pm.View()), C.LinksFound(i))
    ensures fresh(pm.AllRows() - old(pm.AllRows()))
  {
    pm.ManageLinks(page.links, pm.pages[i].row, i);
  }

  // Only page worker i holds its row.
  ghost predicate HeldAlone(pm: ParserMain, i: nat)
    reads pm
    requires i < |pm.pages|
  {
    && pm.pages[i].row !in pm.categoryPages
    && forall j | 0 <= j < |pm.pages| && j != i :: pm.pages[j].row != pm.pages[i].row
  }

  lemma OwnedAlone(site: C.Site, pm: ParserMain, i: nat)
    requires CrawlOwnership.Owned(site, pm.View()) && i < |pm.pages|
    ensures HeldAlone(pm, i)
  {
    var c := pm.View();
    CrawlOwnership.WorkerAlone(site, c, i);
    assert forall k | 0 <= k < |pm.categoryPages| :: c.queue[k].id == pm.categoryPages[k].id;
    assert forall j | 0 <= j < |pm.pages| :: c.pages[j].row.id == pm.pages[j].row.id;
  }

  method AnswerNextPage(pm: ParserMain, i: nat, v: string) returns (signal: EndSignal)
    requires i < |pm.pages| && HeldAlone(pm, i)
    modifies pm.pages[i].row
    ensures signal.PageParseEnd? <==> v != "false"
    ensures var c, w := old(pm.View()), old(pm.View()).pages[i];
            pm.View() == if v != "false" then c.(pages := c.pages[i := w.(row := w.row.(url := v))]) else c
  {
    ghost var c := pm.View();
    var parser := new PageParser(pm.pages[i].row);
    signal := parser.RunDestructor(v);
    assert pm.View().queue == c.queue;
  }

  // The row that runDestructor rewrites is shared with the scheduler: no row waiting in
  // the queue and no row of another worker changes.
  method NextFound(ghost site: C.Site, pm: ParserMain, i: nat, page: C.Page)
    requires C.Enabled(pm.View(), C.NextFound(i)) && page == C.PageAt(site, pm.View(), i)
    requires CrawlRuns.Reachable(site, pm.View())
    modifies pm, pm.AllRows()
    ensures pm.View() == C.Step(site, old(pm.View()), C.NextFound(i))
    ensures pm.AllRows() <= old(pm.AllRows())
  {
    CrawlRuns.ReachableOwned(site, pm.View());
    OwnedAlone(site, pm, i);
    assert pm.pages[i] in pm.pages;
    var signal := AnswerNextPage(pm, i, page.next);
    pm.SetPhase(i, C.Ended(signal.PageParseEnd?));
  }

  method PageEnded(ghost site: C.Site, pm: ParserMain, i: nat)
    requires pm.table == C.Table(site)
    requires C.Enabled(pm.View(), C.PageEnded(i))
    modifies pm
    ensures pm.View() == C.Step(site, old(pm.View()), C.PageEnded(i))
    ensures fresh(pm.AllRows() - old(pm.AllRows()))
  {
    if pm.pages[i].phase.more {
      pm.ManageCategoryPage(pm.pages[i].row, i);
    } else {
      pm.ManageParsers("PageParser", i);
    }
  }

  method Loaded(ghost site: C.Site, pm: ParserMain, e: C.Event)
    requires e.PageLoaded? || e.ProductLoaded?
    requires C.Enabled(pm.View(), e)
    modifies pm
    ensures pm.View() == C.Step(site, old(pm.View()), e)
    ensures fresh(pm.AllRows() - old(pm.AllRows()))
  {
    if e.PageLoaded? {
      var t := pm.WpFinished(pm.pages[e.i].row, "page", e.i);
    } else {
      var t := pm.WpFinished(pm.products[e.i].prow, "link", e.i);
    }
  }

  method Dispatch(ghost site: C.Site, pm: ParserMain, e: C.Event, page: C.Page)
    requires pm.table == C.Table(site) && Answers(site, pm.View(), e, page)
    requires C.Enabled(pm.View(), e) && CrawlRuns.Reachable(site, pm.View())
    modifies pm, pm.AllRows()
    ensures pm.View() == C.Step(site, old(pm.View()), e)
    ensures fresh(pm.AllRows() - old(pm.AllRows()))
  {
    match e
    case LoadTimer => pm.Load();
    case Pause => pm.Pause();
    case Resume => pm.Resume();
    case LinksFound(i) => LinksFound(site, pm, i, page);
    case NextFound(i) => NextFound(site, pm, i, page);
    case PageEnded(i) => PageEnded(site, pm, i);
    case ProductEnded(j) => pm.ManageParsers("ProductParser", j);
    case _ => Loaded(site, pm, e);
  }

  // Dispatch on the first event of a run leaves the rest of the run.
  method Turn(ghost site: C.Site, pm: ParserMain, es: seq<C.Event>, answers: seq<C.Page>)
    requires pm.table == C.Table(site) && es != [] && |answers| == |es|
    requires C.IsRun(site, pm.View(), es) && CrawlRuns.Reachable(site, pm.View())
    requires AnswersAll(site, pm.View(), es, answers)
    modifies pm, pm.AllRows()
    ensures CrawlRuns.Reachable(site, pm.View())
    ensures C.IsRun(site, pm.View(), es[1..]) && AnswersAll(site, pm.View(), es[1..], answers[1..])
    ensures C.After(site, pm.View(), es[1..]) == C.After(site, old(pm.View()), es)
    ensures fresh(pm.AllRows() - old(pm.AllRows()))
  {
    CrawlRuns.ReachableStep(site, pm.View(), es[0]);
    Dispatch(site, pm, es[0], answers[0]);
  }

  // A whole run of the program is the run of the model, event by event.
  method EventLoop(ghost site: C.Site, pm: ParserMain, es: seq<C.Event>, answers: seq<C.Page>)
    requires pm.table == C.Table(site) && |answers| == |es|
    requires C.IsRun(site, pm.View(), es) && CrawlRuns.Reachable(site, pm.View())
    requires AnswersAll(site, pm.View(), es, answers)
    modifies pm, pm.AllRows()
    ensures CrawlRuns.Reachable(site, pm.View())
    ensures pm.View() == C.After(site, old(pm.View()), es)
    ensures fresh(pm.AllRows() - old(pm.AllRows()))
    decreases |es|
  {
    if es != [] {
      Turn(site, pm, es, answers);
      EventLoop(site, pm, es[1..], answers[1..]);
    }
  }

  method Exec(table: seq<string>, max: nat, es: seq<C.Event>, answers: seq<C.Page>, ghost site: C.Site)
    returns (pm: ParserMain)
    requires 1 <= max && C.IsRun(site, C.Initial(max), es)
    requires table == C.Table(site) && |answers| == |es| && AnswersAll(site, C.Initial(max), es, answers)
    ensures pm.View() == C.After(site, C.Initial(max), es)
    ensures CrawlRuns.NeverPaused(es) && pm.completions > 0 ==> CrawlRuns.CrawledAll(site, pm.View())
  {
    pm := new ParserMain(table, max);
    assert CrawlRuns.ReachedBy(site, pm.View(), max, []);
    EventLoop(site, pm, es, answers);
    if CrawlRuns.NeverPaused(es) {
      CrawlRuns.CrawlCompleteness(site, max, es);
    }
  }
}
