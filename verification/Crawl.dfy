/** The crawl as one state: the scheduler's own fields, the workers it has started and
    that have not ended yet, and the history of what was launched and found.  Every
    function below is what one slot (or one pass of one of its loops) does to that state. */
module Crawl {

  // A row of product_parsers: its position in the table and the page it stands at.
  datatype Row = Row(id: nat, url: string)

  datatype Link = Link(row: nat, url: string)

  // What the site answers for one page: the product links, and the result of the
  // next-page script, which is "false" on the last page of a chain.
  datatype Page = Page(url: string, links: seq<string>, next: string)

  const NO_NEXT_PAGE := "false"

  predicate LeadsOn(chain: seq<Page>, k: nat)
    requires k + 1 < |chain|
  {
    chain[k].next != NO_NEXT_PAGE && chain[k].next == chain[k + 1].url
  }

  predicate IsChain(chain: seq<Page>) {
    && chain != []
    && (forall k: nat | k + 1 < |chain| :: LeadsOn(chain, k))
    && chain[|chain| - 1].next == NO_NEXT_PAGE
  }

  // One finite chain of pages for each row of the table.
  type Site = s: seq<seq<Page>> | forall r | 0 <= r < |s| :: IsChain(s[r]) witness []

  // The category_url column.
  function Table(site: Site): seq<string> {
    seq(|site|, r requires 0 <= r < |site| => site[r][0].url)
  }

  // A page worker is loading, then its scripts run, then its links have been handed
  // over, then its next-page script has answered and its end event is on the way.
  datatype Phase = Loading | Parsing | LinksSent | Ended(more: bool)

  datatype PageWorker = PageWorker(row: Row, phase: Phase)

  datatype ProductWorker = ProductWorker(link: Link, loaded: bool)

  datatype Crawl = Crawl(
    loaded: bool,
    max: nat,
    // the fields of ParserMain
    disabled: bool,
    offset: int,
    workers: int,
    active: int,
    queue: seq<Row>,
    links: seq<Link>,
    // live workers
    pages: seq<PageWorker>,
    products: seq<ProductWorker>,
    // history
    finished: seq<nat>,
    loads: seq<Row>,
    discovered: seq<Link>,
    launched: seq<Link>,
    progress: map<nat, nat>,   // pages launched, by row
    sent: map<nat, nat>,       // pages whose links were handed over, by row
    completions: nat
  )

  function Initial(max: nat): Crawl {
    Crawl(false, max, false, 0, 0, 0, [], [], [], [], [], [], [], [], map[], map[], 0)
  }

  function Get(m: map<nat, nat>, r: nat): nat {
    if r in m then m[r] else 0
  }

  function Bump(m: map<nat, nat>, r: nat): (b: map<nat, nat>)
    ensures forall k: nat :: Get(b, k) == if k == r then Get(m, r) + 1 else Get(m, k)
  {
    m[r := Get(m, r) + 1]
  }

  function Remove<T>(s: seq<T>, i: nat): seq<T>
    requires i < |s|
  {
    s[..i] + s[i + 1..]
  }

  /* ---- launching ---- */

  function LaunchPage(c: Crawl): Crawl
    requires c.queue != []
  {
    var r := c.queue[0];
    c.(queue := c.queue[1..], workers := c.workers + 1, active := c.active + 1,
       pages := c.pages + [PageWorker(r, Loading)],
       loads := c.loads + [r], progress := Bump(c.progress, r.id))
  }

  function LaunchLink(c: Crawl, l: Link): Crawl {
    c.(workers := c.workers + 1, products := c.products + [ProductWorker(l, false)],
       launched := c.launched + [l])
  }

  // loadPage: nothing while disabled; otherwise fills the free slots from the queue.
  function LoadPage(c: Crawl): (d: Crawl)
    ensures d == c.(queue := d.queue, workers := d.workers, active := d.active,
                    pages := d.pages, loads := d.loads, progress := d.progress)
    ensures c.disabled ==> d == c
    ensures !c.disabled ==> d.queue == [] || d.workers >= d.max
    ensures d.workers - c.workers == |d.pages| - |c.pages| == |c.queue| - |d.queue| >= 0
    ensures d.workers <= c.workers || d.workers <= d.max
    ensures c.workers < c.max && c.queue != [] && !c.disabled ==> c.workers < d.workers
    ensures d.active - d.workers == c.active - c.workers
    decreases |c.queue|
  {
    if !c.disabled && c.workers < c.max && c.queue != [] then LoadPage(LaunchPage(c)) else c
  }

  function LaunchFirstLink(c: Crawl): Crawl
    requires c.links != []
  {
    LaunchLink(c.(links := c.links[1..]), c.links[0])
  }

  // The drain loop of manage_category_page and manage_parsers.
  function DrainLinks(c: Crawl): (d: Crawl)
    ensures d == c.(links := d.links, workers := d.workers, products := d.products, launched := d.launched)
    ensures d.workers - c.workers == |d.products| - |c.products| == |c.links| - |d.links| >= 0
    ensures d.links == [] || d.workers >= d.max
    ensures d.workers <= c.workers || d.workers <= d.max
    ensures c.workers < c.max && c.links != [] ==> c.workers < d.workers
    decreases |c.links|
  {
    if c.links != [] && c.workers < c.max then DrainLinks(LaunchFirstLink(c)) else c
  }

  // One pass of the loop of manage_links: a free slot takes the link, otherwise it is queued.
  function OfferLink(c: Crawl, l: Link): Crawl {
    var d := c.(discovered := c.discovered + [l]);
    if d.workers < d.max then LaunchLink(d, l) else d.(links := d.links + [l])
  }

  function OfferLinks(c: Crawl, r: nat, urls: seq<string>): (d: Crawl)
    ensures d == c.(links := d.links, workers := d.workers, products := d.products,
                    launched := d.launched, discovered := d.discovered)
    ensures d.discovered == c.discovered + Tagged(r, urls)
    ensures d.workers - c.workers == |d.products| - |c.products| >= 0
    ensures d.workers <= c.workers || d.workers <= d.max
    decreases |urls|
  {
    if urls == [] then c
    else
      assert Tagged(r, urls) == [Link(r, urls[0])] + Tagged(r, urls[1..]);
      OfferLinks(OfferLink(c, Link(r, urls[0])), r, urls[1..])
  }

  function Tagged(r: nat, urls: seq<string>): seq<Link> {
    seq(|urls|, k requires 0 <= k < |urls| => Link(r, urls[k]))
  }

  /* ---- the table ---- */

  // SELECT ... LIMIT offset, limit
  function Batch(table: seq<string>, offset: int, limit: nat): (b: seq<Row>)
    ensures |b| <= limit
    ensures 0 <= offset <= |table| ==> |b| == if |table| - offset <= limit then |table| - offset else limit
    ensures forall k | 0 <= k < |b| ::
              0 <= offset + k < |table| && b[k] == Row(offset + k, table[offset + k])
  {
    if !(0 <= offset <= |table|) then []
    else
      var n := if |table| - offset <= limit then |table| - offset else limit;
      seq(n, k requires 0 <= k < n => Row(offset + k, table[offset + k]))
  }

  function LoadDbData(table: seq<string>, c: Crawl): Crawl {
    if c.disabled then c
    else
      var b := Batch(table, c.offset, c.max);
      c.(offset := c.offset + |b|, queue := c.queue + b)
  }

  /* ---- slots ---- */

  function Load(table: seq<string>, c: Crawl): Crawl {
    LoadPage(LoadDbData(table, c.(loaded := true, offset := 0)))
  }

  function ManageLinks(c: Crawl, i: nat, urls: seq<string>): Crawl
    requires i < |c.pages|
  {
    var w := c.pages[i];
    OfferLinks(c.(pages := c.pages[i := w.(phase := LinksSent)], sent := Bump(c.sent, w.row.id)), w.row.id, urls)
  }

  // PageParser::runDestructor, up to the end event it emits.
  function RunDestructor(c: Crawl, i: nat, v: string): Crawl
    requires i < |c.pages|
  {
    var w := c.pages[i];
    var more := v != NO_NEXT_PAGE;
    c.(pages := c.pages[i := PageWorker(if more then w.row.(url := v) else w.row, Ended(more))])
  }

  function PutBack(c: Crawl, i: nat): Crawl
    requires i < |c.pages|
  {
    c.(active := c.active - 1, workers := c.workers - 1,
       pages := Remove(c.pages, i), queue := [c.pages[i].row] + c.queue)
  }

  function ManageCategoryPage(c: Crawl, i: nat): Crawl
    requires i < |c.pages|
  {
    var d := PutBack(c, i);
    if d.links != [] then DrainLinks(d) else LoadPage(d)
  }

  function Retire(c: Crawl, i: nat): Crawl
    requires i < |c.pages|
  {
    c.(active := c.active - 1, workers := c.workers - 1,
       pages := Remove(c.pages, i), finished := c.finished + [c.pages[i].row.id])
  }

  function RetireProduct(c: Crawl, j: nat): Crawl
    requires j < |c.products|
  {
    c.(workers := c.workers - 1, products := Remove(c.products, j))
  }

  function Refill(table: seq<string>, c: Crawl): (d: Crawl)
    ensures d == c.(offset := d.offset, queue := d.queue, workers := d.workers, active := d.active,
                    pages := d.pages, loads := d.loads, progress := d.progress)
  {
    var d := LoadDbData(table, c);
    if d.queue != [] then LoadPage(d) else d
  }

  predicate AllQuiet(c: Crawl) {
    c.queue == [] && c.active <= 0 && c.workers <= 0
  }

  // What manage_parsers does after its decrements, for every sender but "TotalStop".
  function Resupply(table: seq<string>, c: Crawl): (d: Crawl)
    ensures d.loaded == c.loaded && d.max == c.max && d.disabled == c.disabled
    ensures d.finished == c.finished && d.sent == c.sent && d.discovered == c.discovered
  {
    if c.links != [] then DrainLinks(c)
    else if c.queue != [] then LoadPage(c)
    else
      var d := Refill(table, c);
      if AllQuiet(d) then d.(completions := d.completions + 1) else d
  }

  function TotalStop(c: Crawl): Crawl {
    c.(links := [], queue := [], workers := 0, active := 0, offset := 0, completions := c.completions + 1)
  }

  /* ---- the whole system ---- */

  datatype Event =
    | LoadTimer
    | Pause
    | Resume
    | PageLoaded(i: nat)       // loadFinished of a category page
    | LinksFound(i: nat)       // getedLink reaches manage_links
    | NextFound(i: nat)        // the next-page script answers
    | PageEnded(i: nat)        // pageParseEnd or parserEnd reaches its slot
    | ProductLoaded(i: nat)
    | ProductEnded(i: nat)

  predicate IsWorkerEvent(e: Event) {
    !e.LoadTimer? && !e.Pause? && !e.Resume?
  }

  predicate Enabled(c: Crawl, e: Event) {
    match e
    case LoadTimer => !c.loaded
    case Pause => true
    case Resume => true
    case PageLoaded(i) => i < |c.pages| && c.pages[i].phase == Loading
    case LinksFound(i) => i < |c.pages| && c.pages[i].phase == Parsing
    case NextFound(i) => i < |c.pages| && c.pages[i].phase == LinksSent
    case PageEnded(i) => i < |c.pages| && c.pages[i].phase.Ended?
    case ProductLoaded(i) => i < |c.products| && !c.products[i].loaded
    case ProductEnded(i) => i < |c.products| && c.products[i].loaded
  }

  // The page that live page worker i is on.
  function PageAt(site: Site, c: Crawl, i: nat): Page
    requires i < |c.pages|
  {
    var w := c.pages[i];
    var k := Get(c.progress, w.row.id);
    if w.row.id < |site| && 0 < k <= |site[w.row.id]| then site[w.row.id][k - 1] else Page("", [], NO_NEXT_PAGE)
  }

  function Step(site: Site, c: Crawl, e: Event): Crawl
    requires Enabled(c, e)
  {
    match e
    case LoadTimer => Load(Table(site), c)
    case Pause => c.(disabled := true)
    case Resume => c.(disabled := false)
    case PageLoaded(i) => c.(pages := c.pages[i := c.pages[i].(phase := Parsing)])
    case LinksFound(i) => ManageLinks(c, i, PageAt(site, c, i).links)
    case NextFound(i) => RunDestructor(c, i, PageAt(site, c, i).next)
    case PageEnded(i) =>
      if c.pages[i].phase.more then ManageCategoryPage(c, i)
      else Resupply(Table(site), Retire(c, i))
    case ProductLoaded(i) => c.(products := c.products[i := c.products[i].(loaded := true)])
    case ProductEnded(i) => Resupply(Table(site), RetireProduct(c, i))
  }

  // A run is any list of events, each possible where it happens.
  predicate IsRun(site: Site, c: Crawl, es: seq<Event>)
    decreases |es|
  {
    es == [] || (Enabled(c, es[0]) && IsRun(site, Step(site, c, es[0]), es[1..]))
  }

  function After(site: Site, c: Crawl, es: seq<Event>): Crawl
    requires IsRun(site, c, es)
    decreases |es|
  {
    if es == [] then c else After(site, Step(site, c, es[0]), es[1..])
  }
}
