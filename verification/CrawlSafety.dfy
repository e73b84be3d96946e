/** What every reachable state of the crawl keeps, pauses included: exact accounting,
    first-in first-out links and the bound on queued rows. */
module CrawlSafety {
  import opened Crawl

  /* ---- accounting and FIFO links ---- */

  predicate Accounted(c: Crawl) {
    && 1 <= c.max
    && 0 <= c.offset
    && c.active == |c.pages|
    && c.workers == |c.pages| + |c.products| <= c.max
  }

  // Links leave in the order they were found, and one waits only while every slot is taken.
  predicate LinksInOrder(c: Crawl) {
    && c.discovered == c.launched + c.links
    && (c.links != [] ==> c.workers == c.max)
  }

  predicate Bounded(c: Crawl) {
    |c.queue| + c.active <= 2 * c.max - 1
  }

  lemma OfferLinksKeepsOrder(c: Crawl, r: nat, urls: seq<string>)
    requires c.workers <= c.max && LinksInOrder(c)
    ensures LinksInOrder(OfferLinks(c, r, urls))
    decreases |urls|
  {
    if urls != [] {
      OfferLinksKeepsOrder(OfferLink(c, Link(r, urls[0])), r, urls[1..]);
    }
  }

  predicate Basics(c: Crawl) {
    Accounted(c) && LinksInOrder(c) && Bounded(c)
  }

  // A slot has just been freed: the only clause of Basics that may be broken is that
  // queued links wait for a full pool.
  predicate SlotFreed(c: Crawl) {
    Accounted(c) && c.discovered == c.launched + c.links && Bounded(c) && c.workers < c.max
  }

  lemma DrainLinksInOrder(c: Crawl)
    ensures DrainLinks(c).launched + DrainLinks(c).links == c.launched + c.links
    decreases |c.links|
  {
    if c.links != [] && c.workers < c.max {
      DrainLinksInOrder(LaunchFirstLink(c));
      assert c.launched + [c.links[0]] + c.links[1..] == c.launched + c.links;
    }
  }

  lemma DrainLinksKeepsBasics(c: Crawl)
    requires SlotFreed(c)
    ensures Basics(DrainLinks(c))
  {
    DrainLinksInOrder(c);
    var d := DrainLinks(c);
    assert d.pages == c.pages && d.queue == c.queue && d.discovered == c.discovered;
  }

  lemma LoadPageKeepsBasics(c: Crawl)
    requires SlotFreed(c) && c.links == []
    ensures Basics(LoadPage(c))
  {
    var d := LoadPage(c);
    assert d.links == c.links && d.products == c.products && d.discovered == c.discovered && d.launched == c.launched;
  }

  lemma RefillKeepsBasics(table: seq<string>, c: Crawl)
    requires SlotFreed(c) && c.links == [] && c.queue == []
    ensures Basics(Refill(table, c))
  {
    var d := LoadDbData(table, c);
    assert |d.queue| <= c.max;
    if d.queue != [] {
      LoadPageKeepsBasics(d);
    }
  }

  lemma ResupplyKeepsBasics(table: seq<string>, c: Crawl)
    requires SlotFreed(c)
    ensures Basics(Resupply(table, c))
  {
    if c.links != [] {
      DrainLinksKeepsBasics(c);
    } else if c.queue != [] {
      LoadPageKeepsBasics(c);
    } else {
      RefillKeepsBasics(table, c);
    }
  }

  predicate Fresh(c: Crawl) {
    !c.loaded ==> c == Initial(c.max).(disabled := c.disabled)
  }

  lemma LoadKeepsBasics(table: seq<string>, c: Crawl)
    requires 1 <= c.max && Fresh(c) && !c.loaded
    ensures Basics(Load(table, c))
  {
    var d := LoadDbData(table, c.(loaded := true, offset := 0));
    assert |d.queue| <= c.max;
    LoadPageKeepsBasics(d);
  }

  lemma LinksFoundKeepsBasics(c: Crawl, i: nat, urls: seq<string>)
    requires i < |c.pages| && Basics(c)
    ensures Basics(ManageLinks(c, i, urls))
  {
    var w := c.pages[i];
    var d := c.(pages := c.pages[i := w.(phase := LinksSent)], sent := Bump(c.sent, w.row.id));
    OfferLinksKeepsOrder(d, w.row.id, urls);
  }

  lemma CategoryPageKeepsBasics(c: Crawl, i: nat)
    requires i < |c.pages| && Basics(c)
    ensures Basics(ManageCategoryPage(c, i))
  {
    var d := PutBack(c, i);
    if d.links != [] {
      DrainLinksKeepsBasics(d);
    } else {
      LoadPageKeepsBasics(d);
    }
  }

  lemma StepKeepsBasics(site: Site, c: Crawl, e: Event)
    requires Enabled(c, e) && Basics(c) && Fresh(c)
    ensures Basics(Step(site, c, e))
  {
    match e
    case LoadTimer => LoadKeepsBasics(Table(site), c);
    case LinksFound(i) => LinksFoundKeepsBasics(c, i, PageAt(site, c, i).links);
    case PageEnded(i) =>
      if c.pages[i].phase.more {
        CategoryPageKeepsBasics(c, i);
      } else {
        ResupplyKeepsBasics(Table(site), Retire(c, i));
      }
    case ProductEnded(i) => ResupplyKeepsBasics(Table(site), RetireProduct(c, i));
    case _ =>
  }

  lemma LoadedStays(site: Site, c: Crawl, e: Event)
    requires Enabled(c, e) && Fresh(c)
    ensures Fresh(Step(site, c, e))
    ensures c.loaded ==> Step(site, c, e).loaded
    ensures Step(site, c, e).max == c.max
  {
  }
}
