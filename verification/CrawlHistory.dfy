/** The history agrees with the site: what was launched is exactly the pages counted by
    `progress`, what was discovered is exactly the links of the pages counted by `sent`. */
module CrawlHistory {
  import opened Crawl
  import opened CrawlOwnership
  import opened Tally

  function PageLinks(r: nat, page: Page): multiset<Link> {
    multiset(Tagged(r, page.links))
  }

  // What one row's chain adds to the history, page by page.
  function LoadCells(r: nat, chain: seq<Page>): seq<multiset<Row>> {
    seq(|chain|, k requires 0 <= k < |chain| => multiset{Row(r, chain[k].url)})
  }

  function LinkCells(r: nat, chain: seq<Page>): seq<multiset<Link>> {
    seq(|chain|, k requires 0 <= k < |chain| => PageLinks(r, chain[k]))
  }

  function LoadGrid(site: Site): Grid<Row> {
    seq(|site|, r requires 0 <= r < |site| => LoadCells(r, site[r]))
  }

  function LinkGrid(site: Site): Grid<Link> {
    seq(|site|, r requires 0 <= r < |site| => LinkCells(r, site[r]))
  }

  // Every page of every row's chain, and every link on all those pages.
  function SitePages(site: Site): multiset<Row> {
    Whole(LoadGrid(site), |site|)
  }

  function SiteLinks(site: Site): multiset<Link> {
    Whole(LinkGrid(site), |site|)
  }

  // How often url u occurs among the first n pages of a chain, and as a link on them.
  function PageCount(chain: seq<Page>, n: nat, u: string): nat
    requires n <= |chain|
  {
    if n == 0 then 0 else PageCount(chain, n - 1, u) + if chain[n - 1].url == u then 1 else 0
  }

  function LinkCount(chain: seq<Page>, n: nat, u: string): nat
    requires n <= |chain|
  {
    if n == 0 then 0 else LinkCount(chain, n - 1, u) + multiset(chain[n - 1].links)[u]
  }

  lemma {:induction false} RowPages(r: nat, chain: seq<Page>, n: nat, q: nat, u: string)
    requires n <= |chain|
    ensures Prefix(LoadCells(r, chain), n)[Row(q, u)] == if q == r then PageCount(chain, n, u) else 0
  {
    if n > 0 {
      RowPages(r, chain, n - 1, q, u);
    }
  }

  lemma {:induction false} TaggedCount(r: nat, urls: seq<string>, q: nat, u: string)
    ensures multiset(Tagged(r, urls))[Link(q, u)] == if q == r then multiset(urls)[u] else 0
  {
    if urls == [] {
      assert Tagged(r, urls) == [];
    } else {
      TaggedCount(r, urls[1..], q, u);
      assert urls == [urls[0]] + urls[1..];
      assert Tagged(r, urls) == [Link(r, urls[0])] + Tagged(r, urls[1..]);
    }
  }

  lemma PageLinksCount(r: nat, page: Page, q: nat, u: string)
    ensures PageLinks(r, page)[Link(q, u)] == if q == r then multiset(page.links)[u] else 0
  {
    TaggedCount(r, page.links, q, u);
  }

  lemma SumCount<T>(a: multiset<T>, b: multiset<T>, x: T)
    ensures (a + b)[x] == a[x] + b[x]
  {
  }

  lemma {:induction false} RowLinks(r: nat, chain: seq<Page>, n: nat, q: nat, u: string)
    requires n <= |chain|
    ensures Prefix(LinkCells(r, chain), n)[Link(q, u)] == if q == r then LinkCount(chain, n, u) else 0
  {
    if n > 0 {
      var cells, page := LinkCells(r, chain), chain[n - 1];
      RowLinks(r, chain, n - 1, q, u);
      PageLinksCount(r, page, q, u);
      assert cells[n - 1] == PageLinks(r, page);
      SumCount(Prefix(cells, n - 1), PageLinks(r, page), Link(q, u));
    }
  }

  // How often url u occurs in the chain of row q, and as a link on its pages.
  function PagesOn(site: Site, q: nat, u: string): nat {
    if q < |site| then PageCount(site[q], |site[q]|, u) else 0
  }

  function LinksOn(site: Site, q: nat, u: string): nat {
    if q < |site| then LinkCount(site[q], |site[q]|, u) else 0
  }

  lemma PagesOfSite(site: Site, q: nat, u: string)
    ensures SitePages(site)[Row(q, u)] == PagesOn(site, q, u)
  {
    var grid := LoadGrid(site);
    forall r: nat | r < |site|
      ensures Prefix(grid[r], |grid[r]|)[Row(q, u)] == if q == r then PageCount(site[r], |site[r]|, u) else 0
    {
      RowPages(r, site[r], |site[r]|, q, u);
    }
    WholeOfOneRow(grid, |site|, q, Row(q, u));
  }

  lemma LinksOfSite(site: Site, q: nat, u: string)
    ensures SiteLinks(site)[Link(q, u)] == LinksOn(site, q, u)
  {
    var grid := LinkGrid(site);
    forall r: nat | r < |site|
      ensures Prefix(grid[r], |grid[r]|)[Link(q, u)] == if q == r then LinkCount(site[r], |site[r]|, u) else 0
    {
      RowLinks(r, site[r], |site[r]|, q, u);
    }
    WholeOfOneRow(grid, |site|, q, Link(q, u));
  }

  predicate Logged(site: Site, c: Crawl) {
    && multiset(c.loads) == Gather(LoadGrid(site), c.progress, |site|)
    && multiset(c.discovered) == Gather(LinkGrid(site), c.sent, |site|)
  }

  lemma LaunchPageKeepsLogged(site: Site, c: Crawl)
    requires Settled(site, c) && Logged(site, c) && c.queue != []
    ensures Logged(site, LaunchPage(c))
  {
    var row := c.queue[0];
    assert InQueue(site, c, row);
    GatherBump(LoadGrid(site), c.progress, row.id, |site|);
  }

  lemma {:induction false} LoadPageKeepsLogged(site: Site, c: Crawl)
    requires Settled(site, c) && Logged(site, c)
    ensures Logged(site, LoadPage(c))
    decreases |c.queue|
  {
    if !c.disabled && c.workers < c.max && c.queue != [] {
      LaunchPageKeepsLogged(site, c);
      LaunchPageKeepsOwned(site, c);
      LaunchPageKeepsPlaced(site, c);
      LoadPageKeepsLogged(site, LaunchPage(c));
    }
  }

  lemma ResupplyKeepsLogged(site: Site, c: Crawl)
    requires Settled(site, c) && Logged(site, c)
    ensures Logged(site, Resupply(Table(site), c))
  {
    if c.links == [] {
      if c.queue != [] {
        LoadPageKeepsLogged(site, c);
      } else {
        LoadDbDataKeepsSettled(site, c);
        LoadPageKeepsLogged(site, LoadDbData(Table(site), c));
      }
    }
  }

  lemma ManageLinksKeepsLogged(site: Site, c: Crawl, i: nat)
    requires Settled(site, c) && Logged(site, c) && i < |c.pages| && c.pages[i].phase == Parsing
    ensures Logged(site, ManageLinks(c, i, PageAt(site, c, i).links))
  {
    var w := c.pages[i];
    assert OnWorker(site, c, w);
    var page := PageAt(site, c, i);
    assert LinkGrid(site)[w.row.id][Get(c.sent, w.row.id)] == PageLinks(w.row.id, page);
    GatherBump(LinkGrid(site), c.sent, w.row.id, |site|);
    assert multiset(c.discovered + Tagged(w.row.id, page.links)) == multiset(c.discovered) + PageLinks(w.row.id, page);
  }

  lemma {:induction false} StepKeepsLogged(site: Site, c: Crawl, e: Event)
    requires Enabled(c, e) && Settled(site, c) && Logged(site, c)
    requires !c.loaded ==> c == Initial(c.max).(disabled := c.disabled)
    ensures Logged(site, Step(site, c, e))
  {
    match e
    case LoadTimer =>
      var d := c.(loaded := true, offset := 0);
      InitialSettled(site, d);
      LoadDbDataKeepsSettled(site, d);
      LoadPageKeepsLogged(site, LoadDbData(Table(site), d));
    case LinksFound(i) => ManageLinksKeepsLogged(site, c, i);
    case PageEnded(i) =>
      if c.pages[i].phase.more {
        PutBackKeepsSettled(site, c, i);
        if c.links == [] {
          LoadPageKeepsLogged(site, PutBack(c, i));
        }
      } else {
        RetireKeepsSettled(site, c, i);
        ResupplyKeepsLogged(site, Retire(c, i));
      }
    case ProductEnded(j) =>
      SettledFrame(site, c, RetireProduct(c, j));
      ResupplyKeepsLogged(site, RetireProduct(c, j));
    case _ =>
  }
}
