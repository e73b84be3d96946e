/** Who gets a slot when a worker ends: a waiting link, else the row just put back or the
    next waiting row, else the next rows of the table. */
module CrawlSlots {
  import opened Crawl
  import opened CrawlSafety
  import opened CrawlPauses

  predicate IsEnd(e: Event) {
    e.PageEnded? || e.ProductEnded?
  }

  // The rows that wait once the worker of e has ended: its own goes first if it has a next page.
  function Waiting(c: Crawl, e: Event): seq<Row>
    requires Enabled(c, e)
  {
    if e.PageEnded? && c.pages[e.i].phase.more then [c.pages[e.i].row] + c.queue else c.queue
  }

  // How many of n rows find a slot when one worker has ended.
  function Slots(c: Crawl, n: nat): (k: nat)
    requires c.workers <= c.max
    ensures k <= n && (0 < n ==> 0 < k)
  {
    var free := c.max - c.workers + 1;
    if n <= free then n else free
  }

  // A waiting link goes before every row, paused or not; one link is started and no page, and
  // the table is not read.
  lemma LinkGoesFirst(site: Site, c: Crawl, e: Event)
    requires Basics(c) && Enabled(c, e) && IsEnd(e) && c.links != []
    ensures var d := Step(site, c, e);
            && d.launched == c.launched + [c.links[0]] && d.links == c.links[1..]
            && d.loads == c.loads && d.offset == c.offset && d.queue == Waiting(c, e)
            && d.workers == c.workers && d.completions == c.completions
  {
    DrainStartsOne(c, e.i);
  }

  lemma TakeFront(taken: seq<Row>, rows: seq<Row>, n: nat)
    requires 0 < n <= |rows|
    ensures taken + rows[..n] == (taken + [rows[0]]) + rows[1..][..n - 1]
    ensures rows[n..] == rows[1..][n - 1..]
  {
  }

  lemma TakeNone(taken: seq<Row>, rows: seq<Row>, n: nat)
    requires n == 0
    ensures taken + rows[..n] == taken && rows[n..] == rows
  {
  }

  lemma {:induction false} LoadPageTakes(c: Crawl, n: nat)
    requires !c.disabled && c.workers <= c.max
    requires n == if |c.queue| <= c.max - c.workers then |c.queue| else c.max - c.workers
    ensures var d := LoadPage(c);
            && d.loads == c.loads + c.queue[..n] && d.queue == c.queue[n..] && d.workers == c.workers + n
    decreases n
  {
    if n > 0 {
      LoadPageTakes(LaunchPage(c), n - 1);
      TakeFront(c.loads, c.queue, n);
    } else {
      TakeNone(c.loads, c.queue, n);
    }
  }

  lemma PageEndTakes(c: Crawl, i: nat)
    requires Basics(c) && i < |c.pages| && c.links == [] && !c.disabled
    ensures var rows := [c.pages[i].row] + c.queue;
            var n, d := Slots(c, |rows|), ManageCategoryPage(c, i);
            d.loads == c.loads + rows[..n] && d.queue == rows[n..] && d.workers == c.workers - 1 + n
  {
    var rows := [c.pages[i].row] + c.queue;
    LoadPageTakes(PutBack(c, i), Slots(c, |rows|));
  }

  // c with one worker gone and its slot free.
  predicate Freed(c: Crawl, f: Crawl) {
    && f.workers == c.workers - 1 && f.active == |f.pages| <= f.workers && f.max == c.max
    && f.loads == c.loads && f.launched == c.launched && f.links == c.links && f.queue == c.queue
    && f.offset == c.offset && f.disabled == c.disabled && f.completions == c.completions
  }

  lemma EndResupplies(site: Site, c: Crawl, e: Event) returns (f: Crawl)
    requires Basics(c) && Enabled(c, e) && IsEnd(e) && (e.PageEnded? ==> !c.pages[e.i].phase.more)
    ensures Freed(c, f) && Step(site, c, e) == Resupply(Table(site), f)
  {
    f := if e.PageEnded? then Retire(c, e.i) else RetireProduct(c, e.i);
  }

  lemma ResupplyTakes(table: seq<string>, c: Crawl, f: Crawl)
    requires Freed(c, f) && c.workers <= c.max && c.links == [] && c.queue != [] && !c.disabled
    ensures var n, d := Slots(c, |c.queue|), Resupply(table, f);
            && d.loads == c.loads + c.queue[..n] && d.queue == c.queue[n..] && d.workers == c.workers - 1 + n
            && d == f.(loads := d.loads, queue := d.queue, workers := d.workers, active := d.active,
                       pages := d.pages, progress := d.progress)
  {
    LoadPageTakes(f, Slots(c, |c.queue|));
  }

  // With no link waiting no link is started.  While enabled, waiting rows take the free slots
  // from the front, a next page ahead of all other rows; the table is not read.
  lemma RowsGoNext(site: Site, c: Crawl, e: Event)
    requires Basics(c) && Enabled(c, e) && IsEnd(e) && c.links == [] && !c.disabled && Waiting(c, e) != []
    ensures var d, rows := Step(site, c, e), Waiting(c, e);
            var n := Slots(c, |rows|);
            && d.loads == c.loads + rows[..n] && d.queue == rows[n..] && d.workers == c.workers - 1 + n
            && d.launched == c.launched && d.links == []
            && d.offset == c.offset && d.completions == c.completions
  {
    if e.PageEnded? && c.pages[e.i].phase.more {
      PageEndTakes(c, e.i);
    } else {
      var f := EndResupplies(site, c, e);
      ResupplyTakes(Table(site), c, f);
    }
  }

  // The rows of the table from position k on, at most n of them.
  function Rows(site: Site, k: nat, n: nat): (rows: seq<Row>)
    requires k <= |site|
    ensures |rows| == if |site| - k <= n then |site| - k else n
    ensures forall i | 0 <= i < |rows| :: rows[i] == Row(k + i, site[k + i][0].url)
  {
    var size := if |site| - k <= n then |site| - k else n;
    seq(size, i requires 0 <= i < size => Row(k + i, site[k + i][0].url))
  }

  lemma BatchTakes(site: Site, c: Crawl, b: Crawl)
    requires c.workers <= c.max && 0 <= c.offset <= |site|
    requires !b.disabled && b.max == c.max && b.workers == c.workers - 1 && b.loads == c.loads
    requires b.queue == Rows(site, c.offset, c.max)
    ensures var rows, d := Rows(site, c.offset, c.max), LoadPage(b);
            var n := Slots(c, |rows|);
            d.loads == c.loads + rows[..n] && d.queue == rows[n..] && d.workers == c.workers - 1 + n
  {
    LoadPageTakes(b, Slots(c, |b.queue|));
  }

  lemma BatchIsRows(site: Site, f: Crawl)
    requires 0 <= f.offset <= |site| && !f.disabled && f.queue == []
    ensures var rows := Rows(site, f.offset, f.max);
            LoadDbData(Table(site), f) == f.(offset := f.offset + |rows|, queue := rows)
  {
    assert Batch(Table(site), f.offset, f.max) == Rows(site, f.offset, f.max);
  }

  lemma RefillTakes(site: Site, c: Crawl, f: Crawl)
    requires Freed(c, f) && 0 < c.workers <= c.max && 0 <= c.offset <= |site|
    requires c.links == [] && c.queue == [] && !c.disabled
    ensures var rows, d := Rows(site, c.offset, c.max), Refill(Table(site), f);
            var n := Slots(c, |rows|);
            && d.offset == c.offset + |rows| && d.loads == c.loads + rows[..n] && d.queue == rows[n..]
            && d.workers == c.workers - 1 + n
            && (AllQuiet(d) <==> c.offset == |site| && c.workers == 1)
  {
    var rows := Rows(site, c.offset, c.max);
    var b := LoadDbData(Table(site), f);
    BatchIsRows(site, f);
    if rows == [] {
      assert Refill(Table(site), f) == b && c.loads + rows == c.loads;
    } else {
      BatchTakes(site, c, b);
    }
  }

  // With no link and no row waiting, while enabled: the next rows of the table are read, as
  // many as there are slots in the pool, and take the free slots in table order.  Completion
  // is reported if and only if there are none and no other worker is live.
  lemma TableGoesLast(site: Site, c: Crawl, e: Event)
    requires Basics(c) && Enabled(c, e) && IsEnd(e) && c.links == [] && !c.disabled && Waiting(c, e) == []
    requires c.offset <= |site|
    ensures var d, rows := Step(site, c, e), Rows(site, c.offset, c.max);
            var n := Slots(c, |rows|);
            && d.offset == c.offset + |rows| && d.loads == c.loads + rows[..n] && d.queue == rows[n..]
            && d.launched == c.launched && d.links == []
            && d.completions == c.completions + if c.offset == |site| && c.workers == 1 then 1 else 0
  {
    var f := EndResupplies(site, c, e);
    RefillTakes(site, c, f);
  }

  // While disabled and with no link waiting nothing is started or read; the row goes back to
  // the front, and completion is reported if and only if nothing waits and nobody is live.
  lemma PausedEndStartsNothing(site: Site, c: Crawl, e: Event)
    requires Basics(c) && Enabled(c, e) && IsEnd(e) && c.links == [] && c.disabled
    ensures var d := Step(site, c, e);
            && d.loads == c.loads && d.launched == c.launched && d.links == [] && d.queue == Waiting(c, e)
            && d.offset == c.offset && d.workers == c.workers - 1
            && d.completions == c.completions + if Waiting(c, e) == [] && c.workers == 1 then 1 else 0
  {
    if !(e.PageEnded? && c.pages[e.i].phase.more) {
      var f := EndResupplies(site, c, e);
      PausedResupply(Table(site), c, f);
    }
  }

  lemma PausedResupply(table: seq<string>, c: Crawl, f: Crawl)
    requires Freed(c, f) && c.links == [] && c.disabled
    ensures var d := Resupply(table, f);
            d == f.(completions := f.completions + if c.queue == [] && c.workers <= 1 then 1 else 0)
  {
  }

  // A total stop forgets everything that waits, counts no worker, and the next batch is the
  // beginning of the table again.
  lemma TotalStopStartsOver(site: Site, c: Crawl)
    requires 1 <= c.max && !c.disabled
    ensures var d := LoadDbData(Table(site), TotalStop(c));
            && d.queue == Rows(site, 0, c.max) && d.links == [] && d.workers == 0 && d.active == 0
            && d.offset == |d.queue| && d.completions == c.completions + 1
  {
    assert Batch(Table(site), 0, c.max) == Rows(site, 0, c.max);
  }

  /* ---- the other starts ---- */

  // The load reads the first rows of the table, as many as the pool has slots, and starts them
  // all in table order.
  lemma LoadTakesTheFirstRows(site: Site, c: Crawl)
    requires 1 <= c.max && c == Initial(c.max)
    ensures var d, rows := Step(site, c, LoadTimer), Rows(site, 0, c.max);
            && d.loads == rows && d.queue == [] && d.offset == |rows| && d.workers == |rows|
            && d.launched == [] && d.completions == 0
  {
    var f := c.(loaded := true, offset := 0);
    BatchIsRows(site, f);
    var b := LoadDbData(Table(site), f);
    LoadPageTakes(b, |b.queue|);
    assert b.loads + b.queue[..|b.queue|] == b.queue;
  }

  lemma {:induction false} OffersTake(c: Crawl, r: nat, urls: seq<string>, n: nat)
    requires c.workers <= c.max
    requires n == if |urls| <= c.max - c.workers then |urls| else c.max - c.workers
    ensures var d := OfferLinks(c, r, urls);
            d.launched == c.launched + Tagged(r, urls[..n]) && d.links == c.links + Tagged(r, urls[n..])
    decreases |urls|
  {
    if urls == [] {
      assert Tagged(r, urls[..n]) == [] && Tagged(r, urls[n..]) == [];
    } else {
      var l := Link(r, urls[0]);
      var m := if n > 0 then n - 1 else 0;
      OffersTake(OfferLink(c, l), r, urls[1..], m);
      TaggedFront(c.launched, c.links, r, urls, n, m);
    }
  }

  lemma TaggedFront(launched: seq<Link>, links: seq<Link>, r: nat, urls: seq<string>, n: nat, m: nat)
    requires urls != [] && n <= |urls| && m == if n > 0 then n - 1 else 0
    ensures n > 0 ==> (launched + [Link(r, urls[0])]) + Tagged(r, urls[1..][..m]) == launched + Tagged(r, urls[..n])
    ensures n > 0 ==> urls[1..][m..] == urls[n..]
    ensures n == 0 ==> (links + [Link(r, urls[0])]) + Tagged(r, urls[1..][m..]) == links + Tagged(r, urls[n..])
    ensures n == 0 ==> Tagged(r, urls[1..][..m]) == Tagged(r, urls[..n])
  {
    if n > 0 {
      assert urls[..n] == [urls[0]] + urls[1..][..m];
      assert Tagged(r, urls[..n]) == [Link(r, urls[0])] + Tagged(r, urls[1..][..m]);
    } else {
      assert urls[n..] == urls && urls[1..][m..] == urls[1..];
      assert Tagged(r, urls) == [Link(r, urls[0])] + Tagged(r, urls[1..]);
    }
  }

  // The links of a page take the free slots in their order, paused or not; the others join the
  // end of the queue.
  lemma LinksTakeFreeSlots(site: Site, c: Crawl, i: nat)
    requires Basics(c) && Enabled(c, LinksFound(i))
    ensures var d, urls, r := Step(site, c, LinksFound(i)), PageAt(site, c, i).links, c.pages[i].row.id;
            var n := if |urls| <= c.max - c.workers then |urls| else c.max - c.workers;
            && d.launched == c.launched + Tagged(r, urls[..n]) && d.links == c.links + Tagged(r, urls[n..])
            && d.loads == c.loads && d.queue == c.queue && d.offset == c.offset
  {
    var w, urls := c.pages[i], PageAt(site, c, i).links;
    var d := c.(pages := c.pages[i := w.(phase := LinksSent)], sent := Bump(c.sent, w.row.id));
    OffersTake(d, w.row.id, urls, if |urls| <= c.max - c.workers then |urls| else c.max - c.workers);
  }
}
