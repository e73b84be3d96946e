/** In which order the rows of the table are taken up: depth first, and first launches in
    table order. */
module CrawlRows {
  import opened Crawl

  function Range(lo: int, hi: int): seq<int>
    requires lo <= hi
  {
    seq(hi - lo, k => lo + k)
  }

  /* ---- depth-first order ---- */

  // The rows in the order of their first page launch.
  function FirstLaunches(loads: seq<Row>): seq<nat> {
    if loads == [] then []
    else
      var earlier := FirstLaunches(loads[..|loads| - 1]);
      var r := loads[|loads| - 1].id;
      if r in earlier then earlier else earlier + [r]
  }

  // Rows 0..started-1 have been launched before; the queue holds some of those, then the
  // rows started..offset-1 in table order.
  predicate QueueShape(queue: seq<Row>, started: int, offset: int) {
    && 0 <= started <= offset <= started + |queue|
    && forall k | 0 <= k < |queue| ::
         var fromEnd := |queue| - k;
         if fromEnd > offset - started then queue[k].id < started else queue[k].id == offset - fromEnd
  }

  predicate DepthFirst(c: Crawl) {
    var started := |FirstLaunches(c.loads)|;
    && FirstLaunches(c.loads) == Range(0, started)
    && QueueShape(c.queue, started, c.offset)
    && forall i | 0 <= i < |c.pages| :: c.pages[i].row.id < started
  }

  // The next page launched belongs to a row already started, or else every waiting row is
  // unstarted and the launch is that of the next row of the table.
  lemma NextLaunch(c: Crawl)
    requires DepthFirst(c) && c.queue != []
    ensures var started := FirstLaunches(c.loads);
            c.queue[0].id in started ||
            (forall k | 0 <= k < |c.queue| :: c.queue[k].id == |started| + k && c.queue[k].id !in started)
  {
    var started := |FirstLaunches(c.loads)|;
    if c.queue[0].id < started {
      assert Range(0, started)[c.queue[0].id] == c.queue[0].id;
    }
  }

  lemma LaunchPageKeepsDepthFirst(c: Crawl)
    requires DepthFirst(c) && c.queue != []
    ensures DepthFirst(LaunchPage(c))
  {
    var d := LaunchPage(c);
    assert d.loads[..|d.loads| - 1] == c.loads;
    var started := |FirstLaunches(c.loads)|;
    var r := c.queue[0].id;
    if r < started {
      assert Range(0, started)[r] == r;
    } else {
      assert r !in FirstLaunches(c.loads);
      assert Range(0, started + 1) == Range(0, started) + [r];
    }
  }

  lemma LoadPageKeepsDepthFirst(c: Crawl)
    requires DepthFirst(c)
    ensures DepthFirst(LoadPage(c))
    decreases |c.queue|
  {
    if !c.disabled && c.workers < c.max && c.queue != [] {
      LaunchPageKeepsDepthFirst(c);
      LoadPageKeepsDepthFirst(LaunchPage(c));
    }
  }

  lemma RefillKeepsDepthFirst(table: seq<string>, c: Crawl)
    requires DepthFirst(c) && c.queue == []
    ensures DepthFirst(Refill(table, c))
  {
    var d := LoadDbData(table, c);
    assert DepthFirst(d);
    if d.queue != [] {
      LoadPageKeepsDepthFirst(d);
    }
  }

  lemma ResupplyKeepsDepthFirst(table: seq<string>, c: Crawl)
    requires DepthFirst(c)
    ensures DepthFirst(Resupply(table, c))
  {
    if c.links == [] && c.queue != [] {
      LoadPageKeepsDepthFirst(c);
    } else if c.links == [] {
      RefillKeepsDepthFirst(table, c);
    }
  }

  lemma CategoryPageKeepsDepthFirst(c: Crawl, i: nat)
    requires i < |c.pages| && DepthFirst(c)
    ensures DepthFirst(ManageCategoryPage(c, i))
  {
    var d := PutBack(c, i);
    assert DepthFirst(d);
    if d.links == [] {
      LoadPageKeepsDepthFirst(d);
    }
  }

  lemma StepKeepsDepthFirst(site: Site, c: Crawl, e: Event)
    requires Enabled(c, e) && DepthFirst(c)
    requires !c.loaded ==> c == Initial(c.max).(disabled := c.disabled)
    ensures DepthFirst(Step(site, c, e))
  {
    match e
    case LoadTimer =>
      var d := c.(loaded := true, offset := 0);
      var f := LoadDbData(Table(site), d);
      assert DepthFirst(f);
      LoadPageKeepsDepthFirst(f);
    case PageEnded(i) =>
      if c.pages[i].phase.more {
        CategoryPageKeepsDepthFirst(c, i);
      } else {
        ResupplyKeepsDepthFirst(Table(site), Retire(c, i));
      }
    case ProductEnded(i) => ResupplyKeepsDepthFirst(Table(site), RetireProduct(c, i));
    case _ =>
  }
}
