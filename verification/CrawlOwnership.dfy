/** Every row read from the table is in exactly one place, and stands at the right page of
    its chain. */
module CrawlOwnership {
  import opened Crawl

  function RowIds(rows: seq<Row>): seq<nat> {
    seq(|rows|, k requires 0 <= k < |rows| => rows[k].id)
  }

  function WorkerIds(pages: seq<PageWorker>): seq<nat> {
    seq(|pages|, k requires 0 <= k < |pages| => pages[k].row.id)
  }

  // How many places row r is in: the queue, the live page workers, the finished rows.
  ghost function Places(c: Crawl, r: nat): nat {
    multiset(RowIds(c.queue))[r] + multiset(WorkerIds(c.pages))[r] + multiset(c.finished)[r]
  }

  // The rows 0..offset-1 are each in exactly one place, the others in none.
  ghost predicate Owned(site: Site, c: Crawl) {
    && 0 <= c.offset <= |site|
    && forall r: nat :: Places(c, r) == if r < c.offset then 1 else 0
  }

  predicate InQueue(site: Site, c: Crawl, row: Row) {
    && row.id < |site|
    && Get(c.progress, row.id) < |site[row.id]|
    && Get(c.sent, row.id) == Get(c.progress, row.id)
    && row.url == site[row.id][Get(c.progress, row.id)].url
  }

  predicate OnWorker(site: Site, c: Crawl, w: PageWorker) {
    && w.row.id < |site|
    && var chain := site[w.row.id];
       var k := Get(c.progress, w.row.id);
       && 0 < k <= |chain|
       && Get(c.sent, w.row.id) == (if w.phase == Loading || w.phase == Parsing then k - 1 else k)
       && match w.phase
          case Ended(more) => (more <==> k < |chain|) && (more ==> w.row.url == chain[k].url)
          case _ => w.row.url == chain[k - 1].url
  }

  predicate Done(site: Site, c: Crawl, r: nat) {
    r < |site| && Get(c.progress, r) == Get(c.sent, r) == |site[r]|
  }

  ghost predicate Placed(site: Site, c: Crawl) {
    && (forall k | 0 <= k < |c.queue| :: InQueue(site, c, c.queue[k]))
    && (forall i | 0 <= i < |c.pages| :: OnWorker(site, c, c.pages[i]))
    && (forall k | 0 <= k < |c.finished| :: Done(site, c, c.finished[k]))
    && (forall r: nat | c.offset <= r :: Get(c.progress, r) == Get(c.sent, r) == 0)
  }

  ghost predicate Settled(site: Site, c: Crawl) {
    Owned(site, c) && Placed(site, c)
  }

  /* ---- one place only ---- */

  lemma RowIdsCons(rows: seq<Row>)
    requires rows != []
    ensures RowIds(rows) == [rows[0].id] + RowIds(rows[1..])
  {
  }

  lemma RowIdsAppend(a: seq<Row>, b: seq<Row>)
    ensures RowIds(a + b) == RowIds(a) + RowIds(b)
  {
  }

  lemma WorkerIdsSplit(pages: seq<PageWorker>, i: nat)
    requires i < |pages|
    ensures forall r: nat :: multiset(WorkerIds(pages))[r] ==
              multiset(WorkerIds(Remove(pages, i)))[r] + (if r == pages[i].row.id then 1 else 0)
  {
    assert WorkerIds(pages) == WorkerIds(pages[..i]) + [pages[i].row.id] + WorkerIds(pages[i + 1..]);
    assert WorkerIds(Remove(pages, i)) == WorkerIds(pages[..i]) + WorkerIds(pages[i + 1..]);
  }

  // The first row of the queue is nowhere else.
  lemma HeadAlone(site: Site, c: Crawl)
    requires Owned(site, c) && c.queue != []
    ensures var r := c.queue[0].id;
            && r < c.offset
            && (forall k | 1 <= k < |c.queue| :: c.queue[k].id != r)
            && (forall i | 0 <= i < |c.pages| :: c.pages[i].row.id != r)
            && r !in c.finished
  {
    var r := c.queue[0].id;
    RowIdsCons(c.queue);
    assert Places(c, r) == 1;
    forall k | 1 <= k < |c.queue| ensures c.queue[k].id != r {
      assert RowIds(c.queue[1..])[k - 1] == c.queue[k].id;
    }
    forall i | 0 <= i < |c.pages| ensures c.pages[i].row.id != r {
      assert WorkerIds(c.pages)[i] == c.pages[i].row.id;
    }
  }

  // The row of a live page worker is nowhere else.
  lemma WorkerAlone(site: Site, c: Crawl, i: nat)
    requires Owned(site, c) && i < |c.pages|
    ensures var r := c.pages[i].row.id;
            && r < c.offset
            && (forall k | 0 <= k < |c.queue| :: c.queue[k].id != r)
            && (forall j | 0 <= j < |c.pages| && j != i :: c.pages[j].row.id != r)
            && r !in c.finished
  {
    var r := c.pages[i].row.id;
    WorkerIdsSplit(c.pages, i);
    assert Places(c, r) == 1;
    forall k | 0 <= k < |c.queue| ensures c.queue[k].id != r {
      assert RowIds(c.queue)[k] == c.queue[k].id;
    }
    forall j | 0 <= j < |c.pages| && j != i ensures c.pages[j].row.id != r {
      var rest := Remove(c.pages, i);
      assert WorkerIds(rest)[if j < i then j else j - 1] == c.pages[j].row.id;
    }
  }

  /* ---- what keeps it ---- */

  lemma LaunchPageKeepsOwned(site: Site, c: Crawl)
    requires Owned(site, c) && c.queue != []
    ensures Owned(site, LaunchPage(c))
  {
    var d := LaunchPage(c);
    RowIdsCons(c.queue);
    assert WorkerIds(d.pages) == WorkerIds(c.pages) + [c.queue[0].id];
    forall r: nat ensures Places(d, r) == Places(c, r) {
    }
  }

  lemma LaunchPageKeepsPlaced(site: Site, c: Crawl)
    requires Settled(site, c) && c.queue != []
    ensures Placed(site, LaunchPage(c))
  {
    HeadAlone(site, c);
    var d := LaunchPage(c);
    assert InQueue(site, c, c.queue[0]);
    forall k | 0 <= k < |d.queue| ensures InQueue(site, d, d.queue[k]) {
      assert d.queue[k] == c.queue[k + 1];
    }
    forall i | 0 <= i < |d.pages| ensures OnWorker(site, d, d.pages[i]) {
      if i < |c.pages| {
        assert OnWorker(site, c, c.pages[i]);
      }
    }
    forall k | 0 <= k < |d.finished| ensures Done(site, d, d.finished[k]) {
      assert Done(site, c, c.finished[k]);
    }
  }

  lemma {:induction false} LoadPageKeepsSettled(site: Site, c: Crawl)
    requires Settled(site, c)
    ensures Settled(site, LoadPage(c))
    decreases |c.queue|
  {
    if !c.disabled && c.workers < c.max && c.queue != [] {
      LaunchPageKeepsOwned(site, c);
      LaunchPageKeepsPlaced(site, c);
      LoadPageKeepsSettled(site, LaunchPage(c));
    }
  }

  lemma {:induction false} BatchOnce(n: nat, b: seq<Row>, r: nat)
    requires forall k | 0 <= k < |b| :: b[k].id == n + k
    ensures multiset(RowIds(b))[r] == if n <= r < n + |b| then 1 else 0
  {
    if b == [] {
      assert RowIds(b) == [];
    } else {
      var a := b[..|b| - 1];
      BatchOnce(n, a, r);
      assert RowIds(b) == RowIds(a) + [n + |a|];
    }
  }

  lemma LoadDbDataKeepsOwned(site: Site, c: Crawl)
    requires Owned(site, c)
    ensures Owned(site, LoadDbData(Table(site), c))
  {
    if !c.disabled {
      var b := Batch(Table(site), c.offset, c.max);
      var d := LoadDbData(Table(site), c);
      RowIdsAppend(c.queue, b);
      forall r: nat ensures Places(d, r) == if r < d.offset then 1 else 0 {
        assert Places(c, r) == if r < c.offset then 1 else 0;
        BatchOnce(c.offset, b, r);
      }
    }
  }

  lemma LoadDbDataKeepsSettled(site: Site, c: Crawl)
    requires Settled(site, c)
    ensures Settled(site, LoadDbData(Table(site), c))
  {
    LoadDbDataKeepsOwned(site, c);
    var d := LoadDbData(Table(site), c);
    if !c.disabled {
      forall k | 0 <= k < |d.queue| ensures InQueue(site, d, d.queue[k]) {
        if k < |c.queue| {
          assert InQueue(site, c, c.queue[k]);
        }
      }
      assert forall i | 0 <= i < |c.pages| :: OnWorker(site, c, c.pages[i]) ==> OnWorker(site, d, d.pages[i]);
      assert forall k | 0 <= k < |c.finished| :: Done(site, c, c.finished[k]) ==> Done(site, d, d.finished[k]);
    }
  }

  // Settled speaks only of these fields.
  lemma SettledFrame(site: Site, c: Crawl, d: Crawl)
    requires Settled(site, c)
    requires d.offset == c.offset && d.queue == c.queue && d.pages == c.pages && d.finished == c.finished
    requires d.progress == c.progress && d.sent == c.sent
    ensures Settled(site, d)
  {
    forall r: nat ensures Places(d, r) == Places(c, r) {
    }
    assert forall k | 0 <= k < |c.queue| :: InQueue(site, c, c.queue[k]) ==> InQueue(site, d, d.queue[k]);
    assert forall i | 0 <= i < |c.pages| :: OnWorker(site, c, c.pages[i]) ==> OnWorker(site, d, d.pages[i]);
    assert forall k | 0 <= k < |c.finished| :: Done(site, c, c.finished[k]) ==> Done(site, d, d.finished[k]);
  }

  lemma ResupplyKeepsSettled(site: Site, c: Crawl)
    requires Settled(site, c)
    ensures Settled(site, Resupply(Table(site), c))
  {
    var d := Resupply(Table(site), c);
    if c.links != [] {
      SettledFrame(site, c, d);
    } else if c.queue != [] {
      LoadPageKeepsSettled(site, c);
    } else {
      LoadDbDataKeepsSettled(site, c);
      LoadPageKeepsSettled(site, LoadDbData(Table(site), c));
      SettledFrame(site, Refill(Table(site), c), d);
    }
  }

  // Rewriting one worker's entry, its row staying the same row.
  lemma ReplaceWorker(site: Site, c: Crawl, i: nat, w: PageWorker, sent: map<nat, nat>)
    requires Settled(site, c) && i < |c.pages| && w.row.id == c.pages[i].row.id
    requires forall r: nat | r != w.row.id :: Get(sent, r) == Get(c.sent, r)
    requires OnWorker(site, c.(sent := sent), w)
    ensures Settled(site, c.(pages := c.pages[i := w], sent := sent))
  {
    WorkerAlone(site, c, i);
    var d := c.(pages := c.pages[i := w], sent := sent);
    assert Owned(site, d) by {
      assert WorkerIds(d.pages) == WorkerIds(c.pages);
      forall r: nat ensures Places(d, r) == Places(c, r) {
      }
    }
    forall k | 0 <= k < |c.queue| ensures InQueue(site, d, d.queue[k]) {
      assert InQueue(site, c, c.queue[k]);
    }
    forall j | 0 <= j < |d.pages| ensures OnWorker(site, d, d.pages[j]) {
      if j != i {
        assert OnWorker(site, c, c.pages[j]);
      }
    }
    forall k | 0 <= k < |c.finished| ensures Done(site, d, d.finished[k]) {
      assert Done(site, c, c.finished[k]);
    }
  }

  lemma ManageLinksKeepsSettled(site: Site, c: Crawl, i: nat, urls: seq<string>)
    requires Settled(site, c) && i < |c.pages| && c.pages[i].phase == Parsing
    ensures Settled(site, ManageLinks(c, i, urls))
  {
    var w := c.pages[i];
    assert OnWorker(site, c, w);
    ReplaceWorker(site, c, i, w.(phase := LinksSent), Bump(c.sent, w.row.id));
    SettledFrame(site, c.(pages := c.pages[i := w.(phase := LinksSent)], sent := Bump(c.sent, w.row.id)),
                 ManageLinks(c, i, urls));
  }

  lemma RunDestructorKeepsSettled(site: Site, c: Crawl, i: nat)
    requires Settled(site, c) && i < |c.pages| && c.pages[i].phase == LinksSent
    ensures Settled(site, RunDestructor(c, i, PageAt(site, c, i).next))
  {
    var w := c.pages[i];
    assert OnWorker(site, c, w);
    var chain, k := site[w.row.id], Get(c.progress, w.row.id);
    assert IsChain(chain);
    assert k < |chain| ==> LeadsOn(chain, k - 1);
    ReplaceWorker(site, c, i, RunDestructor(c, i, PageAt(site, c, i).next).pages[i], c.sent);
  }

  lemma PutBackKeepsSettled(site: Site, c: Crawl, i: nat)
    requires Settled(site, c) && i < |c.pages| && c.pages[i].phase == Ended(true)
    ensures Settled(site, PutBack(c, i))
  {
    var d := PutBack(c, i);
    var w := c.pages[i];
    assert OnWorker(site, c, w);
    assert d.queue[1..] == c.queue;
    assert Owned(site, d) by {
      WorkerIdsSplit(c.pages, i);
      RowIdsCons(d.queue);
      forall r: nat ensures Places(d, r) == Places(c, r) {
      }
    }
    forall k | 0 <= k < |d.queue| ensures InQueue(site, d, d.queue[k]) {
      if k > 0 {
        assert InQueue(site, c, c.queue[k - 1]);
      }
    }
    forall j | 0 <= j < |d.pages| ensures OnWorker(site, d, d.pages[j]) {
      assert OnWorker(site, c, c.pages[if j < i then j else j + 1]);
    }
    assert forall k | 0 <= k < |c.finished| :: Done(site, c, c.finished[k]) ==> Done(site, d, d.finished[k]);
  }

  lemma RetireKeepsSettled(site: Site, c: Crawl, i: nat)
    requires Settled(site, c) && i < |c.pages| && c.pages[i].phase == Ended(false)
    ensures Settled(site, Retire(c, i))
  {
    var d := Retire(c, i);
    assert OnWorker(site, c, c.pages[i]);
    assert Owned(site, d) by {
      WorkerIdsSplit(c.pages, i);
      forall r: nat ensures Places(d, r) == Places(c, r) {
      }
    }
    assert forall k | 0 <= k < |c.queue| :: InQueue(site, c, c.queue[k]) ==> InQueue(site, d, d.queue[k]);
    forall j | 0 <= j < |d.pages| ensures OnWorker(site, d, d.pages[j]) {
      assert OnWorker(site, c, c.pages[if j < i then j else j + 1]);
    }
    forall k | 0 <= k < |d.finished| ensures Done(site, d, d.finished[k]) {
      if k < |c.finished| {
        assert Done(site, c, c.finished[k]);
      }
    }
  }

  lemma InitialSettled(site: Site, c: Crawl)
    requires c == Initial(c.max).(disabled := c.disabled, loaded := c.loaded)
    ensures Settled(site, c)
  {
    assert RowIds([]) == [] && WorkerIds([]) == [];
  }

  lemma StepKeepsSettled(site: Site, c: Crawl, e: Event)
    requires Enabled(c, e) && Settled(site, c)
    requires !c.loaded ==> c == Initial(c.max).(disabled := c.disabled)
    ensures Settled(site, Step(site, c, e))
  {
    match e
    case LoadTimer =>
      var d := c.(loaded := true, offset := 0);
      InitialSettled(site, d);
      LoadDbDataKeepsSettled(site, d);
      LoadPageKeepsSettled(site, LoadDbData(Table(site), d));
    case PageLoaded(i) =>
      assert OnWorker(site, c, c.pages[i]);
      ReplaceWorker(site, c, i, c.pages[i].(phase := Parsing), c.sent);
    case LinksFound(i) => ManageLinksKeepsSettled(site, c, i, PageAt(site, c, i).links);
    case NextFound(i) => RunDestructorKeepsSettled(site, c, i);
    case PageEnded(i) =>
      if c.pages[i].phase.more {
        PutBackKeepsSettled(site, c, i);
        var d := PutBack(c, i);
        if d.links != [] {
          SettledFrame(site, d, DrainLinks(d));
        } else {
          LoadPageKeepsSettled(site, d);
        }
      } else {
        RetireKeepsSettled(site, c, i);
        ResupplyKeepsSettled(site, Retire(c, i));
      }
    case ProductEnded(j) =>
      SettledFrame(site, c, RetireProduct(c, j));
      ResupplyKeepsSettled(site, RetireProduct(c, j));
    case _ => SettledFrame(site, c, Step(site, c, e));
  }
}
