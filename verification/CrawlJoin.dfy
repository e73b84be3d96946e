/** The crawl with its product workers waiting for the translation service: a product worker
    ends only when the join of its replies emits the end. */
module CrawlJoin {
  import opened Crawl
  import opened CrawlSafety
  import opened CrawlHistory
  import opened CrawlRuns
  import opened CrawlTermination
  import J = ReplyJoin

  // The site, and what the service answers for the product behind each link: one reply for
  // each language.
  datatype World = World(site: Site, languages: nat, info: J.Info, answers: Link -> seq<J.Translation>)

  ghost predicate IsWorld(w: World) {
    0 < w.languages && forall l: Link :: |w.answers(l)| == w.languages
  }

  // The replies of a product decode to different languages.
  predicate Joins(w: World, l: Link) {
    J.Distinct(J.Langs(w.answers(l)))
  }

  // The replies that each live product worker has had.
  datatype Joined = Joined(crawl: Crawl, got: seq<seq<J.Translation>>)

  datatype Act = Crawls(e: Event) | Replies(i: nat, t: J.Translation)

  predicate Emitted(w: World, got: seq<J.Translation>) {
    J.After(w.languages, w.info, got, |got|).ended > 0
  }

  // Replies come in any order, each once, after the product page has loaded.
  predicate Can(w: World, s: Joined, a: Act) {
    match a
    case Crawls(e) =>
      Enabled(s.crawl, e) && (e.ProductEnded? ==> e.i < |s.got| && Emitted(w, s.got[e.i]))
    case Replies(i, t) =>
      && i < |s.crawl.products| && i < |s.got| && s.crawl.products[i].loaded
      && multiset(s.got[i] + [t]) <= multiset(w.answers(s.crawl.products[i].link))
  }

  // New workers have had no reply.
  function Pad(got: seq<seq<J.Translation>>, n: nat): seq<seq<J.Translation>> {
    if |got| <= n then got + seq(n - |got|, _ => []) else got
  }

  function Next(w: World, s: Joined, a: Act): Joined
    requires Can(w, s, a)
  {
    match a
    case Crawls(e) =>
      var d := Step(w.site, s.crawl, e);
      Joined(d, Pad(if e.ProductEnded? then Remove(s.got, e.i) else s.got, |d.products|))
    case Replies(i, t) => s.(got := s.got[i := s.got[i] + [t]])
  }

  predicate IsJoinedRun(w: World, s: Joined, acts: seq<Act>)
    decreases |acts|
  {
    acts == [] || (Can(w, s, acts[0]) && IsJoinedRun(w, Next(w, s, acts[0]), acts[1..]))
  }

  function AfterActs(w: World, s: Joined, acts: seq<Act>): Joined
    requires IsJoinedRun(w, s, acts)
    decreases |acts|
  {
    if acts == [] then s else AfterActs(w, Next(w, s, acts[0]), acts[1..])
  }

  function Start(max: nat): Joined {
    Joined(Initial(max), [])
  }

  /* ---- its crawl is a crawl ---- */

  function EventsOf(acts: seq<Act>): seq<Event> {
    if acts == [] then []
    else (match acts[0] case Crawls(e) => [e] case Replies(_, _) => []) + EventsOf(acts[1..])
  }

  lemma {:induction false} JoinedRunsTheCrawl(w: World, s: Joined, acts: seq<Act>)
    requires IsJoinedRun(w, s, acts)
    ensures IsRun(w.site, s.crawl, EventsOf(acts))
    ensures After(w.site, s.crawl, EventsOf(acts)) == AfterActs(w, s, acts).crawl
    decreases |acts|
  {
    if acts != [] {
      JoinedRunsTheCrawl(w, Next(w, s, acts[0]), acts[1..]);
      match acts[0] {
        case Crawls(e) => RunCons(w.site, s.crawl, e, EventsOf(acts[1..]));
        case Replies(_, _) => assert EventsOf(acts) == EventsOf(acts[1..]);
      }
    }
  }

  /* ---- what a step does to the product workers ---- */

  function LinksOfWorkers(products: seq<ProductWorker>): seq<Link> {
    seq(|products|, k requires 0 <= k < |products| => products[k].link)
  }

  // New product workers come at the end, not loaded, and are logged as launched.
  predicate Extends(c: Crawl, d: Crawl) {
    && c.products <= d.products
    && (forall k | |c.products| <= k < |d.products| :: !d.products[k].loaded)
    && d.launched == c.launched + LinksOfWorkers(d.products[|c.products|..])
  }

  lemma ExtendsTwice(c: Crawl, d: Crawl, e: Crawl)
    requires Extends(c, d) && Extends(d, e)
    ensures Extends(c, e)
  {
    var n, m := |c.products|, |d.products|;
    assert e.products[n..] == d.products[n..] + e.products[m..];
    assert LinksOfWorkers(e.products[n..]) ==
           LinksOfWorkers(d.products[n..]) + LinksOfWorkers(e.products[m..]);
    assert e.launched == (c.launched + LinksOfWorkers(d.products[n..])) + LinksOfWorkers(e.products[m..]);
  }

  lemma LaunchExtends(c: Crawl, l: Link)
    ensures Extends(c, LaunchLink(c, l))
  {
    assert LaunchLink(c, l).products[|c.products|..] == [ProductWorker(l, false)];
    assert LinksOfWorkers([ProductWorker(l, false)]) == [l];
  }

  lemma {:induction false} DrainExtends(c: Crawl)
    ensures Extends(c, DrainLinks(c))
    decreases |c.links|
  {
    if c.links != [] && c.workers < c.max {
      var d := c.(links := c.links[1..]);
      LaunchExtends(d, c.links[0]);
      DrainExtends(LaunchFirstLink(c));
      ExtendsTwice(c, LaunchFirstLink(c), DrainLinks(c));
    } else {
      assert LinksOfWorkers(c.products[|c.products|..]) == [];
    }
  }

  lemma OfferExtends(c: Crawl, l: Link)
    ensures Extends(c, OfferLink(c, l))
  {
    var d := c.(discovered := c.discovered + [l]);
    LaunchExtends(d, l);
    assert LinksOfWorkers(c.products[|c.products|..]) == [];
  }

  lemma {:induction false} OffersExtend(c: Crawl, r: nat, urls: seq<string>)
    ensures Extends(c, OfferLinks(c, r, urls))
    decreases |urls|
  {
    if urls == [] {
      assert LinksOfWorkers(c.products[|c.products|..]) == [];
    } else {
      var l := Link(r, urls[0]);
      OfferExtends(c, l);
      OffersExtend(OfferLink(c, l), r, urls[1..]);
      ExtendsTwice(c, OfferLink(c, l), OfferLinks(c, r, urls));
    }
  }

  lemma SameExtends(c: Crawl, d: Crawl)
    requires d.products == c.products && d.launched == c.launched
    ensures Extends(c, d)
  {
    assert LinksOfWorkers(c.products[|c.products|..]) == [];
  }

  lemma ResupplyExtends(table: seq<string>, c: Crawl)
    ensures Extends(c, Resupply(table, c))
  {
    if c.links != [] {
      DrainExtends(c);
    } else {
      SameExtends(c, Resupply(table, c));
    }
  }

  // The crawl with the product worker of e changed or gone, and nobody launched.
  function Base(c: Crawl, e: Event): Crawl
    requires Enabled(c, e)
  {
    match e
    case ProductEnded(j) => RetireProduct(c, j)
    case ProductLoaded(j) => c.(products := c.products[j := c.products[j].(loaded := true)])
    case _ => c
  }

  lemma StepExtends(site: Site, c: Crawl, e: Event)
    requires Enabled(c, e)
    ensures Extends(Base(c, e), Step(site, c, e))
  {
    match e
    case LinksFound(i) =>
      var w := c.pages[i];
      var d := c.(pages := c.pages[i := w.(phase := LinksSent)], sent := Bump(c.sent, w.row.id));
      OffersExtend(d, w.row.id, PageAt(site, c, i).links);
    case PageEnded(i) =>
      if c.pages[i].phase.more {
        var d := PutBack(c, i);
        if d.links != [] {
          DrainExtends(d);
        } else {
          SameExtends(c, Step(site, c, e));
        }
      } else {
        ResupplyExtends(Table(site), Retire(c, i));
      }
    case ProductEnded(j) => ResupplyExtends(Table(site), RetireProduct(c, j));
    case _ => SameExtends(Base(c, e), Step(site, c, e));
  }

  /* ---- the invariant ---- */

  // What a worker has had are replies for its product.
  predicate IsServed(w: World, p: ProductWorker, got: seq<J.Translation>) {
    (!p.loaded ==> got == []) && multiset(got) <= multiset(w.answers(p.link))
  }

  predicate AllServed(w: World, s: Joined) {
    && |s.got| == |s.crawl.products|
    && forall k | 0 <= k < |s.got| :: IsServed(w, s.crawl.products[k], s.got[k])
  }

  predicate IsLive(c: Crawl, l: Link) {
    exists k :: 0 <= k < |c.products| && c.products[k].link == l
  }

  // Live workers have been launched, and a worker whose replies do not join stays.
  predicate KeepsClashes(w: World, c: Crawl) {
    && (forall k | 0 <= k < |c.products| :: c.products[k].link in c.launched)
    && (forall l | l in c.launched && !Joins(w, l) :: IsLive(c, l))
  }

  ghost predicate JoinedInv(w: World, s: Joined) {
    IsWorld(w) && Inv(w.site, s.crawl) && AllServed(w, s) && KeepsClashes(w, s.crawl)
  }

  lemma EmittedExactly(w: World, p: ProductWorker, got: seq<J.Translation>)
    requires IsWorld(w) && IsServed(w, p, got)
    ensures |got| <= w.languages
    ensures Emitted(w, got) <==> |got| == w.languages && Joins(w, p.link)
  {
    J.EndedExactly(w.languages, w.info, w.answers(p.link), got);
  }

  lemma ExtendsServed(w: World, c: Crawl, d: Crawl, got: seq<seq<J.Translation>>)
    requires AllServed(w, Joined(c, got)) && Extends(c, d)
    ensures AllServed(w, Joined(d, Pad(got, |d.products|)))
  {
  }

  lemma ExtendsClashes(w: World, c: Crawl, d: Crawl)
    requires KeepsClashes(w, c) && Extends(c, d)
    ensures KeepsClashes(w, d)
  {
    var n := |c.products|;
    forall k | 0 <= k < |d.products| ensures d.products[k].link in d.launched {
      if k >= n {
        assert LinksOfWorkers(d.products[n..])[k - n] == d.products[k].link;
      } else {
        assert c.products[k].link in c.launched;
      }
    }
    forall l | l in d.launched && !Joins(w, l) ensures IsLive(d, l) {
      if l in c.launched {
        var k :| 0 <= k < |c.products| && c.products[k].link == l;
        assert d.products[k].link == l;
      } else {
        var k :| 0 <= k < |d.products[n..]| && LinksOfWorkers(d.products[n..])[k] == l;
        assert d.products[n + k].link == l;
      }
    }
  }

  lemma RemoveServed(w: World, c: Crawl, got: seq<seq<J.Translation>>, j: nat)
    requires AllServed(w, Joined(c, got)) && j < |got|
    ensures AllServed(w, Joined(RetireProduct(c, j), Remove(got, j)))
  {
    forall k | 0 <= k < |got| - 1 ensures IsServed(w, Remove(c.products, j)[k], Remove(got, j)[k]) {
      var i := if k < j then k else k + 1;
      assert IsServed(w, c.products[i], got[i]);
    }
  }

  lemma BaseServed(w: World, s: Joined, e: Event)
    requires AllServed(w, s) && Enabled(s.crawl, e)
    ensures AllServed(w, Joined(Base(s.crawl, e), if e.ProductEnded? then Remove(s.got, e.i) else s.got))
  {
    match e
    case ProductEnded(j) => RemoveServed(w, s.crawl, s.got, j);
    case ProductLoaded(j) => assert IsServed(w, s.crawl.products[j], s.got[j]);
    case _ =>
  }

  lemma RemoveClashes(w: World, c: Crawl, j: nat)
    requires KeepsClashes(w, c) && j < |c.products| && Joins(w, c.products[j].link)
    ensures KeepsClashes(w, RetireProduct(c, j))
  {
    var d := RetireProduct(c, j);
    forall l | l in d.launched && !Joins(w, l) ensures IsLive(d, l) {
      var k :| 0 <= k < |c.products| && c.products[k].link == l;
      assert d.products[if k > j then k - 1 else k].link == l;
    }
  }

  lemma LoadedClashes(w: World, c: Crawl, d: Crawl)
    requires KeepsClashes(w, c) && d.launched == c.launched && |d.products| == |c.products|
    requires forall k | 0 <= k < |c.products| :: d.products[k].link == c.products[k].link
    ensures KeepsClashes(w, d)
  {
    forall l | l in d.launched && !Joins(w, l) ensures IsLive(d, l) {
      var k :| 0 <= k < |c.products| && c.products[k].link == l;
      assert d.products[k].link == l;
    }
  }

  lemma BaseClashes(w: World, c: Crawl, e: Event)
    requires KeepsClashes(w, c) && Enabled(c, e) && (e.ProductEnded? ==> Joins(w, c.products[e.i].link))
    ensures KeepsClashes(w, Base(c, e))
  {
    match e
    case ProductEnded(j) => RemoveClashes(w, c, j);
    case _ => LoadedClashes(w, c, Base(c, e));
  }

  lemma {:induction false} NextKeepsJoinedInv(w: World, s: Joined, a: Act)
    requires Can(w, s, a) && JoinedInv(w, s)
    ensures JoinedInv(w, Next(w, s, a))
  {
    match a
    case Crawls(e) =>
      StepKeepsInv(w.site, s.crawl, e);
      StepExtends(w.site, s.crawl, e);
      if e.ProductEnded? {
        EmittedExactly(w, s.crawl.products[e.i], s.got[e.i]);
      }
      var base := Base(s.crawl, e);
      BaseServed(w, s, e);
      BaseClashes(w, s.crawl, e);
      ExtendsServed(w, base, Step(w.site, s.crawl, e), if e.ProductEnded? then Remove(s.got, e.i) else s.got);
      ExtendsClashes(w, base, Step(w.site, s.crawl, e));
    case Replies(_, _) =>
  }

  lemma {:induction false} RunKeepsJoinedInv(w: World, s: Joined, acts: seq<Act>)
    requires IsJoinedRun(w, s, acts) && JoinedInv(w, s)
    ensures JoinedInv(w, AfterActs(w, s, acts))
    decreases |acts|
  {
    if acts != [] {
      NextKeepsJoinedInv(w, s, acts[0]);
      RunKeepsJoinedInv(w, Next(w, s, acts[0]), acts[1..]);
    }
  }

  lemma StartInv(w: World, max: nat)
    requires IsWorld(w) && 1 <= max
    ensures JoinedInv(w, Start(max))
  {
    InitialInv(w.site, max);
  }

  /* ---- one clash keeps the crawl from completing ---- */

  // Once a product whose replies clash has been launched, its worker holds a slot in every
  // later state, paused or not, and completion is never reported.
  lemma {:induction false} ClashBlocksCompletion(w: World, max: nat, acts: seq<Act>, l: Link)
    requires IsWorld(w) && 1 <= max && IsJoinedRun(w, Start(max), acts)
    requires l in AfterActs(w, Start(max), acts).crawl.launched && !Joins(w, l)
    ensures var c := AfterActs(w, Start(max), acts).crawl; IsLive(c, l) && c.completions == 0
  {
    StartInv(w, max);
    RunKeepsJoinedInv(w, Start(max), acts);
    var c := AfterActs(w, Start(max), acts).crawl;
    assert IsLive(c, l);
    assert c.workers > 0;
  }

  // No worker can do anything and no reply is on its way.
  ghost predicate Finished(w: World, s: Joined) {
    s.crawl.loaded && forall a: Act | a.Replies? || IsWorkerEvent(a.e) :: !Can(w, s, a)
  }

  lemma MissingReply(all: seq<J.Translation>, got: seq<J.Translation>) returns (t: J.Translation)
    requires multiset(got) <= multiset(all) && |got| < |all|
    ensures multiset(got + [t]) <= multiset(all)
  {
    var rest := multiset(all) - multiset(got);
    assert multiset(all) == multiset(got) + rest;
    assert |all| == |multiset(all)| && |got| == |multiset(got)|;
    assert |rest| > 0;
    t :| t in rest;
    assert multiset(got + [t]) == multiset(got) + multiset{t};
  }

  // A live worker whose replies join can load, take a reply or end.
  lemma JoiningWorkerGoesOn(w: World, s: Joined, k: nat) returns (a: Act)
    requires IsWorld(w) && AllServed(w, s) && k < |s.crawl.products| && Joins(w, s.crawl.products[k].link)
    ensures (a.Replies? || IsWorkerEvent(a.e)) && Can(w, s, a)
  {
    var p, got := s.crawl.products[k], s.got[k];
    assert IsServed(w, p, got);
    EmittedExactly(w, p, got);
    if !p.loaded {
      a := Crawls(ProductLoaded(k));
    } else if |got| < w.languages {
      var t := MissingReply(w.answers(p.link), got);
      a := Replies(k, t);
    } else {
      a := Crawls(ProductEnded(k));
    }
  }

  lemma FinishedWorkersClash(w: World, s: Joined, k: nat)
    requires JoinedInv(w, s) && Finished(w, s) && k < |s.crawl.products|
    ensures !Joins(w, s.crawl.products[k].link)
  {
    if Joins(w, s.crawl.products[k].link) {
      var a := JoiningWorkerGoesOn(w, s, k);
    }
  }

  lemma FinishedHasNoPages(w: World, s: Joined)
    requires Finished(w, s)
    ensures s.crawl.pages == []
  {
    if s.crawl.pages != [] {
      var e := match s.crawl.pages[0].phase
               case Loading => PageLoaded(0)
               case Parsing => LinksFound(0)
               case LinksSent => NextFound(0)
               case Ended(_) => PageEnded(0);
      assert Can(w, s, Crawls(e)) && IsWorkerEvent(e);
    }
  }

  ghost predicate SiteJoins(w: World) {
    forall l: Link | LinksOn(w.site, l.row, l.url) > 0 :: Joins(w, l)
  }

  lemma LaunchedIsOnSite(site: Site, c: Crawl, l: Link)
    requires Inv(site, c) && l in c.launched
    ensures LinksOn(site, l.row, l.url) > 0
  {
    HistoryWithin(site, c);
    LinksOfSite(site, l.row, l.url);
    assert l in c.discovered && l in multiset(c.discovered);
    assert l in SiteLinks(site) && l == Link(l.row, l.url);
  }

  // A maximal run that was never paused reports completion if and only if the table is not
  // empty and every product of the site has replies that decode to different languages.
  lemma {:induction false} CompletesExactly(w: World, max: nat, acts: seq<Act>)
    requires IsWorld(w) && 1 <= max && IsJoinedRun(w, Start(max), acts)
    requires NeverPaused(EventsOf(acts)) && Finished(w, AfterActs(w, Start(max), acts))
    ensures AfterActs(w, Start(max), acts).crawl.completions == 1 <==> w.site != [] && SiteJoins(w)
  {
    var s := AfterActs(w, Start(max), acts);
    var c := s.crawl;
    StartInv(w, max);
    RunKeepsJoinedInv(w, Start(max), acts);
    JoinedRunsTheCrawl(w, Start(max), acts);
    FinishedHasNoPages(w, s);
    if c.products == [] {
      LiveMeansEnabled(c);
      MaximalRuns(w.site, max, EventsOf(acts));
      forall l: Link | LinksOn(w.site, l.row, l.url) > 0 ensures Joins(w, l) {
        assert multiset(c.launched)[Link(l.row, l.url)] > 0;
        assert l in c.launched;
      }
    } else {
      FinishedWorkersClash(w, s, 0);
      LaunchedIsOnSite(w.site, c, c.products[0].link);
      assert c.workers > 0;
    }
  }
}
