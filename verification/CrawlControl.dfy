/** The daemon of the Unix port: the command server and the crawl in one process.  The
    calls that a readyRead makes on the service are carried out before anything else. */
module CrawlControl {
  import Channel
  import C = Crawl
  import R = CrawlRuns
  import S = CommandServer

  datatype Daemon = Daemon(server: S.Server, crawl: C.Crawl)

  // A socket has input, or something happens to the crawl.
  datatype Act = Reads(input: S.Input) | Crawls(e: C.Event)

  // ParserService's constructor.
  const SERVICE_FLAGS := S.Flags(false, true)
  const NO_SOCKETS := S.Server(map[], map[], [])

  function Started(max: nat): Daemon {
    Daemon(NO_SOCKETS, C.Initial(max))
  }

  // ParserService::pause and resume.
  function Obey(site: C.Site, c: C.Crawl, calls: seq<S.Action>): C.Crawl
    decreases |calls|
  {
    if calls == [] then c
    else
      var d := match calls[0]
        case PauseService => C.Step(site, c, C.Pause)
        case ResumeService => C.Step(site, c, C.Resume)
        case _ => c;
      Obey(site, d, calls[1..])
  }

  function Served(v: S.Server, i: S.Input): S.Server {
    S.Ready(v, SERVICE_FLAGS, i.socket, i.chunk)
  }

  function Commands(v: S.Server, i: S.Input): seq<string> {
    Channel.Feed(S.Cached(v, i.socket), i.chunk).commands
  }

  // The calls that this input leads to.
  function CallsOf(v: S.Server, i: S.Input): (calls: seq<S.Action>)
    ensures Served(v, i).log == v.log + calls
    ensures calls == S.AllActions(SERVICE_FLAGS, Commands(v, i))
  {
    S.ReadyEffect(v, SERVICE_FLAGS, i.socket, i.chunk);
    Served(v, i).log[|v.log|..]
  }

  predicate Can(site: C.Site, d: Daemon, a: Act) {
    a.Crawls? ==> a.e != C.Pause && a.e != C.Resume && C.Enabled(d.crawl, a.e)
  }

  function Next(site: C.Site, d: Daemon, a: Act): Daemon
    requires Can(site, d, a)
  {
    match a
    case Reads(i) => Daemon(Served(d.server, i), Obey(site, d.crawl, CallsOf(d.server, i)))
    case Crawls(e) => d.(crawl := C.Step(site, d.crawl, e))
  }

  predicate IsRun(site: C.Site, d: Daemon, acts: seq<Act>)
    decreases |acts|
  {
    acts == [] || (Can(site, d, acts[0]) && IsRun(site, Next(site, d, acts[0]), acts[1..]))
  }

  function After(site: C.Site, d: Daemon, acts: seq<Act>): Daemon
    requires IsRun(site, d, acts)
    decreases |acts|
  {
    if acts == [] then d else After(site, Next(site, d, acts[0]), acts[1..])
  }

  /* ---- what the crawl sees of it ---- */

  function EventsOf(calls: seq<S.Action>): seq<C.Event> {
    if calls == [] then []
    else
      (match calls[0]
       case PauseService => [C.Pause]
       case ResumeService => [C.Resume]
       case _ => []) + EventsOf(calls[1..])
  }

  function Seen(d: Daemon, a: Act): seq<C.Event> {
    match a
    case Reads(i) => EventsOf(CallsOf(d.server, i))
    case Crawls(e) => [e]
  }

  function Events(site: C.Site, d: Daemon, acts: seq<Act>): seq<C.Event>
    requires IsRun(site, d, acts)
    decreases |acts|
  {
    if acts == [] then [] else Seen(d, acts[0]) + Events(site, Next(site, d, acts[0]), acts[1..])
  }

  lemma ConsAppend(e: C.Event, a: seq<C.Event>, b: seq<C.Event>)
    ensures ([e] + a) + b == [e] + (a + b)
  {
  }

  lemma {:induction false} ObeyFirst(site: C.Site, c: C.Crawl, calls: seq<S.Action>, es: seq<C.Event>)
    requires C.IsRun(site, Obey(site, c, calls), es)
    ensures C.IsRun(site, c, EventsOf(calls) + es)
    ensures C.After(site, c, EventsOf(calls) + es) == C.After(site, Obey(site, c, calls), es)
    decreases |calls|
  {
    if calls == [] {
      assert EventsOf(calls) + es == es;
    } else {
      var rest := EventsOf(calls[1..]);
      match calls[0] {
        case PauseService =>
          ObeyFirst(site, C.Step(site, c, C.Pause), calls[1..], es);
          R.RunCons(site, c, C.Pause, rest + es);
          ConsAppend(C.Pause, rest, es);
        case ResumeService =>
          ObeyFirst(site, C.Step(site, c, C.Resume), calls[1..], es);
          R.RunCons(site, c, C.Resume, rest + es);
          ConsAppend(C.Resume, rest, es);
        case _ =>
          ObeyFirst(site, c, calls[1..], es);
          assert EventsOf(calls) == rest;
      }
    }
  }

  lemma NextFirst(site: C.Site, d: Daemon, a: Act, es: seq<C.Event>)
    requires Can(site, d, a) && C.IsRun(site, Next(site, d, a).crawl, es)
    ensures C.IsRun(site, d.crawl, Seen(d, a) + es)
    ensures C.After(site, d.crawl, Seen(d, a) + es) == C.After(site, Next(site, d, a).crawl, es)
  {
    match a
    case Reads(i) => ObeyFirst(site, d.crawl, CallsOf(d.server, i), es);
    case Crawls(e) => R.RunCons(site, d.crawl, e, es);
  }

  // The crawl inside the daemon runs as a crawl with pauses and resumes among its events.
  lemma {:induction false} DaemonRunsTheCrawl(site: C.Site, d: Daemon, acts: seq<Act>)
    requires IsRun(site, d, acts)
    ensures C.IsRun(site, d.crawl, Events(site, d, acts))
    ensures C.After(site, d.crawl, Events(site, d, acts)) == After(site, d, acts).crawl
    decreases |acts|
  {
    if acts != [] {
      var next := Next(site, d, acts[0]);
      DaemonRunsTheCrawl(site, next, acts[1..]);
      NextFirst(site, d, acts[0], Events(site, next, acts[1..]));
    }
  }

  /* ---- the flag ---- */

  function Inputs(acts: seq<Act>): seq<S.Input> {
    if acts == [] then []
    else (match acts[0] case Reads(i) => [i] case Crawls(_) => []) + Inputs(acts[1..])
  }

  lemma {:induction false} ServerIsAlone(site: C.Site, d: Daemon, acts: seq<Act>)
    requires IsRun(site, d, acts)
    ensures After(site, d, acts).server == S.Serve(d.server, SERVICE_FLAGS, Inputs(acts))
    decreases |acts|
  {
    if acts != [] {
      ServerIsAlone(site, Next(site, d, acts[0]), acts[1..]);
      match acts[0] {
        case Reads(i) => assert ([i] + Inputs(acts[1..]))[1..] == Inputs(acts[1..]);
        case Crawls(_) => assert Inputs(acts) == Inputs(acts[1..]);
      }
    }
  }

  lemma DisabledByCons(disabled: bool, call: S.Action, calls: seq<S.Action>)
    ensures S.DisabledBy(disabled, [call] + calls) == S.DisabledBy(S.DisabledBy(disabled, [call]), calls)
    ensures S.DisabledBy(disabled, [call]) ==
            if call == S.PauseService then true else if call == S.ResumeService then false else disabled
  {
    S.DisabledByAppend(disabled, [call], calls);
    assert [call][..0] == [];
  }

  lemma {:induction false} ObeySetsTheFlag(site: C.Site, c: C.Crawl, calls: seq<S.Action>)
    ensures Obey(site, c, calls) == c.(disabled := S.DisabledBy(c.disabled, calls))
    decreases |calls|
  {
    if calls != [] {
      DisabledByCons(c.disabled, calls[0], calls[1..]);
      assert [calls[0]] + calls[1..] == calls;
      var d := c.(disabled := S.DisabledBy(c.disabled, [calls[0]]));
      ObeySetsTheFlag(site, d, calls[1..]);
    }
  }

  lemma EventKeepsFlag(site: C.Site, c: C.Crawl, e: C.Event)
    requires C.Enabled(c, e) && e != C.Pause && e != C.Resume
    ensures C.Step(site, c, e).disabled == c.disabled
  {
  }

  // The scheduler's flag is what the calls made so far say.
  predicate FlagFollowsLog(d: Daemon) {
    d.crawl.disabled == S.DisabledBy(false, d.server.log)
  }

  lemma {:induction false} NextKeepsFlag(site: C.Site, d: Daemon, a: Act)
    requires Can(site, d, a) && FlagFollowsLog(d)
    ensures FlagFollowsLog(Next(site, d, a))
  {
    match a
    case Reads(i) =>
      ObeySetsTheFlag(site, d.crawl, CallsOf(d.server, i));
      S.DisabledByAppend(false, d.server.log, CallsOf(d.server, i));
    case Crawls(e) => EventKeepsFlag(site, d.crawl, e);
  }

  lemma {:induction false} RunKeepsFlag(site: C.Site, d: Daemon, acts: seq<Act>)
    requires IsRun(site, d, acts) && FlagFollowsLog(d)
    ensures FlagFollowsLog(After(site, d, acts))
    decreases |acts|
  {
    if acts != [] {
      NextKeepsFlag(site, d, acts[0]);
      RunKeepsFlag(site, Next(site, d, acts[0]), acts[1..]);
    }
  }

  // In every run of the daemon the scheduler is disabled if and only if the last of all
  // pause and resume commands decoded so far, from whichever socket, is a pause.
  lemma {:induction false} SchedulerObeysLastVerdict(site: C.Site, max: nat, acts: seq<Act>)
    requires IsRun(site, Started(max), acts)
    ensures After(site, Started(max), acts).crawl.disabled ==
            S.Verdict(false, S.Merged(NO_SOCKETS, SERVICE_FLAGS, Inputs(acts)))
  {
    RunKeepsFlag(site, Started(max), acts);
    ServerIsAlone(site, Started(max), acts);
    S.LastVerdictWins(SERVICE_FLAGS, Inputs(acts), false);
  }

  /* ---- a daemon that is never told to pause ---- */

  lemma {:induction false} PauseNeedsCommand(cmds: seq<string>)
    requires C.Pause in EventsOf(S.AllActions(SERVICE_FLAGS, cmds))
    ensures "pause" in cmds
  {
    if cmds != [] {
      var a, rest := S.Actions(SERVICE_FLAGS, cmds[0]), S.AllActions(SERVICE_FLAGS, cmds[1..]);
      assert |a| == 0 ==> a + rest == rest;
      assert |a| == 1 ==> (a + rest)[1..] == rest;
      if cmds[0] != "pause" {
        PauseNeedsCommand(cmds[1..]);
      }
    }
  }

  lemma {:induction false} PausesAreCommands(site: C.Site, d: Daemon, acts: seq<Act>)
    requires IsRun(site, d, acts) && C.Pause in Events(site, d, acts)
    ensures "pause" in S.Merged(d.server, SERVICE_FLAGS, Inputs(acts))
    decreases |acts|
  {
    var next := Next(site, d, acts[0]);
    if C.Pause !in Seen(d, acts[0]) {
      PausesAreCommands(site, next, acts[1..]);
    }
    match acts[0] {
      case Reads(i) =>
        assert ([i] + Inputs(acts[1..]))[1..] == Inputs(acts[1..]);
        if C.Pause in Seen(d, acts[0]) {
          PauseNeedsCommand(Commands(d.server, i));
        }
      case Crawls(_) => assert Inputs(acts) == Inputs(acts[1..]);
    }
  }

  // If no socket ever sends a pause command, the daemon reports completion only of a
  // complete crawl, whatever else is sent and however it is cut.
  lemma {:induction false} NoPauseCommandIsComplete(site: C.Site, max: nat, acts: seq<Act>)
    requires 1 <= max && IsRun(site, Started(max), acts)
    requires "pause" !in S.Merged(NO_SOCKETS, SERVICE_FLAGS, Inputs(acts))
    ensures var c := After(site, Started(max), acts).crawl; c.completions > 0 ==> R.CrawledAll(site, c)
  {
    var d := Started(max);
    DaemonRunsTheCrawl(site, d, acts);
    if C.Pause in Events(site, d, acts) {
      PausesAreCommands(site, d, acts);
    }
    R.CrawlCompleteness(site, max, Events(site, d, acts));
  }
}
