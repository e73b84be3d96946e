/** How the startup ends, and what it takes to get a call of handler() made. */
module StartupEnds {
  import opened Startup
  import S = Service
  import H = Handshake

  /* ---- nobody waits for a permit that is there ---- */

  predicate TookSecond(b: Boot) {
    b.service in {Registering, CallHandler, InHandler, GaveUp}
  }

  // Every permit released is there until it is taken.
  predicate FirstCounts(b: Boot) {
    b.main == Begin || b.main == AwaitArgs ==>
      b.first == (if ArgsComplete(b) then 1 else 0) + if b.dispatcher == Ended then 1 else 0
  }

  predicate SecondCounts(b: Boot) {
    b.second + (if TookSecond(b) then 1 else 0) == if b.main == InLoop then 1 else 0
  }

  predicate PermitsCount(b: Boot) {
    FirstCounts(b) && SecondCounts(b)
  }

  lemma BootKeepsFirstCount(b: Boot, a: BootStep)
    requires CanBoot(b, a) && ThreadsInv(b) && FirstCounts(b)
    ensures FirstCounts(Booted(b, a))
  {
  }

  lemma BootKeepsSecondCount(b: Boot, a: BootStep)
    requires CanBoot(b, a) && SecondCounts(b)
    ensures SecondCounts(Booted(b, a))
  {
  }

  lemma BootKeepsCount(b: Boot, a: BootStep)
    requires CanBoot(b, a) && ThreadsInv(b) && PermitsCount(b)
    ensures PermitsCount(Booted(b, a))
  {
    BootKeepsFirstCount(b, a);
    BootKeepsSecondCount(b, a);
  }

  // The timeout of start() is never the only way on: the arguments are on their way, or the
  // dispatcher's failure is, or the permit is there.
  lemma TimeOutIsNoNeed(b: Boot)
    requires CanBoot(b, TimeOut) && ThreadsInv(b) && PermitsCount(b)
    ensures exists a: BootStep :: a != TimeOut && CanBoot(b, a)
  {
    var a := if b.first > 0 then AcquireFirst
             else if b.dispatcher == Failed then NoteConsole(true)
             else if b.dispatcher == ConsoleKnown then ReleaseInstead
             else if b.service == NotCalled then WindowsCallsServiceMain
             else if b.service == ReleaseFirst then ReleaseFirstStep
             else if |b.serviceArgs| < |b.windowsArgs| then AppendArg
             else ArgsAppended;
    assert CanBoot(b, a);
  }

  ghost predicate BootDone(b: Boot) {
    forall a: BootStep :: !CanBoot(b, a)
  }

  // Once no step of the startup is left: the event loop is reached, and serviceMain has called
  // handler() or could not register; or start() has given up, and then serviceMain, if Windows
  // has called it, waits for the second semaphore for ever.
  lemma StartupEndsExactly(b: Boot)
    requires ThreadsInv(b) && FirstInv(b) && PermitsCount(b) && BootDone(b)
    ensures b.main == InLoop || b.main == Gone
    ensures b.main == InLoop ==> b.service == InHandler || b.service == GaveUp
    ensures b.main == Gone ==> b.service == AwaitSecond || b.service == NotCalled
    ensures b.service == NotCalled <==> b.dispatcher == Ended
  {
    MainEnds(b);
    DispatcherEnds(b);
    ServiceMainEnds(b);
  }

  lemma MainEnds(b: Boot)
    requires BootDone(b)
    ensures b.main == InLoop || b.main == Gone || (b.main == ReadArgs && |b.serviceArgs| <= |b.seen| < b.argc)
  {
    assert !CanBoot(b, StartThread) && !CanBoot(b, TimeOut) && !CanBoot(b, CheckCalledOk) &&
           !CanBoot(b, SizeOfArgs) && !CanBoot(b, ReadArg) && !CanBoot(b, ArgsRead);
    assert !CanBoot(b, MakeApp(true)) && !CanBoot(b, MakeHandler) && !CanBoot(b, ReleaseSecondStep);
  }

  lemma DispatcherEnds(b: Boot)
    requires BootDone(b)
    ensures b.dispatcher == NotStarted || b.dispatcher == Ended || b.dispatcher == Dispatching
    ensures b.service == NotCalled ==> b.dispatcher != Dispatching
  {
    assert !CanBoot(b, WindowsCallsServiceMain) && !CanBoot(b, NoteConsole(true)) && !CanBoot(b, ReleaseInstead);
  }

  lemma ServiceMainEnds(b: Boot)
    requires BootDone(b)
    ensures b.service in {NotCalled, AwaitSecond, InHandler, GaveUp}
    ensures b.service == AwaitSecond ==> b.second == 0
  {
    assert !CanBoot(b, AppendArg) && !CanBoot(b, ArgsAppended) && !CanBoot(b, ReleaseFirstStep);
    assert !CanBoot(b, AcquireSecond) && !CanBoot(b, Register(true)) && !CanBoot(b, EnterHandler);
  }

  lemma {:induction false} RunKeepsCount(s: S.Service, acts: seq<S.Act>)
    requires S.IsRun(s, acts) && S.Inv(s) && PermitsCount(s.boot)
    ensures S.Inv(S.After(s, acts)) && PermitsCount(S.After(s, acts).boot)
    decreases |acts|
  {
    if acts != [] {
      S.NextKeepsInv(s, acts[0]);
      if acts[0].Boots? {
        BootKeepsCount(s.boot, acts[0].b);
      }
      RunKeepsCount(S.Next(s, acts[0]), acts[1..]);
    }
  }

  // In every run from process start.
  lemma StartupEndsFromStart(args: seq<string>, acts: seq<S.Act>)
    requires S.IsRun(S.Initial(args), acts) && BootDone(S.After(S.Initial(args), acts).boot)
    ensures var b := S.After(S.Initial(args), acts).boot;
            && (b.main == InLoop || b.main == Gone)
            && (b.main == InLoop ==> b.service == InHandler || b.service == GaveUp)
            && (b.main == Gone ==> b.service == AwaitSecond || b.service == NotCalled)
            && (b.service == NotCalled <==> b.dispatcher == Ended)
  {
    S.InitialInv(args);
    RunKeepsCount(S.Initial(args), acts);
    StartupEndsExactly(S.After(S.Initial(args), acts).boot);
  }

  /* ---- what a call of handler() takes ---- */

  predicate Registered(acts: seq<S.Act>) {
    S.Boots(Register(true)) in acts
  }

  predicate AppMade(acts: seq<S.Act>) {
    S.Boots(MakeApp(true)) in acts
  }

  lemma {:induction false} CallsNeedRegistration(s: S.Service, acts: seq<S.Act>)
    requires S.IsRun(s, acts) && !HandlerRegistered(s.boot) && s.control.calls == [] && !Registered(acts)
    ensures S.After(s, acts).control.calls == []
    decreases |acts|
  {
    if acts != [] {
      StepNeedsRegistration(s, acts[0]);
      assert acts[0] in acts && forall a | a in acts[1..] :: a in acts;
      CallsNeedRegistration(S.Next(s, acts[0]), acts[1..]);
    }
  }

  lemma StepNeedsRegistration(s: S.Service, a: S.Act)
    requires S.Can(s, a) && !HandlerRegistered(s.boot) && s.control.calls == [] && a != S.Boots(Register(true))
    ensures !HandlerRegistered(S.Next(s, a).boot) && S.Next(s, a).control.calls == []
  {
    if a.Steps? {
      H.StepKeepsCodes(s.control, a.a);
    }
  }

  lemma {:induction false} AppNeedsMaking(s: S.Service, acts: seq<S.Act>)
    requires S.IsRun(s, acts) && !s.boot.app && !AppMade(acts)
    ensures !S.After(s, acts).boot.app
    decreases |acts|
  {
    if acts != [] {
      assert acts[0] in acts && forall a | a in acts[1..] :: a in acts;
      AppNeedsMaking(S.Next(s, acts[0]), acts[1..]);
    }
  }

  // In every run from process start: handler() is called only if the handler could be
  // registered and the application could be created.
  lemma CallsNeedAll(args: seq<string>, acts: seq<S.Act>)
    requires S.IsRun(S.Initial(args), acts) && S.After(S.Initial(args), acts).control.calls != []
    ensures Registered(acts) && AppMade(acts)
  {
    S.StartupOrder(args, acts);
    if !Registered(acts) {
      CallsNeedRegistration(S.Initial(args), acts);
    } else if !AppMade(acts) {
      AppNeedsMaking(S.Initial(args), acts);
    }
  }

  /* ---- from a console ---- */

  predicate IsKnown(b: Boot) {
    b.dispatcher == ConsoleKnown || b.dispatcher == Ended
  }

  predicate NotedConsole(acts: seq<S.Act>) {
    S.Boots(NoteConsole(true)) in acts
  }

  lemma {:induction false} ConsoleStays(s: S.Service, acts: seq<S.Act>)
    requires S.IsRun(s, acts) && IsKnown(s.boot) && ThreadsStarted(s.boot)
    ensures IsKnown(S.After(s, acts).boot) && S.After(s, acts).boot.console == s.boot.console && !NotedConsole(acts)
    decreases |acts|
  {
    if acts != [] {
      if acts[0].Boots? {
        BootAfterKnown(s.boot, acts[0].b);
      }
      ConsoleStays(S.Next(s, acts[0]), acts[1..]);
      assert acts == [acts[0]] + acts[1..];
    }
  }

  lemma BootAfterKnown(b: Boot, a: BootStep)
    requires CanBoot(b, a) && IsKnown(b) && ThreadsStarted(b)
    ensures IsKnown(Booted(b, a)) && ThreadsStarted(Booted(b, a))
    ensures Booted(b, a).console == b.console && !a.NoteConsole?
  {
  }

  predicate ThreadsStarted(b: Boot) {
    b.main == Begin <==> b.dispatcher == NotStarted
  }

  lemma BootBeforeKnown(b: Boot, a: BootStep)
    requires CanBoot(b, a) && !IsKnown(b) && ThreadsStarted(b) && !b.console
    ensures ThreadsStarted(Booted(b, a)) && (IsKnown(Booted(b, a)) <==> a.NoteConsole?)
    ensures Booted(b, a).console <==> a == NoteConsole(true)
  {
  }

  // What start() finds in the console flag is what the dispatcher thread noted.
  lemma {:induction false} ConsoleIsNoted(s: S.Service, acts: seq<S.Act>)
    requires S.IsRun(s, acts) && !IsKnown(s.boot) && ThreadsStarted(s.boot) && !s.boot.console
    ensures S.After(s, acts).boot.console <==> NotedConsole(acts)
    decreases |acts|
  {
    if acts != [] {
      var next := S.Next(s, acts[0]);
      if acts[0].Boots? {
        BootBeforeKnown(s.boot, acts[0].b);
      }
      assert acts == [acts[0]] + acts[1..];
      if IsKnown(next.boot) {
        ConsoleStays(next, acts[1..]);
      } else {
        ConsoleIsNoted(next, acts[1..]);
      }
    }
  }

  lemma ConsoleFromStart(args: seq<string>, acts: seq<S.Act>)
    requires S.IsRun(S.Initial(args), acts)
    ensures S.After(S.Initial(args), acts).boot.console <==> NotedConsole(acts)
  {
    ConsoleIsNoted(S.Initial(args), acts);
  }
}
