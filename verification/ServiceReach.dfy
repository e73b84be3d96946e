/** States that a service can reach from the start of the process. */
module ServiceReach {
  import opened Startup
  import opened Service
  import H = Handshake
  import R = HandshakeRuns

  predicate ReachedBy(args: seq<string>, s: Service, acts: seq<Act>) {
    IsRun(Initial(args), acts) && After(Initial(args), acts) == s
  }

  ghost predicate Reached(args: seq<string>, s: Service) {
    exists acts: seq<Act> :: ReachedBy(args, s, acts)
  }

  // The service manager has sent no posting control during start-pending.
  ghost predicate PolitelyReached(args: seq<string>, s: Service) {
    exists acts: seq<Act> :: ReachedBy(args, s, acts) && IsPoliteRun(Initial(args), acts)
  }

  lemma {:induction false} RunAppend(s: Service, acts: seq<Act>, a: Act)
    requires IsRun(s, acts) && Can(After(s, acts), a)
    ensures IsRun(s, acts + [a]) && After(s, acts + [a]) == Next(After(s, acts), a)
    ensures IsPoliteRun(s, acts) && Polite(After(s, acts), a) ==> IsPoliteRun(s, acts + [a])
    decreases |acts|
  {
    if acts != [] {
      RunAppend(Next(s, acts[0]), acts[1..], a);
      assert (acts + [a])[1..] == acts[1..] + [a];
    }
  }

  lemma ReachedNext(args: seq<string>, s: Service, a: Act)
    requires Reached(args, s) && Can(s, a)
    ensures Reached(args, Next(s, a))
  {
    var acts: seq<Act> :| ReachedBy(args, s, acts);
    RunAppend(Initial(args), acts, a);
    assert ReachedBy(args, Next(s, a), acts + [a]);
  }

  lemma PolitelyReachedNext(args: seq<string>, s: Service, a: Act)
    requires PolitelyReached(args, s) && Can(s, a) && Polite(s, a)
    ensures PolitelyReached(args, Next(s, a))
  {
    var acts: seq<Act> :| ReachedBy(args, s, acts) && IsPoliteRun(Initial(args), acts);
    RunAppend(Initial(args), acts, a);
    assert ReachedBy(args, Next(s, a), acts + [a]);
  }

  lemma ReachedInitially(args: seq<string>)
    ensures PolitelyReached(args, Initial(args))
  {
    assert ReachedBy(args, Initial(args), []);
  }

  lemma ReachedInv(args: seq<string>, s: Service)
    requires Reached(args, s)
    ensures Inv(s)
  {
    var acts: seq<Act> :| ReachedBy(args, s, acts);
    InitialInv(args);
    RunKeepsInv(Initial(args), acts);
  }

  /* ---- the boot sequence ---- */

  // A state of the startup before any call of handler().
  ghost predicate BootReached(args: seq<string>, b: Boot) {
    PolitelyReached(args, Service(b, H.QUIET))
  }

  lemma BootNext(args: seq<string>, b: Boot, a: BootStep)
    requires BootReached(args, b) && CanBoot(b, a) && a != EnterHandler
    ensures BootReached(args, Booted(b, a))
  {
    PolitelyReachedNext(args, Service(b, H.QUIET), Boots(a));
  }

  lemma BootTwo(args: seq<string>, b: Boot, a1: BootStep, a2: BootStep)
    requires BootReached(args, b) && CanBoot(b, a1) && CanBoot(Booted(b, a1), a2)
    requires a1 != EnterHandler && a2 != EnterHandler
    ensures BootReached(args, Booted(Booted(b, a1), a2))
  {
    BootNext(args, b, a1);
    BootNext(args, Booted(b, a1), a2);
  }

  lemma {:induction false} AppendAll(args: seq<string>, b: Boot)
    requires BootReached(args, b) && b.service == Appending && b.serviceArgs <= b.windowsArgs
    ensures BootReached(args, b.(serviceArgs := b.windowsArgs))
    decreases |b.windowsArgs| - |b.serviceArgs|
  {
    if |b.serviceArgs| < |b.windowsArgs| {
      BootNext(args, b, AppendArg);
      AppendAll(args, Booted(b, AppendArg));
    } else {
      assert b.serviceArgs == b.windowsArgs;
    }
  }

  lemma {:induction false} ReadAll(args: seq<string>, b: Boot)
    requires BootReached(args, b) && b.main == ReadArgs
    requires b.argc == |b.serviceArgs| && b.seen <= b.serviceArgs
    ensures BootReached(args, b.(seen := b.serviceArgs))
    decreases |b.serviceArgs| - |b.seen|
  {
    if |b.seen| < |b.serviceArgs| {
      BootNext(args, b, ReadArg);
      ReadAll(args, Booted(b, ReadArg));
    } else {
      assert b.seen == b.serviceArgs;
    }
  }

  lemma ArgsAreIn(args: seq<string>)
    ensures BootReached(args,
              Boot(args, AwaitArgs, Dispatching, Appending, true, false, 0, 0, args, 0, [], false, false))
  {
    ReachedInitially(args);
    var b := Off(args);
    BootTwo(args, b, StartThread, WindowsCallsServiceMain);
    AppendAll(args, Booted(Booted(b, StartThread), WindowsCallsServiceMain));
  }

  lemma ArgsAreReleased(args: seq<string>)
    ensures BootReached(args,
              Boot(args, CheckStarted, Dispatching, AwaitSecond, true, false, 0, 0, args, 0, [], false, false))
  {
    ArgsAreIn(args);
    var b := Boot(args, AwaitArgs, Dispatching, Appending, true, false, 0, 0, args, 0, [], false, false);
    BootTwo(args, b, ArgsAppended, ReleaseFirstStep);
    BootNext(args, Booted(Booted(b, ArgsAppended), ReleaseFirstStep), AcquireFirst);
  }

  lemma ArgsAreRead(args: seq<string>)
    ensures BootReached(args,
              Boot(args, ReadArgs, Dispatching, AwaitSecond, true, false, 0, 0, args, |args|, args, false, false))
  {
    ArgsAreReleased(args);
    var b := Boot(args, CheckStarted, Dispatching, AwaitSecond, true, false, 0, 0, args, 0, [], false, false);
    BootTwo(args, b, CheckCalledOk, SizeOfArgs);
    ReadAll(args, Booted(Booted(b, CheckCalledOk), SizeOfArgs));
  }

  lemma AppIsMade(args: seq<string>)
    ensures BootReached(args,
              Boot(args, InLoop, Dispatching, AwaitSecond, true, false, 0, 1, args, |args|, args, true, true))
  {
    ArgsAreRead(args);
    var b := Boot(args, ReadArgs, Dispatching, AwaitSecond, true, false, 0, 0, args, |args|, args, false, false);
    BootTwo(args, b, ArgsRead, MakeApp(true));
    BootTwo(args, Booted(Booted(b, ArgsRead), MakeApp(true)), MakeHandler, ReleaseSecondStep);
  }

  function StartupCalled(args: seq<string>): Service {
    Service(Boot(args, InLoop, Dispatching, InHandler, true, false, 0, 0, args, |args|, args, true, true),
            H.Arrive(H.QUIET, H.STARTUP))
  }

  lemma StartupIsCalled(args: seq<string>)
    ensures PolitelyReached(args, StartupCalled(args))
  {
    AppIsMade(args);
    var b := Boot(args, InLoop, Dispatching, AwaitSecond, true, false, 0, 1, args, |args|, args, true, true);
    BootTwo(args, b, AcquireSecond, Register(true));
    PolitelyReachedNext(args, Service(Booted(Booted(b, AcquireSecond), Register(true)), H.QUIET), Boots(EnterHandler));
  }
}
