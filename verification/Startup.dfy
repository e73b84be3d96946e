/** Start of the Windows service: the main thread (QtServiceBasePrivate::start), the
    dispatcher thread (HandlerThread::run) and the thread on which Windows calls
    serviceMain, coordinated by two semaphores.  Every function is one atomic step. */
module Startup {

  datatype MainPc =
    | Begin          // ht->start()
    | AwaitArgs      // startSemaphore.tryAcquire(1, 20000)
    | CheckStarted   // ht->calledOk()
    | CountArgs      // argc = serviceArgs.size()
    | ReadArgs       // copying serviceArgs
    | CreateApp      // createApplication
    | CreateHandler  // new QtServiceControllerHandler
    | ReleaseSecond  // startSemaphore2.release()
    | InLoop         // executeApplication
    | Gone           // start() has returned

  datatype DispatcherPc =
    | NotStarted
    | Dispatching    // inside StartServiceCtrlDispatcher
    | Failed         // it returned an error; success has been cleared
    | ConsoleKnown   // console has been set or the error logged
    | Ended          // startSemaphore has been released instead of serviceMain

  datatype ServicePc =
    | NotCalled
    | Appending      // the loop over dwArgc
    | ReleaseFirst   // startSemaphore.release()
    | AwaitSecond    // startSemaphore2.acquire()
    | Registering    // RegisterServiceCtrlHandler
    | CallHandler    // handler(QTSERVICE_STARTUP)
    | InHandler      // that call, and what follows it
    | GaveUp         // no status handle

  datatype Boot = Boot(
    windowsArgs: seq<string>,   // what Windows passes to serviceMain
    main: MainPc, dispatcher: DispatcherPc, service: ServicePc,
    success: bool, console: bool,
    first: nat, second: nat,    // the semaphores
    serviceArgs: seq<string>,
    argc: nat, seen: seq<string>,
    app: bool, handler: bool)

  function Off(args: seq<string>): Boot {
    Boot(args, Begin, NotStarted, NotCalled, true, false, 0, 0, [], 0, [], false, false)
  }

  datatype BootStep =
    | StartThread | AcquireFirst | TimeOut | CheckCalledOk | SizeOfArgs | ReadArg | ArgsRead
    | MakeApp(ok: bool) | MakeHandler | ReleaseSecondStep
    | DispatchFails | NoteConsole(isConsole: bool) | ReleaseInstead
    | WindowsCallsServiceMain | AppendArg | ArgsAppended | ReleaseFirstStep | AcquireSecond | Register(ok: bool)
    | EnterHandler

  predicate CanBoot(b: Boot, a: BootStep) {
    match a
    case StartThread => b.main == Begin
    case AcquireFirst => b.main == AwaitArgs && b.first > 0
    case TimeOut => b.main == AwaitArgs
    case CheckCalledOk => b.main == CheckStarted
    case SizeOfArgs => b.main == CountArgs
    case ReadArg => b.main == ReadArgs && |b.seen| < b.argc && |b.seen| < |b.serviceArgs|
    case ArgsRead => b.main == ReadArgs && |b.seen| >= b.argc
    case MakeApp(_) => b.main == CreateApp
    case MakeHandler => b.main == CreateHandler
    case ReleaseSecondStep => b.main == ReleaseSecond
    case DispatchFails => b.dispatcher == Dispatching && b.service == NotCalled
    case NoteConsole(_) => b.dispatcher == Failed
    case ReleaseInstead => b.dispatcher == ConsoleKnown
    case WindowsCallsServiceMain => b.dispatcher == Dispatching && b.service == NotCalled
    case AppendArg => b.service == Appending && |b.serviceArgs| < |b.windowsArgs|
    case ArgsAppended => b.service == Appending && |b.serviceArgs| >= |b.windowsArgs|
    case ReleaseFirstStep => b.service == ReleaseFirst
    case AcquireSecond => b.service == AwaitSecond && b.second > 0
    case Register(_) => b.service == Registering
    case EnterHandler => b.service == CallHandler
  }

  function Booted(b: Boot, a: BootStep): Boot
    requires CanBoot(b, a)
  {
    match a
    case StartThread => b.(main := AwaitArgs, dispatcher := Dispatching)
    case AcquireFirst => b.(main := CheckStarted, first := b.first - 1)
    case TimeOut => b.(main := Gone)
    case CheckCalledOk => b.(main := if b.success then CountArgs else Gone)
    case SizeOfArgs => b.(main := ReadArgs, argc := |b.serviceArgs|)
    case ReadArg => b.(seen := b.seen + [b.serviceArgs[|b.seen|]])
    case ArgsRead => b.(main := CreateApp)
    case MakeApp(ok) => if ok then b.(main := CreateHandler, app := true) else b.(main := Gone)
    case MakeHandler => b.(main := ReleaseSecond, handler := true)
    case ReleaseSecondStep => b.(main := InLoop, second := b.second + 1)
    case DispatchFails => b.(dispatcher := Failed, success := false)
    case NoteConsole(isConsole) => b.(dispatcher := ConsoleKnown, console := isConsole)
    case ReleaseInstead => b.(dispatcher := Ended, first := b.first + 1)
    case WindowsCallsServiceMain => b.(service := Appending)
    case AppendArg => b.(serviceArgs := b.serviceArgs + [b.windowsArgs[|b.serviceArgs|]])
    case ArgsAppended => b.(service := ReleaseFirst)
    case ReleaseFirstStep => b.(service := AwaitSecond, first := b.first + 1)
    case AcquireSecond => b.(service := Registering, second := b.second - 1)
    case Register(ok) => b.(service := if ok then CallHandler else GaveUp)
    case EnterHandler => b.(service := InHandler)
  }

  /* ---- the invariant ---- */

  // serviceMain has released the first semaphore.
  predicate ArgsComplete(b: Boot) {
    b.service != NotCalled && b.service != Appending && b.service != ReleaseFirst
  }

  predicate HandlerRegistered(b: Boot) {
    b.service == CallHandler || b.service == InHandler
  }

  predicate PastAcquire(b: Boot) {
    b.main in {CheckStarted, CountArgs, ReadArgs, CreateApp, CreateHandler, ReleaseSecond, InLoop}
  }

  predicate PastCheck(b: Boot) {
    PastAcquire(b) && b.main != CheckStarted
  }

  predicate ThreadsInv(b: Boot) {
    && (b.success <==> b.dispatcher == NotStarted || b.dispatcher == Dispatching)
    && (b.main == Begin <==> b.dispatcher == NotStarted)
    && (b.service != NotCalled ==> b.dispatcher == Dispatching)
    && b.serviceArgs <= b.windowsArgs
    && (b.service == NotCalled ==> b.serviceArgs == [])
    && (b.service != NotCalled && b.service != Appending ==> b.serviceArgs == b.windowsArgs)
  }

  predicate FirstInv(b: Boot) {
    PermitInv(b) && SeenInv(b)
  }

  // A permit of the first semaphore, or its use, has a reason.
  predicate PermitInv(b: Boot) {
    && (b.first > 0 || PastAcquire(b) ==> ArgsComplete(b) || b.dispatcher == Ended)
    && (PastCheck(b) ==> ArgsComplete(b) && b.success)
  }

  // How far the arguments have been copied.
  predicate SeenInv(b: Boot) {
    && (b.main == CreateApp || b.main == CreateHandler || b.main == ReleaseSecond || b.main == InLoop ==>
          b.seen == b.windowsArgs)
    && (b.main == ReadArgs ==> b.argc == |b.windowsArgs| && b.seen <= b.windowsArgs)
    && ((!PastCheck(b) && b.main != Gone) || b.main == CountArgs ==> b.seen == [])
  }

  predicate SecondInv(b: Boot) {
    && (b.second > 0 || b.service == Registering || HandlerRegistered(b) || b.service == GaveUp ==> b.app && b.handler)
    && (b.main == CreateHandler || b.main == ReleaseSecond || b.main == InLoop ==> b.app)
    && (b.main == ReleaseSecond || b.main == InLoop ==> b.handler)
  }

  predicate BootInv(b: Boot) {
    ThreadsInv(b) && FirstInv(b) && SecondInv(b)
  }

  lemma AppendKeepsPrefix(some: seq<string>, all: seq<string>)
    requires some <= all && |some| < |all|
    ensures some + [all[|some|]] <= all
  {
  }

  lemma BootKeepsThreads(b: Boot, a: BootStep)
    requires CanBoot(b, a) && ThreadsInv(b)
    ensures ThreadsInv(Booted(b, a))
  {
    if a == AppendArg {
      AppendKeepsPrefix(b.serviceArgs, b.windowsArgs);
    }
  }

  lemma BootKeepsPermits(b: Boot, a: BootStep)
    requires CanBoot(b, a) && ThreadsInv(b) && PermitInv(b)
    ensures PermitInv(Booted(b, a))
  {
  }

  lemma BootKeepsSeen(b: Boot, a: BootStep)
    requires CanBoot(b, a) && ThreadsInv(b) && PermitInv(b) && SeenInv(b)
    ensures SeenInv(Booted(b, a))
  {
    if a == ReadArg {
      AppendKeepsPrefix(b.seen, b.windowsArgs);
    }
  }

  lemma BootKeepsFirst(b: Boot, a: BootStep)
    requires CanBoot(b, a) && ThreadsInv(b) && FirstInv(b)
    ensures FirstInv(Booted(b, a))
  {
    BootKeepsPermits(b, a);
    BootKeepsSeen(b, a);
  }

  lemma BootKeepsSecond(b: Boot, a: BootStep)
    requires CanBoot(b, a) && SecondInv(b)
    ensures SecondInv(Booted(b, a))
  {
  }
}
