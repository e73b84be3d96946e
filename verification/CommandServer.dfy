/** The service's end of the channel (QtServiceSysPrivate of the Unix port) and the
    controller's. */
module CommandServer {
  import opened Channel
  import opened Numbers

  datatype Flags = Flags(cannotBeStopped: bool, canBeSuspended: bool)

  // The calls made on the service.
  datatype Action = Stop | PauseService | ResumeService | ProcessCommand(code: int)

  /* ---- one command ---- */

  const NUM := "num:"

  function Actions(flags: Flags, cmd: string): seq<Action> {
    if cmd == "terminate" then (if flags.cannotBeStopped then [] else [Stop])
    else if cmd == "pause" then (if flags.canBeSuspended then [PauseService] else [])
    else if cmd == "resume" then (if flags.canBeSuspended then [ResumeService] else [])
    else if cmd == "alive" then []
    else if |cmd| > 4 && cmd[..4] == NUM then [ProcessCommand(ToInt(cmd[4..]))]
    else []
  }

  function Accepted(flags: Flags, cmd: string): bool {
    if cmd == "terminate" then !flags.cannotBeStopped
    else if cmd == "pause" || cmd == "resume" then flags.canBeSuspended
    else cmd == "alive" || (|cmd| > 4 && cmd[..4] == NUM)
  }

  function Reply(flags: Flags, cmd: string): string {
    if Accepted(flags, cmd) then "true" else "false"
  }

  function AllActions(flags: Flags, cmds: seq<string>): seq<Action> {
    if cmds == [] then [] else Actions(flags, cmds[0]) + AllActions(flags, cmds[1..])
  }

  // One reply for each command, in order.
  function Replies(flags: Flags, cmds: seq<string>): seq<string> {
    seq(|cmds|, k requires 0 <= k < |cmds| => Reply(flags, cmds[k]))
  }

  /* ---- the server ---- */

  datatype Server = Server(cache: map<Socket, string>, written: map<Socket, seq<string>>, log: seq<Action>)

  function Cached(v: Server, s: Socket): string {
    if s in v.cache then v.cache[s] else ""
  }

  function Written(v: Server, s: Socket): seq<string> {
    if s in v.written then v.written[s] else []
  }

  function Execute(v: Server, flags: Flags, s: Socket, cmd: string): Server {
    v.(written := v.written[s := Written(v, s) + [Reply(flags, cmd)]], log := v.log + Actions(flags, cmd))
  }

  function ExecuteAll(v: Server, flags: Flags, s: Socket, cmds: seq<string>): Server
    decreases |cmds|
  {
    if cmds == [] then v else ExecuteAll(Execute(v, flags, s, cmds[0]), flags, s, cmds[1..])
  }

  // Everything that can be taken out of the cache of s is taken and executed.
  function Drain(v: Server, flags: Flags, s: Socket): Server {
    var t := Take(Cached(v, s));
    ExecuteAll(v.(cache := v.cache[s := t.left]), flags, s, t.commands)
  }

  // What one readyRead of socket s does.
  function Ready(v: Server, flags: Flags, s: Socket, chunk: string): Server {
    Drain(v.(cache := v.cache[s := Cached(v, s) + chunk]), flags, s)
  }

  // What the loop still has to do once cmd has been taken out.
  function Pending(v: Server, flags: Flags, s: Socket, cmd: string): Server {
    if cmd == "" then v else Drain(Execute(v, flags, s, cmd), flags, s)
  }

  function FirstLine(v: Server, s: Socket): string {
    var p := IndexOfCrlf(Cached(v, s));
    if p >= 0 then Cached(v, s)[..p] else ""
  }

  // The cache of s after its first line is taken out, as getCommand leaves it.
  function Popped(v: Server, s: Socket): Server {
    var p := IndexOfCrlf(Cached(v, s));
    if p >= 0 then v.(cache := v.cache[s := Cached(v, s)[p + 2..]]) else v
  }

  lemma DrainByPopping(v: Server, flags: Flags, s: Socket)
    requires s in v.cache
    ensures Drain(v, flags, s) == Pending(Popped(v, s), flags, s, FirstLine(v, s))
    ensures s in Popped(v, s).cache
    ensures FirstLine(v, s) != "" ==> |Cached(Popped(v, s), s)| < |Cached(v, s)|
    ensures |Cached(Popped(v, s), s)| <= |Cached(v, s)|
  {
    var c, p := Cached(v, s), IndexOfCrlf(Cached(v, s));
    if p < 0 {
      assert v.cache[s := c] == v.cache;
    } else if p > 0 {
      var t := Take(c[p + 2..]);
      assert v.cache[s := c[p + 2..]][s := t.left] == v.cache[s := t.left];
      assert ([c[..p]] + t.commands)[1..] == t.commands;
    }
  }

  class QtServiceSysPrivate {
    const serviceFlags: Flags
    var cache: map<Socket, string>
    var written: map<Socket, seq<string>>   // the replies written to each socket
    var log: seq<Action>                    // the calls made on the service

    function View(): Server
      reads this
    {
      Server(cache, written, log)
    }

    constructor (flags: Flags)
      ensures serviceFlags == flags && View() == Server(map[], map[], [])
    {
      serviceFlags := flags;
      cache, written, log := map[], map[], [];
    }

    method GetCommand(socket: Socket) returns (cmd: string)
      requires socket in cache
      modifies this`cache
      ensures cmd == FirstLine(old(View()), socket)
      ensures View() == Popped(old(View()), socket)
    {
      var pos := IndexOfCrlf(cache[socket]);
      if pos >= 0 {
        cmd := cache[socket][..pos];
        cache := cache[socket := cache[socket][pos + 2..]];
        return;
      }
      cmd := "";
    }

    method SlotReady(s: Socket, chunk: string)
      modifies this
      ensures View() == Ready(old(View()), serviceFlags, s, chunk)
    {
      cache := cache[s := (if s in cache then cache[s] else "") + chunk];
      ghost var start := View();
      DrainByPopping(start, serviceFlags, s);
      var cmd := GetCommand(s);
      while cmd != ""
        invariant s in cache
        invariant Pending(View(), serviceFlags, s, cmd) == Drain(start, serviceFlags, s)
        decreases |cache[s]|, |cmd|
      {
        Run(s, cmd);
        DrainByPopping(View(), serviceFlags, s);
        cmd := GetCommand(s);
      }
    }

    method Run(s: Socket, cmd: string)
      modifies this`written, this`log
      ensures View() == Execute(old(View()), serviceFlags, s, cmd)
    {
      var retValue := false;
      if cmd == "terminate" {
        if !serviceFlags.cannotBeStopped {
          log := log + [Stop];
          retValue := true;
        }
      } else if cmd == "pause" {
        if serviceFlags.canBeSuspended {
          log := log + [PauseService];
          retValue := true;
        }
      } else if cmd == "resume" {
        if serviceFlags.canBeSuspended {
          log := log + [ResumeService];
          retValue := true;
        }
      } else if cmd == "alive" {
        retValue := true;
      } else if |cmd| > 4 && cmd[..4] == NUM {
        log := log + [ProcessCommand(ToInt(cmd[4..]))];
        retValue := true;
      }
      var retString := if retValue then "true" else "false";
      written := written[s := (if s in written then written[s] else []) + [retString]];
    }
  }

  /* ---- many sockets ---- */

  datatype Input = Input(socket: Socket, chunk: string)

  function Serve(v: Server, flags: Flags, inputs: seq<Input>): Server
    decreases |inputs|
  {
    if inputs == [] then v else Serve(Ready(v, flags, inputs[0].socket, inputs[0].chunk), flags, inputs[1..])
  }

  // The chunks of one socket.
  function ChunksOf(inputs: seq<Input>, s: Socket): seq<string> {
    if inputs == [] then []
    else if inputs[0].socket == s then [inputs[0].chunk] + ChunksOf(inputs[1..], s)
    else ChunksOf(inputs[1..], s)
  }

  // All commands in the order in which they are decoded, whatever their socket.
  function Merged(v: Server, flags: Flags, inputs: seq<Input>): seq<string>
    decreases |inputs|
  {
    if inputs == [] then []
    else
      var i := inputs[0];
      Feed(Cached(v, i.socket), i.chunk).commands +
      Merged(Ready(v, flags, i.socket, i.chunk), flags, inputs[1..])
  }

  lemma RepliesAppend(flags: Flags, a: seq<string>, b: seq<string>)
    ensures Replies(flags, a + b) == Replies(flags, a) + Replies(flags, b)
  {
  }

  lemma Assoc<T>(a: seq<T>, b: seq<T>, c: seq<T>)
    ensures (a + b) + c == a + (b + c)
  {
  }

  lemma {:induction false} ActionsAppend(flags: Flags, a: seq<string>, b: seq<string>)
    ensures AllActions(flags, a + b) == AllActions(flags, a) + AllActions(flags, b)
  {
    if a == [] {
      assert a + b == b;
    } else {
      ActionsAppend(flags, a[1..], b);
      assert (a + b)[1..] == a[1..] + b && (a + b)[0] == a[0];
      Assoc(Actions(flags, a[0]), AllActions(flags, a[1..]), AllActions(flags, b));
    }
  }

  lemma {:induction false} ExecuteAllEffect(v: Server, flags: Flags, s: Socket, cmds: seq<string>)
    ensures var w := ExecuteAll(v, flags, s, cmds);
            && w.cache == v.cache
            && w.log == v.log + AllActions(flags, cmds)
            && Written(w, s) == Written(v, s) + Replies(flags, cmds)
            && forall t: Socket | t != s :: Written(w, t) == Written(v, t)
    decreases |cmds|
  {
    if cmds != [] {
      var c, rest := cmds[0], cmds[1..];
      ExecuteAllEffect(Execute(v, flags, s, c), flags, s, rest);
      assert [c] + rest == cmds;
      RepliesAppend(flags, [c], rest);
      assert Replies(flags, [c]) == [Reply(flags, c)];
      Assoc(Written(v, s), [Reply(flags, c)], Replies(flags, rest));
      Assoc(v.log, Actions(flags, c), AllActions(flags, rest));
    }
  }

  lemma ReadyEffect(v: Server, flags: Flags, s: Socket, chunk: string)
    ensures var w, t := Ready(v, flags, s, chunk), Feed(Cached(v, s), chunk);
            && Cached(w, s) == t.left
            && w.log == v.log + AllActions(flags, t.commands)
            && Written(w, s) == Written(v, s) + Replies(flags, t.commands)
            && forall u: Socket | u != s :: Written(w, u) == Written(v, u) && Cached(w, u) == Cached(v, u)
  {
    var c := v.(cache := v.cache[s := Cached(v, s) + chunk]);
    var t := Take(Cached(c, s));
    ExecuteAllEffect(c.(cache := c.cache[s := t.left]), flags, s, t.commands);
  }

  // Whatever other sockets send in between, a socket's commands, replies and leftover are
  // those of its own chunks alone.
  lemma {:induction false} SocketIsolation(v: Server, flags: Flags, inputs: seq<Input>, s: Socket)
    ensures var w, own := Serve(v, flags, inputs), FeedAll(Cached(v, s), ChunksOf(inputs, s));
            && Cached(w, s) == own.left
            && Written(w, s) == Written(v, s) + Replies(flags, own.commands)
    decreases |inputs|
  {
    if inputs != [] {
      var i := inputs[0];
      var next := Ready(v, flags, i.socket, i.chunk);
      ReadyEffect(v, flags, i.socket, i.chunk);
      SocketIsolation(next, flags, inputs[1..], s);
      if i.socket == s {
        var first := Feed(Cached(v, s), i.chunk);
        var rest := FeedAll(first.left, ChunksOf(inputs[1..], s));
        assert ChunksOf(inputs, s)[1..] == ChunksOf(inputs[1..], s);
        RepliesAppend(flags, first.commands, rest.commands);
        Assoc(Written(v, s), Replies(flags, first.commands), Replies(flags, rest.commands));
      }
    }
  }

  // A socket whose stream is settled gets one reply for each command of the whole stream.
  lemma RepliesOfSettledStream(flags: Flags, inputs: seq<Input>, s: Socket)
    requires Settled(Join(ChunksOf(inputs, s)))
    ensures var w, t := Serve(Server(map[], map[], []), flags, inputs), Take(Join(ChunksOf(inputs, s)));
            Written(w, s) == Replies(flags, t.commands) && Cached(w, s) == t.left
  {
    SocketIsolation(Server(map[], map[], []), flags, inputs, s);
    ChunkIndependence(Join(ChunksOf(inputs, s)));
  }

  /* ---- pausing the crawl ---- */

  // ParserService::pause and resume set the scheduler's flag.
  function DisabledBy(disabled: bool, log: seq<Action>): bool {
    if log == [] then disabled
    else
      match log[|log| - 1]
      case PauseService => true
      case ResumeService => false
      case _ => DisabledBy(disabled, log[..|log| - 1])
  }

  // The verdict of the last "pause" or "resume" among the commands.
  function Verdict(disabled: bool, cmds: seq<string>): bool {
    if cmds == [] then disabled
    else if cmds[|cmds| - 1] == "pause" then true
    else if cmds[|cmds| - 1] == "resume" then false
    else Verdict(disabled, cmds[..|cmds| - 1])
  }

  lemma {:induction false} DisabledByAppend(disabled: bool, a: seq<Action>, b: seq<Action>)
    ensures DisabledBy(disabled, a + b) == DisabledBy(DisabledBy(disabled, a), b)
  {
    if b == [] {
      assert a + b == a;
    } else {
      assert (a + b)[..|a + b| - 1] == a + b[..|b| - 1];
      DisabledByAppend(disabled, a, b[..|b| - 1]);
    }
  }

  lemma {:induction false} VerdictOfActions(flags: Flags, disabled: bool, cmds: seq<string>)
    ensures DisabledBy(disabled, AllActions(flags, cmds)) ==
            if flags.canBeSuspended then Verdict(disabled, cmds) else disabled
  {
    if cmds != [] {
      var init, last := cmds[..|cmds| - 1], cmds[|cmds| - 1];
      VerdictOfActions(flags, disabled, init);
      assert init + [last] == cmds;
      ActionsAppend(flags, init, [last]);
      DisabledByAppend(disabled, AllActions(flags, init), Actions(flags, last));
      assert AllActions(flags, [last]) == Actions(flags, last) + AllActions(flags, []);
      OneCommand(flags, DisabledBy(disabled, AllActions(flags, init)), last);
    }
  }

  lemma OneCommand(flags: Flags, disabled: bool, cmd: string)
    ensures DisabledBy(disabled, Actions(flags, cmd)) ==
            if flags.canBeSuspended && cmd == "pause" then true
            else if flags.canBeSuspended && cmd == "resume" then false
            else disabled
  {
    var a := Actions(flags, cmd);
    assert |a| == 1 ==> a[..0] == [];
  }

  lemma {:induction false} LogOfMerged(v: Server, flags: Flags, inputs: seq<Input>)
    ensures Serve(v, flags, inputs).log == v.log + AllActions(flags, Merged(v, flags, inputs))
    decreases |inputs|
  {
    if inputs != [] {
      var i := inputs[0];
      var next := Ready(v, flags, i.socket, i.chunk);
      var cmds := Feed(Cached(v, i.socket), i.chunk).commands;
      ReadyEffect(v, flags, i.socket, i.chunk);
      LogOfMerged(next, flags, inputs[1..]);
      ActionsAppend(flags, cmds, Merged(next, flags, inputs[1..]));
      Assoc(v.log, AllActions(flags, cmds), AllActions(flags, Merged(next, flags, inputs[1..])));
    }
  }

  // With CanBeSuspended set, whether the crawl is disabled is decided by the last pause or
  // resume decoded from any socket; without it no socket can change that.
  lemma LastVerdictWins(flags: Flags, inputs: seq<Input>, disabled: bool)
    ensures var v := Server(map[], map[], []);
            DisabledBy(disabled, Serve(v, flags, inputs).log) ==
            if flags.canBeSuspended then Verdict(disabled, Merged(v, flags, inputs)) else disabled
  {
    var v := Server(map[], map[], []);
    LogOfMerged(v, flags, inputs);
    VerdictOfActions(flags, disabled, Merged(v, flags, inputs));
    assert v.log + AllActions(flags, Merged(v, flags, inputs)) == AllActions(flags, Merged(v, flags, inputs));
  }

  /* ---- the controller ---- */

  // What the controller learns: nothing as long as no reply comes.
  datatype Outcome = NotConnected | Blocked | Replied(ok: bool)

  function Concat(replies: seq<string>): string {
    if replies == [] then "" else replies[0] + Concat(replies[1..])
  }

  lemma TakeOne(cmd: string)
    requires IsCommand(cmd)
    ensures Take(cmd + CRLF) == Taken([cmd], "")
  {
    assert Print([cmd]) == cmd + CRLF;
    TakePrinted([cmd]);
  }

  lemma OneCommandOnly(flags: Flags, cmd: string)
    ensures AllActions(flags, [cmd]) == Actions(flags, cmd)
    ensures Replies(flags, [cmd]) == [Reply(flags, cmd)]
    ensures Concat([Reply(flags, cmd)]) == Reply(flags, cmd)
  {
    assert AllActions(flags, [cmd]) == Actions(flags, cmd) + AllActions(flags, []);
    assert Concat([Reply(flags, cmd)]) == Reply(flags, cmd) + Concat([]);
  }

  lemma OneExchange(v: Server, flags: Flags, s: Socket, cmd: string)
    requires s !in v.cache && s !in v.written && IsCommand(cmd)
    ensures var w := Ready(v, flags, s, cmd + CRLF);
            && Concat(Written(w, s)) == Reply(flags, cmd)
            && w.log == v.log + Actions(flags, cmd)
  {
    var line := cmd + CRLF;
    ReadyEffect(v, flags, s, line);
    assert Cached(v, s) + line == line;
    TakeOne(cmd);
    OneCommandOnly(flags, cmd);
    assert Written(v, s) + [Reply(flags, cmd)] == [Reply(flags, cmd)];
  }

  // sendCmd over a socket of its own; the whole command line arrives, and everything the
  // server writes is there when the reply is read.
  method SendCmd(server: QtServiceSysPrivate, s: Socket, listening: bool, cmd: string) returns (r: Outcome)
    requires s !in server.cache && s !in server.written
    modifies server
    ensures !listening ==> r == NotConnected && server.View() == old(server.View())
    ensures listening ==> server.View() == Ready(old(server.View()), server.serviceFlags, s, cmd + CRLF)
    ensures listening && IsCommand(cmd) ==>
              && r == Replied(Accepted(server.serviceFlags, cmd))
              && server.log == old(server.log) + Actions(server.serviceFlags, cmd)
  {
    if !listening {
      return NotConnected;
    }
    ghost var v, flags := server.View(), server.serviceFlags;
    if IsCommand(cmd) {
      OneExchange(v, flags, s, cmd);
    }
    server.SlotReady(s, cmd + CRLF);
    var reply := Concat(if s in server.written then server.written[s] else []);
    if reply == "" {
      r := Blocked;
    } else {
      r := Replied(reply == "true");
    }
  }

  lemma NumberIsClean(code: int)
    ensures forall k | 0 <= k < |Number(code)| :: Number(code)[k] != '\r'
    ensures Number(code) != ""
  {
    DigitsValue(if code < 0 then -code else code);
  }

  lemma NumIsCommand(n: string)
    requires forall k | 0 <= k < |n| :: n[k] != '\r'
    ensures IsCommand(NUM + n)
  {
    var cmd := NUM + n;
    FirstIsIndex(cmd);
    forall k: nat ensures !CrlfAt(cmd, k) {
      assert 4 <= k < |cmd| ==> cmd[k] == n[k - 4];
    }
  }

  // sendCommand(code) makes the service process exactly that code, for every int.
  lemma SendCommandArrives(flags: Flags, code: int)
    requires INT_MIN <= code <= INT_MAX
    ensures var cmd := NUM + Number(code);
            && IsCommand(cmd) && Take(cmd + CRLF) == Taken([cmd], "")
            && Actions(flags, cmd) == [ProcessCommand(code)] && Accepted(flags, cmd)
  {
    var n := Number(code);
    NumberIsClean(code);
    NumIsCommand(n);
    TakeOne(NUM + n);
    NumberRoundTrip(code);
    NumIsProcessed(flags, n);
  }

  lemma NumIsProcessed(flags: Flags, n: string)
    requires n != ""
    ensures Actions(flags, NUM + n) == [ProcessCommand(ToInt(n))] && Accepted(flags, NUM + n)
  {
    var cmd := NUM + n;
    assert cmd[0] == 'n' && cmd[4..] == n && cmd[..4] == NUM;
  }
}
