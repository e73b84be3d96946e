/** What each command does, in the words sent and answered. */
module CommandLaws {
  import opened Channel
  import opened Numbers
  import opened CommandServer

  predicate IsWord(cmd: string) {
    cmd == "terminate" || cmd == "pause" || cmd == "resume" || cmd == "alive"
  }

  predicate IsNum(cmd: string) {
    |cmd| > 4 && cmd[..4] == "num:"
  }

  // The server has made these calls since v, and this is all that socket s got for an answer.
  predicate Outcome(v: Server, w: Server, s: Socket, calls: seq<Action>, answer: string) {
    w.log == v.log + calls && Written(w, s) == [answer]
  }

  lemma OneCommandRead(v: Server, flags: Flags, s: Socket, cmd: string)
    requires s !in v.cache && s !in v.written && IsCommand(cmd)
    ensures Outcome(v, Ready(v, flags, s, cmd + "\r\n"), s, Actions(flags, cmd), Reply(flags, cmd))
  {
    ReadyEffect(v, flags, s, cmd + CRLF);
    assert Cached(v, s) + (cmd + CRLF) == cmd + CRLF;
    TakeOne(cmd);
    OneCommandOnly(flags, cmd);
  }

  lemma NumIsNoWord(cmd: string)
    requires IsNum(cmd)
    ensures !IsWord(cmd)
  {
    assert cmd[0] == "num:"[0] == 'n';
  }

  predicate Does(flags: Flags, cmd: string, calls: seq<Action>, answer: string) {
    Actions(flags, cmd) == calls && Reply(flags, cmd) == answer
  }

  lemma WordsDo(flags: Flags, cmd: string)
    ensures cmd == "terminate" ==>
              if flags.cannotBeStopped then Does(flags, cmd, [], "false") else Does(flags, cmd, [Stop], "true")
    ensures cmd == "pause" ==>
              if flags.canBeSuspended then Does(flags, cmd, [PauseService], "true")
              else Does(flags, cmd, [], "false")
    ensures cmd == "resume" ==>
              if flags.canBeSuspended then Does(flags, cmd, [ResumeService], "true")
              else Does(flags, cmd, [], "false")
    ensures cmd == "alive" ==> Does(flags, cmd, [], "true")
  {
  }

  lemma OthersDo(flags: Flags, cmd: string)
    ensures IsNum(cmd) ==> Does(flags, cmd, [ProcessCommand(ToInt(cmd[4..]))], "true")
    ensures !IsWord(cmd) && !IsNum(cmd) ==> Does(flags, cmd, [], "false")
  {
    if IsNum(cmd) {
      NumIsNoWord(cmd);
    }
  }

  // One command on a socket of its own.  Stopping and suspending depend on the flags; "alive"
  // is only answered; a number is processed; anything else is refused.
  lemma CommandOutcome(v: Server, flags: Flags, s: Socket, cmd: string)
    requires s !in v.cache && s !in v.written && IsCommand(cmd)
    ensures var w := Ready(v, flags, s, cmd + "\r\n");
            && (cmd == "terminate" ==>
                  if flags.cannotBeStopped then Outcome(v, w, s, [], "false") else Outcome(v, w, s, [Stop], "true"))
            && (cmd == "pause" ==>
                  if flags.canBeSuspended then Outcome(v, w, s, [PauseService], "true")
                  else Outcome(v, w, s, [], "false"))
            && (cmd == "resume" ==>
                  if flags.canBeSuspended then Outcome(v, w, s, [ResumeService], "true")
                  else Outcome(v, w, s, [], "false"))
            && (cmd == "alive" ==> Outcome(v, w, s, [], "true"))
            && (IsNum(cmd) ==> Outcome(v, w, s, [ProcessCommand(ToInt(cmd[4..]))], "true"))
            && (!IsWord(cmd) && !IsNum(cmd) ==> Outcome(v, w, s, [], "false"))
  {
    OneCommandRead(v, flags, s, cmd);
    WordsDo(flags, cmd);
    OthersDo(flags, cmd);
  }

  // The answer "true" is given if and only if a call was made or the command is "alive"; no
  // other answer than "false" is given otherwise.
  lemma AnswerIsHonest(v: Server, flags: Flags, s: Socket, cmd: string)
    requires s !in v.cache && s !in v.written && IsCommand(cmd)
    ensures var w := Ready(v, flags, s, cmd + "\r\n");
            Written(w, s) == [if |w.log| > |v.log| || cmd == "alive" then "true" else "false"]
  {
    OneCommandRead(v, flags, s, cmd);
  }

  /* ---- any number of sockets, however their input is cut and interleaved ---- */

  const NOTHING := Server(map[], map[], [])

  function Codes(log: seq<Action>): seq<int> {
    if log == [] then []
    else (match log[0] case ProcessCommand(code) => [code] case _ => []) + Codes(log[1..])
  }

  // What follows "num:" in the commands that begin so.
  function Numerals(cmds: seq<string>): seq<string> {
    if cmds == [] then []
    else (if IsNum(cmds[0]) then [cmds[0][4..]] else []) + Numerals(cmds[1..])
  }

  function ToInts(numerals: seq<string>): seq<int> {
    seq(|numerals|, k requires 0 <= k < |numerals| => ToInt(numerals[k]))
  }

  lemma CountCons<T>(x: T, s: seq<T>, y: T)
    ensures multiset([x] + s)[y] == multiset(s)[y] + if x == y then 1 else 0
  {
  }

  lemma CountAppend<T>(a: seq<T>, b: seq<T>, y: T)
    ensures multiset(a + b)[y] == multiset(a)[y] + multiset(b)[y]
  {
  }

  // How often each call is made for commands executed in this order.
  lemma {:induction false} CallCounts(flags: Flags, cmds: seq<string>, call: Action, word: string, allowed: bool)
    requires || (call == Stop && word == "terminate" && allowed == !flags.cannotBeStopped)
             || (call == PauseService && word == "pause" && allowed == flags.canBeSuspended)
             || (call == ResumeService && word == "resume" && allowed == flags.canBeSuspended)
    ensures multiset(AllActions(flags, cmds))[call] == if allowed then multiset(cmds)[word] else 0
  {
    if cmds != [] {
      CallCounts(flags, cmds[1..], call, word, allowed);
      CountAppend(Actions(flags, cmds[0]), AllActions(flags, cmds[1..]), call);
      assert cmds == [cmds[0]] + cmds[1..];
      CountCons(cmds[0], cmds[1..], word);
      OneCallCount(flags, cmds[0], call, word, allowed);
    }
  }

  lemma OneCallCount(flags: Flags, cmd: string, call: Action, word: string, allowed: bool)
    requires || (call == Stop && word == "terminate" && allowed == !flags.cannotBeStopped)
             || (call == PauseService && word == "pause" && allowed == flags.canBeSuspended)
             || (call == ResumeService && word == "resume" && allowed == flags.canBeSuspended)
    ensures multiset(Actions(flags, cmd))[call] == if allowed && cmd == word then 1 else 0
  {
  }

  lemma {:induction false} CodesAppend(a: seq<Action>, b: seq<Action>)
    ensures Codes(a + b) == Codes(a) + Codes(b)
  {
    if a == [] {
      assert a + b == b;
    } else {
      CodesAppend(a[1..], b);
      assert (a + b)[1..] == a[1..] + b && (a + b)[0] == a[0];
    }
  }

  lemma OneCommandCodes(flags: Flags, cmd: string)
    ensures Codes(Actions(flags, cmd)) == if IsNum(cmd) then [ToInt(cmd[4..])] else []
  {
    WordsDo(flags, cmd);
    OthersDo(flags, cmd);
    if IsNum(cmd) {
      NumIsNoWord(cmd);
    }
    var a := Actions(flags, cmd);
    assert |a| == 1 ==> a[1..] == [];
  }

  lemma {:induction false} CodesOfCommands(flags: Flags, cmds: seq<string>)
    ensures Codes(AllActions(flags, cmds)) == ToInts(Numerals(cmds))
  {
    if cmds != [] {
      CodesOfCommands(flags, cmds[1..]);
      OneCommandCodes(flags, cmds[0]);
      CodesAppend(Actions(flags, cmds[0]), AllActions(flags, cmds[1..]));
    }
  }

  // From a server that has served nobody: stop() is called once for every "terminate" decoded
  // unless the service cannot be stopped, pause() and resume() once for every such command if
  // it can be suspended, and processCommand() with the numbers decoded, in their order.
  lemma {:induction false} CallsOfInputs(flags: Flags, inputs: seq<Input>)
    ensures var log, cmds := Serve(NOTHING, flags, inputs).log, Merged(NOTHING, flags, inputs);
            && multiset(log)[Stop] == (if flags.cannotBeStopped then 0 else multiset(cmds)["terminate"])
            && multiset(log)[PauseService] == (if flags.canBeSuspended then multiset(cmds)["pause"] else 0)
            && multiset(log)[ResumeService] == (if flags.canBeSuspended then multiset(cmds)["resume"] else 0)
            && Codes(log) == ToInts(Numerals(cmds))
  {
    var cmds := Merged(NOTHING, flags, inputs);
    LogOfMerged(NOTHING, flags, inputs);
    assert NOTHING.log + AllActions(flags, cmds) == AllActions(flags, cmds);
    CallCounts(flags, cmds, Stop, "terminate", !flags.cannotBeStopped);
    CallCounts(flags, cmds, PauseService, "pause", flags.canBeSuspended);
    CallCounts(flags, cmds, ResumeService, "resume", flags.canBeSuspended);
    CodesOfCommands(flags, cmds);
  }

  // The service of this program, whose flags are CanBeSuspended: it is told to stop if and only
  // if some socket sends "terminate".
  lemma StopsExactly(inputs: seq<Input>)
    ensures Stop in Serve(NOTHING, Flags(false, true), inputs).log <==>
            "terminate" in Merged(NOTHING, Flags(false, true), inputs)
  {
    CallsOfInputs(Flags(false, true), inputs);
    var log := Serve(NOTHING, Flags(false, true), inputs).log;
    assert Stop in log <==> Stop in multiset(log);
  }
}
