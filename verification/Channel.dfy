/** The Unix command channel: commands are lines ended by CRLF, cut out of the bytes of a
    socket as they arrive. */
module Channel {

  type Socket = nat

  const CRLF := "\r\n"

  /* ---- lines ---- */

  // QString::indexOf("\r\n"): the first position, -1 if there is none.
  function IndexOfCrlf(s: string): (p: int)
    ensures p == -1 || 0 <= p <= |s| - 2
  {
    if |s| < 2 then -1
    else if s[0] == '\r' && s[1] == '\n' then 0
    else
      var p := IndexOfCrlf(s[1..]);
      if p < 0 then -1 else p + 1
  }

  predicate CrlfAt(s: string, k: nat) {
    k + 2 <= |s| && s[k] == '\r' && s[k + 1] == '\n'
  }

  // IndexOfCrlf finds the first occurrence.
  lemma {:induction false} IndexIsFirst(s: string, p: nat)
    requires CrlfAt(s, p) && forall k: nat | k < p :: !CrlfAt(s, k)
    ensures IndexOfCrlf(s) == p
  {
    if p > 0 {
      assert !CrlfAt(s, 0);
      forall k: nat | k < p - 1 ensures !CrlfAt(s[1..], k) {
        assert !CrlfAt(s, k + 1);
      }
      IndexIsFirst(s[1..], p - 1);
    }
  }

  lemma {:induction false} FirstIsIndex(s: string)
    ensures var p := IndexOfCrlf(s);
            && (p >= 0 ==> CrlfAt(s, p))
            && forall k: nat | p < 0 || k < p :: !CrlfAt(s, k)
  {
    if |s| >= 2 && !CrlfAt(s, 0) {
      FirstIsIndex(s[1..]);
      var p := IndexOfCrlf(s);
      assert !CrlfAt(s, 0);
      forall k: nat | (p < 0 || k < p) && k > 0 ensures !CrlfAt(s, k) {
        assert !CrlfAt(s[1..], k - 1);
      }
      assert p >= 0 ==> CrlfAt(s[1..], p - 1);
    }
  }

  datatype Taken = Taken(commands: seq<string>, left: string)

  // What the loop of slotReady takes out of a cache: commands up to the first empty one,
  // whose CRLF is consumed too, and what stays behind.
  function Take(cache: string): Taken
    decreases |cache|
  {
    var p := IndexOfCrlf(cache);
    if p < 0 then Taken([], cache)
    else if p == 0 then Taken([], cache[2..])
    else
      var rest := Take(cache[p + 2..]);
      Taken([cache[..p]] + rest.commands, rest.left)
  }

  function Feed(left: string, chunk: string): Taken {
    Take(left + chunk)
  }

  // One readyRead after another.
  function FeedAll(left: string, chunks: seq<string>): Taken
    decreases |chunks|
  {
    if chunks == [] then Taken([], left)
    else
      var first := Feed(left, chunks[0]);
      var rest := FeedAll(first.left, chunks[1..]);
      Taken(first.commands + rest.commands, rest.left)
  }

  function Join(chunks: seq<string>): string {
    if chunks == [] then "" else chunks[0] + Join(chunks[1..])
  }

  // A stream is settled if it has no empty line, or nothing but an unfinished line after
  // its first empty one.
  predicate Settled(s: string)
    decreases |s|
  {
    var p := IndexOfCrlf(s);
    p < 0 || (if p == 0 then IndexOfCrlf(s[2..]) < 0 else Settled(s[p + 2..]))
  }

  predicate NoEmptyLine(s: string)
    decreases |s|
  {
    var p := IndexOfCrlf(s);
    p < 0 || (p > 0 && NoEmptyLine(s[p + 2..]))
  }

  // More input does not move the first CRLF.
  lemma IndexAppend(s: string, t: string)
    requires IndexOfCrlf(s) >= 0
    ensures var p := IndexOfCrlf(s);
            IndexOfCrlf(s + t) == p && (s + t)[..p] == s[..p] && (s + t)[p + 2..] == s[p + 2..] + t
  {
    var p := IndexOfCrlf(s);
    FirstIsIndex(s);
    forall k: nat | k < p ensures !CrlfAt(s + t, k) {
      assert !CrlfAt(s, k);
    }
    IndexIsFirst(s + t, p);
  }

  lemma IndexWithin(s: string, k: nat)
    requires 0 <= IndexOfCrlf(s) && IndexOfCrlf(s) + 2 <= k <= |s|
    ensures IndexOfCrlf(s[..k]) == IndexOfCrlf(s)
  {
    var p := IndexOfCrlf(s);
    FirstIsIndex(s);
    forall j: nat | j < p ensures !CrlfAt(s[..k], j) {
      assert !CrlfAt(s, j);
    }
    IndexIsFirst(s[..k], p);
  }

  lemma {:induction false} SettledPrefix(s: string, t: string)
    requires Settled(s + t)
    ensures Settled(s)
    decreases |s|
  {
    var p := IndexOfCrlf(s);
    if p >= 0 {
      IndexAppend(s, t);
      if p > 0 {
        SettledPrefix(s[p + 2..], t);
      } else if IndexOfCrlf(s[2..]) >= 0 {
        IndexAppend(s[2..], t);
      }
    }
  }

  // What a settled stream leaves behind is an unfinished line.
  lemma {:induction false} LeftUnfinished(s: string)
    requires Settled(s)
    ensures IndexOfCrlf(Take(s).left) < 0
    decreases |s|
  {
    var p := IndexOfCrlf(s);
    if p > 0 {
      LeftUnfinished(s[p + 2..]);
    }
  }

  function Then(a: Taken, b: Taken): Taken {
    Taken(a.commands + b.commands, b.left)
  }

  lemma ConsThen(x: string, a: Taken, b: Taken)
    ensures Then(Taken([x] + a.commands, a.left), b) == Taken([x] + Then(a, b).commands, b.left)
  {
  }

  lemma TakeLine(s: string)
    requires IndexOfCrlf(s) > 0
    ensures var p := IndexOfCrlf(s);
            Take(s) == Taken([s[..p]] + Take(s[p + 2..]).commands, Take(s[p + 2..]).left)
  {
  }

  lemma TakeUnfinished(s: string)
    requires IndexOfCrlf(s) < 0
    ensures Take(s) == Taken([], s)
  {
  }

  lemma AppendAfterLine(s: string, t: string)
    requires IndexOfCrlf(s) > 0
    requires var s' := s[IndexOfCrlf(s) + 2..];
             Take(s' + t) == Then(Take(s'), Take(Take(s').left + t))
    ensures Take(s + t) == Then(Take(s), Take(Take(s).left + t))
  {
    var s' := s[IndexOfCrlf(s) + 2..];
    IndexAppend(s, t);
    TakeLine(s);
    TakeLine(s + t);
    ConsThen(s[..IndexOfCrlf(s)], Take(s'), Take(Take(s').left + t));
  }

  lemma AppendUnfinished(s: string, t: string)
    requires IndexOfCrlf(s) < 0
    ensures Take(s + t) == Then(Take(s), Take(Take(s).left + t))
  {
    TakeUnfinished(s);
  }

  lemma AppendAfterEmptyLine(s: string, t: string)
    requires IndexOfCrlf(s) == 0 && Settled(s + t)
    ensures Take(s + t) == Then(Take(s), Take(Take(s).left + t))
  {
    IndexAppend(s, t);
    TakeUnfinished(s[2..] + t);
  }

  // Taking from a prefix and then from its leftover followed by the rest of the stream is
  // taking from the whole stream, when the whole stream is settled.
  lemma {:induction false} TakeAppend(s: string, t: string)
    requires Settled(s + t)
    ensures Take(s + t) == Then(Take(s), Take(Take(s).left + t))
    decreases |s|
  {
    var p := IndexOfCrlf(s);
    if p < 0 {
      AppendUnfinished(s, t);
    } else if p == 0 {
      AppendAfterEmptyLine(s, t);
    } else {
      IndexAppend(s, t);
      TakeAppend(s[p + 2..], t);
      AppendAfterLine(s, t);
    }
  }

  lemma SettledAfterLine(s: string, t: string)
    requires Settled(s + t) && IndexOfCrlf(s) > 0
    ensures Settled(s[IndexOfCrlf(s) + 2..] + t) && Take(s).left == Take(s[IndexOfCrlf(s) + 2..]).left
  {
    IndexAppend(s, t);
  }

  lemma SettledAfterEmptyLine(s: string, t: string)
    requires Settled(s + t) && IndexOfCrlf(s) == 0
    ensures Settled(Take(s).left + t)
  {
    IndexAppend(s, t);
  }

  lemma {:induction false} RestSettled(s: string, t: string)
    requires Settled(s + t)
    ensures Settled(Take(s).left + t)
    decreases |s|
  {
    var p := IndexOfCrlf(s);
    if p > 0 {
      SettledAfterLine(s, t);
      RestSettled(s[p + 2..], t);
    } else if p == 0 {
      SettledAfterEmptyLine(s, t);
    } else {
      TakeUnfinished(s);
    }
  }

  lemma {:induction false} FeedAllIsTake(left: string, chunks: seq<string>)
    requires Settled(left + Join(chunks)) && IndexOfCrlf(left) < 0
    ensures FeedAll(left, chunks) == Take(left + Join(chunks))
    decreases |chunks|
  {
    if chunks == [] {
      assert left + Join(chunks) == left;
    } else {
      var s, t := left + chunks[0], Join(chunks[1..]);
      assert left + Join(chunks) == s + t;
      TakeAppend(s, t);
      SettledPrefix(s, t);
      RestSettled(s, t);
      LeftUnfinished(s);
      FeedAllIsTake(Take(s).left, chunks[1..]);
    }
  }

  /* ---- chunk independence, exactly ---- */

  ghost predicate ChunkIndependent(s: string) {
    forall chunks: seq<string> | Join(chunks) == s :: FeedAll("", chunks) == Take(s)
  }

  // The position after the first empty line of s.
  function AfterEmptyLine(s: string): (k: nat)
    requires !Settled(s)
    ensures k <= |s|
    decreases |s|
  {
    var p := IndexOfCrlf(s);
    if p == 0 then 2 else p + 2 + AfterEmptyLine(s[p + 2..])
  }

  lemma {:induction false} TakeUpToEmptyLine(s: string)
    requires !Settled(s)
    ensures var k := AfterEmptyLine(s);
            && IndexOfCrlf(s[k..]) >= 0
            && Take(s).left == s[k..]
            && Take(s[..k]) == Taken(Take(s).commands, "")
    decreases |s|
  {
    var p, k := IndexOfCrlf(s), AfterEmptyLine(s);
    AfterFirstLine(s);
    IndexWithin(s, k);
    Slices(s, p + 2, k);
    if p > 0 {
      TakeUpToEmptyLine(s[p + 2..]);
      assert s[..k][..p] == s[..p];
      TakeLine(s);
      TakeLine(s[..k]);
    }
  }

  lemma AfterFirstLine(s: string)
    requires !Settled(s)
    ensures 0 <= IndexOfCrlf(s) && IndexOfCrlf(s) + 2 <= AfterEmptyLine(s)
  {
  }

  lemma Slices(s: string, j: nat, k: nat)
    requires j <= k <= |s|
    ensures s[..k][j..] == s[j..][..k - j] && s[k..] == s[j..][k - j..]
  {
  }

  // A stream gives the same commands and the same leftover however it is cut into chunks
  // if and only if it is settled.
  lemma ChunkIndependence(s: string)
    ensures ChunkIndependent(s) <==> Settled(s)
  {
    if Settled(s) {
      forall chunks: seq<string> | Join(chunks) == s ensures FeedAll("", chunks) == Take(s) {
        assert "" + Join(chunks) == s;
        FeedAllIsTake("", chunks);
      }
    } else {
      CutAfterEmptyLine(s);
    }
  }

  // Streams without an empty line are among the settled ones.
  lemma {:induction false} NoEmptyLineIsSettled(s: string)
    requires NoEmptyLine(s)
    ensures Settled(s)
    decreases |s|
  {
    var p := IndexOfCrlf(s);
    if p >= 0 {
      NoEmptyLineIsSettled(s[p + 2..]);
    }
  }

  lemma ChunkIndependenceWithoutEmptyLines(s: string)
    requires NoEmptyLine(s)
    ensures ChunkIndependent(s) && IndexOfCrlf(Take(s).left) < 0
  {
    NoEmptyLineIsSettled(s);
    ChunkIndependence(s);
    LeftUnfinished(s);
  }

  lemma FeedOne(b: string)
    ensures FeedAll("", [b]) == Take(b) && Join([b]) == b
  {
    var t := Take(b);
    assert "" + b == b && [b][1..] == [];
    assert FeedAll(t.left, []) == Taken([], t.left);
    assert t.commands + [] == t.commands;
  }

  lemma {:induction false} FeedTwo(a: string, b: string)
    requires Take(a).left == ""
    ensures FeedAll("", [a, b]) == Then(Take(a), Take(b)) && Join([a, b]) == a + b
  {
    FeedOne(b);
    assert "" + a == a && [a, b][1..] == [b];
  }

  lemma SplitDiffers(a: string, b: string)
    requires Take(a).left == "" && Take(a + b).left == b && IndexOfCrlf(b) >= 0
    ensures !ChunkIndependent(a + b)
  {
    FeedTwo(a, b);
    TakeShrinks(b);
    assert FeedAll("", [a, b]).left == Take(b).left;
  }

  // Cut there, the second chunk is read as well: less is left behind.
  lemma CutAfterEmptyLine(s: string)
    requires !Settled(s)
    ensures !ChunkIndependent(s)
  {
    TakeUpToEmptyLine(s);
    var k := AfterEmptyLine(s);
    assert s[..k] + s[k..] == s;
    SplitDiffers(s[..k], s[k..]);
  }

  lemma {:induction false} TakeShrinks(s: string)
    ensures IndexOfCrlf(s) >= 0 ==> |Take(s).left| < |s|
    ensures |Take(s).left| <= |s|
    decreases |s|
  {
    var p := IndexOfCrlf(s);
    if p > 0 {
      TakeShrinks(s[p + 2..]);
    }
  }

  /* ---- conservation and round trip ---- */

  // sendCmd writes each command followed by CRLF.
  function Print(commands: seq<string>): string {
    if commands == [] then "" else commands[0] + CRLF + Print(commands[1..])
  }

  // Every line that is consumed, an empty one included.
  function Lines(cache: string): seq<string>
    decreases |cache|
  {
    var p := IndexOfCrlf(cache);
    if p < 0 then [] else if p == 0 then [""] else [cache[..p]] + Lines(cache[p + 2..])
  }

  function LinesOfAll(left: string, chunks: seq<string>): seq<string>
    decreases |chunks|
  {
    if chunks == [] then []
    else Lines(left + chunks[0]) + LinesOfAll(Feed(left, chunks[0]).left, chunks[1..])
  }

  lemma SplitAtCrlf(s: string)
    requires IndexOfCrlf(s) >= 0
    ensures var p := IndexOfCrlf(s); s == s[..p] + CRLF + s[p + 2..]
  {
    FirstIsIndex(s);
  }

  lemma {:induction false} TakeConserves(s: string)
    ensures Print(Lines(s)) + Take(s).left == s
    decreases |s|
  {
    var p := IndexOfCrlf(s);
    if p >= 0 {
      SplitAtCrlf(s);
      if p == 0 {
        assert Print([""]) == CRLF;
      } else {
        var rest := s[p + 2..];
        TakeConserves(rest);
        assert Print(Lines(s)) == s[..p] + CRLF + Print(Lines(rest)) by {
          assert ([s[..p]] + Lines(rest))[1..] == Lines(rest);
        }
      }
    }
  }

  lemma {:induction false} PrintAppend(a: seq<string>, b: seq<string>)
    ensures Print(a + b) == Print(a) + Print(b)
  {
    if a == [] {
      assert a + b == b;
    } else {
      assert (a + b)[1..] == a[1..] + b;
      PrintAppend(a[1..], b);
    }
  }

  // For any stream and any chunks: the lines consumed, with their CRLFs, followed by the
  // cache are the bytes received.
  lemma {:induction false} Conservation(left: string, chunks: seq<string>)
    ensures Print(LinesOfAll(left, chunks)) + FeedAll(left, chunks).left == left + Join(chunks)
    decreases |chunks|
  {
    if chunks != [] {
      var s := left + chunks[0];
      var rest := LinesOfAll(Take(s).left, chunks[1..]);
      PrintAppend(Lines(s), rest);
      TakeConserves(s);
      Conservation(Take(s).left, chunks[1..]);
      Regroup(Print(Lines(s)), Take(s).left, Print(rest), FeedAll(Take(s).left, chunks[1..]).left,
              Join(chunks[1..]));
      assert left + Join(chunks) == s + Join(chunks[1..]);
    } else {
      assert Print([]) + left == left + Join(chunks);
    }
  }

  lemma Regroup(a: string, b: string, c: string, d: string, e: string)
    requires c + d == b + e
    ensures (a + c) + d == (a + b) + e
  {
    assert (a + c) + d == a + (c + d) && (a + b) + e == a + (b + e);
  }

  function NonEmpty(lines: seq<string>): seq<string> {
    if lines == [] then []
    else if lines[0] == "" then NonEmpty(lines[1..])
    else [lines[0]] + NonEmpty(lines[1..])
  }

  lemma {:induction false} CommandsOfOneRead(s: string)
    ensures NonEmpty(Lines(s)) == Take(s).commands
    decreases |s|
  {
    var p := IndexOfCrlf(s);
    if p > 0 {
      var rest := s[p + 2..];
      CommandsOfOneRead(rest);
      assert ([s[..p]] + Lines(rest))[1..] == Lines(rest);
    }
  }

  lemma {:induction false} NonEmptyAppend(a: seq<string>, b: seq<string>)
    ensures NonEmpty(a + b) == NonEmpty(a) + NonEmpty(b)
  {
    if a == [] {
      assert a + b == b;
    } else {
      NonEmptyAppend(a[1..], b);
      assert (a + b)[1..] == a[1..] + b && (a + b)[0] == a[0];
    }
  }

  // For any stream and chunks, the commands are the lines consumed, the empty ones left out.
  lemma {:induction false} CommandsAreLines(left: string, chunks: seq<string>)
    ensures NonEmpty(LinesOfAll(left, chunks)) == FeedAll(left, chunks).commands
    decreases |chunks|
  {
    if chunks != [] {
      var s := left + chunks[0];
      CommandsOfOneRead(s);
      CommandsAreLines(Take(s).left, chunks[1..]);
      NonEmptyAppend(Lines(s), LinesOfAll(Take(s).left, chunks[1..]));
    }
  }

  predicate IsCommand(c: string) {
    c != "" && IndexOfCrlf(c) < 0
  }

  lemma IndexAfterCommand(c: string, rest: string)
    requires IndexOfCrlf(c) < 0
    ensures IndexOfCrlf(c + CRLF + rest) == |c|
  {
    var s := c + CRLF + rest;
    FirstIsIndex(c);
    forall k: nat | k < |c| ensures !CrlfAt(s, k) {
      assert !CrlfAt(c, k);
    }
    IndexIsFirst(s, |c|);
  }

  lemma {:induction false} TakePrinted(commands: seq<string>)
    requires forall k | 0 <= k < |commands| :: IsCommand(commands[k])
    ensures Take(Print(commands)) == Taken(commands, "")
  {
    if commands != [] {
      var c, rest := commands[0], Print(commands[1..]);
      IndexAfterCommand(c, rest);
      var s := c + CRLF + rest;
      assert s[..|c|] == c && s[|c| + 2..] == rest;
      TakePrinted(commands[1..]);
      assert [c] + commands[1..] == commands;
    }
  }

  lemma LineIsClean(s: string)
    requires IndexOfCrlf(s) >= 0
    ensures IndexOfCrlf(s[..IndexOfCrlf(s)]) < 0
  {
    var line := s[..IndexOfCrlf(s)];
    FirstIsIndex(s);
    FirstIsIndex(line);
    forall k: nat ensures !CrlfAt(line, k) {
      assert k < |line| ==> !CrlfAt(s, k);
    }
  }

  lemma {:induction false} TakenAreCommands(s: string)
    ensures forall k | 0 <= k < |Take(s).commands| :: IsCommand(Take(s).commands[k])
    decreases |s|
  {
    var p := IndexOfCrlf(s);
    if p > 0 {
      TakenAreCommands(s[p + 2..]);
      LineIsClean(s);
    }
  }

  // A list of commands survives printing and decoding if and only if none of them is empty
  // or contains a CRLF.
  lemma {:induction false} RoundTrip(commands: seq<string>)
    ensures Take(Print(commands)) == Taken(commands, "") <==>
            forall k | 0 <= k < |commands| :: IsCommand(commands[k])
  {
    TakenAreCommands(Print(commands));
    if forall k | 0 <= k < |commands| :: IsCommand(commands[k]) {
      TakePrinted(commands);
    }
  }

  // One line read from the front of a cache: its CRLF goes with it, and an empty line ends the
  // reading with the rest left behind.
  lemma FirstLineIsTaken(line: string, rest: string)
    requires forall k: nat :: !CrlfAt(line, k)
    ensures var t := Take(line + "\r\n" + rest);
            if line == "" then t == Taken([], rest)
            else t == Taken([line] + Take(rest).commands, Take(rest).left)
  {
    var s := line + CRLF + rest;
    FirstIsIndex(line);
    IndexAfterCommand(line, rest);
    assert s[..|line|] == line && s[|line| + 2..] == rest;
  }

  // Text without a CRLF stays in the cache.
  lemma UnfinishedLineStays(text: string)
    requires forall k: nat :: !CrlfAt(text, k)
    ensures Take(text) == Taken([], text)
  {
    FirstIsIndex(text);
  }
}
