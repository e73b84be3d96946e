/** Filling a script template: a chain of replacements, one placeholder after another. */
module Template {

  // QString::replace: every occurrence, left to right, without looking into what was put in.
  function Replace(t: string, p: string, v: string): string
    requires p != ""
    decreases |t|
  {
    if |t| < |p| then t
    else if p <= t then v + Replace(t[|p|..], p, v)
    else [t[0]] + Replace(t[1..], p, v)
  }

  function Placeholder(name: string): string {
    "{" + name + "}"
  }

  // Distinct names without braces, a value for each.
  predicate IsKit(names: seq<string>, values: seq<string>) {
    && |names| == |values|
    && (forall k | 0 <= k < |names| :: IsName(names[k]))
    && (forall j, k | 0 <= j < k < |names| :: names[j] != names[k])
  }

  predicate IsName(name: string) {
    name != "" && forall i | 0 <= i < |name| :: name[i] != '{' && name[i] != '}'
  }

  // The first n replacements, in the order of the names.
  function Chain(t: string, names: seq<string>, values: seq<string>, n: nat): string
    requires n <= |names| == |values|
  {
    if n == 0 then t else Replace(Chain(t, names, values, n - 1), Placeholder(names[n - 1]), values[n - 1])
  }

  // The placeholder t begins with: the least index, |names| if there is none.
  function Match(t: string, names: seq<string>): (k: nat)
    ensures k <= |names|
    ensures k < |names| ==> Placeholder(names[k]) <= t
    ensures forall j | 0 <= j < k :: !(Placeholder(names[j]) <= t)
  {
    if names == [] then 0
    else if Placeholder(names[0]) <= t then 0
    else
      var k := Match(t, names[1..]);
      assert forall j | 1 <= j < k + 1 :: names[j] == names[1..][j - 1];
      k + 1
  }

  // One simultaneous substitution over the template.
  function Substitute(t: string, names: seq<string>, values: seq<string>): string
    requires |names| == |values|
    decreases |t|
  {
    if t == "" then ""
    else
      var k := Match(t, names);
      if k < |names| then values[k] + Substitute(t[|names[k]| + 2..], names, values)
      else [t[0]] + Substitute(t[1..], names, values)
  }

  /* ---- when a replacement can be done piece by piece ---- */

  // p occurs nowhere in s.
  ghost predicate Absent(s: string, p: string) {
    forall i: nat :: !OccursAt(s, p, i)
  }

  predicate OccursAt(s: string, p: string, i: nat) {
    i + |p| <= |s| && s[i..i + |p|] == p
  }

  // No end of s is a beginning of p: whatever follows s, no occurrence of p starts in s and
  // ends after it.
  predicate Closed(s: string, p: string) {
    forall i | 0 <= i < |s| && |s| - i < |p| :: s[i..] != p[..|s| - i]
  }

  ghost predicate Inert(s: string, p: string) {
    Absent(s, p) && Closed(s, p)
  }

  lemma ClosedSuffix(s: string, p: string, k: nat)
    requires Closed(s, p) && k <= |s|
    ensures Closed(s[k..], p)
  {
    forall i | 0 <= i < |s[k..]| && |s[k..]| - i < |p| ensures s[k..][i..] != p[..|s[k..]| - i] {
      assert s[k..][i..] == s[k + i..];
    }
  }

  // No occurrence of p starts in a and ends in b.
  predicate Parts(a: string, b: string, p: string) {
    forall i | 0 <= i < |a| && |a| - i < |p| :: !(p <= a[i..] + b)
  }

  lemma PartsSuffix(a: string, b: string, p: string, k: nat)
    requires Parts(a, b, p) && k <= |a|
    ensures Parts(a[k..], b, p)
  {
    forall i | 0 <= i < |a[k..]| && |a[k..]| - i < |p| ensures !(p <= a[k..][i..] + b) {
      assert a[k..][i..] == a[k + i..];
    }
  }

  lemma ShortHead(a: string, b: string, p: string)
    requires |a| < |p|
    ensures p <= a + b ==> a == p[..|a|]
  {
    assert (a + b)[..|a|] == a;
  }

  lemma ClosedParts(a: string, b: string, p: string)
    requires Closed(a, p)
    ensures Parts(a, b, p)
  {
    forall i | 0 <= i < |a| && |a| - i < |p| ensures !(p <= a[i..] + b) {
      ShortHead(a[i..], b, p);
    }
  }

  // So it is if what follows begins with a character that p does not have.
  lemma ForeignParts(a: string, b: string, p: string)
    requires b != "" && b[0] !in p
    ensures Parts(a, b, p)
  {
    forall i | 0 <= i < |a| && |a| - i < |p| ensures !(p <= a[i..] + b) {
      assert (a[i..] + b)[|a| - i] == b[0];
    }
  }

  lemma NoMatchAcross(a: string, b: string, p: string)
    requires p != "" && a != "" && Parts(a, b, p)
    ensures |a| < |p| ==> !(p <= a + b)
    ensures |a| >= |p| ==> (p <= a + b <==> p <= a)
  {
    assert a[0..] == a;
    if |a| >= |p| {
      assert (a + b)[..|p|] == a[..|p|];
    }
  }

  lemma Assoc(a: string, b: string, c: string)
    ensures (a + b) + c == a + (b + c)
  {
  }

  lemma ReplaceHit(t: string, p: string, v: string)
    requires p != "" && p <= t
    ensures Replace(t, p, v) == v + Replace(t[|p|..], p, v)
  {
  }

  lemma ReplaceMiss(t: string, p: string, v: string)
    requires t != "" && p != "" && !(p <= t)
    ensures Replace(t, p, v) == [t[0]] + Replace(t[1..], p, v)
  {
  }

  lemma ConcatHit(a: string, b: string, p: string, v: string)
    requires p != "" && p <= a
    requires Replace(a[|p|..] + b, p, v) == Replace(a[|p|..], p, v) + Replace(b, p, v)
    ensures Replace(a + b, p, v) == Replace(a, p, v) + Replace(b, p, v)
  {
    assert (a + b)[|p|..] == a[|p|..] + b && p <= a + b;
    ReplaceHit(a + b, p, v);
    Assoc(v, Replace(a[|p|..], p, v), Replace(b, p, v));
  }

  lemma ConcatMiss(a: string, b: string, p: string, v: string)
    requires a != "" && p != "" && !(p <= a) && !(p <= a + b)
    requires Replace(a[1..] + b, p, v) == Replace(a[1..], p, v) + Replace(b, p, v)
    ensures Replace(a + b, p, v) == Replace(a, p, v) + Replace(b, p, v)
  {
    assert (a + b)[1..] == a[1..] + b && (a + b)[0] == a[0];
    ReplaceMiss(a, p, v);
    ReplaceMiss(a + b, p, v);
    Assoc([a[0]], Replace(a[1..], p, v), Replace(b, p, v));
  }

  lemma {:induction false} ReplaceConcat(a: string, b: string, p: string, v: string)
    requires p != "" && Parts(a, b, p)
    ensures Replace(a + b, p, v) == Replace(a, p, v) + Replace(b, p, v)
    decreases |a|
  {
    if a == "" {
      assert a + b == b;
    } else {
      NoMatchAcross(a, b, p);
      if p <= a {
        PartsSuffix(a, b, p, |p|);
        ReplaceConcat(a[|p|..], b, p, v);
        ConcatHit(a, b, p, v);
      } else {
        PartsSuffix(a, b, p, 1);
        ReplaceConcat(a[1..], b, p, v);
        ConcatMiss(a, b, p, v);
      }
    }
  }

  lemma {:induction false} ReplaceAbsent(s: string, p: string, v: string)
    requires p != "" && Absent(s, p)
    ensures Replace(s, p, v) == s
    decreases |s|
  {
    if |s| >= |p| {
      assert !OccursAt(s, p, 0);
      forall i: nat ensures !OccursAt(s[1..], p, i) {
        assert !OccursAt(s, p, i + 1);
        assert i + |p| < |s| ==> s[1..][i..i + |p|] == s[i + 1..i + 1 + |p|];
      }
      ReplaceAbsent(s[1..], p, v);
      ReplaceMiss(s, p, v);
    }
  }

  lemma ReplaceWhole(p: string, v: string)
    requires p != ""
    ensures Replace(p, p, v) == v
  {
    assert p[..|p|] == p && p[|p|..] == "";
  }

  /* ---- placeholders do not meet ---- */

  lemma PlaceholderShape(a: string)
    requires IsName(a)
    ensures var p := Placeholder(a);
            && |p| == |a| + 2 && p[0] == '{' && p[|p| - 1] == '}'
            && forall i | 0 < i < |p| - 1 :: p[i] != '{' && p[i] != '}'
  {
  }

  lemma PlaceholderClosed(a: string, b: string)
    requires IsName(a) && IsName(b)
    ensures Closed(Placeholder(a), Placeholder(b))
  {
    PlaceholderShape(a);
    PlaceholderShape(b);
    var p, q := Placeholder(a), Placeholder(b);
    forall i | 0 <= i < |p| && |p| - i < |q| ensures p[i..] != q[..|p| - i] {
      var n := |p| - i;
      assert p[i..][0] == p[i] && q[..n][0] == q[0];
      assert p[i..][n - 1] == '}' && q[..n][n - 1] == q[n - 1];
    }
  }

  lemma PlaceholderPrefix(a: string, b: string, t: string)
    requires IsName(a) && IsName(b) && Placeholder(a) <= t && Placeholder(b) <= t
    ensures a == b
  {
    PlaceholderShape(a);
    PlaceholderShape(b);
    var p, q := Placeholder(a), Placeholder(b);
    assert forall i | 0 <= i < |p| :: p[i] == t[i];
    assert forall i | 0 <= i < |q| :: q[i] == t[i];
    assert t[|p| - 1] == '}' && t[|q| - 1] == '}';
    assert |p| == |q|;
    assert p == q;
    assert p[1..|p| - 1] == a && q[1..|q| - 1] == b;
  }

  lemma PlaceholderAbsent(a: string, b: string)
    requires IsName(a) && IsName(b) && a != b
    ensures Absent(Placeholder(a), Placeholder(b))
  {
    PlaceholderShape(a);
    PlaceholderShape(b);
    var p, q := Placeholder(a), Placeholder(b);
    forall i: nat ensures !OccursAt(p, q, i) {
      if i + |q| <= |p| {
        assert p[i..i + |q|][0] == p[i];
      }
      if q <= p {
        PlaceholderPrefix(a, b, p);
      }
    }
  }

  /* ---- templates ---- */

  // A template is text and holes, a hole standing for the placeholder of its name.
  datatype Piece = Text(s: string) | Hole(k: nat)

  ghost predicate Fits(pieces: seq<Piece>, names: seq<string>) {
    forall i | 0 <= i < |pieces| :: FitsPiece(pieces[i], names)
  }

  ghost predicate FitsPiece(piece: Piece, names: seq<string>) {
    match piece
    case Hole(k) => k < |names|
    case Text(s) => forall j | 0 <= j < |names| :: Inert(s, Placeholder(names[j]))
  }

  // The template with these strings in its holes.
  function Show(piece: Piece, holes: seq<string>): string {
    match piece
    case Text(s) => s
    case Hole(k) => if k < |holes| then holes[k] else ""
  }

  function Fill(pieces: seq<Piece>, holes: seq<string>): string {
    if pieces == [] then "" else Show(pieces[0], holes) + Fill(pieces[1..], holes)
  }

  function Placeholders(names: seq<string>): seq<string> {
    seq(|names|, k requires 0 <= k < |names| => Placeholder(names[k]))
  }

  // What the first n replacements make of each placeholder.
  function Contents(names: seq<string>, values: seq<string>, n: nat): seq<string>
    requires n <= |names| == |values|
  {
    seq(|names|, k requires 0 <= k < |names| => Chain(Placeholder(names[k]), names, values, n))
  }

  /* ---- the chain works on each hole by itself ---- */

  // No occurrence of p straddles the border of two pieces.
  ghost predicate AllParted(pieces: seq<Piece>, holes: seq<string>, p: string) {
    pieces != [] ==>
      Parts(Show(pieces[0], holes), Fill(pieces[1..], holes), p) && AllParted(pieces[1..], holes, p)
  }

  // Every hole is followed by a character that no placeholder has.
  ghost predicate Sealed(pieces: seq<Piece>, names: seq<string>) {
    forall i | 0 <= i < |pieces| && pieces[i].Hole? :: i + 1 < |pieces| && IsSeal(pieces[i + 1], names)
  }

  ghost predicate IsSeal(piece: Piece, names: seq<string>) {
    piece.Text? && piece.s != "" && forall j | 0 <= j < |names| :: piece.s[0] !in Placeholder(names[j])
  }

  // What stands in a hole never ends in a beginning of the placeholder that is replaced next.
  ghost predicate ClosedAlways(names: seq<string>, values: seq<string>)
    requires |names| == |values|
  {
    forall k, n | 0 <= k < |names| && 0 <= n < |names| ::
      Closed(Contents(names, values, n)[k], Placeholder(names[n]))
  }

  ghost predicate Separated(pieces: seq<Piece>, names: seq<string>, values: seq<string>)
    requires |names| == |values|
  {
    Sealed(pieces, names) || ClosedAlways(names, values)
  }

  lemma {:induction false} SealedParts(pieces: seq<Piece>, names: seq<string>, holes: seq<string>, n: nat)
    requires Fits(pieces, names) && Sealed(pieces, names) && n < |names|
    ensures AllParted(pieces, holes, Placeholder(names[n]))
  {
    if pieces != [] {
      var p, rest := Placeholder(names[n]), pieces[1..];
      assert forall i | 0 <= i < |rest| :: rest[i] == pieces[i + 1];
      SealedParts(rest, names, holes, n);
      match pieces[0] {
        case Text(s) =>
          assert FitsPiece(pieces[0], names) && Inert(s, p);
          ClosedParts(s, Fill(rest, holes), p);
        case Hole(k) =>
          assert IsSeal(rest[0], names) && Fill(rest, holes)[0] == rest[0].s[0];
          ForeignParts(Show(pieces[0], holes), Fill(rest, holes), p);
      }
    }
  }

  lemma {:induction false} ClosedHolesPart(pieces: seq<Piece>, names: seq<string>, holes: seq<string>, n: nat)
    requires Fits(pieces, names) && n < |names| == |holes|
    requires forall k | 0 <= k < |holes| :: Closed(holes[k], Placeholder(names[n]))
    ensures AllParted(pieces, holes, Placeholder(names[n]))
  {
    if pieces != [] {
      var p, rest := Placeholder(names[n]), pieces[1..];
      assert forall i | 0 <= i < |rest| :: rest[i] == pieces[i + 1];
      ClosedHolesPart(rest, names, holes, n);
      assert FitsPiece(pieces[0], names);
      assert pieces[0].Text? ==> Inert(pieces[0].s, p);
      ClosedParts(Show(pieces[0], holes), Fill(rest, holes), p);
    }
  }

  lemma SeparatedParts(pieces: seq<Piece>, names: seq<string>, values: seq<string>, n: nat)
    requires Fits(pieces, names) && n < |names| == |values| && Separated(pieces, names, values)
    ensures AllParted(pieces, Contents(names, values, n), Placeholder(names[n]))
  {
    if Sealed(pieces, names) {
      SealedParts(pieces, names, Contents(names, values, n), n);
    } else {
      ClosedHolesPart(pieces, names, Contents(names, values, n), n);
    }
  }

  lemma ChainStep(t: string, names: seq<string>, values: seq<string>, n: nat)
    requires n < |names| == |values|
    ensures Chain(t, names, values, n + 1) == Replace(Chain(t, names, values, n), Placeholder(names[n]), values[n])
  {
  }

  lemma ChainStart(t: string, names: seq<string>, values: seq<string>, n: nat)
    requires n == 0 && |names| == |values|
    ensures Chain(t, names, values, n) == t
  {
  }

  // One replacement works on each hole by itself.
  lemma {:induction false} Stage(pieces: seq<Piece>, names: seq<string>, holes: seq<string>, filled: seq<string>,
                                 n: nat, v: string)
    requires Fits(pieces, names) && n < |names| == |holes| == |filled| && names[n] != ""
    requires forall k | 0 <= k < |holes| :: filled[k] == Replace(holes[k], Placeholder(names[n]), v)
    requires AllParted(pieces, holes, Placeholder(names[n]))
    ensures Replace(Fill(pieces, holes), Placeholder(names[n]), v) == Fill(pieces, filled)
  {
    if pieces != [] {
      var p, rest := Placeholder(names[n]), pieces[1..];
      assert forall i | 0 <= i < |rest| :: rest[i] == pieces[i + 1];
      Stage(rest, names, holes, filled, n, v);
      ReplaceConcat(Show(pieces[0], holes), Fill(rest, holes), p, v);
      assert FitsPiece(pieces[0], names);
      if pieces[0].Text? {
        assert Inert(pieces[0].s, p);
        ReplaceAbsent(pieces[0].s, p, v);
      }
    }
  }

  // The template with none, one, two, ... replacements made in every hole.
  function Stages(pieces: seq<Piece>, names: seq<string>, values: seq<string>): seq<string>
    requires |names| == |values|
  {
    seq(|names| + 1, i requires 0 <= i <= |names| => Fill(pieces, Contents(names, values, i)))
  }

  lemma NextStage(pieces: seq<Piece>, names: seq<string>, values: seq<string>, n: nat)
    requires IsKit(names, values) && Fits(pieces, names) && n < |names| && Separated(pieces, names, values)
    ensures var texts := Stages(pieces, names, values);
            texts[n + 1] == Replace(texts[n], Placeholder(names[n]), values[n])
  {
    var holes, filled := Contents(names, values, n), Contents(names, values, n + 1);
    SeparatedParts(pieces, names, values, n);
    forall k | 0 <= k < |names| ensures filled[k] == Replace(holes[k], Placeholder(names[n]), values[n]) {
      ChainStep(Placeholder(names[k]), names, values, n);
    }
    Stage(pieces, names, holes, filled, n, values[n]);
  }

  // The chain is what texts become that make one replacement after another.
  lemma {:induction false} ChainOf(texts: seq<string>, names: seq<string>, values: seq<string>, n: nat)
    requires |texts| == |names| + 1 == |values| + 1 && n <= |names|
    requires forall i | 0 <= i < |names| :: texts[i + 1] == Replace(texts[i], Placeholder(names[i]), values[i])
    ensures Chain(texts[0], names, values, n) == texts[n]
  {
    if n > 0 {
      ChainOf(texts, names, values, n - 1);
      ChainStep(texts[0], names, values, n - 1);
    }
  }

  lemma ContentsStart(names: seq<string>, values: seq<string>, n: nat)
    requires n == 0 && |names| == |values|
    ensures Contents(names, values, n) == Placeholders(names)
  {
    forall k | 0 <= k < |names| ensures Contents(names, values, n)[k] == Placeholders(names)[k] {
      ChainStart(Placeholder(names[k]), names, values, n);
    }
  }

  // The chain of replacements over the template is the chain over each of its holes.
  lemma {:induction false} ChainDistributes(pieces: seq<Piece>, names: seq<string>, values: seq<string>)
    requires IsKit(names, values) && Fits(pieces, names) && Separated(pieces, names, values)
    ensures Chain(Fill(pieces, Placeholders(names)), names, values, |names|) ==
            Fill(pieces, Contents(names, values, |names|))
  {
    var texts := Stages(pieces, names, values);
    forall i | 0 <= i < |names| ensures texts[i + 1] == Replace(texts[i], Placeholder(names[i]), values[i]) {
      NextStage(pieces, names, values, i);
    }
    // a variable, so that Chain is not unfolded at a literal
    ghost var none: nat := 0;
    ContentsStart(names, values, none);
    assert texts[none] == Fill(pieces, Placeholders(names));
    ChainOf(texts, names, values, |names|);
  }

  /* ---- one simultaneous substitution ---- */

  lemma MatchNothing(t: string, names: seq<string>)
    requires forall j | 0 <= j < |names| :: !(Placeholder(names[j]) <= t)
    ensures Match(t, names) == |names|
  {
  }

  lemma InertHead(x: string, rest: string, p: string)
    requires x != "" && p != "" && Inert(x, p)
    ensures !(p <= x + rest) && Inert(x[1..], p)
  {
    ClosedParts(x, rest, p);
    NoMatchAcross(x, rest, p);
    assert !OccursAt(x, p, 0);
    ClosedSuffix(x, p, 1);
    forall i: nat ensures !OccursAt(x[1..], p, i) {
      assert !OccursAt(x, p, i + 1);
      assert i + |p| < |x| ==> x[1..][i..i + |p|] == x[i + 1..i + 1 + |p|];
    }
  }

  lemma SubstituteMiss(t: string, names: seq<string>, values: seq<string>)
    requires |names| == |values| && t != "" && Match(t, names) == |names|
    ensures Substitute(t, names, values) == [t[0]] + Substitute(t[1..], names, values)
  {
  }

  lemma HeadBack(x: string, rest: string, r: string)
    requires x != ""
    ensures (x + rest)[1..] == x[1..] + rest
    ensures [(x + rest)[0]] + (x[1..] + r) == x + r
  {
  }

  lemma {:induction false} SubstituteText(x: string, rest: string, names: seq<string>, values: seq<string>)
    requires IsKit(names, values)
    requires forall j | 0 <= j < |names| :: Inert(x, Placeholder(names[j]))
    ensures Substitute(x + rest, names, values) == x + Substitute(rest, names, values)
    decreases |x|
  {
    if x == "" {
      assert x + rest == rest;
    } else {
      forall j | 0 <= j < |names|
        ensures !(Placeholder(names[j]) <= x + rest) && Inert(x[1..], Placeholder(names[j]))
      {
        InertHead(x, rest, Placeholder(names[j]));
      }
      MatchNothing(x + rest, names);
      SubstituteMiss(x + rest, names, values);
      SubstituteText(x[1..], rest, names, values);
      HeadBack(x, rest, Substitute(rest, names, values));
    }
  }

  lemma SubstituteHole(k: nat, rest: string, names: seq<string>, values: seq<string>)
    requires IsKit(names, values) && k < |names|
    ensures Substitute(Placeholder(names[k]) + rest, names, values) == values[k] + Substitute(rest, names, values)
  {
    var t := Placeholder(names[k]) + rest;
    var j := Match(t, names);
    assert Placeholder(names[k]) <= t;
    if j < |names| {
      PlaceholderPrefix(names[j], names[k], t);
    }
    assert t[|names[k]| + 2..] == rest;
  }

  lemma {:induction false} SubstituteFills(pieces: seq<Piece>, names: seq<string>, values: seq<string>)
    requires IsKit(names, values) && Fits(pieces, names)
    ensures Substitute(Fill(pieces, Placeholders(names)), names, values) == Fill(pieces, values)
  {
    if pieces != [] {
      assert FitsPiece(pieces[0], names);
      assert forall i | 0 <= i < |pieces[1..]| :: pieces[1..][i] == pieces[i + 1];
      var rest := Fill(pieces[1..], Placeholders(names));
      match pieces[0] {
        case Text(s) => SubstituteText(s, rest, names, values);
        case Hole(k) => SubstituteHole(k, rest, names, values);
      }
      SubstituteFills(pieces[1..], names, values);
    }
  }

  // The chain makes of the placeholder of k its value, and nothing else.
  ghost predicate Settles(names: seq<string>, values: seq<string>, k: nat)
    requires k < |names| == |values|
  {
    Contents(names, values, |names|)[k] == values[k]
  }

  lemma {:induction false} BeforeItsTurn(names: seq<string>, values: seq<string>, k: nat, n: nat)
    requires IsKit(names, values) && n <= k < |names|
    ensures Chain(Placeholder(names[k]), names, values, n) == Placeholder(names[k])
    decreases n
  {
    if n > 0 {
      BeforeItsTurn(names, values, k, n - 1);
      ChainStep(Placeholder(names[k]), names, values, n - 1);
      PlaceholderAbsent(names[k], names[n - 1]);
      ReplaceAbsent(Placeholder(names[k]), Placeholder(names[n - 1]), values[n - 1]);
    }
  }

  lemma AtItsTurn(names: seq<string>, values: seq<string>, k: nat)
    requires IsKit(names, values) && k < |names|
    ensures Chain(Placeholder(names[k]), names, values, k + 1) == values[k]
  {
    BeforeItsTurn(names, values, k, k);
    ChainStep(Placeholder(names[k]), names, values, k);
    ReplaceWhole(Placeholder(names[k]), values[k]);
  }

  // From stage m on nothing more is replaced in hole k.
  lemma {:induction false} StaysAs(names: seq<string>, values: seq<string>, k: nat, m: nat, n: nat)
    requires IsKit(names, values) && k < |names| && m <= n <= |names|
    requires var s := Chain(Placeholder(names[k]), names, values, m);
             forall j | m <= j < |names| :: Absent(s, Placeholder(names[j]))
    ensures Chain(Placeholder(names[k]), names, values, n) == Chain(Placeholder(names[k]), names, values, m)
    decreases n
  {
    if m < n {
      StaysAs(names, values, k, m, n - 1);
      ChainStep(Placeholder(names[k]), names, values, n - 1);
      ReplaceAbsent(Chain(Placeholder(names[k]), names, values, m), Placeholder(names[n - 1]), values[n - 1]);
    }
  }

  // No later placeholder occurs in value k.
  ghost predicate Harmless(names: seq<string>, values: seq<string>, k: nat)
    requires k < |names| == |values|
  {
    forall j | k < j < |names| :: Absent(values[k], Placeholder(names[j]))
  }

  lemma HarmlessStays(names: seq<string>, values: seq<string>, k: nat, n: nat)
    requires IsKit(names, values) && k < n <= |names| && Harmless(names, values, k)
    ensures Chain(Placeholder(names[k]), names, values, n) == values[k]
  {
    AtItsTurn(names, values, k);
    StaysAs(names, values, k, k + 1, n);
  }

  lemma HarmlessSettles(names: seq<string>, values: seq<string>, k: nat)
    requires IsKit(names, values) && k < |names| && Harmless(names, values, k)
    ensures Settles(names, values, k)
  {
    HarmlessStays(names, values, k, |names|);
  }

  lemma ClosedValuesSuffice(names: seq<string>, values: seq<string>)
    requires IsKit(names, values) && forall k | 0 <= k < |names| :: Harmless(names, values, k)
    requires forall k, j | 0 <= k < j < |names| :: Closed(values[k], Placeholder(names[j]))
    ensures ClosedAlways(names, values)
  {
    forall k, n | 0 <= k < |names| && 0 <= n < |names|
      ensures Closed(Contents(names, values, n)[k], Placeholder(names[n]))
    {
      if k < n {
        HarmlessStays(names, values, k, n);
      } else {
        BeforeItsTurn(names, values, k, n);
        PlaceholderClosed(names[k], names[n]);
      }
    }
  }

  // If no value contains a later placeholder, the replacements one after another equal one
  // simultaneous substitution.
  lemma ChainIsSubstitution(pieces: seq<Piece>, names: seq<string>, values: seq<string>)
    requires IsKit(names, values) && Fits(pieces, names)
    requires Sealed(pieces, names) || forall k, j | 0 <= k < j < |names| :: Closed(values[k], Placeholder(names[j]))
    requires forall k | 0 <= k < |names| :: Harmless(names, values, k)
    ensures var t := Fill(pieces, Placeholders(names));
            Chain(t, names, values, |names|) == Substitute(t, names, values)
  {
    if !Sealed(pieces, names) {
      ClosedValuesSuffice(names, values);
    }
    ChainDistributes(pieces, names, values);
    SubstituteFills(pieces, names, values);
    forall k | 0 <= k < |names| ensures Contents(names, values, |names|)[k] == values[k] {
      HarmlessSettles(names, values, k);
    }
    assert Contents(names, values, |names|) == values;
  }

  /* ---- a value that contains a later placeholder ---- */

  lemma Cancel(a: string, b: string, c: string, d: string)
    requires |a| == |c| && a + b == c + d
    ensures a == c && b == d
  {
    assert (a + b)[..|a|] == a && (c + d)[..|c|] == c;
    assert (a + b)[|a|..] == b && (c + d)[|c|..] == d;
  }

  lemma {:induction false} FillsAlike(pieces: seq<Piece>, a: seq<string>, b: seq<string>, k: nat)
    requires k < |a| == |b| && forall i | 0 <= i < |a| && i != k :: a[i] == b[i]
    ensures |a[k]| <= |b[k]| ==> |Fill(pieces, a)| <= |Fill(pieces, b)|
    ensures |a[k]| < |b[k]| && Hole(k) in pieces ==> |Fill(pieces, a)| < |Fill(pieces, b)|
  {
    if pieces != [] {
      FillsAlike(pieces[1..], a, b, k);
      assert pieces == [pieces[0]] + pieces[1..];
    }
  }

  lemma {:induction false} FillDecides(pieces: seq<Piece>, a: seq<string>, b: seq<string>, k: nat)
    requires k < |a| == |b| && |a[k]| == |b[k]| && forall i | 0 <= i < |a| && i != k :: a[i] == b[i]
    requires Hole(k) in pieces && Fill(pieces, a) == Fill(pieces, b)
    ensures a[k] == b[k]
  {
    Cancel(Show(pieces[0], a), Fill(pieces[1..], a), Show(pieces[0], b), Fill(pieces[1..], b));
    if pieces[0] != Hole(k) {
      assert pieces == [pieces[0]] + pieces[1..];
      FillDecides(pieces[1..], a, b, k);
    }
  }

  // Two fillings that differ in one hole at most are equal if and only if that hole is.
  lemma FillExactly(pieces: seq<Piece>, a: seq<string>, b: seq<string>, k: nat)
    requires k < |a| == |b| && Hole(k) in pieces && forall i | 0 <= i < |a| && i != k :: a[i] == b[i]
    ensures Fill(pieces, a) == Fill(pieces, b) <==> a[k] == b[k]
  {
    if a[k] == b[k] {
      assert a == b;
    } else if |a[k]| == |b[k]| {
      if Fill(pieces, a) == Fill(pieces, b) {
        FillDecides(pieces, a, b, k);
      }
    } else {
      FillsAlike(pieces, a, b, k);
      FillsAlike(pieces, b, a, k);
    }
  }

  // When all values but value k settle: chain and substitution agree if and only if value k
  // settles too.
  lemma LeaksExactly(pieces: seq<Piece>, names: seq<string>, values: seq<string>, k: nat)
    requires IsKit(names, values) && Fits(pieces, names) && Separated(pieces, names, values)
    requires k < |names| && Hole(k) in pieces
    requires forall i | 0 <= i < |names| && i != k :: Settles(names, values, i)
    ensures var t := Fill(pieces, Placeholders(names));
            Chain(t, names, values, |names|) == Substitute(t, names, values) <==> Settles(names, values, k)
  {
    ChainDistributes(pieces, names, values);
    SubstituteFills(pieces, names, values);
    forall i | 0 <= i < |names| && i != k ensures Contents(names, values, |names|)[i] == values[i] {
      assert Settles(names, values, i);
    }
    FillExactly(pieces, Contents(names, values, |names|), values, k);
  }

  // A replacement that finds something changes it, unless it puts back what it found.
  lemma {:induction false} ReplaceLength(s: string, p: string, v: string)
    requires p != ""
    ensures |p| <= |v| ==> |s| <= |Replace(s, p, v)|
    ensures |v| <= |p| ==> |Replace(s, p, v)| <= |s|
    ensures |p| != |v| && !Absent(s, p) ==> |Replace(s, p, v)| != |s|
    decreases |s|
  {
    if |p| <= |s| {
      if p <= s {
        ReplaceLength(s[|p|..], p, v);
      } else {
        ReplaceLength(s[1..], p, v);
        AbsentTail(s, p);
      }
    }
  }

  lemma AbsentTail(s: string, p: string)
    requires |p| <= |s| && p != "" && !(p <= s)
    ensures Absent(s[1..], p) ==> Absent(s, p)
  {
    forall i: nat | OccursAt(s, p, i) ensures i > 0 && OccursAt(s[1..], p, i - 1) {
      assert i > 0 ==> s[1..][i - 1..i - 1 + |p|] == s[i..i + |p|];
    }
  }

  lemma {:induction false} ReplaceFixes(s: string, p: string, v: string)
    requires p != "" && !Absent(s, p)
    ensures Replace(s, p, v) == s <==> v == p
    decreases |s|
  {
    if v == p {
      ReplaceByItself(s, p);
    } else if |v| != |p| {
      ReplaceLength(s, p, v);
    } else {
      ReplaceChanges(s, p, v);
    }
  }

  lemma {:induction false} ReplaceByItself(s: string, p: string)
    requires p != ""
    ensures Replace(s, p, p) == s
    decreases |s|
  {
    if |p| <= |s| {
      if p <= s {
        ReplaceByItself(s[|p|..], p);
      } else {
        ReplaceByItself(s[1..], p);
      }
    }
  }

  lemma {:induction false} ReplaceChanges(s: string, p: string, v: string)
    requires p != "" && !Absent(s, p) && |v| == |p| && v != p
    ensures Replace(s, p, v) != s
    decreases |s|
  {
    if |p| <= |s| {
      if p <= s {
        assert Replace(s, p, v)[..|p|] == v && s[..|p|] == p;
      } else {
        AbsentTail(s, p);
        ReplaceChanges(s[1..], p, v);
      }
    }
  }

  // Value k contains placeholder j, no other later one, and none once j is replaced in it.
  ghost predicate LeaksInto(names: seq<string>, values: seq<string>, k: nat, j: nat)
    requires k < j < |names| == |values|
  {
    && !Absent(values[k], Placeholder(names[j]))
    && (forall m | k < m < |names| && m != j :: Absent(values[k], Placeholder(names[m])))
    && forall m | j < m < |names| ::
         Absent(Replace(values[k], Placeholder(names[j]), values[j]), Placeholder(names[m]))
  }

  lemma {:induction false} LeakBeforeTurn(names: seq<string>, values: seq<string>, k: nat, j: nat, n: nat)
    requires IsKit(names, values) && k < n <= j < |names| && LeaksInto(names, values, k, j)
    ensures Chain(Placeholder(names[k]), names, values, n) == values[k]
    decreases n
  {
    if n == k + 1 {
      AtItsTurn(names, values, k);
    } else {
      LeakBeforeTurn(names, values, k, j, n - 1);
      ChainStep(Placeholder(names[k]), names, values, n - 1);
      ReplaceAbsent(values[k], Placeholder(names[n - 1]), values[n - 1]);
    }
  }

  lemma LeakSettlesExactly(names: seq<string>, values: seq<string>, k: nat, j: nat)
    requires IsKit(names, values) && k < j < |names| && LeaksInto(names, values, k, j)
    ensures Settles(names, values, k) <==> values[j] == Placeholder(names[j])
  {
    LeakBeforeTurn(names, values, k, j, j);
    ChainStep(Placeholder(names[k]), names, values, j);
    StaysAs(names, values, k, j + 1, |names|);
    ReplaceFixes(values[k], Placeholder(names[j]), values[j]);
  }

  // Value k contains the later placeholder j: chain and substitution agree if and only if
  // the value of j is its own placeholder.
  lemma LaterPlaceholderLeaks(pieces: seq<Piece>, names: seq<string>, values: seq<string>, k: nat, j: nat)
    requires IsKit(names, values) && Fits(pieces, names) && Separated(pieces, names, values)
    requires k < j < |names| && Hole(k) in pieces && LeaksInto(names, values, k, j)
    requires forall i | 0 <= i < |names| && i != k :: Harmless(names, values, i)
    ensures var t := Fill(pieces, Placeholders(names));
            Chain(t, names, values, |names|) == Substitute(t, names, values) <==> values[j] == Placeholder(names[j])
  {
    forall i | 0 <= i < |names| && i != k ensures Settles(names, values, i) {
      HarmlessSettles(names, values, i);
    }
    LeakSettlesExactly(names, values, k, j);
    LeaksExactly(pieces, names, values, k);
  }

  /* ---- checking that a text is inert ---- */

  lemma EndOpensNothing(s: string, name: string, i: nat)
    requires IsName(name) && i < |s| && |s| - i < |Placeholder(name)|
    requires s[i] == '{' ==> i + 1 < |s| && s[i + 1] != name[0]
    ensures s[i..] != Placeholder(name)[..|s| - i]
  {
    PlaceholderShape(name);
    var p, n := Placeholder(name), |s| - i;
    assert s[i..][0] == s[i] && p[..n][0] == p[0];
    if s[i] == '{' {
      assert s[i..][1] == s[i + 1] && p[..n][1] == p[1] == name[0];
    }
  }
}
