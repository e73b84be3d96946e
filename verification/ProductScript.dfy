/** ProductParser::parse: the script run on a product page, filled from the row. */
module ProductScript {
  import opened Template
  import opened Numbers

  // The columns of the row that the script uses; the price is given as QString::number
  // prints it.
  datatype Selectors = Selectors(
    article: string, title: string, photo: string, price: string, description: string, location: string,
    locationEtalon: string, locationFull: string, logisticPrice: string, endTime: string,
    additionalFields: string, priceFormula: string, categoryId: int, publicateStatus: int)

  const NAMES: seq<string> := [
    "article_selector", "title_selector", "photo_selector", "price_selector", "description_selector",
    "location_selector", "location_etalon", "location_full_selector", "logistic_price", "end_time_selector",
    "additional_fields", "price_formula", "category_id", "status"]

  function Values(row: Selectors): seq<string> {
    [row.article, row.title, row.photo, row.price, row.description,
     row.location, row.locationEtalon, row.locationFull, row.logisticPrice, row.endTime,
     row.additionalFields, row.priceFormula, Number(row.categoryId), Number(row.publicateStatus)]
  }

  // One replacement: the n-th of the chain.
  method Put(text: string, name: string, value: string, ghost script: string, ghost v: seq<string>, ghost n: nat)
    returns (filled: string, ghost m: nat)
    requires n < |NAMES| == |v| && NAMES[n] == name && v[n] == value
    requires text == Chain(script, NAMES, v, n)
    ensures m == n + 1 && filled == Chain(script, NAMES, v, m)
  {
    filled := Replace(text, Placeholder(name), value);
    m := n + 1;
  }

  // A method, so that Chain is not unfolded at a literal.
  ghost method Start(script: string, v: seq<string>) returns (n: nat)
    requires |v| == |NAMES|
    ensures n == 0 && script == Chain(script, NAMES, v, n)
  {
    n := 0;
  }

  method Parse(row: Selectors, script: string) returns (getProductItem: string)
    ensures getProductItem == Chain(script, NAMES, Values(row), |NAMES|)
  {
    ghost var v := Values(row);
    ghost var n := Start(script, v);
    getProductItem, n := Put(script, "article_selector", row.article, script, v, n);
    getProductItem, n := Put(getProductItem, "title_selector", row.title, script, v, n);
    getProductItem, n := Put(getProductItem, "photo_selector", row.photo, script, v, n);
    getProductItem, n := Put(getProductItem, "price_selector", row.price, script, v, n);
    getProductItem, n := Put(getProductItem, "description_selector", row.description, script, v, n);
    getProductItem, n := Put(getProductItem, "location_selector", row.location, script, v, n);
    getProductItem, n := Put(getProductItem, "location_etalon", row.locationEtalon, script, v, n);
    getProductItem, n := Put(getProductItem, "location_full_selector", row.locationFull, script, v, n);
    getProductItem, n := Put(getProductItem, "logistic_price", row.logisticPrice, script, v, n);
    getProductItem, n := Put(getProductItem, "end_time_selector", row.endTime, script, v, n);
    getProductItem, n := Put(getProductItem, "additional_fields", row.additionalFields, script, v, n);
    getProductItem, n := Put(getProductItem, "price_formula", row.priceFormula, script, v, n);
    getProductItem, n := Put(getProductItem, "category_id", Number(row.categoryId), script, v, n);
    getProductItem, n := Put(getProductItem, "status", Number(row.publicateStatus), script, v, n);
  }

  lemma FirstNamesAreNames()
    ensures forall k | 0 <= k < 7 :: IsName(NAMES[k])
  {
  }

  lemma LastNamesAreNames()
    ensures forall k | 7 <= k < 14 :: IsName(NAMES[k])
  {
  }

  lemma {:induction false} NamesAreNames()
    ensures forall k | 0 <= k < 14 :: IsName(NAMES[k])
  {
    FirstNamesAreNames();
    LastNamesAreNames();
  }

  // Two names differ in length, or else in their second letter.
  lemma NamesAreDistinct()
    ensures forall j, k | 0 <= j < k < 14 :: NAMES[j] != NAMES[k]
  {
    assert forall j, k | 0 <= j < k < 14 :: |NAMES[j]| != |NAMES[k]| || NAMES[j][1] != NAMES[k][1];
  }

  /* ---- the script of the repository ---- */

  // What stands before the hole in each line that sets a property.
  const FIRST_HEADS: seq<string> := [
    "qt.article_selector = \"", "qt.title_selector = \"", "qt.photo_selector = \"", "qt.price_selector = \""]

  const MORE_HEADS: seq<string> := [
    "qt.description_selector = \"", "qt.location_selector = \"", "qt.location_etalon = \"",
    "qt.location_full_selector = \""]

  const LAST_HEADS: seq<string> := [
    "qt.logistic_price = \"", "qt.end_time_selector = \"", "qt.additional_fields = JSON.parse(\"",
    "qt.price_formula = \""]

  const HEADS: seq<string> := FIRST_HEADS + (MORE_HEADS + LAST_HEADS)

  const TAIL := "\";\n"
  const JSON_TAIL := "\");\n"

  function SettingTail(k: nat): string {
    if k == 10 then JSON_TAIL else TAIL
  }

  function Setting(k: nat): seq<Piece>
    requires k < 12
  {
    [Text(HEADS[k]), Hole(k), Text(SettingTail(k))]
  }

  // The settings of the names k..11.
  function Settings(k: nat): seq<Piece>
    requires k <= 12
    decreases 12 - k
  {
    if k == 12 then [] else Setting(k) + Settings(k + 1)
  }

  const ITEM_HEAD: seq<string> := [
    "\nqt.product_item = {\n", "    article: \"\",\n", "    category_id: \""]

  const ITEM_BODY: seq<string> := [
    "\",\n", "    title: \"\",\n", "    photos: {},\n", "    price: \"\",\n"]

  const ITEM_DETAILS: seq<string> := [
    "    description: \"\",\n", "    location: \"\",\n", "    end_time: \"\",\n"]

  const ITEM_STATUS: seq<string> := ["    ident_name: \"\",\n", "    status: \""]

  const ITEM_PLACE: seq<string> := ITEM_DETAILS + ITEM_STATUS

  const ITEM_END: seq<string> := ["\",\n};\n"]

  function Texts(lines: seq<string>): seq<Piece> {
    seq(|lines|, i requires 0 <= i < |lines| => Text(lines[i]))
  }

  // getProductItem.js: the settings, the object that the script fills, the rest.
  function Script(rest: string): seq<Piece> {
    Settings(0) + (Texts(ITEM_HEAD) + ([Hole(12)] + (Texts(ITEM_BODY + ITEM_PLACE) +
    ([Hole(13)] + (Texts(ITEM_END) + [Text(rest)])))))
  }

  predicate IsLower(c: char) {
    'a' <= c <= 'z'
  }

  // No brace of s opens something that could become a placeholder.
  predicate OpensNothing(s: string) {
    forall i | 0 <= i < |s| && s[i] == '{' :: i + 1 < |s| && !IsLower(s[i + 1])
  }

  lemma OpensNothingIsInert(s: string, name: string)
    requires IsName(name) && IsLower(name[0]) && OpensNothing(s)
    ensures Inert(s, Placeholder(name))
  {
    var p := Placeholder(name);
    PlaceholderShape(name);
    assert p[1] == name[0];
    forall i | 0 <= i < |s| && |s| - i < |p| ensures s[i..] != p[..|s| - i] {
      EndOpensNothing(s, name, i);
    }
    forall i: nat ensures !OccursAt(s, p, i) {
      if i + |p| <= |s| {
        assert s[i..i + |p|][0] == s[i] && s[i..i + |p|][1] == s[i + 1];
      }
    }
  }

  lemma NamesStartLower()
    ensures forall k | 0 <= k < |NAMES| :: NAMES[k] != "" && IsLower(NAMES[k][0])
  {
  }

  lemma TextFits(s: string)
    requires OpensNothing(s)
    ensures FitsPiece(Text(s), NAMES)
  {
    NamesAreNames();
    NamesStartLower();
    forall j | 0 <= j < |NAMES| ensures Inert(s, Placeholder(NAMES[j])) {
      OpensNothingIsInert(s, NAMES[j]);
    }
  }

  lemma FitsAppend(a: seq<Piece>, b: seq<Piece>)
    requires Fits(a, NAMES) && Fits(b, NAMES)
    ensures Fits(a + b, NAMES)
  {
    forall i | 0 <= i < |a + b| ensures FitsPiece((a + b)[i], NAMES) {
      assert i < |a| ==> FitsPiece(a[i], NAMES);
      assert i >= |a| ==> FitsPiece(b[i - |a|], NAMES);
    }
  }

  lemma NoBraceOpensNothing(s: string)
    requires '{' !in s
    ensures OpensNothing(s)
  {
  }

  lemma FirstHeadsHaveNoBrace()
    ensures '{' !in FIRST_HEADS[0] && '{' !in FIRST_HEADS[1] && '{' !in FIRST_HEADS[2] && '{' !in FIRST_HEADS[3]
  {
  }

  lemma MoreHeadsHaveNoBrace()
    ensures '{' !in MORE_HEADS[0] && '{' !in MORE_HEADS[1] && '{' !in MORE_HEADS[2] && '{' !in MORE_HEADS[3]
  {
  }

  lemma LastHeadsHaveNoBrace()
    ensures '{' !in LAST_HEADS[0] && '{' !in LAST_HEADS[1] && '{' !in LAST_HEADS[2] && '{' !in LAST_HEADS[3]
  {
  }

  lemma {:induction false} HeadsOpenNothing(k: nat)
    requires k < 12
    ensures OpensNothing(HEADS[k])
  {
    FirstHeadsHaveNoBrace();
    MoreHeadsHaveNoBrace();
    LastHeadsHaveNoBrace();
    assert HEADS[k] == if k < 4 then FIRST_HEADS[k] else if k < 8 then MORE_HEADS[k - 4] else LAST_HEADS[k - 8];
    NoBraceOpensNothing(HEADS[k]);
  }

  lemma TailsOpenNothing(k: nat)
    ensures OpensNothing(SettingTail(k))
  {
  }

  lemma SettingFits(k: nat)
    requires k < 12
    ensures Fits(Setting(k), NAMES)
  {
    HeadsOpenNothing(k);
    TailsOpenNothing(k);
    TextFits(HEADS[k]);
    TextFits(SettingTail(k));
  }

  lemma {:induction false} SettingsFit(k: nat)
    requires k <= 12
    ensures Fits(Settings(k), NAMES)
    decreases 12 - k
  {
    if k < 12 {
      SettingFits(k);
      SettingsFit(k + 1);
      FitsAppend(Setting(k), Settings(k + 1));
    }
  }

  lemma TextsFit(lines: seq<string>)
    requires forall i | 0 <= i < |lines| :: OpensNothing(lines[i])
    ensures Fits(Texts(lines), NAMES)
  {
    forall i | 0 <= i < |lines| ensures FitsPiece(Texts(lines)[i], NAMES) {
      TextFits(lines[i]);
    }
  }

  lemma TextsAppend(a: seq<string>, b: seq<string>)
    ensures Texts(a + b) == Texts(a) + Texts(b)
  {
  }

  lemma HeadLeft()
    ensures OpensNothing(ITEM_HEAD[0]) && OpensNothing(ITEM_HEAD[1])
  {
  }

  lemma HeadRight()
    ensures OpensNothing(ITEM_HEAD[2])
  {
  }

  lemma BodyOpensNothing()
    ensures forall i | 0 <= i < |ITEM_BODY| :: OpensNothing(ITEM_BODY[i])
  {
  }

  lemma DetailsOpenNothing()
    ensures forall i | 0 <= i < |ITEM_DETAILS| :: OpensNothing(ITEM_DETAILS[i])
  {
  }

  lemma StatusOpensNothing()
    ensures forall i | 0 <= i < |ITEM_STATUS| :: OpensNothing(ITEM_STATUS[i])
  {
  }

  lemma HeadFits()
    ensures Fits(Texts(ITEM_HEAD), NAMES)
  {
    HeadLeft();
    HeadRight();
    TextsFit(ITEM_HEAD);
  }

  lemma BodyFits()
    ensures Fits(Texts(ITEM_BODY), NAMES)
  {
    BodyOpensNothing();
    TextsFit(ITEM_BODY);
  }

  lemma PlaceFits()
    ensures Fits(Texts(ITEM_PLACE), NAMES)
  {
    DetailsOpenNothing();
    StatusOpensNothing();
    TextsFit(ITEM_DETAILS);
    TextsFit(ITEM_STATUS);
    TextsAppend(ITEM_DETAILS, ITEM_STATUS);
    FitsAppend(Texts(ITEM_DETAILS), Texts(ITEM_STATUS));
  }

  lemma EndFits()
    ensures Fits(Texts(ITEM_END), NAMES)
  {
    TextsFit(ITEM_END);
  }

  lemma {:induction false} ScriptFits(rest: string)
    requires FitsPiece(Text(rest), NAMES)
    ensures Fits(Script(rest), NAMES)
  {
    SettingsFit(0);
    HeadFits();
    BodyFits();
    PlaceFits();
    EndFits();
    FitsAppend(Texts(ITEM_BODY), Texts(ITEM_PLACE));
    var body := Texts(ITEM_BODY + ITEM_PLACE);
    TextsAppend(ITEM_BODY, ITEM_PLACE);
    var p6 := Texts(ITEM_END) + [Text(rest)];
    FitsAppend(Texts(ITEM_END), [Text(rest)]);
    FitsAppend([Hole(13)], p6);
    FitsAppend(body, [Hole(13)] + p6);
    var p3 := body + ([Hole(13)] + p6);
    FitsAppend([Hole(12)], p3);
    FitsAppend(Texts(ITEM_HEAD), [Hole(12)] + p3);
    FitsAppend(Settings(0), Texts(ITEM_HEAD) + ([Hole(12)] + p3));
  }

  /* ---- every hole of the script is followed by a quote ---- */

  lemma FirstNamesHaveNoQuote()
    ensures forall k | 0 <= k < 7 :: '"' !in NAMES[k]
  {
  }

  lemma LastNamesHaveNoQuote()
    ensures forall k | 7 <= k < 14 :: '"' !in NAMES[k]
  {
  }

  lemma QuoteIsSeal(piece: Piece)
    requires piece.Text? && piece.s != "" && piece.s[0] == '"'
    ensures IsSeal(piece, NAMES)
  {
    FirstNamesHaveNoQuote();
    LastNamesHaveNoQuote();
    forall j | 0 <= j < |NAMES| ensures '"' !in Placeholder(NAMES[j]) {
    }
  }

  lemma SealedAppend(a: seq<Piece>, b: seq<Piece>)
    requires Sealed(a, NAMES) && Sealed(b, NAMES)
    ensures Sealed(a + b, NAMES)
  {
    forall i | 0 <= i < |a + b| && (a + b)[i].Hole?
      ensures i + 1 < |a + b| && IsSeal((a + b)[i + 1], NAMES)
    {
      assert i >= |a| ==> (a + b)[i] == b[i - |a|];
    }
  }

  lemma HoleThenQuote(k: nat, b: seq<Piece>)
    requires Sealed(b, NAMES) && b != [] && b[0].Text? && b[0].s != "" && b[0].s[0] == '"'
    ensures Sealed([Hole(k)] + b, NAMES)
  {
    QuoteIsSeal(b[0]);
    forall i | 0 <= i < |b| + 1 && ([Hole(k)] + b)[i].Hole?
      ensures i < |b| && IsSeal(([Hole(k)] + b)[i + 1], NAMES)
    {
      assert i > 0 ==> ([Hole(k)] + b)[i] == b[i - 1];
    }
  }

  lemma TailIsQuote(k: nat)
    ensures SettingTail(k) != "" && SettingTail(k)[0] == '"'
  {
  }

  lemma SettingSealed(k: nat)
    requires k < 12
    ensures Sealed(Setting(k), NAMES)
  {
    TailIsQuote(k);
    QuoteIsSeal(Text(SettingTail(k)));
    assert Setting(k)[2] == Text(SettingTail(k));
  }

  lemma {:induction false} SettingsSealed(k: nat)
    requires k <= 12
    ensures Sealed(Settings(k), NAMES)
    decreases 12 - k
  {
    if k < 12 {
      SettingSealed(k);
      SettingsSealed(k + 1);
      SealedAppend(Setting(k), Settings(k + 1));
    }
  }

  lemma TextsSealed(lines: seq<string>)
    ensures Sealed(Texts(lines), NAMES)
  {
  }

  lemma BodyBeginsWithQuote(piece: Piece)
    requires piece == Texts(ITEM_BODY + ITEM_PLACE)[0]
    ensures piece.Text? && piece.s != "" && piece.s[0] == '"'
  {
  }

  lemma {:induction false} ScriptSealed(rest: string)
    ensures Sealed(Script(rest), NAMES)
  {
    // a variable, so that Settings is not unfolded at a literal
    ghost var first: nat := 0;
    var last := Texts(ITEM_END) + [Text(rest)];
    var body := Texts(ITEM_BODY + ITEM_PLACE);
    SettingsSealed(first);
    TextsSealed(ITEM_HEAD);
    TextsSealed(ITEM_BODY + ITEM_PLACE);
    SealedAppend(Texts(ITEM_END), [Text(rest)]);
    HoleThenQuote(13, last);
    SealedAppend(body, [Hole(13)] + last);
    BodyBeginsWithQuote(body[0]);
    HoleThenQuote(12, body + ([Hole(13)] + last));
    SealedAppend(Texts(ITEM_HEAD), [Hole(12)] + (body + ([Hole(13)] + last)));
    SealedAppend(Settings(first), Texts(ITEM_HEAD) + ([Hole(12)] + (body + ([Hole(13)] + last))));
  }

  lemma {:induction false} SettingsHaveHoles(k: nat, i: nat)
    requires k <= i < 12
    ensures Hole(i) in Settings(k)
    decreases 12 - k
  {
    if k == i {
      assert Setting(k)[1] == Hole(i);
    } else {
      SettingsHaveHoles(k + 1, i);
    }
  }

  lemma AnywhereInTheMiddle(a: seq<Piece>, piece: Piece, b: seq<Piece>)
    ensures piece in a + ([piece] + b)
  {
    assert (a + ([piece] + b))[|a|] == piece;
  }

  lemma InAppend(piece: Piece, a: seq<Piece>, b: seq<Piece>)
    requires piece in a || piece in b
    ensures piece in a + b
  {
  }

  lemma {:induction false} ScriptHasHoles(rest: string, i: nat)
    requires i < 14
    ensures Hole(i) in Script(rest)
  {
    // a variable, so that Settings is not unfolded at a literal
    ghost var first: nat := 0;
    var last := Texts(ITEM_END) + [Text(rest)];
    var body := Texts(ITEM_BODY + ITEM_PLACE) + ([Hole(13)] + last);
    var item := Texts(ITEM_HEAD) + ([Hole(12)] + body);
    if i < 12 {
      SettingsHaveHoles(first, i);
    } else if i == 12 {
      AnywhereInTheMiddle(Texts(ITEM_HEAD), Hole(i), body);
    } else {
      AnywhereInTheMiddle(Texts(ITEM_BODY + ITEM_PLACE), Hole(i), last);
      InAppend(Hole(i), [Hole(12)], body);
      InAppend(Hole(i), Texts(ITEM_HEAD), [Hole(12)] + body);
    }
    InAppend(Hole(i), Settings(first), item);
  }

  /* ---- what parse makes of the script ---- */

  // The text of getProductItem.js.
  function ScriptText(rest: string): string {
    Fill(Script(rest), Placeholders(NAMES))
  }

  lemma NamesAreAKit(row: Selectors)
    ensures IsKit(NAMES, Values(row))
  {
    NamesAreNames();
    NamesAreDistinct();
  }

  // Fourteen replacements are one simultaneous substitution, if no value contains the
  // placeholder of a later column.
  lemma {:induction false} ScriptIsSubstitution(row: Selectors, rest: string)
    requires FitsPiece(Text(rest), NAMES)
    requires forall k, j | 0 <= k < j < |NAMES| :: Absent(Values(row)[k], Placeholder(NAMES[j]))
    ensures Chain(ScriptText(rest), NAMES, Values(row), |NAMES|) ==
            Substitute(ScriptText(rest), NAMES, Values(row))
  {
    NamesAreAKit(row);
    ScriptFits(rest);
    ScriptSealed(rest);
    ChainIsSubstitution(Script(rest), NAMES, Values(row));
  }

  // If all values but that of column k settle: they are if and only if that one does.
  lemma {:induction false} ColumnLeaksExactly(row: Selectors, rest: string, k: nat)
    requires k < |NAMES| && FitsPiece(Text(rest), NAMES)
    requires forall i | 0 <= i < |NAMES| && i != k :: Settles(NAMES, Values(row), i)
    ensures Chain(ScriptText(rest), NAMES, Values(row), |NAMES|) ==
            Substitute(ScriptText(rest), NAMES, Values(row)) <==>
            Settles(NAMES, Values(row), k)
  {
    NamesAreAKit(row);
    ScriptFits(rest);
    ScriptSealed(rest);
    ScriptHasHoles(rest, k);
    LeaksExactly(Script(rest), NAMES, Values(row), k);
  }

  // If the value of column k contains the placeholder of the later column j: they are if and
  // only if column j holds its own placeholder.
  lemma {:induction false} LaterPlaceholderLeaks(row: Selectors, rest: string, k: nat, j: nat)
    requires k < j < |NAMES| && FitsPiece(Text(rest), NAMES)
    requires LeaksInto(NAMES, Values(row), k, j)
    requires forall i | 0 <= i < |NAMES| && i != k :: Harmless(NAMES, Values(row), i)
    ensures Chain(ScriptText(rest), NAMES, Values(row), |NAMES|) ==
            Substitute(ScriptText(rest), NAMES, Values(row)) <==>
            Values(row)[j] == Placeholder(NAMES[j])
  {
    NamesAreAKit(row);
    ScriptFits(rest);
    ScriptSealed(rest);
    ScriptHasHoles(rest, k);
    Template.LaterPlaceholderLeaks(Script(rest), NAMES, Values(row), k, j);
  }
}
