/** The filled script, line by line. */
module ScriptLines {
  import opened Template
  import opened Numbers
  import opened ProductScript

  function Cat(lines: seq<string>): string {
    if lines == [] then "" else lines[0] + Cat(lines[1..])
  }

  function SettingLines(row: Selectors): seq<string> {
    ["qt.article_selector = \"" + row.article + "\";\n",
     "qt.title_selector = \"" + row.title + "\";\n",
     "qt.photo_selector = \"" + row.photo + "\";\n",
     "qt.price_selector = \"" + row.price + "\";\n",
     "qt.description_selector = \"" + row.description + "\";\n",
     "qt.location_selector = \"" + row.location + "\";\n",
     "qt.location_etalon = \"" + row.locationEtalon + "\";\n",
     "qt.location_full_selector = \"" + row.locationFull + "\";\n",
     "qt.logistic_price = \"" + row.logisticPrice + "\";\n",
     "qt.end_time_selector = \"" + row.endTime + "\";\n",
     "qt.additional_fields = JSON.parse(\"" + row.additionalFields + "\");\n",
     "qt.price_formula = \"" + row.priceFormula + "\";\n"]
  }

  const FIRST_LINES: seq<string> := ["\nqt.product_item = {\n", "    article: \"\",\n"]

  const MIDDLE_LINES: seq<string> := [
    "    title: \"\",\n", "    photos: {},\n", "    price: \"\",\n", "    description: \"\",\n",
    "    location: \"\",\n", "    end_time: \"\",\n", "    ident_name: \"\",\n"]

  function CategoryLine(row: Selectors): string {
    "    category_id: \"" + Number(row.categoryId) + "\",\n"
  }

  function StatusLine(row: Selectors): string {
    "    status: \"" + Number(row.publicateStatus) + "\",\n"
  }

  // The script as it is to be run: the settings, the object, the rest.
  function Written(row: Selectors, rest: string): string {
    Cat(SettingLines(row)) +
    (Cat(FIRST_LINES) + (CategoryLine(row) + (Cat(MIDDLE_LINES) + (StatusLine(row) + ("};\n" + rest)))))
  }

  lemma {:induction false} CatAppend(a: seq<string>, b: seq<string>)
    ensures Cat(a + b) == Cat(a) + Cat(b)
  {
    if a == [] {
      assert a + b == b;
    } else {
      CatAppend(a[1..], b);
      assert (a + b)[1..] == a[1..] + b && (a + b)[0] == a[0];
      Assoc(a[0], Cat(a[1..]), Cat(b));
    }
  }

  lemma CatOne(line: string)
    ensures Cat([line]) == line
  {
    assert [line][1..] == [];
  }

  lemma {:induction false} FillAppend(a: seq<Piece>, b: seq<Piece>, holes: seq<string>)
    ensures Fill(a + b, holes) == Fill(a, holes) + Fill(b, holes)
  {
    if a == [] {
      assert a + b == b;
    } else {
      FillAppend(a[1..], b, holes);
      assert (a + b)[1..] == a[1..] + b && (a + b)[0] == a[0];
      Assoc(Show(a[0], holes), Fill(a[1..], holes), Fill(b, holes));
    }
  }

  lemma FillOne(piece: Piece, holes: seq<string>)
    ensures Fill([piece], holes) == Show(piece, holes)
  {
    assert [piece][1..] == [];
  }

  lemma {:induction false} FillTexts(lines: seq<string>, holes: seq<string>)
    ensures Fill(Texts(lines), holes) == Cat(lines)
  {
    if lines != [] {
      FillTexts(lines[1..], holes);
      assert Texts(lines)[1..] == Texts(lines[1..]);
    }
  }

  /* ---- the settings ---- */

  lemma FirstSettings(row: Selectors, k: nat)
    requires k < 4
    ensures HEADS[k] + Values(row)[k] + SettingTail(k) == SettingLines(row)[k]
  {
  }

  lemma MoreSettings(row: Selectors, k: nat)
    requires 4 <= k < 8
    ensures HEADS[k] + Values(row)[k] + SettingTail(k) == SettingLines(row)[k]
  {
  }

  lemma LastSettings(row: Selectors, k: nat)
    requires 8 <= k < 12
    ensures HEADS[k] + Values(row)[k] + SettingTail(k) == SettingLines(row)[k]
  {
  }

  lemma OneSetting(row: Selectors, k: nat)
    requires k < 12
    ensures Fill(Setting(k), Values(row)) == SettingLines(row)[k]
  {
    var v := Values(row);
    var head, tail := Text(HEADS[k]), Text(SettingTail(k));
    assert Setting(k) == [head] + ([Hole(k)] + [tail]);
    FillAppend([head], [Hole(k)] + [tail], v);
    FillAppend([Hole(k)], [tail], v);
    FillOne(head, v);
    FillOne(Hole(k), v);
    FillOne(tail, v);
    Assoc(head.s, v[k], tail.s);
    if k < 4 {
      FirstSettings(row, k);
    } else if k < 8 {
      MoreSettings(row, k);
    } else {
      LastSettings(row, k);
    }
  }

  lemma {:induction false} SettingsAreLines(row: Selectors, k: nat)
    requires k <= 12
    ensures Fill(Settings(k), Values(row)) == Cat(SettingLines(row)[k..])
    decreases 12 - k
  {
    if k < 12 {
      OneSetting(row, k);
      SettingsAreLines(row, k + 1);
      FillAppend(Setting(k), Settings(k + 1), Values(row));
      var lines := SettingLines(row)[k..];
      assert lines[0] == SettingLines(row)[k] && lines[1..] == SettingLines(row)[k + 1..];
    }
  }

  /* ---- the object ---- */

  lemma HeadLines()
    ensures Cat(ITEM_HEAD) == Cat(FIRST_LINES) + "    category_id: \""
  {
    var category := "    category_id: \"";
    assert ITEM_HEAD == FIRST_LINES + [category];
    CatAppend(FIRST_LINES, [category]);
    CatOne(category);
  }

  lemma BodyLines()
    ensures Cat(ITEM_BODY + ITEM_PLACE) == "\",\n" + (Cat(MIDDLE_LINES) + "    status: \"")
  {
    var quote, status := "\",\n", "    status: \"";
    assert ITEM_BODY + ITEM_PLACE == [quote] + (MIDDLE_LINES + [status]);
    CatAppend([quote], MIDDLE_LINES + [status]);
    CatAppend(MIDDLE_LINES, [status]);
    CatOne(quote);
    CatOne(status);
  }

  lemma EndLines()
    ensures Cat(ITEM_END) == "\",\n" + "};\n"
  {
    CatOne("\",\n};\n");
  }

  lemma FillItem(row: Selectors, rest: string, last: seq<Piece>, body: seq<Piece>)
    requires last == Texts(ITEM_END) + [Text(rest)]
    requires body == Texts(ITEM_BODY + ITEM_PLACE) + ([Hole(13)] + last)
    ensures var v := Values(row);
            Fill(Texts(ITEM_HEAD) + ([Hole(12)] + body), v) ==
            Cat(ITEM_HEAD) + (v[12] + (Cat(ITEM_BODY + ITEM_PLACE) + (v[13] + (Cat(ITEM_END) + rest))))
  {
    var v := Values(row);
    FillAppend(Texts(ITEM_HEAD), [Hole(12)] + body, v);
    FillTexts(ITEM_HEAD, v);
    FillAppend([Hole(12)], body, v);
    FillOne(Hole(12), v);
    FillAppend(Texts(ITEM_BODY + ITEM_PLACE), [Hole(13)] + last, v);
    FillTexts(ITEM_BODY + ITEM_PLACE, v);
    FillAppend([Hole(13)], last, v);
    FillOne(Hole(13), v);
    FillAppend(Texts(ITEM_END), [Text(rest)], v);
    FillTexts(ITEM_END, v);
    FillOne(Text(rest), v);
  }

  // The same string, cut at the holes and cut at the line ends.
  lemma CutAtLines(head: string, a: string, x: string, q: string, middle: string, b: string, y: string,
                   end: string, rest: string)
    ensures (head + a) + (x + ((q + (middle + b)) + (y + ((q + end) + rest)))) ==
            head + ((a + x + q) + (middle + ((b + y + q) + (end + rest))))
  {
    var tail := end + rest;
    Assoc(q, end, rest);
    Assoc(q, middle + b, y + (q + tail));
    Assoc(middle, b, y + (q + tail));
    Assoc(b, y, q + tail);
    Assoc(b + y, q, tail);
    Assoc(head, a, x + (q + (middle + (b + (y + (q + tail))))));
    Assoc(a, x, q + (middle + (b + (y + (q + tail)))));
    Assoc(a + x, q, middle + (b + (y + (q + tail))));
  }

  lemma {:induction false} ScriptIsWritten(row: Selectors, rest: string)
    ensures Fill(Script(rest), Values(row)) == Written(row, rest)
  {
    // a variable, so that Settings is not unfolded at a literal
    ghost var first: nat := 0;
    var v := Values(row);
    var last := Texts(ITEM_END) + [Text(rest)];
    var body := Texts(ITEM_BODY + ITEM_PLACE) + ([Hole(13)] + last);
    SettingsAreLines(row, first);
    assert SettingLines(row)[first..] == SettingLines(row);
    FillAppend(Settings(first), Texts(ITEM_HEAD) + ([Hole(12)] + body), v);
    FillItem(row, rest, last, body);
    ItemIsWritten(row, rest);
  }

  lemma ItemIsWritten(row: Selectors, rest: string)
    ensures var v := Values(row);
            Cat(ITEM_HEAD) + (v[12] + (Cat(ITEM_BODY + ITEM_PLACE) + (v[13] + (Cat(ITEM_END) + rest)))) ==
            Cat(FIRST_LINES) + (CategoryLine(row) + (Cat(MIDDLE_LINES) + (StatusLine(row) + ("};\n" + rest))))
  {
    HeadLines();
    BodyLines();
    EndLines();
    CutAtLines(Cat(FIRST_LINES), "    category_id: \"", Number(row.categoryId), "\",\n", Cat(MIDDLE_LINES),
               "    status: \"", Number(row.publicateStatus), "};\n", rest);
  }

  // What parse runs: every column in its own line, if no value contains the placeholder of a
  // later column.
  method ParseFile(row: Selectors, rest: string) returns (getProductItem: string)
    ensures IsPlain(row, rest) ==> getProductItem == Written(row, rest)
  {
    getProductItem := Parse(row, ScriptText(rest));
    if IsPlain(row, rest) {
      FilledScript(row, rest);
    }
  }

  ghost predicate IsPlain(row: Selectors, rest: string) {
    && FitsPiece(Text(rest), NAMES)
    && forall k, j | 0 <= k < j < |NAMES| :: Absent(Values(row)[k], Placeholder(NAMES[j]))
  }

  lemma {:induction false} FilledScript(row: Selectors, rest: string)
    requires IsPlain(row, rest)
    ensures Chain(ScriptText(rest), NAMES, Values(row), |NAMES|) == Written(row, rest)
  {
    NamesAreAKit(row);
    ScriptFits(rest);
    ScriptIsSubstitution(row, rest);
    SubstituteFills(Script(rest), NAMES, Values(row));
    ScriptIsWritten(row, rest);
  }
}
