/** What the joined product contains, in the keys and texts of the replies. */
module ReplyContents {
  import opened ReplyJoin

  /* ---- the small string functions ---- */

  lemma {:induction false} BreaksPlain(s: string)
    requires '\n' !in s
    ensures Breaks(s) == s
  {
    if s != "" {
      BreaksPlain(s[1..]);
    }
  }

  lemma {:induction false} BreaksConcat(a: string, b: string)
    ensures Breaks(a + b) == Breaks(a) + Breaks(b)
  {
    if a == "" {
      assert a + b == b;
    } else {
      BreaksConcat(a[1..], b);
      assert (a + b)[1..] == a[1..] + b && (a + b)[0] == a[0];
    }
  }

  // Every newline becomes "<br>", nothing else changes.
  lemma BreaksAtNewline(a: string, b: string)
    ensures Breaks(a + "\n" + b) == Breaks(a) + "<br>" + Breaks(b)
    ensures '\n' !in a ==> Breaks(a) == a
  {
    BreaksConcat(a + "\n", b);
    BreaksConcat(a, "\n");
    assert "\n"[1..] == "" && Breaks("\n") == "<br>";
    if '\n' !in a {
      BreaksPlain(a);
    }
  }

  lemma {:induction false} LastSectionPlain(s: string)
    requires '/' !in s
    ensures LastSection(s) == s
    decreases |s|
  {
    if s != "" {
      LastSectionPlain(s[..|s| - 1]);
    }
  }

  // What follows the last slash.
  lemma {:induction false} LastSectionAfterSlash(a: string, b: string)
    requires '/' !in b
    ensures LastSection(a + "/" + b) == b
    decreases |b|
  {
    var s := a + "/" + b;
    if b != "" {
      LastSectionAfterSlash(a, b[..|b| - 1]);
      assert s[..|s| - 1] == a + "/" + b[..|b| - 1] && s[|s| - 1] == b[|b| - 1];
    }
  }

  lemma {:induction false} NoDash(s: string)
    requires '-' !in s
    ensures IndexOfDash(s) == -1
  {
    if s != "" {
      NoDash(s[1..]);
    }
  }

  // A label without a dash is taken for the language itself.
  lemma UnlabelledIsWhole(lang: string)
    requires '-' !in lang
    ensures Target(lang) == lang
  {
    NoDash(lang);
  }

  /* ---- the five maps ---- */

  // Distinct languages with codes as long as the source's, one reply for each in any order.
  predicate IsJoin(source: string, languages: seq<string>, targets: seq<string>, rs: seq<Reply>) {
    && '-' !in source && languages != [] && Distinct(languages)
    && multiset(targets) == multiset(languages) && |rs| == |targets| == |languages|
    && forall i | 0 <= i < |rs| ::
         3 <= |rs[i].text| && rs[i].lang == source + "-" + targets[i] && |targets[i]| == |source|
  }

  function Joined(languages: seq<string>, info: Info, rs: seq<Reply>): Item
    requires forall i | 0 <= i < |rs| :: 3 <= |rs[i].text|
  {
    After(|languages|, info, DecodeAll(rs), |rs|)
  }

  lemma {:induction false} JoinDecodes(source: string, languages: seq<string>, targets: seq<string>, rs: seq<Reply>)
    requires IsJoin(source, languages, targets, rs)
    ensures Langs(DecodeAll(rs)) == targets && Distinct(targets)
  {
    DistinctPermutes(languages, targets);
    forall i | 0 <= i < |rs| ensures Langs(DecodeAll(rs))[i] == targets[i] {
      LabelDecodes(source, targets[i]);
    }
  }

  // One kind of map: an entry for each reply, and no other key.
  predicate Holds(m: map<string, string>, prefix: string, targets: seq<string>, texts: seq<string>) {
    && |targets| == |texts|
    && (forall i | 0 <= i < |targets| :: prefix + targets[i] in m && m[prefix + targets[i]] == texts[i])
    && |m| == |targets|
    && (forall k | k in m :: exists i :: 0 <= i < |targets| && k == prefix + targets[i])
  }

  lemma {:induction false} BuildHolds(kind: Kind, ts: seq<Translation>, targets: seq<string>, prefix: string)
    requires Langs(ts) == targets && Distinct(targets) && prefix == Prefix(kind)
    ensures Holds(Build(Keys(kind, ts), Texts(kind, ts), |ts|), prefix, targets, Texts(kind, ts))
  {
    var keys, texts := Keys(kind, ts), Texts(kind, ts);
    KeysDistinct(kind, ts);
    BuildKeys(keys, texts, |ts|);
    BuildEntries(keys, texts, |ts|);
    forall i | 0 <= i < |ts| ensures keys[i] == prefix + targets[i] {
      assert ts[i].lang == Langs(ts)[i];
    }
    var m := Build(keys, texts, |ts|);
    forall k | k in m ensures exists i :: 0 <= i < |targets| && k == prefix + targets[i] {
      var i :| 0 <= i < |ts| && keys[i] == k;
      assert k == prefix + targets[i];
    }
  }

  lemma {:induction false} MapHolds(source: string, languages: seq<string>, targets: seq<string>, rs: seq<Reply>,
                                    info: Info, kind: Kind, prefix: string)
    requires IsJoin(source, languages, targets, rs) && prefix == Prefix(kind)
    ensures Holds(MapOf(Joined(languages, info, rs), kind), prefix, targets, Texts(kind, DecodeAll(rs)))
  {
    JoinDecodes(source, languages, targets, rs);
    AfterBuilds(|languages|, info, DecodeAll(rs), |rs|, kind);
    BuildHolds(kind, DecodeAll(rs), targets, prefix);
  }

  // The first 254 characters.
  function Short(s: string): string {
    if |s| <= 254 then s else s[..254]
  }

  function TitleTexts(rs: seq<Reply>): seq<string>
    requires forall i | 0 <= i < |rs| :: 3 <= |rs[i].text|
  {
    seq(|rs|, i requires 0 <= i < |rs| => rs[i].text[0])
  }

  function ContentTexts(rs: seq<Reply>): seq<string>
    requires forall i | 0 <= i < |rs| :: 3 <= |rs[i].text|
  {
    seq(|rs|, i requires 0 <= i < |rs| => Breaks(rs[i].text[1]))
  }

  function ShortTexts(rs: seq<Reply>): seq<string>
    requires forall i | 0 <= i < |rs| :: 3 <= |rs[i].text|
  {
    seq(|rs|, i requires 0 <= i < |rs| => Breaks(Short(rs[i].text[1])))
  }

  function LocationTexts(rs: seq<Reply>): seq<string>
    requires forall i | 0 <= i < |rs| :: 3 <= |rs[i].text|
  {
    seq(|rs|, i requires 0 <= i < |rs| => rs[i].text[2])
  }

  lemma TextsAre(rs: seq<Reply>)
    requires forall i | 0 <= i < |rs| :: 3 <= |rs[i].text|
    ensures Texts(TitleMap, DecodeAll(rs)) == TitleTexts(rs)
    ensures Texts(ContentMap, DecodeAll(rs)) == ContentTexts(rs)
    ensures Texts(AnonsMap, DecodeAll(rs)) == ShortTexts(rs)
    ensures Texts(DescriptionMap, DecodeAll(rs)) == ShortTexts(rs)
    ensures Texts(LocationMap, DecodeAll(rs)) == LocationTexts(rs)
  {
  }

  lemma TitleHolds(source: string, languages: seq<string>, targets: seq<string>, rs: seq<Reply>, info: Info)
    requires IsJoin(source, languages, targets, rs)
    ensures Holds(Joined(languages, info, rs).title, "title_", targets, TitleTexts(rs))
  {
    TextsAre(rs);
    MapHolds(source, languages, targets, rs, info, TitleMap, "title_");
  }

  lemma ContentHolds(source: string, languages: seq<string>, targets: seq<string>, rs: seq<Reply>, info: Info)
    requires IsJoin(source, languages, targets, rs)
    ensures Holds(Joined(languages, info, rs).content, "content_", targets, ContentTexts(rs))
  {
    TextsAre(rs);
    MapHolds(source, languages, targets, rs, info, ContentMap, "content_");
  }

  lemma AnonsHolds(source: string, languages: seq<string>, targets: seq<string>, rs: seq<Reply>, info: Info)
    requires IsJoin(source, languages, targets, rs)
    ensures Holds(Joined(languages, info, rs).anons, "anons_", targets, ShortTexts(rs))
  {
    TextsAre(rs);
    MapHolds(source, languages, targets, rs, info, AnonsMap, "anons_");
  }

  lemma DescriptionHolds(source: string, languages: seq<string>, targets: seq<string>, rs: seq<Reply>, info: Info)
    requires IsJoin(source, languages, targets, rs)
    ensures Holds(Joined(languages, info, rs).description, "description_", targets, ShortTexts(rs))
  {
    TextsAre(rs);
    MapHolds(source, languages, targets, rs, info, DescriptionMap, "description_");
  }

  lemma LocationHolds(source: string, languages: seq<string>, targets: seq<string>, rs: seq<Reply>, info: Info)
    requires IsJoin(source, languages, targets, rs)
    ensures Holds(Joined(languages, info, rs).location, "location_", targets, LocationTexts(rs))
  {
    TextsAre(rs);
    MapHolds(source, languages, targets, rs, info, LocationMap, "location_");
  }

  // After all replies, in any order, every language has its title from the first text, its
  // location from the third, its content from the second with "<br>" for every newline, its
  // announcement and description from the first 254 characters of that; there is nothing else.
  lemma {:induction false} JoinedTexts(source: string, languages: seq<string>, targets: seq<string>,
                                       rs: seq<Reply>, info: Info)
    requires IsJoin(source, languages, targets, rs)
    ensures Holds(Joined(languages, info, rs).title, "title_", targets, TitleTexts(rs))
    ensures Holds(Joined(languages, info, rs).content, "content_", targets, ContentTexts(rs))
    ensures Holds(Joined(languages, info, rs).anons, "anons_", targets, ShortTexts(rs))
    ensures Holds(Joined(languages, info, rs).description, "description_", targets, ShortTexts(rs))
    ensures Holds(Joined(languages, info, rs).location, "location_", targets, LocationTexts(rs))
  {
    TitleHolds(source, languages, targets, rs, info);
    ContentHolds(source, languages, targets, rs, info);
    AnonsHolds(source, languages, targets, rs, info);
    DescriptionHolds(source, languages, targets, rs, info);
    LocationHolds(source, languages, targets, rs, info);
  }

  /* ---- the product's own fields ---- */

  lemma CreateInfo(item: Item, languages: nat, info: Info, r: Translation)
    ensures var d := Create(item, languages, info, r);
            d.ended >= item.ended && d.info == if d.ended > item.ended then info else item.info
  {
  }

  const NO_INFO := Info("", "", "", "", "", "")

  // How often the end has been emitted, and the fields, after each reply.
  function Progress(languages: nat, info: Info, rs: seq<Translation>): seq<(nat, Info)> {
    seq(|rs| + 1, i requires 0 <= i <= |rs| =>
      (After(languages, info, rs, i).ended, After(languages, info, rs, i).info))
  }

  lemma NextProgress(languages: nat, info: Info, rs: seq<Translation>, n: nat)
    requires n < |rs|
    ensures var p := Progress(languages, info, rs);
            p[n + 1].0 >= p[n].0 && p[n + 1].1 == if p[n + 1].0 > p[n].0 then info else p[n].1
  {
    CreateInfo(After(languages, info, rs, n), languages, info, rs[n]);
  }

  lemma FirstProgress(languages: nat, info: Info, rs: seq<Translation>, n: nat)
    requires n == 0
    ensures Progress(languages, info, rs)[n] == (0, NO_INFO)
  {
  }

  lemma {:induction false} InfoFollows(p: seq<(nat, Info)>, info: Info, n: nat)
    requires n < |p| && p[0] == (0, NO_INFO)
    requires forall i | 0 <= i < |p| - 1 ::
               p[i + 1].0 >= p[i].0 && p[i + 1].1 == if p[i + 1].0 > p[i].0 then info else p[i].1
    ensures p[n].1 == if p[n].0 > 0 then info else NO_INFO
  {
    if n > 0 {
      InfoFollows(p, info, n - 1);
    }
  }

  lemma InfoWithEnd(languages: nat, info: Info, rs: seq<Translation>, n: nat)
    requires n <= |rs|
    ensures var item := After(languages, info, rs, n); item.info == if item.ended > 0 then info else NO_INFO
  {
    // a variable, so that After is not unfolded at a literal
    ghost var none: nat := 0;
    FirstProgress(languages, info, rs, none);
    forall i: nat | i < |rs|
      ensures var p := Progress(languages, info, rs);
              p[i + 1].0 >= p[i].0 && p[i + 1].1 == if p[i + 1].0 > p[i].0 then info else p[i].1
    {
      NextProgress(languages, info, rs, i);
    }
    InfoFollows(Progress(languages, info, rs), info, n);
  }

  function Key(product: map<string, string>, key: string): string {
    if key in product then product[key] else ""
  }

  // They are filled in by the last reply and not before, each from its own key; the slug is
  // the part of the name behind its last slash, the whole name if it has none.
  lemma {:induction false} JoinedFields(source: string, languages: seq<string>, targets: seq<string>,
                                        rs: seq<Reply>, product: map<string, string>, n: nat)
    requires IsJoin(source, languages, targets, rs) && n <= |rs|
    ensures var info := After(|languages|, InfoOf(product), DecodeAll(rs), n).info;
            if n < |rs| then info == Info("", "", "", "", "", "")
            else
              && info.article == Key(product, "article")
              && info.categoryId == Key(product, "category_id")
              && info.price == Key(product, "price")
              && info.identName == Key(product, "ident_name")
              && info.status == Key(product, "status")
              && ('/' !in info.identName ==> info.slug == info.identName)
              && forall a: string, b: string | info.identName == a + "/" + b && '/' !in b :: info.slug == b
  {
    JoinEndsOnce(source, languages, targets, rs, InfoOf(product), n);
    InfoWithEnd(|languages|, InfoOf(product), DecodeAll(rs), n);
    if '/' !in Key(product, "ident_name") {
      LastSectionPlain(Key(product, "ident_name"));
    }
    forall a: string, b: string | Key(product, "ident_name") == a + "/" + b && '/' !in b
      ensures InfoOf(product).slug == b
    {
      LastSectionAfterSlash(a, b);
    }
  }
}
