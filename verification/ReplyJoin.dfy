/** ProductParser::productCreate: the replies of the translation service, one for each
    language and in any order, are joined into one product; the worker ends when the last
    one is in. */
module ReplyJoin {

  // The "lang" of a reply is "source-target"; the texts are title, description, location.
  datatype Reply = Reply(lang: string, text: seq<string>)

  function IndexOfDash(s: string): (p: int)
    ensures p == -1 || 0 <= p < |s|
  {
    if s == "" then -1
    else if s[0] == '-' then 0
    else
      var p := IndexOfDash(s[1..]);
      if p < 0 then -1 else p + 1
  }

  // QString::right and left: the whole string if n is negative or too large.
  function Right(s: string, n: int): string {
    if n < 0 || n >= |s| then s else s[|s| - n..]
  }

  function Left(s: string, n: int): string {
    if n < 0 || n >= |s| then s else s[..n]
  }

  function Breaks(s: string): string {
    if s == "" then "" else (if s[0] == '\n' then "<br>" else [s[0]]) + Breaks(s[1..])
  }

  // The target language as the source cuts it out of "source-target".
  function Target(lang: string): string {
    Right(lang, IndexOfDash(lang))
  }

  // What one reply contributes.
  datatype Translation = Translation(lang: string, title: string, content: string, short: string, place: string)

  function Decode(r: Reply): Translation
    requires 3 <= |r.text|
  {
    Translation(Target(r.lang), r.text[0], Breaks(r.text[1]), Breaks(Left(r.text[1], 254)), r.text[2])
  }

  // The five maps of a product, one entry of each for every language.
  datatype Kind = TitleMap | ContentMap | AnonsMap | DescriptionMap | LocationMap

  function Prefix(kind: Kind): string {
    match kind
    case TitleMap => "title_"
    case ContentMap => "content_"
    case AnonsMap => "anons_"
    case DescriptionMap => "description_"
    case LocationMap => "location_"
  }

  function TextFor(kind: Kind, r: Translation): string {
    match kind
    case TitleMap => r.title
    case ContentMap => r.content
    case LocationMap => r.place
    case _ => r.short
  }

  // QString::section('/', -1): what follows the last slash.
  function LastSection(s: string): string
    decreases |s|
  {
    if s == "" || s[|s| - 1] == '/' then "" else LastSection(s[..|s| - 1]) + [s[|s| - 1]]
  }

  function Field(product: map<string, string>, key: string): string {
    if key in product then product[key] else ""
  }

  // The fields that are set when the last reply is in.
  datatype Info = Info(article: string, categoryId: string, price: string, identName: string, slug: string,
                       status: string)

  function InfoOf(product: map<string, string>): Info {
    Info(Field(product, "article"), Field(product, "category_id"), Field(product, "price"),
         Field(product, "ident_name"), LastSection(Field(product, "ident_name")), Field(product, "status"))
  }

  datatype Item = Item(
    title: map<string, string>, content: map<string, string>, anons: map<string, string>,
    description: map<string, string>, location: map<string, string>,
    info: Info,
    ended: nat)   // how often parserEnd was emitted

  function MapOf(item: Item, kind: Kind): map<string, string> {
    match kind
    case TitleMap => item.title
    case ContentMap => item.content
    case AnonsMap => item.anons
    case DescriptionMap => item.description
    case LocationMap => item.location
  }

  const NO_ITEM := Item(map[], map[], map[], map[], map[], Info("", "", "", "", "", ""), 0)

  function Entry(item: Item, kind: Kind, r: Translation): map<string, string> {
    MapOf(item, kind)[Prefix(kind) + r.lang := TextFor(kind, r)]
  }

  function AddTexts(item: Item, r: Translation): Item {
    item.(title := Entry(item, TitleMap, r), content := Entry(item, ContentMap, r),
          anons := Entry(item, AnonsMap, r), description := Entry(item, DescriptionMap, r),
          location := Entry(item, LocationMap, r))
  }

  function Create(item: Item, languages: nat, info: Info, r: Translation): Item {
    var d := AddTexts(item, r);
    if languages == |d.title| then d.(info := info, ended := d.ended + 1) else d
  }

  class ProductParser {
    const languages: seq<string>
    const product: map<string, string>   // the decoded result of the script
    var item: Item

    constructor (languages: seq<string>, product: map<string, string>)
      ensures this.languages == languages && this.product == product && item == NO_ITEM
    {
      this.languages, this.product, item := languages, product, NO_ITEM;
    }

    // The source reads three texts of the reply unchecked.
    method ProductCreate(reply: Reply) returns (parserEnd: bool)
      requires 3 <= |reply.text|
      modifies this
      ensures item == Create(old(item), |languages|, InfoOf(product), Decode(reply))
      ensures parserEnd <==> item.ended == old(item).ended + 1
      ensures !parserEnd ==> item.ended == old(item).ended
    {
      var lang := Target(reply.lang);
      var text := reply.text;
      item := item.(title := item.title["title_" + lang := text[0]]);
      item := item.(content := item.content["content_" + lang := Breaks(text[1])]);
      item := item.(anons := item.anons["anons_" + lang := Breaks(Left(text[1], 254))]);
      item := item.(description := item.description["description_" + lang := Breaks(Left(text[1], 254))]);
      item := item.(location := item.location["location_" + lang := text[2]]);
      parserEnd := false;
      if |languages| == |item.title| {
        var slug := LastSection(Field(product, "ident_name"));
        item := item.(info := Info(Field(product, "article"), Field(product, "category_id"),
                                   Field(product, "price"), Field(product, "ident_name"), slug,
                                   Field(product, "status")));
        item := item.(ended := item.ended + 1);
        parserEnd := true;
      }
    }
  }

  /* ---- any number of replies ---- */

  // The item after the first n replies.
  function After(languages: nat, info: Info, rs: seq<Translation>, n: nat): Item
    requires n <= |rs|
  {
    if n == 0 then NO_ITEM else Create(After(languages, info, rs, n - 1), languages, info, rs[n - 1])
  }

  function Keys(kind: Kind, rs: seq<Translation>): seq<string> {
    seq(|rs|, i requires 0 <= i < |rs| => Prefix(kind) + rs[i].lang)
  }

  function Texts(kind: Kind, rs: seq<Translation>): seq<string> {
    seq(|rs|, i requires 0 <= i < |rs| => TextFor(kind, rs[i]))
  }

  predicate Distinct(keys: seq<string>) {
    forall i, j | 0 <= i < j < |keys| :: keys[i] != keys[j]
  }

  // The languages decoded from the replies, in their order.
  function Langs(rs: seq<Translation>): seq<string> {
    seq(|rs|, i requires 0 <= i < |rs| => rs[i].lang)
  }

  lemma KeysDistinct(kind: Kind, rs: seq<Translation>)
    ensures Distinct(Keys(kind, rs)) <==> Distinct(Langs(rs))
  {
    var ks, ls, p := Keys(kind, rs), Langs(rs), Prefix(kind);
    forall i, j | 0 <= i < j < |rs| ensures ks[i] != ks[j] <==> ls[i] != ls[j] {
      assert ks[i][|p|..] == ls[i] && ks[j][|p|..] == ls[j];
    }
  }

  // Filling a map, one key after another.
  function Build(keys: seq<string>, values: seq<string>, n: nat): map<string, string>
    requires n <= |keys| == |values|
  {
    if n == 0 then map[] else Build(keys, values, n - 1)[keys[n - 1] := values[n - 1]]
  }

  lemma {:induction false} BuildKeys(keys: seq<string>, values: seq<string>, n: nat)
    requires n <= |keys| == |values|
    ensures var m := Build(keys, values, n);
            && |m| <= n
            && forall k :: k in m <==> k in keys[..n]
  {
    if n > 0 {
      BuildKeys(keys, values, n - 1);
      assert keys[..n] == keys[..n - 1] + [keys[n - 1]];
    }
  }

  lemma NewKey(keys: seq<string>, values: seq<string>, n: nat)
    requires 0 < n <= |keys| == |values| && Distinct(keys)
    ensures keys[n - 1] !in Build(keys, values, n - 1)
  {
    BuildKeys(keys, values, n - 1);
  }

  lemma {:induction false} BuildEntries(keys: seq<string>, values: seq<string>, n: nat)
    requires n <= |keys| == |values| && Distinct(keys)
    ensures var m := Build(keys, values, n);
            |m| == n && forall i | 0 <= i < n :: keys[i] in m && m[keys[i]] == values[i]
  {
    if n > 0 {
      BuildEntries(keys, values, n - 1);
      NewKey(keys, values, n);
    }
  }

  lemma {:induction false} RepeatShrinks(keys: seq<string>, values: seq<string>, n: nat, i: nat, j: nat)
    requires i < j < n <= |keys| == |values| && keys[i] == keys[j]
    ensures |Build(keys, values, n)| < n
  {
    BuildKeys(keys, values, n - 1);
    if j < n - 1 {
      RepeatShrinks(keys, values, n - 1, i, j);
    } else {
      assert keys[..n - 1][i] == keys[j];
    }
  }

  // As many entries as keys if and only if no key comes twice.
  lemma BuildSize(keys: seq<string>, values: seq<string>)
    requires |keys| == |values|
    ensures |Build(keys, values, |keys|)| == |keys| <==> Distinct(keys)
  {
    if Distinct(keys) {
      BuildEntries(keys, values, |keys|);
    } else {
      var i, j :| 0 <= i < j < |keys| && keys[i] == keys[j];
      RepeatShrinks(keys, values, |keys|, i, j);
    }
  }

  lemma CreateEffect(item: Item, languages: nat, info: Info, r: Translation, kind: Kind)
    ensures var d := Create(item, languages, info, r);
            && MapOf(d, kind) == Entry(item, kind, r)
            && d.ended == item.ended + if languages == |MapOf(d, TitleMap)| then 1 else 0
  {
  }

  // Build is what maps become that take up one key after another.
  lemma {:induction false} BuildOf(maps: seq<map<string, string>>, keys: seq<string>, values: seq<string>, n: nat)
    requires |maps| == |keys| + 1 == |values| + 1 && n <= |keys| && maps[0] == map[]
    requires forall i | 0 <= i < |keys| :: maps[i + 1] == maps[i][keys[i] := values[i]]
    ensures maps[n] == Build(keys, values, n)
  {
    if n > 0 {
      BuildOf(maps, keys, values, n - 1);
    }
  }

  function MapsOf(languages: nat, info: Info, rs: seq<Translation>, kind: Kind): seq<map<string, string>> {
    seq(|rs| + 1, i requires 0 <= i <= |rs| => MapOf(After(languages, info, rs, i), kind))
  }

  lemma MapsStart(languages: nat, info: Info, rs: seq<Translation>, n: nat, kind: Kind)
    requires n == 0
    ensures MapsOf(languages, info, rs, kind)[n] == map[]
  {
  }

  lemma MapsGrow(languages: nat, info: Info, rs: seq<Translation>, n: nat, kind: Kind)
    requires n < |rs|
    ensures var maps := MapsOf(languages, info, rs, kind);
            maps[n + 1] == maps[n][Keys(kind, rs)[n] := Texts(kind, rs)[n]]
  {
    CreateEffect(After(languages, info, rs, n), languages, info, rs[n], kind);
  }

  lemma AfterBuilds(languages: nat, info: Info, rs: seq<Translation>, n: nat, kind: Kind)
    requires n <= |rs|
    ensures MapOf(After(languages, info, rs, n), kind) == Build(Keys(kind, rs), Texts(kind, rs), n)
  {
    var maps := MapsOf(languages, info, rs, kind);
    // a variable, so that After and Build are not unfolded at a literal
    ghost var none: nat := 0;
    MapsStart(languages, info, rs, none, kind);
    forall i: nat | i < |rs| ensures maps[i + 1] == maps[i][Keys(kind, rs)[i] := Texts(kind, rs)[i]] {
      MapsGrow(languages, info, rs, i, kind);
    }
    BuildOf(maps, Keys(kind, rs), Texts(kind, rs), n);
  }

  function Titles(rs: seq<Translation>, n: nat): map<string, string>
    requires n <= |rs|
  {
    Build(Keys(TitleMap, rs), Texts(TitleMap, rs), n)
  }

  lemma EndsWhenFull(languages: nat, info: Info, rs: seq<Translation>, n: nat)
    requires 0 < n <= |rs|
    ensures After(languages, info, rs, n).ended ==
            After(languages, info, rs, n - 1).ended + if languages == |Titles(rs, n)| then 1 else 0
  {
    AfterBuilds(languages, info, rs, n, TitleMap);
    CreateEffect(After(languages, info, rs, n - 1), languages, info, rs[n - 1], TitleMap);
  }

  lemma TitlesSize(rs: seq<Translation>, n: nat)
    requires n <= |rs|
    ensures |Titles(rs, n)| <= n
    ensures n == |rs| ==> (|Titles(rs, n)| == n <==> Distinct(Langs(rs)))
  {
    BuildKeys(Keys(TitleMap, rs), Texts(TitleMap, rs), n);
    BuildSize(Keys(TitleMap, rs), Texts(TitleMap, rs));
    KeysDistinct(TitleMap, rs);
  }

  function EndsSeen(languages: nat, info: Info, rs: seq<Translation>): seq<nat> {
    seq(|rs| + 1, i requires 0 <= i <= |rs| => After(languages, info, rs, i).ended)
  }

  lemma EndsWithLast(languages: nat, info: Info, rs: seq<Translation>, n: nat)
    requires n < |rs| == languages
    ensures var counts := EndsSeen(languages, info, rs);
            counts[n + 1] == counts[n] + if n + 1 == |rs| && Distinct(Langs(rs)) then 1 else 0
  {
    var next := n + 1;
    EndsWhenFull(languages, info, rs, next);
    TitlesSize(rs, next);
  }

  lemma {:induction false} LastCounts(counts: seq<nat>, last: bool, n: nat)
    requires n < |counts| && counts[0] == 0
    requires forall i | 0 <= i < |counts| - 1 ::
               counts[i + 1] == counts[i] + if i + 2 == |counts| && last then 1 else 0
    ensures counts[n] == if 0 < n == |counts| - 1 && last then 1 else 0
  {
    if n > 0 {
      LastCounts(counts, last, n - 1);
    }
  }

  // With one reply for each language: nothing is emitted before the last reply, and the
  // last one emits the end if and only if no two replies decode to the same language.
  lemma EndsOnce(languages: nat, info: Info, rs: seq<Translation>, n: nat)
    requires n <= |rs| == languages && 0 < languages
    ensures After(languages, info, rs, n).ended == if n == languages && Distinct(Langs(rs)) then 1 else 0
  {
    var counts := EndsSeen(languages, info, rs);
    forall i: nat | i < |rs|
      ensures counts[i + 1] == counts[i] + if i + 1 == |rs| && Distinct(Langs(rs)) then 1 else 0
    {
      EndsWithLast(languages, info, rs, i);
    }
    LastCounts(counts, Distinct(Langs(rs)), n);
  }

  // As long as a reply is missing, nothing is emitted.
  lemma {:induction false} NoEndBefore(languages: nat, info: Info, rs: seq<Translation>, n: nat)
    requires n <= |rs| < languages
    ensures After(languages, info, rs, n).ended == 0
    decreases n
  {
    if n > 0 {
      NoEndBefore(languages, info, rs, n - 1);
      EndsWhenFull(languages, info, rs, n);
      TitlesSize(rs, n);
    }
  }

  /* ---- order ---- */

  ghost predicate EntryIn(key: string, value: string, keys: seq<string>, values: seq<string>)
    requires |keys| == |values|
  {
    exists j :: 0 <= j < |keys| && keys[j] == key && values[j] == value
  }

  lemma {:induction false} BuildIncluded(keys: seq<string>, values: seq<string>,
                                         keys': seq<string>, values': seq<string>)
    requires |keys| == |values| && |keys'| == |values'| && Distinct(keys) && Distinct(keys')
    requires forall i | 0 <= i < |keys| :: EntryIn(keys[i], values[i], keys', values')
    ensures var m, l := Build(keys, values, |keys|), Build(keys', values', |keys'|);
            forall k | k in m :: k in l && l[k] == m[k]
  {
    var m, l := Build(keys, values, |keys|), Build(keys', values', |keys'|);
    BuildKeys(keys, values, |keys|);
    BuildEntries(keys, values, |keys|);
    BuildEntries(keys', values', |keys'|);
    forall k | k in m ensures k in l && l[k] == m[k] {
      var i :| 0 <= i < |keys| && keys[i] == k;
      assert EntryIn(keys[i], values[i], keys', values');
    }
  }

  lemma EntriesPermute(kind: Kind, rs: seq<Translation>, ss: seq<Translation>, i: nat)
    requires multiset(rs) == multiset(ss) && i < |rs|
    ensures EntryIn(Keys(kind, rs)[i], Texts(kind, rs)[i], Keys(kind, ss), Texts(kind, ss))
  {
    assert rs[i] in multiset(ss);
    var j :| 0 <= j < |ss| && ss[j] == rs[i];
    assert Keys(kind, ss)[j] == Keys(kind, rs)[i] && Texts(kind, ss)[j] == Texts(kind, rs)[i];
  }

  lemma {:induction false} MapIncluded(kind: Kind, rs: seq<Translation>, ss: seq<Translation>)
    requires multiset(rs) == multiset(ss) && Distinct(Langs(rs)) && Distinct(Langs(ss))
    ensures var m := Build(Keys(kind, rs), Texts(kind, rs), |rs|);
            var l := Build(Keys(kind, ss), Texts(kind, ss), |ss|);
            forall k | k in m :: k in l && l[k] == m[k]
  {
    KeysDistinct(kind, rs);
    KeysDistinct(kind, ss);
    forall i | 0 <= i < |rs|
      ensures EntryIn(Keys(kind, rs)[i], Texts(kind, rs)[i], Keys(kind, ss), Texts(kind, ss))
    {
      EntriesPermute(kind, rs, ss, i);
    }
    BuildIncluded(Keys(kind, rs), Texts(kind, rs), Keys(kind, ss), Texts(kind, ss));
  }

  lemma {:induction false} BuildPermutes(kind: Kind, rs: seq<Translation>, ss: seq<Translation>)
    requires multiset(rs) == multiset(ss) && Distinct(Langs(rs)) && Distinct(Langs(ss))
    ensures |rs| == |ss|
    ensures Build(Keys(kind, rs), Texts(kind, rs), |rs|) == Build(Keys(kind, ss), Texts(kind, ss), |ss|)
  {
    assert |rs| == |multiset(rs)| && |ss| == |multiset(ss)|;
    MapIncluded(kind, rs, ss);
    MapIncluded(kind, ss, rs);
  }

  // The five maps do not depend on the order in which the replies arrive.
  lemma {:induction false} OrderDoesNotMatter(info: Info, rs: seq<Translation>, ss: seq<Translation>, kind: Kind)
    requires multiset(rs) == multiset(ss) && Distinct(Langs(rs)) && Distinct(Langs(ss))
    ensures |rs| == |ss|
    ensures MapOf(After(|rs|, info, rs, |rs|), kind) == MapOf(After(|ss|, info, ss, |ss|), kind)
  {
    BuildPermutes(kind, rs, ss);
    AfterBuilds(|rs|, info, rs, |rs|, kind);
    AfterBuilds(|ss|, info, ss, |ss|, kind);
  }

  /* ---- labels ---- */

  lemma {:induction false} DashAfterSource(source: string, target: string)
    requires '-' !in source
    ensures IndexOfDash(source + "-" + target) == |source|
  {
    var s := source + "-" + target;
    if source != "" {
      assert s[1..] == source[1..] + "-" + target;
      DashAfterSource(source[1..], target);
    }
  }

  // The label "source-target" decodes to the target if and only if both codes have the
  // same length.
  lemma LabelDecodes(source: string, target: string)
    requires '-' !in source
    ensures Target(source + "-" + target) == target <==> |source| == |target|
  {
    DashAfterSource(source, target);
    var s := source + "-" + target;
    if |source| == |target| {
      assert s[|s| - |source|..] == target;
    }
  }

  lemma LabelsDecodeAlike()
    ensures Target("ru-en") == "en" && Target("ru-xen") == "en"
  {
    DashAfterSource("ru", "en");
    DashAfterSource("ru", "xen");
    assert "ru" + "-" + "en" == "ru-en" && "ru" + "-" + "xen" == "ru-xen";
  }

  lemma ClashNeverEnds(languages: nat, info: Info, rs: seq<Translation>, i: nat, j: nat, n: nat)
    requires n <= |rs| == languages && i < j < |rs| && rs[i].lang == rs[j].lang
    ensures After(languages, info, rs, n).ended == 0
  {
    assert Langs(rs)[i] == Langs(rs)[j];
    EndsOnce(languages, info, rs, n);
  }

  // Two languages, both labels as the service sends them: "en" and "xen" decode to the same
  // language, and the end never comes.
  lemma TwoLabelsClash(rs: seq<Reply>, info: Info, n: nat)
    requires n <= |rs| == 2 && 3 <= |rs[0].text| && 3 <= |rs[1].text|
    requires rs[0].lang == "ru-en" && rs[1].lang == "ru-xen"
    ensures After(|rs|, info, DecodeAll(rs), n).ended == 0
  {
    LabelsDecodeAlike();
    ClashNeverEnds(|rs|, info, DecodeAll(rs), 0, 1, n);
  }

  function Without<T>(s: seq<T>, j: nat): seq<T>
    requires j < |s|
  {
    s[..j] + s[j + 1..]
  }

  lemma WithoutCounts<T>(s: seq<T>, j: nat)
    requires j < |s|
    ensures multiset(s) == multiset{s[j]} + multiset(Without(s, j))
  {
    assert s == s[..j] + ([s[j]] + s[j + 1..]);
  }

  lemma CancelOne<T>(x: T, a: multiset<T>, b: multiset<T>)
    requires multiset{x} + a == multiset{x} + b
    ensures a == b
  {
    assert a == (multiset{x} + a) - multiset{x} && b == (multiset{x} + b) - multiset{x};
  }

  lemma {:induction false} LangsPermute(rs: seq<Translation>, ss: seq<Translation>)
    requires multiset(rs) == multiset(ss)
    ensures multiset(Langs(rs)) == multiset(Langs(ss))
  {
    if rs == [] {
      assert |ss| == |multiset(ss)| == 0;
    } else {
      assert rs[0] in multiset(ss);
      var j :| 0 <= j < |ss| && ss[j] == rs[0];
      WithoutCounts(rs, 0);
      WithoutCounts(ss, j);
      CancelOne(rs[0], multiset(Without(rs, 0)), multiset(Without(ss, j)));
      LangsPermute(Without(rs, 0), Without(ss, j));
      LangsWithout(rs, 0);
      LangsWithout(ss, j);
    }
  }

  lemma LangsWithout(rs: seq<Translation>, j: nat)
    requires j < |rs|
    ensures multiset(Langs(rs)) == multiset{rs[j].lang} + multiset(Langs(Without(rs, j)))
  {
    WithoutCounts(Langs(rs), j);
    assert Without(Langs(rs), j) == Langs(Without(rs, j));
  }

  // Some of the replies are in, in any order: the end has come if and only if all are in and
  // no two decode to the same language.
  lemma EndedExactly(languages: nat, info: Info, all: seq<Translation>, rs: seq<Translation>)
    requires 0 < languages == |all| && multiset(rs) <= multiset(all)
    ensures |rs| <= |all|
    ensures After(languages, info, rs, |rs|).ended > 0 <==> |rs| == |all| && Distinct(Langs(all))
  {
    assert multiset(all) == multiset(rs) + (multiset(all) - multiset(rs));
    assert |rs| == |multiset(rs)| && |all| == |multiset(all)|;
    if |rs| < |all| {
      NoEndBefore(languages, info, rs, |rs|);
    } else {
      assert multiset(rs) == multiset(all);
      LangsPermute(rs, all);
      EndsOnce(languages, info, rs, |rs|);
      if Distinct(Langs(rs)) {
        DistinctPermutes(Langs(rs), Langs(all));
      }
      if Distinct(Langs(all)) {
        DistinctPermutes(Langs(all), Langs(rs));
      }
    }
  }

  /* ---- one reply for each language ---- */

  lemma {:induction false} DistinctOnce(a: seq<string>, x: string)
    requires Distinct(a)
    ensures multiset(a)[x] <= 1
  {
    if a != [] {
      var init := a[..|a| - 1];
      DistinctOnce(init, x);
      assert a == init + [a[|a| - 1]];
      assert x == a[|a| - 1] ==> x !in init;
    }
  }

  lemma DistinctPermutes(a: seq<string>, b: seq<string>)
    requires multiset(a) == multiset(b) && Distinct(a)
    ensures |a| == |b| && Distinct(b)
  {
    assert |a| == |multiset(a)| && |b| == |multiset(b)|;
    forall i, j | 0 <= i < j < |b| ensures b[i] != b[j] {
      DistinctOnce(a, b[i]);
      assert b == b[..j] + b[j..];
      assert b[i] in b[..j] && b[j] in b[j..];
    }
  }

  function DecodeAll(rs: seq<Reply>): seq<Translation>
    requires forall i | 0 <= i < |rs| :: 3 <= |rs[i].text|
  {
    seq(|rs|, i requires 0 <= i < |rs| => Decode(rs[i]))
  }

  // Distinct languages with codes as long as the source's, one reply for each in any
  // order: the end is emitted exactly once, by the last reply.
  lemma {:induction false} JoinEndsOnce(source: string, languages: seq<string>, targets: seq<string>,
                                        rs: seq<Reply>, info: Info, n: nat)
    requires '-' !in source && languages != [] && Distinct(languages)
    requires multiset(targets) == multiset(languages) && |rs| == |targets|
    requires forall i | 0 <= i < |rs| ::
               3 <= |rs[i].text| && rs[i].lang == source + "-" + targets[i] && |targets[i]| == |source|
    requires n <= |languages| == |rs|
    ensures Langs(DecodeAll(rs)) == targets
    ensures After(|languages|, info, DecodeAll(rs), n).ended == if n == |languages| then 1 else 0
  {
    DistinctPermutes(languages, targets);
    var ts := DecodeAll(rs);
    forall i | 0 <= i < |rs| ensures Langs(ts)[i] == targets[i] {
      LabelDecodes(source, targets[i]);
    }
    assert Langs(ts) == targets;
    EndsOnce(|languages|, info, ts, n);
  }
}
