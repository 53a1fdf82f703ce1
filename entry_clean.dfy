/** The compact form a JMdict word is normalised to before it is stored per
    headword: one-letter keys, falsy fields dropped, the `["*"]` wildcard left
    implicit. Three scripts write it with small differences:
    `clean_and_structure_entry` keeps a non-empty stored romaji, the Python
    builder romanises every kana text, and the JavaScript builder uses `&&`
    spreads (so `["*"]` is never dropped and a present list is always written).
    Each normaliser is paired with an expansion back to the raw schema and a
    round-trip lemma saying exactly what the compact form forgets. */
module EntryClean {
  import opened Wrappers
  import opened Json
  import opened JmdictRaw

  /* ---------- reading compact objects back ---------- */

  function TextAt(m: map<string, Json>, k: string): string
  {
    if k in m && m[k].JString? then m[k].s else ""
  }

  function OptTextAt(m: map<string, Json>, k: string): Option<string>
  {
    if k in m && m[k].JString? then Some(m[k].s) else None
  }

  function ListAt(m: map<string, Json>, k: string): seq<string>
  {
    if k in m then StringsOf(m[k]) else []
  }

  /** A list that the compact form omits when it is the wildcard. */
  function ScopeAt(m: map<string, Json>, k: string): seq<string>
  {
    if k in m then StringsOf(m[k]) else Wildcard
  }

  function ItemsAt(m: map<string, Json>, k: string): seq<Json>
  {
    if k in m && m[k].JArray? then m[k].items else []
  }

  function FieldsOf(v: Json): map<string, Json>
  {
    if v.JObject? then v.fields else map[]
  }

  /** `[clean(x) for x in xs]`: one object per element, in order. */
  function Objects<T>(xs: seq<T>, clean: T -> map<string, Json>): (r: Json)
    ensures r.JArray? && |r.items| == |xs|
  {
    JArray(seq(|xs|, i requires 0 <= i < |xs| => JObject(clean(xs[i]))))
  }

  /** Expands every object of an array. */
  function ObjectsOf<T>(v: Json, expand: map<string, Json> -> T): seq<T>
  {
    var items := if v.JArray? then v.items else [];
    seq(|items|, i requires 0 <= i < |items| => expand(FieldsOf(items[i])))
  }

  function MapSeq<T, U>(xs: seq<T>, f: T -> U): (r: seq<U>)
    ensures |r| == |xs|
  {
    seq(|xs|, i requires 0 <= i < |xs| => f(xs[i]))
  }

  function MapOpt<T>(o: Option<seq<T>>, f: T -> T): Option<seq<T>>
  {
    if o.None? then None else Some(MapSeq(o.value, f))
  }

  lemma ObjectsRoundTrip<T, U>(xs: seq<T>, clean: T -> map<string, Json>, expand: map<string, Json> -> U)
    ensures ObjectsOf(Objects(xs, clean), expand) == MapSeq(xs, x => expand(clean(x)))
  {
    var l := ObjectsOf(Objects(xs, clean), expand);
    var r := MapSeq(xs, x => expand(clean(x)));
    assert |l| == |r|;
    forall i | 0 <= i < |l| ensures l[i] == r[i] {
      assert FieldsOf(Objects(xs, clean).items[i]) == clean(xs[i]);
      assert r[i] == expand(clean(xs[i]));
    }
  }

  /** A present, non-empty string; `None`, JSON null and "" are all falsy. */
  function NonEmpty(o: Option<string>): (r: Option<string>)
    ensures r.Some? <==> o.Some? && o.value != ""
    ensures r.Some? ==> r == o
  {
    if o.Some? && o.value != "" then o else None
  }

  /* ---------- kanji ---------- */

  /** The part a kanji and a kana spelling share: the common flag, the
      text and the tags, each kept only when set. */
  function Spelling(common: bool, text: string, tags: seq<string>): (r: map<string, Json>)
    ensures r.Keys <= {"c", "t", "g"}
  {
    var m := Put(map[], common, "c", JBool(true));
    var m := Put(m, text != "", "t", JString(text));
    Put(m, |tags| > 0, "g", Strings(tags))
  }

  function CleanKanji(k: RawKanji): (r: map<string, Json>)
    ensures r.Keys <= {"c", "t", "g"}
  {
    Spelling(k.common, k.text, k.tags)
  }

  function ExpandKanji(m: map<string, Json>): RawKanji
  {
    RawKanji("c" in m, TextAt(m, "t"), ListAt(m, "g"))
  }

  /** Nothing of a kanji spelling is lost: false, "" and [] are what an
      omitted key stands for. */
  lemma KanjiRoundTrip(k: RawKanji)
    ensures ExpandKanji(CleanKanji(k)) == k
  {
    StringsRoundTrip(k.tags);
  }

  /* ---------- kana ---------- */

  /** `clean_and_structure_entry`'s kana: `"a"` unless the wildcard, `"r"`
      only for a stored non-empty romaji. */
  function CleanKanaWithRomaji(k: RawKana): (r: map<string, Json>)
    ensures r.Keys <= {"c", "t", "g", "a", "r"}
    ensures "r" in r <==> NonEmpty(k.romaji).Some?
  {
    var m := Put(Spelling(k.common, k.text, k.tags), k.appliesToKanji != Wildcard, "a", Strings(k.appliesToKanji));
    Put(m, NonEmpty(k.romaji).Some?, "r", JString(k.romaji.GetOr("")))
  }

  /** The Python builder's kana: `"r"` is always written, the romanisation of
      the text (`toRoma` stands for `romkan.to_roma`) or `{}` for an empty text. */
  function CleanKanaRomanised(k: RawKana, toRoma: string -> string): (r: map<string, Json>)
    ensures r.Keys <= {"c", "t", "g", "a", "r"}
    ensures "r" in r
    ensures r["r"] == if k.text != "" then JString(toRoma(k.text)) else JObject(map[])
  {
    var m := Put(Spelling(k.common, k.text, k.tags), k.appliesToKanji != Wildcard, "a", Strings(k.appliesToKanji));
    m["r" := if k.text != "" then JString(toRoma(k.text)) else JObject(map[])]
  }

  /** The JavaScript builder's kana: `x !== ['*']` compares identities and is
      always true, so `"a"` is always written; `"r"` repeats a non-empty text. */
  function CleanKanaJs(k: RawKana): (r: map<string, Json>)
    ensures r.Keys <= {"c", "t", "g", "a", "r"}
    ensures "a" in r
    ensures "r" in r <==> k.text != ""
  {
    Put(Spelling(k.common, k.text, k.tags)["a" := Strings(k.appliesToKanji)], k.text != "", "r", JString(k.text))
  }

  function ExpandKana(m: map<string, Json>): RawKana
  {
    RawKana("c" in m, TextAt(m, "t"), ListAt(m, "g"), ScopeAt(m, "a"), OptTextAt(m, "r"))
  }

  /** A kana whose empty stored romaji is forgotten. */
  function DropEmptyRomaji(k: RawKana): RawKana
  {
    k.(romaji := NonEmpty(k.romaji))
  }

  /** A kana whose stored romaji is replaced by `toRoma` of its non-empty text. */
  function RomajiOfText(k: RawKana, toRoma: string -> string): RawKana
  {
    k.(romaji := if k.text != "" then Some(toRoma(k.text)) else None)
  }

  /** Only an empty stored romaji is forgotten. */
  lemma KanaWithRomajiRoundTrip(k: RawKana)
    ensures ExpandKana(CleanKanaWithRomaji(k)) == DropEmptyRomaji(k)
  {
    StringsRoundTrip(k.tags);
    StringsRoundTrip(k.appliesToKanji);
  }

  /** The stored romaji is replaced by the romanisation of the text. */
  lemma KanaRomanisedRoundTrip(k: RawKana, toRoma: string -> string)
    ensures ExpandKana(CleanKanaRomanised(k, toRoma)) == RomajiOfText(k, toRoma)
  {
    StringsRoundTrip(k.tags);
    StringsRoundTrip(k.appliesToKanji);
  }

  /** The stored romaji is replaced by the text itself. */
  lemma KanaJsRoundTrip(k: RawKana)
    ensures ExpandKana(CleanKanaJs(k)) == RomajiOfText(k, t => t)
  {
    StringsRoundTrip(k.tags);
    StringsRoundTrip(k.appliesToKanji);
  }

  /* ---------- glosses ---------- */

  function CleanGloss(g: RawGloss): (r: map<string, Json>)
    ensures r.Keys <= {"g", "y", "t"}
  {
    var m := Put(map[], NonEmpty(g.gender).Some?, "g", JString(g.gender.GetOr("")));
    var m := Put(m, NonEmpty(g.glossType).Some?, "y", JString(g.glossType.GetOr("")));
    Put(m, g.text != "", "t", JString(g.text))
  }

  function ExpandGloss(m: map<string, Json>): RawGloss
  {
    RawGloss("", OptTextAt(m, "g"), OptTextAt(m, "y"), TextAt(m, "t"))
  }

  /** What a gloss keeps: its text and its non-empty gender and type. */
  function CanonGloss(g: RawGloss): RawGloss
  {
    RawGloss("", NonEmpty(g.gender), NonEmpty(g.glossType), g.text)
  }

  /** The language tag is dropped; null and "" gender or type become absent. */
  lemma GlossRoundTrip(g: RawGloss)
    ensures ExpandGloss(CleanGloss(g)) == CanonGloss(g)
  {
  }

  /* ---------- senses ---------- */

  /** Everything of a sense but its two scope lists: the eight other lists
      when non-empty, and `"g"` always (an absent gloss list is written `[]`). */
  function SenseBody(s: RawSense): (r: map<string, Json>)
    ensures "g" in r && r["g"].JArray? && |r["g"].items| == |s.gloss.GetOr([])|
    ensures "k" !in r && "a" !in r
  {
    var m := Put(map[], |s.antonym| > 0, "n", JArray(s.antonym));
    var m := Put(m, |s.dialect| > 0, "d", Strings(s.dialect));
    var m := Put(m, |s.field| > 0, "f", Strings(s.field));
    var m := m["g" := Objects(s.gloss.GetOr([]), CleanGloss)];
    var m := Put(m, |s.info| > 0, "i", Strings(s.info));
    var m := Put(m, |s.languageSource| > 0, "l", JArray(s.languageSource));
    var m := Put(m, |s.misc| > 0, "m", Strings(s.misc));
    var m := Put(m, |s.partOfSpeech| > 0, "p", Strings(s.partOfSpeech));
    Put(m, |s.related| > 0, "r", JArray(s.related))
  }

  /** Only the nine body keys occur. */
  lemma SenseBodyKeys(s: RawSense)
    ensures SenseBody(s).Keys <= {"n", "d", "f", "g", "i", "l", "m", "p", "r"}
  {
  }

  /** The Python sense: the scope lists are omitted when they are the wildcard. */
  function CleanSense(s: RawSense): (r: map<string, Json>)
    ensures "k" in r <==> s.appliesToKana != Wildcard
    ensures "a" in r <==> s.appliesToKanji != Wildcard
  {
    var m := Put(SenseBody(s), s.appliesToKana != Wildcard, "k", Strings(s.appliesToKana));
    Put(m, s.appliesToKanji != Wildcard, "a", Strings(s.appliesToKanji))
  }

  /** The JavaScript sense: both scope lists are always written. */
  function CleanSenseJs(s: RawSense): (r: map<string, Json>)
    ensures "k" in r && "a" in r
  {
    SenseBody(s)["k" := Strings(s.appliesToKana)]["a" := Strings(s.appliesToKanji)]
  }

  function ExpandSense(m: map<string, Json>): RawSense
  {
    RawSense(ListAt(m, "p"), ScopeAt(m, "a"), ScopeAt(m, "k"), ItemsAt(m, "r"), ItemsAt(m, "n"),
             ListAt(m, "f"), ListAt(m, "d"), ListAt(m, "m"), ListAt(m, "i"), ItemsAt(m, "l"),
             Some(ObjectsOf(if "g" in m then m["g"] else JArray([]), ExpandGloss)))
  }

  /** What a sense keeps: everything, with its glosses canonical and an
      absent gloss list read as empty. */
  function CanonSense(s: RawSense): RawSense
  {
    s.(gloss := Some(MapSeq(s.gloss.GetOr([]), CanonGloss)))
  }

  /* Where each field of a sense lands in `SenseBody`, one key at a time. */

  lemma AntonymLands(s: RawSense)
    ensures var b := SenseBody(s); ("n" in b <==> |s.antonym| > 0) && ("n" in b ==> b["n"] == JArray(s.antonym))
  {
  }

  lemma DialectLands(s: RawSense)
    ensures var b := SenseBody(s); ("d" in b <==> |s.dialect| > 0) && ("d" in b ==> b["d"] == Strings(s.dialect))
  {
  }

  lemma FieldLands(s: RawSense)
    ensures var b := SenseBody(s); ("f" in b <==> |s.field| > 0) && ("f" in b ==> b["f"] == Strings(s.field))
  {
  }

  lemma InfoLands(s: RawSense)
    ensures var b := SenseBody(s); ("i" in b <==> |s.info| > 0) && ("i" in b ==> b["i"] == Strings(s.info))
  {
  }

  lemma LanguageSourceLands(s: RawSense)
    ensures var b := SenseBody(s); ("l" in b <==> |s.languageSource| > 0) && ("l" in b ==> b["l"] == JArray(s.languageSource))
  {
  }

  lemma MiscLands(s: RawSense)
    ensures var b := SenseBody(s); ("m" in b <==> |s.misc| > 0) && ("m" in b ==> b["m"] == Strings(s.misc))
  {
  }

  lemma PartOfSpeechLands(s: RawSense)
    ensures var b := SenseBody(s); ("p" in b <==> |s.partOfSpeech| > 0) && ("p" in b ==> b["p"] == Strings(s.partOfSpeech))
  {
  }

  lemma RelatedLands(s: RawSense)
    ensures var b := SenseBody(s); ("r" in b <==> |s.related| > 0) && ("r" in b ==> b["r"] == JArray(s.related))
  {
  }

  lemma GlossesLand(s: RawSense)
    ensures var b := SenseBody(s); "g" in b && b["g"] == Objects(s.gloss.GetOr([]), CleanGloss)
    ensures "k" !in SenseBody(s) && "a" !in SenseBody(s)
  {
  }

  lemma ListBack(m: map<string, Json>, k: string, xs: seq<string>)
    requires k in m <==> |xs| > 0
    requires k in m ==> m[k] == Strings(xs)
    ensures ListAt(m, k) == xs
  {
    StringsRoundTrip(xs);
  }

  lemma ItemsBack(m: map<string, Json>, k: string, xs: seq<Json>)
    requires k in m <==> |xs| > 0
    requires k in m ==> m[k] == JArray(xs)
    ensures ItemsAt(m, k) == xs
  {
  }

  lemma ScopeBack(m: map<string, Json>, k: string, xs: seq<string>)
    requires k in m || xs == Wildcard
    requires k in m ==> m[k] == Strings(xs)
    ensures ScopeAt(m, k) == xs
  {
    StringsRoundTrip(xs);
  }

  lemma GlossesBack(m: map<string, Json>, s: RawSense)
    requires "g" in m && m["g"] == Objects(s.gloss.GetOr([]), CleanGloss)
    ensures ExpandSense(m).gloss == CanonSense(s).gloss
  {
    var gs := s.gloss.GetOr([]);
    ObjectsRoundTrip(gs, CleanGloss, ExpandGloss);
    var back := MapSeq(gs, x => ExpandGloss(CleanGloss(x)));
    forall i | 0 <= i < |gs| ensures back[i] == MapSeq(gs, CanonGloss)[i] {
      GlossRoundTrip(gs[i]);
    }
    assert back == MapSeq(gs, CanonGloss);
    assert ObjectsOf(m["g"], ExpandGloss) == back;
    assert ExpandSense(m).gloss == Some(ObjectsOf(m["g"], ExpandGloss));
  }

  /** Reads back the eight lists and the glosses of a compact sense. */
  lemma SenseBodyBack(s: RawSense, m: map<string, Json>)
    requires var b := SenseBody(s);
      forall k :: k in ["n", "d", "f", "g", "i", "l", "m", "p", "r"] ==>
        (k in m <==> k in b) && (k in b ==> m[k] == b[k])
    ensures ExpandSense(m).partOfSpeech == s.partOfSpeech && ExpandSense(m).related == s.related
    ensures ExpandSense(m).antonym == s.antonym && ExpandSense(m).field == s.field
    ensures ExpandSense(m).dialect == s.dialect && ExpandSense(m).misc == s.misc
    ensures ExpandSense(m).info == s.info && ExpandSense(m).languageSource == s.languageSource
    ensures ExpandSense(m).gloss == CanonSense(s).gloss
  {
    var b := SenseBody(s);
    assert forall k :: k in ["n", "d", "f", "g", "i", "l", "m", "p", "r"] ==> (k in m <==> k in b) && (k in b ==> m[k] == b[k]);
    AntonymLands(s); DialectLands(s); FieldLands(s); InfoLands(s);
    LanguageSourceLands(s); MiscLands(s); PartOfSpeechLands(s); RelatedLands(s);
    GlossesLand(s);
    ListBack(m, "p", s.partOfSpeech);
    ListBack(m, "f", s.field);
    ListBack(m, "d", s.dialect);
    ListBack(m, "m", s.misc);
    ListBack(m, "i", s.info);
    ItemsBack(m, "r", s.related);
    ItemsBack(m, "n", s.antonym);
    ItemsBack(m, "l", s.languageSource);
    GlossesBack(m, s);
  }

  /** Only the glosses are canonicalised; the wildcard comes back. */
  lemma SenseRoundTrip(s: RawSense)
    ensures ExpandSense(CleanSense(s)) == CanonSense(s)
  {
    var m := CleanSense(s);
    ScopesAdded(SenseBody(s), m, s.appliesToKana != Wildcard, Strings(s.appliesToKana), s.appliesToKanji != Wildcard, Strings(s.appliesToKanji));
    SenseBodyBack(s, m);
    ScopeBack(m, "k", s.appliesToKana);
    ScopeBack(m, "a", s.appliesToKanji);
  }

  lemma SenseJsRoundTrip(s: RawSense)
    ensures ExpandSense(CleanSenseJs(s)) == CanonSense(s)
  {
    var m := CleanSenseJs(s);
    ScopesAdded(SenseBody(s), m, true, Strings(s.appliesToKana), true, Strings(s.appliesToKanji));
    SenseBodyBack(s, m);
    ScopeBack(m, "k", s.appliesToKana);
    ScopeBack(m, "a", s.appliesToKanji);
  }

  /** Adding the scope lists leaves the body keys as they were. */
  lemma ScopesAdded(b: map<string, Json>, m: map<string, Json>, kana: bool, kanaList: Json, kanji: bool, kanjiList: Json)
    requires "k" !in b && "a" !in b
    requires m == Put(Put(b, kana, "k", kanaList), kanji, "a", kanjiList)
    ensures forall k :: k in ["n", "d", "f", "g", "i", "l", "m", "p", "r"] ==>
      (k in m <==> k in b) && (k in b ==> m[k] == b[k])
    ensures ("k" in m <==> kana) && ("k" in m ==> m["k"] == kanaList)
    ensures ("a" in m <==> kanji) && ("a" in m ==> m["a"] == kanjiList)
  {
  }

  /* ---------- entries ---------- */

  /** The Python normaliser, given its kana cleaner. `entry["kanji"]`,
      `entry["kana"]` and `entry["sense"]` are read with `[]`, so an entry
      lacking any of them raises KeyError (`None`); each list is written only
      when it is non-empty. */
  function CleanEntryWith(e: RawEntry, cleanKana: RawKana -> map<string, Json>): (r: Option<map<string, Json>>)
    ensures r.Some? <==> e.kanji.Some? && e.kana.Some? && e.sense.Some?
    ensures r.Some? ==> r.value.Keys <= {"k", "r", "s"}
    ensures r.Some? ==> ("k" in r.value <==> e.kanji.value != [])
    ensures r.Some? ==> ("r" in r.value <==> e.kana.value != [])
    ensures r.Some? ==> ("s" in r.value <==> e.sense.value != [])
  {
    if e.kanji.None? || e.kana.None? || e.sense.None? then None
    else
      var m := Put(map[], e.kanji.value != [], "k", Objects(e.kanji.value, CleanKanji));
      var m := Put(m, e.kana.value != [], "r", Objects(e.kana.value, cleanKana));
      Some(Put(m, e.sense.value != [], "s", Objects(e.sense.value, CleanSense)))
  }

  /** `clean_and_structure_entry`. */
  function CleanAndStructureEntry(e: RawEntry): Option<map<string, Json>>
  {
    CleanEntryWith(e, CleanKanaWithRomaji)
  }

  /** The entry the Python builder stores under `jmdict_entries[index]`. */
  function CleanEntryRomanised(e: RawEntry, toRoma: string -> string): Option<map<string, Json>>
  {
    CleanEntryWith(e, k => CleanKanaRomanised(k, toRoma))
  }

  /** The JavaScript normaliser: `entry.kanji && {...}` spreads whenever the
      list is present, even empty, and nothing is read from an absent list. */
  function CleanEntryJs(e: RawEntry): (r: map<string, Json>)
    ensures r.Keys <= {"k", "r", "s"}
    ensures "k" in r <==> e.kanji.Some?
    ensures "r" in r <==> e.kana.Some?
    ensures "s" in r <==> e.sense.Some?
  {
    var m := Put(map[], e.kanji.Some?, "k", Objects(e.kanji.GetOr([]), CleanKanji));
    var m := Put(m, e.kana.Some?, "r", Objects(e.kana.GetOr([]), CleanKanaJs));
    Put(m, e.sense.Some?, "s", Objects(e.sense.GetOr([]), CleanSenseJs))
  }

  function ListOf<T>(m: map<string, Json>, k: string, expand: map<string, Json> -> T): seq<T>
  {
    ObjectsOf(if k in m then m[k] else JArray([]), expand)
  }

  /** Reads a Python-normalised entry back: an omitted list is an empty one. */
  function ExpandEntry(m: map<string, Json>): RawEntry
  {
    RawEntry("", Some(ListOf(m, "k", ExpandKanji)), Some(ListOf(m, "r", ExpandKana)),
             Some(ListOf(m, "s", ExpandSense)))
  }

  /** Reads a JavaScript-normalised entry back: an omitted list is an absent one. */
  function ExpandEntryJs(m: map<string, Json>): RawEntry
  {
    RawEntry("",
             if "k" in m then Some(ListOf(m, "k", ExpandKanji)) else None,
             if "r" in m then Some(ListOf(m, "r", ExpandKana)) else None,
             if "s" in m then Some(ListOf(m, "s", ExpandSense)) else None)
  }

  /** What the compact form keeps of an entry: no id, canonical senses, and
      each kana's romaji as `kanaCanon` rewrites it. */
  function CanonEntry(e: RawEntry, kanaCanon: RawKana -> RawKana): RawEntry
  {
    RawEntry("", e.kanji, MapOpt(e.kana, kanaCanon), MapOpt(e.sense, CanonSense))
  }

  lemma ObjectsBack<T>(xs: seq<T>, clean: T -> map<string, Json>, expand: map<string, Json> -> T, canon: T -> T)
    requires forall i :: 0 <= i < |xs| ==> expand(clean(xs[i])) == canon(xs[i])
    ensures ObjectsOf(Objects(xs, clean), expand) == MapSeq(xs, canon)
  {
    ObjectsRoundTrip(xs, clean, expand);
    var back := MapSeq(xs, x => expand(clean(x)));
    assert forall i :: 0 <= i < |xs| ==> back[i] == MapSeq(xs, canon)[i];
  }

  lemma KanjiListBack(ks: seq<RawKanji>)
    ensures ObjectsOf(Objects(ks, CleanKanji), ExpandKanji) == ks
  {
    forall i | 0 <= i < |ks| ensures ExpandKanji(CleanKanji(ks[i])) == (x => x)(ks[i]) {
      KanjiRoundTrip(ks[i]);
    }
    ObjectsBack(ks, CleanKanji, ExpandKanji, x => x);
    assert MapSeq(ks, x => x) == ks;
  }

  lemma SenseListBack(ss: seq<RawSense>, cleanSense: RawSense -> map<string, Json>)
    requires forall s :: ExpandSense(cleanSense(s)) == CanonSense(s)
    ensures ObjectsOf(Objects(ss, cleanSense), ExpandSense) == MapSeq(ss, CanonSense)
  {
    ObjectsBack(ss, cleanSense, ExpandSense, CanonSense);
  }

  lemma PythonSensesBack(ss: seq<RawSense>)
    ensures ObjectsOf(Objects(ss, CleanSense), ExpandSense) == MapSeq(ss, CanonSense)
  {
    forall s ensures ExpandSense(CleanSense(s)) == CanonSense(s) {
      SenseRoundTrip(s);
    }
    SenseListBack(ss, CleanSense);
  }

  lemma JsSensesBack(ss: seq<RawSense>)
    ensures ObjectsOf(Objects(ss, CleanSenseJs), ExpandSense) == MapSeq(ss, CanonSense)
  {
    forall s ensures ExpandSense(CleanSenseJs(s)) == CanonSense(s) {
      SenseJsRoundTrip(s);
    }
    SenseListBack(ss, CleanSenseJs);
  }

  /** A Python-normalised entry reads back as the raw one whenever the
      normaliser does not fail, given that its kana cleaner reads back as
      `kanaCanon`. */
  lemma {:induction false} CleanEntryWithRoundTrip(e: RawEntry, cleanKana: RawKana -> map<string, Json>, kanaCanon: RawKana -> RawKana)
    requires forall k :: ExpandKana(cleanKana(k)) == kanaCanon(k)
    ensures CleanEntryWith(e, cleanKana).Some? ==>
      ExpandEntry(CleanEntryWith(e, cleanKana).value) == CanonEntry(e, kanaCanon)
  {
    if CleanEntryWith(e, cleanKana).Some? {
      var m := CleanEntryWith(e, cleanKana).value;
      KanjiListBack(e.kanji.value);
      ObjectsBack(e.kana.value, cleanKana, ExpandKana, kanaCanon);
      PythonSensesBack(e.sense.value);
      assert ListOf(m, "k", ExpandKanji) == e.kanji.value;
      assert ListOf(m, "r", ExpandKana) == MapSeq(e.kana.value, kanaCanon);
      assert ListOf(m, "s", ExpandSense) == MapSeq(e.sense.value, CanonSense);
    }
  }

  /** `clean_and_structure_entry` forgets the id, the gloss languages and
      empty stored romaji, and nothing else. */
  lemma CleanAndStructureRoundTrip(e: RawEntry)
    ensures CleanAndStructureEntry(e).Some? ==>
      ExpandEntry(CleanAndStructureEntry(e).value) == CanonEntry(e, DropEmptyRomaji)
  {
    forall k ensures ExpandKana(CleanKanaWithRomaji(k)) == DropEmptyRomaji(k) {
      KanaWithRomajiRoundTrip(k);
    }
    CleanEntryWithRoundTrip(e, CleanKanaWithRomaji, DropEmptyRomaji);
  }

  /** The Python builder's entry: as above, but every kana's romaji becomes
      the romanisation of its text. */
  lemma CleanEntryRomanisedRoundTrip(e: RawEntry, toRoma: string -> string)
    ensures CleanEntryRomanised(e, toRoma).Some? ==>
      ExpandEntry(CleanEntryRomanised(e, toRoma).value)
        == CanonEntry(e, k => RomajiOfText(k, toRoma))
  {
    var canon := k => RomajiOfText(k, toRoma);
    forall k ensures ExpandKana((k => CleanKanaRomanised(k, toRoma))(k)) == canon(k) {
      KanaRomanisedRoundTrip(k, toRoma);
    }
    CleanEntryWithRoundTrip(e, k => CleanKanaRomanised(k, toRoma), canon);
  }

  /** The JavaScript entry keeps which lists were present and every scope list
      as written; every kana's romaji becomes its text. */
  lemma CleanEntryJsRoundTrip(e: RawEntry)
    ensures ExpandEntryJs(CleanEntryJs(e))
         == CanonEntry(e, k => RomajiOfText(k, t => t))
  {
    var canon := k => RomajiOfText(k, t => t);
    var m := CleanEntryJs(e);
    if e.kanji.Some? {
      KanjiListBack(e.kanji.value);
      assert ListOf(m, "k", ExpandKanji) == e.kanji.value;
    }
    if e.kana.Some? {
      forall i | 0 <= i < |e.kana.value| ensures ExpandKana(CleanKanaJs(e.kana.value[i])) == canon(e.kana.value[i]) {
        KanaJsRoundTrip(e.kana.value[i]);
      }
      ObjectsBack(e.kana.value, CleanKanaJs, ExpandKana, canon);
      assert ListOf(m, "r", ExpandKana) == MapSeq(e.kana.value, canon);
    }
    if e.sense.Some? {
      JsSensesBack(e.sense.value);
      assert ListOf(m, "s", ExpandSense) == MapSeq(e.sense.value, CanonSense);
    }
  }
}
