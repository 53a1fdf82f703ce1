/** The type map of data/zh/word_dict/Word.ts and `Convert.toWord`, which
    checks a parsed word dictionary: an array of `Word` records. Every
    declaration is closed (`additional` is `false`). */
module WordSchema {
  import opened Wrappers
  import opened JsonValidate

  const WordDecl: Decl := ObjectDecl([
    Prop("_id", "_id", StringT),
    Prop("simp", "simp", StringT),
    Prop("trad", "trad", StringT),
    Prop("items", "items", ArrayOf(Ref("Item"))),
    Prop("gloss", "gloss", Opt(StringT)),
    Prop("pinyinSearchString", "pinyinSearchString", StringT),
    Prop("statistics", "statistics", Opt(Ref("Statistics")))
  ], FalseT)

  const ItemDecl: Decl := ObjectDecl([
    Prop("source", "source", Opt(Ref("Source"))),
    Prop("pinyin", "pinyin", Opt(StringT)),
    Prop("simpTrad", "simpTrad", Opt(Ref("SimpTrad"))),
    Prop("definitions", "definitions", Opt(ArrayOf(StringT))),
    Prop("tang", "tang", Opt(ArrayOf(StringT)))
  ], FalseT)

  const StatisticsDecl: Decl := ObjectDecl([
    Prop("hskLevel", "hskLevel", NumberT),
    Prop("topWords", "topWords", Opt(ArrayOf(Ref("TopWord")))),
    Prop("movieWordCount", "movieWordCount", Opt(NumberT)),
    Prop("movieWordCountPercent", "movieWordCountPercent", Opt(FloatT)),
    Prop("movieWordRank", "movieWordRank", Opt(NumberT)),
    Prop("movieWordContexts", "movieWordContexts", Opt(NumberT)),
    Prop("movieWordContextsPercent", "movieWordContextsPercent", Opt(FloatT)),
    Prop("bookWordCount", "bookWordCount", Opt(NumberT)),
    Prop("bookWordCountPercent", "bookWordCountPercent", Opt(FloatT)),
    Prop("bookWordRank", "bookWordRank", Opt(NumberT)),
    Prop("movieCharCount", "movieCharCount", Opt(NumberT)),
    Prop("movieCharCountPercent", "movieCharCountPercent", Opt(FloatT)),
    Prop("movieCharRank", "movieCharRank", Opt(NumberT)),
    Prop("movieCharContexts", "movieCharContexts", Opt(NumberT)),
    Prop("movieCharContextsPercent", "movieCharContextsPercent", Opt(FloatT)),
    Prop("bookCharCount", "bookCharCount", Opt(NumberT)),
    Prop("bookCharCountPercent", "bookCharCountPercent", Opt(FloatT)),
    Prop("bookCharRank", "bookCharRank", Opt(NumberT)),
    Prop("pinyinFrequency", "pinyinFrequency", Opt(NumberT))
  ], FalseT)

  const TopWordDecl: Decl := ObjectDecl([
    Prop("word", "word", StringT),
    Prop("share", "share", FloatT),
    Prop("trad", "trad", StringT),
    Prop("gloss", "gloss", StringT)
  ], FalseT)

  const SimpTradCases: seq<string> := ["both", "simp", "trad"]

  const SourceCases: seq<string> := ["cedict", "dong-chinese", "unicode"]

  /** `typeMap`. */
  const WordTypes: TypeMap := map[
    "Word" := WordDecl,
    "Item" := ItemDecl,
    "Statistics" := StatisticsDecl,
    "TopWord" := TopWordDecl,
    "SimpTrad" := EnumDecl(SimpTradCases),
    "Source" := EnumDecl(SourceCases)
  ]

  /** `Convert.toWord` after `JSON.parse`: `cast` against `a(r("Word"))`;
      `None` is the error it throws. */
  function ToWord(parsed: JsValue): Option<JsValue>
  {
    Transform(WordTypes, Cast, parsed, ArrayOf(Ref("Word")))
  }

  /** A document converts exactly when it is an array whose every element
      is a valid `Word`; the result has one record per element. */
  lemma ToWordElementwise(parsed: JsValue)
    ensures ToWord(parsed).Some? <==>
      parsed.Arr? && forall i :: 0 <= i < |parsed.items| ==> Transform(WordTypes, Cast, parsed.items[i], Ref("Word")).Some?
    ensures ToWord(parsed).Some? ==> ToWord(parsed).value.Arr? && |ToWord(parsed).value.items| == |parsed.items|
  {
    ArrayElementwise(WordTypes, Cast, parsed, Ref("Word"));
  }

  /** Every accepted `Word` record is an object that holds `_id`, `simp`,
      `trad`, `items` and `pinyinSearchString`, no property outside the
      interface, and an array of valid items. */
  lemma WordRecord(v: JsValue)
    requires Transform(WordTypes, Cast, v, Ref("Word")).Some?
    ensures v.Obj?
    ensures forall k :: k in ["_id", "simp", "trad", "items", "pinyinSearchString"] ==> k in KeysOf(v.entries)
    ensures forall k :: k in KeysOf(v.entries) ==> k in PropNames(Cast, WordDecl.props)
    ensures var items := PropValue(v.entries, "items");
      items.Arr? && forall i :: 0 <= i < |items.items| ==> Transform(WordTypes, Cast, items.items[i], Ref("Item")).Some?
  {
    assert WordTypes["Word"] == WordDecl;
    WordRequired(v);
    ClosedObject(WordTypes, Cast, v, "Word");
    WordItems(v);
  }

  lemma WordRequired(v: JsValue)
    requires Transform(WordTypes, Cast, v, Ref("Word")).Some?
    ensures v.Obj?
    ensures "_id" in KeysOf(v.entries) && "simp" in KeysOf(v.entries) && "trad" in KeysOf(v.entries)
    ensures "items" in KeysOf(v.entries) && "pinyinSearchString" in KeysOf(v.entries)
  {
    WordKey(v, 0);
    WordKey(v, 1);
    WordKey(v, 2);
    WordKey(v, 3);
    WordKey(v, 5);
  }

  /** A property whose type rejects `undefined` is present. */
  lemma WordKey(v: JsValue, i: nat)
    requires Transform(WordTypes, Cast, v, Ref("Word")).Some?
    requires i in {0, 1, 2, 3, 5}
    ensures v.Obj? && WordDecl.props[i].json in KeysOf(v.entries)
  {
    assert WordTypes["Word"] == WordDecl;
    Primitives(WordTypes, Cast, Undefined);
    ArrayElementwise(WordTypes, Cast, Undefined, Ref("Item"));
    RequiredPresent(WordTypes, Cast, v, "Word", i);
  }

  lemma WordItems(v: JsValue)
    requires Transform(WordTypes, Cast, v, Ref("Word")).Some?
    ensures v.Obj?
    ensures var items := PropValue(v.entries, "items");
      items.Arr? && forall i :: 0 <= i < |items.items| ==> Transform(WordTypes, Cast, items.items[i], Ref("Item")).Some?
  {
    assert WordTypes["Word"] == WordDecl;
    PropAccepted(WordTypes, Cast, v, "Word", 3);
    ArrayElementwise(WordTypes, Cast, PropValue(v.entries, "items"), Ref("Item"));
  }

  /** `simpTrad` of an item, when present, is `"both"`, `"simp"` or
      `"trad"`. */
  lemma ItemSimpTrad(v: JsValue)
    requires Transform(WordTypes, Cast, v, Ref("Item")).Some?
    ensures v.Obj?
    ensures var s := PropValue(v.entries, "simpTrad"); s.Undefined? || (s.Str? && s.s in SimpTradCases)
  {
    assert WordTypes["Item"] == ItemDecl;
    PropAccepted(WordTypes, Cast, v, "Item", 2);
    var s := PropValue(v.entries, "simpTrad");
    OptionalProperty(WordTypes, Cast, s, Ref("SimpTrad"));
    EnumMembership(WordTypes, Cast, s, "SimpTrad");
  }

  /** `source` of an item, when present, is one of the three listed
      sources. */
  lemma ItemSource(v: JsValue)
    requires Transform(WordTypes, Cast, v, Ref("Item")).Some?
    ensures v.Obj?
    ensures var s := PropValue(v.entries, "source"); s.Undefined? || (s.Str? && s.s in SourceCases)
  {
    assert WordTypes["Item"] == ItemDecl;
    PropAccepted(WordTypes, Cast, v, "Item", 0);
    var s := PropValue(v.entries, "source");
    OptionalProperty(WordTypes, Cast, s, Ref("Source"));
    EnumMembership(WordTypes, Cast, s, "Source");
  }

  /** `Convert.wordToJson` before `JSON.stringify`: `uncast` against
      `a(r("Word"))`. */
  function FromWord(value: JsValue): Option<JsValue>
  {
    Transform(WordTypes, Uncast, value, ArrayOf(Ref("Word")))
  }

  /** Every property of the map keeps its name, so `uncast` accepts and
      rebuilds exactly what `cast` does. */
  lemma WordUncastIsCast(v: JsValue)
    ensures FromWord(v) == ToWord(v)
  {
    WordNamesKept();
    CastIsUncast(WordTypes, v, ArrayOf(Ref("Word")));
  }

  /** No declaration of the map renames a property. */
  lemma WordNamesKept()
    ensures SameNames(WordTypes)
  {
    WordDeclNamesKept();
  }

  lemma WordDeclNamesKept()
    ensures KeepsNames(WordDecl) && KeepsNames(ItemDecl) && KeepsNames(StatisticsDecl) && KeepsNames(TopWordDecl)
  {
  }
}
