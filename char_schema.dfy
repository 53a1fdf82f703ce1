/** The type map of data/zh/char_dict/Char.ts and `Convert.toChar`, which
    checks a parsed character dictionary: an array of `Char` records. Every
    declaration is closed (`additional` is `false`). */
module CharSchema {
  import opened Wrappers
  import opened JsonValidate

  const CharDecl: Decl := ObjectDecl([
    Prop("_id", "_id", StringT),
    Prop("char", "char", StringT),
    Prop("codepoint", "codepoint", Opt(StringT)),
    Prop("strokeCount", "strokeCount", Opt(Union([NumberT, StringT]))),
    Prop("sources", "sources", Opt(ArrayOf(Ref("Source")))),
    Prop("images", "images", Opt(Union([ArrayOf(Ref("Image")), NullT]))),
    Prop("shuowen", "shuowen", Opt(StringT)),
    Prop("variants", "variants", Opt(ArrayOf(Ref("Variant")))),
    Prop("gloss", "gloss", Opt(StringT)),
    Prop("statistics", "statistics", Opt(Ref("Statistics"))),
    Prop("hint", "hint", Opt(StringT)),
    Prop("isVerified", "isVerified", Opt(BooleanT)),
    Prop("variantOf", "variantOf", Opt(StringT)),
    Prop("simpVariants", "simpVariants", Opt(ArrayOf(StringT))),
    Prop("comments", "comments", Opt(ArrayOf(Ref("Comment")))),
    Prop("customSources", "customSources", Opt(ArrayOf(StringT))),
    Prop("components", "components", Opt(ArrayOf(Ref("Component")))),
    Prop("data", "data", Opt(Union([Ref("CharData"), NullT]))),
    Prop("fragments", "fragments", Opt(Union([ArrayOf(ArrayOf(NumberT)), NullT]))),
    Prop("oldPronunciations", "oldPronunciations", Opt(Union([ArrayOf(Ref("OldPronunciation")), NullT]))),
    Prop("originalMeaning", "originalMeaning", Opt(StringT)),
    Prop("tradVariants", "tradVariants", Opt(ArrayOf(StringT))),
    Prop("pinyinFrequencies", "pinyinFrequencies", Opt(ArrayOf(Ref("PinyinFrequency"))))
  ], FalseT)

  const CommentDecl: Decl := ObjectDecl([
    Prop("source", "source", Ref("Source")),
    Prop("text", "text", StringT)
  ], FalseT)

  const ComponentDecl: Decl := ObjectDecl([
    Prop("type", "type", ArrayOf(Ref("TypeElement"))),
    Prop("character", "character", StringT),
    Prop("hint", "hint", Opt(Union([NullT, StringT]))),
    Prop("isOldPronunciation", "isOldPronunciation", Opt(BooleanT)),
    Prop("isGlyphChanged", "isGlyphChanged", Opt(BooleanT)),
    Prop("isFromOriginalMeaning", "isFromOriginalMeaning", Opt(BooleanT))
  ], FalseT)

  const CharDataDecl: Decl := ObjectDecl([
    Prop("strokes", "strokes", ArrayOf(StringT)),
    Prop("medians", "medians", ArrayOf(ArrayOf(ArrayOf(FloatT)))),
    Prop("character", "character", Opt(StringT))
  ], FalseT)

  const ImageDecl: Decl := ObjectDecl([
    Prop("url", "url", Opt(StringT)),
    Prop("source", "source", Ref("Source")),
    Prop("description", "description", StringT),
    Prop("type", "type", Ref("ImageType")),
    Prop("era", "era", Ref("Era")),
    Prop("data", "data", Opt(Ref("ImageData"))),
    Prop("fragments", "fragments", Opt(ArrayOf(ArrayOf(NumberT))))
  ], FalseT)

  const ImageDataDecl: Decl := ObjectDecl([
    Prop("strokes", "strokes", ArrayOf(StringT)),
    Prop("medians", "medians", ArrayOf(ArrayOf(ArrayOf(FloatT))))
  ], FalseT)

  const OldPronunciationDecl: Decl := ObjectDecl([
    Prop("pinyin", "pinyin", Opt(StringT)),
    Prop("MC", "MC", StringT),
    Prop("OC", "OC", Opt(StringT)),
    Prop("gloss", "gloss", Opt(StringT)),
    Prop("source", "source", Opt(Ref("Source")))
  ], FalseT)

  const PinyinFrequencyDecl: Decl := ObjectDecl([
    Prop("pinyin", "pinyin", StringT),
    Prop("count", "count", NumberT)
  ], FalseT)

  const StatisticsDecl: Decl := ObjectDecl([
    Prop("hskLevel", "hskLevel", NumberT),
    Prop("movieWordCount", "movieWordCount", Opt(NumberT)),
    Prop("movieWordCountPercent", "movieWordCountPercent", Opt(FloatT)),
    Prop("movieWordRank", "movieWordRank", Opt(NumberT)),
    Prop("movieWordContexts", "movieWordContexts", Opt(NumberT)),
    Prop("movieWordContextsPercent", "movieWordContextsPercent", Opt(FloatT)),
    Prop("bookWordCount", "bookWordCount", Opt(NumberT)),
    Prop("bookWordCountPercent", "bookWordCountPercent", Opt(FloatT)),
    Prop("bookWordRank", "bookWordRank", Opt(NumberT)),
    Prop("movieCharCount", "movieCharCount", Opt(NumberT)),
    Prop("movieCharCountPercent", "movieCharCountPercent", Opt(FloatT)),
    Prop("movieCharRank", "movieCharRank", Opt(NumberT)),
    Prop("movieCharContexts", "movieCharContexts", Opt(NumberT)),
    Prop("movieCharContextsPercent", "movieCharContextsPercent", Opt(FloatT)),
    Prop("bookCharCount", "bookCharCount", Opt(NumberT)),
    Prop("bookCharCountPercent", "bookCharCountPercent", Opt(FloatT)),
    Prop("bookCharRank", "bookCharRank", Opt(NumberT)),
    Prop("topWords", "topWords", Opt(ArrayOf(Ref("TopWord")))),
    Prop("pinyinFrequency", "pinyinFrequency", Opt(NumberT))
  ], FalseT)

  const TopWordDecl: Decl := ObjectDecl([
    Prop("word", "word", StringT),
    Prop("share", "share", FloatT),
    Prop("trad", "trad", StringT),
    Prop("gloss", "gloss", StringT)
  ], FalseT)

  const VariantDecl: Decl := ObjectDecl([
    Prop("char", "char", Union([NullT, StringT])),
    Prop("parts", "parts", Union([NullT, StringT])),
    Prop("source", "source", Ref("Source"))
  ], FalseT)

  const SourceCases: seq<string> := ["academia-sinica", "baxter-sagart", "dong-chinese", "makemeahanzi", "unicode"]

  const TypeElementCases: seq<string> :=
    ["deleted", "distinguishing", "iconic", "meaning", "remnant", "simplified", "sound", "unknown"]

  const EraCases: seq<string> := [
    "Cao Wei (Three Kingdoms: 222-280 AD)",
    "Chu (Warring States: 475-221 BC)",
    "Early Spring and Autumn (~700 BC)",
    "Early Warring States (~400 BC)",
    "Early Western Zhou (~1000 BC)",
    "Eastern Han dynasty (25-220 AD)",
    "Han dynasty (202 BC - 220 AD)",
    "Jin dynasty (266-420 AD)",
    "Late Shang dynasty (~1100 BC)",
    "Late Spring and Autumn (~500 BC)",
    "Late Warring States (~250 BC)",
    "Late Western Zhou (~800 BC)",
    "Mid Spring and Autumn (~600 BC)",
    "Mid Warring States (~300 BC)",
    "Mid Western Zhou (~900 BC)",
    "Modern",
    "Qin dynasty (221-206 BC)",
    "Shuowen (~100 AD)",
    "Spring and Autumn (771-476 BC)",
    "(~1200 - 221 BC)",
    "(~1250-1000 BC)",
    "(~200 AD)",
    "Warring States (475-221 BC)",
    "Western Han dynasty (202 BC-9 AD)",
    "Western Jin dynasty (266-316 AD)",
    "Western Zhou (1045-771 BC)",
    "Wu (Three Kingdoms: 222-280 AD)",
    "Xin dynasty (9-23 AD)"
  ]

  const ImageTypeCases: seq<string> := ["Bronze", "Clerical", "Oracle", "Regular", "Seal"]

  /** `typeMap`. */
  const CharTypes: TypeMap := map[
    "Char" := CharDecl,
    "Comment" := CommentDecl,
    "Component" := ComponentDecl,
    "CharData" := CharDataDecl,
    "Image" := ImageDecl,
    "ImageData" := ImageDataDecl,
    "OldPronunciation" := OldPronunciationDecl,
    "PinyinFrequency" := PinyinFrequencyDecl,
    "Statistics" := StatisticsDecl,
    "TopWord" := TopWordDecl,
    "Variant" := VariantDecl,
    "Source" := EnumDecl(SourceCases),
    "TypeElement" := EnumDecl(TypeElementCases),
    "Era" := EnumDecl(EraCases),
    "ImageType" := EnumDecl(ImageTypeCases)
  ]

  /** `Convert.toChar` after `JSON.parse`: `cast` against `a(r("Char"))`;
      `None` is the error it throws. */
  function ToChar(parsed: JsValue): Option<JsValue>
  {
    Transform(CharTypes, Cast, parsed, ArrayOf(Ref("Char")))
  }

  /** A document converts exactly when it is an array whose every element
      is a valid `Char`; the result has one record per element. */
  lemma ToCharElementwise(parsed: JsValue)
    ensures ToChar(parsed).Some? <==>
      parsed.Arr? && forall i :: 0 <= i < |parsed.items| ==> Transform(CharTypes, Cast, parsed.items[i], Ref("Char")).Some?
    ensures ToChar(parsed).Some? ==> ToChar(parsed).value.Arr? && |ToChar(parsed).value.items| == |parsed.items|
  {
    ArrayElementwise(CharTypes, Cast, parsed, Ref("Char"));
  }

  /** Every accepted `Char` record is an object that holds `_id` and
      `char` as strings and no property outside the interface. */
  lemma CharRecord(v: JsValue)
    requires Transform(CharTypes, Cast, v, Ref("Char")).Some?
    ensures v.Obj?
    ensures "_id" in KeysOf(v.entries) && PropValue(v.entries, "_id").Str?
    ensures "char" in KeysOf(v.entries) && PropValue(v.entries, "char").Str?
    ensures forall k :: k in KeysOf(v.entries) ==> k in PropNames(Cast, CharDecl.props)
  {
    CharRecordIn(CharTypes, v);
  }

  /** The same for any map that binds `Char` to its declaration. */
  lemma CharRecordIn(tm: TypeMap, v: JsValue)
    requires "Char" in tm && tm["Char"] == CharDecl
    requires Transform(tm, Cast, v, Ref("Char")).Some?
    ensures v.Obj?
    ensures "_id" in KeysOf(v.entries) && PropValue(v.entries, "_id").Str?
    ensures "char" in KeysOf(v.entries) && PropValue(v.entries, "char").Str?
    ensures forall k :: k in KeysOf(v.entries) ==> k in PropNames(Cast, CharDecl.props)
  {
    assert CharDecl.props[0].json == "_id" && CharDecl.props[1].json == "char";
    CharKey(tm, v, 0);
    CharKey(tm, v, 1);
    ClosedObject(tm, Cast, v, "Char");
  }

  /** `_id` and `char` are required strings. */
  lemma CharKey(tm: TypeMap, v: JsValue, i: nat)
    requires "Char" in tm && tm["Char"] == CharDecl
    requires Transform(tm, Cast, v, Ref("Char")).Some?
    requires i < 2
    ensures v.Obj? && CharDecl.props[i].json in KeysOf(v.entries) && PropValue(v.entries, CharDecl.props[i].json).Str?
  {
    assert CharDecl.props[i].typ == StringT;
    Primitives(tm, Cast, Undefined);
    RequiredPresent(tm, Cast, v, "Char", i);
    PropAccepted(tm, Cast, v, "Char", i);
    Primitives(tm, Cast, PropValue(v.entries, CharDecl.props[i].json));
  }

  /** A source is accepted exactly when it is one of the five listed
      strings. */
  lemma SourceMembership(v: JsValue)
    ensures Transform(CharTypes, Cast, v, Ref("Source")).Some? <==> v.Str? && v.s in SourceCases
  {
    assert CharTypes["Source"] == EnumDecl(SourceCases);
  }

  /** A variant must carry `char`, `parts` and `source`: `null` is
      accepted for the first two, a missing property is not. */
  lemma VariantRequired(v: JsValue)
    requires Transform(CharTypes, Cast, v, Ref("Variant")).Some?
    ensures v.Obj? && "char" in KeysOf(v.entries) && "parts" in KeysOf(v.entries) && "source" in KeysOf(v.entries)
  {
    VariantKey(v, 0);
    VariantKey(v, 1);
    VariantKey(v, 2);
  }

  /** No property of a variant accepts `undefined`. */
  lemma VariantKey(v: JsValue, i: nat)
    requires Transform(CharTypes, Cast, v, Ref("Variant")).Some?
    requires i < 3
    ensures v.Obj? && VariantDecl.props[i].json in KeysOf(v.entries)
  {
    assert CharTypes["Variant"] == VariantDecl;
    assert CharTypes["Source"] == EnumDecl(SourceCases);
    UnionFirstMatch(CharTypes, Cast, Undefined, [NullT, StringT]);
    Primitives(CharTypes, Cast, Undefined);
    RequiredPresent(CharTypes, Cast, v, "Variant", i);
  }

  /** `Convert.charToJson` before `JSON.stringify`: `uncast` against
      `a(r("Char"))`. */
  function FromChar(value: JsValue): Option<JsValue>
  {
    Transform(CharTypes, Uncast, value, ArrayOf(Ref("Char")))
  }

  /** Every property of the map keeps its name, so `uncast` accepts and
      rebuilds exactly what `cast` does. */
  lemma CharUncastIsCast(v: JsValue)
    ensures FromChar(v) == ToChar(v)
  {
    CharNamesKept();
    CastIsUncast(CharTypes, v, ArrayOf(Ref("Char")));
  }

  /** No declaration of the map renames a property. */
  lemma CharNamesKept()
    ensures SameNames(CharTypes)
  {
    DeclNamesKept();
  }

  lemma DeclNamesKept()
    ensures KeepsNames(CharDecl) && KeepsNames(CommentDecl) && KeepsNames(ComponentDecl)
    ensures KeepsNames(CharDataDecl) && KeepsNames(ImageDecl) && KeepsNames(ImageDataDecl)
    ensures KeepsNames(OldPronunciationDecl) && KeepsNames(PinyinFrequencyDecl) && KeepsNames(StatisticsDecl)
    ensures KeepsNames(TopWordDecl) && KeepsNames(VariantDecl)
  {
    EntryNamesKept();
    PartNamesKept();
  }

  lemma EntryNamesKept()
    ensures KeepsNames(CharDecl) && KeepsNames(CommentDecl) && KeepsNames(ComponentDecl)
    ensures KeepsNames(CharDataDecl) && KeepsNames(ImageDecl)
  {
  }

  lemma PartNamesKept()
    ensures KeepsNames(ImageDataDecl) && KeepsNames(OldPronunciationDecl) && KeepsNames(PinyinFrequencyDecl)
    ensures KeepsNames(StatisticsDecl) && KeepsNames(TopWordDecl) && KeepsNames(VariantDecl)
  {
  }
}
