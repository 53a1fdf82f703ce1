/** The Chinese character dictionary record classes. Enum-typed fields hold
    the enum's string value; a string outside the enum raises ValueError,
    modelled as a failed construction. */
module CharDictTypes {
  import opened Wrappers
  import opened Json
  import opened PyRecord

  /** The values of `TypeElement` and of `ImageType`. */
  const TypeElements: seq<string> := ["deleted", "distinguishing", "iconic", "meaning", "remnant", "simplified", "sound", "unknown"]
  const ImageTypes: seq<string> := ["Bronze", "Clerical", "Oracle", "Regular", "Seal"]

  // The simple records. `Comment`, `ImageData`, `PinyinFrequency` and
  // `TopWord` return their whole `__dict__`; `CharData`, `OldPronunciation`
  // and `Variant` drop None.
  const CommentFields: seq<Field> := [Req("source", "source"), Req("text", "text")]
  const CharDataFields: seq<Field> := [Req("strokes", "strokes"), Req("medians", "medians"), Opt("character", "character")]
  const ImageDataFields: seq<Field> := [Req("strokes", "strokes"), Req("medians", "medians")]
  const OldPronunciationFields: seq<Field> :=
    [Opt("pinyin", "pinyin"), Req("MC", "MC"), Opt("OC", "OC"), Opt("gloss", "gloss"), Opt("source", "source")]
  const PinyinFrequencyFields: seq<Field> := [Req("pinyin", "pinyin"), Req("count", "count")]
  const TopWordFields: seq<Field> := [Req("word", "word"), Req("share", "share"), Req("trad", "trad"), Req("gloss", "gloss")]
  const VariantFields: seq<Field> := [Opt("char", "char"), Opt("parts", "parts"), Req("source", "source")]

  function Comment(d: map<string, Json>): Option<seq<Attr>> { Construct(CommentFields, d) }
  function CharData(d: map<string, Json>): Option<seq<Attr>> { Construct(CharDataFields, d) }
  function ImageData(d: map<string, Json>): Option<seq<Attr>> { Construct(ImageDataFields, d) }
  function OldPronunciation(d: map<string, Json>): Option<seq<Attr>> { Construct(OldPronunciationFields, d) }
  function PinyinFrequency(d: map<string, Json>): Option<seq<Attr>> { Construct(PinyinFrequencyFields, d) }
  function TopWord(d: map<string, Json>): Option<seq<Attr>> { Construct(TopWordFields, d) }
  function Variant(d: map<string, Json>): Option<seq<Attr>> { Construct(VariantFields, d) }

  /** `[TypeElement(t) for t in v]`: a list of enum values. A string is
      iterated by character, and no value is one character long, so only ""
      is accepted (with no elements); an object is iterated by its keys, which
      must all be values (its key order is not part of `Json`, so the keys
      come in the order of `TypeElements`); anything else raises. */
  function TypeList(v: Json): (r: Option<seq<string>>)
    ensures r.Some? ==> forall t :: t in r.value ==> t in TypeElements
    ensures v.JArray? ==> (r.Some? <==> forall i :: 0 <= i < |v.items| ==> v.items[i].JString? && v.items[i].s in TypeElements)
    ensures v.JArray? && r.Some? ==> |r.value| == |v.items| && forall i :: 0 <= i < |v.items| ==> v.items[i] == JString(r.value[i])
    ensures v.JString? ==> (r.Some? <==> v.s == "") && (r.Some? ==> r.value == [])
    ensures v.JObject? ==> (r.Some? <==> forall k :: k in v.fields ==> k in TypeElements)
    ensures v.JObject? && r.Some? ==> forall t :: t in r.value <==> t in v.fields
    ensures v.JObject? && r.Some? ==> forall i, j :: 0 <= i < j < |r.value| ==> r.value[i] != r.value[j]
    ensures !v.JArray? && !v.JString? && !v.JObject? ==> r.None?
  {
    match v
    case JArray(xs) => TypeStrings(xs)
    case JString(s) => if s == "" then Some([]) else None
    case JObject(m) => if forall k :: k in m ==> k in TypeElements then Some(KeysIn(TypeElements, m)) else None
    case _ => None
  }

  /** The elements of `es` that are keys of `m`, in the order of `es`. */
  function KeysIn(es: seq<string>, m: map<string, Json>): (r: seq<string>)
    ensures forall t :: t in r <==> t in es && t in m
    ensures (forall i, j :: 0 <= i < j < |es| ==> es[i] != es[j]) ==> forall i, j :: 0 <= i < j < |r| ==> r[i] != r[j]
  {
    if es == [] then []
    else if es[0] in m then [es[0]] + KeysIn(es[1..], m)
    else KeysIn(es[1..], m)
  }

  function TypeStrings(xs: seq<Json>): (r: Option<seq<string>>)
    ensures r.Some? <==> forall i :: 0 <= i < |xs| ==> xs[i].JString? && xs[i].s in TypeElements
    ensures r.Some? ==> |r.value| == |xs| && forall i :: 0 <= i < |xs| ==> xs[i] == JString(r.value[i])
  {
    if xs == [] then Some([])
    else if !xs[0].JString? || xs[0].s !in TypeElements then None
    else
      match TypeStrings(xs[1..])
      case None => None
      case Some(rest) => Some([xs[0].s] + rest)
  }

  /** `Component`: its enum list and its other attributes. */
  datatype Component = Component(types: seq<string>, attrs: seq<Attr>)
  {
    /** The None-free attributes, the type list as its string values. */
    function ToDict(): map<string, Json>
    {
      DropNone(attrs)["type" := Strings(types)]
    }
  }

  const ComponentFields: seq<Field> :=
    [Req("character", "character"), Opt("hint", "hint"), Opt("is_old_pronunciation", "isOldPronunciation"),
     Opt("is_glyph_changed", "isGlyphChanged"), Opt("is_from_original_meaning", "isFromOriginalMeaning")]

  function NewComponent(d: map<string, Json>): (r: Option<Component>)
    ensures r.Some? ==> "type" in d && TypeList(d["type"]) == Some(r.value.types)
    ensures r.Some? ==> Construct(ComponentFields, d) == Some(r.value.attrs)
  {
    if "type" !in d then None
    else
      match TypeList(d["type"])
      case None => None
      case Some(types) =>
        match Construct(ComponentFields, d)
        case None => None
        case Some(attrs) => Some(Component(types, attrs))
  }

  /** `Image`: its enum type, its optional image data and its other
      attributes. */
  datatype Image = Image(attrs: seq<Attr>, imageType: string, data: Option<seq<Attr>>)
  {
    /** The None-free attributes, the type as its string value, the image
        data as its dict. */
    function ToDict(): map<string, Json>
    {
      var d := DropNone(attrs)["type" := JString(imageType)];
      if data.Some? then d["data" := JObject(AllAttrs(data.value))] else d
    }
  }

  const ImageFields: seq<Field> :=
    [Opt("url", "url"), Req("source", "source"), Req("description", "description"), Req("era", "era"),
     Opt("fragments", "fragments")]

  function NewImage(d: map<string, Json>): (r: Option<Image>)
    ensures r.Some? ==> "type" in d && d["type"] == JString(r.value.imageType) && r.value.imageType in ImageTypes
    ensures r.Some? ==> (r.value.data.Some? <==> "data" in d && Truthy(d["data"]))
  {
    if "type" !in d || !d["type"].JString? || d["type"].s !in ImageTypes then None
    else
      match Construct(ImageFields, d)
      case None => None
      case Some(attrs) =>
        match TruthyDict(d, "data", ImageData)
        case None => None
        case Some(data) => Some(Image(attrs, d["type"].s, data))
  }

  /** `Statistics`: the scalar attributes and the top words. */
  datatype Statistics = Statistics(attrs: seq<Attr>, topWords: Option<seq<seq<Attr>>>)
  {
    /** The None-free attributes, the top words as their dicts. */
    function ToDict(): map<string, Json>
    {
      var d := DropNone(attrs);
      if topWords.Some? then d["top_words" := ToDicts(topWords.value, AllAttrs)] else d
    }
  }

  const StatisticsFields: seq<Field> :=
    [Req("hsk_level", "hskLevel"), Opt("movie_word_count", "movieWordCount"),
     Opt("movie_word_count_percent", "movieWordCountPercent"), Opt("movie_word_rank", "movieWordRank"),
     Opt("movie_word_contexts", "movieWordContexts"), Opt("movie_word_contexts_percent", "movieWordContextsPercent"),
     Opt("book_word_count", "bookWordCount"), Opt("book_word_count_percent", "bookWordCountPercent"),
     Opt("book_word_rank", "bookWordRank"), Opt("movie_char_count", "movieCharCount"),
     Opt("movie_char_count_percent", "movieCharCountPercent"), Opt("movie_char_rank", "movieCharRank"),
     Opt("movie_char_contexts", "movieCharContexts"), Opt("movie_char_contexts_percent", "movieCharContextsPercent"),
     Opt("book_char_count", "bookCharCount"), Opt("book_char_count_percent", "bookCharCountPercent"),
     Opt("book_char_rank", "bookCharRank"), Opt("pinyin_frequency", "pinyinFrequency")]

  function NewStatistics(d: map<string, Json>): (r: Option<Statistics>)
    ensures r.Some? ==> (r.value.topWords.Some? <==> "topWords" in d && Truthy(d["topWords"]))
  {
    match Construct(StatisticsFields, d)
    case None => None
    case Some(attrs) =>
      match TruthyList(d, "topWords", TopWord)
      case None => None
      case Some(topWords) => Some(Statistics(attrs, topWords))
  }

  /** `ChineseCharEntry`: the scalar attributes (stored as given) and the
      eight nested ones (None when missing or falsy). */
  datatype CharEntry = CharEntry(scalars: seq<Attr>, images: Option<seq<Image>>, variants: Option<seq<seq<Attr>>>,
                                 statistics: Option<Statistics>, comments: Option<seq<seq<Attr>>>,
                                 components: Option<seq<Component>>, data: Option<seq<Attr>>,
                                 oldPronunciations: Option<seq<seq<Attr>>>, pinyinFrequencies: Option<seq<seq<Attr>>>)
  {
    /** `_id` and `char`, None for a null value. */
    function Id(): Option<Json> { AttrOf(scalars, "_id") }
    function Char(): Option<Json> { AttrOf(scalars, "char") }

    /** The None-free scalars, then each nested key written over: its dicts,
        or null when it is None or empty. */
    function ToDict(): map<string, Json>
    {
      DropNone(scalars)
        ["images" := if images.Some? && images.value != [] then ToDicts(images.value, ImageDict) else JNull]
        ["variants" := if variants.Some? && variants.value != [] then ToDicts(variants.value, DropNone) else JNull]
        ["statistics" := if statistics.Some? then JObject(statistics.value.ToDict()) else JNull]
        ["comments" := if comments.Some? && comments.value != [] then ToDicts(comments.value, AllAttrs) else JNull]
        ["components" := if components.Some? && components.value != [] then ToDicts(components.value, ComponentDict) else JNull]
        ["data" := if data.Some? then JObject(DropNone(data.value)) else JNull]
        ["old_pronunciations" :=
           if oldPronunciations.Some? && oldPronunciations.value != [] then ToDicts(oldPronunciations.value, DropNone) else JNull]
        ["pinyin_frequencies" :=
           if pinyinFrequencies.Some? && pinyinFrequencies.value != [] then ToDicts(pinyinFrequencies.value, AllAttrs) else JNull]
    }
  }

  /** An entry's `char` as a Python value, the key it is filed under: a
      null `char` is Python's None, written `JNull`, which is a valid dict
      key. */
  function CharKey(e: CharEntry): Json
  {
    if e.Char().Some? then e.Char().value else JNull
  }

  function ImageDict(i: Image): map<string, Json> { i.ToDict() }
  function ComponentDict(c: Component): map<string, Json> { c.ToDict() }

  const ScalarFields: seq<Field> :=
    [Req("_id", "_id"), Req("char", "char"), Opt("codepoint", "codepoint"), Opt("stroke_count", "strokeCount"),
     Opt("sources", "sources"), Opt("shuowen", "shuowen"), Opt("gloss", "gloss"), Opt("hint", "hint"),
     Opt("is_verified", "isVerified"), Opt("variant_of", "variantOf"), Opt("simp_variants", "simpVariants"),
     Opt("custom_sources", "customSources"), Opt("fragments", "fragments"), Opt("original_meaning", "originalMeaning"),
     Opt("trad_variants", "tradVariants")]

  /** The keys of the eight nested attributes, in the input's spelling. */
  const NestedKeys: seq<string> :=
    ["images", "variants", "statistics", "comments", "components", "data", "oldPronunciations", "pinyinFrequencies"]

  /** The nested parts of an entry, read in order. */
  datatype Nested = Nested(images: Option<seq<Image>>, variants: Option<seq<seq<Attr>>>, statistics: Option<Statistics>,
                           comments: Option<seq<seq<Attr>>>, components: Option<seq<Component>>, data: Option<seq<Attr>>,
                           oldPronunciations: Option<seq<seq<Attr>>>, pinyinFrequencies: Option<seq<seq<Attr>>>)

  function ReadNested(d: map<string, Json>): Option<Nested>
  {
    match TruthyList(d, "images", NewImage)
    case None => None
    case Some(images) =>
    match TruthyList(d, "variants", Variant)
    case None => None
    case Some(variants) =>
    match TruthyDict(d, "statistics", NewStatistics)
    case None => None
    case Some(statistics) =>
    match TruthyList(d, "comments", Comment)
    case None => None
    case Some(comments) =>
    match TruthyList(d, "components", NewComponent)
    case None => None
    case Some(components) =>
    match TruthyDict(d, "data", CharData)
    case None => None
    case Some(data) =>
    match TruthyList(d, "oldPronunciations", OldPronunciation)
    case None => None
    case Some(olds) =>
    match TruthyList(d, "pinyinFrequencies", PinyinFrequency)
    case None => None
    case Some(freqs) => Some(Nested(images, variants, statistics, comments, components, data, olds, freqs))
  }

  function NewCharEntry(d: map<string, Json>): (r: Option<CharEntry>)
    ensures r.Some? ==> "_id" in d && "char" in d
    ensures r.Some? ==> Construct(ScalarFields, d) == Some(r.value.scalars)
    ensures r.Some? ==> ReadNested(d).Some?
  {
    match Construct(ScalarFields, d)
    case None => None
    case Some(scalars) =>
      match ReadNested(d)
      case None => None
      case Some(n) =>
        assert ScalarFields[0] == Req("_id", "_id") && ScalarFields[1] == Req("char", "char");
        Some(CharEntry(scalars, n.images, n.variants, n.statistics, n.comments, n.components, n.data,
                       n.oldPronunciations, n.pinyinFrequencies))
  }

  /** The eight nested attributes are None exactly when their key is
      missing or its value falsy. */
  lemma NestedNoneWhenFalsy(d: map<string, Json>)
    requires NewCharEntry(d).Some?
    ensures var e := NewCharEntry(d).value;
      (e.images.None? <==> "images" !in d || !Truthy(d["images"]))
      && (e.variants.None? <==> "variants" !in d || !Truthy(d["variants"]))
      && (e.statistics.None? <==> "statistics" !in d || !Truthy(d["statistics"]))
      && (e.comments.None? <==> "comments" !in d || !Truthy(d["comments"]))
      && (e.components.None? <==> "components" !in d || !Truthy(d["components"]))
      && (e.data.None? <==> "data" !in d || !Truthy(d["data"]))
      && (e.oldPronunciations.None? <==> "oldPronunciations" !in d || !Truthy(d["oldPronunciations"]))
      && (e.pinyinFrequencies.None? <==> "pinyinFrequencies" !in d || !Truthy(d["pinyinFrequencies"]))
  {
  }

  /** The scalar attributes are stored as given: a list is kept even when
      empty, only null becomes None. */
  lemma ScalarsAsGiven(d: map<string, Json>, i: nat)
    requires NewCharEntry(d).Some? && i < |ScalarFields|
    ensures AttrOf(NewCharEntry(d).value.scalars, ScalarFields[i].attr) == GetOpt(d, ScalarFields[i].key)
  {
    var a := NewCharEntry(d).value.scalars;
    ScalarNamesDistinct(d);
    AttrOfAt(a, i);
  }

  lemma ScalarNamesDistinct(d: map<string, Json>)
    requires Construct(ScalarFields, d).Some?
    ensures DistinctNames(Construct(ScalarFields, d).value)
  {
    var a := Construct(ScalarFields, d).value;
    ScalarFieldsDistinct();
    forall i, j | 0 <= i < j < |a| ensures a[i].0 != a[j].0 {
      assert a[i].0 == ScalarFields[i].attr && a[j].0 == ScalarFields[j].attr;
    }
  }

  /** `to_dict` keeps exactly the non-null scalars, and always has the
      eight nested keys, null when the attribute is None or empty. */
  lemma CharEntryToDictKeys(d: map<string, Json>)
    requires NewCharEntry(d).Some?
    ensures var e := NewCharEntry(d).value;
      (forall i :: 0 <= i < |ScalarFields| ==> (ScalarFields[i].attr in e.ToDict() <==> GetOpt(d, ScalarFields[i].key).Some?))
      && (forall k :: k in NestedAttrNames ==> k in e.ToDict())
      && (e.ToDict()["images"] == JNull <==> e.images.None? || e.images.value == [])
      && (e.ToDict()["statistics"] == JNull <==> e.statistics.None?)
      && (e.ToDict()["data"] == JNull <==> e.data.None?)
      && (e.ToDict()["components"] == JNull <==> e.components.None? || e.components.value == [])
      && (e.ToDict()["variants"] == JNull <==> e.variants.None? || e.variants.value == [])
      && (e.ToDict()["comments"] == JNull <==> e.comments.None? || e.comments.value == [])
      && (e.ToDict()["old_pronunciations"] == JNull <==> e.oldPronunciations.None? || e.oldPronunciations.value == [])
      && (e.ToDict()["pinyin_frequencies"] == JNull <==> e.pinyinFrequencies.None? || e.pinyinFrequencies.value == [])
  {
    var e := NewCharEntry(d).value;
    ScalarsKept(d, e.scalars);
    NestedWritten(e);
    forall i | 0 <= i < |ScalarFields|
      ensures ScalarFields[i].attr in e.ToDict() <==> GetOpt(d, ScalarFields[i].key).Some?
    {
      ScalarPassesThrough(e, ScalarFields[i].attr);
    }
  }

  /** `to_dict` writes all eight nested keys, null exactly when absent or empty. */
  lemma NestedWritten(e: CharEntry)
    ensures forall k :: k in NestedAttrNames ==> k in e.ToDict()
    ensures e.ToDict()["images"] == JNull <==> e.images.None? || e.images.value == []
    ensures e.ToDict()["statistics"] == JNull <==> e.statistics.None?
    ensures e.ToDict()["data"] == JNull <==> e.data.None?
    ensures e.ToDict()["components"] == JNull <==> e.components.None? || e.components.value == []
    ensures e.ToDict()["variants"] == JNull <==> e.variants.None? || e.variants.value == []
    ensures e.ToDict()["comments"] == JNull <==> e.comments.None? || e.comments.value == []
    ensures e.ToDict()["old_pronunciations"] == JNull <==> e.oldPronunciations.None? || e.oldPronunciations.value == []
    ensures e.ToDict()["pinyin_frequencies"] == JNull <==> e.pinyinFrequencies.None? || e.pinyinFrequencies.value == []
  {
  }

  /** A key other than the nested ones is in `to_dict` exactly when it is a
      non-None scalar. */
  lemma ScalarPassesThrough(e: CharEntry, k: string)
    requires k !in NestedAttrNames
    ensures k in e.ToDict() <==> k in DropNone(e.scalars)
  {
  }

  lemma ScalarsKept(d: map<string, Json>, a: seq<Attr>)
    requires Construct(ScalarFields, d) == Some(a)
    ensures forall i :: 0 <= i < |ScalarFields| ==> (ScalarFields[i].attr in DropNone(a) <==> GetOpt(d, ScalarFields[i].key).Some?)
    ensures forall i :: 0 <= i < |ScalarFields| ==> ScalarFields[i].attr !in NestedAttrNames
  {
    ScalarFieldsDistinct();
    ScalarsNotNested();
    ConstructedDropNone(ScalarFields, d);
  }

  const NestedAttrNames: set<string> :=
    {"images", "variants", "statistics", "comments", "components", "data", "old_pronunciations", "pinyin_frequencies"}

  /** A constructed entry's `to_dict` has `_id` and `char` unless their
      value was null. */
  lemma IdAndCharKept(d: map<string, Json>)
    requires NewCharEntry(d).Some?
    ensures "_id" in NewCharEntry(d).value.ToDict() <==> GetOpt(d, "_id").Some?
    ensures "char" in NewCharEntry(d).value.ToDict() <==> GetOpt(d, "char").Some?
  {
    var e := NewCharEntry(d).value;
    ScalarsKept(d, e.scalars);
    IdCharFields();
    ScalarPassesThrough(e, "_id");
    ScalarPassesThrough(e, "char");
  }

  /** `Component.to_dict` writes the type list as enum strings and keeps
      the other non-None attributes. */
  lemma ComponentToDict(d: map<string, Json>)
    requires NewComponent(d).Some?
    ensures var c := NewComponent(d).value;
      "type" in c.ToDict() && c.ToDict()["type"] == Strings(c.types)
      && (forall t :: t in c.types ==> t in TypeElements)
      && ("hint" in c.ToDict() <==> "hint" in d && d["hint"] != JNull)
      && ("character" in c.ToDict() <==> GetOpt(d, "character").Some?)
      && ("is_old_pronunciation" in c.ToDict() <==> GetOpt(d, "isOldPronunciation").Some?)
      && ("is_glyph_changed" in c.ToDict() <==> GetOpt(d, "isGlyphChanged").Some?)
      && ("is_from_original_meaning" in c.ToDict() <==> GetOpt(d, "isFromOriginalMeaning").Some?)
  {
    var c := NewComponent(d).value;
    ComponentAttrs(d, c.attrs);
  }

  lemma ComponentAttrs(d: map<string, Json>, a: seq<Attr>)
    requires Construct(ComponentFields, d) == Some(a)
    ensures ("hint" in DropNone(a) <==> "hint" in d && d["hint"] != JNull)
    ensures ("character" in DropNone(a) <==> GetOpt(d, "character").Some?)
    ensures ("is_old_pronunciation" in DropNone(a) <==> GetOpt(d, "isOldPronunciation").Some?)
    ensures ("is_glyph_changed" in DropNone(a) <==> GetOpt(d, "isGlyphChanged").Some?)
    ensures ("is_from_original_meaning" in DropNone(a) <==> GetOpt(d, "isFromOriginalMeaning").Some?)
  {
    ComponentFieldsDistinct();
    ConstructedDropNone(ComponentFields, d);
    assert ComponentFields[0] == Req("character", "character") && ComponentFields[1] == Opt("hint", "hint");
    assert ComponentFields[2] == Opt("is_old_pronunciation", "isOldPronunciation");
    assert ComponentFields[3] == Opt("is_glyph_changed", "isGlyphChanged");
    assert ComponentFields[4] == Opt("is_from_original_meaning", "isFromOriginalMeaning");
  }

  /** `Image.to_dict` writes the enum type as its string and the image data
      as its dict when there is image data. */
  lemma ImageToDict(d: map<string, Json>)
    requires NewImage(d).Some?
    ensures var i := NewImage(d).value;
      "type" in i.ToDict() && i.ToDict()["type"] == d["type"] && d["type"].s in ImageTypes
      && ("data" in i.ToDict() <==> "data" in d && Truthy(d["data"]))
  {
    ImageFieldsDistinct();
    ConstructedDropNone(ImageFields, d);
    DataNotImageScalar();
  }

  /** `Statistics.to_dict` replaces the top words by their dicts exactly
      when there are top words. */
  lemma StatisticsToDict(d: map<string, Json>)
    requires NewStatistics(d).Some?
    ensures var s := NewStatistics(d).value;
      ("top_words" in s.ToDict() <==> "topWords" in d && Truthy(d["topWords"]))
      && (s.topWords.Some? ==> s.ToDict()["top_words"] == ToDicts(s.topWords.value, AllAttrs))
  {
    ConstructedNames(StatisticsFields, d);
    TopWordsNotScalar();
  }

  // Facts about the literal field tables, each proved once on its own.

  lemma ScalarFieldsDistinct()
    ensures DistinctAttrs(ScalarFields)
  {
    ScalarHeadDistinct();
    ScalarTailDistinct();
    ScalarHeadTailApart();
    DistinctAttrsSplit(ScalarFields, 7);
  }

  lemma ScalarHeadDistinct()
    ensures DistinctAttrs(ScalarFields[..7])
  {
  }

  lemma ScalarTailDistinct()
    ensures DistinctAttrs(ScalarFields[7..])
  {
  }

  lemma ScalarHeadTailApart()
    ensures forall i, j :: 0 <= i < 7 <= j < |ScalarFields| ==> ScalarFields[i].attr != ScalarFields[j].attr
  {
  }

  lemma IdCharFields()
    ensures ScalarFields[0].attr == "_id" && ScalarFields[0].key == "_id"
    ensures ScalarFields[1].attr == "char" && ScalarFields[1].key == "char"
    ensures "_id" !in NestedAttrNames && "char" !in NestedAttrNames
  {
  }

  lemma ScalarsNotNested()
    ensures forall i :: 0 <= i < |ScalarFields| ==> ScalarFields[i].attr !in NestedAttrNames
  {
  }

  lemma ComponentFieldsDistinct()
    ensures DistinctAttrs(ComponentFields)
  {
  }

  lemma ImageFieldsDistinct()
    ensures DistinctAttrs(ImageFields)
  {
  }

  lemma DataNotImageScalar()
    ensures forall i :: 0 <= i < |ImageFields| ==> ImageFields[i].attr != "data"
  {
  }

  lemma TopWordsNotScalar()
    ensures forall i :: 0 <= i < |StatisticsFields| ==> StatisticsFields[i].attr != "top_words"
  {
  }

  /** `ChineseCharDict`: the list of entries read so far. */
  class CharDict {
    var chars: seq<CharEntry>

    constructor ()
      ensures chars == []
    {
      chars := [];
    }

    /** `add_char`: appends the entry built from `d` at the end; when the
        constructor raises, nothing is appended. */
    method AddChar(d: map<string, Json>) returns (ok: bool)
      modifies this
      ensures ok <==> NewCharEntry(d).Some?
      ensures ok ==> chars == old(chars) + [NewCharEntry(d).value]
      ensures !ok ==> chars == old(chars)
    {
      var e := NewCharEntry(d);
      if e.None? {
        return false;
      }
      chars := chars + [e.value];
      return true;
    }
  }
}
