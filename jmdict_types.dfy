/** The JMdict record classes: each constructor reads a JSON dict, turning
    falsy values into None (except `common`, where only null is None), and
    each `to_dict` drops the None attributes again. */
module JmdictTypes {
  import opened Wrappers
  import opened Json
  import opened PyRecord

  datatype KanjiElement = KanjiElement(common: Option<Json>, text: Option<Json>, tags: Option<Json>)
  {
    function Attrs(): seq<Attr>
    {
      [("common", common), ("text", text), ("tags", tags)]
    }

    function ToDict(): map<string, Json>
    {
      DropNone(Attrs())
    }
  }

  datatype ReadingElement = ReadingElement(common: Option<Json>, text: Option<Json>, tags: Option<Json>,
                                           appliesToKanji: Option<Json>)
  {
    function Attrs(): seq<Attr>
    {
      [("common", common), ("text", text), ("tags", tags), ("applies_to_kanji", appliesToKanji)]
    }

    function ToDict(): map<string, Json>
    {
      DropNone(Attrs())
    }
  }

  datatype Gloss = Gloss(lang: Option<Json>, gender: Option<Json>, glossType: Option<Json>, text: Option<Json>)
  {
    function Attrs(): seq<Attr>
    {
      [("lang", lang), ("gender", gender), ("type", glossType), ("text", text)]
    }

    function ToDict(): map<string, Json>
    {
      DropNone(Attrs())
    }
  }

  datatype Sense = Sense(partOfSpeech: Option<Json>, appliesToKanji: Option<Json>, appliesToKana: Option<Json>,
                         related: Option<Json>, antonym: Option<Json>, field: Option<Json>,
                         dialect: Option<Json>, misc: Option<Json>, info: Option<Json>,
                         languageSource: Option<Json>, gloss: Option<seq<Gloss>>)
  {
    /** The list-valued attributes, in assignment order. */
    function ListAttrs(): seq<Attr>
    {
      [("part_of_speech", partOfSpeech), ("applies_to_kanji", appliesToKanji),
       ("applies_to_kana", appliesToKana), ("related", related), ("antonym", antonym),
       ("field", field), ("dialect", dialect), ("misc", misc), ("info", info),
       ("language_source", languageSource)]
    }

    /** The None-free attributes, with the glosses written as their dicts. */
    function ToDict(): map<string, Json>
    {
      var d := DropNone(ListAttrs());
      if gloss.Some? then d["gloss" := ToDicts(gloss.value, GlossDict)] else d
    }
  }

  datatype JMdictEntry = JMdictEntry(id: Json, kanji: Option<seq<KanjiElement>>,
                                     kana: Option<seq<ReadingElement>>, sense: Option<seq<Sense>>)
  {
    /** `"id"` always, each list only when it is non-empty. */
    function ToDict(): map<string, Json>
    {
      var d := map["id" := id];
      var d := if kanji.Some? && kanji.value != [] then d["kanji" := ToDicts(kanji.value, KanjiDict)] else d;
      var d := if kana.Some? && kana.value != [] then d["kana" := ToDicts(kana.value, ReadingDict)] else d;
      if sense.Some? && sense.value != [] then d["sense" := ToDicts(sense.value, SenseDict)] else d
    }

    /** `get_all_kanji`: the kanji texts in order, or none without kanji. */
    function AllKanji(): (r: seq<Option<Json>>)
      ensures kanji.Some? && kanji.value != [] ==>
        |r| == |kanji.value| && forall i :: 0 <= i < |r| ==> r[i] == kanji.value[i].text
      ensures kanji.None? || kanji.value == [] ==> r == []
    {
      if kanji.Some? && kanji.value != [] then seq(|kanji.value|, i requires 0 <= i < |kanji.value| => kanji.value[i].text)
      else []
    }

    /** `get_all_kana`: the kana texts in order, or none without kana. */
    function AllKana(): (r: seq<Option<Json>>)
      ensures kana.Some? && kana.value != [] ==>
        |r| == |kana.value| && forall i :: 0 <= i < |r| ==> r[i] == kana.value[i].text
      ensures kana.None? || kana.value == [] ==> r == []
    {
      if kana.Some? && kana.value != [] then seq(|kana.value|, i requires 0 <= i < |kana.value| => kana.value[i].text)
      else []
    }

    /** `get_all_readings`: the kanji texts followed by the kana texts. */
    function AllReadings(): (r: seq<Option<Json>>)
      ensures |r| == |AllKanji()| + |AllKana()|
      ensures r[..|AllKanji()|] == AllKanji() && r[|AllKanji()|..] == AllKana()
    {
      AllKanji() + AllKana()
    }
  }

  function NewKanjiElement(d: map<string, Json>): (k: KanjiElement)
    ensures k.common.Some? <==> "common" in d && d["common"] != JNull
    ensures k.text.Some? <==> "text" in d && Truthy(d["text"])
    ensures k.tags.Some? <==> "tags" in d && Truthy(d["tags"])
  {
    KanjiElement(GetOpt(d, "common"), IfTruthy(d, "text"), IfTruthy(d, "tags"))
  }

  function NewReadingElement(d: map<string, Json>): (k: ReadingElement)
    ensures k.common.Some? <==> "common" in d && d["common"] != JNull
    ensures k.text.Some? <==> "text" in d && Truthy(d["text"])
    ensures k.tags.Some? <==> "tags" in d && Truthy(d["tags"])
    ensures k.appliesToKanji.Some? <==> "appliesToKanji" in d && Truthy(d["appliesToKanji"])
  {
    ReadingElement(GetOpt(d, "common"), IfTruthy(d, "text"), IfTruthy(d, "tags"), IfTruthy(d, "appliesToKanji"))
  }

  function NewGloss(d: map<string, Json>): (g: Gloss)
    ensures g.lang.Some? <==> "lang" in d && Truthy(d["lang"])
    ensures g.gender.Some? <==> "gender" in d && Truthy(d["gender"])
    ensures g.glossType.Some? <==> "type" in d && Truthy(d["type"])
    ensures g.text.Some? <==> "text" in d && Truthy(d["text"])
  {
    Gloss(IfTruthy(d, "lang"), IfTruthy(d, "gender"), IfTruthy(d, "type"), IfTruthy(d, "text"))
  }

  /** `Sense(data)`: every falsy list becomes None; fails when a truthy
      `gloss` is not a list of dicts. */
  function NewSense(d: map<string, Json>): (r: Option<Sense>)
    ensures r.None? <==> TruthyList(d, "gloss", GlossCtor).None?
    ensures r.Some? ==> r.value.gloss == TruthyList(d, "gloss", GlossCtor).value
    ensures r.Some? ==> forall i :: 0 <= i < 10 ==>
      (r.value.ListAttrs()[i].1.Some? <==> ListKeys[i] in d && Truthy(d[ListKeys[i]]))
      && (r.value.ListAttrs()[i].1.Some? ==> r.value.ListAttrs()[i].1.value == d[ListKeys[i]])
  {
    match TruthyList(d, "gloss", GlossCtor)
    case None => None
    case Some(gloss) =>
      Some(Sense(IfTruthy(d, ListKeys[0]), IfTruthy(d, ListKeys[1]), IfTruthy(d, ListKeys[2]),
                 IfTruthy(d, ListKeys[3]), IfTruthy(d, ListKeys[4]), IfTruthy(d, ListKeys[5]),
                 IfTruthy(d, ListKeys[6]), IfTruthy(d, ListKeys[7]), IfTruthy(d, ListKeys[8]),
                 IfTruthy(d, ListKeys[9]), gloss))
  }

  /** The keys `Sense` reads its list attributes from, in assignment order. */
  const ListKeys: seq<string> := ["partOfSpeech", "appliesToKanji", "appliesToKana", "related", "antonym",
                                  "field", "dialect", "misc", "info", "languageSource"]

  // The per-element constructors and `to_dict`s, as function values.
  function KanjiCtor(d: map<string, Json>): Option<KanjiElement> { Some(NewKanjiElement(d)) }
  function ReadingCtor(d: map<string, Json>): Option<ReadingElement> { Some(NewReadingElement(d)) }
  function GlossCtor(d: map<string, Json>): Option<Gloss> { Some(NewGloss(d)) }
  function KanjiDict(k: KanjiElement): map<string, Json> { k.ToDict() }
  function ReadingDict(k: ReadingElement): map<string, Json> { k.ToDict() }
  function GlossDict(g: Gloss): map<string, Json> { g.ToDict() }
  function SenseDict(s: Sense): map<string, Json> { s.ToDict() }

  /** `JMdictEntry(data)`: fails on a missing `id` or a truthy list that is
      not a list of dicts (or holds a sense that fails). */
  function NewEntry(d: map<string, Json>): (r: Option<JMdictEntry>)
    ensures "id" !in d ==> r.None?
    ensures r.Some? ==> r.value.id == d["id"]
  {
    if "id" !in d then None
    else
      match TruthyList(d, "kanji", KanjiCtor)
      case None => None
      case Some(kanji) =>
        match TruthyList(d, "kana", ReadingCtor)
        case None => None
        case Some(kana) =>
          match TruthyList(d, "sense", NewSense)
          case None => None
          case Some(sense) => Some(JMdictEntry(d["id"], kanji, kana, sense))
  }

  /** `JMdict(data).words`: one entry per element of `data["words"]`, in
      order. */
  function NewJMdict(d: map<string, Json>): (r: Option<seq<JMdictEntry>>)
    ensures "words" !in d ==> r.None?
    ensures r.Some? && d["words"].JArray? ==>
      |r.value| == |d["words"].items| &&
      forall i :: 0 <= i < |r.value| ==> d["words"].items[i].JObject? && NewEntry(d["words"].items[i].fields) == Some(r.value[i])
  {
    if "words" !in d then None else MapDicts(d["words"], NewEntry)
  }

  /** `KanjiElement.to_dict` keeps exactly the attributes that are not None. */
  lemma KanjiElementToDictKeys(k: KanjiElement)
    ensures "common" in k.ToDict() <==> k.common.Some?
    ensures "text" in k.ToDict() <==> k.text.Some?
    ensures "tags" in k.ToDict() <==> k.tags.Some?
    ensures k.ToDict().Keys <= {"common", "text", "tags"}
  {
    DropNoneSpec(k.Attrs());
    assert k.Attrs()[0].0 == "common" && k.Attrs()[1].0 == "text" && k.Attrs()[2].0 == "tags";
  }

  /** A `common` of false is kept (only null becomes None), so `to_dict`
      still carries it; a falsy text or tags list is dropped. */
  lemma FalseCommonKept(d: map<string, Json>)
    requires "common" in d && d["common"] == JBool(false)
    ensures "common" in NewKanjiElement(d).ToDict() && NewKanjiElement(d).ToDict()["common"] == JBool(false)
    ensures "common" in NewReadingElement(d).ToDict() && NewReadingElement(d).ToDict()["common"] == JBool(false)
  {
    var k := NewKanjiElement(d);
    var r := NewReadingElement(d);
    DropNoneSpec(k.Attrs());
    DropNoneSpec(r.Attrs());
    assert k.Attrs()[0] == ("common", Some(JBool(false)));
    assert r.Attrs()[0] == ("common", Some(JBool(false)));
  }

  /** Reading a kanji element's dict back gives the same element. */
  lemma KanjiElementReadBack(d: map<string, Json>)
    ensures NewKanjiElement(NewKanjiElement(d).ToDict()) == NewKanjiElement(d)
  {
    var k := NewKanjiElement(d);
    DropNoneSpec(k.Attrs());
    assert k.Attrs()[0] == ("common", k.common);
    assert k.Attrs()[1] == ("text", k.text);
    assert k.Attrs()[2] == ("tags", k.tags);
  }

  /** Reading a reading element's dict back loses `applies_to_kanji`: the
      dict stores it under its attribute name, not under `appliesToKanji`. */
  lemma ReadingElementReadBack(d: map<string, Json>)
    ensures NewReadingElement(NewReadingElement(d).ToDict()) == NewReadingElement(d).(appliesToKanji := None)
  {
    var r := NewReadingElement(d);
    DropNoneSpec(r.Attrs());
    assert r.Attrs()[0] == ("common", r.common);
    assert r.Attrs()[1] == ("text", r.text);
    assert r.Attrs()[2] == ("tags", r.tags);
    assert "appliesToKanji" !in r.ToDict();
  }

  /** `Gloss.to_dict` keeps exactly the non-None attributes and reads back
      as the same gloss. */
  lemma GlossReadBack(d: map<string, Json>)
    ensures NewGloss(NewGloss(d).ToDict()) == NewGloss(d)
    ensures forall k :: k in NewGloss(d).ToDict() ==> k in {"lang", "gender", "type", "text"} && Truthy(NewGloss(d).ToDict()[k])
  {
    var g := NewGloss(d);
    DropNoneSpec(g.Attrs());
    assert g.Attrs()[0] == ("lang", g.lang);
    assert g.Attrs()[1] == ("gender", g.gender);
    assert g.Attrs()[2] == ("type", g.glossType);
    assert g.Attrs()[3] == ("text", g.text);
  }

  /** `Sense.to_dict` keeps exactly the non-None list attributes, plus the
      gloss dicts whenever there are glosses. */
  lemma SenseToDictKeys(s: Sense)
    ensures forall i :: 0 <= i < |s.ListAttrs()| ==> (s.ListAttrs()[i].0 in s.ToDict() <==> s.ListAttrs()[i].1.Some?)
    ensures "gloss" in s.ToDict() <==> s.gloss.Some?
    ensures s.gloss.Some? ==> s.ToDict()["gloss"] == ToDicts(s.gloss.value, GlossDict)
  {
    DropNoneSpec(s.ListAttrs());
  }

  /** What survives a sense's round trip through its dict: the attributes
      stored under camelCase keys are lost, the rest read back. */
  function SenseAfterReadBack(s: Sense): Sense
  {
    s.(partOfSpeech := None, appliesToKanji := None, appliesToKana := None, languageSource := None)
  }

  lemma SenseReadBack(d: map<string, Json>)
    requires NewSense(d).Some?
    ensures NewSense(NewSense(d).value.ToDict()) == Some(SenseAfterReadBack(NewSense(d).value))
  {
    var s := NewSense(d).value;
    if s.gloss.Some? {
      var items := d["gloss"].items;
      forall i | 0 <= i < |s.gloss.value| ensures NewGloss(s.gloss.value[i].ToDict()) == s.gloss.value[i] {
        GlossReadBack(items[i].fields);
      }
    }
    assert Normalised(s);
    NormalisedReadBack(s);
  }

  /** What `Sense(data)` guarantees of its attributes: truthy lists,
      non-empty glosses that read back from their dicts. */
  predicate Normalised(s: Sense)
  {
    (forall i :: 0 <= i < 10 ==> s.ListAttrs()[i].1.None? || Truthy(s.ListAttrs()[i].1.value))
    && (s.gloss.Some? ==>
          (s.gloss.value != [] && forall i :: 0 <= i < |s.gloss.value| ==> NewGloss(s.gloss.value[i].ToDict()) == s.gloss.value[i]))
  }

  lemma NormalisedReadBack(s: Sense)
    requires Normalised(s)
    ensures NewSense(s.ToDict()) == Some(SenseAfterReadBack(s))
  {
    var m := s.ToDict();
    SnakeKeysAbsent(s);
    ListAttrBack(s, 3);
    ListAttrBack(s, 4);
    ListAttrBack(s, 5);
    ListAttrBack(s, 6);
    ListAttrBack(s, 7);
    ListAttrBack(s, 8);
    GlossesBack(s);
    assert NewSense(m) == Some(Sense(IfTruthy(m, ListKeys[0]), IfTruthy(m, ListKeys[1]), IfTruthy(m, ListKeys[2]),
                 IfTruthy(m, ListKeys[3]), IfTruthy(m, ListKeys[4]), IfTruthy(m, ListKeys[5]),
                 IfTruthy(m, ListKeys[6]), IfTruthy(m, ListKeys[7]), IfTruthy(m, ListKeys[8]),
                 IfTruthy(m, ListKeys[9]), s.gloss));
  }

  /** The camelCase keys the constructor reads are never written by `to_dict`. */
  lemma SnakeKeysAbsent(s: Sense)
    ensures "partOfSpeech" !in s.ToDict() && "appliesToKanji" !in s.ToDict()
    ensures "appliesToKana" !in s.ToDict() && "languageSource" !in s.ToDict()
  {
    var a := s.ListAttrs();
    forall k | k in {"partOfSpeech", "appliesToKanji", "appliesToKana", "languageSource"}
      ensures k !in DropNone(a)
    {
      NoCamelNames(s, k);
    }
  }

  lemma NoCamelNames(s: Sense, k: string)
    requires k in {"partOfSpeech", "appliesToKanji", "appliesToKana", "languageSource"}
    ensures forall i :: 0 <= i < |s.ListAttrs()| ==> s.ListAttrs()[i].0 != k
  {
  }

  lemma ListNamesDistinct(s: Sense)
    ensures DistinctNames(s.ListAttrs())
  {
  }

  /** A truthy list attribute reads back from the sense's dict. */
  lemma ListAttrBack(s: Sense, i: nat)
    requires i < 10
    requires s.ListAttrs()[i].1.None? || Truthy(s.ListAttrs()[i].1.value)
    ensures IfTruthy(s.ToDict(), s.ListAttrs()[i].0) == s.ListAttrs()[i].1
  {
    ListNamesDistinct(s);
    DropNoneSpec(s.ListAttrs());
  }

  /** Non-empty glosses that each read back from their dict read back as a
      list from the sense's dict. */
  lemma GlossesBack(s: Sense)
    requires s.gloss.Some? ==>
      (s.gloss.value != [] && forall i :: 0 <= i < |s.gloss.value| ==> NewGloss(s.gloss.value[i].ToDict()) == s.gloss.value[i])
    ensures TruthyList(s.ToDict(), "gloss", GlossCtor) == Some(s.gloss)
  {
    var m := s.ToDict();
    if s.gloss.Some? {
      var gs := s.gloss.value;
      forall x | x in gs ensures GlossCtor(GlossDict(x)) == Some(x) {
        var i :| 0 <= i < |gs| && gs[i] == x;
      }
      MapDictsStable(gs, GlossDict, GlossCtor);
      assert m["gloss"] == ToDicts(gs, GlossDict);
      assert MapDicts(m["gloss"], GlossCtor) == Some(gs);
      assert Truthy(m["gloss"]);
    }
  }

  /** `JMdictEntry.to_dict` always has `"id"`, and a list key exactly when
      that list is non-empty. */
  lemma EntryToDictKeys(e: JMdictEntry)
    ensures "id" in e.ToDict() && e.ToDict()["id"] == e.id
    ensures "kanji" in e.ToDict() <==> e.kanji.Some? && e.kanji.value != []
    ensures "kana" in e.ToDict() <==> e.kana.Some? && e.kana.value != []
    ensures "sense" in e.ToDict() <==> e.sense.Some? && e.sense.value != []
    ensures e.ToDict().Keys <= {"id", "kanji", "kana", "sense"}
  {
  }

  /** What survives an entry's round trip through its dict: the kana lose
      `applies_to_kanji` and the senses what `SenseAfterReadBack` drops. */
  function EntryAfterReadBack(e: JMdictEntry): JMdictEntry
  {
    e.(kana := MapEach(e.kana, ReadingAfterReadBack), sense := MapEach(e.sense, SenseAfterReadBack))
  }

  function ReadingAfterReadBack(r: ReadingElement): ReadingElement
  {
    r.(appliesToKanji := None)
  }

  function Keep<T>(x: T): T { x }

  lemma MapEachKeep<T>(o: Option<seq<T>>)
    ensures MapEach(o, Keep) == o
  {
    if o.Some? {
      var r := MapEach(o, Keep).value;
      assert |r| == |o.value|;
      forall i | 0 <= i < |r| ensures r[i] == o.value[i] {
        assert r[i] == Keep(o.value[i]);
      }
      assert r == o.value;
    }
  }

  function MapEach<T>(o: Option<seq<T>>, f: T -> T): Option<seq<T>>
  {
    if o.Some? then Some(seq(|o.value|, i requires 0 <= i < |o.value| => f(o.value[i]))) else None
  }

  /** Reading an entry's dict back gives the entry less what its elements
      lose on the way. */
  lemma EntryReadBack(d: map<string, Json>)
    requires NewEntry(d).Some?
    ensures NewEntry(NewEntry(d).value.ToDict()) == Some(EntryAfterReadBack(NewEntry(d).value))
  {
    var e := NewEntry(d).value;
    var m := e.ToDict();
    EntryToDictKeys(e);
    KanjiListBack(d);
    KanaListBack(d);
    SenseListBack(d);
    MapEachKeep(e.kanji);
  }

  /** The parts of a constructed entry. */
  lemma EntryParts(d: map<string, Json>)
    requires NewEntry(d).Some?
    ensures TruthyList(d, "kanji", KanjiCtor) == Some(NewEntry(d).value.kanji)
    ensures TruthyList(d, "kana", ReadingCtor) == Some(NewEntry(d).value.kana)
    ensures TruthyList(d, "sense", NewSense) == Some(NewEntry(d).value.sense)
  {
  }

  lemma KanjiListBack(d: map<string, Json>)
    requires NewEntry(d).Some?
    ensures TruthyList(NewEntry(d).value.ToDict(), "kanji", KanjiCtor) == Some(MapEach(NewEntry(d).value.kanji, Keep))
  {
    var e := NewEntry(d).value;
    EntryParts(d);
    EntryToDictKeys(e);
    if e.kanji.Some? {
      var ks := e.kanji.value;
      forall x | x in ks ensures KanjiCtor(KanjiDict(x)) == Some(Keep(x)) {
        var i :| 0 <= i < |ks| && ks[i] == x;
        KanjiElementReadBack(d["kanji"].items[i].fields);
      }
    }
    TruthyListBack(e.ToDict(), "kanji", e.kanji, KanjiDict, KanjiCtor, Keep);
  }

  lemma KanaListBack(d: map<string, Json>)
    requires NewEntry(d).Some?
    ensures TruthyList(NewEntry(d).value.ToDict(), "kana", ReadingCtor) == Some(MapEach(NewEntry(d).value.kana, ReadingAfterReadBack))
  {
    var e := NewEntry(d).value;
    EntryParts(d);
    EntryToDictKeys(e);
    if e.kana.Some? {
      var ks := e.kana.value;
      forall x | x in ks ensures ReadingCtor(ReadingDict(x)) == Some(ReadingAfterReadBack(x)) {
        var i :| 0 <= i < |ks| && ks[i] == x;
        ReadingElementReadBack(d["kana"].items[i].fields);
      }
    }
    TruthyListBack(e.ToDict(), "kana", e.kana, ReadingDict, ReadingCtor, ReadingAfterReadBack);
  }

  lemma SenseListBack(d: map<string, Json>)
    requires NewEntry(d).Some?
    ensures TruthyList(NewEntry(d).value.ToDict(), "sense", NewSense) == Some(MapEach(NewEntry(d).value.sense, SenseAfterReadBack))
  {
    var e := NewEntry(d).value;
    EntryParts(d);
    EntryToDictKeys(e);
    if e.sense.Some? {
      var ss := e.sense.value;
      forall x | x in ss ensures NewSense(SenseDict(x)) == Some(SenseAfterReadBack(x)) {
        var i :| 0 <= i < |ss| && ss[i] == x;
        SenseReadBack(d["sense"].items[i].fields);
      }
    }
    TruthyListBack(e.ToDict(), "sense", e.sense, SenseDict, NewSense, SenseAfterReadBack);
  }

  /** A non-empty list written as dicts reads back element by element. */
  lemma TruthyListBack<T>(m: map<string, Json>, key: string, xs: Option<seq<T>>, toDict: T -> map<string, Json>,
                          ctor: map<string, Json> -> Option<T>, back: T -> T)
    requires xs.Some? ==> xs.value != [] && key in m && m[key] == ToDicts(xs.value, toDict)
    requires xs.Some? ==> forall x :: x in xs.value ==> ctor(toDict(x)) == Some(back(x))
    requires xs.None? ==> key !in m
    ensures TruthyList(m, key, ctor) == Some(MapEach(xs, back))
  {
    if xs.Some? {
      MapDictsBack(xs.value, toDict, ctor, back);
    }
  }
}
