/** A JMdict word as the indexing scripts read it from the jmdict-simplified
    JSON: every field has the dataset's type, and only the fields whose
    presence the scripts test are optional (the entry's `kanji`, `kana` and
    `sense` arrays, a kana's `romaji`, a sense's `gloss`; a gloss's `gender`
    and `type` may be JSON null). */
module JmdictRaw {
  import opened Wrappers
  import opened Json

  datatype RawKanji = RawKanji(common: bool, text: string, tags: seq<string>)

  datatype RawKana = RawKana(common: bool, text: string, tags: seq<string>,
                             appliesToKanji: seq<string>, romaji: Option<string>)

  datatype RawGloss = RawGloss(lang: string, gender: Option<string>, glossType: Option<string>, text: string)

  datatype RawSense = RawSense(
    partOfSpeech: seq<string>, appliesToKanji: seq<string>, appliesToKana: seq<string>,
    related: seq<Json>, antonym: seq<Json>, field: seq<string>, dialect: seq<string>,
    misc: seq<string>, info: seq<string>, languageSource: seq<Json>,
    gloss: Option<seq<RawGloss>>)

  datatype RawEntry = RawEntry(id: string, kanji: Option<seq<RawKanji>>,
                               kana: Option<seq<RawKana>>, sense: Option<seq<RawSense>>)

  /** The "applies to every spelling" marker `["*"]`. */
  const Wildcard: seq<string> := ["*"]

  /** `[k["text"] for k in entry.get("kanji", [])]`. */
  function KanjiTexts(e: RawEntry): (r: seq<string>)
    ensures |r| == |e.kanji.GetOr([])|
  {
    var ks := e.kanji.GetOr([]);
    seq(|ks|, i requires 0 <= i < |ks| => ks[i].text)
  }

  /** `[k["text"] for k in entry.get("kana", [])]`. */
  function KanaTexts(e: RawEntry): (r: seq<string>)
    ensures |r| == |e.kana.GetOr([])|
  {
    var ks := e.kana.GetOr([]);
    seq(|ks|, i requires 0 <= i < |ks| => ks[i].text)
  }

  /** Every headword of an entry, kanji spellings first, then kana; an absent
      list contributes nothing. The keys under which the bucketing scripts file
      an entry. */
  function HeadwordKeys(e: RawEntry): seq<string>
  {
    KanjiTexts(e) + KanaTexts(e)
  }
}
