# kiokun dictionary index: a Dafny model

kiokun builds a static, per-headword lookup index for a Japanese/Chinese
dictionary site from several datasets. These are JMdict (Japanese words),
Kanjidic2 (kanji), a Chinese character dictionary and a Chinese word
dictionary. This project models the logic of the scripts that do that
work, and proves properties about it:

- **Equivalence and cross-linking** (`data/main2.py`). Japanese words are
  turned into Chinese equivalents character by character. Chinese
  characters are filed under `data[char]["c_c"]` and
  `word_index[char]["c"]`. Each Kanjidic character is filed under
  `"j_c"`. It is then linked to its Chinese counterpart through
  `"v_c_c"`/`"v_j_c"`, or else recorded as not found
  (modules `Equivalence`, `CrossLink`).
- **JMdict indexing** (`data/main.py`, `data/main.mjs`,
  `data/jmdict2files.py`, `data/jmdict2files.mjs`, `data/test.py`).
  - Every headword (kanji texts, then kana texts) or the first headword
    gets an append-only bucket of raw entries.
  - A word→position table is built alongside.
  - A compact "cleaned" record is stored per entry.
  - Modules: `Buckets`, `JmdictRaw`, `JmdictIndex`, `JmdictFiles`.
- **The compact entry normaliser**. It appears as
  `clean_and_structure_entry`, as its inline copy in `data/main.py`
  (kana romanised by `romkan`) and as the JavaScript copy in
  `data/main.mjs` (module `EntryClean`). Each variant is given a decoder
  back to the raw entry. Round-trip lemmas state exactly what the compact
  form forgets.
- **Record classes** of `data/jp/jmdict/type.py`,
  `data/jp/kanjidic/type.py` and `data/zh/char_dict/type.py`. These cover
  falsy→None normalisation, `to_dict` dropping None, on/kun partitioning
  and literal-keyed tables (modules `PyRecord`, `JmdictTypes`,
  `KanjidicTypes`, `CharDictTypes`).
- **The Japanese-variant gloss parser** of
  `data/zh/char_dict/find_japanese_variants.py` (modules `PyText`,
  `JapaneseVariants`).
- **The CJK ideograph classifier** `is_hanzi` (module `Hanzi`).
- **JSON structure inference** of `data/file_utils.py`: infer, merge,
  simplify, and the fold over JSON lines (module `TypeInference`).
- **The generated run-time validators** of `data/zh/char_dict/Char.ts`
  and `data/zh/word_dict/Word.ts`. These cover the recursive `transform`
  over type descriptors, `cast`/`uncast` and the two type maps (modules
  `JsonValidate`, `CharSchema`, `WordSchema`). The `transform` of
  `Word.ts` (lines 120-231) is the same code as that of `Char.ts`
  (lines 228-339). The members of `JsonValidate` model both; the table
  cites `Char.ts`.

JSON is a datatype (`Json.Json` for the Python side, `JsonValidate.JsValue`
for JavaScript values including `undefined`). Loaded tables are
parameters: `j2ch`, the exception table, the Japanese-variants list and
the parsed datasets. The loops that update dictionaries and lists step by
step are methods with loop invariants. Each is proved equal to a fold
function, and the properties are proved about that function.
`ChineseCharDict` is a class whose `add_char` appends to its `chars`
field.

Python's `set` iteration order in `merge_structures` and
`simplify_structure` is unspecified. The model fixes one order: the keys
of the first structure in order, then the keys only in the second; for
`list(set(types))`, first occurrence. The key-set and member-set
properties hold whatever the order. `TypeInference.UnionDistinctAnyOrder`
shows that any order of the two members of a union gives that union
spelled in that order, so `Union[a, b]` may come back as `Union[b, a]`.
`TypeInference.SimplifyUnionDistinct` and
`TypeInference.SimplifyMergedStable` state the exact string, which holds
only under the model's order.

## Model

| member | source | states |
|---|---|---|
| Equivalence.J2chGet | data/main2.py:31-32 | the mapped character when the key is in `j2ch`, otherwise the key itself |
| Equivalence.GenerateCombinations2 | data/main2.py:35-36 | exactly one candidate |
| Equivalence.CandidateIsJoinedLookups | data/main2.py:31-36 | the candidate is `j2ch_get` of each character, joined: the empty key gives `""`, a one-character key its own lookup, and a concatenated key the concatenation of the candidates |
| Equivalence.CandidateIsCharwise | data/main2.py:35-36 | with single-character mappings the candidate has the key's length and its i-th character is `j2ch_get` of the key's i-th character |
| Equivalence.UnmappedKeyIsItsOwnCandidate | data/main2.py:31-36 | a key none of whose characters is mapped is its own single candidate |
| Equivalence.FilterKeepsIndexed | data/main2.py:39-40 | a candidate survives the filter iff it is one of the combinations and is in the index; the result is no longer than the input |
| Equivalence.FilterIsOrderedSubsequence | data/main2.py:39-40 | the filtered list is an order-preserving subsequence of the candidates, and filtering again changes nothing |
| Equivalence.GetJ2chWord | data/main2.py:43-47 | a key in the exception table yields exactly `[exceptions[key]]` with no index check; otherwise at most one word, every one of them in the index |
| Equivalence.ResolvedIffIndexed | data/main2.py:43-47 | without an exception the result is the candidate when it is indexed and empty otherwise |
| CrossLink.Extend | data/main2.py:56-68 | appending to `data[k][cat]` of a nested defaultdict creates the buckets on demand and leaves every other key untouched |
| CrossLink.ExtendBucket | data/main2.py:56-68 | only bucket `(k, cat)` grows, by exactly the appended items |
| CrossLink.IndexChineseChars | data/main2.py:65-68 | the loop computes the fold over the Chinese entries; it fails only where a character key is not hashable |
| CrossLink.ChineseFoldOk | data/main2.py:65-68 | the Chinese loop completes iff every entry's `char` is usable as a key |
| CrossLink.ChineseBuckets | data/main2.py:65-68 | `word_index[k]["c"]` holds the ids and `data[k]["c_c"]` the dicts of exactly the entries whose char is k, once each, in order |
| CrossLink.ChineseKeys | data/main2.py:65-68 | the keys of `word_index` are exactly the characters of the entries |
| CrossLink.ChineseCategories | data/main2.py:65-68 | after the Chinese loop, `data` and `word_index` have the same keys, with only category `"c_c"` and `"c"` respectively |
| CrossLink.FirstContaining | data/main2.py:85-87 | the index of the first variants-map item containing the kanji, or none when no item contains it |
| CrossLink.ZhChar | data/main2.py:85-95 | `zh_char` is the `"t"` value of the first item containing the kanji, otherwise the kanji itself |
| CrossLink.LinkKanjidic | data/main2.py:75-106 | the Kanjidic loop computes the fold of the per-kanji step from the Chinese tables |
| CrossLink.LinkOne | data/main2.py:77-106 | one pass of the loop body computes the per-kanji step |
| CrossLink.KanjiStepOutcome | data/main2.py:77-106 | a value that is not a character changes nothing; otherwise the kanji gains exactly one `"j_c"` dict. Then exactly one outcome: if `zh_char` is indexed, `data[kanji]["v_c_c"]` gains all of `word_index[zh_char]["c"]` and `data[zh_char]["v_j_c"]` gains the dict; if not, only the not-found list gains the kanji. No other bucket changes |
| CrossLink.NotFoundSpec | data/main2.py:75-106 | `not_found_kanjis` is exactly the processed kanjis whose `zh_char` is not indexed, in order; linked plus not-found equals processed |
| CrossLink.JcSpec | data/main2.py:98 | `data[k]["j_c"]` gains the dicts of exactly the processed characters whose key is k |
| CrossLink.JcOnce | data/main2.py:77-98 | over a table with distinct keys (as `kanjidic.characters` is), each character gets exactly one `"j_c"` entry |
| CrossLink.TableItems | data/main2.py:77 | iterating the characters table yields each literal with its character, in table order |
| Buckets.AppendAllSpec | data/jmdict2files.py:32-33 | appending a value under each key of a list grows bucket k by one copy per occurrence of k and adds exactly the keys seen |
| Buckets.BucketedSpec | data/jmdict2files.py:16-33 | the buckets built over all items are, for every key, the items carrying that key in input order with one copy per occurrence; the key set is exactly the keys seen |
| Buckets.OccurrencesGrow | data/jmdict2files.py:16-33 | buckets never shrink as more items are processed |
| Buckets.AppendAllConcat | data/jmdict2files.py:32-33 | appending under two key lists in turn is appending under their concatenation |
| Buckets.OccurrencesMember | data/main.py:102-103 | an item is in bucket k iff it is one of the inputs and k is among its keys |
| Buckets.IndexOccurrencesAscending | data/main.py:88-95 | a word-index bucket holds valid entry positions in ascending order |
| Buckets.FileUnder | data/jmdict2files.py:32-33 | the per-key append loop adds the value under each key in turn |
| JmdictIndex.RecordHeadwords | data/main.py:85-95 | the keys are the kanji texts then the kana texts, and the word index gains the entry position once per key occurrence |
| JmdictIndex.RecordKanji | data/main.py:88-90 | the kanji loop collects the kanji texts in order and appends the position once per text |
| JmdictIndex.RecordKana | data/main.py:93-95 | the kana loop extends the keys by the kana texts in order and appends the position once per text |
| JmdictIndex.IndexWords | data/main.py:84-106 | the loop yields the specification index, and fails exactly where an entry with keys cannot be cleaned |
| JmdictIndex.FailsAnywhere | data/main.py:98-106 | one entry with keys that cannot be cleaned makes the whole run fail |
| JmdictIndex.IndexJmdictPy | data/main.py:84-194 | with romanisation as a parameter, the Python run fails iff some entry lacks a `kanji`, `kana` or `sense` list (the inline expression indexes them directly); otherwise it yields the index with `romkan`-cleaned records |
| JmdictIndex.IndexJmdictJs | data/main.mjs:97-166 | the JavaScript run always completes and yields the index with JavaScript-cleaned records |
| JmdictIndex.DataBucketsExact | data/main.py:98-103 | `data[k]` holds exactly the raw entries having k as a headword (and an entry without keys creates no bucket) |
| JmdictIndex.WordIndexExact | data/main.py:84-95 | `word_index[k]["j"]` holds exactly the positions of the entries having k as a headword, ascending |
| JmdictIndex.IndexedWordsAreStored | data/main.py:98-106 | every position in the word index has a cleaned record in `jmdict_entries` |
| JmdictIndex.JsEntriesReadBack | data/main.mjs:119-165 | each stored JavaScript record is at a valid position and decodes back to that entry with kana romaji equal to the kana text |
| JmdictFiles.CollectHeadwords | data/jmdict2files.mjs:48-51 | the keys are the kanji texts then the kana texts, a missing array counting as empty |
| JmdictFiles.SplitByHeadwordPy | data/jmdict2files.py:13-33 | the loop yields the specification buckets: each entry under each of its keys, once per occurrence, in input order |
| JmdictFiles.SplitByHeadwordJs | data/jmdict2files.mjs:37-66 | the stream callback yields the same buckets; `processedCount` counts every entry including those with no keys, and the unique-key count is the number of distinct keys |
| JmdictFiles.FirstHeadword | data/test.py:17-21 | the first kanji text when there is kanji, else the first kana text, else `""`; the run fails on an entry without a `kanji` list, or with an empty one and no `kana` list |
| JmdictFiles.SplitByFirstHeadword | data/test.py:13-24 | the loop fails iff some entry's key lookup fails; otherwise each entry is filed under at most one key, in input order |
| JmdictFiles.FileFirst | data/test.py:17-24 | one entry fails iff a list it consults is missing; otherwise it is appended to the bucket of its first headword, if that is non-empty |
| JmdictFiles.FirstHeadwordBucketExact | data/test.py:17-24 | an entry is in bucket k iff k is non-empty and its first headword is k, so an empty first kanji text is never filed and never falls back to kana |
| EntryClean.NonEmpty | data/jp/entry_processor.py:25 | a romaji value is kept exactly when it is present and non-empty |
| EntryClean.CleanKanji | data/jp/entry_processor.py:6-10 | a cleaned kanji has only keys `c`, `t`, `g` |
| EntryClean.KanjiRoundTrip | data/jp/entry_processor.py:6-10 | decoding a cleaned kanji gives the kanji back: `"c"` only when common, `"t"` only for non-empty text, `"g"` only for non-empty tags |
| EntryClean.CleanKanaWithRomaji | data/jp/entry_processor.py:20-26 | a cleaned kana has only keys `c`, `t`, `g`, `a`, `r`, and `"r"` exactly when `romaji` is present and non-empty |
| EntryClean.CleanKanaRomanised | data/main.py:124-134 | the inline copy always emits `"r"`: the romanised text, or `{}` for an empty text |
| EntryClean.CleanKanaJs | data/main.mjs:137-143 | the JavaScript copy always emits `"a"` (the comparison with a fresh `['*']` never fails), and `"r"` exactly when the text is non-empty |
| EntryClean.KanaWithRomajiRoundTrip | data/jp/entry_processor.py:20-26 | decoding gives the kana back, minus an empty romaji; `"a"` is absent exactly for `["*"]` |
| EntryClean.KanaRomanisedRoundTrip | data/main.py:124-134 | decoding gives the kana back with romaji replaced by the romanised text |
| EntryClean.KanaJsRoundTrip | data/main.mjs:137-143 | decoding gives the kana back with romaji equal to its own text |
| EntryClean.CleanGloss | data/jp/entry_processor.py:42-46 | a cleaned gloss has only keys `g`, `y`, `t` |
| EntryClean.GlossRoundTrip | data/jp/entry_processor.py:42-46 | decoding gives the gloss back without `lang`, with gender/type/text kept when truthy |
| EntryClean.SenseBody | data/jp/entry_processor.py:35-55 | a sense always has `"g"`, with one cleaned gloss per input gloss and `[]` without a gloss list; the scope keys `"k"` and `"a"` are not among its body keys |
| EntryClean.SenseBodyKeys | data/jp/entry_processor.py:35-55 | only the nine body keys occur |
| EntryClean.CleanSense | data/jp/entry_processor.py:37-38 | `"k"` and `"a"` are absent exactly when the list equals `["*"]` |
| EntryClean.CleanSenseJs | data/main.mjs:148-149 | the JavaScript copy always emits `"k"` and `"a"` |
| EntryClean.AntonymLands | data/jp/entry_processor.py:36 | `"n"` is present iff `antonym` is non-empty, and then holds it |
| EntryClean.DialectLands | data/jp/entry_processor.py:39 | `"d"` is present iff `dialect` is non-empty, and then holds it |
| EntryClean.FieldLands | data/jp/entry_processor.py:40 | `"f"` is present iff `field` is non-empty, and then holds it |
| EntryClean.InfoLands | data/jp/entry_processor.py:50 | `"i"` is present iff `info` is non-empty, and then holds it |
| EntryClean.LanguageSourceLands | data/jp/entry_processor.py:51 | `"l"` is present iff `languageSource` is non-empty, and then holds it |
| EntryClean.MiscLands | data/jp/entry_processor.py:52 | `"m"` is present iff `misc` is non-empty, and then holds it |
| EntryClean.PartOfSpeechLands | data/jp/entry_processor.py:53 | `"p"` is present iff `partOfSpeech` is non-empty, and then holds it |
| EntryClean.RelatedLands | data/jp/entry_processor.py:54 | `"r"` is present iff `related` is non-empty, and then holds it |
| EntryClean.GlossesLand | data/jp/entry_processor.py:41-49 | `"g"` holds one cleaned gloss per gloss, in order |
| EntryClean.SenseRoundTrip | data/jp/entry_processor.py:35-55 | decoding a cleaned sense gives it back with glosses canonicalised |
| EntryClean.SenseJsRoundTrip | data/main.mjs:146-163 | the same for the JavaScript copy |
| EntryClean.CleanEntryWith | data/jp/entry_processor.py:1-62 | the record exists iff `kanji`, `kana` and `sense` are all present (they are indexed directly); `"k"`, `"r"`, `"s"` appear exactly for the non-empty lists |
| EntryClean.CleanEntryJs | data/main.mjs:128-165 | `"k"`, `"r"`, `"s"` appear exactly for the present arrays, empty ones included, since an empty array is truthy |
| EntryClean.CleanAndStructureRoundTrip | data/jp/entry_processor.py:1-62 | decoding a cleaned entry gives the entry back minus what the compact form forgets (gloss `lang`, empty romaji, the entry id) |
| EntryClean.CleanEntryRomanisedRoundTrip | data/main.py:106-194 | the same for the inline copy, with romaji replaced by the romanised text |
| EntryClean.CleanEntryJsRoundTrip | data/main.mjs:128-165 | the same for the JavaScript copy, with romaji equal to the kana text |
| PyRecord.GetOpt | data/jp/kanjidic/type.py:37 | `dict.get`: present and not null, and then the stored value |
| PyRecord.IfTruthy | data/jp/jmdict/type.py:12-13 | `d.get(k) if d.get(k) else None`: the value exactly when it is truthy |
| PyRecord.Construct | data/zh/char_dict/type.py:177-222 | construction succeeds iff every required key is present; each attribute takes `d.get` of its key |
| PyRecord.DropNoneSpec | data/jp/jmdict/type.py:18-19 | `to_dict` keeps exactly the attributes that are not None, with their values |
| PyRecord.AllAttrsSpec | data/jp/kanjidic/type.py:13-14 | `__dict__` keeps every attribute, None as null |
| PyRecord.ReadBack | data/jp/kanjidic/type.py:13-14 | reconstructing from `__dict__` gives the record back; from the None-dropping dict it does so iff no required attribute is null |
| PyRecord.MapDicts | data/jp/kanjidic/type.py:39-41 | mapping a constructor over a list succeeds iff every element is a dict it accepts, one record per element, in order |
| PyRecord.ToDicts | data/jp/jmdict/type.py:115 | one dict per record, in order |
| PyRecord.MapDictsStable | data/jp/kanjidic/type.py:39-41 | a constructor that reads back its own `to_dict` maps a list of dicts back to the records |
| PyRecord.TruthyList | data/jp/jmdict/type.py:99-101 | `[C(x) for x in d.get(k)] if d.get(k) else None`: None exactly for a missing or falsy list, otherwise one record per element |
| PyRecord.TruthyDict | data/zh/char_dict/type.py:191-193 | `C(d[k]) if d.get(k) else None`: None exactly for a missing or falsy value |
| PyRecord.ConstructedDropNone | data/zh/char_dict/type.py:228 | `to_dict` of a constructed record keeps an attribute iff its key was present and not null |
| JmdictTypes.NewKanjiElement | data/jp/jmdict/type.py:8-13 | `common` is kept unless null (so `False` survives); `text` and `tags` become None when falsy |
| JmdictTypes.NewReadingElement | data/jp/jmdict/type.py:23-31 | the same, and `appliesToKanji` becomes None when falsy |
| JmdictTypes.NewGloss | data/jp/jmdict/type.py:41-45 | every gloss field becomes None when falsy |
| JmdictTypes.NewSense | data/jp/jmdict/type.py:55-84 | every list field becomes None when falsy, otherwise is kept as given; `gloss` becomes the list of glosses |
| JmdictTypes.NewEntry | data/jp/jmdict/type.py:97-107 | a missing `"id"` fails; otherwise the id is kept |
| JmdictTypes.NewJMdict | data/jp/jmdict/type.py:136-137 | a missing `"words"` fails; otherwise one entry per input word, in order |
| JmdictTypes.KanjiElementToDictKeys | data/jp/jmdict/type.py:18-19 | `to_dict` has a key exactly for each attribute that is not None |
| JmdictTypes.FalseCommonKept | data/jp/jmdict/type.py:9-26 | `common: False` survives construction and `to_dict` |
| JmdictTypes.KanjiElementReadBack | data/jp/jmdict/type.py:8-19 | constructing from `to_dict` gives the element back |
| JmdictTypes.ReadingElementReadBack | data/jp/jmdict/type.py:23-37 | constructing from `to_dict` loses `appliesToKanji`, which `to_dict` emits as `applies_to_kanji` |
| JmdictTypes.GlossReadBack | data/jp/jmdict/type.py:41-51 | constructing from `to_dict` gives the gloss back; every emitted value is truthy |
| JmdictTypes.SenseToDictKeys | data/jp/jmdict/type.py:89-93 | `to_dict` has a key for each non-None list, and `"gloss"` holds the gloss dicts |
| JmdictTypes.SenseReadBack | data/jp/jmdict/type.py:55-93 | constructing from `to_dict` keeps exactly the attributes whose snake-case name equals the camel-case key |
| JmdictTypes.SnakeKeysAbsent | data/jp/jmdict/type.py:89-90 | `to_dict` never emits the camel-case keys the constructor reads |
| JmdictTypes.EntryToDictKeys | data/jp/jmdict/type.py:112-120 | `"id"` always; `"kanji"`, `"kana"`, `"sense"` exactly when non-empty |
| JmdictTypes.EntryReadBack | data/jp/jmdict/type.py:96-120 | constructing from `to_dict` gives the entry back, with each element read back as above |
| JmdictTypes.JMdictEntry.AllKanji | data/jp/jmdict/type.py:126-128 | the kanji texts in order, or `[]` without kanji |
| JmdictTypes.JMdictEntry.AllKana | data/jp/jmdict/type.py:122-124 | the kana texts in order, or `[]` without kana |
| JmdictTypes.JMdictEntry.AllReadings | data/jp/jmdict/type.py:130-132 | the kanji texts followed by the kana texts |
| KanjidicTypes.NewMisc | data/jp/kanjidic/type.py:36-44 | `strokeCounts` is required; `variants` and `radical_names` default to `[]` |
| KanjidicTypes.NewReadingMeaning | data/jp/kanjidic/type.py:99-111 | needs a first group; `nanori` defaults to `[]` |
| KanjidicTypes.ValuesOfTypeSpec | data/jp/kanjidic/type.py:110-111 | a value is listed iff some reading of that type has it; `ja_on` and another type together take at most all readings |
| KanjidicTypes.ValuesOfTypeInOrder | data/jp/kanjidic/type.py:110-111 | the values of the readings of one type are listed in the readings' order, duplicates kept: one more reading appends its value exactly when it has that type |
| KanjidicTypes.OnKunPartition | data/jp/kanjidic/type.py:100-111 | `onyomi`/`kunyomi` are the in-order lists of the values of the `ja_on`/`ja_kun` readings of the first group; a value is in one iff some reading of that type has it; together no more than the readings |
| KanjidicTypes.OnlyFirstGroup | data/jp/kanjidic/type.py:100-107 | inputs with the same first group and nanori give the same block: later groups are ignored |
| KanjidicTypes.MiscToDictKeys | data/jp/kanjidic/type.py:46-49 | `"variants"` is always present as a list of dicts; `grade`, `frequency`, `jlpt_level` appear exactly when not None |
| KanjidicTypes.NewCharacter | data/jp/kanjidic/type.py:124-143 | the literal is kept; `reading_meaning` is present exactly when `readingMeaning` is truthy |
| KanjidicTypes.CharacterReadingMeaningKey | data/jp/kanjidic/type.py:139-158 | `to_dict` has `"reading_meaning"` exactly when `readingMeaning` was truthy, and the literal |
| KanjidicTypes.CharacterToDictKeys | data/jp/kanjidic/type.py:148-159 | `"reading_meaning"` exactly when the block exists; `"literal"` always |
| KanjidicTypes.Find | data/jp/kanjidic/type.py:164-167 | the position of the first entry with the key, or none when absent |
| KanjidicTypes.Insert | data/jp/kanjidic/type.py:164-167 | inserting an existing key replaces its value in place, and a new key is appended |
| KanjidicTypes.NewKanjidic2 | data/jp/kanjidic/type.py:163-167 | needs `"characters"` |
| KanjidicTypes.GetCharacter | data/jp/kanjidic/type.py:172-173 | None exactly for an absent literal, otherwise the stored character |
| KanjidicTypes.FromPairsLastWins | data/jp/kanjidic/type.py:164-167 | the table has distinct keys; a lookup yields the last character with that literal, and None iff no character has it |
| KanjidicTypes.FromPairsKeys | data/jp/kanjidic/type.py:164-167 | the table's keys are exactly the literals |
| CharDictTypes.TypeList | data/zh/char_dict/type.py:36 | every component type must be one of the `TypeElement` values: a list is accepted iff all its items are, kept in order; an object iff all its keys are, giving each key once; a string only when empty; anything else raises |
| CharDictTypes.NewComponent | data/zh/char_dict/type.py:35-43 | accepted types only; the other attributes as `d.get` gives them |
| CharDictTypes.NewImage | data/zh/char_dict/type.py:73-82 | `type` must be an `ImageType` value; `data` is None when falsy |
| CharDictTypes.NewStatistics | data/zh/char_dict/type.py:128-157 | `top_words` is None exactly when `topWords` is missing or falsy |
| CharDictTypes.NewCharEntry | data/zh/char_dict/type.py:177-222 | `_id` and `char` are required; the scalars are as given |
| CharDictTypes.NestedNoneWhenFalsy | data/zh/char_dict/type.py:183-222 | each of the eight nested attributes is None exactly when its key is missing or falsy |
| CharDictTypes.ScalarsAsGiven | data/zh/char_dict/type.py:180-217 | the scalar attributes are stored as given, so an empty list stays `[]` |
| CharDictTypes.CharEntryToDictKeys | data/zh/char_dict/type.py:227-247 | `to_dict` keeps exactly the non-null scalars and always has the eight nested keys, null when absent or empty |
| CharDictTypes.IdAndCharKept | data/zh/char_dict/type.py:178-228 | `_id` and `char` are in `to_dict` exactly when they are not null |
| CharDictTypes.ComponentToDict | data/zh/char_dict/type.py:45-50 | `"type"` holds the enum values as strings; other attributes appear exactly when not None |
| CharDictTypes.ImageToDict | data/zh/char_dict/type.py:84-92 | `"type"` is the string value; `"data"` appears exactly when it was truthy |
| CharDictTypes.StatisticsToDict | data/zh/char_dict/type.py:159-163 | `"top_words"` appears exactly when `topWords` was truthy, as a list of dicts |
| CharDictTypes.CharDict.constructor | data/zh/char_dict/type.py:251-252 | a new dictionary has no characters |
| CharDictTypes.CharDict.AddChar | data/zh/char_dict/type.py:257-258 | appends exactly one entry at the end of `chars` when construction succeeds, and changes nothing when it raises |
| Hanzi.AnyContainsIff | data/utils.py:55 | `any` over the ranges holds iff some range contains the codepoint, ends inclusive |
| Hanzi.IsHanziIff | data/utils.py:5-55 | `is_hanzi(c)` holds iff the codepoint lies in one of the eight inclusive ranges |
| Hanzi.DoctestExamples | data/utils.py:44-69 | `'漢'`, `'亜'` are hanzi; `'ア'`, `'A'`, `'あ'`, `'ㄨ'`, `'a'` are not |
| Hanzi.RangeEnds | data/utils.py:6-55 | U+4E00, U+9FFF, U+3400 and U+4DBF are hanzi; U+4DC0–U+4DFF is not |
| Hanzi.NothingAboveExtensionF | data/utils.py:24-38 | no codepoint above U+2EBEF is hanzi |
| PyText.Split | data/zh/char_dict/find_japanese_variants.py:18 | `str.split(sep)`: at least one part, no part contains the separator, and joining the parts gives the string back |
| PyText.SplitTwo | data/zh/char_dict/find_japanese_variants.py:18 | a string with one separator splits into its two sides |
| PyText.LStrip | data/file_utils.py:74 | removes exactly the leading whitespace |
| PyText.RStrip | data/file_utils.py:74 | removes exactly the trailing whitespace |
| PyText.Strip | data/file_utils.py:74 | the result is a slice of the input with only whitespace cut from either end, and it starts and ends with no whitespace |
| JapaneseVariants.IsJapaneseVariant | data/zh/char_dict/find_japanese_variants.py:7-11 | true iff statistics and top words exist and the first top word's gloss starts with `"Japanese variant of"`; fails only when there is a first top word whose gloss is missing or not a string |
| JapaneseVariants.MatchFrom | data/zh/char_dict/find_japanese_variants.py:16 | the search finds the leftmost position where the pattern matches |
| JapaneseVariants.Capture | data/zh/char_dict/find_japanese_variants.py:16 | no match iff the pattern matches at no position |
| JapaneseVariants.CaptureShape | data/zh/char_dict/find_japanese_variants.py:16 | a capture is non-empty, contains no `[`, and follows an `of` and whitespace |
| JapaneseVariants.CaptureAfterMarker | data/zh/char_dict/find_japanese_variants.py:16 | after `"Japanese variant of "`, the capture is everything up to the first `[` or the end |
| JapaneseVariants.Extract | data/zh/char_dict/find_japanese_variants.py:14-23 | both parts or neither; none exactly when there is no match or three or more `\|`-separated parts |
| JapaneseVariants.ExtractSpec | data/zh/char_dict/find_japanese_variants.py:17-22 | two parts give (first, second) joined back by `\|`; one part gives (c, c) |
| JapaneseVariants.ExtractPair | data/zh/char_dict/find_japanese_variants.py:17-20 | `"…of T\|S[…"` gives `(T, S)` |
| JapaneseVariants.ExtractSingle | data/zh/char_dict/find_japanese_variants.py:21-22 | `"…of C[…"` gives `(C, C)` |
| JapaneseVariants.ExtractThreePartsExample | data/zh/char_dict/find_japanese_variants.py:19-23 | three parts give `(None, None)` |
| JapaneseVariants.Classify | data/zh/char_dict/find_japanese_variants.py:33-39 | a non-variant goes nowhere; a variant whose extracted (traditional, simplified) are both present and non-empty maps its `char` to exactly that pair, and fails when that `char` is unhashable; any other variant is skipped with its `char` and its gloss; it fails exactly when the variant test fails or on that unhashable key |
| JapaneseVariants.FindJapaneseVariants | data/zh/char_dict/find_japanese_variants.py:26-43 | the loop computes the scan of the entries: it fails iff some entry fails to classify, and otherwise returns the mappings and the skips of the entries in order |
| JapaneseVariants.ScanStops | data/zh/char_dict/find_japanese_variants.py:33 | an entry whose classification fails stops the scan |
| JapaneseVariants.ScanPartition | data/zh/char_dict/find_japanese_variants.py:32-39 | each Japanese variant lands in exactly one of the two lists: mapped ones in the first, skipped ones in the second |
| JapaneseVariants.ScanSucceeds | data/zh/char_dict/find_japanese_variants.py:32-39 | the scan succeeds iff every entry classifies |
| JapaneseVariants.ScanOutcomes | data/zh/char_dict/find_japanese_variants.py:32-39 | the two lists are each entry's mapping, and each entry's skip, in the entries' order, one per entry |
| TypeInference.Infer | data/file_utils.py:7-23 | a dict infers a dict with the same keys, in order |
| TypeInference.InferNames | data/file_utils.py:8-23 | every leaf is one of `str`, `int`, `float`, `None`, `List[Any]` (a bool infers `int`, never `bool`); `None` iff the value is None |
| TypeInference.InferDistinct | data/file_utils.py:20-21 | a dict with distinct keys infers one with distinct keys |
| TypeInference.OnlyIn | data/file_utils.py:31-38 | the keys of the second dict that are not in the first |
| TypeInference.MergeWithNone | data/file_utils.py:42-43 | merging with `"None"` on either side gives `Optional[other]`, and `"None"` with `"None"` gives `Optional[None]` |
| TypeInference.MergeLeavesSymmetric | data/file_utils.py:42-45 | merging equal leaves, or a leaf with `"None"`, does not depend on the order |
| TypeInference.MergeDistinctLeaves | data/file_utils.py:46-47 | two different leaves neither of which is `"None"` merge to `Union[a, b]` |
| TypeInference.MergeDictKeys | data/file_utils.py:29-39 | the merge of two dicts has exactly the union of their keys, each once |
| TypeInference.MergeDictOneSided | data/file_utils.py:35-38 | a key present on one side only holds that side's structure made Optional |
| TypeInference.MergeSelf | data/file_utils.py:40-45 | a structure free of `"None"` merges with itself to itself |
| TypeInference.AnalyzeStructure | data/file_utils.py:50-62 | the loop computes the fold over the lines |
| TypeInference.SkipsInvalid | data/file_utils.py:54-60 | the fold is the merge of the valid lines only: undecodable lines are skipped |
| TypeInference.FirstLineOptional | data/file_utils.py:51-58 | after the first valid line, since the fold starts from `{}`, every key holds its structure made Optional |
| TypeInference.Dedup | data/file_utils.py:75 | the same members, each once |
| TypeInference.Without | data/file_utils.py:79 | the members other than `"None"` |
| TypeInference.Simplify | data/file_utils.py:65-83 | dicts keep their keys and lists stay lists; a leaf is simplified by name |
| TypeInference.SimplifyUnionSame | data/file_utils.py:73-77 | a union with one distinct member becomes that member |
| TypeInference.SimplifyUnionNone | data/file_utils.py:78-81 | `Union[None, a]` becomes `Optional[a]` |
| TypeInference.SimplifyNoneLast | data/file_utils.py:78-81 | `Union[a, None]` becomes `Optional[a]` |
| TypeInference.SimplifyUnionDistinct | data/file_utils.py:73-82 | a union of two distinct non-None members stays as it is, under the model's set order |
| TypeInference.SimplifyMergedStable | data/file_utils.py:73-82 | simplifying the merge of two distinct non-None leaves changes nothing, under the model's set order |
| TypeInference.UnionDistinctAnyOrder | data/file_utils.py:75-82 | for any order in which the set lists two distinct non-None members, the result is exactly those two joined in that order: `Union[a, b]` or `Union[b, a]` |
| JsonValidate.TransformUnion | data/zh/char_dict/Char.ts:234-244 | the loop over the members returns what the recursive definition returns |
| JsonValidate.TransformObject | data/zh/char_dict/Char.ts:268-284 | the two `forEach` loops compute the object case of the definition |
| JsonValidate.DeclaredLoop | data/zh/char_dict/Char.ts:275-277 | the loop over declared properties computes their validation |
| JsonValidate.UndeclaredLoop | data/zh/char_dict/Char.ts:278-283 | the loop over undeclared keys computes their validation |
| JsonValidate.Primitives | data/zh/char_dict/Char.ts:286-306 | `"any"` passes everything; `null` accepts only null; `false` rejects everything; a primitive prototype accepts exactly its `typeof`, unchanged |
| JsonValidate.EnumMembership | data/zh/char_dict/Char.ts:246-249 | an enum accepts exactly its listed strings, unchanged |
| JsonValidate.UnionFirstMatch | data/zh/char_dict/Char.ts:234-244 | a union rejects iff every member rejects, and otherwise returns the first accepting member's result |
| JsonValidate.OptionalProperty | data/zh/char_dict/Char.ts:234-244 | an optional property (a union with `undefined`) accepts a missing value and otherwise validates as its type |
| JsonValidate.ArrayElementwise | data/zh/char_dict/Char.ts:251-255 | an array descriptor accepts iff the value is an array whose every element is accepted; the result has the same length and order |
| JsonValidate.ObjectCase | data/zh/char_dict/Char.ts:268-284 | an object is accepted iff it is a non-array object whose declared properties (a missing one read as `undefined`) and undeclared ones (against `additional`) are accepted; declared properties come first, in order, under their new names |
| JsonValidate.ClosedObject | data/zh/char_dict/Char.ts:278-283 | with `additional` false, an accepted object has no undeclared key |
| JsonValidate.RequiredPresent | data/zh/char_dict/Char.ts:272-277 | a property whose type rejects `undefined` must be present in an accepted object |
| JsonValidate.CastIsUncast | data/zh/char_dict/Char.ts:309-315 | when every property's JSON and JavaScript names agree, `cast` and `uncast` give the same result |
| JsonValidate.UnionSpec | data/zh/word_dict/Word.ts:126-136 | the union loop from any member on rejects iff every later member rejects, else returns the first accepting one |
| CharSchema.ToCharElementwise | data/zh/char_dict/Char.ts:180-182 | `toChar` succeeds iff the parsed JSON is an array of accepted `Char` values, one result per element |
| CharSchema.CharRecord | data/zh/char_dict/Char.ts:342-366 | an accepted `Char` is an object with string `_id` and `char` and no undeclared key |
| CharSchema.SourceMembership | data/zh/char_dict/Char.ts:440-446 | a `Source` is exactly one of the listed sources |
| CharSchema.VariantRequired | data/zh/char_dict/Char.ts:435-439 | an accepted `Variant` has `char`, `parts` and `source` |
| CharSchema.CharUncastIsCast | data/zh/char_dict/Char.ts:184-186 | `charToJson`'s `uncast` validates exactly as `toChar`'s `cast` |
| WordSchema.ToWordElementwise | data/zh/word_dict/Word.ts:72-74 | `toWord` succeeds iff the parsed JSON is an array of accepted `Word` values, one result per element |
| WordSchema.WordRecord | data/zh/word_dict/Word.ts:234-242 | an accepted `Word` has `_id`, `simp`, `trad`, `items`, `pinyinSearchString`, no undeclared key, and accepted items |
| WordSchema.ItemSimpTrad | data/zh/word_dict/Word.ts:277-281 | an item's `simpTrad` is absent or one of `both`/`simp`/`trad` |
| WordSchema.ItemSource | data/zh/word_dict/Word.ts:282-286 | an item's `source` is absent or one of the three listed sources |
| WordSchema.WordUncastIsCast | data/zh/word_dict/Word.ts:76-78 | `wordToJson`'s `uncast` validates exactly as `toWord`'s `cast` |

## Left out

- Loading, decompression and writing of the datasets and output files. This is I/O; parsed sequences are parameters. It covers `load_dataset`/`load_json_xz` in `data/main.py`, the loaders of `data/main.mjs`, every `load_*` and `from_jsonl`, the output loops, and `data/build_dictionary.mjs`.
- Command-line and output-directory selection in `data/main.py`, `data/main.mjs` and `data/jmdict2files.mjs` are left out as plumbing. `data/main.py` uses `argparse` and `romkan` without importing them, so as written it stops before its loop. The loop is modelled as if the imports were there.
- `romkan.to_roma` is a function parameter (`toRoma`). The regular-expression engine is modelled only through the capture rule `of\s+([^\[]+)(?:\[|$)`, by direct scanning.
- Progress and warning `print`/`console.log` calls are omitted, including `print(zh_char)` in `data/main2.py`.
- The JMnedict section and the remaining diagnostic scripts are left out because they only print: `data/test_onyomi_chinese_mapping.py`, `data/jp/main.py`, `data/jp/kanjidic/test.py`, `large_file_finder.go` and `large_file_finder.py`.
- The pure type mirrors (`interfaces.ts`, the word-dictionary, JMnedict, radkfile and kradfile type modules, and the `__init__.py` re-exports) have no logic beyond copying fields.
- `Kanjidic2.to_dict` reads attributes that are never assigned, so it always raises; it is not modelled.
- The `__repr__` methods are display only.
- Floating-point statistics (shares and percentages) are carried as opaque JSON numbers; nothing computes with them.
- The `Date` branch of `transform` (`Char.ts` lines 257-266 and 305) is left out: no descriptor in either type map uses it.
- The memoised prop maps `jsonToJSProps`/`jsToJSONProps` are represented by the `Direction` parameter, which selects the name to read and the name to write; the caching itself has no effect on results.
- The text of validation errors (`invalidValue`, `prettyTypeName`) is not modelled; a rejection is `None`.
- `JSON.parse` and `JSON.stringify` are not modelled: values enter already parsed.
- A type-map entry that is itself a ref, union or array cannot be expressed: `Decl` has only object and enum declarations, which is all either map uses.
- CharDictTypes.TypeList: for an object, the keys come in the order of the `TypeElement` values, not in the object's own key order, because object key order is not modelled.
- Key order of objects is not modelled. JSON objects are maps. JavaScript's ordering of integer-like keys in a built object is not modelled, and neither are duplicate keys in a JSON text.
- Plain JavaScript objects used as tables in `data/main.mjs` inherit `Object.prototype` keys. A headword such as `constructor` therefore finds a truthy non-array in `word_index`/`data`, and the `.j.push`/`.push` that follows would throw. The model treats those tables as empty maps.
- Python numeric keys that compare equal (`1 == 1.0 == True`) are not identified in the model's maps.
- Object aliasing is not modelled. The same raw entry object appended under several keys, or the same `entry.to_dict()` result, is a value in the model.
- `Equivalence.GetJ2chWord` has no call site in the scripts, and `j_exceptions` is empty there; it is modelled as a function of the table.
- `TypeInference.Infer`: the final `type(value).__name__` branch cannot be reached for JSON values, so only JSON values are inferred. The `"bool"` branch is dead (a bool is an int) and is not reached in the model either.
- Python `repr` of a name is modelled only for the choice of quote and the escaping of the backslash and the quote (`TypeInference.ReprName`). The escapes of non-printable characters (`\n`, `\t`, `\xNN`, `\uNNNN`) are not modelled.
- Python `set` iteration order in `merge_structures` and `simplify_structure` is fixed to first occurrence (see above). The key-set and member-set properties do not depend on it; the two lemmas below do.
- TypeInference.SimplifyUnionDistinct: the exact result `Union[a, b]` holds only under the model's first-occurrence order. Python's `list(set(types))` may list the members as `b, a`, giving `Union[b, a]`; `TypeInference.UnionDistinctAnyOrder` states what holds for every order.
- TypeInference.SimplifyMergedStable: the merged name comes back unchanged only under the model's first-occurrence order, for the same reason; under another set order the result is the same union spelled `Union[b, a]`.
- `TypeInference.Simplify` handles a two-member `Union[...]` name of simple members. A name whose members themselves contain commas is split at every comma, as the source does, but no lemma describes the result.
- `CrossLink.LinkKanjidic` models the `isinstance` test as the absence of a character record. Values that are not characters are skipped with no change.
