/** The scan for Japanese-variant characters in the Chinese character
    dictionary: an entry whose first top word's gloss begins "Japanese
    variant of" names its traditional and simplified equivalents after that
    phrase, as `T|S[...]` or `C[...]`. */
module JapaneseVariants {
  import opened Wrappers
  import opened Json
  import opened PyRecord
  import opened CharDictTypes
  import opened PyText
  import opened KanjidicTypes

  const Marker: string := "Japanese variant of"

  /** The first top word's gloss of an entry that has top words; `None`
      also when that gloss is not a string (`startswith` raises). */
  function FirstGloss(e: CharEntry): Option<string>
  {
    if e.statistics.Some? && e.statistics.value.topWords.Some? && e.statistics.value.topWords.value != [] then
      match AttrOf(e.statistics.value.topWords.value[0], "gloss")
      case Some(JString(g)) => Some(g)
      case _ => None
    else None
  }

  /** `is_japanese_variant`; `None` is the AttributeError of a first top
      word whose gloss is not a string. */
  function IsJapaneseVariant(e: CharEntry): (r: Option<bool>)
    ensures r == Some(true) <==> FirstGloss(e).Some? && StartsWith(FirstGloss(e).value, Marker)
    ensures r.None? ==> e.statistics.Some? && e.statistics.value.topWords.Some? && e.statistics.value.topWords.value != []
  {
    if e.statistics.Some? && e.statistics.value.topWords.Some? && e.statistics.value.topWords.value != [] then
      match FirstGloss(e)
      case None => None
      case Some(g) => Some(StartsWith(g, Marker))
    else Some(false)
  }

  /** The length of the run of whitespace starting at `i`. */
  function SpaceRun(g: string, i: nat): (n: nat)
    requires i <= |g|
    ensures i + n <= |g|
    ensures forall j :: i <= j < i + n ==> IsSpace(g[j])
    ensures i + n == |g| || !IsSpace(g[i + n])
    decreases |g| - i
  {
    if i < |g| && IsSpace(g[i]) then 1 + SpaceRun(g, i + 1) else 0
  }

  /** The position of the first `[` at or after `i`, or the end. */
  function BracketOrEnd(g: string, i: nat): (j: nat)
    requires i <= |g|
    ensures i <= j <= |g|
    ensures forall k :: i <= k < j ==> g[k] != '['
    ensures j == |g| || g[j] == '['
    decreases |g| - i
  {
    if i == |g| || g[i] == '[' then i else BracketOrEnd(g, i + 1)
  }

  /** The text `of` starts at `p`. */
  predicate OfAt(g: string, p: nat)
  {
    p + 2 <= |g| && g[p] == 'o' && g[p + 1] == 'f'
  }

  /** Where `of\s+([^\[]+)(?:\[|$)` can match at position `p`, the captured
      span. Greedily the whitespace run is taken whole and the capture runs
      to the next `[` or the end; when nothing is left to capture, the
      engine gives the last whitespace character back to the capture,
      which needs a run of at least two. */
  function CaptureAt(g: string, p: nat): (r: Option<(nat, nat)>)
    requires p <= |g|
    ensures r.Some? ==> p + 2 < r.value.0 + 1 && r.value.0 < r.value.1 <= |g|
  {
    if !OfAt(g, p) then None
    else
      var w := SpaceRun(g, p + 2);
      var q := p + 2 + w;
      if w >= 1 && q < |g| && g[q] != '[' then Some((q, BracketOrEnd(g, q)))
      else if w >= 2 then Some((q - 1, q))
      else None
  }

  /** `re.search`: the leftmost position at or after `p` where the
      pattern matches. */
  function MatchFrom(g: string, p: nat): (q: Option<nat>)
    requires p <= |g|
    ensures q.Some? ==> p <= q.value <= |g| && CaptureAt(g, q.value).Some?
    ensures q.Some? ==> forall k :: p <= k < q.value ==> CaptureAt(g, k).None?
    ensures q.None? ==> forall k :: p <= k <= |g| ==> CaptureAt(g, k).None?
    decreases |g| - p
  {
    if CaptureAt(g, p).Some? then Some(p)
    else if p == |g| then None
    else MatchFrom(g, p + 1)
  }

  function Capture(g: string): (r: Option<string>)
    ensures r.None? <==> forall k :: 0 <= k <= |g| ==> CaptureAt(g, k).None?
  {
    match MatchFrom(g, 0)
    case None => None
    case Some(q) =>
      var (i, j) := CaptureAt(g, q).value;
      Some(g[i..j])
  }

  /** A match at `p` captures a non-empty span free of `[`, after an `of`
      and at least one whitespace character. */
  lemma CaptureAtShape(g: string, p: nat)
    requires p <= |g| && CaptureAt(g, p).Some?
    ensures var (i, j) := CaptureAt(g, p).value;
      OfAt(g, p) && p + 2 < |g| && IsSpace(g[p + 2])
      && i < j && forall k :: i <= k < j ==> g[k] != '['
  {
    var w := SpaceRun(g, p + 2);
    var q := p + 2 + w;
    assert IsSpace(g[p + 2]);
    if !(w >= 1 && q < |g| && g[q] != '[') {
      assert IsSpace(g[q - 1]);
    }
  }

  /** The captured text is never empty, never contains `[`, and follows an
      `of` and at least one whitespace character. */
  lemma CaptureShape(g: string)
    requires Capture(g).Some?
    ensures var c := Capture(g).value;
      c != [] && (forall k :: 0 <= k < |c| ==> c[k] != '[')
      && exists p: nat :: OfAt(g, p) && p + 2 < |g| && IsSpace(g[p + 2])
  {
    var q := MatchFrom(g, 0).value;
    CaptureAtShape(g, q);
    var (i, j) := CaptureAt(g, q).value;
    assert Capture(g).value == g[i..j];
  }

  /** `extract_chinese_equivalents`: two parts are (traditional,
      simplified), one part is both, anything else is nothing. */
  function Extract(g: string): (r: (Option<string>, Option<string>))
    ensures r.0.Some? <==> r.1.Some?
    ensures r.0.None? <==> Capture(g).None? || |Split(Capture(g).value, '|')| >= 3
  {
    match Capture(g)
    case None => (None, None)
    case Some(c) =>
      var parts := Split(c, '|');
      if |parts| == 2 then (Some(parts[0]), Some(parts[1]))
      else if |parts| == 1 then (Some(parts[0]), Some(parts[0]))
      else (None, None)
  }

  /** Two parts are the capture split at its one `|`; one part is the
      whole capture, used for both. */
  lemma ExtractSpec(g: string)
    requires Extract(g).0.Some?
    ensures var (t, s) := Extract(g);
      var c := Capture(g).value;
      (|Split(c, '|')| == 2 ==> c == t.value + "|" + s.value && '|' !in t.value && '|' !in s.value)
      && (|Split(c, '|')| == 1 ==> t.value == s.value == c && '|' !in c)
  {
    var c := Capture(g).value;
    var parts := Split(c, '|');
    if |parts| == 2 {
      assert Join(parts, "|") == parts[0] + "|" + Join(parts[1..], "|");
      assert forall k :: 0 <= k < |parts[0]| ==> parts[0][k] != '|';
      assert forall k :: 0 <= k < |parts[1]| ==> parts[1][k] != '|';
    } else {
      assert forall k :: 0 <= k < |parts[0]| ==> parts[0][k] != '|';
    }
  }

  /** Where one entry goes: a mapping, a skipped entry, or neither. */
  datatype Outcome = Mapped(key: Json, trad: string, simp: string) | Skipped(key: Json, gloss: string) | Neither

  /** `if trad and simp`: both equivalents found and non-empty. */
  predicate BothParts(g: string)
  {
    var (t, s) := Extract(g);
    t.Some? && t.value != "" && s.Some? && s.value != ""
  }

  /** `None` is an exception: the one `is_japanese_variant` raises, or the
      TypeError of an unhashable `char` (a list or an object) used as the
      key of the mapping. */
  function Classify(e: CharEntry): (r: Option<Outcome>)
    ensures r.None? <==> (IsJapaneseVariant(e).None?
                          || (IsJapaneseVariant(e) == Some(true) && BothParts(FirstGloss(e).value) && !Hashable(CharKey(e))))
    ensures r == Some(Neither) <==> IsJapaneseVariant(e) == Some(false)
    ensures IsJapaneseVariant(e) == Some(true) && BothParts(FirstGloss(e).value) && Hashable(CharKey(e)) ==>
      var (t, s) := Extract(FirstGloss(e).value);
      r == Some(Mapped(CharKey(e), t.value, s.value))
    ensures IsJapaneseVariant(e) == Some(true) && !BothParts(FirstGloss(e).value) ==>
      r == Some(Skipped(CharKey(e), FirstGloss(e).value))
    ensures r.Some? && r.value.Mapped? ==> r.value.trad != "" && r.value.simp != "" && Hashable(r.value.key)
  {
    match IsJapaneseVariant(e)
    case None => None
    case Some(false) => Some(Neither)
    case Some(true) =>
      var g := FirstGloss(e).value;
      var (t, s) := Extract(g);
      if !BothParts(g) then Some(Skipped(CharKey(e), g))
      else if !Hashable(CharKey(e)) then None
      else Some(Mapped(CharKey(e), t.value, s.value))
  }

  /** The two lists after scanning `es` in order; `None` when a scan step
      raises. */
  function Scan(es: seq<CharEntry>): Option<(seq<Outcome>, seq<Outcome>)>
  {
    if es == [] then Some(([], []))
    else
      var prev := Scan(es[..|es| - 1]);
      var o := Classify(es[|es| - 1]);
      if prev.None? || o.None? then None else Some(Push(prev.value, o.value))
  }

  /** A mapping goes to the first list, a skip to the second. */
  function Push(lists: (seq<Outcome>, seq<Outcome>), o: Outcome): (seq<Outcome>, seq<Outcome>)
  {
    if o.Mapped? then (lists.0 + [o], lists.1)
    else if o.Skipped? then (lists.0, lists.1 + [o])
    else lists
  }

  /** `find_japanese_variants`, on the entries of a loaded dictionary. */
  method FindJapaneseVariants(es: seq<CharEntry>) returns (r: Option<(seq<Outcome>, seq<Outcome>)>)
    ensures r == Scan(es)
    ensures r.Some? <==> forall i :: 0 <= i < |es| ==> Classify(es[i]).Some?
    ensures r.Some? ==> r.value == (Kept(Classify, es, true), Kept(Classify, es, false))
  {
    var mapped: seq<Outcome> := [];
    var skipped: seq<Outcome> := [];
    var i := 0;
    while i < |es|
      invariant 0 <= i <= |es|
      invariant Scan(es[..i]) == Some((mapped, skipped))
    {
      var o := Classify(es[i]);
      if o.None? {
        ScanStops(es, i);
        ScanSucceeds(es);
        return None;
      }
      ghost var before := (mapped, skipped);
      if o.value.Mapped? {
        mapped := mapped + [o.value];
      } else if o.value.Skipped? {
        skipped := skipped + [o.value];
      }
      assert (mapped, skipped) == Push(before, o.value);
      assert es[..i + 1][..i] == es[..i];
      i := i + 1;
    }
    assert es[..i] == es;
    ScanSucceeds(es);
    ScanOutcomes(es);
    return Some((mapped, skipped));
  }

  /** Once a step raises, the whole scan fails. */
  lemma {:induction false} ScanStops(es: seq<CharEntry>, i: nat)
    requires i < |es| && Classify(es[i]).None?
    ensures Scan(es).None?
  {
    if i < |es| - 1 {
      ScanStops(es[..|es| - 1], i);
    }
  }

  /** Each Japanese variant lands in exactly one of the two lists, every
      other entry in neither: the two lists' lengths add up to the number
      of Japanese variants, and their members are mappings and skips. */
  lemma {:induction false} ScanPartition(es: seq<CharEntry>)
    requires Scan(es).Some?
    ensures |Scan(es).value.0| + |Scan(es).value.1| == CountVariants(es)
    ensures forall o :: o in Scan(es).value.0 ==> o.Mapped?
    ensures forall o :: o in Scan(es).value.1 ==> o.Skipped?
  {
    if es != [] {
      ScanPartition(es[..|es| - 1]);
    }
  }

  function CountVariants(es: seq<CharEntry>): nat
  {
    if es == [] then 0
    else CountVariants(es[..|es| - 1]) + if IsJapaneseVariant(es[|es| - 1]) == Some(true) then 1 else 0
  }

  /** The outcome `o` as a list of one kind: itself when it is a mapping
      (when `mapped`) or a skip (otherwise), else nothing. */
  function Kind(o: Option<Outcome>, mapped: bool): seq<Outcome>
  {
    if o.Some? && (if mapped then o.value.Mapped? else o.value.Skipped?) then [o.value] else []
  }

  /** The outcomes of one kind of the entries that `classify` accepts,
      front to back. */
  function Kept(classify: CharEntry -> Option<Outcome>, es: seq<CharEntry>, mapped: bool): seq<Outcome>
  {
    if es == [] then [] else Kind(classify(es[0]), mapped) + Kept(classify, es[1..], mapped)
  }

  lemma {:induction false} KeptAppend(classify: CharEntry -> Option<Outcome>, a: seq<CharEntry>, b: seq<CharEntry>, mapped: bool)
    ensures Kept(classify, a + b, mapped) == Kept(classify, a, mapped) + Kept(classify, b, mapped)
  {
    if a == [] {
      assert a + b == b;
    } else {
      assert (a + b)[0] == a[0] && (a + b)[1..] == a[1..] + b;
      KeptAppend(classify, a[1..], b, mapped);
    }
  }

  /** The last entry's outcome comes last. */
  lemma KeptSnoc(classify: CharEntry -> Option<Outcome>, es: seq<CharEntry>, mapped: bool)
    requires es != []
    ensures Kept(classify, es, mapped) == Kept(classify, es[..|es| - 1], mapped) + Kind(classify(es[|es| - 1]), mapped)
  {
    var init, last := es[..|es| - 1], es[|es| - 1];
    assert es == init + [last];
    KeptAppend(classify, init, [last], mapped);
    assert [last][1..] == [];
    var k := Kind(classify(last), mapped);
    assert k + [] == k;
  }

  /** The last entry's outcome is pushed onto the lists scanned so far. */
  lemma ScanStep(es: seq<CharEntry>)
    requires es != [] && Scan(es).Some?
    ensures Scan(es[..|es| - 1]).Some? && Classify(es[|es| - 1]).Some?
    ensures Scan(es).value == Push(Scan(es[..|es| - 1]).value, Classify(es[|es| - 1]).value)
  {
  }

  /** Pushing an outcome appends it to the list of its kind. */
  lemma PushKind(lists: (seq<Outcome>, seq<Outcome>), o: Outcome)
    ensures Push(lists, o) == (lists.0 + Kind(Some(o), true), lists.1 + Kind(Some(o), false))
  {
    assert lists.0 + [] == lists.0 && lists.1 + [] == lists.1;
  }

  /** The scan succeeds iff every entry classifies. */
  lemma {:induction false} ScanSucceeds(es: seq<CharEntry>)
    ensures Scan(es).Some? <==> forall i :: 0 <= i < |es| ==> Classify(es[i]).Some?
  {
    if es != [] {
      var init := es[..|es| - 1];
      ScanSucceeds(init);
      if Scan(es).Some? {
        forall i | 0 <= i < |es|
          ensures Classify(es[i]).Some?
        {
          if i < |es| - 1 {
            assert es[i] == init[i];
          }
        }
      } else if Scan(init).Some? {
        assert Classify(es[|es| - 1]).None?;
      } else {
        var i :| 0 <= i < |init| && Classify(init[i]).None?;
        assert es[i] == init[i];
      }
    }
  }

  /** The two lists are the mappings and the skips of the entries, in the
      entries' order, one per entry. */
  lemma {:induction false} ScanOutcomes(es: seq<CharEntry>)
    requires Scan(es).Some?
    ensures Scan(es).value == (Kept(Classify, es, true), Kept(Classify, es, false))
  {
    if es != [] {
      ScanStep(es);
      ScanOutcomes(es[..|es| - 1]);
      KeptSnoc(Classify, es, true);
      KeptSnoc(Classify, es, false);
      PushKind(Scan(es[..|es| - 1]).value, Classify(es[|es| - 1]).value);
    }
  }


  /** After the marker and one space, text that does not start with
      whitespace and holds no `[` is captured whole, up to a following
      `[` or the end. */
  lemma CaptureAfterMarker(c: string, rest: string)
    requires c != [] && !IsSpace(c[0]) && '[' !in c
    requires rest == [] || rest[0] == '['
    ensures Capture(Marker + " " + c + rest) == Some(c)
  {
    var g := Marker + " " + c + rest;
    MarkerLayout(c, rest);
    CaptureSkips(g, 0, 17);
    assert SpaceRun(g, 20) == 0;
    BracketRun(g, 20, 20 + |c|);
    assert CaptureAt(g, 17) == Some((20, 20 + |c|));
  }

  /** Where the marker, the space, the capture and the rest sit. */
  lemma MarkerLayout(c: string, rest: string)
    requires c != []
    ensures var g := Marker + " " + c + rest;
      && |g| == 20 + |c| + |rest|
      && 'o' !in g[0..17]
      && g[17] == 'o' && g[18] == 'f' && g[19] == ' ' && g[20] == c[0]
      && g[20..20 + |c|] == c
      && (rest == [] || g[20 + |c|] == rest[0])
  {
    var g := Marker + " " + c + rest;
    assert g[..17] == Marker[..17] == "Japanese variant ";
    assert g[20..20 + |c|] == c;
  }

  /** `T|S[...]` after the marker gives the pair (T, S). */
  lemma ExtractPair(t: string, s: string, rest: string)
    requires t != [] && !IsSpace(t[0]) && '[' !in t && '|' !in t
    requires '[' !in s && '|' !in s
    requires rest == [] || rest[0] == '['
    ensures Extract(Marker + " " + t + "|" + s + rest) == (Some(t), Some(s))
  {
    var c := t + "|" + s;
    assert Marker + " " + t + "|" + s + rest == Marker + " " + c + rest;
    assert c[0] == t[0];
    CaptureAfterMarker(c, rest);
    SplitTwo(t, s, '|');
  }

  /** `C[...]` after the marker gives C for both forms. */
  lemma ExtractSingle(c: string, rest: string)
    requires c != [] && !IsSpace(c[0]) && '[' !in c && '|' !in c
    requires rest == [] || rest[0] == '['
    ensures Extract(Marker + " " + c + rest) == (Some(c), Some(c))
  {
    CaptureAfterMarker(c, rest);
    SplitOne(c, '|');
  }

  /** Three parts give nothing. */
  lemma ExtractThreePartsExample()
    ensures Extract(Marker + " a|b|c") == (None, None)
  {
    assert Marker + " a|b|c" == Marker + " " + "a|b|c" + "";
    CaptureAfterMarker("a|b|c", "");
    SplitThree();
  }

  lemma SplitThree()
    ensures |Split("a|b|c", '|')| == 3
  {
    var c := "a|b|c";
    assert c[1..] == "|b|c" && c[2..] == "b|c" && c[3..] == "|c" && c[4..] == "c" && c[5..] == [];
    assert Split(c[5..], '|') == [""];
    assert [c[4]] + Split(c[5..], '|')[0] == "c";
    assert Split(c[4..], '|') == [[c[4]] + Split(c[5..], '|')[0]] + Split(c[5..], '|')[1..];
    assert Split(c[4..], '|') == ["c"];
    assert Split(c[3..], '|') == ["", "c"];
    assert [c[2]] + Split(c[3..], '|')[0] == "b";
    assert Split(c[2..], '|') == [[c[2]] + Split(c[3..], '|')[0]] + Split(c[3..], '|')[1..];
    assert Split(c[2..], '|') == ["b", "c"];
    assert Split(c[1..], '|') == ["", "b", "c"];
  }

  /** A stretch free of `[` that a `[` or the end closes is skipped whole. */
  lemma {:induction false} BracketRun(g: string, i: nat, j: nat)
    requires i <= j <= |g|
    requires '[' !in g[i..j]
    requires j == |g| || g[j] == '['
    ensures BracketOrEnd(g, i) == j
    decreases j - i
  {
    if i < j {
      assert g[i] == g[i..j][0];
      assert g[i + 1..j] == g[i..j][1..];
      BracketRun(g, i + 1, j);
    }
  }

  /** No `o` occurs before position `to`, so the search starts there. */
  lemma {:induction false} CaptureSkips(g: string, from: nat, to: nat)
    requires from <= to <= |g|
    requires 'o' !in g[from..to]
    ensures MatchFrom(g, from) == MatchFrom(g, to)
    decreases |g| - from
  {
    if from < to {
      assert g[from] == g[from..to][0];
      assert g[from + 1..to] == g[from..to][1..];
      CaptureSkips(g, from + 1, to);
    }
  }
}
