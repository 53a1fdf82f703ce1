/** The Japanese-to-Chinese equivalence resolver of data/main2.py: a
    per-character mapping table (`j2ch`) with identity fallback, the single
    candidate it produces for a word, the filter against the index being built,
    and the literal exception table that overrides both. */
module Equivalence {

  /** `j2ch_get(j)`: the mapped value when `j` is a key of the table, else `j` itself. */
  function J2chGet(j2ch: map<string, string>, j: string): (r: string)
    ensures j in j2ch ==> r == j2ch[j]
    ensures j !in j2ch ==> r == j
  {
    if j in j2ch then j2ch[j] else j
  }

  /** `"".join(j2ch_get(char) for char in key)`: each character looked up on its own. */
  function MapChars(j2ch: map<string, string>, key: string): string
  {
    if key == [] then "" else J2chGet(j2ch, [key[0]]) + MapChars(j2ch, key[1..])
  }

  /** `generate_combinations2(key)`: always exactly one candidate. */
  function GenerateCombinations2(j2ch: map<string, string>, key: string): (r: seq<string>)
    ensures |r| == 1
  {
    [MapChars(j2ch, key)]
  }

  /** The candidate is built character by character: the empty key gives
      the empty word, one character gives its own lookup, and the candidate
      of a concatenation is the concatenation of the candidates. These fix
      the candidate of every key. */
  lemma {:induction false} CandidateIsJoinedLookups(j2ch: map<string, string>, a: string, b: string, c: char)
    ensures GenerateCombinations2(j2ch, "")[0] == ""
    ensures GenerateCombinations2(j2ch, [c])[0] == J2chGet(j2ch, [c])
    ensures GenerateCombinations2(j2ch, a + b)[0] == GenerateCombinations2(j2ch, a)[0] + GenerateCombinations2(j2ch, b)[0]
  {
    assert [c][1..] == "";
    MapCharsAppend(j2ch, a, b);
  }

  lemma {:induction false} MapCharsAppend(j2ch: map<string, string>, a: string, b: string)
    ensures MapChars(j2ch, a + b) == MapChars(j2ch, a) + MapChars(j2ch, b)
  {
    if a == [] {
      assert a + b == b;
    } else {
      assert (a + b)[0] == a[0] && (a + b)[1..] == a[1..] + b;
      MapCharsAppend(j2ch, a[1..], b);
    }
  }

  /** `filter_entries(combinations, index)`: the candidates that are keys of the index. */
  function FilterEntries(combinations: seq<string>, index: set<string>): seq<string>
  {
    if combinations == [] then []
    else if combinations[0] in index then [combinations[0]] + FilterEntries(combinations[1..], index)
    else FilterEntries(combinations[1..], index)
  }

  /** `get_j2ch_word(key, index)`: an exception wins outright; otherwise the
      single candidate survives only if it is already indexed. */
  function GetJ2chWord(exceptions: map<string, string>, j2ch: map<string, string>,
                       key: string, index: set<string>): (r: seq<string>)
    ensures key in exceptions ==> r == [exceptions[key]]
    ensures key !in exceptions ==> |r| <= 1 && forall w :: w in r ==> w in index
  {
    if key in exceptions then [exceptions[key]]
    else
      FilterKeepsIndexed(GenerateCombinations2(j2ch, key), index);
      FilterEntries(GenerateCombinations2(j2ch, key), index)
  }

  /** Every surviving candidate is indexed, nothing is added, and a candidate
      survives exactly when it is indexed. */
  lemma {:induction false} FilterKeepsIndexed(combinations: seq<string>, index: set<string>)
    ensures |FilterEntries(combinations, index)| <= |combinations|
    ensures forall w :: w in FilterEntries(combinations, index) <==> w in combinations && w in index
  {
    if combinations != [] {
      FilterKeepsIndexed(combinations[1..], index);
      assert combinations == [combinations[0]] + combinations[1..];
    }
  }

  /** `sub` can be obtained from `s` by deleting elements, keeping the order. */
  ghost predicate IsSubsequence(sub: seq<string>, s: seq<string>)
  {
    if s == [] then sub == []
    else (sub != [] && sub[0] == s[0] && IsSubsequence(sub[1..], s[1..])) || IsSubsequence(sub, s[1..])
  }

  /** The filter keeps the input order: its result is the subsequence of indexed
      candidates, which is what `[c for c in combinations if c in index]` means;
      filtering twice changes nothing. */
  lemma {:induction false} FilterIsOrderedSubsequence(combinations: seq<string>, index: set<string>)
    ensures IsSubsequence(FilterEntries(combinations, index), combinations)
    ensures FilterEntries(FilterEntries(combinations, index), index) == FilterEntries(combinations, index)
  {
    if combinations != [] {
      FilterIsOrderedSubsequence(combinations[1..], index);
      var rest := FilterEntries(combinations[1..], index);
      if combinations[0] in index {
        assert ([combinations[0]] + rest)[1..] == rest;
      }
    }
  }

  /** When the table maps single characters to single characters, the candidate
      has the key's length and its i-th character is the i-th character of the
      key looked up on its own. */
  lemma {:induction false} CandidateIsCharwise(j2ch: map<string, string>, key: string)
    requires forall j :: j in j2ch ==> |j2ch[j]| == 1
    ensures |GenerateCombinations2(j2ch, key)[0]| == |key|
    ensures forall i :: 0 <= i < |key| ==> GenerateCombinations2(j2ch, key)[0][i] == J2chGet(j2ch, [key[i]])[0]
  {
    if key != [] {
      CandidateIsCharwise(j2ch, key[1..]);
      var head := J2chGet(j2ch, [key[0]]);
      assert |head| == 1;
      forall i | 0 <= i < |key|
        ensures MapChars(j2ch, key)[i] == J2chGet(j2ch, [key[i]])[0]
      {
        if i > 0 {
          assert MapChars(j2ch, key)[i] == MapChars(j2ch, key[1..])[i - 1];
          assert key[1..][i - 1] == key[i];
        }
      }
    }
  }

  /** A key none of whose characters is in the table is its own candidate. */
  lemma {:induction false} UnmappedKeyIsItsOwnCandidate(j2ch: map<string, string>, key: string)
    requires forall i :: 0 <= i < |key| ==> [key[i]] !in j2ch
    ensures GenerateCombinations2(j2ch, key) == [key]
  {
    if key != [] {
      UnmappedKeyIsItsOwnCandidate(j2ch, key[1..]);
      assert [key[0]] + key[1..] == key;
    }
  }

  /** Without an exception, the result is the candidate when it is indexed and empty otherwise. */
  lemma ResolvedIffIndexed(exceptions: map<string, string>, j2ch: map<string, string>,
                           key: string, index: set<string>)
    requires key !in exceptions
    ensures GetJ2chWord(exceptions, j2ch, key, index) ==
      if MapChars(j2ch, key) in index then [MapChars(j2ch, key)] else []
  {
    assert FilterEntries([MapChars(j2ch, key)], index) ==
      if MapChars(j2ch, key) in index then [MapChars(j2ch, key)] + FilterEntries([], index) else FilterEntries([], index);
  }
}
