/** The CJK ideograph test of data/utils.py: a character is a hanzi/kanji when
    its code point lies in one of eight inclusive Unicode block ranges. */
module Hanzi {

  /** The eight (start, end) ranges, both ends inclusive, in the source's order. */
  const CjkUnifiedIdeographs: (int, int) := (0x4E00, 0x9FFF)
  const ExtensionA: (int, int) := (0x3400, 0x4DBF)
  const ExtensionB: (int, int) := (0x20000, 0x2A6DF)
  const ExtensionC: (int, int) := (0x2A700, 0x2B73F)
  const ExtensionD: (int, int) := (0x2B740, 0x2B81F)
  const ExtensionE: (int, int) := (0x2B820, 0x2CEAF)
  const ExtensionF: (int, int) := (0x2CEB0, 0x2EBEF)
  const CompatibilityIdeographs: (int, int) := (0xF900, 0xFAFF)

  const Ranges: seq<(int, int)> := [
    CjkUnifiedIdeographs, ExtensionA, ExtensionB, ExtensionC,
    ExtensionD, ExtensionE, ExtensionF, CompatibilityIdeographs
  ]

  /** `any(start <= cp <= end for start, end in rs)`, evaluated left to right. */
  function AnyContains(rs: seq<(int, int)>, cp: int): bool
  {
    if rs == [] then false
    else (rs[0].0 <= cp <= rs[0].1) || AnyContains(rs[1..], cp)
  }

  /** `is_hanzi(c)`; `ord` of a one-character string is the character's code point. */
  predicate IsHanzi(c: char) {
    AnyContains(Ranges, c as int)
  }

  /** The `any` fold holds exactly when some range contains the code point. */
  lemma {:induction false} AnyContainsIff(rs: seq<(int, int)>, cp: int)
    ensures AnyContains(rs, cp) <==> exists i :: 0 <= i < |rs| && rs[i].0 <= cp <= rs[i].1
  {
    if rs != [] {
      AnyContainsIff(rs[1..], cp);
      if !(rs[0].0 <= cp <= rs[0].1) && exists i :: 0 <= i < |rs| && rs[i].0 <= cp <= rs[i].1 {
        var i :| 0 <= i < |rs| && rs[i].0 <= cp <= rs[i].1;
        assert rs[1..][i - 1] == rs[i];
      }
    }
  }

  /** `is_hanzi` spelled out as the disjunction of the eight inclusive ranges. */
  lemma IsHanziIff(c: char)
    ensures IsHanzi(c) <==>
      || 0x4E00 <= c as int <= 0x9FFF
      || 0x3400 <= c as int <= 0x4DBF
      || 0x20000 <= c as int <= 0x2A6DF
      || 0x2A700 <= c as int <= 0x2B73F
      || 0x2B740 <= c as int <= 0x2B81F
      || 0x2B820 <= c as int <= 0x2CEAF
      || 0x2CEB0 <= c as int <= 0x2EBEF
      || 0xF900 <= c as int <= 0xFAFF
  {
    AnyContainsIff(Ranges, c as int);
    var cp := c as int;
    if IsHanzi(c) {
      var i :| 0 <= i < |Ranges| && Ranges[i].0 <= cp <= Ranges[i].1;
      assert i in {0, 1, 2, 3, 4, 5, 6, 7};
    } else {
      assert !(Ranges[0].0 <= cp <= Ranges[0].1);
      assert !(Ranges[1].0 <= cp <= Ranges[1].1);
      assert !(Ranges[2].0 <= cp <= Ranges[2].1);
      assert !(Ranges[3].0 <= cp <= Ranges[3].1);
      assert !(Ranges[4].0 <= cp <= Ranges[4].1);
      assert !(Ranges[5].0 <= cp <= Ranges[5].1);
      assert !(Ranges[6].0 <= cp <= Ranges[6].1);
      assert !(Ranges[7].0 <= cp <= Ranges[7].1);
    }
  }

  /** The doctest examples: 漢 (U+6F22) and 亜 (U+4E9C) are hanzi; ア (U+30A2),
      A, あ (U+3042), ㄨ (U+3128) and a are not. */
  lemma DoctestExamples()
    ensures IsHanzi('\U{6F22}') && IsHanzi('\U{4E9C}')
    ensures !IsHanzi('\U{30A2}') && !IsHanzi('A') && !IsHanzi('\U{3042}')
    ensures !IsHanzi('\U{3128}') && !IsHanzi('a')
  {
    IsHanziIff('\U{6F22}');
    IsHanziIff('\U{4E9C}');
    IsHanziIff('\U{30A2}');
    IsHanziIff('A');
    IsHanziIff('\U{3042}');
    IsHanziIff('\U{3128}');
    IsHanziIff('a');
  }

  /** Both ends of a range are included; the Yijing hexagram block U+4DC0..U+4DFF
      between Extension A and the main block is not covered. */
  lemma RangeEnds(c: char)
    ensures c as int == 0x4E00 || c as int == 0x9FFF || c as int == 0x3400 || c as int == 0x4DBF ==> IsHanzi(c)
    ensures 0x4DC0 <= c as int <= 0x4DFF ==> !IsHanzi(c)
  {
    IsHanziIff(c);
  }

  /** No listed range reaches past Extension F, so nothing above U+2EBEF is a hanzi. */
  lemma {:induction false} NothingAboveExtensionF(c: char)
    requires c as int > 0x2EBEF
    ensures !IsHanzi(c)
  {
    AnyContainsIff(Ranges, c as int);
    forall i | 0 <= i < |Ranges| ensures Ranges[i].1 <= 0x2EBEF {
      assert i in {0, 1, 2, 3, 4, 5, 6, 7};
    }
  }
}
