/** The key that is mixed into the signature: 32 of the first 64 characters, shuffled. */
module MixinKey {
  const ROW0: seq<nat> := [46, 47, 18, 2, 53, 8, 23, 32, 15, 50, 10, 31, 58, 3, 45, 35]
  const ROW1: seq<nat> := [27, 43, 5, 49, 33, 9, 42, 19, 29, 28, 14, 39, 12, 38, 41, 13]
  const ROW2: seq<nat> := [37, 48, 7, 16, 24, 55, 40, 61, 26, 17, 0, 1, 60, 51, 30, 4]
  const ROW3: seq<nat> := [22, 25, 54, 21, 56, 59, 6, 63, 57, 62, 11, 36, 20, 34, 44, 52]
  const TABLE: seq<nat> := ROW0 + ROW1 + ROW2 + ROW3

  predicate InRange(s: seq<nat>) {
    forall i :: 0 <= i < |s| ==> s[i] < 64
  }

  lemma TableInRange()
    ensures |TABLE| == 64 && InRange(TABLE)
  {
    assert InRange(ROW0) && InRange(ROW1) && InRange(ROW2) && InRange(ROW3);
  }

  method CalcMixinKey(imgKey: string, subKey: string) returns (mixin: string)
    ensures |imgKey + subKey| < 64 ==> mixin == ""
    ensures |imgKey + subKey| >= 64 ==> |mixin| == 32
    ensures |imgKey + subKey| >= 64 ==>
      forall i :: 0 <= i < 32 ==> TABLE[i] < 64 && mixin[i] == (imgKey + subKey)[TABLE[i]]
  {
    var raw := imgKey + subKey;
    if |raw| < 64 {
      return "";
    }
    TableInRange();
    mixin := "";
    for i := 0 to |TABLE|
      invariant |mixin| == i && forall j :: 0 <= j < i ==> mixin[j] == raw[TABLE[j]]
    {
      if TABLE[i] < |raw| {
        mixin := mixin + [raw[TABLE[i]]];
      }
    }
    if |mixin| > 32 {
      mixin := mixin[..32];
    }
  }

  const IMG := "7cd084941338484aae1ad9425b84077c"
  const SUB := "4932caff0ff746eab6f01bf08b70ac45"
  const MIXIN := "ea1db124af3c7062474693fa704f4ff8"

  lemma FirstHalf(i: nat)
    requires i < 16
    ensures ROW0[i] < 64 && (IMG + SUB)[ROW0[i]] == MIXIN[i]
  {
    if i < 4 {} else if i < 8 {} else if i < 12 {} else {}
  }

  lemma SecondHalf(i: nat)
    requires i < 16
    ensures ROW1[i] < 64 && (IMG + SUB)[ROW1[i]] == MIXIN[16 + i]
  {
    if i < 4 {} else if i < 8 {} else if i < 12 {} else {}
  }

  /** The table picks the mixin key that a known pair of keys must give. */
  lemma KnownKey(i: nat)
    requires i < 32
    ensures |IMG + SUB| == 64 && TABLE[i] < 64 && (IMG + SUB)[TABLE[i]] == MIXIN[i]
  {
    if i < 16 {
      FirstHalf(i);
      assert TABLE[i] == ROW0[i];
    } else {
      SecondHalf(i - 16);
      assert TABLE[i] == ROW1[i - 16];
    }
  }
}
