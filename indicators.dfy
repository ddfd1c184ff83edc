/**
 * Two small display helpers: the colour of a power-supply chip, picked from
 * the supply's name, and how full the speed bar is.
 */
module Indicators {
  import opened Wrappers

  const Blue: string := "#3498db"
  const Orange: string := "#ff7a18"
  const Red: string := "#e74c3c"
  const Grey: string := "#8fa0c4"

  /** ASCII lower-casing of one character. */
  function LowerChar(c: char): char {
    if 'A' <= c <= 'Z' then (c as int + 32) as char else c
  }

  /** `toLowerCase`, restricted to ASCII letters. */
  function ToLower(s: string): (r: string)
    ensures |r| == |s|
    ensures forall k :: 0 <= k < |s| ==> r[k] == LowerChar(s[k])
    ensures forall k :: 0 <= k < |s| ==> !('A' <= r[k] <= 'Z')
  {
    seq(|s|, k requires 0 <= k < |s| => LowerChar(s[k]))
  }

  /** `includes`, scanning from the left. */
  predicate Contains(s: string, sub: string) {
    if |s| < |sub| then false
    else s[..|sub|] == sub || Contains(s[1..], sub)
  }

  /** `sub` occurs in `s` starting at index `i`. */
  predicate OccursAt(s: string, sub: string, i: int) {
    0 <= i && i + |sub| <= |s| && s[i..i + |sub|] == sub
  }

  /** The scan finds `sub` exactly when it occurs at some index. */
  lemma {:induction false} ContainsOccurs(s: string, sub: string)
    ensures Contains(s, sub) <==> exists i :: OccursAt(s, sub, i)
  {
    if |s| < |sub| {
      assert forall i :: !OccursAt(s, sub, i);
    } else if s[..|sub|] == sub {
      assert OccursAt(s, sub, 0);
    } else {
      ContainsOccurs(s[1..], sub);
      if Contains(s[1..], sub) {
        var i :| OccursAt(s[1..], sub, i);
        assert s[i + 1..i + 1 + |sub|] == s[1..][i..i + |sub|];
        assert OccursAt(s, sub, i + 1);
      }
      if exists i :: OccursAt(s, sub, i) {
        var i :| OccursAt(s, sub, i);
        assert i != 0;
        assert s[1..][i - 1..i - 1 + |sub|] == s[i..i + |sub|];
        assert OccursAt(s[1..], sub, i - 1);
      }
    }
  }

  /**
   * `getPowerColor`: the lower-cased supply name (empty when missing) is
   * matched in order, the first match winning: `25kv` blue, `3kv` orange,
   * `1.5kv` or `1,5kv` red, anything else grey.
   */
  function PowerColor(tipo: Option<string>): (color: string)
    ensures var v := ToLower(tipo.GetOr(""));
      && (color == Blue <==> Contains(v, "25kv"))
      && (color == Orange <==> !Contains(v, "25kv") && Contains(v, "3kv"))
      && (color == Red <==> !Contains(v, "25kv") && !Contains(v, "3kv")
                             && (Contains(v, "1.5kv") || Contains(v, "1,5kv")))
      && (color == Grey <==> !Contains(v, "25kv") && !Contains(v, "3kv")
                              && !Contains(v, "1.5kv") && !Contains(v, "1,5kv"))
  {
    var value := ToLower(tipo.GetOr(""));
    if Contains(value, "25kv") then Blue
    else if Contains(value, "3kv") then Orange
    else if Contains(value, "1.5kv") || Contains(value, "1,5kv") then Red
    else Grey
  }

  /** A missing supply name is grey. */
  lemma PowerColorMissing()
    ensures PowerColor(None) == Grey
  {
  }

  /**
   * The supply names of the seed timeline: `25kV AC` is blue, `3kV DC`
   * orange and `1.5kV DC` red.
   */
  lemma PowerColorSeeds()
    ensures PowerColor(Some("25kV AC")) == Blue
    ensures PowerColor(Some("3kV DC")) == Orange
    ensures PowerColor(Some("1.5kV DC")) == Red
  {
    var ac, dc3, dc15 := ToLower("25kV AC"), ToLower("3kV DC"), ToLower("1.5kV DC");
    assert ac[..4] == "25kv";
    assert dc3[..3] == "3kv";
    NotContained(dc3, "25kv");
    assert dc15[..5] == "1.5kv";
    NotContained(dc15, "25kv");
    NotContained(dc15, "3kv");
  }

  /** A text without the first character of `sub` does not contain `sub`. */
  lemma {:induction false} NotContained(s: string, sub: string)
    requires |sub| > 0 && sub[0] !in s
    ensures !Contains(s, sub)
  {
    if |s| >= |sub| {
      assert s[..|sub|][0] == s[0];
      assert sub[0] !in s[1..] by {
        forall c | c in s[1..] ensures c in s { }
      }
      NotContained(s[1..], sub);
    }
  }

  /** The speed bar's fill in percent: `min(velocita / 350 * 100, 100)`. */
  function SpeedProgress(velocita: real): (p: real)
    ensures p <= 100.0
    ensures p == 100.0 <==> velocita >= 350.0
    ensures velocita >= 0.0 ==> p >= 0.0
    ensures velocita < 350.0 ==> p * 350.0 == velocita * 100.0
  {
    var share := velocita / 350.0 * 100.0;
    if share <= 100.0 then share else 100.0
  }

  /** A faster train never shows a shorter bar. */
  lemma SpeedProgressMonotone(v1: real, v2: real)
    requires v1 <= v2
    ensures SpeedProgress(v1) <= SpeedProgress(v2)
  {
  }
}
