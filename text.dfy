/** The JavaScript string operations the components rely on: `trim`,
    `toLowerCase` / `toUpperCase`, `startsWith`, `includes`, and the avatar
    fallback `getInitials` that three components define identically. */
module Text {
  import opened Common

  /** The characters `String.prototype.trim` removes: the WhiteSpace and
      LineTerminator code points of ECMA-262 (section 12.2 and 12.3). */
  predicate IsSpace(c: char) {
    c == '\t' || c == '\n' || c == '\U{B}' || c == '\U{C}' || c == '\r' || c == ' '
    || c == '\U{A0}' || c == '\U{1680}' || ('\U{2000}' <= c <= '\U{200A}')
    || c == '\U{2028}' || c == '\U{2029}' || c == '\U{202F}' || c == '\U{205F}'
    || c == '\U{3000}' || c == '\U{FEFF}'
  }

  /** `s` without its longest prefix of characters that satisfy `p`. */
  function DropLeading(s: string, p: char -> bool): (r: string)
    ensures |r| <= |s| && r == s[|s| - |r|..]
    ensures forall i :: 0 <= i < |s| - |r| ==> p(s[i])
    ensures r != [] ==> !p(r[0])
  {
    if s != [] && p(s[0]) then DropLeading(s[1..], p) else s
  }

  /** `s` without its longest suffix of characters that satisfy `p`. */
  function DropTrailing(s: string, p: char -> bool): (r: string)
    ensures |r| <= |s| && r == s[..|r|]
    ensures forall i :: |r| <= i < |s| ==> p(s[i])
    ensures r != [] ==> !p(r[|r| - 1])
  {
    if s != [] && p(s[|s| - 1]) then DropTrailing(s[..|s| - 1], p) else s
  }

  /** What survives dropping both runs occurs in `s` right after the leading
      run, and only characters satisfying `p` follow it. */
  lemma DropBothIsSlice(s: string, p: char -> bool)
    ensures var t := DropLeading(s, p);
            var u := DropTrailing(t, p);
            OccursAt(s, u, |s| - |t|) && forall i :: |s| - |t| + |u| <= i < |s| ==> p(s[i])
  {
    var t := DropLeading(s, p);
    SliceOfSuffix(s, t, DropTrailing(t, p), p);
  }

  /** A prefix `u` of a suffix `t` of `s` occurs in `s` where `t` starts, and
      if only characters satisfying `p` follow `u` in `t`, the same holds in `s`. */
  lemma SliceOfSuffix(s: string, t: string, u: string, p: char -> bool)
    requires |t| <= |s| && t == s[|s| - |t|..]
    requires |u| <= |t| && u == t[..|u|]
    requires forall i :: |u| <= i < |t| ==> p(t[i])
    ensures OccursAt(s, u, |s| - |t|)
    ensures forall i :: |s| - |t| + |u| <= i < |s| ==> p(s[i])
  {
    var lo := |s| - |t|;
    assert s[lo..lo + |u|] == t[..|u|];
    forall i | lo + |u| <= i < |s| ensures p(s[i]) {
      assert s[i] == t[i - lo];
    }
  }

  /** Nothing survives exactly when every character satisfies `p`. */
  lemma DropBothEmpty(s: string, p: char -> bool)
    ensures DropTrailing(DropLeading(s, p), p) == [] <==> forall i :: 0 <= i < |s| ==> p(s[i])
  {
    var t := DropLeading(s, p);
    if t != [] {
      assert !p(s[|s| - |t|]);
    }
  }

  /** `s.trimStart()`. */
  function TrimStart(s: string): string {
    DropLeading(s, IsSpace)
  }

  /** JavaScript's `s.trim()`. */
  function Trim(s: string): (r: string)
    ensures r != [] ==> !IsSpace(r[0]) && !IsSpace(r[|r| - 1])
  {
    var t := DropLeading(s, IsSpace);
    var r := DropTrailing(t, IsSpace);
    assert r != [] ==> r[0] == t[0];
    r
  }

  /** `trim` yields the empty string exactly when every character is white space. */
  lemma TrimEmptyIffAllSpace(s: string)
    ensures Trim(s) == [] <==> forall i :: 0 <= i < |s| ==> IsSpace(s[i])
  {
    DropBothEmpty(s, IsSpace);
  }

  /** What `trim` keeps occurs in `s` right after the white space
      `trimStart` removes, and only white space follows it. */
  lemma TrimIsSlice(s: string)
    ensures OccursAt(s, Trim(s), |s| - |TrimStart(s)|)
    ensures forall i :: |s| - |TrimStart(s)| + |Trim(s)| <= i < |s| ==> IsSpace(s[i])
  {
    DropBothIsSlice(s, IsSpace);
  }

  /** Trimming twice is trimming once. */
  lemma TrimIdempotent(s: string)
    ensures Trim(Trim(s)) == Trim(s)
  {
    var r := Trim(s);
    if r != [] {
      assert DropLeading(r, IsSpace) == r;
      assert DropTrailing(r, IsSpace) == r;
    }
  }

  /** ASCII part of `toLowerCase` for one character. */
  function LowerChar(c: char): char {
    if 'A' <= c <= 'Z' then (c as int + 32) as char else c
  }

  /** ASCII part of `toUpperCase` for one character. */
  function UpperChar(c: char): char {
    if 'a' <= c <= 'z' then (c as int - 32) as char else c
  }

  /** `s.toLowerCase()`, restricted to ASCII letters. */
  function Lower(s: string): (r: string)
    ensures |r| == |s|
    ensures forall i :: 0 <= i < |s| ==> r[i] == LowerChar(s[i])
  {
    seq(|s|, i requires 0 <= i < |s| => LowerChar(s[i]))
  }

  /** Lower-casing is idempotent, and lower-casing an upper-cased string
      gives the same as lower-casing the original. */
  lemma LowerNormalises(s: string)
    ensures Lower(Lower(s)) == Lower(s)
    ensures |Upper(s)| == |s| && Lower(Upper(s)) == Lower(s)
  {
  }

  /** `s.toUpperCase()`, restricted to ASCII letters. */
  function Upper(s: string): (r: string)
    ensures |r| == |s|
    ensures forall i :: 0 <= i < |s| ==> r[i] == UpperChar(s[i])
  {
    seq(|s|, i requires 0 <= i < |s| => UpperChar(s[i]))
  }

  /** `s.startsWith(prefix)`. */
  predicate StartsWith(s: string, prefix: string) {
    |prefix| <= |s| && s[..|prefix|] == prefix
  }

  /** `hay.includes(needle)`: `needle` occurs at some position of `hay`. */
  predicate Contains(hay: string, needle: string)
    decreases |hay|
  {
    StartsWith(hay, needle) || (hay != [] && Contains(hay[1..], needle))
  }

  /** `needle` is the slice of `hay` that starts at offset `k`. */
  predicate OccursAt(hay: string, needle: string, k: nat) {
    k + |needle| <= |hay| && hay[k..k + |needle|] == needle
  }

  /** `Contains` holds exactly when `needle` occurs at some offset of `hay`. */
  lemma {:induction false} ContainsAt(hay: string, needle: string)
    ensures Contains(hay, needle) <==> exists k: nat :: OccursAt(hay, needle, k)
  {
    if StartsWith(hay, needle) {
      assert OccursAt(hay, needle, 0);
    } else if hay != [] {
      ContainsAt(hay[1..], needle);
      if exists k: nat :: OccursAt(hay, needle, k) {
        var k: nat :| OccursAt(hay, needle, k);
        assert k != 0;
        assert OccursAt(hay[1..], needle, k - 1);
      }
      if Contains(hay[1..], needle) {
        var k: nat :| OccursAt(hay[1..], needle, k);
        assert OccursAt(hay, needle, k + 1);
      }
    } else {
      assert forall k: nat :: !OccursAt(hay, needle, k);
    }
  }

  /** `name?.charAt(0).toUpperCase() || "U"`: the avatar fallback, one
      character long, the upper-cased first character of the name when
      there is one and `U` otherwise. */
  function GetInitials(name: Option<string>): (r: string)
    ensures |r| == 1 && !('a' <= r[0] <= 'z')
    ensures name.Some? && name.value != [] ==> LowerChar(r[0]) == LowerChar(name.value[0])
    ensures name == None || name == Some([]) ==> r == "U"
  {
    if name.Some? && name.value != [] then [UpperChar(name.value[0])] else "U"
  }
}
