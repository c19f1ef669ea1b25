/** String primitives the analysis relies on: `toLowerCase`, `includes` and `join`. */
module Text {

  /** Lowercasing of one character; only the ASCII capitals change. */
  function LowerChar(c: char): (r: char)
    ensures !('A' <= r <= 'Z')
    ensures !('A' <= c <= 'Z') ==> r == c
    ensures 'A' <= c <= 'Z' ==> 'a' <= r <= 'z' && r as int == c as int + 32
  {
    if 'A' <= c <= 'Z' then (c as int + 32) as char else c
  }

  /** `s.toLowerCase()`, character by character. */
  function Lower(s: string): (r: string)
    ensures |r| == |s|
    ensures forall i :: 0 <= i < |r| ==> !('A' <= r[i] <= 'Z')
    ensures forall i :: 0 <= i < |s| ==>
      if 'A' <= s[i] <= 'Z' then r[i] as int == s[i] as int + 32 else r[i] == s[i]
  {
    seq(|s|, i requires 0 <= i < |s| => LowerChar(s[i]))
  }

  /** Lowering twice is lowering once. */
  lemma LowerIdempotent(s: string)
    ensures Lower(Lower(s)) == Lower(s)
  {
    assert forall i :: 0 <= i < |s| ==> Lower(Lower(s))[i] == Lower(s)[i];
  }

  /** Lowering commutes with taking a slice. */
  lemma LowerSlice(s: string, i: nat, j: nat)
    requires i <= j <= |s|
    ensures Lower(s)[i..j] == Lower(s[i..j])
  {
  }

  /** `pat` occurs in `text` starting at position `i`. */
  predicate OccursAt(text: string, pat: string, i: nat)
  {
    i + |pat| <= |text| && text[i..i + |pat|] == pat
  }

  /** `text.includes(pat)`: `pat` occurs in `text` as a contiguous block. */
  predicate Contains(text: string, pat: string)
  {
    exists i: nat :: i <= |text| && OccursAt(text, pat, i)
  }

  /** A block found inside a slice of `text` is found in `text`. */
  lemma ContainsWithin(text: string, off: nat, part: string, pat: string)
    requires off + |part| <= |text| && text[off..off + |part|] == part
    requires Contains(part, pat)
    ensures Contains(text, pat)
  {
    var i: nat :| i <= |part| && OccursAt(part, pat, i);
    forall j | 0 <= j < |pat|
      ensures text[off + i..off + i + |pat|][j] == pat[j]
    {
      assert text[off..off + |part|][i + j] == part[i + j];
    }
    assert OccursAt(text, pat, off + i);
  }

  /** Case-insensitive containment follows from exact containment. */
  lemma ContainsLower(text: string, pat: string)
    requires Contains(text, pat)
    ensures Contains(Lower(text), Lower(pat))
  {
    var i: nat :| i <= |text| && OccursAt(text, pat, i);
    LowerSlice(text, i, i + |pat|);
    assert OccursAt(Lower(text), Lower(pat), i);
  }

  /** `parts.join(sep)`. */
  function Join(sep: string, parts: seq<string>): string
    decreases |parts|
  {
    if |parts| == 0 then ""
    else if |parts| == 1 then parts[0]
    else parts[0] + sep + Join(sep, parts[1..])
  }

  /** Where `parts[k]` starts inside `Join(sep, parts)`: every earlier part and one separator after each. */
  function Offset(sep: string, parts: seq<string>, k: nat): nat
    requires k <= |parts|
    decreases k
  {
    if k == 0 then 0 else |parts[0]| + |sep| + Offset(sep, parts[1..], k - 1)
  }

  /** The length of a join: every part, and one separator between each two. */
  lemma {:induction false} JoinLength(sep: string, parts: seq<string>)
    requires |parts| > 0
    ensures |Join(sep, parts)| == Offset(sep, parts, |parts| - 1) + |parts[|parts| - 1]|
    decreases |parts|
  {
    if |parts| > 1 {
      JoinLength(sep, parts[1..]);
    }
  }

  /** A block found in `a` is still found, at the same place, once `b` is appended. */
  lemma OccursInPrefix(a: string, b: string, pat: string, i: nat)
    requires OccursAt(a, pat, i)
    ensures OccursAt(a + b, pat, i)
  {
    assert (a + b)[i..i + |pat|] == a[i..i + |pat|];
  }

  /** A block found in `b` is found in `a + b`, shifted by `|a|`. */
  lemma OccursInSuffix(a: string, b: string, pat: string, i: nat)
    requires OccursAt(b, pat, i)
    ensures OccursAt(a + b, pat, |a| + i)
  {
    assert (a + b)[|a| + i..|a| + i + |pat|] == b[i..i + |pat|];
  }

  /** Part `k` stands at its offset, followed by the separator unless it is the last part. */
  lemma {:induction false} JoinPartAt(sep: string, parts: seq<string>, k: nat)
    requires k < |parts|
    ensures OccursAt(Join(sep, parts), parts[k], Offset(sep, parts, k))
    ensures k + 1 < |parts| ==> OccursAt(Join(sep, parts), sep, Offset(sep, parts, k) + |parts[k]|)
    decreases k
  {
    if |parts| == 1 {
      assert Join(sep, parts)[0..|parts[0]|] == parts[0];
    } else {
      var head := parts[0] + sep;
      var rest := Join(sep, parts[1..]);
      assert Join(sep, parts) == head + rest;
      if k == 0 {
        assert head[0..|parts[0]|] == parts[0];
        assert head[|parts[0]|..|parts[0]| + |sep|] == sep;
        OccursInPrefix(head, rest, parts[0], 0);
        OccursInPrefix(head, rest, sep, |parts[0]|);
      } else {
        JoinPartAt(sep, parts[1..], k - 1);
        var o := Offset(sep, parts[1..], k - 1);
        assert Offset(sep, parts, k) == |head| + o;
        assert parts[1..][k - 1] == parts[k];
        OccursInSuffix(head, rest, parts[k], o);
        if k + 1 < |parts| {
          OccursInSuffix(head, rest, sep, o + |parts[k]|);
        }
      }
    }
  }

  /** Every part of a join occurs in it. */
  lemma JoinContainsPart(sep: string, parts: seq<string>, k: nat, pat: string)
    requires k < |parts| && Contains(parts[k], pat)
    ensures Contains(Join(sep, parts), pat)
  {
    JoinPartAt(sep, parts, k);
    assert OccursAt(Join(sep, parts), parts[k], Offset(sep, parts, k));
    ContainsWithin(Join(sep, parts), Offset(sep, parts, k), parts[k], pat);
  }
}
