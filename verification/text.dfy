/** Strings as the source uses them: lower-casing, substring search and
    replacement of the first occurrence of a character. */
module Text {

  /** `String.prototype.toLowerCase`, restricted to ASCII letters. */
  function LowerChar(c: char): char {
    if 'A' <= c <= 'Z' then (c as int + 32) as char else c
  }

  function Lower(s: string): (r: string)
    ensures |r| == |s|
    ensures forall i :: 0 <= i < |s| ==> r[i] == LowerChar(s[i])
  {
    seq(|s|, i requires 0 <= i < |s| => LowerChar(s[i]))
  }

  lemma LowerIdempotent(s: string)
    ensures Lower(Lower(s)) == Lower(s)
  {
  }

  /** `needle` occurs in `hay` starting at position `i`. */
  ghost predicate OccursAt(hay: string, needle: string, i: int) {
    0 <= i && i + |needle| <= |hay| && hay[i..i + |needle|] == needle
  }

  /** The reference meaning of substring containment. */
  ghost predicate Contains(hay: string, needle: string) {
    exists i :: OccursAt(hay, needle, i)
  }

  lemma OccursAtTail(hay: string, needle: string, i: int)
    requires |hay| > 0 && 0 <= i
    ensures OccursAt(hay[1..], needle, i) <==> OccursAt(hay, needle, i + 1)
  {
    if 0 <= i && i + |needle| <= |hay| - 1 {
      assert hay[1..][i..i + |needle|] == hay[i + 1..i + 1 + |needle|];
    }
  }

  /** `String.prototype.includes`: a left-to-right search for `needle`. */
  function Includes(hay: string, needle: string): (b: bool)
    ensures b <==> Contains(hay, needle)
    decreases |hay|
  {
    if |needle| > |hay| then
      false
    else if hay[..|needle|] == needle then
      assert OccursAt(hay, needle, 0);
      true
    else
      var rest := Includes(hay[1..], needle);
      assert rest ==> Contains(hay, needle) by {
        if rest {
          var i :| OccursAt(hay[1..], needle, i);
          assert 0 <= i;
          OccursAtTail(hay, needle, i);
        }
      }
      assert Contains(hay, needle) ==> rest by {
        if Contains(hay, needle) {
          var i :| OccursAt(hay, needle, i);
          assert i != 0;
          OccursAtTail(hay, needle, i - 1);
        }
      }
      rest
  }

  /** Position of the first occurrence of `c` in `s`. */
  function FirstIndex(s: string, c: char): (i: nat)
    requires c in s
    ensures i < |s| && s[i] == c
    ensures c !in s[..i]
  {
    if s[0] == c then 0
    else
      var j := FirstIndex(s[1..], c);
      assert s[..j + 1] == [s[0]] + s[1..][..j];
      j + 1
  }

  /** `String.prototype.replace` with a one-character pattern: only the first
      occurrence of `from` is replaced by `to`. */
  function ReplaceFirst(s: string, from: char, to: char): (r: string)
    ensures |r| == |s|
    ensures from !in s ==> r == s
    ensures from in s ==>
      var i := FirstIndex(s, from);
      r == s[..i] + [to] + s[i + 1..]
  {
    if s == [] then []
    else if s[0] == from then [to] + s[1..]
    else
      var r := [s[0]] + ReplaceFirst(s[1..], from, to);
      assert from in s ==> from in s[1..];
      r
  }

  /** Splitting at the first occurrence: the prefix before it is untouched,
      and so is everything after it. */
  lemma {:induction false} ReplaceFirstSplit(prefix: string, suffix: string, from: char, to: char)
    requires from !in prefix
    ensures ReplaceFirst(prefix + [from] + suffix, from, to) == prefix + [to] + suffix
  {
    var s := prefix + [from] + suffix;
    if prefix == [] {
      assert s[0] == from && s[1..] == suffix;
    } else {
      assert s[0] == prefix[0] && s[0] != from;
      assert s[1..] == prefix[1..] + [from] + suffix;
      ReplaceFirstSplit(prefix[1..], suffix, from, to);
      assert ReplaceFirst(s, from, to) == [s[0]] + ReplaceFirst(s[1..], from, to);
      assert [prefix[0]] + (prefix[1..] + [to] + suffix) == prefix + [to] + suffix;
    }
  }
}
