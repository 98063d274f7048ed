/**
 * Text handling used by track classification: `remove_non_ascii`
 * and Python's substring test `n in t` (mused/Midi.py).
 *
 * Letters are the ASCII letters; `str.lower` lowers ASCII capitals only.
 */
module Text {
  import opened Sequences

  predicate IsUpper(c: char) { 'A' <= c <= 'Z' }
  predicate IsLower(c: char) { 'a' <= c <= 'z' }

  /** `str.isalpha` on the ASCII range. */
  predicate IsAlpha(c: char) { IsUpper(c) || IsLower(c) }

  /** A character that `remove_non_ascii` keeps. */
  predicate IsKept(c: char) { IsAlpha(c) || c == ' ' }

  function LowerChar(c: char): char
  {
    if IsUpper(c) then (c as int + 32) as char else c
  }

  /** `str.lower`: same length, each capital replaced by its small letter, so no capital remains. */
  function Lower(s: string): (r: string)
    ensures |r| == |s|
    ensures forall i :: 0 <= i < |s| ==> r[i] == LowerChar(s[i])
    ensures forall i :: 0 <= i < |r| ==> !IsUpper(r[i])
  {
    seq(|s|, i requires 0 <= i < |s| => LowerChar(s[i]))
  }

  /** The generator comprehension `i for i in s if i.isalpha() or i == " "`. */
  function KeepLettersAndSpaces(s: string): (r: string)
    ensures forall i :: 0 <= i < |r| ==> IsKept(r[i])
  {
    if s == [] then []
    else (if IsKept(s[0]) then [s[0]] else []) + KeepLettersAndSpaces(s[1..])
  }

  /** `remove_non_ascii(text)`: lower-case, then keep letters and spaces. */
  function RemoveNonAscii(text: string): (r: string)
    ensures forall i :: 0 <= i < |r| ==> IsLower(r[i]) || r[i] == ' '
  {
    var lowered := Lower(text);
    KeepFilterNoUpper(lowered);
    KeepLettersAndSpaces(lowered)
  }

  lemma {:induction false} KeepFilterNoUpper(s: string)
    requires forall i :: 0 <= i < |s| ==> !IsUpper(s[i])
    ensures forall i :: 0 <= i < |KeepLettersAndSpaces(s)| ==> !IsUpper(KeepLettersAndSpaces(s)[i])
  {
    if s != [] {
      KeepFilterNoUpper(s[1..]);
    }
  }

  /** The filter keeps its survivors in their original order. */
  lemma {:induction false} KeepFilterIsSubsequence(s: string)
    ensures IsSubsequence(KeepLettersAndSpaces(s), s)
  {
    if s != [] {
      KeepFilterIsSubsequence(s[1..]);
      var rest := KeepLettersAndSpaces(s[1..]);
      if IsKept(s[0]) {
        assert KeepLettersAndSpaces(s) == [s[0]] + rest;
        assert ([s[0]] + rest)[1..] == rest;
      } else {
        assert KeepLettersAndSpaces(s) == rest;
        if rest != [] {
          assert IsSubsequence(rest, s[1..]);
        }
      }
    }
  }

  /** Every letter and space of the input survives, as often as it occurs; nothing else does. */
  lemma {:induction false} KeepFilterCounts(s: string, c: char)
    ensures multiset(KeepLettersAndSpaces(s))[c] == if IsKept(c) then multiset(s)[c] else 0
  {
    if s != [] {
      KeepFilterCounts(s[1..], c);
      assert s == [s[0]] + s[1..];
      assert multiset(s) == multiset([s[0]]) + multiset(s[1..]);
    }
  }

  /** A string made only of kept characters passes the filter unchanged. */
  lemma {:induction false} KeepFilterFixes(s: string)
    requires forall i :: 0 <= i < |s| ==> IsKept(s[i])
    ensures KeepLettersAndSpaces(s) == s
  {
    if s != [] {
      KeepFilterFixes(s[1..]);
      assert [s[0]] + s[1..] == s;
    }
  }

  /** The result is a subsequence of the lower-cased input. */
  lemma RemoveNonAsciiIsSubsequence(text: string)
    ensures IsSubsequence(RemoveNonAscii(text), Lower(text))
  {
    KeepFilterIsSubsequence(Lower(text));
  }

  /** Each letter and space of the lower-cased input is kept, as often as it occurs, and nothing else. */
  lemma RemoveNonAsciiCounts(text: string, c: char)
    ensures multiset(RemoveNonAscii(text))[c] == if IsKept(c) then multiset(Lower(text))[c] else 0
  {
    KeepFilterCounts(Lower(text), c);
  }

  /** Applying `remove_non_ascii` twice gives the same as applying it once. */
  lemma RemoveNonAsciiIdempotent(text: string)
    ensures RemoveNonAscii(RemoveNonAscii(text)) == RemoveNonAscii(text)
  {
    var r := RemoveNonAscii(text);
    assert Lower(r) == r;
    KeepFilterFixes(r);
  }

  /** `pat` occurs in `text` starting at index `i`. */
  predicate OccursAt(text: string, pat: string, i: int)
  {
    0 <= i && i + |pat| <= |text| && text[i..i + |pat|] == pat
  }

  /** Python's `pat in text` for strings: a left-to-right search for `pat`. */
  function Contains(text: string, pat: string): bool
  {
    pat <= text || (text != [] && Contains(text[1..], pat))
  }

  /** The search answers yes exactly when `pat` occurs somewhere in `text`. */
  lemma {:induction false} ContainsIff(text: string, pat: string)
    ensures Contains(text, pat) <==> exists i :: OccursAt(text, pat, i)
  {
    if text == [] {
      if Contains(text, pat) {
        assert OccursAt(text, pat, 0);
      }
    } else {
      ContainsIff(text[1..], pat);
      if Contains(text, pat) {
        if pat <= text {
          assert OccursAt(text, pat, 0);
        } else {
          var i :| OccursAt(text[1..], pat, i);
          assert text[1..][i..i + |pat|] == text[i + 1..i + 1 + |pat|];
          assert OccursAt(text, pat, i + 1);
        }
      }
      if exists i :: OccursAt(text, pat, i) {
        var i :| OccursAt(text, pat, i);
        if i == 0 {
          assert pat <= text;
        } else {
          assert text[1..][i - 1..i - 1 + |pat|] == text[i..i + |pat|];
          assert OccursAt(text[1..], pat, i - 1);
        }
      }
    }
  }

  /** The loop `for n in names: if n in t: return True`, falling through to false. */
  function AnyContained(text: string, names: seq<string>): bool
  {
    if names == [] then false
    else Contains(text, names[0]) || AnyContained(text, names[1..])
  }

  /** The loop answers yes exactly when one of the names occurs in `text`. */
  lemma {:induction false} AnyContainedIff(text: string, names: seq<string>)
    ensures AnyContained(text, names) <==> exists k :: 0 <= k < |names| && Contains(text, names[k])
  {
    if names != [] {
      AnyContainedIff(text, names[1..]);
      if Contains(text, names[0]) {
        assert Contains(text, names[0]);
      } else if AnyContained(text, names[1..]) {
        var k :| 0 <= k < |names| - 1 && Contains(text, names[1..][k]);
        assert Contains(text, names[k + 1]);
      }
    }
  }

  /** The loop answers yes exactly when one of the names occurs at some index of `text`. */
  lemma AnyContainedOccurs(text: string, names: seq<string>)
    ensures AnyContained(text, names) <==> exists k, i :: 0 <= k < |names| && OccursAt(text, names[k], i)
  {
    AnyContainedIff(text, names);
    forall k | 0 <= k < |names|
      ensures Contains(text, names[k]) <==> exists i :: OccursAt(text, names[k], i)
    {
      ContainsIff(text, names[k]);
    }
  }
}
