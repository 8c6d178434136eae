/** The two shapes of regular expression the converter tests proxy names with,
    both written with the `i` flag and without the `u`, `m`, `s` and `g` flags:

    - a region pattern `/(alt1|alt2|...)/i`, which holds when some alternative
      occurs somewhere in the name;
    - the noise filter `/^(?!.*(kw1|kw2|...)).*$/i`, which holds when the whole
      name is one line and no keyword occurs in it.

    Every alternative and keyword in the catalog is a literal (no metacharacter),
    so each regex is determined by its list of literals. */
module Patterns {

  datatype Regex =
    | AnyOf(alternatives: seq<string>)
    | NoneOf(keywords: seq<string>)

  /** Case folding of a non-unicode `i` regex: a character is compared through
      its upper-case form, and a non-ASCII character never folds onto an ASCII
      one. All letters in the catalog are ASCII, so folding ASCII letters is all
      that can make a difference. */
  function Canonicalize(c: char): char
  {
    if 'a' <= c <= 'z' then (c as int - 32) as char else c
  }

  function Fold(s: string): (r: string)
  {
    seq(|s|, i requires 0 <= i < |s| => Canonicalize(s[i]))
  }

  /** The characters that `.` does not match and that end the input for `$`
      when the `m` flag is absent. */
  predicate IsLineTerminator(c: char)
  {
    c == '\n' || c == '\r' || c == '\U{2028}' || c == '\U{2029}'
  }

  predicate HasLineTerminator(s: string)
  {
    exists i :: 0 <= i < |s| && IsLineTerminator(s[i])
  }

  /** `needle` appears in `hay` starting at position `i`. */
  ghost predicate OccursAt(needle: string, hay: string, i: int)
  {
    0 <= i && i + |needle| <= |hay| && hay[i..i + |needle|] == needle
  }

  /** Left-to-right search for `needle` in `hay`, as the regex engine tries each
      starting position in turn. */
  function Occurs(needle: string, hay: string): (r: bool)
    ensures r <==> exists i :: OccursAt(needle, hay, i)
    decreases |hay|
  {
    if |needle| <= |hay| && hay[..|needle|] == needle then
      assert OccursAt(needle, hay, 0);
      true
    else if |needle| >= |hay| then
      assert forall i :: !OccursAt(needle, hay, i) by {
        forall i | 0 <= i && i + |needle| <= |hay| ensures !OccursAt(needle, hay, i) {
          assert i == 0;
        }
      }
      false
    else
      var r := Occurs(needle, hay[1..]);
      assert forall i :: OccursAt(needle, hay[1..], i) <==> OccursAt(needle, hay, i + 1) by {
        forall i ensures OccursAt(needle, hay[1..], i) <==> OccursAt(needle, hay, i + 1) {
          if 0 <= i && i + |needle| <= |hay| - 1 {
            assert hay[1..][i..i + |needle|] == hay[i + 1..i + 1 + |needle|];
          }
        }
      }
      assert forall i :: OccursAt(needle, hay, i) ==> i == 0 || OccursAt(needle, hay[1..], i - 1);
      r
  }

  /** One literal occurs in `s` when both are compared case-insensitively. */
  function OccursIgnoringCase(literal: string, s: string): bool
  {
    Occurs(Fold(literal), Fold(s))
  }

  /** The alternation `(l1|l2|...)` matches somewhere in `s`; the alternatives
      are tried in order and the first that occurs decides. */
  function ContainsAny(s: string, literals: seq<string>): (r: bool)
    ensures r <==> exists k :: 0 <= k < |literals| && OccursIgnoringCase(literals[k], s)
  {
    if literals == [] then false
    else if OccursIgnoringCase(literals[0], s) then true
    else
      var r := ContainsAny(s, literals[1..]);
      assert forall k :: 1 <= k < |literals| ==> literals[1..][k - 1] == literals[k];
      r
  }

  /** `regex.test(s)` for the two shapes. */
  function Test(re: Regex, s: string): bool
  {
    match re
    case AnyOf(alternatives) => ContainsAny(s, alternatives)
    case NoneOf(keywords) => !HasLineTerminator(s) && !ContainsAny(s, keywords)
  }

  /** A region pattern accepts `s` exactly when some alternative lines up with a
      stretch of `s` character by character, up to case. */
  lemma AnyOfMeaning(alternatives: seq<string>, s: string)
    ensures Test(AnyOf(alternatives), s) <==>
      exists k, i :: 0 <= k < |alternatives| && AlignsAt(alternatives[k], s, i)
  {
    forall k, i | 0 <= k < |alternatives|
      ensures OccursAt(Fold(alternatives[k]), Fold(s), i) <==> AlignsAt(alternatives[k], s, i)
    {
      FoldedOccurrence(alternatives[k], s, i);
    }
  }

  /** The noise filter accepts `s` exactly when `s` is a single line and no
      keyword lines up with any stretch of it, up to case. */
  lemma NoneOfMeaning(keywords: seq<string>, s: string)
    ensures Test(NoneOf(keywords), s) <==>
      (forall j :: 0 <= j < |s| ==> !IsLineTerminator(s[j])) &&
      (forall k, i :: 0 <= k < |keywords| ==> !AlignsAt(keywords[k], s, i))
  {
    forall k, i | 0 <= k < |keywords|
      ensures OccursAt(Fold(keywords[k]), Fold(s), i) <==> AlignsAt(keywords[k], s, i)
    {
      FoldedOccurrence(keywords[k], s, i);
    }
  }

  /** `literal` lines up with `s` from position `i`, up to case. */
  ghost predicate AlignsAt(literal: string, s: string, i: int)
  {
    0 <= i && i + |literal| <= |s| &&
    forall j :: 0 <= j < |literal| ==> Canonicalize(s[i + j]) == Canonicalize(literal[j])
  }

  lemma FoldedOccurrence(literal: string, s: string, i: int)
    ensures OccursAt(Fold(literal), Fold(s), i) <==> AlignsAt(literal, s, i)
  {
    var n := |literal|;
    if 0 <= i && i + n <= |s| {
      if OccursAt(Fold(literal), Fold(s), i) {
        forall j | 0 <= j < n ensures Canonicalize(s[i + j]) == Canonicalize(literal[j]) {
          assert Fold(s)[i..i + n][j] == Fold(literal)[j];
        }
      }
      if AlignsAt(literal, s, i) {
        assert Fold(s)[i..i + n] == Fold(literal);
      }
    }
  }

  /** Both shapes are case-insensitive: two names that agree up to case are
      accepted or refused together. */
  lemma {:induction false} TestIgnoresCase(re: Regex, s: string, t: string)
    requires Fold(s) == Fold(t)
    ensures Test(re, s) == Test(re, t)
  {
    assert |s| == |Fold(s)| == |Fold(t)| == |t|;
    forall j | 0 <= j < |s| ensures IsLineTerminator(s[j]) <==> IsLineTerminator(t[j]) {
      assert Fold(s)[j] == Fold(t)[j];
    }
  }
}
