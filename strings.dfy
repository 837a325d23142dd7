/** The JavaScript string built-ins the card relies on: `toLowerCase` and
    `trim`, and the character classes they and the label regex use. */
module Strings {
  import opened Wrappers

  predicate IsUpper(c: char) {
    'A' <= c <= 'Z'
  }

  /** `toLowerCase` on one character, for the ASCII letters. */
  function LowerChar(c: char): (r: char)
    ensures IsUpper(c) ==> r as int == c as int + 32
    ensures !IsUpper(c) ==> r == c
    ensures !IsUpper(r)
  {
    if IsUpper(c) then ((c as int) + 32) as char else c
  }

  /** `toLowerCase`: every character lowered, in place. */
  function ToLower(s: string): (r: string)
    ensures |r| == |s|
    ensures forall i :: 0 <= i < |s| ==> r[i] == LowerChar(s[i])
  {
    if s == [] then [] else [LowerChar(s[0])] + ToLower(s[1..])
  }

  /** Lowering twice is lowering once. */
  lemma ToLowerIdempotent(s: string)
    ensures ToLower(ToLower(s)) == ToLower(s)
  {
    var t := ToLower(s);
    assert forall i :: 0 <= i < |t| ==> ToLower(t)[i] == t[i];
  }

  /** `p` spells `word` with any mix of upper and lower case. */
  predicate IsCaseVariantOf(p: string, word: string) {
    |p| == |word| &&
    forall i :: 0 <= i < |p| ==> p[i] == word[i] || LowerChar(p[i]) == word[i]
  }

  /** For an all-lowercase word, comparing after `toLowerCase` is exactly
      accepting every case variant of that word. */
  lemma ToLowerMatchesCaseVariants(p: string, word: string)
    requires forall i :: 0 <= i < |word| ==> !IsUpper(word[i])
    ensures ToLower(p) == word <==> IsCaseVariantOf(p, word)
  {
    if IsCaseVariantOf(p, word) {
      assert forall i :: 0 <= i < |p| ==> ToLower(p)[i] == word[i];
    }
  }

  /** The characters `String.prototype.trim` removes: the ECMAScript
      WhiteSpace and LineTerminator code points. */
  predicate IsWhitespace(c: char) {
    var n := c as int;
    n == 0x09 || n == 0x0A || n == 0x0B || n == 0x0C || n == 0x0D || n == 0x20 ||
    n == 0xA0 || n == 0x1680 || (0x2000 <= n <= 0x200A) || n == 0x2028 || n == 0x2029 ||
    n == 0x202F || n == 0x205F || n == 0x3000 || n == 0xFEFF
  }

  /** `s` with its leading whitespace removed: a suffix of `s` whose dropped
      prefix is all whitespace and which does not start with whitespace. */
  function TrimStart(s: string): (r: string)
    ensures |r| <= |s| && r == s[|s| - |r|..]
    ensures forall k :: 0 <= k < |s| - |r| ==> IsWhitespace(s[k])
    ensures r != [] ==> !IsWhitespace(r[0])
  {
    if s != [] && IsWhitespace(s[0]) then TrimStart(s[1..]) else s
  }

  /** `s` with its trailing whitespace removed: a prefix of `s` whose dropped
      suffix is all whitespace and which does not end with whitespace. */
  function TrimEnd(s: string): (r: string)
    ensures |r| <= |s| && r == s[..|r|]
    ensures forall k :: |r| <= k < |s| ==> IsWhitespace(s[k])
    ensures r != [] ==> !IsWhitespace(r[|r| - 1])
  {
    if s != [] && IsWhitespace(s[|s| - 1]) then TrimEnd(s[..|s| - 1]) else s
  }

  /** How many whitespace characters `trim` drops from the front of `s`. */
  function LeadingWhitespace(s: string): (n: nat)
    ensures n <= |s|
  {
    |s| - |TrimStart(s)|
  }

  /** `trim`: the slice of `s` that starts after its leading whitespace; what
      lies outside the slice is whitespace and neither end of it is. */
  function Trim(s: string): (r: string)
    ensures LeadingWhitespace(s) + |r| <= |s|
    ensures r == s[LeadingWhitespace(s)..LeadingWhitespace(s) + |r|]
    ensures forall k :: 0 <= k < LeadingWhitespace(s) ==> IsWhitespace(s[k])
    ensures forall k :: LeadingWhitespace(s) + |r| <= k < |s| ==> IsWhitespace(s[k])
    ensures r != [] ==> !IsWhitespace(r[0]) && !IsWhitespace(r[|r| - 1])
  {
    var t := TrimStart(s);
    var n := |s| - |t|;
    var r := TrimEnd(t);
    assert t == s[n..];
    r
  }

  /** `s` without its space characters. */
  function RemoveSpaces(s: string): (r: string)
    ensures forall k :: 0 <= k < |r| ==> r[k] != ' '
  {
    if s == [] then [] else (if s[0] == ' ' then [] else [s[0]]) + RemoveSpaces(s[1..])
  }

  lemma {:induction false} RemoveSpacesConcat(a: string, b: string)
    ensures RemoveSpaces(a + b) == RemoveSpaces(a) + RemoveSpaces(b)
  {
    if a != [] {
      assert (a + b)[1..] == a[1..] + b;
      RemoveSpacesConcat(a[1..], b);
    } else {
      assert a + b == b;
    }
  }

  /** Removing spaces from a string that holds none changes nothing. */
  lemma {:induction false} RemoveSpacesNone(s: string)
    requires forall k :: 0 <= k < |s| ==> s[k] != ' '
    ensures RemoveSpaces(s) == s
  {
    if s != [] {
      RemoveSpacesNone(s[1..]);
    }
  }

  /** The only whitespace `s` holds, if any, is the space character. */
  predicate WhitespaceIsSpace(s: string) {
    forall k :: 0 <= k < |s| ==> s[k] == ' ' || !IsWhitespace(s[k])
  }

  lemma {:induction false} RemoveSpacesTrimStart(s: string)
    requires WhitespaceIsSpace(s)
    ensures RemoveSpaces(TrimStart(s)) == RemoveSpaces(s)
  {
    if s != [] && IsWhitespace(s[0]) {
      assert WhitespaceIsSpace(s[1..]) by {
        forall k | 0 <= k < |s[1..]| ensures s[1..][k] == ' ' || !IsWhitespace(s[1..][k]) {
          assert s[1..][k] == s[k + 1];
        }
      }
      RemoveSpacesTrimStart(s[1..]);
    }
  }

  lemma {:induction false} RemoveSpacesTrimEnd(s: string)
    requires WhitespaceIsSpace(s)
    ensures RemoveSpaces(TrimEnd(s)) == RemoveSpaces(s)
  {
    if s != [] && IsWhitespace(s[|s| - 1]) {
      var init := s[..|s| - 1];
      assert WhitespaceIsSpace(init) by {
        forall k | 0 <= k < |init| ensures init[k] == ' ' || !IsWhitespace(init[k]) {
          assert init[k] == s[k];
        }
      }
      assert s == init + [' '];
      RemoveSpacesConcat(init, [' ']);
      RemoveSpacesTrimEnd(init);
    }
  }

  /** When all of its whitespace is spaces, trimming a string does not change
      what is left once the spaces are removed. */
  lemma RemoveSpacesTrim(s: string)
    requires WhitespaceIsSpace(s)
    ensures RemoveSpaces(Trim(s)) == RemoveSpaces(s)
  {
    RemoveSpacesTrimStart(s);
    var t := TrimStart(s);
    assert WhitespaceIsSpace(t) by {
      forall k | 0 <= k < |t| ensures t[k] == ' ' || !IsWhitespace(t[k]) {
        assert t[k] == s[|s| - |t| + k];
      }
    }
    RemoveSpacesTrimEnd(t);
  }

  /** The position of the first `c` in `s`, if any. */
  function IndexOf(s: string, c: char): (r: Option<nat>)
    ensures r.Some? ==> (r.value < |s| && s[r.value] == c &&
      forall k :: 0 <= k < r.value ==> s[k] != c)
    ensures r.None? ==> forall k :: 0 <= k < |s| ==> s[k] != c
  {
    if s == [] then None
    else if s[0] == c then Some(0)
    else
      match IndexOf(s[1..], c)
      case None => None
      case Some(k) => Some(k + 1)
  }

  /** The position of the last `c` in `s`, if any. */
  function LastIndexOf(s: string, c: char): (r: Option<nat>)
    ensures r.Some? ==> (r.value < |s| && s[r.value] == c &&
      forall k :: r.value < k < |s| ==> s[k] != c)
    ensures r.None? ==> forall k :: 0 <= k < |s| ==> s[k] != c
  {
    if s == [] then None
    else if s[|s| - 1] == c then Some(|s| - 1)
    else LastIndexOf(s[..|s| - 1], c)
  }
}
