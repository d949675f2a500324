/**
 * String helpers used by the storefront: ASCII lower-casing, ECMAScript `trim`,
 * `includes` and the card text truncation `truncateText`.
 */
module Text {
  import opened Wrappers

  /** The ASCII upper-case letters, the only characters lower-casing changes here. */
  predicate IsUpper(c: char) {
    'A' <= c <= 'Z'
  }

  /** `toLowerCase` on one character, restricted to ASCII. */
  function LowerChar(c: char): (d: char)
    ensures !IsUpper(d)
    ensures IsUpper(c) ==> d as int == c as int + 32
    ensures !IsUpper(c) ==> d == c
  {
    if IsUpper(c) then (c as int - 'A' as int + 'a' as int) as char else c
  }

  /** `String.prototype.toLowerCase`, restricted to ASCII letters. */
  function ToLower(s: string): (r: string)
    ensures |r| == |s|
    ensures forall i :: 0 <= i < |s| ==> r[i] == LowerChar(s[i])
  {
    if s == [] then [] else [LowerChar(s[0])] + ToLower(s[1..])
  }

  /** Lower-casing a lower-cased string changes nothing. */
  lemma {:induction false} ToLowerIdempotent(s: string)
    ensures ToLower(ToLower(s)) == ToLower(s)
  {
    var t := ToLower(s);
    assert forall i :: 0 <= i < |t| ==> ToLower(t)[i] == t[i];
  }

  /**
   * The characters ECMAScript's `trim` removes: WhiteSpace (tab, vertical tab,
   * form feed, space, no-break space, zero-width no-break space and every
   * Unicode space separator) and LineTerminator (LF, CR, U+2028, U+2029).
   */
  predicate IsWhitespace(c: char) {
    var n := c as int;
    n == 0x09 || n == 0x0A || n == 0x0B || n == 0x0C || n == 0x0D || n == 0x20 ||
    n == 0xA0 || n == 0x1680 || (0x2000 <= n <= 0x200A) || n == 0x2028 ||
    n == 0x2029 || n == 0x202F || n == 0x205F || n == 0x3000 || n == 0xFEFF
  }

  /** Lower-casing never turns a whitespace character into a visible one or back. */
  lemma LowerCharKeepsWhitespace(c: char)
    ensures IsWhitespace(LowerChar(c)) == IsWhitespace(c)
  {
  }

  /** Drops the whitespace at the start of `s`. */
  function TrimStart(s: string): (r: string)
    ensures |r| <= |s| && r == s[|s| - |r|..]
    ensures r == [] || !IsWhitespace(r[0])
    ensures forall i :: 0 <= i < |s| - |r| ==> IsWhitespace(s[i])
  {
    if |s| > 0 && IsWhitespace(s[0]) then TrimStart(s[1..]) else s
  }

  /** Drops the whitespace at the end of `s`. */
  function TrimEnd(s: string): (r: string)
    ensures |r| <= |s| && r == s[..|r|]
    ensures r == [] || !IsWhitespace(r[|r| - 1])
    ensures forall i :: |r| <= i < |s| ==> IsWhitespace(s[i])
  {
    if |s| > 0 && IsWhitespace(s[|s| - 1]) then TrimEnd(s[..|s| - 1]) else s
  }

  /** `r` is the slice of `s` starting at `a`, and everything of `s` outside it is whitespace. */
  ghost predicate TrimmedAt(s: string, r: string, a: int) {
    0 <= a <= |s| - |r| && r == s[a..a + |r|] &&
    (forall i :: 0 <= i < a ==> IsWhitespace(s[i])) &&
    (forall i :: a + |r| <= i < |s| ==> IsWhitespace(s[i]))
  }

  /** `String.prototype.trim`: the longest middle slice that neither starts nor ends with whitespace. */
  function Trim(s: string): (r: string)
    ensures exists a :: TrimmedAt(s, r, a)
    ensures r == [] || (!IsWhitespace(r[0]) && !IsWhitespace(r[|r| - 1]))
  {
    var t := TrimStart(s);
    var r := TrimEnd(t);
    assert TrimmedAt(s, r, |s| - |t|);
    r
  }

  /** Trimming gives the empty string exactly when the input is all whitespace. */
  lemma {:induction false} TrimEmptyIff(s: string)
    ensures Trim(s) == [] <==> forall i :: 0 <= i < |s| ==> IsWhitespace(s[i])
  {
    var b :| TrimmedAt(s, Trim(s), b);
  }

  /** `needle` occurs in `hay` at position `i`. */
  ghost predicate OccursAt(hay: string, needle: string, i: int) {
    0 <= i && i + |needle| <= |hay| && hay[i..i + |needle|] == needle
  }

  /** `String.prototype.includes`: whether `needle` occurs in `hay`, scanning from the left. */
  function Contains(hay: string, needle: string): bool
  {
    if needle <= hay then true
    else if |hay| == 0 then false
    else Contains(hay[1..], needle)
  }

  /** When the scan succeeds, `needle` occurs at the position it returns. */
  lemma {:induction false} ContainsSound(hay: string, needle: string) returns (i: nat)
    requires Contains(hay, needle)
    ensures OccursAt(hay, needle, i)
  {
    if needle <= hay {
      i := 0;
    } else {
      var k := ContainsSound(hay[1..], needle);
      assert hay[1..][k..k + |needle|] == hay[k + 1..k + 1 + |needle|];
      i := k + 1;
    }
  }

  /** Wherever `needle` occurs in `hay`, the scan finds it. */
  lemma {:induction false} ContainsComplete(hay: string, needle: string, i: nat)
    requires OccursAt(hay, needle, i)
    ensures Contains(hay, needle)
  {
    if !(needle <= hay) && i > 0 {
      assert hay[1..][i - 1..i - 1 + |needle|] == hay[i..i + |needle|];
      ContainsComplete(hay[1..], needle, i - 1);
    }
  }

  /** The scan finds `needle` exactly when it occurs at some position of `hay`. */
  lemma ContainsIff(hay: string, needle: string)
    ensures Contains(hay, needle) <==> exists i :: OccursAt(hay, needle, i)
  {
    if Contains(hay, needle) {
      var i := ContainsSound(hay, needle);
    }
    forall i | OccursAt(hay, needle, i) ensures Contains(hay, needle) {
      ContainsComplete(hay, needle, i);
    }
  }

  /**
   * `truncateText(text, maxLength)`: a missing or empty text gives the empty
   * string; a text that fits is returned whole; a longer one is cut to its
   * first `maxLength` characters (`substring` treats a negative length as 0)
   * and marked with "...".
   */
  function Truncate(text: Option<string>, maxLength: int): (r: string)
  {
    match text
    case None => ""
    case Some(t) =>
      if t == "" then ""
      else if |t| <= maxLength then t
      else t[..if maxLength < 0 then 0 else maxLength] + "..."
  }

  /**
   * What a card shows: nothing for a missing or empty text, the text itself
   * when it fits, otherwise exactly `maxLength` leading characters followed by
   * the three-dot marker, so never more than `maxLength + 3` characters.
   */
  lemma TruncateSpec(text: Option<string>, maxLength: nat)
    ensures text.None? || text == Some("") ==> Truncate(text, maxLength) == ""
    ensures text.Some? && |text.value| <= maxLength ==> Truncate(text, maxLength) == text.value
    ensures text.Some? && |text.value| > maxLength ==>
      var r := Truncate(text, maxLength);
      |r| == maxLength + 3 && r[..maxLength] == text.value[..maxLength] && r[maxLength..] == "..."
    ensures |Truncate(text, maxLength)| <= maxLength + 3
  {
  }
}
