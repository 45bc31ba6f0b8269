/** JavaScript primitives the form actions and caches rely on: an optional
    value (a missing FormData entry is `null`), FormData as a map from field
    name to string, JavaScript truthiness of a string, and the ASCII parts of
    `toLowerCase`, `trim`, `includes` and number-to-string conversion. */
module Js {

  datatype Option<+T> = None | Some(value: T)

  /** A submitted form: field name to the string the browser sent. A field
      that is not in the map reads as `null`. */
  type FormData = map<string, string>

  /** `formData.get(name)`. */
  function Get(form: FormData, name: string): (r: Option<string>)
    ensures r.Some? <==> name in form
    ensures r.Some? ==> r.value == form[name]
  {
    if name in form then Some(form[name]) else None
  }

  /** `!v` for a value read from a form: `null` and `""` are falsy. */
  predicate Falsy(v: Option<string>) {
    v.None? || v.value == ""
  }

  /** `formData.get(name) === literal`; `null` equals no string. */
  predicate FieldEquals(form: FormData, name: string, literal: string) {
    name in form && form[name] == literal
  }

  // ---------------------------------------------------------------------
  // Case folding (ASCII letters only)

  function LowerChar(c: char): (d: char)
    ensures 'A' <= c <= 'Z' ==> 'a' <= d <= 'z' && d as int - c as int == 32
    ensures !('A' <= c <= 'Z') ==> d == c
  {
    if 'A' <= c <= 'Z' then (c as int + 32) as char else c
  }

  /** `s.toLowerCase()`, restricted to ASCII upper-case letters. */
  function ToLower(s: string): (r: string)
    ensures |r| == |s|
    ensures forall i :: 0 <= i < |s| ==> r[i] == LowerChar(s[i])
  {
    seq(|s|, i requires 0 <= i < |s| => LowerChar(s[i]))
  }

  // ---------------------------------------------------------------------
  // Trimming

  /** The code points `String.prototype.trim` strips: WhiteSpace and
      LineTerminator of the ECMAScript grammar. */
  predicate IsJsWhitespace(c: char) {
    c == '\t' || c == '\n' || c == '\U{000B}' || c == '\U{000C}' || c == '\r' ||
    c == ' ' || c == '\U{00A0}' || c == '\U{1680}' || ('\U{2000}' <= c <= '\U{200A}') ||
    c == '\U{2028}' || c == '\U{2029}' || c == '\U{202F}' || c == '\U{205F}' ||
    c == '\U{3000}' || c == '\U{FEFF}'
  }

  function TrimStart(s: string): (r: string)
    ensures |r| <= |s| && r == s[|s| - |r|..]
    ensures r == [] || !IsJsWhitespace(r[0])
    ensures forall i :: 0 <= i < |s| - |r| ==> IsJsWhitespace(s[i])
  {
    if s != [] && IsJsWhitespace(s[0]) then TrimStart(s[1..]) else s
  }

  function TrimEnd(s: string): (r: string)
    ensures |r| <= |s| && r == s[..|r|]
    ensures r == [] || !IsJsWhitespace(r[|r| - 1])
    ensures forall i :: |r| <= i < |s| ==> IsJsWhitespace(s[i])
  {
    if s != [] && IsJsWhitespace(s[|s| - 1]) then TrimEnd(s[..|s| - 1]) else s
  }

  /** `r` is `s` with the `k` characters before it and the ones after it cut
      off, all of them whitespace. */
  predicate TrimmedAt(s: string, r: string, k: int) {
    && OccursAt(s, r, k)
    && (forall i :: 0 <= i < k ==> IsJsWhitespace(s[i]))
    && (forall i :: k + |r| <= i < |s| ==> IsJsWhitespace(s[i]))
  }

  /** `s.trim()`: the result is a contiguous part of `s` with no whitespace at
      either end, and everything cut off is whitespace. */
  function Trim(s: string): (r: string)
    ensures |r| <= |s|
    ensures r == [] || (!IsJsWhitespace(r[0]) && !IsJsWhitespace(r[|r| - 1]))
    ensures exists k :: TrimmedAt(s, r, k)
  {
    var t := TrimStart(s);
    var r := TrimEnd(t);
    var k := |s| - |t|;
    assert OccursAt(s, r, k);
    assert forall i :: k + |r| <= i < |s| ==> s[i] == t[i - k];
    assert TrimmedAt(s, r, k);
    r
  }

  /** Trimming gives the empty string exactly when the string is made only of
      whitespace. */
  lemma TrimAllWhitespace(s: string)
    ensures Trim(s) == "" <==> forall i :: 0 <= i < |s| ==> IsJsWhitespace(s[i])
  {
    var r := Trim(s);
    var k :| TrimmedAt(s, r, k);
    if r != "" {
      assert r[0] == s[k];
    }
  }

  // ---------------------------------------------------------------------
  // Substrings

  /** `sub` occurs in `s` starting at offset `k`. */
  predicate OccursAt(s: string, sub: string, k: int) {
    0 <= k <= |s| - |sub| && s[k..k + |sub|] == sub
  }

  predicate IsPrefix(p: string, s: string) {
    |p| <= |s| && s[..|p|] == p
  }

  /** `s.includes(sub)`. */
  predicate Includes(s: string, sub: string)
    decreases |s|
  {
    IsPrefix(sub, s) || (s != [] && Includes(s[1..], sub))
  }

  /** `includes` means: `sub` occurs at some offset of `s`. */
  lemma {:induction false} IncludesAt(s: string, sub: string)
    ensures Includes(s, sub) <==> exists k :: OccursAt(s, sub, k)
    decreases |s|
  {
    if IsPrefix(sub, s) {
      assert OccursAt(s, sub, 0);
    } else if s == [] {
    } else {
      IncludesAt(s[1..], sub);
      if exists k :: OccursAt(s, sub, k) {
        var k :| OccursAt(s, sub, k);
        assert k != 0;
        assert OccursAt(s[1..], sub, k - 1);
      }
      if exists k :: OccursAt(s[1..], sub, k) {
        var k :| OccursAt(s[1..], sub, k);
        assert OccursAt(s, sub, k + 1);
      }
    }
  }

  /** Searching for a one-character string is membership of that character. */
  lemma {:induction false} IncludesChar(s: string, c: char)
    ensures Includes(s, [c]) <==> c in s
    decreases |s|
  {
    if s != [] {
      IncludesChar(s[1..], c);
      assert s == [s[0]] + s[1..];
    }
  }

  /** The empty string occurs in every string. */
  lemma IncludesEmpty(s: string)
    ensures Includes(s, "")
  {
    assert IsPrefix("", s);
  }

  /** A string includes itself. */
  lemma IncludesSelf(s: string)
    ensures Includes(s, s)
  {
    assert IsPrefix(s, s);
  }

  // ---------------------------------------------------------------------
  // Number formatting

  function DigitChar(d: nat): (c: char)
    requires d < 10
    ensures '0' <= c <= '9'
  {
    ('0' as int + d) as char
  }

  /** `String(n)` in a template literal, for a non-negative integer. */
  function NatToString(n: nat): (r: string)
    ensures |r| >= 1
    ensures forall i :: 0 <= i < |r| ==> '0' <= r[i] <= '9'
    ensures n >= 10 ==> r[0] != '0'
  {
    if n < 10 then [DigitChar(n)] else NatToString(n / 10) + [DigitChar(n % 10)]
  }

  /** The value of a string of decimal digits. */
  function DigitsValue(s: string): nat
    requires forall i :: 0 <= i < |s| ==> '0' <= s[i] <= '9'
  {
    if s == [] then 0 else 10 * DigitsValue(s[..|s| - 1]) + (s[|s| - 1] as int - '0' as int)
  }

  /** Reading the digits back gives the number: the conversion loses nothing. */
  lemma {:induction false} NatToStringValue(n: nat)
    ensures DigitsValue(NatToString(n)) == n
  {
    if n >= 10 {
      NatToStringValue(n / 10);
      var r := NatToString(n);
      assert r[..|r| - 1] == NatToString(n / 10);
    }
  }

  /** Distinct numbers print as distinct strings. */
  lemma NatToStringInjective(m: nat, n: nat)
    requires m != n
    ensures NatToString(m) != NatToString(n)
  {
    NatToStringValue(m);
    NatToStringValue(n);
  }
}
