/** Option type and the string operations the pages rely on: JavaScript's
    truthiness of strings, `trim`, `toLowerCase`, `includes`, `split(sep)[0]`
    and `charAt(0).toUpperCase()`. */
module Common {

  datatype Option<+T> = None | Some(value: T)

  /** `x || fallback` for a string that may be missing (`null`) or empty. */
  function OrElse(x: Option<string>, fallback: string): (r: string)
    ensures x.Some? && x.value != "" ==> r == x.value
    ensures (x.None? || x.value == "") ==> r == fallback
  {
    if x.Some? && x.value != "" then x.value else fallback
  }

  // ---------------------------------------------------------------------------
  // Whitespace and trim

  /** The characters `String.prototype.trim` removes: tab, vertical tab,
      form feed, the byte-order mark, the space separators of Unicode
      category Zs, and the four line terminators. */
  predicate IsSpace(c: char)
  {
    c == ' ' || c == '\t' || c == '\n' || c == '\r' || c == '\U{000B}' || c == '\U{000C}'
    || c == '\U{00A0}' || c == '\U{1680}' || ('\U{2000}' <= c <= '\U{200A}')
    || c == '\U{2028}' || c == '\U{2029}' || c == '\U{202F}' || c == '\U{205F}'
    || c == '\U{3000}' || c == '\U{FEFF}'
  }

  predicate IsBlank(s: string)
  {
    forall i :: 0 <= i < |s| ==> IsSpace(s[i])
  }

  /** Number of white-space characters at the start of `s`. */
  function LeadingSpaces(s: string): (n: nat)
    ensures n <= |s|
    ensures forall i :: 0 <= i < n ==> IsSpace(s[i])
    ensures n == |s| || !IsSpace(s[n])
  {
    if s != [] && IsSpace(s[0]) then 1 + LeadingSpaces(s[1..]) else 0
  }

  /** Length of `s` without its trailing white space. */
  function TrailingStart(s: string): (n: nat)
    ensures n <= |s|
    ensures forall i :: n <= i < |s| ==> IsSpace(s[i])
    ensures n == 0 || !IsSpace(s[n - 1])
  {
    if s != [] && IsSpace(s[|s| - 1]) then TrailingStart(s[..|s| - 1]) else |s|
  }

  /** `s.trim()`: the text with leading and trailing white space removed. */
  function Trim(s: string): (r: string)
  {
    var t := s[LeadingSpaces(s)..];
    t[..TrailingStart(t)]
  }

  /** The trimmed text is a piece of the original that neither starts nor ends
      with white space, and only white space lies around it. */
  lemma TrimmedIsInfix(s: string)
    ensures exists a, b :: (0 <= a <= b <= |s| && Trim(s) == s[a..b]
      && (forall i :: 0 <= i < a ==> IsSpace(s[i]))
      && (forall i :: b <= i < |s| ==> IsSpace(s[i])))
    ensures Trim(s) == [] || (!IsSpace(Trim(s)[0]) && !IsSpace(Trim(s)[|Trim(s)| - 1]))
  {
    var a := LeadingSpaces(s);
    var t := s[a..];
    var n := TrailingStart(t);
    assert Trim(s) == s[a..a + n];
    assert forall i :: a + n <= i < |s| ==> s[i] == t[i - a];
  }

  /** `!s.trim()` holds exactly for the strings made only of white space. */
  lemma TrimEmptyIffBlank(s: string)
    ensures Trim(s) == "" <==> IsBlank(s)
  {
    var a := LeadingSpaces(s);
    var t := s[a..];
    var n := TrailingStart(t);
    assert forall i :: a <= i < |s| ==> s[i] == t[i - a];
    if a < |s| {
      assert t[0] == s[a];
    }
  }

  // ---------------------------------------------------------------------------
  // Length

  /** `s.length`: JavaScript counts UTF-16 code units, so a character outside
      the Basic Multilingual Plane counts twice. */
  function JsLength(s: string): (n: nat)
    ensures |s| <= n <= 2 * |s|
    ensures (forall i :: 0 <= i < |s| ==> s[i] as int < 0x1_0000) ==> n == |s|
  {
    if s == [] then 0
    else JsLength(s[..|s| - 1]) + (if s[|s| - 1] as int < 0x1_0000 then 1 else 2)
  }

  /** An emoji such as U+1F600 is one character but two code units. */
  lemma JsLengthExample()
    ensures JsLength("\U{1F600}") == 2
    ensures JsLength("ab") == 2
  {
    assert "\U{1F600}"[..0] == [];
    assert "ab"[..1] == "a" && "a"[..0] == [];
  }

  // ---------------------------------------------------------------------------
  // Case

  function LowerChar(c: char): char
  {
    if 'A' <= c <= 'Z' then (c as int + 32) as char else c
  }

  function UpperChar(c: char): char
  {
    if 'a' <= c <= 'z' then (c as int - 32) as char else c
  }

  /** `s.toLowerCase()` on ASCII letters. */
  function Lower(s: string): (r: string)
    ensures |r| == |s|
    ensures forall i :: 0 <= i < |s| ==> r[i] == LowerChar(s[i])
  {
    seq(|s|, i requires 0 <= i < |s| => LowerChar(s[i]))
  }

  /** Lower-casing twice is lower-casing once. */
  lemma LowerIdempotent(s: string)
    ensures Lower(Lower(s)) == Lower(s)
  {
    assert forall i :: 0 <= i < |s| ==> LowerChar(LowerChar(s[i])) == LowerChar(s[i]);
  }

  /** `s.charAt(0).toUpperCase()`: the first character upper-cased, or "" for "". */
  function Initial(s: string): (r: string)
    ensures s == "" <==> r == ""
    ensures s != "" ==> r == [UpperChar(s[0])]
  {
    if s == "" then "" else [UpperChar(s[0])]
  }

  // ---------------------------------------------------------------------------
  // Substring search

  predicate IsPrefix(p: string, s: string)
  {
    |p| <= |s| && s[..|p|] == p
  }

  /** `hay.includes(needle)`. */
  predicate Contains(hay: string, needle: string)
    decreases |hay|
  {
    IsPrefix(needle, hay) || (hay != [] && Contains(hay[1..], needle))
  }

  /** `needle` occurs in `hay` starting at offset `i`. */
  predicate OccursAt(hay: string, needle: string, i: int)
  {
    0 <= i <= |hay| - |needle| && hay[i..i + |needle|] == needle
  }

  /** `includes` holds exactly when the needle occurs at some offset. */
  lemma {:induction false} ContainsIffOccurs(hay: string, needle: string)
    ensures Contains(hay, needle) <==> exists i :: OccursAt(hay, needle, i)
    decreases |hay|
  {
    if IsPrefix(needle, hay) {
      assert OccursAt(hay, needle, 0);
    } else if hay != [] {
      ContainsIffOccurs(hay[1..], needle);
      if Contains(hay[1..], needle) {
        var i :| OccursAt(hay[1..], needle, i);
        assert OccursAt(hay, needle, i + 1);
      }
      if exists i :: OccursAt(hay, needle, i) {
        var i :| OccursAt(hay, needle, i);
        if i > 0 {
          assert OccursAt(hay[1..], needle, i - 1);
        }
      }
    }
  }

  /** Every string includes the empty string. */
  lemma ContainsEmpty(hay: string)
    ensures Contains(hay, "")
  {
    assert IsPrefix("", hay);
  }

  // ---------------------------------------------------------------------------
  // split(sep)[0]

  /** The first offset at or after `j` where `sep` occurs, or `|s|`. */
  function FindFrom(s: string, sep: string, j: nat): (i: nat)
    requires sep != "" && j <= |s|
    ensures j <= i <= |s|
    ensures i == |s| || OccursAt(s, sep, i)
    ensures forall k :: j <= k < i ==> !OccursAt(s, sep, k)
    decreases |s| - j
  {
    if OccursAt(s, sep, j) then j else if j == |s| then |s| else FindFrom(s, sep, j + 1)
  }

  /** `s.split(sep)[0]`: the text before the first occurrence of `sep`, or the
      whole string when `sep` does not occur. */
  function BeforeFirst(s: string, sep: string): (r: string)
    requires sep != ""
    ensures IsPrefix(r, s)
    ensures r == s || OccursAt(s, sep, |r|)
    ensures forall j :: 0 <= j < |r| ==> !OccursAt(s, sep, j)
  {
    s[..FindFrom(s, sep, 0)]
  }

  /** The text before the first '@' of an address such as "tj@example.com". */
  function LocalPart(email: string): (r: string)
    ensures IsPrefix(r, email)
    ensures '@' !in r
    ensures r == email || (|r| < |email| && email[|r|] == '@')
  {
    var r := BeforeFirst(email, "@");
    assert forall i :: 0 <= i < |r| ==> r[i] != '@' by {
      forall i | 0 <= i < |r| ensures r[i] != '@' {
        assert !OccursAt(email, "@", i);
        assert email[i..i + 1] == [r[i]];
      }
    }
    assert r != email ==> email[|r|..|r| + 1] == "@";
    r
  }

  /** `(a + [c] + b).split([c])[0]` is `a` when `c` does not occur in `a`. */
  lemma BeforeCharJoin(a: string, c: char, b: string)
    requires c !in a
    ensures BeforeFirst(a + [c] + b, [c]) == a
  {
    var s := a + [c] + b;
    var r := BeforeFirst(s, [c]);
    assert OccursAt(s, [c], |a|) by {
      assert s[|a|..|a| + 1] == [c];
    }
    assert |r| <= |a|;
    assert r != s;
    assert s[|r|..|r| + 1] == [c];
    assert s[|r|] == s[|r|..|r| + 1][0] == c;
    assert forall j :: 0 <= j < |a| ==> s[j] == a[j] && s[j] != c;
    assert |r| == |a|;
    assert r == s[..|a|] == a;
  }

  lemma LocalPartExample()
    ensures LocalPart("tj@example.com") == "tj"
    ensures LocalPart("User") == "User"
  {
    BeforeCharJoin("tj", '@', "example.com");
    assert "tj" + ['@'] + "example.com" == "tj@example.com";
    MissingCharNotContained("User", "@", '@');
    BeforeFirstWhole("User", "@");
  }

  /** A string in which `sep` does not occur is its own `split(sep)[0]`. */
  lemma BeforeFirstWhole(s: string, sep: string)
    requires sep != "" && !Contains(s, sep)
    ensures BeforeFirst(s, sep) == s
  {
    ContainsIffOccurs(s, sep);
  }

  /** A needle with a character the haystack lacks does not occur in it. */
  lemma MissingCharNotContained(s: string, sep: string, c: char)
    requires c in sep && c !in s
    ensures !Contains(s, sep)
  {
    var k :| 0 <= k < |sep| && sep[k] == c;
    forall i ensures !OccursAt(s, sep, i) {
      if 0 <= i <= |s| - |sep| {
        assert s[i..i + |sep|][k] == s[i + k];
      }
    }
    ContainsIffOccurs(s, sep);
  }

  /** `(a + " - " + b).split(" - ")[0]` is `a` when `a` has no '-'. */
  lemma BeforeDashJoin(a: string, b: string)
    requires '-' !in a
    ensures BeforeFirst(a + " - " + b, " - ") == a
  {
    var sep := " - ";
    var s := a + sep + b;
    var r := BeforeFirst(s, sep);
    assert OccursAt(s, sep, |a|) by {
      assert s[|a|..|a| + 3] == sep;
    }
    assert |r| <= |a|;
    assert r != s;
    assert s[|r|..|r| + 3] == sep;
    assert s[|r| + 1] == s[|r|..|r| + 3][1] == '-';
    assert forall j :: 0 <= j < |a| ==> s[j] == a[j] && s[j] != '-';
    assert |r| == |a|;
    assert r == s[..|a|] == a;
  }
}
