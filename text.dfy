/**
 * String operations of the two runtimes the system runs on: Java's `String.trim`,
 * `String.isBlank`, `startsWith`, `lastIndexOf`, `toLowerCase` and `Collectors.joining`, and
 * JavaScript's `trim` and the regular-expression classes `\w` and `\s`.
 */
module Text {

  /** Characters Java's `String.trim()` strips: every code point up to U+0020. */
  predicate IsJavaTrimmable(c: char) {
    c <= ' '
  }

  /** `Character.isWhitespace`, which `String.isBlank()` uses. */
  predicate IsJavaWhitespace(c: char) {
    || c == ' ' || c == '\t' || c == '\n' || c == '\U{B}' || c == '\U{C}' || c == '\r'
    || '\U{1C}' <= c <= '\U{1F}'
    || c == '\U{1680}' || '\U{2000}' <= c <= '\U{2006}' || '\U{2008}' <= c <= '\U{200A}'
    || c == '\U{2028}' || c == '\U{2029}' || c == '\U{205F}' || c == '\U{3000}'
  }

  /** JavaScript's white space and line terminators: what `trim()` strips and `\s` matches. */
  predicate IsJsWhitespace(c: char) {
    || c == ' ' || c == '\t' || c == '\n' || c == '\U{B}' || c == '\U{C}' || c == '\r'
    || c == '\U{A0}' || c == '\U{1680}' || '\U{2000}' <= c <= '\U{200A}'
    || c == '\U{2028}' || c == '\U{2029}' || c == '\U{202F}' || c == '\U{205F}'
    || c == '\U{3000}' || c == '\U{FEFF}'
  }

  /** The regular-expression class `\w`: ASCII letters, digits and the underscore. */
  predicate IsWordChar(c: char) {
    'a' <= c <= 'z' || 'A' <= c <= 'Z' || '0' <= c <= '9' || c == '_'
  }

  predicate IsAsciiLetter(c: char) {
    'a' <= c <= 'z' || 'A' <= c <= 'Z'
  }

  predicate IsDigit(c: char) {
    '0' <= c <= '9'
  }

  /** Strips the leading characters that satisfy `strip`. */
  function DropLeading(s: string, strip: char -> bool): (r: string)
    ensures |r| <= |s| && r == s[|s| - |r|..]
    ensures r != [] ==> !strip(r[0])
  {
    if s != [] && strip(s[0]) then DropLeading(s[1..], strip) else s
  }

  /** Strips the trailing characters that satisfy `strip`. */
  function DropTrailing(s: string, strip: char -> bool): (r: string)
    ensures |r| <= |s| && r == s[..|r|]
  {
    if s != [] && strip(s[|s| - 1]) then DropTrailing(s[..|s| - 1], strip) else s
  }

  /** Both ends stripped: `String.trim()` with IsJavaTrimmable, JavaScript `trim()` with IsJsWhitespace. */
  function Strip(s: string, strip: char -> bool): string {
    DropTrailing(DropLeading(s, strip), strip)
  }

  function JavaTrim(s: string): string {
    Strip(s, IsJavaTrimmable)
  }

  function JsTrim(s: string): string {
    Strip(s, IsJsWhitespace)
  }

  /** `String.isBlank()`: empty or only `Character.isWhitespace` characters. */
  predicate JavaIsBlank(s: string) {
    forall i | 0 <= i < |s| :: IsJavaWhitespace(s[i])
  }

  lemma {:induction false} DropLeadingEmpty(s: string, strip: char -> bool)
    ensures DropLeading(s, strip) == [] <==> forall i | 0 <= i < |s| :: strip(s[i])
  {
    if s != [] && strip(s[0]) {
      DropLeadingEmpty(s[1..], strip);
      assert forall i | 1 <= i < |s| :: s[i] == s[1..][i - 1];
    }
  }

  /** Stripping leaves nothing exactly when every character is one that is stripped. */
  lemma StripEmpty(s: string, strip: char -> bool)
    ensures Strip(s, strip) == [] <==> forall i | 0 <= i < |s| :: strip(s[i])
  {
    var t := DropLeading(s, strip);
    DropLeadingEmpty(s, strip);
    if t != [] {
      assert !strip(t[0]);
      assert DropTrailing(t, strip) != [] by {
        if DropTrailing(t, strip) == [] {
          DropTrailingKeepsFirst(t, strip);
        }
      }
    }
  }

  lemma {:induction false} DropTrailingKeepsFirst(t: string, strip: char -> bool)
    requires t != [] && !strip(t[0])
    ensures DropTrailing(t, strip) != []
  {
    if strip(t[|t| - 1]) {
      DropTrailingKeepsFirst(t[..|t| - 1], strip);
    }
  }

  /** `s.trim().isEmpty()` in Java holds exactly for strings of characters up to U+0020. */
  lemma JavaTrimEmpty(s: string)
    ensures JavaTrim(s) == [] <==> forall i | 0 <= i < |s| :: s[i] <= ' '
  {
    StripEmpty(s, IsJavaTrimmable);
  }

  /** `s.trim()` is falsy in JavaScript exactly for strings of white space. */
  lemma JsTrimEmpty(s: string)
    ensures JsTrim(s) == [] <==> forall i | 0 <= i < |s| :: IsJsWhitespace(s[i])
  {
    StripEmpty(s, IsJsWhitespace);
  }

  predicate StartsWith(s: string, prefix: string) {
    prefix <= s
  }

  /** `lastIndexOf(c)`: the highest index holding `c`, or -1. */
  function LastIndexOf(s: string, c: char): (r: int)
    ensures -1 <= r < |s|
    ensures r >= 0 ==> s[r] == c
    ensures forall i | r < i < |s| :: s[i] != c
  {
    if s == [] then -1
    else if s[|s| - 1] == c then |s| - 1
    else LastIndexOf(s[..|s| - 1], c)
  }

  /** Lower-cases ASCII letters and leaves every other character as it is. */
  function ToLower(s: string): (r: string)
    ensures |r| == |s|
  {
    seq(|s|, i requires 0 <= i < |s| => if 'A' <= s[i] <= 'Z' then (s[i] as int + 32) as char else s[i])
  }

  /** `Collectors.joining(sep)`: the parts in order, `sep` between neighbours. */
  function Join(parts: seq<string>, sep: string): string {
    if parts == [] then ""
    else if |parts| == 1 then parts[0]
    else parts[0] + sep + Join(parts[1..], sep)
  }

  /** Appending a part appends the separator and the part, which is what makes the join order-preserving. */
  lemma {:induction false} JoinSnoc(parts: seq<string>, last: string, sep: string)
    requires parts != []
    ensures Join(parts + [last], sep) == Join(parts, sep) + sep + last
  {
    if |parts| == 1 {
      assert parts + [last] == [parts[0], last];
      assert [parts[0], last][1..] == [last];
    } else {
      assert (parts + [last])[1..] == parts[1..] + [last];
      JoinSnoc(parts[1..], last, sep);
    }
  }
}
