/** The three JavaScript string operations the encoder-path and format
    decisions depend on: `String.prototype.trim`, `split` on a single
    character, and `includes`. Strings are sequences of code points. */
module JsStrings {

  import opened Results

  /** ECMAScript WhiteSpace and LineTerminator code points, the set that
      `trim` removes: TAB, LF, VT, FF, CR, SPACE, NBSP, OGHAM SPACE MARK,
      EN QUAD .. HAIR SPACE, LINE and PARAGRAPH SEPARATOR, NARROW NBSP,
      MEDIUM MATHEMATICAL SPACE, IDEOGRAPHIC SPACE and the BOM. */
  predicate IsJsWhitespace(c: char) {
    var n := c as int;
    || 0x09 <= n <= 0x0D
    || n == 0x20 || n == 0xA0 || n == 0x1680
    || 0x2000 <= n <= 0x200A
    || n == 0x2028 || n == 0x2029 || n == 0x202F || n == 0x205F
    || n == 0x3000 || n == 0xFEFF
  }

  /** Every character of `s` in `[lo, hi)` is whitespace. */
  ghost predicate WhitespaceBetween(s: string, lo: int, hi: int) {
    forall i :: lo <= i < hi && 0 <= i < |s| ==> IsJsWhitespace(s[i])
  }

  /** End of the whitespace run that starts at `i`. */
  function SkipLeading(s: string, i: nat): (n: nat)
    requires i <= |s|
    ensures i <= n <= |s|
    ensures WhitespaceBetween(s, i, n)
    ensures n < |s| ==> !IsJsWhitespace(s[n])
    decreases |s| - i
  {
    if i < |s| && IsJsWhitespace(s[i]) then SkipLeading(s, i + 1) else i
  }

  /** Start of the whitespace run that ends at `j`, not going below `lo`. */
  function SkipTrailing(s: string, lo: nat, j: nat): (m: nat)
    requires lo <= j <= |s|
    ensures lo <= m <= j
    ensures WhitespaceBetween(s, m, j)
    ensures m > lo ==> !IsJsWhitespace(s[m - 1])
    decreases j
  {
    if j > lo && IsJsWhitespace(s[j - 1]) then SkipTrailing(s, lo, j - 1) else j
  }

  /** `r` is a slice of `s` with only whitespace around it in `s`. */
  ghost predicate IsWhitespaceBordered(r: string, s: string) {
    exists a :: 0 <= a && a + |r| <= |s| && r == s[a..a + |r|]
                && WhitespaceBetween(s, 0, a) && WhitespaceBetween(s, a + |r|, |s|)
  }

  /** `s.trim()`: the slice of `s` left after removing whitespace at both ends. */
  function Trim(s: string): (r: string)
    ensures IsWhitespaceBordered(r, s)
    ensures |r| > 0 ==> !IsJsWhitespace(r[0]) && !IsJsWhitespace(r[|r| - 1])
  {
    var a := SkipLeading(s, 0);
    var b := SkipTrailing(s, a, |s|);
    assert s[a..b] == s[a..a + |s[a..b]|];
    s[a..b]
  }

  /** Trimming never introduces a character. */
  lemma TrimKeepsAbsent(s: string, c: char)
    requires c !in s
    ensures c !in Trim(s)
  {
    var a := SkipLeading(s, 0);
    var b := SkipTrailing(s, a, |s|);
    assert Trim(s) == s[a..b];
    assert forall i :: 0 <= i < |s| ==> s[i] != c;
    assert forall i :: 0 <= i < b - a ==> s[a..b][i] != c;
  }

  /** The characterisation of `trim` is unique: any slice of `s` that is
      bordered by whitespace only and has no whitespace at its own ends
      is the trimmed string. */
  lemma TrimIsUnique(s: string, a: nat, b: nat)
    requires a <= b <= |s|
    requires WhitespaceBetween(s, 0, a) && WhitespaceBetween(s, b, |s|)
    requires a < b ==> !IsJsWhitespace(s[a]) && !IsJsWhitespace(s[b - 1])
    ensures Trim(s) == s[a..b]
  {
    var n := SkipLeading(s, 0);
    if a < b {
      assert !(n < a) && !(a < n);
      var m := SkipTrailing(s, a, |s|);
      assert !(m < b) && !(b < m);
    } else {
      assert !(n < |s|);
    }
  }

  /** A carriage return after a string with clean ends is trimmed away. */
  lemma TrimDropsCarriageReturn(first: string)
    requires |first| > 0 ==> !IsJsWhitespace(first[0]) && !IsJsWhitespace(first[|first| - 1])
    ensures Trim(first + "\r") == first
  {
    var line := first + "\r";
    assert IsJsWhitespace(line[|first|]);
    TrimIsUnique(line, 0, |first|);
    assert line[0..|first|] == first;
  }

  /** Position of the first occurrence of `c` in `s`, if any. */
  function IndexOf(s: string, c: char): (r: Option<nat>)
    ensures r.None? <==> c !in s
    ensures r.Some? ==> r.value < |s| && s[r.value] == c && c !in s[..r.value]
  {
    if |s| == 0 then None
    else if s[0] == c then Some(0)
    else
      match IndexOf(s[1..], c)
      case None => None
      case Some(k) =>
        assert s[..k + 1] == [s[0]] + s[1..][..k];
        Some(k + 1)
  }

  /** `s.split(sep)` for a one-character separator: the pieces between
      separators, always at least one (`"".split(sep)` is `[""]`). */
  function Split(s: string, sep: char): (parts: seq<string>)
    ensures |parts| >= 1
    ensures forall i :: 0 <= i < |parts| ==> sep !in parts[i]
    ensures |parts[0]| <= |s| && parts[0] == s[..|parts[0]|]
    ensures |parts[0]| < |s| ==> s[|parts[0]|] == sep
    decreases |s|
  {
    match IndexOf(s, sep)
    case None => [s]
    case Some(k) => [s[..k]] + Split(s[k + 1..], sep)
  }

  /** `parts.join(sep)`. */
  function Join(parts: seq<string>, sep: char): string
    requires |parts| >= 1
  {
    if |parts| == 1 then parts[0] else parts[0] + [sep] + Join(parts[1..], sep)
  }

  /** One step of `Split`: the piece before the first separator, then the
      split of the rest. */
  lemma SplitAt(s: string, sep: char, k: nat)
    requires IndexOf(s, sep) == Some(k)
    ensures Split(s, sep) == [s[..k]] + Split(s[k + 1..], sep)
  {
  }

  /** One step of `Join`. */
  lemma JoinCons(p: string, rest: seq<string>, sep: char)
    requires |rest| >= 1
    ensures Join([p] + rest, sep) == p + [sep] + Join(rest, sep)
  {
    assert ([p] + rest)[1..] == rest;
  }

  /** Joining the pieces back with the separator restores the string. */
  lemma {:induction false} JoinSplit(s: string, sep: char)
    ensures Join(Split(s, sep), sep) == s
    decreases |s|
  {
    match IndexOf(s, sep)
    case None =>
    case Some(k) =>
      var rest := Split(s[k + 1..], sep);
      SplitAt(s, sep, k);
      JoinCons(s[..k], rest, sep);
      JoinSplit(s[k + 1..], sep);
      assert s[..k] + [sep] + s[k + 1..] == s;
  }

  /** `IndexOf` finds the first occurrence. */
  lemma IndexOfFirst(s: string, c: char, k: nat)
    requires k < |s| && s[k] == c && c !in s[..k]
    ensures IndexOf(s, c) == Some(k)
  {
    assert c in s;
    var j := IndexOf(s, c).value;
    assert forall i :: 0 <= i < k ==> s[..k][i] == s[i];
    assert !(j < k);
    assert forall i :: 0 <= i < j ==> s[..j][i] == s[i];
    assert !(k < j);
  }

  /** Splitting a join of separator-free pieces gives the pieces back. */
  lemma {:induction false} SplitJoin(parts: seq<string>, sep: char)
    requires |parts| >= 1
    requires forall i :: 0 <= i < |parts| ==> sep !in parts[i]
    ensures Split(Join(parts, sep), sep) == parts
    decreases |parts|
  {
    if |parts| > 1 {
      var rest := Join(parts[1..], sep);
      var s := parts[0] + [sep] + rest;
      var p := |parts[0]|;
      assert Join(parts, sep) == s;
      assert s[..p] == parts[0];
      assert sep !in parts[0];
      IndexOfFirst(s, sep, p);
      SplitAt(s, sep, p);
      assert s[p + 1..] == rest;
      SplitJoin(parts[1..], sep);
      assert parts == [parts[0]] + parts[1..];
    } else {
      assert sep !in parts[0];
    }
  }

  /** `s.split('\n')[0]`: the text before the first line feed. */
  function FirstLine(s: string): (line: string)
    ensures '\n' !in line
    ensures |line| <= |s| && line == s[..|line|]
    ensures |line| < |s| ==> s[|line|] == '\n'
    ensures '\n' !in s ==> line == s
  {
    Split(s, '\n')[0]
  }

  /** The first line of `before + "\n" + after` is `before` when `before`
      holds no line feed. */
  lemma FirstLineOf(before: string, after: string)
    requires '\n' !in before
    ensures FirstLine(before + "\n" + after) == before
  {
    var s := before + "\n" + after;
    assert s[..|before|] == before;
    IndexOfFirst(s, '\n', |before|);
    SplitAt(s, '\n', |before|);
  }

  ghost predicate OccursAt(text: string, pattern: string, i: int) {
    0 <= i && i + |pattern| <= |text| && text[i..i + |pattern|] == pattern
  }

  /** `pattern` is a substring of `text`. */
  ghost predicate IsSubstring(pattern: string, text: string) {
    exists i :: OccursAt(text, pattern, i)
  }

  /** An occurrence past the first position is an occurrence in the tail. */
  lemma OccursInTail(text: string, pattern: string, i: int)
    requires |text| > 0 && i >= 1
    ensures OccursAt(text, pattern, i) <==> OccursAt(text[1..], pattern, i - 1)
  {
    if i + |pattern| <= |text| {
      assert text[1..][i - 1..i - 1 + |pattern|] == text[i..i + |pattern|];
    }
  }

  /** `text.includes(pattern)`. */
  function Includes(text: string, pattern: string): (b: bool)
    ensures b <==> IsSubstring(pattern, text)
    decreases |text|
  {
    if |pattern| <= |text| && text[..|pattern|] == pattern then
      assert OccursAt(text, pattern, 0);
      true
    else if |text| == 0 then
      assert forall i :: !OccursAt(text, pattern, i);
      false
    else
      var rest := Includes(text[1..], pattern);
      assert !OccursAt(text, pattern, 0);
      assert forall i :: i >= 1 ==> (OccursAt(text, pattern, i) <==> OccursAt(text[1..], pattern, i - 1)) by {
        forall i | i >= 1 { OccursInTail(text, pattern, i); }
      }
      if rest then
        assert IsSubstring(pattern, text) by {
          var i :| OccursAt(text[1..], pattern, i);
          assert OccursAt(text, pattern, i + 1);
        }
        true
      else
        assert forall i :: !OccursAt(text, pattern, i) by {
          forall i ensures !OccursAt(text, pattern, i) {
            if i >= 1 { assert !OccursAt(text[1..], pattern, i - 1); }
          }
        }
        false
  }
}
