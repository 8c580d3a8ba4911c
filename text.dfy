/**
 * The JavaScript string operations the chat client relies on:
 * `trim()` (src/components/ChatInput.tsx, src/lib/api.ts),
 * `split("\n")` (src/lib/api.ts), `toLowerCase()` and `includes()`
 * (src/components/ToolCallCard.tsx). Each is given a reference
 * characterisation, so that callers reason about what the operation means
 * rather than how it walks the string.
 */
module Text {

  /**
   * The characters `String.prototype.trim` removes: the ECMAScript
   * WhiteSpace set (tab, vertical tab, form feed, space, no-break space,
   * the byte-order mark and the Unicode space separators) together with the
   * LineTerminator set (line feed, carriage return, line and paragraph
   * separator).
   */
  predicate IsWhitespace(c: char) {
    || c == '\t' || c == '\n' || c == '\U{B}' || c == '\U{C}' || c == '\r' || c == ' '
    || c == '\U{A0}' || c == '\U{1680}' || ('\U{2000}' <= c <= '\U{200A}')
    || c == '\U{2028}' || c == '\U{2029}' || c == '\U{202F}' || c == '\U{205F}'
    || c == '\U{3000}' || c == '\U{FEFF}'
  }

  /** Every character of `s` is whitespace (the empty string included). */
  predicate Blank(s: string) {
    forall k :: 0 <= k < |s| ==> IsWhitespace(s[k])
  }

  /** The number of whitespace characters at the front of `s`. */
  function LeadingSpace(s: string): (i: nat)
    ensures i <= |s|
    ensures forall k :: 0 <= k < i ==> IsWhitespace(s[k])
    ensures i < |s| ==> !IsWhitespace(s[i])
  {
    if s == [] || !IsWhitespace(s[0]) then 0 else 1 + LeadingSpace(s[1..])
  }

  /** The index where the run of whitespace at the back of `s` begins. */
  function TrailingStart(s: string): (j: nat)
    ensures j <= |s|
    ensures forall k :: j <= k < |s| ==> IsWhitespace(s[k])
    ensures 0 < j ==> !IsWhitespace(s[j - 1])
  {
    if s == [] || !IsWhitespace(s[|s| - 1]) then |s| else TrailingStart(s[..|s| - 1])
  }

  /**
   * `s.trim()`: the longest factor of `s` that neither starts nor ends with
   * whitespace, once only whitespace has been cut from both ends.
   */
  function Trim(s: string): (r: string)
    ensures r == "" <==> Blank(s)
  {
    var i := LeadingSpace(s);
    if i == |s| then ""
    else
      var j := TrailingStart(s);
      assert i < j;
      s[i..j]
  }

  /**
   * What `Trim` keeps: a factor of `s` that neither starts nor ends with
   * whitespace, with only whitespace cut away on either side.
   */
  lemma TrimIsFactor(s: string)
    ensures var r := Trim(s);
      && (r != "" ==> !IsWhitespace(r[0]) && !IsWhitespace(r[|r| - 1]))
      && exists i :: 0 <= i <= |s| - |r| && r == s[i..i + |r|] && Blank(s[..i]) && Blank(s[i + |r|..])
  {
    var i := LeadingSpace(s);
    if i == |s| {
      assert s[..0] == [] && s[0..] == s;
    } else {
      var j := TrailingStart(s);
      assert Blank(s[..i]) && Blank(s[j..]);
      assert Trim(s) == s[i..j];
    }
  }

  /** Trimming twice is trimming once. */
  lemma TrimIdempotent(s: string)
    ensures Trim(Trim(s)) == Trim(s)
  {
    var r := Trim(s);
    TrimIsFactor(s);
    if r != "" {
      assert LeadingSpace(r) == 0;
      assert TrailingStart(r) == |r|;
      assert r[0..|r|] == r;
    }
  }

  /** `LeadingSpace` is the only index with whitespace before it and none at it. */
  lemma LeadingSpaceUnique(s: string, i: nat)
    requires i <= |s|
    requires forall k :: 0 <= k < i ==> IsWhitespace(s[k])
    requires i < |s| ==> !IsWhitespace(s[i])
    ensures LeadingSpace(s) == i
  {
  }

  /** `TrailingStart` is the only index with whitespace after it and none before it. */
  lemma TrailingStartUnique(s: string, j: nat)
    requires j <= |s|
    requires forall k :: j <= k < |s| ==> IsWhitespace(s[k])
    requires 0 < j ==> !IsWhitespace(s[j - 1])
    ensures TrailingStart(s) == j
  {
  }

  lemma BlankConcat(a: string, b: string)
    requires Blank(a) && Blank(b)
    ensures Blank(a + b)
  {
    forall k | 0 <= k < |a + b| ensures IsWhitespace((a + b)[k]) {
      if k >= |a| { assert (a + b)[k] == b[k - |a|]; }
    }
  }

  lemma LeadingSpaceAfterMargin(pre: string, s: string, post: string)
    requires Blank(pre) && !Blank(s)
    ensures LeadingSpace(pre + s + post) == |pre| + LeadingSpace(s)
  {
    var x, i := pre + s + post, LeadingSpace(s);
    forall k | 0 <= k < |pre| + i ensures IsWhitespace(x[k]) {
      if k < |pre| { assert x[k] == pre[k]; } else { assert x[k] == s[k - |pre|]; }
    }
    assert x[|pre| + i] == s[i];
    LeadingSpaceUnique(x, |pre| + i);
  }

  lemma TrailingStartBeforeMargin(pre: string, s: string, post: string)
    requires Blank(post) && !Blank(s)
    ensures TrailingStart(pre + s + post) == |pre| + TrailingStart(s)
  {
    var x, j := pre + s + post, TrailingStart(s);
    forall k | |pre| + j <= k < |x| ensures IsWhitespace(x[k]) {
      if k < |pre| + |s| { assert x[k] == s[k - |pre|]; } else { assert x[k] == post[k - |pre| - |s|]; }
    }
    assert x[|pre| + j - 1] == s[j - 1];
    TrailingStartUnique(x, |pre| + j);
  }

  lemma TrimInsideMargins(pre: string, s: string, post: string)
    requires Blank(pre) && Blank(post) && !Blank(s)
    ensures Trim(pre + s + post) == Trim(s)
  {
    LeadingSpaceAfterMargin(pre, s, post);
    TrailingStartBeforeMargin(pre, s, post);
    NotBlankSurrounded(pre, s, post);
    TrimOfNonBlank(pre + s + post);
    TrimOfNonBlank(s);
    MiddleSlice(pre, s, post, LeadingSpace(s), TrailingStart(s));
  }

  lemma TrimOfNonBlank(s: string)
    requires !Blank(s)
    ensures LeadingSpace(s) < TrailingStart(s)
    ensures Trim(s) == s[LeadingSpace(s)..TrailingStart(s)]
  {
  }

  lemma MiddleSlice(pre: string, s: string, post: string, i: nat, j: nat)
    requires i <= j <= |s|
    ensures (pre + s + post)[|pre| + i..|pre| + j] == s[i..j]
  {
  }

  lemma NotBlankSurrounded(pre: string, s: string, post: string)
    requires !Blank(s)
    ensures !Blank(pre + s + post)
  {
    var k :| 0 <= k < |s| && !IsWhitespace(s[k]);
    assert (pre + s + post)[|pre| + k] == s[k];
  }

  /** A string with a non-whitespace character keeps it when extended. */
  lemma NotBlankExtended(a: string, b: string)
    requires !Blank(a)
    ensures !Blank(a + b)
  {
    var k :| 0 <= k < |a| && !IsWhitespace(a[k]);
    assert (a + b)[k] == a[k];
  }

  /** Whitespace margins around a string are all that trimming removes. */
  lemma TrimMargins(pre: string, s: string, post: string)
    requires Blank(pre) && Blank(post)
    ensures Trim(pre + s + post) == Trim(s)
  {
    if Blank(s) {
      BlankConcat(pre, s);
      BlankConcat(pre + s, post);
    } else {
      TrimInsideMargins(pre, s, post);
    }
  }

  /**
   * `s.split(sep)` for a one-character separator: the maximal pieces between
   * separators, so that n separators give n + 1 pieces (the empty string
   * gives one empty piece).
   */
  function Split(s: string, sep: char): (r: seq<string>)
    ensures |r| >= 1
  {
    if s == [] then [[]]
    else
      var rest := Split(s[1..], sep);
      if s[0] == sep then [[]] + rest else [[s[0]] + rest[0]] + rest[1..]
  }

  /** `parts.join(sep)`: the pieces with one separator between neighbours. */
  function Join(parts: seq<string>, sep: char): string {
    if parts == [] then []
    else if |parts| == 1 then parts[0]
    else parts[0] + [sep] + Join(parts[1..], sep)
  }

  /** Joining the pieces of a split gives back the string. */
  lemma {:induction false} JoinSplit(s: string, sep: char)
    ensures Join(Split(s, sep), sep) == s
  {
    if s != [] {
      JoinSplit(s[1..], sep);
      var rest := Split(s[1..], sep);
      if s[0] == sep {
        assert ([[]] + rest)[1..] == rest;
      } else if |rest| == 1 {
        assert s == [s[0]] + rest[0];
      } else {
        var r := [[s[0]] + rest[0]] + rest[1..];
        assert r[1..] == rest[1..];
        assert Join(rest, sep) == rest[0] + [sep] + Join(rest[1..], sep);
        assert s == [s[0]] + s[1..];
      }
    }
  }

  /** A string without the separator is a single piece. */
  lemma {:induction false} SplitWithoutSeparator(s: string, sep: char)
    requires sep !in s
    ensures Split(s, sep) == [s]
  {
    if s != [] {
      assert sep !in s[1..];
      SplitWithoutSeparator(s[1..], sep);
      assert s == [s[0]] + s[1..];
    }
  }

  /**
   * Splitting at a separator splits the pieces independently: what lies
   * before the separator never merges with what lies after it.
   */
  lemma {:induction false} SplitAtSeparator(a: string, b: string, sep: char)
    ensures Split(a + [sep] + b, sep) == Split(a, sep) + Split(b, sep)
  {
    if a == [] {
      assert a + [sep] + b == [sep] + b;
      SplitCons(sep, b, sep);
    } else {
      SplitAtSeparator(a[1..], b, sep);
      SplitAtSeparatorStep(a[0], a[1..], b, sep);
      assert a == [a[0]] + a[1..];
    }
  }

  /** The inductive step of `SplitAtSeparator`: one more character in front. */
  lemma SplitAtSeparatorStep(c: char, tail: string, b: string, sep: char)
    requires Split(tail + [sep] + b, sep) == Split(tail, sep) + Split(b, sep)
    ensures Split([c] + tail + [sep] + b, sep) == Split([c] + tail, sep) + Split(b, sep)
  {
    var ra, rb := Split(tail, sep), Split(b, sep);
    assert [[]] + (ra + rb) == ([[]] + ra) + rb;
    var x := tail + [sep] + b;
    assert [c] + tail + [sep] + b == [c] + x;
    SplitCons(c, x, sep);
    SplitCons(c, tail, sep);
    if c != sep {
      PiecesAssoc(c, ra, rb);
    }
  }

  lemma PiecesAssoc(c: char, ra: seq<string>, rb: seq<string>)
    requires |ra| >= 1
    ensures [[c] + (ra + rb)[0]] + (ra + rb)[1..] == ([[c] + ra[0]] + ra[1..]) + rb
  {
    assert (ra + rb)[1..] == ra[1..] + rb;
  }

  /** No piece of a split holds the separator. */
  lemma {:induction false} SplitPiecesLackSeparator(s: string, sep: char)
    ensures forall k :: 0 <= k < |Split(s, sep)| ==> sep !in Split(s, sep)[k]
  {
    if s != [] {
      SplitPiecesLackSeparator(s[1..], sep);
    }
  }

  /** Splitting a string that starts with `c`. */
  lemma SplitCons(c: char, s: string, sep: char)
    ensures var rest := Split(s, sep);
      Split([c] + s, sep) == if c == sep then [[]] + rest else [[c] + rest[0]] + rest[1..]
  {
    assert ([c] + s)[1..] == s;
  }

  /** Splitting a join of separator-free pieces gives back the pieces. */
  lemma {:induction false} SplitJoin(parts: seq<string>, sep: char)
    requires |parts| >= 1
    requires forall k :: 0 <= k < |parts| ==> sep !in parts[k]
    ensures Split(Join(parts, sep), sep) == parts
  {
    SplitWithoutSeparator(parts[0], sep);
    if |parts| > 1 {
      SplitJoin(parts[1..], sep);
      SplitAtSeparator(parts[0], Join(parts[1..], sep), sep);
      assert parts == [parts[0]] + parts[1..];
    }
  }

  /** `toLowerCase()` of one character (ASCII letters only). */
  function LowerChar(c: char): char {
    if 'A' <= c <= 'Z' then (c as int + 32) as char else c
  }

  /** `toUpperCase()` of one character (ASCII letters only). */
  function UpperChar(c: char): char {
    if 'a' <= c <= 'z' then (c as int - 32) as char else c
  }

  function ToLower(s: string): (r: string)
    ensures |r| == |s|
    ensures forall k :: 0 <= k < |s| ==> !('A' <= r[k] <= 'Z')
    ensures forall k :: 0 <= k < |s| ==> r[k] == s[k] || (s[k] as int) - (r[k] as int) == 'A' as int - 'a' as int
    ensures forall k :: 0 <= k < |s| ==> !('A' <= s[k] <= 'Z') ==> r[k] == s[k]
  {
    seq(|s|, k requires 0 <= k < |s| => LowerChar(s[k]))
  }

  function ToUpper(s: string): (r: string)
    ensures |r| == |s|
    ensures forall k :: 0 <= k < |s| ==> !('a' <= r[k] <= 'z')
  {
    seq(|s|, k requires 0 <= k < |s| => UpperChar(s[k]))
  }

  /** Lower-casing an upper-cased string is lower-casing it: case is forgotten. */
  lemma LowerOfUpper(s: string)
    ensures ToLower(ToUpper(s)) == ToLower(s)
  {
    assert forall k :: 0 <= k < |s| ==> LowerChar(UpperChar(s[k])) == LowerChar(s[k]);
  }

  lemma LowerIdempotent(s: string)
    ensures ToLower(ToLower(s)) == ToLower(s)
  {
  }

  /** `p` is a prefix of `s`. */
  predicate StartsWith(s: string, p: string) {
    |p| <= |s| && s[..|p|] == p
  }

  /** `sub` occurs in `s` starting at index `i`. */
  predicate OccursAt(s: string, sub: string, i: int) {
    0 <= i && i + |sub| <= |s| && s[i..i + |sub|] == sub
  }

  /** `s.includes(sub)`, tried at each starting position in turn. */
  predicate Contains(s: string, sub: string)
    ensures Contains(s, sub) ==> |sub| <= |s|
    decreases |s|
  {
    StartsWith(s, sub) || (s != [] && Contains(s[1..], sub))
  }

  /** `Contains` holds exactly when `sub` occurs somewhere in `s`. */
  lemma {:induction false} ContainsIffOccurs(s: string, sub: string)
    ensures Contains(s, sub) <==> exists i :: OccursAt(s, sub, i)
  {
    if StartsWith(s, sub) {
      assert OccursAt(s, sub, 0);
    } else if s == [] {
      assert forall i :: !OccursAt(s, sub, i);
    } else {
      ContainsIffOccurs(s[1..], sub);
      forall i | OccursAt(s[1..], sub, i) ensures OccursAt(s, sub, i + 1) {
        assert s[i + 1..i + 1 + |sub|] == s[1..][i..i + |sub|];
      }
      forall i | OccursAt(s, sub, i) ensures OccursAt(s[1..], sub, i - 1) {
        assert i != 0;
        assert s[1..][i - 1..i - 1 + |sub|] == s[i..i + |sub|];
      }
    }
  }

  /** Whatever contains a word contains each prefix of that word. */
  lemma {:induction false} ContainsPrefixOf(s: string, word: string, prefix: string)
    requires StartsWith(word, prefix)
    requires Contains(s, word)
    ensures Contains(s, prefix)
  {
    if StartsWith(s, word) {
      assert s[..|prefix|] == word[..|prefix|];
    } else {
      ContainsPrefixOf(s[1..], word, prefix);
    }
  }
}
