/**
 * The handful of JavaScript string operations the icon service relies on,
 * written out over `seq<char>`: `includes`, `indexOf`, `split(/[-_]/)`,
 * `join`, `trim`-style whitespace, ASCII case mapping and the decimal
 * rendering of a non-negative number in a template literal.
 */
module Text {

  datatype Option<T> = None | Some(value: T)

  /** `sub` occurs in `s` starting at position `i`. */
  predicate OccursAt(s: string, sub: string, i: int)
  {
    0 <= i && i + |sub| <= |s| && s[i..i + |sub|] == sub
  }

  /** `s.includes(sub)`: `sub` occurs in `s` at some position. */
  function Includes(s: string, sub: string): (r: bool)
    ensures r <==> exists i :: OccursAt(s, sub, i)
    decreases |s|
  {
    if |sub| > |s| then false
    else if s[..|sub|] == sub then assert OccursAt(s, sub, 0); true
    else
      var r := Includes(s[1..], sub);
      assert forall i :: OccursAt(s[1..], sub, i) <==> OccursAt(s, sub, i + 1);
      assert !OccursAt(s, sub, 0);
      assert forall i :: OccursAt(s, sub, i) && i != 0 ==> OccursAt(s[1..], sub, i - 1);
      r
  }

  /** Every character of an included string occurs in the text. */
  lemma IncludesHasChars(s: string, sub: string, c: char)
    requires Includes(s, sub) && c in sub
    ensures c in s
  {
    var i :| OccursAt(s, sub, i);
    var j :| 0 <= j < |sub| && sub[j] == c;
    assert s[i + j] == c;
  }

  /** Shows `!s.includes(sub)` from a character of `sub` that `s` lacks. */
  lemma Excludes(s: string, sub: string, c: char)
    requires c in sub && c !in s
    ensures !Includes(s, sub)
  {
    if Includes(s, sub) { IncludesHasChars(s, sub, c); }
  }

  /** `libs.some(lib => s.includes(lib))`. */
  function IncludesAny(s: string, libs: seq<string>): (r: bool)
    ensures r <==> exists k :: 0 <= k < |libs| && Includes(s, libs[k])
  {
    if libs == [] then false
    else Includes(s, libs[0]) || IncludesAny(s, libs[1..])
  }

  /** Position of the first `c` in `s`, or `|s|` when there is none. */
  function IndexOf(s: string, c: char): (r: nat)
    ensures r <= |s|
    ensures r < |s| ==> s[r] == c
    ensures forall j :: 0 <= j < r ==> s[j] != c
    ensures r == |s| <==> c !in s
  {
    if s == [] then 0
    else if s[0] == c then 0
    else 1 + IndexOf(s[1..], c)
  }

  /** `IndexOf` is determined by its contract: the first position holding `c`, else `|s|`. */
  lemma IndexOfIs(s: string, c: char, k: nat)
    requires k <= |s| && (k < |s| ==> s[k] == c)
    requires forall j :: 0 <= j < k ==> s[j] != c
    ensures IndexOf(s, c) == k
  {
  }

  /** `s.split(c)[0]`: the text before the first `c` (all of `s` when there is none). */
  function BeforeFirst(s: string, c: char): (r: string)
    ensures c !in r
    ensures |r| <= |s| && s[..|r|] == r
    ensures |r| < |s| ==> s[|r|] == c
  {
    s[..IndexOf(s, c)]
  }

  /** The text before the first `c` ends where `c` first occurs. */
  lemma BeforeFirstIs(s: string, c: char, k: nat)
    requires k < |s| && s[k] == c && c !in s[..k]
    ensures BeforeFirst(s, c) == s[..k]
  {
    assert forall j :: 0 <= j < k ==> s[j] == s[..k][j];
    IndexOfIs(s, c, k);
  }

  /** `s.replace(c, d)` with a one-character string pattern: only the first `c` is replaced. */
  function ReplaceFirst(s: string, c: char, d: char): (r: string)
    ensures |r| == |s|
    ensures forall k :: 0 <= k < |s| ==> r[k] == (if k == IndexOf(s, c) then d else s[k])
  {
    var i := IndexOf(s, c);
    if i == |s| then s else s[..i] + [d] + s[i + 1..]
  }

  // ---------------------------------------------------------------------------
  // split(/[-_]/) and join

  predicate IsSep(c: char) { c == '-' || c == '_' }

  predicate NoSep(p: string) { forall i :: 0 <= i < |p| ==> !IsSep(p[i]) }

  /**
   * `s.split(/[-_]/)` with JavaScript's semantics: the empty string gives one
   * empty segment, and adjacent, leading or trailing separators give empty
   * segments.
   */
  function SplitSeps(s: string): (parts: seq<string>)
    ensures |parts| >= 1
    ensures forall k :: 0 <= k < |parts| ==> NoSep(parts[k])
    decreases |s|
  {
    if s == [] then [[]]
    else
      var rest := SplitSeps(s[1..]);
      if IsSep(s[0]) then [[]] + rest
      else [[s[0]] + rest[0]] + rest[1..]
  }

  /** `parts.join(sep)`. */
  function JoinWith(parts: seq<string>, sep: string): string
  {
    if |parts| == 0 then ""
    else if |parts| == 1 then parts[0]
    else parts[0] + sep + JoinWith(parts[1..], sep)
  }

  /** Concatenation of all parts (`parts.join('')`). */
  function Concat(parts: seq<string>): string
  {
    if parts == [] then "" else parts[0] + Concat(parts[1..])
  }

  /** `parts.filter(Boolean)` on strings: the non-empty parts, in order. */
  function NonEmpty(parts: seq<string>): (r: seq<string>)
    ensures forall k :: 0 <= k < |r| ==> r[k] != [] && r[k] in parts
    ensures forall p :: p in parts && p != [] ==> p in r
    ensures |r| <= |parts|
  {
    if parts == [] then []
    else if parts[0] == [] then NonEmpty(parts[1..])
    else [parts[0]] + NonEmpty(parts[1..])
  }

  /** Filtering keeps order and multiplicity: it distributes over concatenation, one part at a time. */
  lemma {:induction false} NonEmptyAppend(a: seq<string>, b: seq<string>)
    ensures NonEmpty(a + b) == NonEmpty(a) + NonEmpty(b)
    ensures NonEmpty([]) == [] && forall p :: NonEmpty([p]) == (if p == [] then [] else [p])
  {
    if a != [] {
      var x, t := a[0], a[1..];
      var head := if x == [] then [] else [x];
      assert (a + b)[0] == x && (a + b)[1..] == t + b;
      NonEmptyAppend(t, b);
      assert NonEmpty(a + b) == head + NonEmpty(t + b);
      assert NonEmpty(a) == head + NonEmpty(t);
      ConcatAssoc(head, NonEmpty(t), NonEmpty(b));
    } else {
      assert a + b == b;
    }
    forall p ensures NonEmpty([p]) == (if p == [] then [] else [p]) {
      assert [p][1..] == [];
    }
  }

  /** A word without separators is its own single segment. */
  lemma {:induction false} SplitWord(x: string)
    requires NoSep(x)
    ensures SplitSeps(x) == [x]
    decreases |x|
  {
    if x != [] {
      SplitWord(x[1..]);
      assert [x[0]] + x[1..] == x;
    }
  }

  /** A separator splits the text into the segments of the part before it followed by those of the part after it. */
  lemma {:induction false} SplitAtSep(a: string, c: char, b: string)
    requires IsSep(c)
    ensures SplitSeps(a + [c] + b) == SplitSeps(a) + SplitSeps(b)
    decreases |a|
  {
    if a == [] {
      assert a + [c] + b == [c] + b;
      SplitCons(c, b);
    } else {
      var x, t := a[0], a[1..];
      assert a == [x] + t;
      assert a + [c] + b == [x] + (t + [c] + b);
      SplitCons(x, t + [c] + b);
      SplitCons(x, t);
      SplitAtSep(t, c, b);
      ConsPartAppend(x, SplitSeps(t), SplitSeps(b));
    }
  }

  /** How the first part of a split absorbs a leading character, whatever follows the split. */
  lemma ConsPartAppend(x: char, st: seq<string>, sb: seq<string>)
    requires |st| >= 1
    ensures [[]] + (st + sb) == ([[]] + st) + sb
    ensures [[x] + (st + sb)[0]] + (st + sb)[1..] == ([[x] + st[0]] + st[1..]) + sb
  {
    assert (st + sb)[0] == st[0] && (st + sb)[1..] == st[1..] + sb;
  }

  /** One unfolding of `SplitSeps` on a text that starts with `x`. */
  lemma SplitCons(x: char, t: string)
    ensures SplitSeps([x] + t)
      == if IsSep(x) then [[]] + SplitSeps(t) else [[x] + SplitSeps(t)[0]] + SplitSeps(t)[1..]
  {
    assert ([x] + t)[0] == x && ([x] + t)[1..] == t;
  }

  /** `s` with every `_` written as `-`: what joining the `-`/`_` segments with `-` gives back. */
  function DashSeps(s: string): string
  {
    seq(|s|, i requires 0 <= i < |s| => if IsSep(s[i]) then '-' else s[i])
  }

  /** `s` with every `-` and `_` removed. */
  function RemoveSeps(s: string): string
  {
    if s == [] then [] else (if IsSep(s[0]) then [] else [s[0]]) + RemoveSeps(s[1..])
  }

  lemma JoinCons(x: string, parts: seq<string>, sep: string)
    requires |parts| >= 1
    ensures JoinWith([x] + parts, sep) == x + sep + JoinWith(parts, sep)
  {
    assert ([x] + parts)[1..] == parts;
  }

  /** Joining the `-`/`_` segments back with `-` restores the text, up to writing `_` as `-`. */
  lemma {:induction false} SplitJoinRoundTrip(s: string)
    ensures JoinWith(SplitSeps(s), "-") == DashSeps(s)
    decreases |s|
  {
    if s == [] {
    } else {
      var rest := SplitSeps(s[1..]);
      SplitJoinRoundTrip(s[1..]);
      assert DashSeps(s) == [if IsSep(s[0]) then '-' else s[0]] + DashSeps(s[1..]);
      if IsSep(s[0]) {
        JoinCons([], rest, "-");
      } else if |rest| == 1 {
        assert SplitSeps(s) == [[s[0]] + rest[0]];
      } else {
        assert SplitSeps(s) == [[s[0]] + rest[0]] + rest[1..];
        JoinCons([s[0]] + rest[0], rest[1..], "-");
        assert rest == [rest[0]] + rest[1..];
        JoinCons(rest[0], rest[1..], "-");
      }
    }
  }

  lemma {:induction false} ConcatNonEmpty(parts: seq<string>)
    ensures Concat(NonEmpty(parts)) == Concat(parts)
  {
    if parts != [] {
      ConcatNonEmpty(parts[1..]);
    }
  }

  lemma {:induction false} ConcatSplit(s: string)
    ensures Concat(SplitSeps(s)) == RemoveSeps(s)
    decreases |s|
  {
    if s != [] {
      ConcatSplit(s[1..]);
      var rest := SplitSeps(s[1..]);
      if !IsSep(s[0]) {
        assert rest == [rest[0]] + rest[1..];
        assert Concat(rest) == rest[0] + Concat(rest[1..]);
        assert SplitSeps(s)[1..] == rest[1..];
      }
    }
  }

  /** Dropping the empty segments and concatenating gives the text without its separators. */
  lemma ConcatNonEmptySplit(s: string)
    ensures Concat(NonEmpty(SplitSeps(s))) == RemoveSeps(s)
  {
    ConcatNonEmpty(SplitSeps(s));
    ConcatSplit(s);
  }

  // ---------------------------------------------------------------------------
  // Case mapping (ASCII letters only)

  function UpperChar(c: char): char
  {
    if 'a' <= c <= 'z' then (c as int - 32) as char else c
  }

  function LowerChar(c: char): char
  {
    if 'A' <= c <= 'Z' then (c as int + 32) as char else c
  }

  /** `s.toLowerCase()` on ASCII letters. */
  function ToLower(s: string): string
  {
    seq(|s|, i requires 0 <= i < |s| => LowerChar(s[i]))
  }

  /** `part.charAt(0).toUpperCase() + part.slice(1)`. */
  function Capitalize(part: string): string
  {
    if part == [] then [] else [UpperChar(part[0])] + part[1..]
  }

  function CapitalizeAll(parts: seq<string>): (r: seq<string>)
    ensures |r| == |parts|
  {
    if parts == [] then [] else [Capitalize(parts[0])] + CapitalizeAll(parts[1..])
  }

  /**
   * Title-casing character by character, independently of any split: every
   * separator becomes a space, and a character that starts a segment
   * (`atStart`) is upper-cased.
   */
  function TitleCase(s: string, atStart: bool): (r: string)
    ensures |r| == |s|
  {
    if s == [] then []
    else if IsSep(s[0]) then [' '] + TitleCase(s[1..], true)
    else [if atStart then UpperChar(s[0]) else s[0]] + TitleCase(s[1..], false)
  }

  /**
   * Capitalizing the `-`/`_` segments and joining them with single spaces is
   * the same as title-casing character by character; when the text does not
   * start a segment, its first segment is left as it is.
   */
  lemma {:induction false} CapitalizedJoinIsTitleCase(s: string)
    ensures JoinWith(CapitalizeAll(SplitSeps(s)), " ") == TitleCase(s, true)
    ensures var parts := SplitSeps(s);
            JoinWith([parts[0]] + CapitalizeAll(parts[1..]), " ") == TitleCase(s, false)
    decreases |s|
  {
    if s != [] {
      var rest := SplitSeps(s[1..]);
      CapitalizedJoinIsTitleCase(s[1..]);
      var tail := CapitalizeAll(rest[1..]);
      assert rest == [rest[0]] + rest[1..];
      if IsSep(s[0]) {
        var parts := SplitSeps(s);
        assert parts == [[]] + rest;
        assert CapitalizeAll(parts) == [[]] + CapitalizeAll(rest);
        JoinCons([], CapitalizeAll(rest), " ");
        assert parts[1..] == rest;
        assert [parts[0]] + CapitalizeAll(parts[1..]) == [[]] + CapitalizeAll(rest);
      } else {
        var c := s[0];
        var parts := SplitSeps(s);
        assert parts == [[c] + rest[0]] + rest[1..];
        assert parts[1..] == rest[1..];
        assert CapitalizeAll(parts) == [[UpperChar(c)] + rest[0]] + tail;
        JoinConsChar(UpperChar(c), rest[0], tail, " ");
        JoinConsChar(c, rest[0], tail, " ");
      }
    }
  }

  lemma JoinConsChar(c: char, x: string, parts: seq<string>, sep: string)
    ensures JoinWith([[c] + x] + parts, sep) == [c] + JoinWith([x] + parts, sep)
  {
    if parts != [] {
      JoinCons([c] + x, parts, sep);
      JoinCons(x, parts, sep);
    }
  }

  // ---------------------------------------------------------------------------
  // Whitespace (the characters of the ECMAScript `\s` class, which `trim` also removes)

  predicate IsWhitespace(c: char)
  {
    || c == ' ' || c == '\t' || c == '\n' || c == '\r'
    || c == '\U{000B}' || c == '\U{000C}' || c == '\U{00A0}' || c == '\U{1680}'
    || ('\U{2000}' <= c <= '\U{200A}')
    || c == '\U{2028}' || c == '\U{2029}' || c == '\U{202F}' || c == '\U{205F}'
    || c == '\U{3000}' || c == '\U{FEFF}'
  }

  predicate NoWhitespace(s: string) { forall i :: 0 <= i < |s| ==> !IsWhitespace(s[i]) }

  /** `s.trim() === ''`. */
  predicate IsBlank(s: string) { forall i :: 0 <= i < |s| ==> IsWhitespace(s[i]) }

  /** The text after its leading whitespace run. */
  function SkipWhitespace(s: string): (r: string)
    ensures |r| <= |s| && r == s[|s| - |r|..]
    ensures IsBlank(s[..|s| - |r|])
    ensures r == [] || !IsWhitespace(r[0])
  {
    if s != [] && IsWhitespace(s[0]) then
      var r := SkipWhitespace(s[1..]);
      SkipWhitespaceStep(s, r);
      r
    else
      assert s[..0] == [];
      s
  }

  lemma SkipWhitespaceStep(s: string, r: string)
    requires s != [] && IsWhitespace(s[0])
    requires |r| <= |s| - 1 && r == s[1..][|s| - 1 - |r|..] && IsBlank(s[1..][..|s| - 1 - |r|])
    ensures r == s[|s| - |r|..] && IsBlank(s[..|s| - |r|])
  {
    var n := |s| - |r|;
    assert s[1..][..n - 1] == s[1..n];
    assert forall i :: 1 <= i < n ==> s[..n][i] == s[1..n][i - 1];
  }

  /** `s.replace(/\s+/g, '-')`: every maximal run of whitespace becomes one `-`. */
  function DashWhitespaceRuns(s: string): (r: string)
    ensures NoWhitespace(r)
    ensures |r| <= |s|
    ensures NoWhitespace(s) ==> r == s
    decreases |s|
  {
    if s == [] then []
    else if IsWhitespace(s[0]) then
      var rest := DashWhitespaceRuns(SkipWhitespace(s[1..]));
      DashRunsWhitespaceHead(s, rest);
      "-" + rest
    else
      var rest := DashWhitespaceRuns(s[1..]);
      DashRunsPlainHead(s, rest);
      [s[0]] + rest
  }

  lemma DashRunsWhitespaceHead(s: string, rest: string)
    requires s != [] && IsWhitespace(s[0]) && NoWhitespace(rest) && |rest| < |s|
    ensures NoWhitespace("-" + rest) && |"-" + rest| <= |s| && !NoWhitespace(s)
  {
    NoWhitespaceAppend("-", rest);
  }

  lemma DashRunsPlainHead(s: string, rest: string)
    requires s != [] && !IsWhitespace(s[0]) && NoWhitespace(rest) && |rest| <= |s| - 1
    requires NoWhitespace(s[1..]) ==> rest == s[1..]
    ensures NoWhitespace([s[0]] + rest) && |[s[0]] + rest| <= |s|
    ensures NoWhitespace(s) ==> [s[0]] + rest == s
  {
    NoWhitespaceTail(s);
    NoWhitespaceAppend([s[0]], rest);
  }

  lemma NoWhitespaceAppend(a: string, b: string)
    requires NoWhitespace(a) && NoWhitespace(b)
    ensures NoWhitespace(a + b)
  {
    assert forall i :: |a| <= i < |a + b| ==> (a + b)[i] == b[i - |a|];
  }

  lemma NoWhitespaceTail(s: string)
    requires s != []
    ensures NoWhitespace(s) ==> NoWhitespace(s[1..])
  {
    assert forall i :: 0 <= i < |s| - 1 ==> s[1..][i] == s[i + 1];
  }

  /** Text before the first whitespace character is copied as it is. */
  lemma {:induction false} DashRunsKeepPlain(a: string, b: string)
    requires NoWhitespace(a)
    ensures DashWhitespaceRuns(a + b) == a + DashWhitespaceRuns(b)
    decreases |a|
  {
    if a == [] {
      assert a + b == b;
    } else {
      var x, t := a[0], a[1..];
      assert a == [x] + t && !IsWhitespace(x) && NoWhitespace(t);
      assert a + b == [x] + (t + b);
      DashRunsKeepChar(x, t + b);
      DashRunsKeepPlain(t, b);
      ConcatAssoc([x], t, DashWhitespaceRuns(b));
    }
  }

  lemma ConcatAssoc<T>(x: seq<T>, y: seq<T>, z: seq<T>)
    ensures x + (y + z) == (x + y) + z
  {
  }

  lemma ConcatAssoc3<T>(x: seq<T>, a: seq<T>, b: seq<T>, c: seq<T>)
    ensures x + a + b + c == x + (a + b + c)
  {
  }

  lemma DashRunsKeepChar(c: char, t: string)
    requires !IsWhitespace(c)
    ensures DashWhitespaceRuns([c] + t) == [c] + DashWhitespaceRuns(t)
  {
    assert ([c] + t)[1..] == t;
  }

  /**
   * The first whitespace run becomes one `-`: the text before it is copied,
   * the run (the character `w` and every whitespace character after it) is
   * replaced, and the rest is treated the same way.
   */
  lemma DashRunStep(a: string, w: char, b: string)
    requires NoWhitespace(a) && IsWhitespace(w)
    ensures DashWhitespaceRuns(a + [w] + b) == a + "-" + DashWhitespaceRuns(SkipWhitespace(b))
  {
    var t := [w] + b;
    assert a + [w] + b == a + t;
    DashRunsKeepPlain(a, t);
    assert t[0] == w && t[1..] == b;
    assert DashWhitespaceRuns(t) == "-" + DashWhitespaceRuns(SkipWhitespace(b));
  }

  // ---------------------------------------------------------------------------
  // Decimal rendering of a whole number (`${n}` for a non-negative integer)

  function DigitChar(d: nat): char
    requires d < 10
  {
    ('0' as int + d) as char
  }

  /** The number a string of decimal digits denotes, most significant digit first. */
  function DigitsValue(s: string): int
  {
    if s == [] then 0 else 10 * DigitsValue(s[..|s| - 1]) + (s[|s| - 1] as int - '0' as int)
  }

  /**
   * The decimal digits of `n` without leading zeros: they denote `n`, and the
   * first digit is `0` only for `n == 0`.
   */
  function NatToString(n: nat): (r: string)
    ensures |r| >= 1
    ensures forall i :: 0 <= i < |r| ==> '0' <= r[i] <= '9'
    ensures DigitsValue(r) == n
    ensures r[0] == '0' <==> n == 0
  {
    if n < 10 then [DigitChar(n)]
    else
      var init := NatToString(n / 10);
      var r := init + [DigitChar(n % 10)];
      assert r[..|r| - 1] == init;
      r
  }
}
