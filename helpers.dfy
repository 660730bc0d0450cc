/**
 * The small pure helpers of src/lib/icons/iconService.ts: the stroke and
 * colour capability tests on an icon path, the download file name, and the
 * total of the static per-library counts.
 */
module IconHelpers {
  import opened Text
  import opened Icons

  // ---------------------------------------------------------------------------
  // Capability tests on an icon path `prefix/name`

  /** The library ids `supportsStroke` looks for. */
  const StrokeSupportedLibs: seq<string> := [
    "lucide", "tabler", "mingcute", "line-md", "carbon", "mdi-light",
    "iconoir", "ph", "solar", "ri", "uil", "bx"
  ]

  /** The library ids `isColoredIcon` looks for. */
  const ColoredIconLibs: seq<string> := [
    "twemoji", "noto", "emojione", "fxemoji", "openmoji", "fluent-emoji",
    "flat-color", "logos", "flag", "cryptocurrency", "circle-flags"
  ]

  /** `iconPath.split('/')[0]`. */
  function PathPrefix(path: string): (r: string)
    ensures '/' !in r && r <= path
  {
    BeforeFirst(path, '/')
  }

  /** `supportsStroke`: some listed id is a substring of the path's prefix. */
  function SupportsStroke(path: string): (r: bool)
    ensures r <==> exists k :: 0 <= k < |StrokeSupportedLibs| && Includes(PathPrefix(path), StrokeSupportedLibs[k])
  {
    IncludesAny(PathPrefix(path), StrokeSupportedLibs)
  }

  /** `isColoredIcon`: some listed id is a substring of the path's prefix. */
  function IsColoredIcon(path: string): (r: bool)
    ensures r <==> exists k :: 0 <= k < |ColoredIconLibs| && Includes(PathPrefix(path), ColoredIconLibs[k])
  {
    IncludesAny(PathPrefix(path), ColoredIconLibs)
  }

  /** Only the text before the first `/` matters: the icon's own name never changes the answer. */
  lemma CapabilitiesIgnoreName(prefix: string, name: string)
    requires '/' !in prefix
    ensures PathPrefix(prefix + "/" + name) == prefix
    ensures SupportsStroke(prefix + "/" + name) == SupportsStroke(prefix)
    ensures IsColoredIcon(prefix + "/" + name) == IsColoredIcon(prefix)
  {
    var path := prefix + "/" + name;
    assert path[..|prefix|] == prefix;
    BeforeFirstIs(path, '/', |prefix|);
    assert BeforeFirst(prefix, '/') == prefix;
  }

  /**
   * "material-symbols" holds "ri" (at position 4), so every Material Symbols
   * icon counts as stroke-capable although that set is filled, not stroked.
   */
  lemma MaterialSymbolsSupportsStroke(path: string)
    requires "material-symbols/" <= path
    ensures SupportsStroke(path)
  {
    var prefix := path[..16];
    assert '/' !in prefix by { assert forall i :: 0 <= i < 16 ==> path[i] != '/'; }
    assert path[4..6] == "ri";
    assert OccursAt(prefix, StrokeSupportedLibs[9], 4);
    assert path == prefix + "/" + path[17..];
    ListedIdInPrefix(prefix, path[17..], 9);
  }

  /** A prefix holding the `k`-th stroke-capable id makes every icon under it stroke-capable. */
  lemma ListedIdInPrefix(prefix: string, name: string, k: nat)
    requires '/' !in prefix && k < |StrokeSupportedLibs| && Includes(prefix, StrokeSupportedLibs[k])
    ensures SupportsStroke(prefix + "/" + name)
  {
    CapabilitiesIgnoreName(prefix, name);
  }

  /** A library whose id is listed is recognised whatever follows it in the prefix. */
  lemma ListedLibraryRecognised(lib: string, suffix: string, name: string)
    requires '/' !in lib + suffix
    ensures lib in StrokeSupportedLibs ==> SupportsStroke(lib + suffix + "/" + name)
    ensures lib in ColoredIconLibs ==> IsColoredIcon(lib + suffix + "/" + name)
  {
    CapabilitiesIgnoreName(lib + suffix, name);
    assert OccursAt(lib + suffix, lib, 0);
  }

  // ---------------------------------------------------------------------------
  // Download file name

  /**
   * `icon.name.toLowerCase().replace(/\s+/g, '-')`: no whitespace and no
   * upper-case letter is left, and a name without whitespace is only
   * lower-cased (`BaseNameRun` covers the names with whitespace).
   */
  function BaseName(name: string): (r: string)
    ensures NoWhitespace(r) && NoUpper(r)
    ensures NoWhitespace(name) ==> r == ToLower(name)
  {
    ToLowerNoUpper(name);
    DashRunsNoUpper(ToLower(name));
    LowerKeepsWhitespace(name);
    DashWhitespaceRuns(ToLower(name))
  }

  predicate NoUpper(s: string)
  {
    forall i :: 0 <= i < |s| ==> !('A' <= s[i] <= 'Z')
  }

  /**
   * The first whitespace run of the name becomes one `-`: the text before it
   * is lower-cased, and the text after the run is treated the same way.
   */
  lemma BaseNameRun(a: string, w: char, b: string)
    requires NoWhitespace(a) && IsWhitespace(w)
    ensures BaseName(a + [w] + b) == ToLower(a) + "-" + BaseName(SkipWhitespace(b))
  {
    assert ToLower(a + [w] + b) == ToLower(a) + [w] + ToLower(b);
    LowerKeepsWhitespace(a);
    DashRunStep(ToLower(a), w, ToLower(b));
    LowerSkipsWhitespace(b);
  }

  /**
   * `getFormattedFilename`: the base name, `-<size>px`, `-<strokeWidth>px`
   * only when a stroke width is given (a missing or zero width is falsy),
   * and `.svg`. The stroke width is kept as the text it renders to.
   */
  function FormattedFilename(name: string, size: nat, strokeWidth: Option<string>): (f: string)
    ensures var sized := BaseName(name) + "-" + NatToString(size) + "px";
      && sized <= f && |f| > |sized|
      && (f[|sized|] == '-' <==> strokeWidth.Some?)
      && (strokeWidth.None? ==> f == sized + ".svg")
      && (strokeWidth.Some? ==> f == sized + "-" + strokeWidth.value + "px.svg")
    ensures strokeWidth.None? || NoWhitespace(strokeWidth.value) ==> NoWhitespace(f)
  {
    var stroke := if strokeWidth.Some? then "-" + strokeWidth.value + "px" else "";
    FilenameNoWhitespace(BaseName(name), NatToString(size), stroke, strokeWidth.None? || NoWhitespace(strokeWidth.value));
    StrokeSuffix(BaseName(name) + "-" + NatToString(size) + "px", strokeWidth);
    BaseName(name) + "-" + NatToString(size) + "px" + stroke + ".svg"
  }

  /** What follows the sized part of a file name: `-<width>px` only for a given width, then `.svg`. */
  lemma StrokeSuffix(sized: string, strokeWidth: Option<string>)
    ensures var f := sized + (if strokeWidth.Some? then "-" + strokeWidth.value + "px" else "") + ".svg";
      && sized <= f && |f| > |sized|
      && (f[|sized|] == '-' <==> strokeWidth.Some?)
      && (strokeWidth.None? ==> f == sized + ".svg")
      && (strokeWidth.Some? ==> f == sized + "-" + strokeWidth.value + "px.svg")
  {
    var f := sized + (if strokeWidth.Some? then "-" + strokeWidth.value + "px" else "") + ".svg";
    assert f[..|sized|] == sized;
    if strokeWidth.Some? {
      var w := strokeWidth.value;
      assert f == sized + ("-" + w + "px.svg");
      assert f == sized + "-" + w + "px.svg";
      assert f[|sized|] == '-';
    } else {
      assert f[|sized|] == '.';
    }
  }

  lemma FilenameNoWhitespace(base: string, digits: string, stroke: string, plain: bool)
    requires NoWhitespace(base) && forall i :: 0 <= i < |digits| ==> '0' <= digits[i] <= '9'
    requires plain ==> NoWhitespace(stroke)
    ensures plain ==> NoWhitespace(base + "-" + digits + "px" + stroke + ".svg")
  {
    if plain {
      assert NoWhitespace(digits) by {
        forall i | 0 <= i < |digits| ensures !IsWhitespace(digits[i]) {
          assert '0' <= digits[i] <= '9';
        }
      }
      NoWhitespaceAppend(base, "-");
      NoWhitespaceAppend(base + "-", digits);
      NoWhitespaceAppend(base + "-" + digits, "px");
      NoWhitespaceAppend(base + "-" + digits + "px", stroke);
      NoWhitespaceAppend(base + "-" + digits + "px" + stroke, ".svg");
    }
  }

  /** Normalising an already normalised base name changes nothing. */
  lemma BaseNameIdempotent(name: string)
    ensures BaseName(BaseName(name)) == BaseName(name)
  {
    var b := BaseName(name);
    LowerOfNoUpper(b);
  }

  lemma ToLowerNoUpper(s: string)
    ensures NoUpper(ToLower(s))
  {
  }

  lemma LowerOfNoUpper(s: string)
    requires NoUpper(s)
    ensures ToLower(s) == s
  {
  }

  /** Lower-casing changes no whitespace character and makes none. */
  lemma LowerKeepsWhitespace(s: string)
    ensures forall i :: 0 <= i < |s| ==> IsWhitespace(ToLower(s)[i]) == IsWhitespace(s[i])
    ensures NoWhitespace(s) <==> NoWhitespace(ToLower(s))
  {
  }

  lemma {:induction false} LowerSkipsWhitespace(s: string)
    ensures SkipWhitespace(ToLower(s)) == ToLower(SkipWhitespace(s))
    decreases |s|
  {
    LowerKeepsWhitespace(s);
    if s != [] && IsWhitespace(s[0]) {
      assert ToLower(s)[1..] == ToLower(s[1..]);
      LowerSkipsWhitespace(s[1..]);
    }
  }

  lemma {:induction false} DashRunsNoUpper(s: string)
    requires NoUpper(s)
    ensures NoUpper(DashWhitespaceRuns(s))
    decreases |s|
  {
    if s != [] {
      if IsWhitespace(s[0]) {
        var rest := SkipWhitespace(s[1..]);
        NoUpperSuffix(s, 1 + |s[1..]| - |rest|);
        assert s[1 + |s[1..]| - |rest|..] == rest;
        DashRunsNoUpper(rest);
        NoUpperConcat("-", DashWhitespaceRuns(rest));
      } else {
        NoUpperSuffix(s, 1);
        DashRunsNoUpper(s[1..]);
        NoUpperConcat([s[0]], DashWhitespaceRuns(s[1..]));
      }
    }
  }

  lemma NoUpperConcat(a: string, b: string)
    requires NoUpper(a) && NoUpper(b)
    ensures NoUpper(a + b)
  {
    assert forall i :: |a| <= i < |a + b| ==> (a + b)[i] == b[i - |a|];
  }

  lemma NoUpperSuffix(s: string, k: nat)
    requires NoUpper(s) && k <= |s|
    ensures NoUpper(s[k..])
  {
    assert forall i :: 0 <= i < |s| - k ==> s[k..][i] == s[k + i];
  }

  // ---------------------------------------------------------------------------
  // Total icon count

  /** `Object.values(counts).reduce((sum, count) => sum + count, 0)`. */
  function SumCounts(counts: seq<LibraryCount>): (r: nat)
    ensures counts != [] ==> r >= counts[0].count
  {
    if counts == [] then 0 else counts[0].count + SumCounts(counts[1..])
  }

  /** Summing a split list is summing the two parts. */
  lemma {:induction false} SumCountsAppend(a: seq<LibraryCount>, b: seq<LibraryCount>)
    ensures SumCounts(a + b) == SumCounts(a) + SumCounts(b)
  {
    if a != [] {
      assert (a + b)[1..] == a[1..] + b;
      SumCountsAppend(a[1..], b);
    } else {
      assert a + b == b;
    }
  }

  /** `getTotalIconCount`: the twenty-four static counts add up to 53355. */
  lemma TotalIconCount()
    ensures SumCounts(IconCountByLibrary) == 53355
  {
    var c := IconCountByLibrary;
    SumCountsAppend(c[..12], c[12..]);
    assert c[..12] + c[12..] == c;
    SumFirstHalf();
    SumSecondHalf();
  }

  lemma SumFirstHalf()
    ensures SumCounts(IconCountByLibrary[..12]) == 875 + 13941 + 7447 + 1612 + 1253 + 162 + 457 + 894 + 5880 + 3058 + 895 + 1781
  {
    var c := IconCountByLibrary[..12];
    assert c == [
      LibraryCount("heroicons", 875), LibraryCount("material-symbols", 13941), LibraryCount("mdi", 7447),
      LibraryCount("fa", 1612), LibraryCount("fa6-solid", 1253), LibraryCount("fa6-regular", 162),
      LibraryCount("fa6-brands", 457), LibraryCount("ph", 894), LibraryCount("tabler", 5880),
      LibraryCount("ri", 3058), LibraryCount("lucide", 895), LibraryCount("iconamoon", 1781)];
    SumUnfold6(c[..6]);
    SumUnfold6(c[6..]);
    SumCountsAppend(c[..6], c[6..]);
    assert c[..6] + c[6..] == c;
  }

  lemma SumSecondHalf()
    ensures SumCounts(IconCountByLibrary[12..]) == 1668 + 1442 + 3752 + 896 + 704 + 1200 + 962 + 2475 + 284 + 287 + 1206 + 224
  {
    var c := IconCountByLibrary[12..];
    assert c == [
      LibraryCount("bi", 1668), LibraryCount("carbon", 1442), LibraryCount("fluent", 3752),
      LibraryCount("jam", 896), LibraryCount("gg", 704), LibraryCount("ion", 1200),
      LibraryCount("bx", 962), LibraryCount("simple-icons", 2475), LibraryCount("ci", 284),
      LibraryCount("feather", 287), LibraryCount("uil", 1206), LibraryCount("octicon", 224)];
    SumUnfold6(c[..6]);
    SumUnfold6(c[6..]);
    SumCountsAppend(c[..6], c[6..]);
    assert c[..6] + c[6..] == c;
  }

  lemma SumUnfold6(c: seq<LibraryCount>)
    requires |c| == 6
    ensures SumCounts(c) == c[0].count + c[1].count + c[2].count + c[3].count + c[4].count + c[5].count
  {
    var c1, c2, c3, c4, c5 := c[1..], c[2..], c[3..], c[4..], c[5..];
    assert c1[1..] == c2 && c2[1..] == c3 && c3[1..] == c4 && c4[1..] == c5 && c5[1..] == [];
    assert SumCounts(c5) == c[5].count;
    assert SumCounts(c4) == c[4].count + SumCounts(c5);
    assert SumCounts(c3) == c[3].count + SumCounts(c4);
    assert SumCounts(c2) == c[2].count + SumCounts(c3);
    assert SumCounts(c1) == c[1].count + SumCounts(c2);
  }
}
