/**
 * The pure logic of src/components/IconGenerator/IconPreview.tsx: the icon
 * type classification of `getIconInfo`, the label of `getIconTypeDisplay`,
 * the stroke and colour editability flags, and the JSX snippet built by
 * `handleCopySnippet`.
 */
module Preview {
  import opened Text
  import opened Icons
  import opened IconHelpers

  // ---------------------------------------------------------------------------
  // Icon type classification

  /** One entry of the `iconTypes` object: a type name and the library ids that select it. */
  datatype IconTypeEntry = IconTypeEntry(name: string, libraries: seq<string>)

  /** `iconTypes`, in the key order `Object.entries` visits it. */
  const IconTypes: seq<IconTypeEntry> := [
    IconTypeEntry("emoji", ["twemoji", "noto", "emojione", "fxemoji", "openmoji", "fluent-emoji"]),
    IconTypeEntry("logos", ["logos", "simple-icons", "skill-icons", "devicon"]),
    IconTypeEntry("flags", ["flag", "circle-flags", "country-flag"]),
    IconTypeEntry("payment", ["cryptocurrency", "payment"]),
    IconTypeEntry("regular", ["lucide", "tabler", "mingcute", "line-md", "carbon", "mdi-light",
                              "iconoir", "ph", "solar", "ri", "uil", "bx"])
  ]

  /** The type name used when no entry matches. */
  const DefaultType := "regular"

  /** The `{ type, library }` pair `getIconInfo` returns. */
  datatype IconInfo = IconInfo(kind: string, library: string)

  /** The type of the first entry one of whose libraries occurs in `prefix`, else `regular`: always a listed name or the default. */
  function FirstType(prefix: string, types: seq<IconTypeEntry>): (r: string)
    ensures r == DefaultType || exists k :: 0 <= k < |types| && r == types[k].name
  {
    if types == [] then DefaultType
    else if Selects(prefix, types[0]) then types[0].name
    else
      var r := FirstType(prefix, types[1..]);
      assert forall k :: 0 <= k < |types[1..]| ==> types[1..][k] == types[k + 1];
      r
  }

  /**
   * `selectedIcon.iconifyName.replace(':', '/')`, or `''` when nothing is
   * selected: the first `:` becomes `/` and every other character stays.
   */
  function IconPath(selected: Option<Icon>): (r: string)
    ensures selected.None? ==> r == ""
    ensures selected.Some? ==>
      var name := selected.value.iconifyName;
      && |r| == |name|
      && forall k :: 0 <= k < |name| ==> r[k] == (if k == IndexOf(name, ':') then '/' else name[k])
  {
    if selected.None? then "" else ReplaceFirst(selected.value.iconifyName, ':', '/')
  }

  /**
   * What `getIconInfo` returns for the current selection: both fields empty
   * with no selection; otherwise the type is the classification of the
   * library, and the library is the iconifyName's text before its first `:`
   * whenever that text holds no `/`.
   */
  function InfoOf(selected: Option<Icon>): (r: IconInfo)
    ensures selected.None? ==> r == IconInfo("", "")
    ensures selected.Some? ==> r.kind == FirstType(r.library, IconTypes)
    ensures selected.Some? && '/' !in BeforeFirst(selected.value.iconifyName, ':')
      ==> r.library == BeforeFirst(selected.value.iconifyName, ':')
  {
    if selected.None? then IconInfo("", "")
    else
      var prefix := PathPrefix(IconPath(selected));
      if '/' !in BeforeFirst(selected.value.iconifyName, ':') then
        ReplacedPrefix(selected.value.iconifyName);
        IconInfo(FirstType(prefix, IconTypes), prefix)
      else
        IconInfo(FirstType(prefix, IconTypes), prefix)
  }

  /** `getIconInfo`: the `for ... of Object.entries(iconTypes)` loop with its early return. */
  method GetIconInfo(selected: Option<Icon>) returns (info: IconInfo)
    ensures info == InfoOf(selected)
  {
    if selected.None? {
      return IconInfo("", "");
    }
    var iconPath := ReplaceFirst(selected.value.iconifyName, ':', '/');
    var prefix := BeforeFirst(iconPath, '/');
    var i := 0;
    while i < |IconTypes|
      invariant 0 <= i <= |IconTypes|
      invariant FirstType(prefix, IconTypes) == FirstType(prefix, IconTypes[i..])
    {
      if Selects(prefix, IconTypes[i]) {
        return IconInfo(IconTypes[i].name, prefix);
      }
      assert IconTypes[i..][1..] == IconTypes[i + 1..];
      i := i + 1;
    }
    return IconInfo(DefaultType, prefix);
  }

  /**
   * `FirstType` is ordered first match: either the `k`-th entry is the first
   * whose libraries occur in the prefix and its name is returned, or none
   * matches and the default is returned.
   */
  lemma {:induction false} FirstTypeIsFirstMatch(prefix: string, types: seq<IconTypeEntry>)
    ensures var r := FirstType(prefix, types);
      || (exists k :: 0 <= k < |types| && Selects(prefix, types[k]) && r == types[k].name
           && forall j :: 0 <= j < k ==> !Selects(prefix, types[j]))
      || ((forall k :: 0 <= k < |types| ==> !Selects(prefix, types[k])) && r == DefaultType)
  {
    if types != [] && !Selects(prefix, types[0]) {
      var tail := types[1..];
      FirstTypeIsFirstMatch(prefix, tail);
      var r := FirstType(prefix, tail);
      if exists k :: 0 <= k < |tail| && Selects(prefix, tail[k]) && r == tail[k].name
           && forall j :: 0 <= j < k ==> !Selects(prefix, tail[j]) {
        var k :| 0 <= k < |tail| && Selects(prefix, tail[k]) && r == tail[k].name
           && forall j :: 0 <= j < k ==> !Selects(prefix, tail[j]);
        MatchPastHead(prefix, types, k);
      } else {
        NoMatchPastHead(prefix, types);
      }
    }
  }

  /** A first match at `k` in `types[1..]` is a first match at `k + 1` in `types` when the head does not match. */
  lemma MatchPastHead(prefix: string, types: seq<IconTypeEntry>, k: nat)
    requires types != [] && !Selects(prefix, types[0]) && k < |types| - 1
    requires forall j :: 0 <= j < k ==> !Selects(prefix, types[1..][j])
    ensures types[k + 1] == types[1..][k]
    ensures forall j :: 0 <= j < k + 1 ==> !Selects(prefix, types[j])
  {
    forall j | 1 <= j < k + 1
      ensures !Selects(prefix, types[j])
    {
      assert types[j] == types[1..][j - 1];
    }
  }

  lemma NoMatchPastHead(prefix: string, types: seq<IconTypeEntry>)
    requires types != [] && !Selects(prefix, types[0])
    requires forall k :: 0 <= k < |types[1..]| ==> !Selects(prefix, types[1..][k])
    ensures forall k :: 0 <= k < |types| ==> !Selects(prefix, types[k])
  {
    forall k | 1 <= k < |types|
      ensures !Selects(prefix, types[k])
    {
      assert types[k] == types[1..][k - 1];
    }
  }

  /** An entry selects a prefix when one of its libraries occurs in it. */
  predicate Selects(prefix: string, entry: IconTypeEntry)
  {
    IncludesAny(prefix, entry.libraries)
  }

  /** The type is `regular` exactly when none of the four special entries matches. */
  lemma RegularIffNoSpecialMatch(prefix: string)
    ensures FirstType(prefix, IconTypes) == DefaultType
      <==> forall k :: 0 <= k < 4 ==> !Selects(prefix, IconTypes[k])
  {
    FirstTypeIsFirstMatch(prefix, IconTypes);
    TypeNamesDistinct();
  }

  lemma TypeNamesDistinct()
    ensures forall j, k :: 0 <= j < k < |IconTypes| ==> IconTypes[j].name != IconTypes[k].name
  {
  }

  /** The type of a classified prefix selects the entry of that name, and that entry matched. */
  lemma TypeMatched(prefix: string, k: nat)
    requires k < 4 && FirstType(prefix, IconTypes) == IconTypes[k].name
    ensures IncludesAny(prefix, IconTypes[k].libraries)
  {
    FirstTypeIsFirstMatch(prefix, IconTypes);
    TypeNamesDistinct();
  }

  /** Replacing the first `:` by `/` and cutting at the first `/` gives the text before the `:`. */
  lemma ReplacedPrefix(s: string)
    requires '/' !in BeforeFirst(s, ':')
    ensures BeforeFirst(ReplaceFirst(s, ':', '/'), '/') == BeforeFirst(s, ':')
  {
    var i := IndexOf(s, ':');
    var b := BeforeFirst(s, ':');
    assert b == s[..i];
    if i < |s| {
      var r := ReplaceFirst(s, ':', '/');
      assert r == s[..i] + ['/'] + s[i + 1..];
      assert r[..i] == b;
      assert forall j :: 0 <= j < i ==> r[j] == b[j];
      BeforeFirstIs(r, '/', i);
    } else {
      assert b == s;
      IndexOfIs(s, '/', |s|);
    }
  }

  /**
   * An icon whose iconifyName holds a `/` before its first `:` gets as
   * library only the text before that `/`: for `a/b:c` the library is `a`,
   * not `a/b`.
   */
  lemma SlashInPrefixShortensLibrary(icon: Icon, lib: string, rest: string)
    requires icon.iconifyName == lib + "/" + rest && '/' !in lib && ':' !in lib
    ensures InfoOf(Some(icon)).library == lib
  {
    var name := icon.iconifyName;
    var path := IconPath(Some(icon));
    assert forall k :: 0 <= k < |lib| ==> name[k] == lib[k];
    assert name[|lib|] == '/';
    assert IndexOf(name, ':') > |lib|;
    assert path[..|lib|] == lib;
    BeforeFirstIs(path, '/', |lib|);
  }

  // ---------------------------------------------------------------------------
  // Type label

  /** The labels of the four special types, in the order of `getIconTypeDisplay`'s tests. */
  const SpecialLabels: seq<(string, string)> :=
    [("emoji", "Emoji"), ("logos", "Logo"), ("flags", "Flag"), ("payment", "Payment Icon")]

  /** `getIconTypeDisplay`: the fixed label of a special type, else the library prefix itself. */
  function TypeDisplay(info: IconInfo): (r: string)
    ensures forall k :: 0 <= k < |SpecialLabels| && info.kind == SpecialLabels[k].0 ==> r == SpecialLabels[k].1
    ensures (forall k :: 0 <= k < |SpecialLabels| ==> info.kind != SpecialLabels[k].0) ==> r == info.library
  {
    assert SpecialLabels[0].0 == "emoji" && SpecialLabels[1].0 == "logos";
    assert SpecialLabels[2].0 == "flags" && SpecialLabels[3].0 == "payment";
    if info.kind == "emoji" then "Emoji"
    else if info.kind == "logos" then "Logo"
    else if info.kind == "flags" then "Flag"
    else if info.kind == "payment" then "Payment Icon"
    else info.library
  }

  /** The labelled types are exactly the four special entries of `iconTypes`, and `regular` is not labelled. */
  lemma LabelsFollowTypeTable()
    ensures |SpecialLabels| == 4
    ensures forall k :: 0 <= k < 4 ==> SpecialLabels[k].0 == IconTypes[k].name
    ensures forall k :: 0 <= k < 4 ==> SpecialLabels[k].0 != DefaultType
  {
  }

  /**
   * The label shown for a selection: `Emoji`, `Logo`, `Flag` or `Payment Icon`
   * for the four special types, and the library prefix itself for `regular`
   * icons and for no selection (where it is empty).
   */
  lemma DisplayOfSelection(selected: Option<Icon>)
    ensures selected.None? ==> TypeDisplay(InfoOf(selected)) == ""
    ensures var info := InfoOf(selected);
      && (info.kind == "emoji" ==> TypeDisplay(info) == "Emoji")
      && (info.kind == "logos" ==> TypeDisplay(info) == "Logo")
      && (info.kind == "flags" ==> TypeDisplay(info) == "Flag")
      && (info.kind == "payment" ==> TypeDisplay(info) == "Payment Icon")
      && (info.kind == DefaultType ==> TypeDisplay(info) == info.library)
    ensures var info := InfoOf(selected);
      selected.Some? ==> info.kind == DefaultType || info.kind in ["emoji", "logos", "flags", "payment"]
  {
    var info := InfoOf(selected);
    LabelOfKind(info);
    if selected.Some? {
      KindIsListed(info.library);
    }
  }

  lemma LabelOfKind(info: IconInfo)
    ensures && (info.kind == "emoji" ==> TypeDisplay(info) == "Emoji")
            && (info.kind == "logos" ==> TypeDisplay(info) == "Logo")
            && (info.kind == "flags" ==> TypeDisplay(info) == "Flag")
            && (info.kind == "payment" ==> TypeDisplay(info) == "Payment Icon")
            && (info.kind == DefaultType ==> TypeDisplay(info) == info.library)
  {
  }

  lemma KindIsListed(prefix: string)
    ensures var kind := FirstType(prefix, IconTypes);
      kind == DefaultType || kind in ["emoji", "logos", "flags", "payment"]
  {
    var kind := FirstType(prefix, IconTypes);
    if kind != DefaultType {
      var k :| 0 <= k < |IconTypes| && kind == IconTypes[k].name;
    }
  }

  // ---------------------------------------------------------------------------
  // Editability flags

  /** `canEditStroke`: decided by the same prefix that `getIconInfo` classifies. */
  function CanEditStroke(selected: Option<Icon>): (r: bool)
    ensures r <==> IncludesAny(InfoOf(selected).library, StrokeSupportedLibs)
  {
    SupportsStroke(IconPath(selected))
  }

  /** `canEditColor`: decided by the same prefix that `getIconInfo` classifies. */
  function CanEditColor(selected: Option<Icon>): (r: bool)
    ensures r <==> !IncludesAny(InfoOf(selected).library, ColoredIconLibs)
  {
    !IsColoredIcon(IconPath(selected))
  }

  /** With nothing selected the path is empty: no stroke editing, colour editing allowed. */
  lemma NoSelectionFlags()
    ensures !CanEditStroke(None) && CanEditColor(None)
  {
    assert PathPrefix("") == "";
    assert forall k :: 0 <= k < |StrokeSupportedLibs| ==> |StrokeSupportedLibs[k]| > 0;
    assert forall k :: 0 <= k < |ColoredIconLibs| ==> |ColoredIconLibs[k]| > 0;
  }

  /** The `regular` entry lists exactly the stroke-capable libraries. */
  lemma RegularListIsStrokeList()
    ensures IconTypes[4].libraries == StrokeSupportedLibs
  {
  }

  /** Emoji icons are never colour-editable: every emoji library is a coloured library. */
  lemma EmojiNotColorEditable(icon: Icon)
    requires InfoOf(Some(icon)).kind == "emoji"
    ensures !CanEditColor(Some(icon))
  {
    var lib := InfoOf(Some(icon)).library;
    TypeMatched(lib, 0);
    var k :| 0 <= k < |IconTypes[0].libraries| && Includes(lib, IconTypes[0].libraries[k]);
    assert IconTypes[0].libraries == ColoredIconLibs[..6];
    assert Includes(lib, ColoredIconLibs[k]);
  }

  /** Flag icons are never colour-editable: every flag library holds "flag". */
  lemma FlagsNotColorEditable(icon: Icon)
    requires InfoOf(Some(icon)).kind == "flags"
    ensures !CanEditColor(Some(icon))
  {
    var lib := InfoOf(Some(icon)).library;
    TypeMatched(lib, 2);
    FlagTypeHoldsFlag(lib);
    FlagIsColored(lib);
  }

  lemma FlagTypeHoldsFlag(lib: string)
    requires IncludesAny(lib, IconTypes[2].libraries)
    ensures Includes(lib, "flag")
  {
    var k :| 0 <= k < |IconTypes[2].libraries| && Includes(lib, IconTypes[2].libraries[k]);
    FlagLibrariesHoldFlag(k);
    IncludesTransitive(lib, IconTypes[2].libraries[k], "flag");
  }

  lemma FlagIsColored(lib: string)
    requires Includes(lib, "flag")
    ensures IncludesAny(lib, ColoredIconLibs)
  {
    assert ColoredIconLibs[8] == "flag";
  }

  lemma FlagLibrariesHoldFlag(k: nat)
    requires k < |IconTypes[2].libraries|
    ensures Includes(IconTypes[2].libraries[k], "flag")
  {
    if k == 0 {
      assert OccursAt("flag", "flag", 0);
    } else if k == 1 {
      CircleFlagsHoldsFlag();
    } else {
      CountryFlagHoldsFlag();
    }
  }

  lemma CircleFlagsHoldsFlag()
    ensures Includes("circle-flags", "flag")
  {
    assert OccursAt("circle-flags", "flag", 7);
  }

  lemma CountryFlagHoldsFlag()
    ensures Includes("country-flag", "flag")
  {
    assert OccursAt("country-flag", "flag", 8);
  }

  lemma IncludesTransitive(a: string, b: string, c: string)
    requires Includes(a, b) && Includes(b, c)
    ensures Includes(a, c)
  {
    var i :| OccursAt(a, b, i);
    var j :| OccursAt(b, c, j);
    forall m | 0 <= m < |c|
      ensures a[i + j..i + j + |c|][m] == c[m]
    {
      assert a[i..i + |b|][j + m] == b[j..j + |c|][m];
    }
    assert a[i + j..i + j + |c|] == c;
    assert OccursAt(a, c, i + j);
  }

  // ---------------------------------------------------------------------------
  // Code snippet

  /** `<Icon icon="<iconifyName>" width="<size>" height="<size>"`. */
  function SnippetHead(iconifyName: string, size: nat): string
  {
    "<Icon icon=\"" + iconifyName + "\" width=\"" + NatToString(size) + "\" height=\"" + NatToString(size) + "\""
  }

  /** The stroke-width style attribute; the width is kept as the text it renders to. */
  function StrokeAttr(strokeWidth: string): string
  {
    StrokeMarker + strokeWidth + " }}"
  }

  const StrokeMarker := " style={{ strokeWidth: "

  function ColorAttr(color: string): string
  {
    " color=\"" + color + "\""
  }

  const SnippetTail := " />"

  /** The colour attribute is written only for a colour-editable icon with a colour other than the default. */
  predicate EmitsColor(canEditColor: bool, color: string)
  {
    canEditColor && color != "currentColor"
  }

  /** The snippet `handleCopySnippet` copies: it opens with the icon, width and height attributes and closes the tag. */
  function Snippet(iconifyName: string, size: nat, strokeWidth: string, color: string,
                   canEditStroke: bool, canEditColor: bool): (s: string)
    ensures SnippetHead(iconifyName, size) <= s
    ensures |s| >= 3 && s[|s| - 3..] == SnippetTail
  {
    SnippetHead(iconifyName, size)
      + (if canEditStroke then StrokeAttr(strokeWidth) else "")
      + (if EmitsColor(canEditColor, color) then ColorAttr(color) else "")
      + SnippetTail
  }

  /** `handleCopySnippet`'s `let snippet` and its `+=` steps. */
  method BuildSnippet(iconifyName: string, size: nat, strokeWidth: string, color: string,
                      canEditStroke: bool, canEditColor: bool) returns (snippet: string)
    ensures snippet == Snippet(iconifyName, size, strokeWidth, color, canEditStroke, canEditColor)
  {
    snippet := "<Icon icon=\"" + iconifyName + "\" width=\"" + NatToString(size) + "\" height=\"" + NatToString(size) + "\"";
    assert snippet == SnippetHead(iconifyName, size);
    if canEditStroke {
      ghost var before := snippet;
      snippet := snippet + " style={{ strokeWidth: " + strokeWidth + " }}";
      ConcatAssoc3(before, StrokeMarker, strokeWidth, " }}");
    }
    ghost var withStroke := snippet;
    assert withStroke == SnippetHead(iconifyName, size) + (if canEditStroke then StrokeAttr(strokeWidth) else "");
    if canEditColor && color != "currentColor" {
      snippet := snippet + " color=\"" + color + "\"";
      ConcatAssoc3(withStroke, " color=\"", color, "\"");
    }
    assert snippet == withStroke + (if EmitsColor(canEditColor, color) then ColorAttr(color) else "");
    snippet := snippet + " />";
  }

  /** Number of occurrences of `c` in `s`. */
  function CountChar(s: string, c: char): nat
  {
    if s == [] then 0 else (if s[0] == c then 1 else 0) + CountChar(s[1..], c)
  }

  lemma {:induction false} CountCharAppend(a: string, b: string, c: char)
    ensures CountChar(a + b, c) == CountChar(a, c) + CountChar(b, c)
  {
    if a != [] {
      assert (a + b)[1..] == a[1..] + b;
      CountCharAppend(a[1..], b, c);
    } else {
      assert a + b == b;
    }
  }

  lemma {:induction false} CountCharAbsent(s: string, c: char)
    requires c !in s
    ensures CountChar(s, c) == 0
  {
    if s != [] {
      CountCharAbsent(s[1..], c);
    }
  }

  /**
   * The stroke style is present exactly when the stroke is editable, as long
   * as neither the icon name nor the colour holds a `{`: the style attribute
   * is the only source of braces.
   */
  lemma SnippetStrokeIff(iconifyName: string, size: nat, strokeWidth: string, color: string,
                         canEditStroke: bool, canEditColor: bool)
    requires '{' !in iconifyName && '{' !in color
    ensures Includes(Snippet(iconifyName, size, strokeWidth, color, canEditStroke, canEditColor), StrokeMarker)
      <==> canEditStroke
  {
    if canEditStroke {
      SnippetHasStroke(iconifyName, size, strokeWidth, color, canEditColor);
    } else {
      SnippetWithoutStroke(iconifyName, size, strokeWidth, color, canEditColor);
    }
  }

  lemma SnippetHasStroke(iconifyName: string, size: nat, strokeWidth: string, color: string, canEditColor: bool)
    ensures Includes(Snippet(iconifyName, size, strokeWidth, color, true, canEditColor), StrokeMarker)
  {
    var colorPart := if EmitsColor(canEditColor, color) then ColorAttr(color) else "";
    assert StrokeAttr(strokeWidth)[..|StrokeMarker|] == StrokeMarker;
    IncludesPart(SnippetHead(iconifyName, size), StrokeAttr(strokeWidth), colorPart, SnippetTail, StrokeMarker);
  }

  lemma SnippetWithoutStroke(iconifyName: string, size: nat, strokeWidth: string, color: string, canEditColor: bool)
    requires '{' !in iconifyName && '{' !in color
    ensures !Includes(Snippet(iconifyName, size, strokeWidth, color, false, canEditColor), StrokeMarker)
  {
    var head := SnippetHead(iconifyName, size);
    var colorPart := if EmitsColor(canEditColor, color) then ColorAttr(color) else "";
    NoBraceInHead(iconifyName, size);
    assert '{' !in colorPart;
    NotInConcat4(head, "", colorPart, SnippetTail, '{');
    assert '{' in StrokeMarker by { assert StrokeMarker[7] == '{'; }
    Excludes(head + "" + colorPart + SnippetTail, StrokeMarker, '{');
  }

  /** A text that starts the second of four pieces occurs in their concatenation. */
  lemma IncludesPart(h: string, p: string, c: string, t: string, m: string)
    requires m <= p
    ensures Includes(h + p + c + t, m)
  {
    var s := h + p + c + t;
    assert s[|h|..|h| + |m|] == m;
    assert OccursAt(s, m, |h|);
  }

  /** The third of four pieces occurs in their concatenation. */
  lemma IncludesThird(h: string, p: string, c: string, t: string)
    ensures Includes(h + p + c + t, c)
  {
    var s := h + p + c + t;
    assert s[|h + p|..|h + p| + |c|] == c;
    assert OccursAt(s, c, |h + p|);
  }

  lemma NotInConcat4(a: string, b: string, c: string, d: string, x: char)
    requires x !in a && x !in b && x !in c && x !in d
    ensures x !in a + b + c + d
  {
  }

  lemma NoBraceInHead(iconifyName: string, size: nat)
    requires '{' !in iconifyName
    ensures '{' !in SnippetHead(iconifyName, size)
  {
    var digits := NatToString(size);
    assert forall i :: 0 <= i < |digits| ==> digits[i] != '{';
  }

  /**
   * The colour attribute is present exactly when `EmitsColor` holds: when the
   * free texts hold no quote, the snippet holds eight quotes with it and six
   * without it.
   */
  lemma SnippetColorQuotes(iconifyName: string, size: nat, strokeWidth: string, color: string,
                           canEditStroke: bool, canEditColor: bool)
    requires '"' !in iconifyName && '"' !in strokeWidth && '"' !in color
    ensures CountChar(Snippet(iconifyName, size, strokeWidth, color, canEditStroke, canEditColor), '"')
      == if EmitsColor(canEditColor, color) then 8 else 6
  {
    var strokePart := if canEditStroke then StrokeAttr(strokeWidth) else "";
    var colorPart := if EmitsColor(canEditColor, color) then ColorAttr(color) else "";
    HeadQuotes(iconifyName, size);
    StrokeQuotes(strokePart, strokeWidth, canEditStroke);
    ColorQuotes(colorPart, color, EmitsColor(canEditColor, color));
    TailQuotes();
    CountChar4(SnippetHead(iconifyName, size), strokePart, colorPart, SnippetTail, '"');
  }

  /** When it is emitted, the colour attribute follows the head and the stroke style. */
  lemma SnippetHasColor(iconifyName: string, size: nat, strokeWidth: string, color: string,
                        canEditStroke: bool, canEditColor: bool)
    requires EmitsColor(canEditColor, color)
    ensures Includes(Snippet(iconifyName, size, strokeWidth, color, canEditStroke, canEditColor), ColorAttr(color))
  {
    var strokePart := if canEditStroke then StrokeAttr(strokeWidth) else "";
    IncludesThird(SnippetHead(iconifyName, size), strokePart, ColorAttr(color), SnippetTail);
  }

  lemma CountChar4(a: string, b: string, c: string, d: string, x: char)
    ensures CountChar(a + b + c + d, x) == CountChar(a, x) + CountChar(b, x) + CountChar(c, x) + CountChar(d, x)
  {
    CountCharAppend(a, b, x);
    CountCharAppend(a + b, c, x);
    CountCharAppend(a + b + c, d, x);
  }

  lemma HeadQuotes(iconifyName: string, size: nat)
    requires '"' !in iconifyName
    ensures CountChar(SnippetHead(iconifyName, size), '"') == 6
  {
    var digits := NatToString(size);
    assert '"' !in digits by { assert forall i :: 0 <= i < |digits| ==> digits[i] != '"'; }
    CountCharAbsent(iconifyName, '"');
    CountCharAbsent(digits, '"');
    LiteralQuotes();
    CountChar7("<Icon icon=\"", iconifyName, "\" width=\"", digits, "\" height=\"", digits, "\"", '"');
  }

  lemma CountChar7(a: string, b: string, c: string, d: string, e: string, f: string, g: string, x: char)
    ensures CountChar(a + b + c + d + e + f + g, x)
      == CountChar(a, x) + CountChar(b, x) + CountChar(c, x) + CountChar(d, x)
         + CountChar(e, x) + CountChar(f, x) + CountChar(g, x)
  {
    CountCharAppend(a, b, x);
    CountCharAppend(a + b, c, x);
    CountCharAppend(a + b + c, d, x);
    CountCharAppend(a + b + c + d, e, x);
    CountCharAppend(a + b + c + d + e, f, x);
    CountCharAppend(a + b + c + d + e + f, g, x);
  }

  lemma LiteralQuotes()
    ensures CountChar("<Icon icon=\"", '"') == 1
    ensures CountChar("\" width=\"", '"') == 2
    ensures CountChar("\" height=\"", '"') == 2
    ensures CountChar("\"", '"') == 1
    ensures CountChar(" color=\"", '"') == 1
    ensures CountChar(SnippetTail, '"') == 0
  {
    IconQuotes();
    WidthQuotes();
    HeightQuotes();
    ColorQuote();
    TailQuotes();
  }

  lemma IconQuotes() ensures CountChar("<Icon icon=\"", '"') == 1 {}
  lemma WidthQuotes() ensures CountChar("\" width=\"", '"') == 2 {}
  lemma HeightQuotes() ensures CountChar("\" height=\"", '"') == 2 {}
  lemma ColorQuote() ensures CountChar(" color=\"", '"') == 1 {}
  lemma TailQuotes() ensures CountChar(SnippetTail, '"') == 0 {}

  lemma CountChar3(x: string, y: string, z: string, c: char)
    ensures CountChar(x + y + z, c) == CountChar(x, c) + CountChar(y, c) + CountChar(z, c)
  {
    CountCharAppend(x, y, c);
    CountCharAppend(x + y, z, c);
  }

  lemma StrokeQuotes(part: string, strokeWidth: string, present: bool)
    requires '"' !in strokeWidth
    requires part == if present then StrokeAttr(strokeWidth) else ""
    ensures CountChar(part, '"') == 0
  {
    assert '"' !in part;
    CountCharAbsent(part, '"');
  }

  lemma ColorQuotes(part: string, color: string, present: bool)
    requires '"' !in color
    requires part == if present then ColorAttr(color) else ""
    ensures CountChar(part, '"') == if present then 2 else 0
  {
    if present {
      CountCharAbsent(color, '"');
      LiteralQuotes();
      CountChar3(" color=\"", color, "\"", '"');
    }
  }
}
