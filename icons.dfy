/**
 * The canonical icon record and the static catalogues of the icon service
 * (src/lib/icons/iconService.ts): styles, categories, libraries and the
 * approximate per-library icon counts.
 */
module Icons {

  /** `IconStyle`, with the string each member stands for. */
  datatype Style = Outline | Solid | Thin | Duotone | Bold

  function StyleId(s: Style): string
  {
    match s
    case Outline => "outline"
    case Solid => "solid"
    case Thin => "thin"
    case Duotone => "duotone"
    case Bold => "bold"
  }

  /** The twenty categories declared in `iconCategories`, one constructor each. */
  datatype Category =
    | Interface | Arrows | Communication | Ecommerce | Security | Files | Users
    | Media | Technology | Business | Maps | Social | Health | Weather | Transport
    | Development | Brands | Food | Nature | Household

  function CategoryId(c: Category): string
  {
    match c
    case Interface => "interface"
    case Arrows => "arrows"
    case Communication => "communication"
    case Ecommerce => "ecommerce"
    case Security => "security"
    case Files => "files"
    case Users => "users"
    case Media => "media"
    case Technology => "technology"
    case Business => "business"
    case Maps => "maps"
    case Social => "social"
    case Health => "health"
    case Weather => "weather"
    case Transport => "transport"
    case Development => "development"
    case Brands => "brands"
    case Food => "food"
    case Nature => "nature"
    case Household => "household"
  }

  /**
   * An icon as the service hands it out. `id` and `iconifyName` are both the
   * raw `prefix:name` string; `apiSource` names the provider that produced it.
   * (The optional `svg` field is never filled in by the service.)
   */
  datatype Icon = Icon(
    id: string,
    name: string,
    tags: seq<string>,
    style: Style,
    library: string,
    category: Category,
    iconifyName: string,
    apiSource: string)

  /** The two fields the service deduplicates on: `id` in `searchIcons`, `iconifyName` in `getPopularIcons`. */
  datatype DedupKey = ById | ByIconifyName

  function KeyOf(icon: Icon, field: DedupKey): string
  {
    match field
    case ById => icon.id
    case ByIconifyName => icon.iconifyName
  }

  /** The keys of a list of icons, position by position. */
  function Keys(icons: seq<Icon>, field: DedupKey): (ks: seq<string>)
    ensures |ks| == |icons| && forall i :: 0 <= i < |icons| ==> ks[i] == KeyOf(icons[i], field)
  {
    seq(|icons|, i requires 0 <= i < |icons| => KeyOf(icons[i], field))
  }

  datatype Entry = Entry(id: string, name: string)

  /** `iconCategories`, in declaration order. */
  const IconCategories: seq<Entry> := [
    Entry("interface", "Interface"),
    Entry("arrows", "Arrows"),
    Entry("communication", "Communication"),
    Entry("ecommerce", "E-commerce"),
    Entry("security", "Security"),
    Entry("files", "Files & Documents"),
    Entry("users", "Users & People"),
    Entry("media", "Media"),
    Entry("technology", "Technology"),
    Entry("business", "Business"),
    Entry("maps", "Maps & Location"),
    Entry("social", "Social Media"),
    Entry("health", "Health & Medical"),
    Entry("weather", "Weather"),
    Entry("transport", "Transportation"),
    Entry("development", "Development"),
    Entry("brands", "Brands & Logos"),
    Entry("food", "Food & Beverage"),
    Entry("nature", "Nature & Environment"),
    Entry("household", "Household & Furniture")
  ]

  /** `iconLibraries` (ids and display names; the home-page URLs are left out). */
  const IconLibraries: seq<Entry> := [
    Entry("heroicons", "Heroicons"),
    Entry("material-symbols", "Material Symbols"),
    Entry("mdi", "Material Design Icons"),
    Entry("fa", "Font Awesome"),
    Entry("fa6-solid", "Font Awesome 6 Solid"),
    Entry("fa6-regular", "Font Awesome 6 Regular"),
    Entry("fa6-brands", "Font Awesome 6 Brands"),
    Entry("ph", "Phosphor Icons"),
    Entry("tabler", "Tabler Icons"),
    Entry("ri", "Remix Icon"),
    Entry("lucide", "Lucide Icons"),
    Entry("iconamoon", "Iconamoon"),
    Entry("bi", "Bootstrap Icons"),
    Entry("carbon", "Carbon Icons"),
    Entry("fluent", "Fluent Icons"),
    Entry("jam", "Jam Icons"),
    Entry("gg", "css.gg"),
    Entry("ion", "Ionicons"),
    Entry("bx", "Box Icons"),
    Entry("simple-icons", "Simple Icons"),
    Entry("ci", "Circum Icons"),
    Entry("feather", "Feather Icons"),
    Entry("uil", "Unicons"),
    Entry("octicon", "Octicons")
  ]

  datatype LibraryCount = LibraryCount(library: string, count: nat)

  /** The approximate per-library counts returned by `getIconCountByLibrary`, in key order. */
  const IconCountByLibrary: seq<LibraryCount> := [
    LibraryCount("heroicons", 875),
    LibraryCount("material-symbols", 13941),
    LibraryCount("mdi", 7447),
    LibraryCount("fa", 1612),
    LibraryCount("fa6-solid", 1253),
    LibraryCount("fa6-regular", 162),
    LibraryCount("fa6-brands", 457),
    LibraryCount("ph", 894),
    LibraryCount("tabler", 5880),
    LibraryCount("ri", 3058),
    LibraryCount("lucide", 895),
    LibraryCount("iconamoon", 1781),
    LibraryCount("bi", 1668),
    LibraryCount("carbon", 1442),
    LibraryCount("fluent", 3752),
    LibraryCount("jam", 896),
    LibraryCount("gg", 704),
    LibraryCount("ion", 1200),
    LibraryCount("bx", 962),
    LibraryCount("simple-icons", 2475),
    LibraryCount("ci", 284),
    LibraryCount("feather", 287),
    LibraryCount("uil", 1206),
    LibraryCount("octicon", 224)
  ]

  /** Every category's id is listed in `iconCategories`, at the position of its declaration. */
  lemma CategoryIdListed(c: Category)
    ensures exists k :: 0 <= k < |IconCategories| && IconCategories[k].id == CategoryId(c)
  {
    var k := match c
      case Interface => 0 case Arrows => 1 case Communication => 2 case Ecommerce => 3
      case Security => 4 case Files => 5 case Users => 6 case Media => 7
      case Technology => 8 case Business => 9 case Maps => 10 case Social => 11
      case Health => 12 case Weather => 13 case Transport => 14 case Development => 15
      case Brands => 16 case Food => 17 case Nature => 18 case Household => 19;
    assert IconCategories[k].id == CategoryId(c);
  }

  /** The category ids are pairwise distinct, so a category is determined by its id. */
  lemma CategoryIdInjective(c: Category, d: Category)
    requires CategoryId(c) == CategoryId(d)
    ensures c == d
  {
  }

  /** The count table covers exactly the libraries of `iconLibraries`, in the same order. */
  lemma CountTableMatchesLibraries()
    ensures |IconCountByLibrary| == |IconLibraries|
    ensures forall k :: 0 <= k < |IconLibraries| ==> IconCountByLibrary[k].library == IconLibraries[k].id
  {
  }
}
