/**
 * The loader's three static category tables: the default hero image, the badge
 * icon and the CSS class of a category label. Each is a constant map, looked up
 * by exact label, with the loader's fallback when the label is not a key.
 */
module Categories {
  import opened Wrappers
  import opened JsStrings

  const GenericImage := "https://images.unsplash.com/photo-1497633762265-9d179a990aa6?w=800&q=80"

  /** `getDefaultImage`'s table; its `default` entry is the generic image. */
  const DefaultImages: map<string, string> := map[
    "Performing Arts" := "https://images.unsplash.com/photo-1503095396549-807759245b35?w=800&q=80",
    "Theatre" := "https://images.unsplash.com/photo-1503095396549-807759245b35?w=800&q=80",
    "Science" := "https://images.unsplash.com/photo-1532094349884-543bc11b234d?w=800&q=80",
    "Environmental Science" := "https://images.unsplash.com/photo-1542601906990-b4d3fb778b09?w=800&q=80",
    "Travel" := "https://images.unsplash.com/photo-1488646953014-85cb44e25828?w=800&q=80",
    "Visual Arts" := "https://images.unsplash.com/photo-1513364776144-60967b0f800f?w=800&q=80",
    "Animal Care" := "https://images.unsplash.com/photo-1425082661705-1834bfd09dca?w=800&q=80",
    "Writing" := "https://images.unsplash.com/photo-1455390582262-044cdead277a?w=800&q=80",
    "Athletics" := "https://images.unsplash.com/photo-1461896836934-ffe607ba8211?w=800&q=80",
    "default" := GenericImage
  ]

  /** The nine categories that have an image of their own. */
  const ImageCategories: set<string> := {
    "Performing Arts", "Theatre", "Science", "Environmental Science", "Travel",
    "Visual Arts", "Animal Care", "Writing", "Athletics"
  }

  /** `getDefaultImage(category)`: the category's own image for the nine
      categories, the generic image for anything else (an absent category included). */
  function DefaultImage(category: Option<string>): (url: string)
    ensures category.Some? && category.value in ImageCategories ==> url == DefaultImages[category.value]
    ensures !(category.Some? && category.value in ImageCategories) ==> url == GenericImage
    ensures url in DefaultImages.Values
  {
    if category.Some? && category.value in DefaultImages then DefaultImages[category.value]
    else DefaultImages["default"]
  }

  const FallbackIcon := "📖"

  /** `getCategoryIcon`'s table. */
  const Icons: map<string, string> := map[
    "Performing Arts" := "🎭",
    "Theatre" := "🎭",
    "Science" := "🔬",
    "Environmental Science" := "🌱",
    "Travel" := "✈️",
    "Visual Arts" := "🎨",
    "Animal Care" := "🐾",
    "Writing" := "✍️",
    "Athletics" := "🏃",
    "Indigenous Studies" := "🪶"
  ]

  /** The ten categories that have an icon of their own. */
  const IconCategories: set<string> := ImageCategories + {"Indigenous Studies"}

  /** `getCategoryIcon(category)`: the listed icon, or the book for any other label. */
  function CategoryIcon(category: string): (icon: string)
    ensures category in IconCategories ==> icon == Icons[category] && icon != FallbackIcon
    ensures category !in IconCategories ==> icon == FallbackIcon
  {
    if category in Icons then Icons[category] else FallbackIcon
  }

  /** `mapCategoryToClass`'s table. */
  const CategoryClasses: map<string, string> := map[
    "Performing Arts" := "arts",
    "Theatre" := "arts",
    "Science" := "science",
    "Travel" := "travel",
    "Visual Arts" := "arts",
    "Animal Care" := "animals",
    "Writing" := "writing",
    "Athletics" := "sports"
  ]

  /** The class names a card can carry. */
  const ClassNames: set<string> := {"arts", "science", "travel", "animals", "writing", "sports", "other"}

  /** `mapCategoryToClass(category)`: the mapped class, or `other`, lower-cased. */
  function CategoryClass(category: Option<string>): (cls: string)
    ensures cls in ClassNames
    ensures category.Some? && category.value in CategoryClasses ==> cls == CategoryClasses[category.value]
    ensures !(category.Some? && category.value in CategoryClasses) ==> cls == "other"
  {
    var name := if category.Some? && category.value in CategoryClasses then CategoryClasses[category.value] else "other";
    assert name in ClassNames;
    assert HasNoUpper(name);
    LowerOfLowercase(name);
    AsciiLower(name)
  }
}
