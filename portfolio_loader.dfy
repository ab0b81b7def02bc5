/**
 * The client loader: turns the records the proxy returns into timeline cards
 * and computes the page's aggregate statistics. A card is a structured value
 * (sections and lists of strings) instead of HTML text; a section the loader
 * leaves out is `None` or an empty sequence.
 */
module PortfolioLoader {
  import opened Wrappers
  import opened JsStrings
  import opened UrlPattern
  import opened Categories
  import opened Http
  import opened Sequences

  /** The `fields` object of one record. A text field the record lacks is `None`;
      `Total_Hours` is 0 when the record lacks it. */
  datatype Fields = Fields(
    experienceName: Option<string>,
    categoryPrimary: Option<string>,
    totalHours: nat,
    termSeason: Option<string>,
    academicYear: Option<string>,
    startDate: Option<string>,
    endDate: Option<string>,
    organizationName: Option<string>,
    locationVenue: Option<string>,
    city: Option<string>,
    grade: Option<string>,
    age: Option<string>,
    fullDescription: Option<string>,
    skills: Option<string>,
    whatDidYouLearn: Option<string>,
    surprise: Option<string>,
    challenges: Option<string>,
    keyAchievements: Option<string>,
    keyTakeAways: Option<string>,
    instructorNames: Option<string>,
    mainContact: Option<string>,
    instructorCredentials: Option<string>,
    theirRoleTitle: Option<string>,
    photos: Option<string>,
    keyImage: Option<string>)

  // ---------------------------------------------------------------- photos

  /** The global matches of the URL pattern in a field that is truthy. */
  function FieldMatches(field: Option<string>): seq<string> {
    if Truthy(field) then Matches(field.value) else []
  }

  /** What `extractPhotos` returns. */
  function PhotoList(f: Fields): seq<string> {
    FieldMatches(f.photos) + FieldMatches(f.keyImage)
  }

  /** `extractPhotos`: every match in Photos, in order, then every match in Key_Image. */
  method ExtractPhotos(f: Fields) returns (photos: seq<string>)
    ensures photos == FieldMatches(f.photos) + FieldMatches(f.keyImage)
    ensures forall u :: u in photos ==> IsUrl(u)
  {
    photos := [];
    if Truthy(f.photos) {
      var matches := Matches(f.photos.value);
      photos := photos + matches;
    }
    if Truthy(f.keyImage) {
      var matches := Matches(f.keyImage.value);
      photos := photos + matches;
    }
  }

  /** Every extracted photo is a URL. */
  lemma PhotoListAreUrls(f: Fields)
    ensures forall u :: u in PhotoList(f) ==> IsUrl(u)
  {
  }

  /** `getImageUrl`: the first URL in Key_Image, else the first in Photos, else
      the category's default image. */
  function ImageUrl(f: Fields): (url: string)
    ensures var k, p := FieldMatches(f.keyImage), FieldMatches(f.photos);
      url == if k != [] then k[0] else if p != [] then p[0] else DefaultImage(f.categoryPrimary)
  {
    FieldFirstMatch(f.keyImage);
    FieldFirstMatch(f.photos);
    if Truthy(f.keyImage) && FirstMatch(f.keyImage.value).Some? then FirstMatch(f.keyImage.value).value
    else if Truthy(f.photos) && FirstMatch(f.photos.value).Some? then FirstMatch(f.photos.value).value
    else DefaultImage(f.categoryPrimary)
  }

  /** The non-global match on a truthy field gives the first of its global matches. */
  lemma FieldFirstMatch(field: Option<string>)
    ensures (Truthy(field) && FirstMatch(field.value).Some?) <==> FieldMatches(field) != []
    ensures FieldMatches(field) != [] ==> FirstMatch(field.value).value == FieldMatches(field)[0]
  {
  }

  /** The hero image is one of the extracted photos exactly when there are any;
      otherwise it is a default image. */
  lemma ImageUrlIsPhotoOrDefault(f: Fields)
    ensures PhotoList(f) != [] ==> ImageUrl(f) in PhotoList(f)
    ensures PhotoList(f) == [] ==> ImageUrl(f) == DefaultImage(f.categoryPrimary)
    ensures ImageUrl(f) in PhotoList(f) || ImageUrl(f) in DefaultImages.Values
  {
    var k, p := FieldMatches(f.keyImage), FieldMatches(f.photos);
    if k != [] { assert k[0] in p + k; }
    else if p != [] { assert p[0] in p + k; }
  }

  const GalleryLimit: nat := 6

  /** `createGallerySection`: omitted without photos, otherwise the first six of them. */
  function GallerySection(f: Fields): (gallery: Option<seq<string>>)
    ensures gallery.None? <==> PhotoList(f) == []
    ensures gallery.Some? ==>
      && |gallery.value| == (if |PhotoList(f)| < GalleryLimit then |PhotoList(f)| else GalleryLimit)
      && gallery.value == PhotoList(f)[..|gallery.value|]
  {
    var photos := PhotoList(f);
    if |photos| == 0 then None
    else Some(photos[..if |photos| < GalleryLimit then |photos| else GalleryLimit])
  }

  // ---------------------------------------------------------------- skills

  /** Each piece trimmed, as `map(s => s.trim())`. */
  function TrimAll(pieces: seq<string>): (r: seq<string>)
    ensures |r| == |pieces|
    ensures forall i :: 0 <= i < |pieces| ==> r[i] == Trim(pieces[i])
  {
    if pieces == [] then [] else [Trim(pieces[0])] + TrimAll(pieces[1..])
  }

  /** The non-empty pieces, in order, as `filter(s => s)`. */
  function NonEmpty(pieces: seq<string>): (r: seq<string>)
    ensures forall t :: t in r <==> t in pieces && t != ""
    ensures |r| <= |pieces|
  {
    if pieces == [] then []
    else (if pieces[0] == "" then [] else [pieces[0]]) + NonEmpty(pieces[1..])
  }

  lemma TrimKeepsOut(p: string, c: char)
    requires c !in p
    ensures c !in Trim(p)
  {
    TrimIsInfix(p);
  }

  /** `Skills.split(',').map(s => s.trim()).filter(s => s)`: trimmed, non-empty,
      comma-free tokens. */
  function SkillTokens(skills: string): (tokens: seq<string>)
    ensures forall t :: t in tokens ==> t != "" && IsTrimmed(t) && ',' !in t
    ensures forall t :: t in tokens <==> t in TrimAll(Split(skills, ',')) && t != ""
  {
    var pieces := Split(skills, ',');
    var trimmed := TrimAll(pieces);
    forall i | 0 <= i < |pieces| ensures ',' !in trimmed[i] {
      assert pieces[i] in pieces;
      TrimKeepsOut(pieces[i], ',');
    }
    NonEmpty(trimmed)
  }

  /** `createSkillsSection`: omitted when Skills is falsy or leaves no token. */
  function SkillsSection(f: Fields): (section: Option<seq<string>>)
    ensures section.None? <==> !Truthy(f.skills) || SkillTokens(f.skills.value) == []
    ensures section.Some? ==> section.value == SkillTokens(f.skills.value) && section.value != []
  {
    if !Truthy(f.skills) then None
    else
      var tokens := SkillTokens(f.skills.value);
      if |tokens| == 0 then None else Some(tokens)
  }

  lemma {:induction false} NonEmptyOfNonEmpty(ts: seq<string>)
    requires forall t :: t in ts ==> t != ""
    ensures NonEmpty(ts) == ts
  {
    if ts != [] {
      assert ts[0] in ts;
      assert forall t :: t in ts[1..] ==> t in ts;
      NonEmptyOfNonEmpty(ts[1..]);
      assert ts == [ts[0]] + ts[1..];
    }
  }

  lemma {:induction false} TrimAllOfTrimmed(ts: seq<string>)
    requires forall t :: t in ts ==> IsTrimmed(t)
    ensures TrimAll(ts) == ts
  {
    forall i | 0 <= i < |ts| ensures TrimAll(ts)[i] == ts[i] {
      assert ts[i] in ts;
      TrimOfTrimmed(ts[i]);
    }
  }

  /** `filter` works piece by piece: filtering a concatenation filters each part. */
  lemma {:induction false} NonEmptyAppend(a: seq<string>, b: seq<string>)
    ensures NonEmpty(a + b) == NonEmpty(a) + NonEmpty(b)
    decreases |a|
  {
    if a == [] {
      assert a + b == b;
    } else {
      assert (a + b)[0] == a[0] && (a + b)[1..] == a[1..] + b;
      NonEmptyAppend(a[1..], b);
    }
  }

  /** `map` works piece by piece as well. */
  lemma {:induction false} TrimAllAppend(a: seq<string>, b: seq<string>)
    ensures TrimAll(a + b) == TrimAll(a) + TrimAll(b)
    decreases |a|
  {
    if a == [] {
      assert a + b == b;
    } else {
      assert (a + b)[0] == a[0] && (a + b)[1..] == a[1..] + b;
      TrimAllAppend(a[1..], b);
    }
  }

  /** The tags of a text are the tags before a comma, then the tags after it, in
      order and with repeats. */
  lemma SkillTokensAtComma(a: string, b: string)
    ensures SkillTokens(a + "," + b) == SkillTokens(a) + SkillTokens(b)
  {
    SplitAtSeparator(a, b, ',');
    TrimAllAppend(Split(a, ','), Split(b, ','));
    NonEmptyAppend(TrimAll(Split(a, ',')), TrimAll(Split(b, ',')));
  }

  /** A text without a comma gives its trimmed self as the only tag, or no tag
      when it is blank. */
  lemma SkillTokensOfPiece(p: string)
    requires ',' !in p
    ensures SkillTokens(p) == if Trim(p) == "" then [] else [Trim(p)]
  {
    SplitOfPiece(p, ',');
    assert TrimAll([p]) == [Trim(p)];
  }

  /** Parsing recovers any list of tags written with commas between them. */
  lemma SkillTokensOfJoin(tags: seq<string>)
    requires |tags| >= 1
    requires forall t :: t in tags ==> t != "" && IsTrimmed(t) && ',' !in t
    ensures SkillTokens(Join(tags, ',')) == tags
  {
    JoinSplit(tags, ',');
    TrimAllOfTrimmed(tags);
    NonEmptyOfNonEmpty(tags);
  }

  // ---------------------------------------------------------------- meta line

  /** The raw dates behind `formatDateRange`; their locale formatting is not modelled. */
  datatype DateRange = NoDates | StartOnly(start: string) | StartAndEnd(start: string, end: string)

  datatype MetaItem =
    | Term(season: string, year: string, dates: DateRange)
    | Place(location: string, citySuffix: string)
    | Hours(hours: nat)
    | Level(gradeLabel: string, separator: string, ageLabel: string)

  /** The position of an item kind in the meta line. */
  function Rank(item: MetaItem): nat {
    match item
    case Term(_, _, _) => 0
    case Place(_, _) => 1
    case Hours(_) => 2
    case Level(_, _, _) => 3
  }

  /** `formatDateRange`, before formatting: nothing without Start_Date, and the
      end only when End_Date is truthy. */
  function DateRangeOf(f: Fields): (d: DateRange)
    ensures d.NoDates? <==> !Truthy(f.startDate)
    ensures d.StartAndEnd? <==> Truthy(f.startDate) && Truthy(f.endDate)
    ensures !d.NoDates? ==> d.start == f.startDate.value
    ensures d.StartAndEnd? ==> d.end == f.endDate.value
  {
    if !Truthy(f.startDate) then NoDates
    else if Truthy(f.endDate) then StartAndEnd(f.startDate.value, f.endDate.value)
    else StartOnly(f.startDate.value)
  }

  const Separator := " • "

  function TermItem(f: Fields): MetaItem {
    Term(TextOr(f.termSeason), TextOr(f.academicYear), DateRangeOf(f))
  }

  function PlaceItem(f: Fields): MetaItem {
    Place(TextOr(Or(f.organizationName, f.locationVenue)), if Truthy(f.city) then ", " + f.city.value else "")
  }

  function LevelItem(f: Fields): MetaItem {
    var grade := if Truthy(f.grade) then "Grade " + f.grade.value else "";
    var age := if Truthy(f.age) then "Age " + f.age.value else "";
    Level(grade, if grade != "" && age != "" then Separator else "", age)
  }

  predicate ShowsTerm(f: Fields) { Truthy(f.termSeason) || Truthy(f.academicYear) }
  predicate ShowsPlace(f: Fields) { Truthy(f.organizationName) || Truthy(f.locationVenue) }
  predicate ShowsHours(f: Fields) { f.totalHours != 0 }
  predicate ShowsLevel(f: Fields) { Truthy(f.grade) || Truthy(f.age) }

  /** The item kinds appear in their fixed order, each at most once. */
  predicate RankSorted(parts: seq<MetaItem>) {
    forall i, j :: 0 <= i < j < |parts| ==> Rank(parts[i]) < Rank(parts[j])
  }

  /** `item` when `show` holds, else nothing. */
  function Slot(show: bool, item: MetaItem): seq<MetaItem> {
    if show then [item] else []
  }

  lemma AppendSlot(parts: seq<MetaItem>, show: bool, item: MetaItem)
    requires RankSorted(parts)
    requires forall x :: x in parts ==> Rank(x) < Rank(item)
    ensures RankSorted(parts + Slot(show, item))
    ensures forall x :: x in parts + Slot(show, item) ==> Rank(x) <= Rank(item)
    ensures forall x :: x in parts + Slot(show, item) <==> x in parts || (show && x == item)
  {
    if show {
      var r := parts + [item];
      forall i, j | 0 <= i < j < |r| ensures Rank(r[i]) < Rank(r[j]) {
        if j == |parts| { assert r[i] in parts; }
      }
    }
  }

  /** The items of `createMetaInfo`: in their fixed order, each present exactly
      when its fields are, and no other item. */
  function MetaInfo(f: Fields): (parts: seq<MetaItem>)
    ensures RankSorted(parts)
    ensures TermItem(f) in parts <==> ShowsTerm(f)
    ensures PlaceItem(f) in parts <==> ShowsPlace(f)
    ensures Hours(f.totalHours) in parts <==> ShowsHours(f)
    ensures LevelItem(f) in parts <==> ShowsLevel(f)
    ensures forall item :: item in parts ==>
      item == TermItem(f) || item == PlaceItem(f) || item == Hours(f.totalHours) || item == LevelItem(f)
  {
    FourSlots(TermItem(f), PlaceItem(f), Hours(f.totalHours), LevelItem(f),
              ShowsTerm(f), ShowsPlace(f), ShowsHours(f), ShowsLevel(f));
    Slot(ShowsTerm(f), TermItem(f)) + Slot(ShowsPlace(f), PlaceItem(f))
      + Slot(ShowsHours(f), Hours(f.totalHours)) + Slot(ShowsLevel(f), LevelItem(f))
  }

  /** Four slots of increasing rank: in order, and holding just the items shown. */
  lemma FourSlots(a: MetaItem, b: MetaItem, c: MetaItem, d: MetaItem, sa: bool, sb: bool, sc: bool, sd: bool)
    requires Rank(a) == 0 && Rank(b) == 1 && Rank(c) == 2 && Rank(d) == 3
    ensures var parts := Slot(sa, a) + Slot(sb, b) + Slot(sc, c) + Slot(sd, d);
      && RankSorted(parts)
      && (a in parts <==> sa) && (b in parts <==> sb) && (c in parts <==> sc) && (d in parts <==> sd)
      && forall x :: x in parts ==> x == a || x == b || x == c || x == d
  {
    var p1 := Slot(sa, a);
    AppendSlot(p1, sb, b);
    var p2 := p1 + Slot(sb, b);
    AppendSlot(p2, sc, c);
    var p3 := p2 + Slot(sc, c);
    AppendSlot(p3, sd, d);
  }

  /** `createMetaInfo`, pushing the items one after the other; the line is
      omitted when no item is pushed. */
  method CreateMetaInfo(f: Fields) returns (parts: seq<MetaItem>)
    ensures parts == MetaInfo(f)
    ensures parts == [] <==> !(ShowsTerm(f) || ShowsPlace(f) || ShowsHours(f) || ShowsLevel(f))
  {
    parts := [];
    if Truthy(f.termSeason) || Truthy(f.academicYear) {
      parts := parts + [TermItem(f)];
    }
    assert parts == Slot(ShowsTerm(f), TermItem(f));
    if Truthy(f.organizationName) || Truthy(f.locationVenue) {
      parts := parts + [PlaceItem(f)];
    }
    assert parts == Slot(ShowsTerm(f), TermItem(f)) + Slot(ShowsPlace(f), PlaceItem(f));
    if f.totalHours != 0 {
      parts := parts + [Hours(f.totalHours)];
    }
    assert parts == Slot(ShowsTerm(f), TermItem(f)) + Slot(ShowsPlace(f), PlaceItem(f))
      + Slot(ShowsHours(f), Hours(f.totalHours));
    if Truthy(f.grade) || Truthy(f.age) {
      parts := parts + [LevelItem(f)];
    }
  }

  /** The grade and age labels, and the separator between them only when both are there. */
  lemma LevelSeparator(f: Fields)
    requires Truthy(f.grade) || Truthy(f.age)
    ensures var item := LevelItem(f);
      && item in MetaInfo(f)
      && (item.separator == Separator <==> Truthy(f.grade) && Truthy(f.age))
      && (item.separator == "" <==> !(Truthy(f.grade) && Truthy(f.age)))
      && item.gradeLabel == (if Truthy(f.grade) then "Grade " + f.grade.value else "")
      && item.ageLabel == (if Truthy(f.age) then "Age " + f.age.value else "")
  {
  }

  /** The place shows the organisation, else the venue, with the city after a comma. */
  lemma PlacePrecedence(f: Fields)
    requires Truthy(f.organizationName) || Truthy(f.locationVenue)
    ensures PlaceItem(f) in MetaInfo(f)
    ensures PlaceItem(f).location == if Truthy(f.organizationName) then f.organizationName.value else f.locationVenue.value
    ensures PlaceItem(f).citySuffix != "" <==> Truthy(f.city)
  {
  }

  // ---------------------------------------------------------------- narrative sections

  datatype Reflection = Learned(text: string) | Surprised(text: string) | Challenged(text: string)

  function ReflectionRank(r: Reflection): nat {
    match r
    case Learned(_) => 0
    case Surprised(_) => 1
    case Challenged(_) => 2
  }

  /** The blocks of `createLearningSection`, in their fixed order, each present
      exactly when its field is truthy, and then holding that field's text. */
  function LearningSection(f: Fields): (parts: seq<Reflection>)
    ensures forall i, j :: 0 <= i < j < |parts| ==> ReflectionRank(parts[i]) < ReflectionRank(parts[j])
    ensures forall v :: Learned(v) in parts <==> Truthy(f.whatDidYouLearn) && v == f.whatDidYouLearn.value
    ensures forall v :: Surprised(v) in parts <==> Truthy(f.surprise) && v == f.surprise.value
    ensures forall v :: Challenged(v) in parts <==> Truthy(f.challenges) && v == f.challenges.value
  {
    (if Truthy(f.whatDidYouLearn) then [Learned(f.whatDidYouLearn.value)] else [])
    + (if Truthy(f.surprise) then [Surprised(f.surprise.value)] else [])
    + (if Truthy(f.challenges) then [Challenged(f.challenges.value)] else [])
  }

  /** `createLearningSection`, pushing the blocks one after the other. */
  method CreateLearningSection(f: Fields) returns (parts: seq<Reflection>)
    ensures parts == LearningSection(f)
    ensures parts == [] <==> !Truthy(f.whatDidYouLearn) && !Truthy(f.surprise) && !Truthy(f.challenges)
  {
    parts := [];
    if Truthy(f.whatDidYouLearn) {
      parts := parts + [Learned(f.whatDidYouLearn.value)];
    }
    if Truthy(f.surprise) {
      parts := parts + [Surprised(f.surprise.value)];
    }
    if Truthy(f.challenges) {
      parts := parts + [Challenged(f.challenges.value)];
    }
  }

  /** `createDescription`: the description when it is truthy. */
  function Description(f: Fields): (d: Option<string>)
    ensures d.Some? <==> Truthy(f.fullDescription)
    ensures d.Some? ==> d == f.fullDescription
  {
    if Truthy(f.fullDescription) then f.fullDescription else None
  }

  /** `createAchievementsSection`: Key_Achievements, else Key_Take_Aways; omitted
      when both are falsy. */
  function AchievementsSection(f: Fields): (content: Option<string>)
    ensures content.Some? <==> Truthy(f.keyAchievements) || Truthy(f.keyTakeAways)
    ensures Truthy(f.keyAchievements) ==> content == Some(f.keyAchievements.value)
    ensures !Truthy(f.keyAchievements) && Truthy(f.keyTakeAways) ==> content == Some(f.keyTakeAways.value)
  {
    if !Truthy(f.keyAchievements) && !Truthy(f.keyTakeAways) then None
    else Some(Or(f.keyAchievements, f.keyTakeAways).value)
  }

  datatype Contact = Contact(name: string, role: Option<string>)

  /** `createContactSection`: present when Instructor_Names or Main_Contact is
      truthy, the instructor first; the role line from the credentials, else the
      role title, only when one of them is truthy. */
  function ContactSection(f: Fields): (contact: Option<Contact>)
    ensures contact.Some? <==> Truthy(f.instructorNames) || Truthy(f.mainContact)
    ensures contact.Some? ==>
      contact.value.name == (if Truthy(f.instructorNames) then f.instructorNames.value else f.mainContact.value)
    ensures contact.Some? ==> (contact.value.role.Some? <==> Truthy(f.instructorCredentials) || Truthy(f.theirRoleTitle))
    ensures contact.Some? && contact.value.role.Some? ==>
      contact.value.role.value == (if Truthy(f.instructorCredentials) then f.instructorCredentials.value else f.theirRoleTitle.value)
  {
    if !Truthy(f.instructorNames) && !Truthy(f.mainContact) then None
    else
      var instructor := TextOr(Or(f.instructorNames, f.mainContact));
      var credentials := TextOr(Or(f.instructorCredentials, f.theirRoleTitle));
      if instructor == "" then None
      else Some(Contact(instructor, if credentials != "" then Some(credentials) else None))
  }

  // ---------------------------------------------------------------- the card

  datatype ImageSection = ImageSection(
    imageUrl: string,
    title: Option<string>,
    badgeIcon: string,
    badgeLabel: string,
    hours: nat)

  /** `createImageSection`: the hero image, the title, the category badge (a
      missing category reads `Learning`) and the hours badge. */
  function ImageSectionOf(f: Fields): (image: ImageSection)
    ensures image.badgeLabel != ""
    ensures Truthy(f.categoryPrimary) ==> image.badgeLabel == f.categoryPrimary.value
    ensures !Truthy(f.categoryPrimary) ==> image.badgeLabel == "Learning"
    ensures image.badgeIcon == CategoryIcon(image.badgeLabel)
    ensures image.imageUrl == ImageUrl(f)
    ensures image.imageUrl in PhotoList(f) || image.imageUrl in DefaultImages.Values
    ensures image.hours == f.totalHours && image.title == f.experienceName
  {
    ImageUrlIsPhotoOrDefault(f);
    var badge := if Truthy(f.categoryPrimary) then f.categoryPrimary.value else "Learning";
    ImageSection(ImageUrl(f), f.experienceName, CategoryIcon(badge), badge, f.totalHours)
  }

  datatype Content = Content(
    meta: seq<MetaItem>,
    description: Option<string>,
    skills: Option<seq<string>>,
    learning: seq<Reflection>,
    achievements: Option<string>,
    contact: Option<Contact>)

  datatype Card = Card(categoryClass: string, image: ImageSection, content: Content, gallery: Option<seq<string>>)

  /** `createExperienceCard`: the class, the image section, the content sections
      and the gallery of one record. */
  function ExperienceCard(f: Fields): (card: Card)
    ensures card.categoryClass in ClassNames
  {
    Card(
      CategoryClass(f.categoryPrimary),
      ImageSectionOf(f),
      Content(MetaInfo(f), Description(f), SkillsSection(f), LearningSection(f),
              AchievementsSection(f), ContactSection(f)),
      GallerySection(f))
  }

  /** A record with only a name and a category. */
  function NameAndCategory(name: string, category: string): Fields {
    Fields(Some(name), Some(category), 0, None, None, None, None, None, None, None, None, None,
           None, None, None, None, None, None, None, None, None, None, None, None, None)
  }

  /** Such a record gets no optional section, and its image section shows the
      category's default image and icon. */
  lemma MinimalRecordCard(name: string, category: string)
    requires category != ""
    ensures var card := ExperienceCard(NameAndCategory(name, category));
      && card.content == Content([], None, None, [], None, None)
      && card.gallery == None
      && card.image == ImageSection(DefaultImage(Some(category)), Some(name), CategoryIcon(category), category, 0)
  {
  }

  // ---------------------------------------------------------------- the timeline

  /** What the timeline container shows. */
  datatype TimelineView = Initial | NoExperiencesFound | UnableToLoad | Timeline(cards: seq<Card>)

  /** The part of the page the loader writes: whether the container exists, and its content. */
  datatype Page = Page(hasTimeline: bool, timeline: TimelineView)

  function CardsOf(records: seq<Fields>): (cards: seq<Card>)
    ensures |cards| == |records|
    ensures forall i :: 0 <= i < |records| ==> cards[i] == ExperienceCard(records[i])
  {
    seq(|records|, i requires 0 <= i < |records| => ExperienceCard(records[i]))
  }

  /** `renderToTimeline`: nothing without a container; the placeholder for no
      records; otherwise one card per record, in the order received. */
  function RenderToTimeline(page: Page, records: seq<Fields>): (after: Page)
    ensures after.hasTimeline == page.hasTimeline
    ensures !page.hasTimeline ==> after == page
    ensures page.hasTimeline && records == [] ==> after.timeline == NoExperiencesFound
    ensures page.hasTimeline && records != [] ==>
      && after.timeline.Timeline?
      && |after.timeline.cards| == |records|
      && forall i :: 0 <= i < |records| ==> after.timeline.cards[i] == ExperienceCard(records[i])
  {
    if !page.hasTimeline then page
    else if records == [] then page.(timeline := NoExperiencesFound)
    else page.(timeline := Timeline(CardsOf(records)))
  }

  // ---------------------------------------------------------------- statistics

  datatype Stats = Stats(totalExperiences: nat, totalHours: nat, skillCount: nat)

  /** The `reduce` over Total_Hours from the first record on, a missing value
      counting 0: no record has more hours than the total. */
  function SumHours(records: seq<Fields>): (total: nat)
    ensures forall i :: 0 <= i < |records| ==> records[i].totalHours <= total
    ensures records == [] ==> total == 0
  {
    if records == [] then 0 else SumHours(records[..|records| - 1]) + records[|records| - 1].totalHours
  }

  /** The total of two runs of records is the sum of their totals. */
  lemma {:induction false} SumHoursAppend(a: seq<Fields>, b: seq<Fields>)
    ensures SumHours(a + b) == SumHours(a) + SumHours(b)
    decreases |b|
  {
    if b == [] {
      EmptyConcat(b, a);
      assert a + b == a;
    } else {
      var n := |b| - 1;
      assert (a + b)[..|a + b| - 1] == a + b[..n];
      assert (a + b)[|a + b| - 1] == b[n];
      SumHoursAppend(a, b[..n]);
    }
  }

  /** The trimmed comma-separated pieces of a record's Skills, empty ones kept. */
  function RawSkillTokens(f: Fields): seq<string> {
    if Truthy(f.skills) then TrimAll(Split(f.skills.value, ',')) else []
  }

  /** The distinct elements of a sequence of strings. */
  function Elements(s: seq<string>): (e: set<string>)
    ensures forall t :: t in e <==> t in s
  {
    set t | t in s
  }

  /** The `allSkills` set: every trimmed piece of every record, case-sensitive.
      A string is in it exactly when it is a trimmed piece of some record. */
  function AllSkills(records: seq<Fields>): (skills: set<string>)
    ensures forall t :: t in skills <==> PieceOfSome(records, t)
  {
    if records == [] then {}
    else
      PieceOfSomeLast(records);
      AllSkills(records[..|records| - 1]) + Elements(RawSkillTokens(records[|records| - 1]))
  }

  /** `t` is a trimmed piece of the Skills of one of the records. */
  predicate PieceOfSome(records: seq<Fields>, t: string) {
    exists i :: 0 <= i < |records| && t in RawSkillTokens(records[i])
  }

  lemma PieceOfSomeExtend(records: seq<Fields>, r: Fields, t: string)
    ensures PieceOfSome(records + [r], t) <==> PieceOfSome(records, t) || t in RawSkillTokens(r)
  {
    var rs := records + [r];
    if PieceOfSome(rs, t) {
      var i :| 0 <= i < |rs| && t in RawSkillTokens(rs[i]);
      if i < |records| {
        assert rs[i] == records[i];
      }
    }
    if PieceOfSome(records, t) {
      var i :| 0 <= i < |records| && t in RawSkillTokens(records[i]);
      assert rs[i] == records[i];
    }
    if t in RawSkillTokens(r) {
      assert rs[|records|] == r;
    }
  }

  /** The pieces of a run of records are those of all but the last, and the last's. */
  lemma PieceOfSomeLast(records: seq<Fields>)
    requires records != []
    ensures forall t :: PieceOfSome(records, t) <==>
      PieceOfSome(records[..|records| - 1], t) || t in RawSkillTokens(records[|records| - 1])
  {
    var n := |records| - 1;
    FrontLast(records);
    forall t ensures PieceOfSome(records, t) <==> PieceOfSome(records[..n], t) || t in RawSkillTokens(records[n]) {
      PieceOfSomeExtend(records[..n], records[n], t);
    }
  }

  /** The tags one record's skills section shows. */
  function ShownOf(f: Fields): set<string> {
    if SkillsSection(f).Some? then Elements(SkillsSection(f).value) else {}
  }

  /** The tags the skills sections of the records show. */
  function ShownSkills(records: seq<Fields>): set<string> {
    if records == [] then {}
    else ShownSkills(records[..|records| - 1]) + ShownOf(records[|records| - 1])
  }

  lemma ElementsAppend(s: seq<string>, x: string)
    ensures Elements(s + [x]) == Elements(s) + {x}
  {
    assert forall t :: t in s + [x] <==> t in s || t == x;
  }

  lemma AllSkillsPrefix(records: seq<Fields>, i: nat)
    requires i < |records|
    ensures AllSkills(records[..i + 1]) == AllSkills(records[..i]) + Elements(RawSkillTokens(records[i]))
  {
    assert records[..i + 1][..i] == records[..i];
  }

  /** Adding the next trimmed piece to the set of the earlier ones. */
  lemma AddStep(acc: set<string>, result: set<string>, pieces: seq<string>, j: nat)
    requires j < |pieces|
    requires result == acc + Elements(TrimAll(pieces)[..j])
    ensures result + {Trim(pieces[j])} == acc + Elements(TrimAll(pieces)[..j + 1])
  {
    PrefixStep(TrimAll(pieces), j);
    ElementsAppend(TrimAll(pieces)[..j], Trim(pieces[j]));
  }


  /** The inner `forEach` of `updateStats`: adds every trimmed piece to the set. */
  method AddTrimmedPieces(acc: set<string>, pieces: seq<string>) returns (result: set<string>)
    ensures result == acc + Elements(TrimAll(pieces))
  {
    result := acc;
    var j := 0;
    while j < |pieces|
      invariant 0 <= j <= |pieces|
      invariant result == acc + Elements(TrimAll(pieces)[..j])
    {
      var skill := Trim(pieces[j]);
      AddStep(acc, result, pieces, j);
      result := result + {skill};
      j := j + 1;
    }
    assert TrimAll(pieces)[..|pieces|] == TrimAll(pieces);
  }

  /** The values `updateStats` writes: the number of records, the total hours and
      the number of distinct skill pieces. */
  method UpdateStats(records: seq<Fields>) returns (stats: Stats)
    ensures stats.totalExperiences == |records|
    ensures stats.totalHours == SumHours(records)
    ensures stats.skillCount == |AllSkills(records)|
  {
    var totalHours := 0;
    var allSkills: set<string> := {};
    var i := 0;
    while i < |records|
      invariant 0 <= i <= |records|
      invariant totalHours == SumHours(records[..i])
      invariant allSkills == AllSkills(records[..i])
    {
      var r := records[i];
      assert records[..i + 1][..i] == records[..i];
      totalHours := totalHours + r.totalHours;
      AllSkillsPrefix(records, i);
      if Truthy(r.skills) {
        allSkills := AddTrimmedPieces(allSkills, Split(r.skills.value, ','));
      }
      i := i + 1;
    }
    assert records[..|records|] == records;
    stats := Stats(|records|, totalHours, |allSkills|);
  }

  /** Apart from the empty string, a record's trimmed pieces are the tags its
      skills section shows. */
  lemma ShownOfRecord(f: Fields)
    ensures Elements(RawSkillTokens(f)) - {""} == ShownOf(f)
  {
    if Truthy(f.skills) {
      var tokens := SkillTokens(f.skills.value);
      forall t | t in Elements(RawSkillTokens(f)) - {""} ensures t in ShownOf(f) {
        assert t in tokens;
      }
    }
  }

  /** Apart from the empty string, the pieces `updateStats` collects are the
      tags the cards show. */
  lemma {:induction false} AllSkillsVersusShown(records: seq<Fields>)
    ensures AllSkills(records) - {""} == ShownSkills(records)
  {
    if records != [] {
      var n := |records| - 1;
      AllSkillsVersusShown(records[..n]);
      ShownOfRecord(records[n]);
      var e := Elements(RawSkillTokens(records[n]));
      assert (AllSkills(records[..n]) + e) - {""} == (AllSkills(records[..n]) - {""}) + (e - {""});
    }
  }

  /** The skill count is the number of distinct tags the cards show, plus one when
      some record's Skills has a blank piece (an empty piece is still counted). */
  lemma SkillCountVersusShownTags(records: seq<Fields>)
    ensures |AllSkills(records)| == |ShownSkills(records)| + (if "" in AllSkills(records) then 1 else 0)
  {
    AllSkillsVersusShown(records);
    SizeWithoutEmpty(AllSkills(records), ShownSkills(records));
  }

  /** A set is one larger than what is left of it without `""` exactly when it holds `""`. */
  lemma SizeWithoutEmpty(all: set<string>, rest: set<string>)
    requires all - {""} == rest
    ensures |all| == |rest| + (if "" in all then 1 else 0)
  {
    if "" in all {
      assert all == rest + {""};
    } else {
      assert all == rest;
    }
  }

  // ---------------------------------------------------------------- loading

  const ProxyPath := "/.netlify/functions/get-experiences?student="

  /** The request path the loader calls: the proxy's path, then the student's
      name lower-cased, one character for each, without escaping. */
  function RequestPath(studentName: string): (path: string)
    ensures |path| == |ProxyPath| + |studentName|
    ensures path[..|ProxyPath|] == ProxyPath
    ensures HasNoUpper(path[|ProxyPath|..])
    ensures forall i :: 0 <= i < |studentName| ==> path[|ProxyPath| + i] == LowerChar(studentName[i])
  {
    var query := AsciiLower(studentName);
    assert (ProxyPath + query)[|ProxyPath|..] == query;
    ProxyPath + query
  }

  /** The body of the proxy's reply as `response.json()` reads it: not JSON at
      all, the JSON `null` (whose `records` cannot be read), or a value whose
      `records` is a list of records or missing. */
  datatype ReplyBody = NotJson | JsonNull | Json(records: Option<seq<Fields>>)

  /** What the loader's `fetch` of the proxy yields. */
  datatype ProxyReply = NetworkFailure | HttpReply(status: nat, body: ReplyBody)

  datatype Loaded = Loaded(records: seq<Fields>, failed: bool)

  /** `loadExperiences`: the records of a successful reply (none when the reply
      has no `records`), and on any failure no records and the error shown. */
  function LoadExperiences(reply: ProxyReply): (loaded: Loaded)
    ensures loaded.failed <==>
      reply.NetworkFailure? || !IsOk(reply.status) || reply.body.NotJson? || reply.body.JsonNull?
    ensures loaded.failed ==> loaded.records == []
    ensures !loaded.failed ==> loaded.records == reply.body.records.GetOr([])
  {
    match reply
    case NetworkFailure => Loaded([], true)
    case HttpReply(status, body) =>
      if !IsOk(status) then Loaded([], true)
      else match body
        case NotJson => Loaded([], true)
        case JsonNull => Loaded([], true)
        case Json(records) => Loaded(records.GetOr([]), false)
  }

  /** `showError`: the error panel, when there is a container. */
  function ShowError(page: Page): (after: Page)
    ensures after.hasTimeline == page.hasTimeline
    ensures page.hasTimeline ==> after.timeline == UnableToLoad
    ensures !page.hasTimeline ==> after == page
  {
    if page.hasTimeline then page.(timeline := UnableToLoad) else page
  }

  /** The timeline after `init`: the load (with the error panel on failure), then
      the render of the records it produced. So a failed load ends with the
      "no experiences" placeholder: the render of the empty list replaces the
      error panel. */
  function TimelineAfterInit(page: Page, reply: ProxyReply): (after: Page)
    ensures after.hasTimeline == page.hasTimeline
    ensures page.hasTimeline && LoadExperiences(reply).failed ==> after.timeline == NoExperiencesFound
    ensures !LoadExperiences(reply).failed ==> after == RenderToTimeline(page, LoadExperiences(reply).records)
    ensures !page.hasTimeline ==> after == page
  {
    var loaded := LoadExperiences(reply);
    RenderToTimeline(if loaded.failed then ShowError(page) else page, loaded.records)
  }

  /** The evidently intended outcome of `init`: the error panel stays after a failed load. */
  function TimelineAfterInitIntended(page: Page, reply: ProxyReply): (after: Page)
    ensures page.hasTimeline && LoadExperiences(reply).failed ==> after.timeline == UnableToLoad
    ensures !LoadExperiences(reply).failed ==> after == TimelineAfterInit(page, reply)
  {
    var loaded := LoadExperiences(reply);
    if loaded.failed then ShowError(page) else RenderToTimeline(page, loaded.records)
  }

  /** `init`: load (showing the error panel on failure), render whatever the
      load returned, then compute the statistics, returning the records. */
  method Init(page: Page, reply: ProxyReply) returns (after: Page, stats: Stats, records: seq<Fields>)
    ensures records == LoadExperiences(reply).records
    ensures after == TimelineAfterInit(page, reply)
    ensures page.hasTimeline && LoadExperiences(reply).failed ==> after.timeline == NoExperiencesFound
    ensures stats == Stats(|records|, SumHours(records), |AllSkills(records)|)
  {
    var loaded := LoadExperiences(reply);
    records := loaded.records;
    after := page;
    if loaded.failed {
      after := ShowError(after);
    }
    after := RenderToTimeline(after, records);
    stats := UpdateStats(records);
  }

  /** `init` as evidently intended: after a failed load the error panel is left
      in place; otherwise the same as `Init`. */
  method InitIntended(page: Page, reply: ProxyReply) returns (after: Page, stats: Stats, records: seq<Fields>)
    ensures records == LoadExperiences(reply).records
    ensures after == TimelineAfterInitIntended(page, reply)
    ensures page.hasTimeline && LoadExperiences(reply).failed ==> after.timeline == UnableToLoad
    ensures stats == Stats(|records|, SumHours(records), |AllSkills(records)|)
  {
    var loaded := LoadExperiences(reply);
    records := loaded.records;
    after := page;
    if loaded.failed {
      after := ShowError(after);
    } else {
      after := RenderToTimeline(after, records);
    }
    stats := UpdateStats(records);
  }
}
