# Student portfolio timeline: loader and experiences proxy

This project models two parts of a small student-portfolio site, and proves
properties of the model. The site shows each student's learning experiences,
kept in an Airtable base, as a timeline of cards.

- **The experiences proxy** is a serverless function. It takes a `student`
  query parameter and checks three guards in order: the API token, the
  parameter, and the student's view in a fixed three-entry table. Only then
  does it fetch that view from Airtable. It relays the reply, or a 500 that
  carries the reason.
- **The client loader** asks the proxy for one student's records. It turns
  each record into a timeline card: the hero image, the meta line, the
  description, skills, reflections, achievements, contact and gallery. It
  also computes the page's three statistics.

A card is modelled as a structured value instead of HTML text. Each section
the loader leaves out is `None` or an empty sequence.

Modules:

| module | file | what it models |
|---|---|---|
| `Wrappers` | wrappers.dfy | `Option`, the shape of a field that may be `undefined` |
| `Http` | http.dfy | `response.ok` |
| `JsStrings` | js_strings.dfy | JavaScript truthiness, `||` on fields, `trim`, `split`/`join`, `toLowerCase`, decimal rendering of a status, `encodeURIComponent` |
| `UrlPattern` | url_pattern.dfy | the photo-URL pattern `https:\/\/[^\s)]+`, global and first match, as an explicit scanner |
| `Categories` | categories.dfy | the three category tables: default image, icon and CSS class |
| `PortfolioLoader` | portfolio_loader.dfy | the loader: photos, image, gallery, skills, meta, narrative sections, card, timeline, statistics, load and init |
| `ExperiencesProxy` | get_experiences.dfy | the proxy handler, with the upstream fetch result as an input |
| `EndToEnd` | end_to_end.dfy | the loader's request as the proxy sees it |

Inputs the code gets from outside are parameters of the model:

- the proxy's `process.env` (`Env`);
- the invocation event (`Event`);
- the outcome of the Airtable `fetch` and of `response.json()` (`Upstream`);
- the loader's `fetch` of the proxy and its parsed body (`ProxyReply`);
- whether the page has a `.timeline` container (`Page`).

## Model

Where a finding below corrects the source, the member that models the code as written keeps the plain name, and the corrected one ends in `Intended` (`Init` and `InitIntended`, `Handler` and `HandlerIntended`).

| member | source | states |
|---|---|---|
| `Wrappers.Option.GetOr` | NETLIFY_SECURE_CLEAN/realschool-portfolio-loader-secure.js:20 | the value when there is one, else the default (`data.records \|\| []`) |
| `JsStrings.Or` | NETLIFY_SECURE_CLEAN/realschool-portfolio-loader-secure.js:108 | `a \|\| b` on two fields: truthy exactly when either is; the first one when it is truthy, the second one otherwise |
| `JsStrings.TextOr` | NETLIFY_SECURE_CLEAN/realschool-portfolio-loader-secure.js:97-98 | `field \|\| ''`: non-empty exactly when the field is truthy, and then its text |
| `JsStrings.Trim` | NETLIFY_SECURE_CLEAN/realschool-portfolio-loader-secure.js:166 | the result has no whitespace at either end; it is empty exactly when the input is all whitespace |
| `JsStrings.LeadingWhitespace` | NETLIFY_SECURE_CLEAN/realschool-portfolio-loader-secure.js:359 | the count of leading characters `trim` removes: all of them whitespace, and the character after them, if any, is not |
| `JsStrings.TrimIsInfix` | NETLIFY_SECURE_CLEAN/realschool-portfolio-loader-secure.js:359 | what `trim` keeps is the contiguous piece after the leading whitespace, with only whitespace after it |
| `JsStrings.TrimOfTrimmed` | NETLIFY_SECURE_CLEAN/realschool-portfolio-loader-secure.js:166 | a string with no whitespace at either end trims to itself |
| `JsStrings.TrimIdempotent` | NETLIFY_SECURE_CLEAN/realschool-portfolio-loader-secure.js:166 | trimming twice is trimming once |
| `JsStrings.Split` | NETLIFY_SECURE_CLEAN/realschool-portfolio-loader-secure.js:166 | one piece more than there are separators, and no piece holds a separator |
| `JsStrings.SplitJoin` | NETLIFY_SECURE_CLEAN/realschool-portfolio-loader-secure.js:358 | joining the pieces of a split with the separator gives the string back |
| `JsStrings.SplitAfterPiece` | NETLIFY_SECURE_CLEAN/realschool-portfolio-loader-secure.js:358 | a separator-free prefix is glued onto the first piece of the rest |
| `JsStrings.JoinSplit` | NETLIFY_SECURE_CLEAN/realschool-portfolio-loader-secure.js:166 | splitting a join of separator-free pieces gives the pieces back |
| `JsStrings.JoinAppend` | NETLIFY_SECURE_CLEAN/realschool-portfolio-loader-secure.js:166 | joining two non-empty lists of pieces is joining each and putting one separator between them |
| `JsStrings.SplitOfPiece` | NETLIFY_SECURE_CLEAN/realschool-portfolio-loader-secure.js:166 | a text without the separator splits into itself alone |
| `JsStrings.SplitAtSeparator` | NETLIFY_SECURE_CLEAN/realschool-portfolio-loader-secure.js:166 | splitting at a separator gives the pieces before it, then the pieces after it |
| `JsStrings.AsciiLower` | NETLIFY_SECURE_CLEAN/netlify/functions/get-experiences.js:32 | `toLowerCase`: same length, each character lowered on its own, no capital left |
| `JsStrings.LowerOfLowercase` | NETLIFY_SECURE_CLEAN/netlify/functions/get-experiences.js:32 | text without capitals is left as it is |
| `JsStrings.LowerIdempotent` | NETLIFY_SECURE_CLEAN/netlify/functions/get-experiences.js:32 | lowering a lowered name changes nothing, so the proxy's second `toLowerCase` is harmless |
| `JsStrings.DigitChar` | NETLIFY_SECURE_CLEAN/netlify/functions/get-experiences.js:54 | a digit character whose value is the digit |
| `JsStrings.DecimalString` | NETLIFY_SECURE_CLEAN/netlify/functions/get-experiences.js:54 | a status in the message is a non-empty run of digits, starting with `0` only for zero |
| `JsStrings.DecimalRoundTrip` | NETLIFY_SECURE_CLEAN/netlify/functions/get-experiences.js:54 | reading the digits back gives the status |
| `JsStrings.Utf8Bytes` | NETLIFY_SECURE_CLEAN/netlify/functions/get-experiences.js:44 | one to four bytes per character, a single byte exactly for ASCII |
| `JsStrings.HexDigit` | NETLIFY_SECURE_CLEAN/netlify/functions/get-experiences.js:44 | the hex digits of an escape are themselves unreserved characters |
| `JsStrings.PercentEncode` | NETLIFY_SECURE_CLEAN/netlify/functions/get-experiences.js:44 | three characters per byte, each one `%` or an unreserved character (the hex digits are unreserved) |
| `JsStrings.EncodeUriComponent` | NETLIFY_SECURE_CLEAN/netlify/functions/get-experiences.js:44 | the output is only unreserved characters and `%`; an all-unreserved input is sent unchanged |
| `JsStrings.EncodeConcat` | NETLIFY_SECURE_CLEAN/netlify/functions/get-experiences.js:44 | encoding works character by character: it distributes over concatenation |
| `JsStrings.HexValueOfDigit` | NETLIFY_SECURE_CLEAN/netlify/functions/get-experiences.js:44 | a hex digit reads back as its value |
| `JsStrings.DecodeEscape` | NETLIFY_SECURE_CLEAN/netlify/functions/get-experiences.js:44 | percent-decoding an escape gives the character with that code |
| `JsStrings.DecodeEncodedChar` | NETLIFY_SECURE_CLEAN/netlify/functions/get-experiences.js:44 | an encoded ASCII character decodes back to itself |
| `JsStrings.EncodeDecodeAscii` | NETLIFY_SECURE_CLEAN/netlify/functions/get-experiences.js:44 | percent-decoding undoes `encodeURIComponent` on ASCII text |
| `UrlPattern.RunLength` | NETLIFY_SECURE_CLEAN/realschool-portfolio-loader-secure.js:272 | the greedy `[^\s)]+`: every character counted is in the class, and the next one is not |
| `UrlPattern.MatchLength` | NETLIFY_SECURE_CLEAN/realschool-portfolio-loader-secure.js:272 | a match starts here exactly when `https://` and one class character do; it is then a URL that cannot be extended |
| `UrlPattern.Matches` | NETLIFY_SECURE_CLEAN/realschool-portfolio-loader-secure.js:272-282 | the global `match`: every match is `https://` followed by one or more characters that are not whitespace or `)`; no match is `null`, as the empty list |
| `UrlPattern.MatchesEmptyIff` | NETLIFY_SECURE_CLEAN/realschool-portfolio-loader-secure.js:272-275 | `match` finds nothing exactly when no position starts a URL |
| `UrlPattern.FirstMatch` | NETLIFY_SECURE_CLEAN/realschool-portfolio-loader-secure.js:289-296 | the non-global `match`: the first of the global matches, and `null` exactly when there is none |
| `UrlPattern.MatchesOfUrl` | NETLIFY_SECURE_CLEAN/realschool-portfolio-loader-secure.js:272 | a URL on its own is matched whole, once |
| `UrlPattern.RunLengthStops` | NETLIFY_SECURE_CLEAN/realschool-portfolio-loader-secure.js:272 | a character outside the class ends the run |
| `UrlPattern.MatchLengthStops` | NETLIFY_SECURE_CLEAN/realschool-portfolio-loader-secure.js:272 | a match never spans a character outside the class |
| `UrlPattern.MatchesSplit` | NETLIFY_SECURE_CLEAN/realschool-portfolio-loader-secure.js:272 | text on either side of a whitespace or `)` is scanned independently, in order |
| `UrlPattern.TwoUrlsInOrder` | NETLIFY_SECURE_CLEAN/realschool-portfolio-loader-secure.js:272-275 | two URLs separated by a space or `)` come back both, in their order |
| `Categories.DefaultImage` | NETLIFY_SECURE_CLEAN/realschool-portfolio-loader-secure.js:302-317 | the category's own image for the nine listed categories, the generic image otherwise (absent category included); always a table value |
| `Categories.CategoryIcon` | NETLIFY_SECURE_CLEAN/realschool-portfolio-loader-secure.js:319-334 | the listed icon for the ten categories, the book otherwise |
| `Categories.CategoryClass` | NETLIFY_SECURE_CLEAN/realschool-portfolio-loader-secure.js:336-349 | always one of the seven class names; the mapped class for the eight keys, `other` for anything else |
| `PortfolioLoader.ExtractPhotos` | NETLIFY_SECURE_CLEAN/realschool-portfolio-loader-secure.js:268-286 | every match in Photos in order, then every match in Key_Image; all of them URLs |
| `PortfolioLoader.PhotoListAreUrls` | NETLIFY_SECURE_CLEAN/realschool-portfolio-loader-secure.js:268-286 | every extracted photo is a URL |
| `PortfolioLoader.ImageUrl` | NETLIFY_SECURE_CLEAN/realschool-portfolio-loader-secure.js:288-300 | the first URL of Key_Image, else the first of Photos, else the category's default image |
| `PortfolioLoader.FieldFirstMatch` | NETLIFY_SECURE_CLEAN/realschool-portfolio-loader-secure.js:289-296 | a truthy field with a first match is exactly a field with global matches, and the first match is their head |
| `PortfolioLoader.ImageUrlIsPhotoOrDefault` | NETLIFY_SECURE_CLEAN/realschool-portfolio-loader-secure.js:288-300 | the hero image is one of the extracted photos when there are any (not necessarily one of the six the gallery shows), else the category's default image |
| `PortfolioLoader.GallerySection` | NETLIFY_SECURE_CLEAN/realschool-portfolio-loader-secure.js:250-266 | omitted exactly when there are no photos; otherwise the first `min(6, n)` photos |
| `PortfolioLoader.TrimAll` | NETLIFY_SECURE_CLEAN/realschool-portfolio-loader-secure.js:166 | `map(s => s.trim())`: same length, each piece trimmed |
| `PortfolioLoader.NonEmpty` | NETLIFY_SECURE_CLEAN/realschool-portfolio-loader-secure.js:166 | `filter(s => s)`: keeps exactly the non-empty pieces, and no more pieces than given (order and repeats: `NonEmptyAppend`) |
| `PortfolioLoader.TrimKeepsOut` | NETLIFY_SECURE_CLEAN/realschool-portfolio-loader-secure.js:166 | trimming never adds a character, so a comma-free piece stays comma-free |
| `PortfolioLoader.SkillTokens` | NETLIFY_SECURE_CLEAN/realschool-portfolio-loader-secure.js:166 | the tags are non-empty, trimmed and comma-free, and are exactly the non-empty trimmed pieces |
| `PortfolioLoader.SkillsSection` | NETLIFY_SECURE_CLEAN/realschool-portfolio-loader-secure.js:163-178 | omitted exactly when Skills is falsy or leaves no tag |
| `PortfolioLoader.NonEmptyOfNonEmpty` | NETLIFY_SECURE_CLEAN/realschool-portfolio-loader-secure.js:166 | the filter keeps a list with no empty piece as it is |
| `PortfolioLoader.TrimAllOfTrimmed` | NETLIFY_SECURE_CLEAN/realschool-portfolio-loader-secure.js:166 | the map keeps a list of trimmed pieces as it is |
| `PortfolioLoader.NonEmptyAppend` | NETLIFY_SECURE_CLEAN/realschool-portfolio-loader-secure.js:166 | the filter works piece by piece: on a concatenation it filters each part and keeps their order |
| `PortfolioLoader.TrimAllAppend` | NETLIFY_SECURE_CLEAN/realschool-portfolio-loader-secure.js:166 | the map works piece by piece: on a concatenation it maps each part and keeps their order |
| `PortfolioLoader.SkillTokensAtComma` | NETLIFY_SECURE_CLEAN/realschool-portfolio-loader-secure.js:166 | the tags of `a,b` are the tags of `a` followed by the tags of `b`, repeats kept |
| `PortfolioLoader.SkillTokensOfPiece` | NETLIFY_SECURE_CLEAN/realschool-portfolio-loader-secure.js:166 | a comma-free text gives its trimmed self as the one tag, or no tag when blank; with `SkillTokensAtComma` this fixes the tag list of every text |
| `PortfolioLoader.SkillTokensOfJoin` | NETLIFY_SECURE_CLEAN/realschool-portfolio-loader-secure.js:163-178 | a comma-joined list of clean tags parses back to the same tags, in order |
| `PortfolioLoader.DateRangeOf` | NETLIFY_SECURE_CLEAN/realschool-portfolio-loader-secure.js:146-156 | nothing without Start_Date; the end only when End_Date is truthy |
| `PortfolioLoader.AppendSlot` | NETLIFY_SECURE_CLEAN/realschool-portfolio-loader-secure.js:93-138 | appending a later item kind keeps the line in order |
| `PortfolioLoader.FourSlots` | NETLIFY_SECURE_CLEAN/realschool-portfolio-loader-secure.js:93-138 | the four optional meta items, pushed in their fixed order, stay in order; each is on the line exactly when its condition holds, and nothing else is |
| `PortfolioLoader.MetaInfo` | NETLIFY_SECURE_CLEAN/realschool-portfolio-loader-secure.js:93-144 | term, place, hours, level in that order; each present exactly when its fields are truthy; no other item |
| `PortfolioLoader.CreateMetaInfo` | NETLIFY_SECURE_CLEAN/realschool-portfolio-loader-secure.js:93-144 | the pushes give `MetaInfo`, and the line is omitted exactly when no item applies |
| `PortfolioLoader.LevelSeparator` | NETLIFY_SECURE_CLEAN/realschool-portfolio-loader-secure.js:127-131 | the grade and age labels, with ` • ` between them exactly when both are there |
| `PortfolioLoader.PlacePrecedence` | NETLIFY_SECURE_CLEAN/realschool-portfolio-loader-secure.js:107-109 | the organisation before the venue, and `, City` exactly when City is truthy |
| `PortfolioLoader.LearningSection` | NETLIFY_SECURE_CLEAN/realschool-portfolio-loader-secure.js:180-211 | learned, surprised, challenged in that order; each present exactly when its field is truthy, holding that field's text |
| `PortfolioLoader.CreateLearningSection` | NETLIFY_SECURE_CLEAN/realschool-portfolio-loader-secure.js:180-211 | the pushes give `LearningSection`, empty exactly when all three fields are falsy |
| `PortfolioLoader.Description` | NETLIFY_SECURE_CLEAN/realschool-portfolio-loader-secure.js:158-161 | present exactly when Full_Description is truthy |
| `PortfolioLoader.AchievementsSection` | NETLIFY_SECURE_CLEAN/realschool-portfolio-loader-secure.js:213-227 | omitted exactly when both fields are falsy; Key_Achievements before Key_Take_Aways |
| `PortfolioLoader.ContactSection` | NETLIFY_SECURE_CLEAN/realschool-portfolio-loader-secure.js:229-248 | present exactly when Instructor_Names or Main_Contact is truthy, the instructor first; role line exactly when credentials or role title is truthy, the credentials first |
| `PortfolioLoader.ImageSectionOf` | NETLIFY_SECURE_CLEAN/realschool-portfolio-loader-secure.js:63-78 | the image is `getImageUrl`'s; the badge label is the category when truthy and `Learning` otherwise, with that label's icon; the hours and the title are the record's |
| `PortfolioLoader.ExperienceCard` | NETLIFY_SECURE_CLEAN/realschool-portfolio-loader-secure.js:46-61 | a card's class is always one of the seven class names |
| `PortfolioLoader.MinimalRecordCard` | NETLIFY_SECURE_CLEAN/realschool-portfolio-loader-secure.js:46-91 | a record with only a name and a category gets no optional section, and the category's default image and icon |
| `PortfolioLoader.CardsOf` | NETLIFY_SECURE_CLEAN/realschool-portfolio-loader-secure.js:39-41 | one card per record, in the order received |
| `PortfolioLoader.RenderToTimeline` | NETLIFY_SECURE_CLEAN/realschool-portfolio-loader-secure.js:30-44 | nothing without a container; the placeholder for no records; otherwise exactly the records' cards in order |
| `PortfolioLoader.SumHours` | NETLIFY_SECURE_CLEAN/realschool-portfolio-loader-secure.js:353 | the `reduce` over Total_Hours, missing as 0: zero for no records, and no record has more hours than the total |
| `PortfolioLoader.SumHoursAppend` | NETLIFY_SECURE_CLEAN/realschool-portfolio-loader-secure.js:353 | the total of two runs of records is the sum of their totals, so the order of the records does not matter |
| `PortfolioLoader.AllSkills` | NETLIFY_SECURE_CLEAN/realschool-portfolio-loader-secure.js:355-362 | the `allSkills` set: a string is in it exactly when it is a trimmed piece of some record's Skills |
| `PortfolioLoader.AddTrimmedPieces` | NETLIFY_SECURE_CLEAN/realschool-portfolio-loader-secure.js:358-360 | the inner loop adds exactly the trimmed pieces to the set |
| `PortfolioLoader.UpdateStats` | NETLIFY_SECURE_CLEAN/realschool-portfolio-loader-secure.js:351-362 | the count of records, the sum of their hours (missing as 0) and the size of the set of trimmed pieces |
| `PortfolioLoader.ShownOfRecord` | NETLIFY_SECURE_CLEAN/realschool-portfolio-loader-secure.js:163-178 | apart from the empty string, a record's trimmed pieces are the tags its card shows |
| `PortfolioLoader.AllSkillsVersusShown` | NETLIFY_SECURE_CLEAN/realschool-portfolio-loader-secure.js:351-362 | apart from the empty string, the counted skills are the tags the cards show |
| `PortfolioLoader.SkillCountVersusShownTags` | NETLIFY_SECURE_CLEAN/realschool-portfolio-loader-secure.js:351-371 | the skill count is the number of distinct shown tags, plus one when some Skills has a blank piece |
| `PortfolioLoader.RequestPath` | NETLIFY_SECURE_CLEAN/realschool-portfolio-loader-secure.js:13 | the proxy path, then the name with every capital lowered, character for character |
| `PortfolioLoader.LoadExperiences` | NETLIFY_SECURE_CLEAN/realschool-portfolio-loader-secure.js:10-27 | fails exactly on a network failure, a status outside 200 to 299, a body that is not JSON or the JSON `null`, and then no records; otherwise `records` or none |
| `PortfolioLoader.ShowError` | NETLIFY_SECURE_CLEAN/realschool-portfolio-loader-secure.js:373-383 | the error panel when there is a container, nothing otherwise |
| `PortfolioLoader.TimelineAfterInit` | NETLIFY_SECURE_CLEAN/realschool-portfolio-loader-secure.js:408-417 | as written: the page keeps or lacks its container; a failed load ends with the "No experiences found" placeholder; a successful one ends with the render of its records |
| `PortfolioLoader.TimelineAfterInitIntended` | NETLIFY_SECURE_CLEAN/realschool-portfolio-loader-secure.js:408-417 | the error panel stays after a failed load; a successful load renders as written |
| `PortfolioLoader.Init` | NETLIFY_SECURE_CLEAN/realschool-portfolio-loader-secure.js:408-417 | as written: load (the error panel on failure), then render what the load returned, so a failed load ends on the placeholder; statistics of the loaded records, and the records returned |
| `PortfolioLoader.InitIntended` | NETLIFY_SECURE_CLEAN/realschool-portfolio-loader-secure.js:408-417 | `init` as evidently intended: after a failed load the error panel stays; otherwise as `Init` |
| `ExperiencesProxy.StudentParam` | NETLIFY_SECURE_CLEAN/netlify/functions/get-experiences.js:5 | `student` of `event.queryStringParameters || {}`: present exactly when the parameters hold it, and then its value |
| `ExperiencesProxy.BaseId` | NETLIFY_SECURE_CLEAN/netlify/functions/get-experiences.js:9 | the configured base when truthy, else `appDxcv3BlLT1jkCL`; never empty |
| `ExperiencesProxy.ViewForIntended` | NETLIFY_SECURE_CLEAN/netlify/functions/get-experiences.js:26-32 | the lookup as evidently intended: a view is found exactly for the three lower-case names, and it is the table's entry |
| `ExperiencesProxy.ViewFor` | NETLIFY_SECURE_CLEAN/netlify/functions/get-experiences.js:26-34 | the indexed read as written: a view for the three names and also for `constructor` and `__proto__`; for any other key it agrees with `ViewForIntended` |
| `ExperiencesProxy.Url` | NETLIFY_SECURE_CLEAN/netlify/functions/get-experiences.js:44 | the URL starts with the base's Experiences table and `?view=`; the rest is only unreserved characters and `%`, and for an ASCII view decodes back to the view |
| `ExperiencesProxy.Headers` | NETLIFY_SECURE_CLEAN/netlify/functions/get-experiences.js:46-49 | exactly two headers: `Authorization` is `Bearer ` followed by the token, which reads back from it, and `Content-Type` is JSON |
| `ExperiencesProxy.Relay` | NETLIFY_SECURE_CLEAN/netlify/functions/get-experiences.js:41-76 | 200 with the CORS headers and the data exactly for an ok reply with JSON; otherwise 500 `Failed to fetch experiences` with the fetch error, the status or the parse error as message |
| `ExperiencesProxy.HandleWith` | NETLIFY_SECURE_CLEAN/netlify/functions/get-experiences.js:4-77 | a request is sent exactly when all three guards pass, and then the reply is relayed; otherwise an error body, 500 without token and 400 after it |
| `ExperiencesProxy.Handler` | NETLIFY_SECURE_CLEAN/netlify/functions/get-experiences.js:4-77 | the handler as written: a request is sent exactly for a token and a name that lower-cases to `fiona`, `hope`, `olivia`, `constructor` or `__proto__` |
| `ExperiencesProxy.HandlerIntended` | NETLIFY_SECURE_CLEAN/netlify/functions/get-experiences.js:4-77 | the handler as evidently intended: a request exactly for a token and one of the three names; otherwise it answers as `Handler`, except that it refuses the inherited names |
| `ExperiencesProxy.StudentDecides` | NETLIFY_SECURE_CLEAN/netlify/functions/get-experiences.js:5 | of the event, both handlers read only the `student` parameter |
| `ExperiencesProxy.TokenCheckedFirst` | NETLIFY_SECURE_CLEAN/netlify/functions/get-experiences.js:11-16 | without a token: 500 `API token not configured`, whatever the event |
| `ExperiencesProxy.StudentRequired` | NETLIFY_SECURE_CLEAN/netlify/functions/get-experiences.js:18-23 | with a token but no or an empty `student`: 400 `Student name required` |
| `ExperiencesProxy.InvalidStudent` | NETLIFY_SECURE_CLEAN/netlify/functions/get-experiences.js:32-39 | with a token and a name that is not one of the three: 400 `Invalid student name` from the intended handler, and from the handler as written unless the name lowers to an inherited key |
| `ExperiencesProxy.RejectionIgnoresUpstream` | NETLIFY_SECURE_CLEAN/netlify/functions/get-experiences.js:11-39 | a rejected call sends nothing, so its answer does not depend on Airtable |
| `ExperiencesProxy.AcceptedStudents` | NETLIFY_SECURE_CLEAN/netlify/functions/get-experiences.js:26-39 | with a token, the handler as written sends a request exactly when the lowered name is `fiona`, `hope`, `olivia` or an inherited key; the intended one only for the three names |
| `ExperiencesProxy.StudentCaseInsensitive` | NETLIFY_SECURE_CLEAN/netlify/functions/get-experiences.js:32 | a name and its lower-cased form get the same answer |
| `ExperiencesProxy.OutboundRequest` | NETLIFY_SECURE_CLEAN/netlify/functions/get-experiences.js:43-51 | for the three students: the request to the configured (or default) base with the student's view and the token; the URL of the base's Experiences table with the encoded view, and the bearer header |
| `ExperiencesProxy.EncodeSpace` | NETLIFY_SECURE_CLEAN/netlify/functions/get-experiences.js:44 | a space is sent as `%20` |
| `ExperiencesProxy.EncodeAroundSpace` | NETLIFY_SECURE_CLEAN/netlify/functions/get-experiences.js:44 | the text around a space is encoded on its own, the space as `%20` |
| `ExperiencesProxy.ViewQueriesDecode` | NETLIFY_SECURE_CLEAN/netlify/functions/get-experiences.js:26-30 | each view's query parameter decodes back to the view's name |
| `ExperiencesProxy.StatusInMessage` | NETLIFY_SECURE_CLEAN/netlify/functions/get-experiences.js:53-55 | a status outside 200 to 299 gives 500, and its decimal form in the message reads back as the status |
| `ExperiencesProxy.InheritedLowercase` | NETLIFY_SECURE_CLEAN/netlify/functions/get-experiences.js:32 | the guard's lowering leaves the inherited names unchanged, so they can be reached |
| `ExperiencesProxy.InheritedNamesReachAirtable` | NETLIFY_SECURE_CLEAN/netlify/functions/get-experiences.js:32-51 | as written, a name that lowers to an inherited key passes the guard and is fetched |
| `ExperiencesProxy.InheritedNamesRefused` | NETLIFY_SECURE_CLEAN/netlify/functions/get-experiences.js:32-39 | with the table's own entries only, such a name is refused with 400 |
| `EndToEnd.SentStudent` | NETLIFY_SECURE_CLEAN/realschool-portfolio-loader-secure.js:13 | the text after `student=` in the loader's path is the lowered name (the proxy reads it back as the same `student` only when it holds no `&`, `#`, `+`, `%` or space) |
| `EndToEnd.LoaderQueryAccepted` | NETLIFY_SECURE_CLEAN/netlify/functions/get-experiences.js:26-51 | any capitalisation of the three names, sent by the loader, is accepted and fetches that student's view |

## Left out

- HTML text, the DOM, `IntersectionObserver` and the scroll animations (`initScrollAnimations`), and `console` logging. A section is a value; the markup around it is not modelled.
- JSON text: `JSON.stringify` of the proxy's bodies and of the Airtable data, and parsing the replies. The parsed document and the parse outcome are inputs.
- The network. Both `fetch` calls are inputs, with their failure cases.
- `PortfolioLoader.DateRangeOf`: yields the raw Start_Date and End_Date. Their `toLocaleDateString` formatting in US English is not modelled, because it depends on the date parser and the locale data.
- `PortfolioLoader.Fields`: Total_Hours is a natural number, with 0 for a missing value. A fractional, negative or string value is not modelled; with a string, `reduce` would concatenate instead of add.
- `JsStrings.AsciiLower`: lowers only A to Z. The only other character whose lower case is an ASCII letter is the Kelvin sign U+212A, which lowers to `k`. `k` occurs in none of the keys compared after lowering (`fiona`, `hope`, `olivia`, `constructor`, `__proto__`). So no lookup result changes; only the text of a rejected name differs.
- Object-literal lookups in the loader's three category tables (`getDefaultImage`, `getCategoryIcon`, `mapCategoryToClass`) are modelled on the tables' own keys. A category label named like an `Object.prototype` member (`constructor`, `toString`) would find an inherited function. In `mapCategoryToClass` that ends in a `TypeError`. Such labels are outside the model.
- Strings are sequences of Unicode scalar values. UTF-16 lone surrogates, which `encodeURIComponent` rejects with an error, are not modelled.
- The `index` parameter of `createExperienceCard` is unused in the source and is dropped.
- `UpdateStats` returns the three values; writing them into the stat elements (and whether those elements exist) is DOM work. The `+` after the skill count is text formatting.
- The `context` parameter of the handler is unused in the source.
- `PortfolioLoader.ReplyBody`: a `records` value that is not an array of records (a string, an object) is not modelled; the loader would pass it on to `renderToTimeline`. A record without `fields` is not modelled either; `record.fields` of such a record throws outside the `try`.
- `EndToEnd.SentStudent`: the loader writes the name into the query without escaping, and the parsing of the query string into `queryStringParameters` is not modelled. So the model connects loader and proxy only for names without `&`, `#`, `+`, `%` or whitespace; the three student names are such names.
- `ExperiencesProxy.Request` holds the request by its parts (base, view, token). `Url` and `Headers` build the URL and the headers from them.

## Findings

| source | as written | input that shows it | evidently intended | confidence | as-written member | corrected member |
|---|---|---|---|---|---|---|
| NETLIFY_SECURE_CLEAN/netlify/functions/get-experiences.js:32-34 | `viewNames[student.toLowerCase()]` reads an object literal, so it also finds the members the literal inherits from `Object.prototype`; the lower-case ones are truthy and pass the guard | `student=constructor` (or `Constructor`, `__PROTO__`): a request is sent to Airtable with the view `function Object() { [native code] }` and its reply is relayed | only `fiona`, `hope` and `olivia` reach Airtable; every other name gets 400 `Invalid student name` | not executed; follows from JavaScript property lookup | `ExperiencesProxy.InheritedNamesReachAirtable` | `ExperiencesProxy.InheritedNamesRefused` |
| NETLIFY_SECURE_CLEAN/realschool-portfolio-loader-secure.js:408-417 | on a failed load, `loadExperiences` shows the error panel and returns `[]`; `init` then calls `renderToTimeline([])`, which replaces the panel with the "No experiences found" placeholder | any failed load with a `.timeline` container, e.g. the proxy answering 400 | the "Unable to load experiences" panel stays visible after a failure | not executed; follows from the call order | `PortfolioLoader.TimelineAfterInit` | `PortfolioLoader.TimelineAfterInitIntended` |
