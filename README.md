# SitecoreCommon.Helpers in Dafny

A model of the two helpers of SitecoreCommon.Helpers that hold real decision logic,
with proofs of what they promise.

- **FieldsHelper** reads the fields of a Sitecore item. It checks whether a field is
  present, not empty or checked, and whether an item is inside its activity window. It
  reads plain values with a default, parses integers with `Int32.TryParse`, and reads
  dates. It resolves link, reference, image and media fields to URLs, each getter with
  its own order of precedence and optional `" "` to `"%20"` escaping. It expands
  multilist fields into ids or items, follows a reference to a field of the target
  item, and strips `-{}` from an item id.
- **PublishingHelper** holds two static fields: the master database, set once, and the
  list of publication databases, replaced as a whole. `PublishItem` submits one batch of
  `PublishOptions` per publication database, with one option per master language.

Files:

- `wrappers.dfy`: `Option` stands for null, `Result` for an exception.
- `int32.dfy`: `int32`, `Int32.TryParse` and `Int32.ToString`.
- `content.dfy`: items, fields, databases, URL options and the `Platform` record of
  foreign services.
- `text.dfy`: `Replace(" ", "%20")`, `StringUtil.EnsurePrefix` and the `[-{}]+` regex
  replacement.
- `fields_helper.dfy`: `FieldsHelper`.
- `publishing_helper.dfy`: `PublishingHelper`, a class whose fields are the two static
  fields. A ghost sequence `submitted` records the batches handed to
  `PublishManager.Publish`.

An item maps each key its template defines to a `Field`, so `item.Fields[key] == null`
is `key !in fields`. This makes `HasField` the predicate `key in item.fields`; every
contract below uses it. A field is its raw value plus a shape tag: `Text`,
`Link(isInternal, isMediaLink, url, targetItem)`, `Reference(targetItem)`,
`Image(mediaItem)`, `Checkbox(checked)`, `Date(dateTime)` or `Multilist(items)`.
Sitecore's field wrappers convert from any field. So `(LinkField)field` and
`FieldTypeManager.GetField(field) is LinkField` differ: the cast works on every field,
while the type test looks at the shape. For links the model keeps that difference.
`AsLinkField` returns a link field's own link and has the platform read any other
field's raw value as link XML (`Platform.readLink`). The other casts (`AsReferenceField`,
`AsImageField`, `AsCheckboxField`, `AsDateField`, `AsMultilistField`) return the field's
own data when the shape matches and the empty value of that shape otherwise. There, a
cast on another shape gives what a failed type test would. The getters that test the
type look at `kind` directly.

Foreign calls are parameters. These are `LinkManager.GetItemUrl`,
`MediaManager.GetMediaUrl`, `ID.Parse`, `Database.Items.GetItem`,
`Sitecore.Context.Database`, `Factory.GetDatabase`, `Database.GetItem` and the XML
reading of a `LinkField` built from a field that is not link-typed.
`DateTime.Now` is a parameter `now`, and a `DateTime` is its tick count
(`DateTime.MinValue` is 0 ticks). C# default parameter values are explicit arguments.
The two `PublishItem` overloads are `PublishItem` and `PublishItemById`.
`Publishing.PublishScenario` is a client of the class. Its proof walks through two
publication databases and three languages: two batches of three options, six in all,
and nothing before any target is configured.

Behaviour modelled as the code has it, where a reader might expect otherwise:

- `GetInteger` on a present but unparseable field gives 0, what `Int32.TryParse` writes
  on failure, not -1. Only a missing field gives -1.
- `PublishItem` always sets `Deep = true`, whatever the publish mode.
- `PublishItem(String, PublishMode)` publishes the lookup result even when it is null.
  It is not a no-op for an unknown id.
- `GetMultilistFieldItems` silently skips ids that do not resolve, but it raises for two
  faults. `ID.Parse` throws `FormatException` on a stored id that is not an ID. With no
  database given and no context database, the lookup throws `NullReferenceException`.

## Model

| member | source | states |
|---|---|---|
| `FieldsHelper.HasField` | SitecoreCommon.Helpers/FieldsHelper.cs:25-40 | definition: the item's template defines a field under the key (`item.Fields[key] != null`); its consequences for every getter are in `MissingFieldDefaults` |
| `FieldsHelper.HasNotEmptyField` | SitecoreCommon.Helpers/FieldsHelper.cs:48-51 | definition: the field exists and its raw value is not empty; see `HasNotEmptyFieldByValue` |
| `FieldsHelper.HasCheckedCheckboxField` | SitecoreCommon.Helpers/FieldsHelper.cs:59-62 | definition: the field exists and, read as a checkbox, is checked; see `HasCheckedCheckboxFieldByGetter` |
| `FieldsHelper.HasCheckedCheckboxFieldByGetter` | SitecoreCommon.Helpers/FieldsHelper.cs:59-62 | for every item and key, "checked" holds iff `GetCheckboxField` finds the field and its checkbox is checked |
| `FieldsHelper.IsActual` | SitecoreCommon.Helpers/FieldsHelper.cs:71-90 | definition: each bound is missing, `DateTime.MinValue` or on the right side of `now`; see `IsActualByDates` |
| `Content.AsLinkField` | SitecoreCommon.Helpers/FieldsHelper.cs:138 | `(LinkField)field` always yields a link: a link-typed field's own link, any other field's raw value read as link XML by the platform |
| `Content.AsReferenceField` | SitecoreCommon.Helpers/FieldsHelper.cs:539 | `(ReferenceField)field` always yields a reference: the field's own for a reference-typed field, one without a target otherwise |
| `Content.AsImageField` | SitecoreCommon.Helpers/FieldsHelper.cs:253 | `(ImageField)field` always yields an image: the field's own for an image-typed field, one without a media item otherwise |
| `Content.AsCheckboxField` | SitecoreCommon.Helpers/FieldsHelper.cs:365 | `(CheckboxField)field` always yields a checkbox: the field's own for a checkbox-typed field, unchecked otherwise |
| `Content.AsDateField` | SitecoreCommon.Helpers/FieldsHelper.cs:376 | `(DateField)field` always yields a date: the field's own for a date-typed field, `DateTime.MinValue` otherwise |
| `Content.AsMultilistField` | SitecoreCommon.Helpers/FieldsHelper.cs:484 | `(MultilistField)field` always yields a multilist: the field's own ids for a multilist-typed field, none otherwise |
| `FieldsHelper.HasNotEmptyFieldByValue` | SitecoreCommon.Helpers/FieldsHelper.cs:48-51 | a field is "not empty" exactly when `GetValue` with an empty default returns a non-empty string |
| `FieldsHelper.CheckboxCases` | SitecoreCommon.Tests/Helpers/FieldsHelperTests.cs:177-179 | `HasCheckedCheckboxField` is true for a checked checkbox, false for an unchecked one and false for a missing field |
| `FieldsHelper.IsActualByDates` | SitecoreCommon.Helpers/FieldsHelper.cs:71-90 | `IsActual` holds iff (from is MinValue or from <= now) and (to is MinValue or to >= now), with the dates from `GetDateFieldValue`; a missing date field acts like one holding MinValue |
| `FieldsHelper.IsActualCases` | SitecoreCommon.Tests/Helpers/FieldsHelperTests.cs:204-209 | yesterday-to-tomorrow is active; an empty bound is open on either side; tomorrow as "from" or yesterday as "to" is inactive; two missing bounds are active |
| `FieldsHelper.GetValue` | SitecoreCommon.Helpers/FieldsHelper.cs:103-106 | the stored value whenever the field exists, even when empty; the default when it is missing |
| `FieldsHelper.GetValueOrDefaultIfEmpty` | SitecoreCommon.Helpers/FieldsHelper.cs:115-118 | the stored value when present and non-empty; the default when missing or empty |
| `FieldsHelper.GetValueOrDefaultIfEmptyByValue` | SitecoreCommon.Helpers/FieldsHelper.cs:115-118 | `GetValueOrDefaultIfEmpty` is `GetValue` with an empty result replaced by the default |
| `FieldsHelper.GetLinkField` | SitecoreCommon.Helpers/FieldsHelper.cs:186-189 | null exactly when the field is missing, otherwise the field read as a link |
| `FieldsHelper.GetImageField` | SitecoreCommon.Helpers/FieldsHelper.cs:251-254 | null exactly when the field is missing, otherwise the field read as an image |
| `FieldsHelper.GetCheckboxField` | SitecoreCommon.Helpers/FieldsHelper.cs:363-366 | null exactly when the field is missing, otherwise the field read as a checkbox |
| `FieldsHelper.GetDateField` | SitecoreCommon.Helpers/FieldsHelper.cs:374-377 | null exactly when the field is missing, otherwise the field read as a date |
| `FieldsHelper.GetReferenceField` | SitecoreCommon.Helpers/FieldsHelper.cs:537-540 | null exactly when the field is missing, otherwise the field read as a reference |
| `FieldsHelper.GetDateFieldValue` | SitecoreCommon.Helpers/FieldsHelper.cs:385-395 | MinValue for a missing field, otherwise the field's date |
| `FieldsHelper.GetUrl` | SitecoreCommon.Helpers/FieldsHelper.cs:126-178 | "" for a missing or empty field; with no target, the literal URL; an internal target gives the item URL (server URL, no language); a media target that is not internal gives the media URL prefixed to start with '/'; any other target gives the item URL |
| `FieldsHelper.GetUrlCandidates` | SitecoreCommon.Helpers/FieldsHelper.cs:126-178 | the result is always exactly one candidate: "", the literal URL, an item URL or a '/'-prefixed media URL |
| `FieldsHelper.GetUrlCases` | SitecoreCommon.Tests/Helpers/FieldsHelperTests.cs:81-115 | the test's untyped "Link Field External", whose raw value is external link XML, gives "http://google.com" through the link cast; an empty field gives "" (the assertions at lines 230-231) |
| `FieldsHelper.LinkFieldUrl` | SitecoreCommon.Helpers/FieldsHelper.cs:200-235 | before escaping, `GetLinkFieldUrl` gives "" for a missing field and for any shape other than link or reference |
| `FieldsHelper.GetLinkFieldUrl` | SitecoreCommon.Helpers/FieldsHelper.cs:198-243 | a link that is not internal-with-target gives its literal URL; an internal link with a target gives the item URL; a reference gives its target's item URL, or "" with no target; any other shape or a missing field gives ""; with escaping, the result holds no space |
| `FieldsHelper.GetLinkFieldUrlEscaping` | SitecoreCommon.Helpers/FieldsHelper.cs:237-240 | the escaped result is the unescaped result with every space replaced by "%20"; without spaces, the two are equal |
| `FieldsHelper.Escaped` | SitecoreCommon.Helpers/FieldsHelper.cs:237-240 | the optional escaping step: with escaping the result is `ReplaceSpaces` of the input and holds no space; without it, the input unchanged |
| `FieldsHelper.ImageUrlOptions` | SitecoreCommon.Helpers/FieldsHelper.cs:275-289 | a sized rendition of exactly the given width and height iff both differ from `Int32.MinValue`, otherwise the default options |
| `FieldsHelper.GetImageFieldUrl` | SitecoreCommon.Helpers/FieldsHelper.cs:265-299 | "" for a missing field or one with no media item; otherwise the media URL with the options of `ImageUrlOptions`, escaped on request |
| `FieldsHelper.GetImageFieldUrlUnsized` | SitecoreCommon.Helpers/FieldsHelper.cs:265-288 | leaving out either dimension (MinValue default) requests the unsized rendition |
| `FieldsHelper.GetMediaFileUrl` | SitecoreCommon.Helpers/FieldsHelper.cs:308-355 | a reference gives its target's media URL or ""; an internal link gives its target's media URL or ""; an external link gives the literal URL; a missing field or any other shape gives ""; escaping on request |
| `FieldsHelper.GetInteger` | SitecoreCommon.Helpers/FieldsHelper.cs:403-423 | -1 for a missing field; the parsed number when the text is a valid Int32; 0 (TryParse's failure output) otherwise |
| `FieldsHelper.GetIntegerField` | SitecoreCommon.Helpers/FieldsHelper.cs:467-470 | the same value as `GetInteger` |
| `FieldsHelper.GetIntegerRoundTrip` | SitecoreCommon.Helpers/FieldsHelper.cs:405-409 | a field holding `ToString(n)` reads back as n, for every Int32 n |
| `FieldsHelper.GetIntegerCase` | SitecoreCommon.Tests/Helpers/FieldsHelperTests.cs:247-249 | "123" reads as 123 |
| `FieldsHelper.GetIntegerUnparsable` | SitecoreCommon.Helpers/FieldsHelper.cs:405-409 | a present field with no digit, the empty one included, reads as 0, distinct from a missing field's -1 |
| `FieldsHelper.MissingFieldDefaults` | SitecoreCommon.Helpers/FieldsHelper.cs:25-40 | for a missing field `HasNotEmptyField` and `HasCheckedCheckboxField` are false, and every getter returns its fixed default: the given default, -1, MinValue, "" or null |
| `FieldsHelper.GetMultilistFieldItemsIDs` | SitecoreCommon.Helpers/FieldsHelper.cs:514-529 | the stored ids verbatim, in order, duplicates kept; the empty list for a missing field |
| `FieldsHelper.GetMultilistFieldItems` | SitecoreCommon.Helpers/FieldsHelper.cs:478-506 | the empty list for a missing field, otherwise `ExpandIds` of the stored ids: the first id `ID.Parse` rejects raises, a lookup without any database raises, and otherwise the items found for the ids, in order, unresolved ids skipped |
| `FieldsHelper.FirstUnparsable` | SitecoreCommon.Helpers/FieldsHelper.cs:486-488 | the index of the first stored id `ID.Parse` rejects; every id before it parses; none when all parse |
| `FieldsHelper.FirstUnparsableAt` | SitecoreCommon.Helpers/FieldsHelper.cs:486-488 | when the ids before index i all parse and id i does not, the first rejected id is id i: the id whose `ID.Parse` throws |
| `FieldsHelper.ExpandIds` | SitecoreCommon.Helpers/FieldsHelper.cs:486-501 | definition: an empty list gives no items; otherwise the first id `ID.Parse` rejects raises `FormatException`, a missing database raises `NullReferenceException` at the first lookup, and otherwise the resolved items; its properties are in `ExpandIdsSucceeds` and the `ResolveAll*` lemmas |
| `FieldsHelper.ExpandIdsSucceeds` | SitecoreCommon.Helpers/FieldsHelper.cs:486-501 | the expansion fails exactly when there is at least one id and some id is malformed or no database is available, never for a dangling id; an empty list succeeds without any database; on success it has no more items than ids |
| `FieldsHelper.ResolveAllLength` | SitecoreCommon.Helpers/FieldsHelper.cs:486-501 | at most one item per stored id |
| `FieldsHelper.ResolveAllAppend` | SitecoreCommon.Helpers/FieldsHelper.cs:486-501 | resolution goes id by id, so the items keep their ids' stored order |
| `FieldsHelper.ResolveAllMembers` | SitecoreCommon.Helpers/FieldsHelper.cs:495-500 | an item is in the result iff some stored id resolves to it |
| `FieldsHelper.ResolveAllComplete` | SitecoreCommon.Helpers/FieldsHelper.cs:495-500 | when every id resolves, the result has one item per id, the k-th for the k-th id |
| `FieldsHelper.GetReferenceFieldTargetItem` | SitecoreCommon.Helpers/FieldsHelper.cs:548-555 | the reference's target item; null exactly when the field is missing or the reference is dangling |
| `FieldsHelper.GetReferenceFieldTargetItemFieldValue` | SitecoreCommon.Helpers/FieldsHelper.cs:564-576 | non-empty iff the target exists and has a non-empty field under the key, and then it is that field's value; "" otherwise |
| `FieldsHelper.ReferenceFieldValueByHops` | SitecoreCommon.Helpers/FieldsHelper.cs:564-576 | the two hops: "" with no target, otherwise `GetValueOrDefaultIfEmpty(target, key, "")` |
| `FieldsHelper.GetItemSimpleID` | SitecoreCommon.Helpers/FieldsHelper.cs:583-588 | no '-', '{' or '}' is left; every other character occurs exactly as often as in the id; stripping again changes nothing |
| `Text.ReplaceSpaces` | SitecoreCommon.Helpers/FieldsHelper.cs:239 | `Replace(" ", "%20")` leaves no space and never shortens the string |
| `Text.ReplaceSpacesLength` | SitecoreCommon.Helpers/FieldsHelper.cs:239 | each space grows the string by exactly two characters |
| `Text.ReplaceSpacesAppend` | SitecoreCommon.Helpers/FieldsHelper.cs:239 | escaping distributes over concatenation, so non-space characters keep their order |
| `Text.ReplaceSpacesNoSpace` | SitecoreCommon.Helpers/FieldsHelper.cs:239 | a string without spaces is unchanged |
| `Text.ReplaceSpacesIdempotent` | SitecoreCommon.Helpers/FieldsHelper.cs:239 | escaping twice equals escaping once |
| `Text.EnsurePrefix` | SitecoreCommon.Helpers/FieldsHelper.cs:152 | the result starts with the prefix character; it is the input itself when that already starts with it, and the character before the input otherwise |
| `Text.EnsurePrefixIdempotent` | SitecoreCommon.Helpers/FieldsHelper.cs:152 | prefixing an already prefixed string changes nothing |
| `Text.RemoveIdSeparators` | SitecoreCommon.Helpers/FieldsHelper.cs:585-587 | no character of `[-{}]` is left and the result is no longer than the input |
| `Text.RemoveIdSeparatorsKeeps` | SitecoreCommon.Helpers/FieldsHelper.cs:585-587 | every other character occurs as often as in the input |
| `Text.RemoveIdSeparatorsAppend` | SitecoreCommon.Helpers/FieldsHelper.cs:585-587 | removal distributes over concatenation, so kept characters stay in order |
| `Text.RemoveIdSeparatorsClean` | SitecoreCommon.Helpers/FieldsHelper.cs:585-587 | a string without separators is unchanged |
| `Text.RemoveIdSeparatorsIdempotent` | SitecoreCommon.Helpers/FieldsHelper.cs:585-587 | removal is idempotent |
| `Int32.TryParse` | SitecoreCommon.Helpers/FieldsHelper.cs:409 | `Int32.TryParse` succeeds only on text containing a digit |
| `Int32.TryParseToString` | SitecoreCommon.Helpers/FieldsHelper.cs:409 | parsing the decimal text of any Int32 gives that number back, `Int32.MinValue` included |
| `Int32.TryParseNeedsDigit` | SitecoreCommon.Helpers/FieldsHelper.cs:409 | text without any digit fails to parse |
| `Int32.TryParse123` | SitecoreCommon.Tests/Helpers/FieldsHelperTests.cs:247-249 | "123" parses to 123 |
| `Publishing.OptionsFor` | SitecoreCommon.Helpers/PublishingHelper.cs:62-67 | definition: the options for one target and language, from the master database, in the caller's mode and at `now`, with Deep, CompareRevisions and RootItem = item; see `PlanOptions` |
| `Publishing.Batch` | SitecoreCommon.Helpers/PublishingHelper.cs:58-68 | definition: one option per language, in language order; see `BatchAt` |
| `Publishing.Plan` | SitecoreCommon.Helpers/PublishingHelper.cs:54-71 | definition: one batch per publication database, in target order; see `PlanAt`, `PlanSize` and `PublishItem` |
| `Publishing.BatchAt` | SitecoreCommon.Helpers/PublishingHelper.cs:58-67 | the batch for one publication database holds one option per master language, the j-th for the j-th language |
| `Publishing.PlanAt` | SitecoreCommon.Helpers/PublishingHelper.cs:54-71 | one batch per publication database, the i-th for the i-th database |
| `Publishing.PlanOptions` | SitecoreCommon.Helpers/PublishingHelper.cs:62-67 | option j of batch i targets `publicationDBs[i]` in `Languages[j]`, from `masterDB`, in the caller's mode, with Deep, CompareRevisions and RootItem = item |
| `Publishing.PlanSize` | SitecoreCommon.Helpers/PublishingHelper.cs:54-71 | one publish submits \|publicationDBs\| × \|Languages\| options in all |
| `Publishing.OpenDatabasesAll` | SitecoreCommon.Helpers/PublishingHelper.cs:39-42 | when every name opens, there is one database per name, in name order |
| `Publishing.PublishingHelper.constructor` | SitecoreCommon.Helpers/PublishingHelper.cs:16-21 | both static fields start out null and nothing has been submitted |
| `Publishing.PublishingHelper.SetUpMasterDatabase` | SitecoreCommon.Helpers/PublishingHelper.cs:26-29 | a set master database is never replaced; a null one becomes `Factory.GetDatabase("master")`, which stays null if the factory throws |
| `Publishing.PublishingHelper.SetUpPublicationDatabases` | SitecoreCommon.Helpers/PublishingHelper.cs:35-43 | the list is replaced by the databases of the names in name order, one per name when none fails; after a factory throw it keeps those opened before it |
| `Publishing.PublishingHelper.Publish` | SitecoreCommon.Helpers/PublishingHelper.cs:70 | `PublishManager.Publish` appends exactly the given batch to the submitted batches |
| `Publishing.PublishingHelper.PublishItem` | SitecoreCommon.Helpers/PublishingHelper.cs:50-73 | no batch unless the master database is set and the publication list is set and non-empty; otherwise exactly `Plan`'s batches, in target order; the configuration is unchanged |
| `Publishing.PublishingHelper.PublishItemById` | SitecoreCommon.Helpers/PublishingHelper.cs:80-88 | nothing without a master database; otherwise `PublishItem` of the id's lookup in the master database, found or null |

## Left out

- `GetDouble`: floating-point parsing under `NumberFormatInfo` and `NumberStyles.Any` has no faithful model without .NET's number formatting. Its culture tests go with it.
- Diagnostics: the `Log.Warn` calls of `HasField` and `GetInteger` are observability only and are not modelled.
- Parsing of raw field values: a field's shape tag carries what Sitecore's wrappers read out of the raw value. That covers a link's XML attributes, a checkbox's "1", a date's ISO text, a multilist's `|`-separated ids and the resolution of target ids to items. The link cast also reads a field of another shape, through `Platform.readLink`, whose XML parsing is not modelled.
- The reference, image, checkbox, date and multilist casts on a field of another shape give the empty value of the requested shape, although Sitecore would still parse its raw text. The only test that relies on such a reading goes through the link cast (`GetUrlCases`).
- `FieldTypeManager.GetField(field) is LinkField` / `is ReferenceField` is modelled as a test on the shape tag.
- `Int32.TryParse`: culture-specific sign symbols and .NET's tolerance of trailing NUL characters; the invariant culture's '+' and '-' are modelled.
- `PublishItem`: the source reads `DateTime.Now` once per option; the model stamps all options of a call with one instant `now`.
- `PublishManager.Publish`: the replication itself (revision comparison, deep traversal, asynchronous completion) and the handles it returns are external; only the submitted batches are recorded.
- Null arguments that make the source throw (a null item, key or name list) are excluded by the types.
- Thread safety of the two static fields.
- ItemsHelper (`LatinToAscii`, `ToUnichar`, `GetValidItemName`): its source is not part of this model.
