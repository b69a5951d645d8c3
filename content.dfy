/**
 * The Sitecore data model the helpers read: items, their fields, databases and
 * languages, and the platform services the helpers call but do not implement.
 */
module Content {
  import opened Wrappers
  import opened Int32

  /** The text form of a Sitecore ID, as `ID.ToString()` gives it: "{XXXXXXXX-XXXX-...}". */
  type ItemId = string

  datatype Language = Language(name: string)

  /**
   * A point in time as .NET `DateTime` ticks. `DateTime.MinValue` has zero ticks;
   * Sitecore's DateField reports an empty or unparseable value as `DateTime.MinValue`.
   */
  type DateTime = nat
  const DateTimeMinValue: DateTime := 0

  /** A Sitecore database: its name and the languages it defines (`Database.Languages`). */
  datatype Database = Database(name: string, languages: seq<Language>)

  /**
   * The shape a field's template gives it, together with what Sitecore's typed field
   * wrapper (`LinkField`, `ReferenceField`, ...) reads out of the raw value.
   * Target items are the items the platform resolved the stored ids to.
   */
  datatype FieldKind =
    | Text
    | Link(isInternal: bool, isMediaLink: bool, url: string, targetItem: Option<Item>)
    | Reference(targetItem: Option<Item>)
    | Image(mediaItem: Option<Item>)
    | Checkbox(checked: bool)
    | Date(dateTime: DateTime)
    | Multilist(items: seq<string>)

  /** A field of an item: its raw stored value and its shape. */
  datatype Field = Field(value: string, kind: FieldKind)

  /**
   * A content item. `fields` holds exactly the fields its template defines, so that
   * `Item.Fields[key]` is null precisely when `key !in fields`.
   */
  datatype Item = Item(
    id: ItemId,
    path: string,
    templateId: ItemId,
    templateName: string,
    fields: map<string, Field>)

  /** What a `LinkField` wrapper can read: a link. */
  type LinkValue = k: FieldKind | k.Link? witness Link(false, false, "", None)

  /**
   * `(LinkField)field`: a link-typed field gives its own link; any other field has its
   * raw value read as link XML by the platform (`Platform.readLink`).
   */
  function AsLinkField(p: Platform, f: Field): (l: FieldKind)
    ensures l.Link?
    ensures f.kind.Link? ==> l == f.kind
    ensures !f.kind.Link? ==> l == p.readLink(f.value)
  {
    if f.kind.Link? then f.kind else p.readLink(f.value)
  }

  // The other field wrappers do not read the raw value of a field of another
  // shape here: such a field reads as the empty value of the requested shape.

  function AsReferenceField(f: Field): (r: FieldKind)
    ensures r.Reference?
    ensures f.kind.Reference? ==> r == f.kind
    ensures !f.kind.Reference? ==> r == Reference(None)
  {
    if f.kind.Reference? then f.kind else Reference(None)
  }

  function AsImageField(f: Field): (i: FieldKind)
    ensures i.Image?
    ensures f.kind.Image? ==> i == f.kind
    ensures !f.kind.Image? ==> i == Image(None)
  {
    if f.kind.Image? then f.kind else Image(None)
  }

  function AsCheckboxField(f: Field): (c: FieldKind)
    ensures c.Checkbox?
    ensures f.kind.Checkbox? ==> c == f.kind
    ensures !f.kind.Checkbox? ==> c == Checkbox(false)
  {
    if f.kind.Checkbox? then f.kind else Checkbox(false)
  }

  function AsDateField(f: Field): (d: FieldKind)
    ensures d.Date?
    ensures f.kind.Date? ==> d == f.kind
    ensures !f.kind.Date? ==> d == Date(DateTimeMinValue)
  {
    if f.kind.Date? then f.kind else Date(DateTimeMinValue)
  }

  function AsMultilistField(f: Field): (m: FieldKind)
    ensures m.Multilist?
    ensures f.kind.Multilist? ==> m == f.kind
    ensures !f.kind.Multilist? ==> m == Multilist([])
  {
    if f.kind.Multilist? then f.kind else Multilist([])
  }

  datatype LanguageEmbedding = Always | AsNeeded | Never

  /** `UrlOptions` of `LinkManager.GetItemUrl`; `DefaultUrlOptions` is what the one-argument overload uses. */
  datatype UrlOptions =
    | DefaultUrlOptions
    | UrlOptions(alwaysIncludeServerUrl: bool, languageEmbedding: LanguageEmbedding)

  /** `MediaUrlOptions` of `MediaManager.GetMediaUrl`; `EmptyMediaOptions` is the one-argument overload. */
  datatype MediaUrlOptions =
    | EmptyMediaOptions
    | AbsolutePathOptions
    | SizedOptions(width: int32, height: int32)

  /**
   * The platform services the helpers call. They are not modelled beyond their signatures:
   * `itemUrl` is `LinkManager.GetItemUrl`, `mediaUrl` is `MediaManager.GetMediaUrl`,
   * `parseId` is `ID.Parse` (`None`: it throws a FormatException), `getItem` is
   * `Database.Items.GetItem(id, language)` (`None` language: the context language), and
   * `contextDatabase` is `Sitecore.Context.Database` (which may be null), and `readLink`
   * is what a `LinkField` wrapper reads out of the raw value of a field that is not
   * link-typed (the attributes of its `<link>` XML).
   */
  datatype Platform = Platform(
    itemUrl: (Item, UrlOptions) -> string,
    mediaUrl: (Item, MediaUrlOptions) -> string,
    parseId: string -> Option<ItemId>,
    getItem: (Database, ItemId, Option<Language>) -> Option<Item>,
    contextDatabase: Option<Database>,
    readLink: string -> LinkValue)
}
