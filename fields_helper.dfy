/**
 * `FieldsHelper`: reading typed values and URLs out of the fields of a Sitecore item,
 * with a default for every field that is missing.
 */
module FieldsHelper {
  import opened Wrappers
  import opened Int32
  import opened Content
  import opened Text

  // ---------------------------------------------------------------------------
  // Check methods
  // ---------------------------------------------------------------------------

  /** `HasField`: the item's template defines a field under `key` (`item.Fields[key] != null`). */
  predicate HasField(item: Item, key: string) {
    key in item.fields
  }

  /** `HasNotEmptyField`: the field exists and its raw value is not empty. */
  predicate HasNotEmptyField(item: Item, key: string) {
    HasField(item, key) && |item.fields[key].value| > 0
  }

  /** `HasCheckedCheckboxField`: the field exists and, read as a checkbox, is checked. */
  predicate HasCheckedCheckboxField(item: Item, key: string) {
    HasField(item, key) && AsCheckboxField(item.fields[key]).checked
  }

  /** A checkbox is "checked" exactly when `GetCheckboxField` finds it and it is checked. */
  lemma HasCheckedCheckboxFieldByGetter(item: Item, key: string)
    ensures HasCheckedCheckboxField(item, key)
        <==> GetCheckboxField(item, key).Some? && GetCheckboxField(item, key).value.checked
  {
  }

  /**
   * `IsActual`: the item is inside the window its two date fields describe. A bound
   * whose field is missing, or whose date is `DateTime.MinValue` (Sitecore's "no date"), does not
   * restrict; otherwise `from <= now <= to` on the side it bounds.
   */
  predicate IsActual(item: Item, fromKey: string, toKey: string, now: DateTime) {
    (GetDateField(item, fromKey).None?
     || GetDateField(item, fromKey).value.dateTime <= now
     || GetDateField(item, fromKey).value.dateTime == DateTimeMinValue)
    &&
    (GetDateField(item, toKey).None?
     || GetDateField(item, toKey).value.dateTime >= now
     || GetDateField(item, toKey).value.dateTime == DateTimeMinValue)
  }

  // ---------------------------------------------------------------------------
  // Get methods: plain values
  // ---------------------------------------------------------------------------

  /** `GetValue`: the raw value of a field that exists, even an empty one; the default otherwise. */
  function GetValue(item: Item, key: string, defaultValue: string): (r: string)
    ensures HasField(item, key) ==> r == item.fields[key].value
    ensures !HasField(item, key) ==> r == defaultValue
  {
    if HasField(item, key) then item.fields[key].value else defaultValue
  }

  /** `GetValueOrDefaultIfEmpty`: the raw value if it is present and not empty, otherwise the default. */
  function GetValueOrDefaultIfEmpty(item: Item, key: string, defaultValue: string): (r: string)
    ensures HasNotEmptyField(item, key) ==> r == item.fields[key].value && r != ""
    ensures !HasNotEmptyField(item, key) ==> r == defaultValue
  {
    if HasNotEmptyField(item, key) then item.fields[key].value else defaultValue
  }

  /** A field counts as "not empty" exactly when `GetValue` with an empty default gives a non-empty string. */
  lemma HasNotEmptyFieldByValue(item: Item, key: string)
    ensures HasNotEmptyField(item, key) <==> GetValue(item, key, "") != ""
  {
  }

  /** `GetValueOrDefaultIfEmpty` is `GetValue` with an empty value replaced by the default. */
  lemma GetValueOrDefaultIfEmptyByValue(item: Item, key: string, defaultValue: string)
    ensures GetValueOrDefaultIfEmpty(item, key, defaultValue)
         == (var v := GetValue(item, key, ""); if v == "" then defaultValue else v)
  {
  }

  // ---------------------------------------------------------------------------
  // Typed field getters: a cast of the field, or null when it is missing
  // ---------------------------------------------------------------------------

  function GetLinkField(p: Platform, item: Item, key: string): (l: Option<FieldKind>)
    ensures l.Some? <==> HasField(item, key)
    ensures l.Some? ==> l.value.Link? && l.value == AsLinkField(p, item.fields[key])
  {
    if HasField(item, key) then Some(AsLinkField(p, item.fields[key])) else None
  }

  function GetImageField(item: Item, key: string): (i: Option<FieldKind>)
    ensures i.Some? <==> HasField(item, key)
    ensures i.Some? ==> i.value.Image? && i.value == AsImageField(item.fields[key])
  {
    if HasField(item, key) then Some(AsImageField(item.fields[key])) else None
  }

  function GetCheckboxField(item: Item, key: string): (c: Option<FieldKind>)
    ensures c.Some? <==> HasField(item, key)
    ensures c.Some? ==> c.value.Checkbox? && c.value == AsCheckboxField(item.fields[key])
  {
    if HasField(item, key) then Some(AsCheckboxField(item.fields[key])) else None
  }

  function GetDateField(item: Item, key: string): (d: Option<FieldKind>)
    ensures d.Some? <==> HasField(item, key)
    ensures d.Some? ==> d.value.Date? && d.value == AsDateField(item.fields[key])
  {
    if HasField(item, key) then Some(AsDateField(item.fields[key])) else None
  }

  function GetReferenceField(item: Item, key: string): (r: Option<FieldKind>)
    ensures r.Some? <==> HasField(item, key)
    ensures r.Some? ==> r.value.Reference? && r.value == AsReferenceField(item.fields[key])
  {
    if HasField(item, key) then Some(AsReferenceField(item.fields[key])) else None
  }

  // ---------------------------------------------------------------------------
  // Dates and the activity window
  // ---------------------------------------------------------------------------

  /** `GetDateFieldValue`: the field's date, or `DateTime.MinValue` when the field is missing. */
  function GetDateFieldValue(item: Item, key: string): (d: DateTime)
    ensures !HasField(item, key) ==> d == DateTimeMinValue
    ensures HasField(item, key) ==> d == AsDateField(item.fields[key]).dateTime
  {
    if HasField(item, key) then AsDateField(item.fields[key]).dateTime else DateTimeMinValue
  }

  /** An open-bounded window: `DateTime.MinValue` on either side stands for "no bound". */
  predicate InWindow(from: DateTime, to: DateTime, now: DateTime) {
    (from == DateTimeMinValue || from <= now) && (to == DateTimeMinValue || now <= to)
  }

  /**
   * `IsActual` only depends on the two dates `GetDateFieldValue` reports: a missing
   * field behaves exactly like a field holding `DateTime.MinValue`.
   */
  lemma IsActualByDates(item: Item, fromKey: string, toKey: string, now: DateTime)
    ensures IsActual(item, fromKey, toKey, now)
        <==> InWindow(GetDateFieldValue(item, fromKey), GetDateFieldValue(item, toKey), now)
  {
  }

  /** A date field holding `d` under `key`. */
  function WithDate(item: Item, key: string, d: DateTime): (r: Item)
    ensures HasField(r, key) && GetDateFieldValue(r, key) == d
  {
    item.(fields := item.fields[key := Field("", Date(d))])
  }

  /**
   * The cases of FieldsHelperTests.TestGetDateValue: yesterday-to-tomorrow is active,
   * an empty bound is open, a bound of tomorrow as "from" or yesterday as "to" is not.
   */
  lemma IsActualCases(item: Item, now: DateTime, yesterday: DateTime, tomorrow: DateTime)
    requires DateTimeMinValue < yesterday < now < tomorrow
    requires "Missing" !in item.fields
    ensures var i := WithDate(WithDate(WithDate(item, "From", yesterday), "To", tomorrow), "Empty", DateTimeMinValue);
      && IsActual(i, "From", "To", now)
      && IsActual(i, "From", "Empty", now)
      && IsActual(i, "Empty", "To", now)
      && !IsActual(i, "To", "Empty", now)
      && !IsActual(i, "Empty", "From", now)
      && IsActual(i, "Missing", "Missing", now)
  {
    var i := WithDate(WithDate(WithDate(item, "From", yesterday), "To", tomorrow), "Empty", DateTimeMinValue);
    IsActualByDates(i, "From", "To", now);
    IsActualByDates(i, "From", "Empty", now);
    IsActualByDates(i, "Empty", "To", now);
    IsActualByDates(i, "To", "Empty", now);
    IsActualByDates(i, "Empty", "From", now);
    IsActualByDates(i, "Missing", "Missing", now);
  }

  // ---------------------------------------------------------------------------
  // URLs
  // ---------------------------------------------------------------------------

  /** The options `GetUrl` passes to `LinkManager.GetItemUrl`: server URL always, language never. */
  const ServerUrlOptions: UrlOptions := UrlOptions(true, Never)

  /** The optional last step of the URL getters: `Replace(" ", "%20")` when asked for. */
  function Escaped(replaceSpaces: bool, url: string): (r: string)
    ensures replaceSpaces ==> r == ReplaceSpaces(url) && ' ' !in r
    ensures !replaceSpaces ==> r == url
  {
    if replaceSpaces then ReplaceSpaces(url) else url
  }

  /**
   * `GetUrl`: a non-empty field read as a link resolves, first match winning, to the
   * target's item URL when internal, to the target's media URL (always starting with
   * '/') when a media link, to the target's item URL for any other target, and to the
   * literal URL when there is no target. A missing or empty field gives "".
   */
  function GetUrl(p: Platform, item: Item, key: string): (url: string)
    ensures !HasNotEmptyField(item, key) ==> url == ""
    ensures HasNotEmptyField(item, key) ==>
      var link := AsLinkField(p, item.fields[key]);
      && (link.targetItem.None? ==> url == link.url)
      && (link.targetItem.Some? && link.isInternal ==>
            url == p.itemUrl(link.targetItem.value, ServerUrlOptions))
      && (link.targetItem.Some? && !link.isInternal && link.isMediaLink ==>
            url == EnsurePrefix('/', p.mediaUrl(link.targetItem.value, AbsolutePathOptions))
            && url[0] == '/')
      && (link.targetItem.Some? && !link.isInternal && !link.isMediaLink ==>
            url == p.itemUrl(link.targetItem.value, ServerUrlOptions))
  {
    if HasNotEmptyField(item, key) then
      var extLink := AsLinkField(p, item.fields[key]);
      if extLink.isInternal && extLink.targetItem.Some? then
        p.itemUrl(extLink.targetItem.value, ServerUrlOptions)
      else if extLink.isMediaLink && extLink.targetItem.Some? then
        EnsurePrefix('/', p.mediaUrl(extLink.targetItem.value, AbsolutePathOptions))
      else if extLink.targetItem.Some? then
        p.itemUrl(extLink.targetItem.value, ServerUrlOptions)
      else if |extLink.url| > 0 then
        extLink.url
      else
        ""
    else
      ""
  }

  /** Whatever the link, `GetUrl` returns one of its four candidates, never a combination. */
  lemma GetUrlCandidates(p: Platform, item: Item, key: string)
    ensures var url := GetUrl(p, item, key);
      || url == ""
      || (HasField(item, key) && url == AsLinkField(p, item.fields[key]).url)
      || (exists t :: url == p.itemUrl(t, ServerUrlOptions))
      || (exists t :: url == EnsurePrefix('/', p.mediaUrl(t, AbsolutePathOptions)))
  {
    if HasNotEmptyField(item, key) {
      var link := AsLinkField(p, item.fields[key]);
      if link.targetItem.Some? {
        var t := link.targetItem.value;
        assert GetUrl(p, item, key) == p.itemUrl(t, ServerUrlOptions)
            || GetUrl(p, item, key) == EnsurePrefix('/', p.mediaUrl(t, AbsolutePathOptions));
      }
    }
  }

  /**
   * FieldsHelperTests.TestGetUrl: "Link Field External" is an untyped field whose raw
   * value is external link XML. The link cast reads that XML as an external link without
   * a target, so its literal URL comes back. An empty field gives "".
   */
  lemma GetUrlCases(p: Platform, item: Item)
    requires "Link Field External" in item.fields
    requires item.fields["Link Field External"]
          == Field("<link linktype=\"external\" url=\"http://google.com\" />", Text)
    requires p.readLink("<link linktype=\"external\" url=\"http://google.com\" />")
          == Link(false, false, "http://google.com", None)
    requires "Empty Field" in item.fields && item.fields["Empty Field"].value == ""
    ensures GetUrl(p, item, "Link Field External") == "http://google.com"
    ensures GetUrl(p, item, "Empty Field") == ""
  {
  }

  /** The URL `GetLinkFieldUrl` computes before the optional escaping. */
  function LinkFieldUrl(p: Platform, item: Item, key: string): (url: string)
    ensures !HasField(item, key) ==> url == ""
    ensures HasField(item, key) && !item.fields[key].kind.Link? && !item.fields[key].kind.Reference? ==> url == ""
  {
    if HasField(item, key) then
      var kind := item.fields[key].kind;
      if kind.Link? then
        if kind.isInternal && kind.targetItem.Some? then p.itemUrl(kind.targetItem.value, DefaultUrlOptions)
        else kind.url
      else if kind.Reference? then
        if kind.targetItem.Some? then p.itemUrl(kind.targetItem.value, DefaultUrlOptions) else ""
      else ""
    else ""
  }

  /**
   * `GetLinkFieldUrl`: for a link field, the target's item URL when the link is internal
   * and resolves, its literal URL otherwise; for a reference field, the target's item URL
   * or ""; "" for a missing field or any other shape. Spaces are escaped on request.
   */
  function GetLinkFieldUrl(p: Platform, item: Item, key: string, replaceSpaces: bool): (url: string)
    ensures !HasField(item, key) ==> url == ""
    ensures HasField(item, key) ==>
      var kind := item.fields[key].kind;
      && (kind.Link? && !(kind.isInternal && kind.targetItem.Some?) ==>
            url == Escaped(replaceSpaces, kind.url))
      && (kind.Link? && kind.isInternal && kind.targetItem.Some? ==>
            url == Escaped(replaceSpaces, p.itemUrl(kind.targetItem.value, DefaultUrlOptions)))
      && (kind.Reference? && kind.targetItem.None? ==> url == "")
      && (kind.Reference? && kind.targetItem.Some? ==>
            url == Escaped(replaceSpaces, p.itemUrl(kind.targetItem.value, DefaultUrlOptions)))
      && (!kind.Link? && !kind.Reference? ==> url == "")
    ensures replaceSpaces ==> ' ' !in url
  {
    Escaped(replaceSpaces, LinkFieldUrl(p, item, key))
  }

  /** Escaping only rewrites spaces: the escaped URL is the plain one with each space as "%20". */
  lemma GetLinkFieldUrlEscaping(p: Platform, item: Item, key: string)
    ensures GetLinkFieldUrl(p, item, key, true) == ReplaceSpaces(GetLinkFieldUrl(p, item, key, false))
    ensures ' ' !in GetLinkFieldUrl(p, item, key, false) ==>
              GetLinkFieldUrl(p, item, key, true) == GetLinkFieldUrl(p, item, key, false)
  {
    var plain := GetLinkFieldUrl(p, item, key, false);
    if ' ' !in plain {
      ReplaceSpacesNoSpace(plain);
    }
  }

  /**
   * The media options `GetImageFieldUrl` asks for: a sized rendition exactly when both
   * width and height were given (differ from `Int32.MinValue`), the default one otherwise.
   */
  function ImageUrlOptions(width: int32, height: int32): (o: MediaUrlOptions)
    ensures o.SizedOptions? <==> width != Int32.MinValue && height != Int32.MinValue
    ensures o.SizedOptions? ==> o.width == width && o.height == height
    ensures !o.SizedOptions? ==> o == EmptyMediaOptions
  {
    if width != Int32.MinValue && height != Int32.MinValue then SizedOptions(width, height)
    else EmptyMediaOptions
  }

  /**
   * `GetImageFieldUrl`: the media URL of the image's media item, sized when both
   * dimensions are given, spaces escaped on request; "" when the field is missing or
   * holds no media item.
   */
  function GetImageFieldUrl(p: Platform, item: Item, key: string, replaceSpaces: bool,
                            width: int32, height: int32): (src: string)
    ensures (!HasField(item, key) || AsImageField(item.fields[key]).mediaItem.None?) ==> src == ""
    ensures HasField(item, key) && AsImageField(item.fields[key]).mediaItem.Some? ==>
      src == Escaped(replaceSpaces,
                     p.mediaUrl(AsImageField(item.fields[key]).mediaItem.value, ImageUrlOptions(width, height)))
    ensures replaceSpaces ==> ' ' !in src
  {
    if HasField(item, key) then
      var mediaItem := AsImageField(item.fields[key]).mediaItem;
      if mediaItem.Some? then
        var imageSrc := if width != Int32.MinValue && height != Int32.MinValue
                        then p.mediaUrl(mediaItem.value, SizedOptions(width, height))
                        else p.mediaUrl(mediaItem.value, EmptyMediaOptions);
        Escaped(replaceSpaces, imageSrc)
      else ""
    else ""
  }

  /** Without both dimensions, the defaults of the C# signature, the image URL is the unsized one. */
  lemma GetImageFieldUrlUnsized(p: Platform, item: Item, key: string, replaceSpaces: bool, size: int32)
    requires HasField(item, key) && AsImageField(item.fields[key]).mediaItem.Some?
    ensures GetImageFieldUrl(p, item, key, replaceSpaces, size, Int32.MinValue)
         == GetImageFieldUrl(p, item, key, replaceSpaces, Int32.MinValue, size)
         == Escaped(replaceSpaces, p.mediaUrl(AsImageField(item.fields[key]).mediaItem.value, EmptyMediaOptions))
  {
  }

  /**
   * `GetMediaFileUrl`: for a reference field, the target's media URL or ""; for an
   * internal link, the target's media URL or ""; for an external link, its literal URL;
   * "" for a missing field or any other shape. Spaces are escaped on request.
   */
  function GetMediaFileUrl(p: Platform, item: Item, key: string, replaceSpaces: bool): (src: string)
    ensures !HasField(item, key) ==> src == ""
    ensures HasField(item, key) ==>
      var kind := item.fields[key].kind;
      && (kind.Reference? ==>
            src == if kind.targetItem.Some?
                   then Escaped(replaceSpaces, p.mediaUrl(kind.targetItem.value, EmptyMediaOptions))
                   else "")
      && (kind.Link? && kind.isInternal ==>
            src == if kind.targetItem.Some?
                   then Escaped(replaceSpaces, p.mediaUrl(kind.targetItem.value, EmptyMediaOptions))
                   else "")
      && (kind.Link? && !kind.isInternal ==> src == Escaped(replaceSpaces, kind.url))
      && (!kind.Link? && !kind.Reference? ==> src == "")
    ensures replaceSpaces ==> ' ' !in src
  {
    if HasField(item, key) then
      var kind := item.fields[key].kind;
      var fileSrc :=
        if kind.Reference? then
          if kind.targetItem.Some? then p.mediaUrl(kind.targetItem.value, EmptyMediaOptions) else ""
        else if kind.Link? then
          if kind.isInternal then
            if kind.targetItem.Some? then p.mediaUrl(kind.targetItem.value, EmptyMediaOptions) else ""
          else kind.url
        else "";
      Escaped(replaceSpaces, fileSrc)
    else ""
  }

  // ---------------------------------------------------------------------------
  // Integers
  // ---------------------------------------------------------------------------

  /**
   * `GetInteger`: -1 when the field is missing; otherwise what `Int32.TryParse` wrote to
   * `result`: the parsed number, or 0 when the text is not a valid Int32.
   */
  function GetInteger(item: Item, key: string): (n: int32)
    ensures !HasField(item, key) ==> n == -1
    ensures HasField(item, key) && TryParse(item.fields[key].value).Some? ==>
              n == TryParse(item.fields[key].value).value
    ensures HasField(item, key) && TryParse(item.fields[key].value).None? ==> n == 0
  {
    if HasField(item, key) then
      match TryParse(item.fields[key].value)
      case Some(v) => v
      case None => 0
    else -1
  }

  /** `GetIntegerField` is `GetInteger`. */
  function GetIntegerField(item: Item, key: string): (n: int32)
    ensures n == GetInteger(item, key)
  {
    GetInteger(item, key)
  }

  /** A field holding the decimal text of a number reads back as that number. */
  lemma GetIntegerRoundTrip(item: Item, key: string, n: int32)
    requires HasField(item, key) && item.fields[key].value == Int32.ToString(n)
    ensures GetInteger(item, key) == n
  {
    TryParseToString(n);
  }

  /** FieldsHelperTests.TestGetIntegerValue: "123" reads as 123. */
  lemma GetIntegerCase(item: Item, key: string)
    requires HasField(item, key) && item.fields[key].value == "123"
    ensures GetInteger(item, key) == 123
  {
    TryParse123();
  }

  /** Text without a digit, the empty value included, reads as 0, not as the -1 of a missing field. */
  lemma GetIntegerUnparsable(item: Item, key: string)
    requires HasField(item, key)
    requires forall i :: 0 <= i < |item.fields[key].value| ==> !IsDigit(item.fields[key].value[i])
    ensures GetInteger(item, key) == 0
  {
    TryParseNeedsDigit(item.fields[key].value);
  }

  // ---------------------------------------------------------------------------
  // Absence
  // ---------------------------------------------------------------------------

  /** A missing field degrades every getter to its fixed default. */
  lemma MissingFieldDefaults(p: Platform, item: Item, key: string, defaultValue: string,
                             replaceSpaces: bool, width: int32, height: int32)
    requires !HasField(item, key)
    ensures !HasNotEmptyField(item, key) && !HasCheckedCheckboxField(item, key)
    ensures GetValue(item, key, defaultValue) == defaultValue
    ensures GetValueOrDefaultIfEmpty(item, key, defaultValue) == defaultValue
    ensures GetInteger(item, key) == -1
    ensures GetDateFieldValue(item, key) == DateTimeMinValue
    ensures GetUrl(p, item, key) == ""
    ensures GetLinkFieldUrl(p, item, key, replaceSpaces) == ""
    ensures GetImageFieldUrl(p, item, key, replaceSpaces, width, height) == ""
    ensures GetMediaFileUrl(p, item, key, replaceSpaces) == ""
    ensures GetLinkField(p, item, key).None? && GetImageField(item, key).None?
    ensures GetCheckboxField(item, key).None? && GetDateField(item, key).None?
    ensures GetReferenceField(item, key).None?
  {
  }

  /** FieldsHelperTests.TestGetCheckboxValue: checked, unchecked and missing checkboxes. */
  lemma CheckboxCases(item: Item)
    requires "Checkbox Field" in item.fields && item.fields["Checkbox Field"] == Field("1", Checkbox(true))
    requires "Checkbox Field Unchecked" in item.fields
    requires item.fields["Checkbox Field Unchecked"] == Field("", Checkbox(false))
    requires "Field that does not exist" !in item.fields
    ensures HasCheckedCheckboxField(item, "Checkbox Field")
    ensures !HasCheckedCheckboxField(item, "Checkbox Field Unchecked")
    ensures !HasCheckedCheckboxField(item, "Field that does not exist")
  {
  }

  // ---------------------------------------------------------------------------
  // Multilist fields
  // ---------------------------------------------------------------------------

  /** `GetMultilistFieldItemsIDs`: the ids the multilist stores, verbatim, in order, duplicates kept. */
  method GetMultilistFieldItemsIDs(item: Item, key: string) returns (idsList: seq<string>)
    ensures !HasField(item, key) ==> idsList == []
    ensures HasField(item, key) ==> idsList == AsMultilistField(item.fields[key]).items
  {
    idsList := [];
    if HasField(item, key) {
      var multilistField := AsMultilistField(item.fields[key]).items;
      var i := 0;
      while i < |multilistField|
        invariant 0 <= i <= |multilistField|
        invariant idsList == multilistField[..i]
      {
        idsList := idsList + [multilistField[i]];
        i := i + 1;
      }
      assert multilistField[..i] == multilistField;
    }
  }

  /** The exceptions `GetMultilistFieldItems` lets escape. */
  datatype MultilistException =
    | FormatException(id: string)   // `ID.Parse` on a stored id that is not an ID
    | NullReferenceException        // no database given and no context database

  predicate Parses(p: Platform, id: string) {
    p.parseId(id).Some?
  }

  /** The database the lookups use: the given one, else `Sitecore.Context.Database`. */
  function LookupDatabase(p: Platform, database: Option<Database>): Option<Database> {
    if database.Some? then database else p.contextDatabase
  }

  /** The item one stored id resolves to, as a list of at most one item. */
  function Resolved(p: Platform, db: Database, language: Option<Language>, id: string): (r: seq<Item>)
    ensures |r| <= 1
  {
    match p.parseId(id)
    case None => []
    case Some(itemId) =>
      match p.getItem(db, itemId, language)
      case None => []
      case Some(found) => [found]
  }

  /** The items the ids resolve to, in stored order, the ids that do not resolve dropped. */
  function ResolveAll(p: Platform, db: Database, language: Option<Language>, ids: seq<string>): seq<Item> {
    if ids == [] then []
    else ResolveAll(p, db, language, ids[..|ids| - 1]) + Resolved(p, db, language, ids[|ids| - 1])
  }

  /** The index of the first stored id `ID.Parse` rejects, if any. */
  function FirstUnparsable(p: Platform, ids: seq<string>): (k: Option<nat>)
    ensures k.Some? ==> k.value < |ids| && !Parses(p, ids[k.value])
                        && forall j :: 0 <= j < k.value ==> Parses(p, ids[j])
    ensures k.None? ==> forall j :: 0 <= j < |ids| ==> Parses(p, ids[j])
  {
    if ids == [] then None
    else if !Parses(p, ids[0]) then Some(0)
    else match FirstUnparsable(p, ids[1..])
      case None => None
      case Some(k) => Some(k + 1)
  }

  /** The first rejected id is the one after the prefix that parses. */
  lemma {:induction false} FirstUnparsableAt(p: Platform, ids: seq<string>, i: nat)
    requires i < |ids| && !Parses(p, ids[i])
    requires forall j :: 0 <= j < i ==> Parses(p, ids[j])
    ensures FirstUnparsable(p, ids) == Some(i)
  {
    if i > 0 {
      FirstUnparsableAt(p, ids[1..], i - 1);
    }
  }

  /**
   * What `GetMultilistFieldItems` produces for the stored ids: the first id `ID.Parse`
   * rejects raises; with no database to look in, the first lookup raises; otherwise the
   * resolved items.
   */
  function ExpandIds(p: Platform, ids: seq<string>, database: Option<Database>, language: Option<Language>)
    : Result<seq<Item>, MultilistException>
  {
    if ids == [] then Success([])
    else if !Parses(p, ids[0]) then Failure(FormatException(ids[0]))
    else if LookupDatabase(p, database).None? then Failure(NullReferenceException)
    else match FirstUnparsable(p, ids)
      case Some(k) => Failure(FormatException(ids[k]))
      case None => Success(ResolveAll(p, LookupDatabase(p, database).value, language, ids))
  }

  /**
   * `GetMultilistFieldItems`: looks every stored id up, in order, in `database` (or the
   * context database), keeping the items found and silently skipping ids that do not
   * resolve. A missing field gives the empty list.
   */
  method GetMultilistFieldItems(p: Platform, item: Item, key: string,
                                database: Option<Database>, language: Option<Language>)
    returns (r: Result<seq<Item>, MultilistException>)
    ensures !HasField(item, key) ==> r == Success([])
    ensures HasField(item, key) ==> r == ExpandIds(p, AsMultilistField(item.fields[key]).items, database, language)
  {
    var itemsList: seq<Item> := [];
    var db := database;
    if HasField(item, key) {
      var ids := AsMultilistField(item.fields[key]).items;
      var i := 0;
      while i < |ids|
        invariant 0 <= i <= |ids|
        invariant forall j :: 0 <= j < i ==> Parses(p, ids[j])
        invariant i == 0 ==> db == database && itemsList == []
        invariant i > 0 ==> db == LookupDatabase(p, database) && db.Some?
        invariant i > 0 ==> itemsList == ResolveAll(p, db.value, language, ids[..i])
      {
        var itemId := p.parseId(ids[i]);
        if itemId.None? {
          FirstUnparsableAt(p, ids, i);
          return Failure(FormatException(ids[i]));
        }
        if db.None? {
          db := p.contextDatabase;
        }
        if db.None? {
          return Failure(NullReferenceException);
        }
        var currentItem := p.getItem(db.value, itemId.value, language);
        assert ids[..i + 1][..i] == ids[..i];
        if currentItem.Some? {
          itemsList := itemsList + [currentItem.value];
        }
        i := i + 1;
      }
      assert ids[..i] == ids;
    }
    return Success(itemsList);
  }

  /** Resolution never invents entries: at most one item per stored id. */
  lemma {:induction false} ResolveAllLength(p: Platform, db: Database, language: Option<Language>, ids: seq<string>)
    ensures |ResolveAll(p, db, language, ids)| <= |ids|
  {
    if ids != [] {
      ResolveAllLength(p, db, language, ids[..|ids| - 1]);
    }
  }

  /** Resolution works id by id, so the items keep the relative order of their ids. */
  lemma {:induction false} ResolveAllAppend(p: Platform, db: Database, language: Option<Language>,
                                            a: seq<string>, b: seq<string>)
    ensures ResolveAll(p, db, language, a + b) == ResolveAll(p, db, language, a) + ResolveAll(p, db, language, b)
    decreases |b|
  {
    if b == [] {
      assert a + b == a;
    } else {
      assert (a + b)[..|a + b| - 1] == a + b[..|b| - 1];
      ResolveAllAppend(p, db, language, a, b[..|b| - 1]);
    }
  }

  /** An item is in the result exactly when some stored id resolves to it. */
  lemma {:induction false} ResolveAllMembers(p: Platform, db: Database, language: Option<Language>,
                                             ids: seq<string>, x: Item)
    ensures x in ResolveAll(p, db, language, ids)
        <==> exists k :: 0 <= k < |ids| && Resolved(p, db, language, ids[k]) == [x]
  {
    if ids != [] {
      var init := ids[..|ids| - 1];
      ResolveAllMembers(p, db, language, init, x);
      if x in ResolveAll(p, db, language, ids) && x !in ResolveAll(p, db, language, init) {
        var last := Resolved(p, db, language, ids[|ids| - 1]);
        assert x in last;
        assert last == [x];
      }
      if exists k :: 0 <= k < |ids| && Resolved(p, db, language, ids[k]) == [x] {
        var k :| 0 <= k < |ids| && Resolved(p, db, language, ids[k]) == [x];
        if k < |ids| - 1 {
          assert init[k] == ids[k];
        }
      }
    }
  }

  /** When every id resolves, the result has one item per id, the k-th for the k-th id. */
  lemma {:induction false} ResolveAllComplete(p: Platform, db: Database, language: Option<Language>, ids: seq<string>)
    requires forall k :: 0 <= k < |ids| ==> |Resolved(p, db, language, ids[k])| == 1
    ensures |ResolveAll(p, db, language, ids)| == |ids|
    ensures forall k :: 0 <= k < |ids| ==> [ResolveAll(p, db, language, ids)[k]] == Resolved(p, db, language, ids[k])
  {
    if ids != [] {
      var init := ids[..|ids| - 1];
      ResolveAllComplete(p, db, language, init);
    }
  }

  /**
   * `GetMultilistFieldItems` raises only for a stored id that is not an ID, or for a
   * lookup with no database; a dangling id never makes it fail.
   */
  lemma ExpandIdsSucceeds(p: Platform, ids: seq<string>, database: Option<Database>, language: Option<Language>)
    ensures ExpandIds(p, ids, database, language).Success?
        <==> ids == [] || ((forall k :: 0 <= k < |ids| ==> Parses(p, ids[k])) && LookupDatabase(p, database).Some?)
    ensures ExpandIds(p, ids, database, language).Success? ==>
              |ExpandIds(p, ids, database, language).value| <= |ids|
  {
    if ExpandIds(p, ids, database, language).Success? && ids != [] {
      ResolveAllLength(p, LookupDatabase(p, database).value, language, ids);
    }
  }

  // ---------------------------------------------------------------------------
  // Reference fields
  // ---------------------------------------------------------------------------

  /** `GetReferenceFieldTargetItem`: the item a reference field points to, null when missing or dangling. */
  function GetReferenceFieldTargetItem(item: Item, key: string): (target: Option<Item>)
    ensures target.Some? <==> HasField(item, key) && AsReferenceField(item.fields[key]).targetItem.Some?
    ensures target.Some? ==> target == AsReferenceField(item.fields[key]).targetItem
  {
    var referenceField := GetReferenceField(item, key);
    if referenceField.Some? && referenceField.value.targetItem.Some? then referenceField.value.targetItem
    else None
  }

  /**
   * `GetReferenceFieldTargetItemFieldValue`: the value of `referencedItemKey` on the
   * referenced item, "" unless the reference resolves and that field is not empty there.
   */
  function GetReferenceFieldTargetItemFieldValue(item: Item, key: string, referencedItemKey: string): (value: string)
    ensures value != "" <==>
      GetReferenceFieldTargetItem(item, key).Some?
      && HasNotEmptyField(GetReferenceFieldTargetItem(item, key).value, referencedItemKey)
    ensures value != "" ==>
      value == GetReferenceFieldTargetItem(item, key).value.fields[referencedItemKey].value
  {
    var referenceField := GetReferenceField(item, key);
    if referenceField.Some? && referenceField.value.targetItem.Some?
       && HasNotEmptyField(referenceField.value.targetItem.value, referencedItemKey)
    then GetValue(referenceField.value.targetItem.value, referencedItemKey, "")
    else ""
  }

  /** The two hops: resolve the reference, then `GetValueOrDefaultIfEmpty` with "" on the target. */
  lemma ReferenceFieldValueByHops(item: Item, key: string, referencedItemKey: string)
    ensures GetReferenceFieldTargetItemFieldValue(item, key, referencedItemKey)
         == match GetReferenceFieldTargetItem(item, key)
            case None => ""
            case Some(target) => GetValueOrDefaultIfEmpty(target, referencedItemKey, "")
  {
  }

  // ---------------------------------------------------------------------------
  // Ids
  // ---------------------------------------------------------------------------

  /** `GetItemSimpleID`: the item's id with every '-', '{' and '}' removed. */
  function GetItemSimpleID(item: Item): (simple: string)
    ensures forall i :: 0 <= i < |simple| ==> !IsIdSeparator(simple[i])
    ensures forall c :: !IsIdSeparator(c) ==> multiset(simple)[c] == multiset(item.id)[c]
    ensures RemoveIdSeparators(simple) == simple
  {
    forall c | !IsIdSeparator(c) {
      RemoveIdSeparatorsKeeps(item.id, c);
    }
    RemoveIdSeparatorsIdempotent(item.id);
    RemoveIdSeparators(item.id)
  }
}
