/** The public read path (src/api/store/announcement-bar/route.ts): the
    visibility gate, the projection of a metadata bag onto the eight
    configuration fields, and the storefront GET handler. */
module StoreRoute {
  import opened JsValues
  import opened Framework

  const DisabledMessage: string := "Announcement bar config not found or disabled"
  const NotStartedMessage: string := "Schedule time has not started"
  const ExpiredMessage: string := "Schedule time has expired"

  /** The configuration as read back from metadata: each field is whatever
      value the key holds, None where the key is absent (undefined). */
  datatype StoredConfig = StoredConfig(
    enabled: Option<Value>,
    text: Option<Value>,
    backgroundColor: Option<Value>,
    linkUrl: Option<Value>,
    position: Option<Value>,
    dismissible: Option<Value>,
    startDateTime: Option<Value>,
    endDateTime: Option<Value>)

  /** A handler's answer: its status and a JSON body that may be null. */
  datatype GetResponse = GetResponse(status: int, body: Option<StoredConfig>)

  /** The field of a stored config that a configuration key names. */
  function Field(c: StoredConfig, key: string): Option<Value>
  {
    match key
    case "enabled" => c.enabled
    case "text" => c.text
    case "backgroundColor" => c.backgroundColor
    case "linkUrl" => c.linkUrl
    case "position" => c.position
    case "dismissible" => c.dismissible
    case "startDateTime" => c.startDateTime
    case "endDateTime" => c.endDateTime
    case _ => None
  }

  /** The projection: null for absent metadata; otherwise each of the eight
      fields copied from the key of the same name. */
  function GetAnnouncementBarConfig(metadata: Option<Metadata>): (r: Option<StoredConfig>)
    ensures r.Some? <==> metadata.Some?
    ensures r.Some? ==> forall k :: k in ConfigKeys ==> Field(r.value, k) == Lookup(metadata.value, k)
  {
    match metadata
    case None => None
    case Some(m) =>
      Some(StoredConfig(
        Lookup(m, "enabled"), Lookup(m, "text"), Lookup(m, "backgroundColor"),
        Lookup(m, "linkUrl"), Lookup(m, "position"), Lookup(m, "dismissible"),
        Lookup(m, "startDateTime"), Lookup(m, "endDateTime")))
  }

  /** The config as a JSON object: undefined fields are not serialised. */
  function AsJson(c: StoredConfig): (r: Metadata)
    ensures r.Keys <= ConfigKeys
    ensures forall k :: k in ConfigKeys ==> Lookup(r, k) == Field(c, k)
  {
    map k | k in ConfigKeys && Field(c, k).Some? :: Field(c, k).value
  }

  // ---------------------------------------------------------------------------
  // The visibility gate

  /** The enabled check passes: metadata exists, has an `enabled` key, and
      that key does not hold exactly false. */
  predicate EnabledCheck(metadata: Option<Metadata>)
  {
    metadata.Some? && "enabled" in metadata.value && metadata.value["enabled"] != Bool(false)
  }

  /** The instant a schedule key names: none when the key is absent or falsy,
      or when its value is not a valid date (a NaN comparison never fires). */
  function Bound(m: Metadata, key: string, parse: DateParser): Option<int>
  {
    if key in m && Truthy(m[key]) then NewDate(m[key], parse) else None
  }

  /** `now` lies in the inclusive window [start, end]; a missing end of the
      window does not bound it. */
  predicate InWindow(now: int, start: Option<int>, end: Option<int>)
  {
    (start.None? || start.value <= now) && (end.None? || now <= end.value)
  }

  /** The configuration may be shown at `now`. */
  predicate Visible(metadata: Option<Metadata>, now: int, parse: DateParser)
  {
    EnabledCheck(metadata) &&
    InWindow(now, Bound(metadata.value, "startDateTime", parse), Bound(metadata.value, "endDateTime", parse))
  }

  function Invalid(message: string): MedusaError
  {
    MedusaError(InvalidData, Text(message))
  }

  /** The gate: a sequence of guards, each raising INVALID_DATA. */
  function ValidateAnnouncementBarConfig(metadata: Option<Metadata>, now: int, parse: DateParser)
    : (r: Outcome<MedusaError>)
    ensures r.Pass? <==> Visible(metadata, now, parse)
    ensures !EnabledCheck(metadata) ==> r == Fail(Invalid(DisabledMessage))
    ensures EnabledCheck(metadata) && r.Fail? ==>
              var start := Bound(metadata.value, "startDateTime", parse);
              r == Fail(Invalid(if start.Some? && now < start.value then NotStartedMessage else ExpiredMessage))
  {
    if !EnabledCheck(metadata) then Fail(Invalid(DisabledMessage))
    else
      var m := metadata.value;
      var start := Bound(m, "startDateTime", parse);
      if start.Some? && now < start.value then Fail(Invalid(NotStartedMessage))
      else
        var end := Bound(m, "endDateTime", parse);
        if end.Some? && now > end.value then Fail(Invalid(ExpiredMessage))
        else Pass
  }

  /** The storefront GET: always 200; null when there is no store or the gate
      refuses, otherwise the first store's projected configuration. */
  function Get(stores: seq<Store>, now: int, parse: DateParser): (r: GetResponse)
    ensures r.status == 200
    ensures r.body.Some? <==> |stores| > 0 && Visible(stores[0].metadata, now, parse)
    ensures r.body.Some? ==> r.body == GetAnnouncementBarConfig(stores[0].metadata)
  {
    if |stores| == 0 then GetResponse(200, None)
    else
      var metadata := stores[0].metadata;
      match ValidateAnnouncementBarConfig(metadata, now, parse)
      case Fail(_) => GetResponse(200, None)
      case Pass => GetResponse(200, GetAnnouncementBarConfig(metadata))
  }

  // ---------------------------------------------------------------------------
  // Properties

  /** The projection keeps exactly the configuration keys of the metadata and
      drops every other key. */
  lemma ProjectionIsRestriction(m: Metadata)
    ensures AsJson(GetAnnouncementBarConfig(Some(m)).value) == map k | k in m && k in ConfigKeys :: m[k]
  {
  }

  /** Absent metadata, a missing `enabled` key or `enabled` exactly false is
      refused whatever the time; any other `enabled` value passes that check. */
  lemma DisabledIsRefused(m: Metadata, v: Value, now: int, parse: DateParser)
    ensures ValidateAnnouncementBarConfig(None, now, parse) == Fail(Invalid(DisabledMessage))
    ensures "enabled" !in m ==> ValidateAnnouncementBarConfig(Some(m), now, parse) == Fail(Invalid(DisabledMessage))
    ensures ValidateAnnouncementBarConfig(Some(m["enabled" := Bool(false)]), now, parse)
            == Fail(Invalid(DisabledMessage))
    ensures v != Bool(false) ==> EnabledCheck(Some(m["enabled" := v]))
  {
  }

  /** With a start time and no end, the bar is hidden strictly before the start
      and shown from the start instant on. */
  lemma StartIsInclusive(m: Metadata, start: int, now: int, parse: DateParser)
    requires EnabledCheck(Some(m)) && "endDateTime" !in m
    requires "startDateTime" in m && m["startDateTime"] == Date(start)
    requires -MaxTime <= start <= MaxTime
    ensures ValidateAnnouncementBarConfig(Some(m), start, parse).Pass?
    ensures now < start ==> ValidateAnnouncementBarConfig(Some(m), now, parse) == Fail(Invalid(NotStartedMessage))
  {
  }

  /** With an end time and no start, the bar is shown up to and including the
      end instant and hidden strictly after it. */
  lemma EndIsInclusive(m: Metadata, end: int, now: int, parse: DateParser)
    requires EnabledCheck(Some(m)) && "startDateTime" !in m
    requires "endDateTime" in m && m["endDateTime"] == Date(end)
    requires -MaxTime <= end <= MaxTime
    ensures ValidateAnnouncementBarConfig(Some(m), end, parse).Pass?
    ensures now > end ==> ValidateAnnouncementBarConfig(Some(m), now, parse) == Fail(Invalid(ExpiredMessage))
  {
  }

  /** A config that passes the enabled check and carries no schedule is
      visible at every instant. */
  lemma NoScheduleAlwaysVisible(m: Metadata, now: int, parse: DateParser)
    requires EnabledCheck(Some(m))
    requires "startDateTime" !in m && "endDateTime" !in m
    ensures ValidateAnnouncementBarConfig(Some(m), now, parse).Pass?
  {
  }

  /** A schedule value that is not a valid date never hides the bar: the gate
      answers as if that key were absent. */
  lemma UnparseableBoundIgnored(m: Metadata, key: string, s: string, now: int, parse: DateParser)
    requires key == "startDateTime" || key == "endDateTime"
    requires parse(s).None?
    ensures ValidateAnnouncementBarConfig(Some(m[key := Str(s)]), now, parse)
            == ValidateAnnouncementBarConfig(Some(m - {key}), now, parse)
  {
  }

  /** Strictly inside a valid window an enabled config of the first store is
      shown. */
  lemma InsideWindowVisible(stores: seq<Store>, m: Metadata, start: int, end: int, now: int, parse: DateParser)
    requires |stores| > 0 && stores[0].metadata == Some(m)
    requires EnabledCheck(Some(m))
    requires "startDateTime" in m && m["startDateTime"] == Date(start)
    requires "endDateTime" in m && m["endDateTime"] == Date(end)
    requires -MaxTime <= start < now < end <= MaxTime
    ensures Get(stores, now, parse).body == GetAnnouncementBarConfig(Some(m))
  {
  }
}
