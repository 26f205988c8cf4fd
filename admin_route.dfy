/** The admin endpoints (src/api/admin/announcement-bar/route.ts): GET reads
    the first store's configuration without the visibility gate; PUT hands the
    validated body to the update workflow and answers 201. */
module AdminRoute {
  import opened JsValues
  import opened Framework
  import opened Validators
  import StoreRoute
  import UpdateStep

  /** The admin GET: 200 with null when there is no store, otherwise the
      first store's projected configuration, whatever its enabled flag and
      schedule. */
  function Get(stores: seq<Store>): (r: StoreRoute.GetResponse)
    ensures r.status == 200
    ensures r.body.Some? <==> |stores| > 0 && stores[0].metadata.Some?
    ensures r.body.Some? ==>
              forall k :: k in ConfigKeys ==> StoreRoute.Field(r.body.value, k) == Lookup(stores[0].metadata.value, k)
  {
    if |stores| == 0 then StoreRoute.GetResponse(200, None)
    else StoreRoute.GetResponse(200, StoreRoute.GetAnnouncementBarConfig(stores[0].metadata))
  }

  /** The admin PUT's answer: 201 with the updated store. */
  datatype PutResponse = PutResponse(status: int, body: Store)

  /** The admin PUT: the validated body, as an object, is the workflow's
      input unchanged; the step's failure is the request's failure. */
  method Put(table: UpdateStep.StoreTable, validatedBody: Config) returns (r: Result<PutResponse, MedusaError>)
    requires table.Valid()
    modifies table
    ensures table.Valid()
    ensures table.stores == UpdateStep.Applied(old(table.stores), ToRecord(validatedBody))
    ensures old(table.stores) == [] ==>
              r == Failure(MedusaError(NotFound, Text(UpdateStep.StoreNotFoundMessage)))
    ensures old(table.stores) != [] ==> r == Success(PutResponse(201, table.stores[0]))
  {
    var result := table.Apply(ToRecord(validatedBody));
    if result.Failure? {
      return Failure(result.error);
    }
    r := Success(PutResponse(201, result.value.updated));
  }

  // ---------------------------------------------------------------------------
  // Properties

  /** Whenever the storefront sees a configuration, in particular whenever
      the first store is visible, the admin's response is the same. */
  lemma AdminSeesWhatStorefrontSees(stores: seq<Store>, now: int, parse: DateParser)
    ensures StoreRoute.Get(stores, now, parse).body.Some? ==> Get(stores) == StoreRoute.Get(stores, now, parse)
    ensures |stores| > 0 && StoreRoute.Visible(stores[0].metadata, now, parse) ==>
              Get(stores) == StoreRoute.Get(stores, now, parse)
  {
  }

  /** A disabled configuration is still returned to the admin, while the
      storefront gets null. */
  lemma AdminSeesDisabledConfig(id: string, m: Metadata, now: int, parse: DateParser)
    requires "enabled" in m && m["enabled"] == Bool(false)
    ensures Get([Store(id, Some(m))]).body.Some?
    ensures StoreRoute.Get([Store(id, Some(m))], now, parse).body.None?
  {
  }

  /** An expired configuration is still returned to the admin, while the
      storefront gets null. */
  lemma AdminSeesExpiredConfig(id: string, m: Metadata, end: int, now: int, parse: DateParser)
    requires StoreRoute.EnabledCheck(Some(m))
    requires "endDateTime" in m && m["endDateTime"] == Date(end)
    requires -MaxTime <= end <= MaxTime && end < now
    ensures Get([Store(id, Some(m))]).body.Some?
    ensures StoreRoute.Get([Store(id, Some(m))], now, parse).body.None?
  {
  }

  /** After a PUT on a non-empty table, the admin GET reads back every field
      the validated body carried; the configuration keys the body left out
      keep their earlier values. */
  lemma PutThenGetReadsBack(stores: seq<Store>, c: Config)
    requires UpdateStep.DistinctIds(stores) && |stores| > 0
    ensures var body := Get(UpdateStep.Applied(stores, ToRecord(c))).body;
            && body.Some?
            && (forall k :: k in ToRecord(c) ==> StoreRoute.Field(body.value, k) == Some(ToRecord(c)[k]))
            && (forall k :: k in ConfigKeys && k !in ToRecord(c) ==>
                  StoreRoute.Field(body.value, k) ==
                    if stores[0].metadata.Some? then Lookup(stores[0].metadata.value, k) else None)
  {
  }
}
