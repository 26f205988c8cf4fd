/** The workflow step that writes an announcement bar update into the first
    store's metadata, and its compensation
    (src/workflows/announcement-bar/steps/update-announcement-bar.ts). The
    store module's persistence is an in-memory table of stores. */
module UpdateStep {
  import opened JsValues
  import opened Framework

  const StoreNotFoundMessage: string := "Store not found"

  /** The shallow merge `{...original, ...data}`: spreading null adds no keys,
      and on a key both hold the update wins. */
  function Merge(original: Option<Metadata>, data: Metadata): (r: Metadata)
    ensures r.Keys == data.Keys + (if original.Some? then original.value.Keys else {})
    ensures forall k :: k in data ==> r[k] == data[k]
    ensures forall k :: k in r && k !in data ==> original.Some? && k in original.value && r[k] == original.value[k]
  {
    (if original.Some? then original.value else map[]) + data
  }

  /** No two stores share an identifier. */
  predicate DistinctIds(stores: seq<Store>)
  {
    forall i, j :: 0 <= i < j < |stores| ==> stores[i].id != stores[j].id
  }

  predicate HasStore(stores: seq<Store>, id: string)
  {
    exists i :: 0 <= i < |stores| && stores[i].id == id
  }

  /** The table after the store module sets the metadata of the store with
      identifier `id`. */
  function WithMetadata(stores: seq<Store>, id: string, metadata: Option<Metadata>): (r: seq<Store>)
    ensures |r| == |stores|
    ensures forall i :: 0 <= i < |r| ==> r[i].id == stores[i].id
    ensures forall i :: 0 <= i < |r| && stores[i].id != id ==> r[i] == stores[i]
    ensures forall i :: 0 <= i < |r| && stores[i].id == id ==> r[i].metadata == metadata
  {
    if stores == [] then []
    else
      var first := if stores[0].id == id then stores[0].(metadata := metadata) else stores[0];
      [first] + WithMetadata(stores[1..], id, metadata)
  }

  /** What the step hands to its compensation. */
  datatype CompensationInput = CompensationInput(storeId: string, originalMetadata: Option<Metadata>)

  /** The step's result: the updated store and the compensation input. */
  datatype StepResponse = StepResponse(updated: Store, compensation: CompensationInput)

  /** The table after the step: the first store's metadata becomes the merge;
      an empty table is left alone. */
  function Applied(stores: seq<Store>, data: Metadata): seq<Store>
  {
    if stores == [] then stores
    else WithMetadata(stores, stores[0].id, Some(Merge(stores[0].metadata, data)))
  }

  /** The compensation writes back only when it has data, a truthy store
      identifier and non-null original metadata. */
  predicate Restores(data: Option<CompensationInput>)
  {
    data.Some? && data.value.storeId != "" && data.value.originalMetadata.Some?
  }

  /** The table after the compensation. */
  function Compensated(stores: seq<Store>, data: Option<CompensationInput>): seq<Store>
  {
    if Restores(data) && HasStore(stores, data.value.storeId)
    then WithMetadata(stores, data.value.storeId, data.value.originalMetadata)
    else stores
  }

  // ---------------------------------------------------------------------------
  // Properties

  /** Applying the same update twice merges to the same metadata as once. */
  lemma MergeIdempotent(original: Option<Metadata>, data: Metadata)
    ensures Merge(Some(Merge(original, data)), data) == Merge(original, data)
  {
  }

  /** Writing enabled over metadata that also holds an unrelated key keeps
      that key. */
  lemma MergeKeepsUnrelatedKey()
    ensures Merge(Some(map["fooUnrelatedKey" := Num(1), "enabled" := Bool(false)]), map["enabled" := Bool(true)])
            == map["fooUnrelatedKey" := Num(1), "enabled" := Bool(true)]
  {
  }

  /** The step changes the first store's metadata to the merge and leaves
      every other store as it was. */
  lemma AppliedChangesOnlyFirst(stores: seq<Store>, data: Metadata)
    requires DistinctIds(stores) && |stores| > 0
    ensures |Applied(stores, data)| == |stores|
    ensures Applied(stores, data)[0] == stores[0].(metadata := Some(Merge(stores[0].metadata, data)))
    ensures forall i :: 1 <= i < |stores| ==> Applied(stores, data)[i] == stores[i]
  {
  }

  /** Running the step twice with the same input gives the same table as
      running it once. */
  lemma AppliedIdempotent(stores: seq<Store>, data: Metadata)
    requires DistinctIds(stores)
    ensures Applied(Applied(stores, data), data) == Applied(stores, data)
  {
    if stores != [] {
      AppliedChangesOnlyFirst(stores, data);
      var once := Applied(stores, data);
      assert DistinctIds(once);
      AppliedChangesOnlyFirst(once, data);
      MergeIdempotent(stores[0].metadata, data);
      var twice := Applied(once, data);
      assert |twice| == |once|;
      forall i | 0 <= i < |once| ensures twice[i] == once[i] {
      }
    }
  }

  /** With a truthy store identifier and non-null original metadata, the
      compensation after the step restores the table exactly. */
  lemma CompensationRestores(stores: seq<Store>, data: Metadata)
    requires DistinctIds(stores) && |stores| > 0
    requires stores[0].id != "" && stores[0].metadata.Some?
    ensures Compensated(Applied(stores, data), Some(CompensationInput(stores[0].id, stores[0].metadata))) == stores
  {
  }

  /** A store whose metadata was null is not rolled back: the compensation
      skips and the merged metadata stays. */
  lemma NullMetadataNotRolledBack(stores: seq<Store>, data: Metadata)
    requires |stores| > 0 && stores[0].metadata.None?
    ensures Compensated(Applied(stores, data), Some(CompensationInput(stores[0].id, stores[0].metadata)))
            == Applied(stores, data)
    ensures Applied(stores, data)[0].metadata == Some(data)
    ensures Applied(stores, data) != stores
  {
    var applied := Applied(stores, data);
    assert applied[0].metadata == Some(Merge(None, data));
    assert Merge(None, data) == data;
  }

  /** No compensation data, a falsy store identifier or null original
      metadata leaves the table as it is. */
  lemma CompensationSkips(stores: seq<Store>, data: Option<CompensationInput>)
    requires data.None? || data.value.storeId == "" || data.value.originalMetadata.None?
    ensures Compensated(stores, data) == stores
  {
  }

  // ---------------------------------------------------------------------------
  // The store table and the step

  class StoreTable {
    var stores: seq<Store>

    ghost predicate Valid()
      reads this
    {
      DistinctIds(stores)
    }

    constructor (stores: seq<Store>)
      requires DistinctIds(stores)
      ensures Valid() && this.stores == stores
    {
      this.stores := stores;
    }

    /** The store module's update of one store's metadata by identifier;
        an unknown identifier is NOT_FOUND and changes nothing. */
    method UpdateStores(id: string, metadata: Option<Metadata>) returns (r: Result<Store, MedusaError>)
      requires Valid()
      modifies this
      ensures Valid()
      ensures HasStore(old(stores), id) ==>
                && stores == WithMetadata(old(stores), id, metadata)
                && r.Success? && r.value.id == id && r.value.metadata == metadata
      ensures !HasStore(old(stores), id) ==>
                stores == old(stores) && r == Failure(MedusaError(NotFound, Text("Store with id " + id + " was not found")))
    {
      var i := 0;
      while i < |stores| && stores[i].id != id
        invariant 0 <= i <= |stores|
        invariant forall j :: 0 <= j < i ==> stores[j].id != id
      {
        i := i + 1;
      }
      if i == |stores| {
        return Failure(MedusaError(NotFound, Text("Store with id " + id + " was not found")));
      }
      stores := WithMetadata(stores, id, metadata);
      r := Success(stores[i]);
    }

    /** The step: NOT_FOUND on an empty table; otherwise the first store's
        metadata becomes the merge, and the step hands on the updated store
        with the store identifier and the original metadata. */
    method Apply(data: Metadata) returns (r: Result<StepResponse, MedusaError>)
      requires Valid()
      modifies this
      ensures Valid()
      ensures stores == Applied(old(stores), data)
      ensures old(stores) == [] ==> r == Failure(MedusaError(NotFound, Text(StoreNotFoundMessage)))
      ensures old(stores) != [] ==>
                && r.Success?
                && r.value.updated == stores[0]
                && r.value.compensation == CompensationInput(old(stores)[0].id, old(stores)[0].metadata)
    {
      if |stores| == 0 {
        return Failure(MedusaError(NotFound, Text(StoreNotFoundMessage)));
      }
      var store := stores[0];
      var originalMetadata := store.metadata;
      var newMetadata := Merge(store.metadata, data);
      assert HasStore(stores, store.id);
      var updated := UpdateStores(store.id, Some(newMetadata));
      r := Success(StepResponse(updated.value, CompensationInput(store.id, originalMetadata)));
    }

    /** The compensation: writes the captured metadata back to the captured
        store unless there is nothing to restore. */
    method Compensate(data: Option<CompensationInput>) returns (r: Outcome<MedusaError>)
      requires Valid()
      modifies this
      ensures Valid()
      ensures stores == Compensated(old(stores), data)
      ensures r.Fail? <==> Restores(data) && !HasStore(old(stores), data.value.storeId)
    {
      if data.None? {
        return Pass;
      }
      var storeId := data.value.storeId;
      var originalMetadata := data.value.originalMetadata;
      if storeId == "" || originalMetadata.None? {
        return Pass;
      }
      var written := UpdateStores(storeId, originalMetadata);
      r := if written.Failure? then Fail(written.error) else Pass;
    }
  }

  /** A downstream failure after the step: the step runs, then its
      compensation with what the step captured. */
  method ApplyThenCompensate(table: StoreTable, data: Metadata) returns (r: Result<StepResponse, MedusaError>)
    requires table.Valid()
    modifies table
    ensures table.Valid()
    ensures table.stores == Compensated(Applied(old(table.stores), data),
                                        if r.Success? then Some(r.value.compensation) else None)
    ensures old(table.stores) != [] && old(table.stores)[0].id != "" && old(table.stores)[0].metadata.Some? ==>
              table.stores == old(table.stores)
  {
    ghost var before := table.stores;
    r := table.Apply(data);
    var compensation := if r.Success? then Some(r.value.compensation) else None;
    var _ := table.Compensate(compensation);
    if before != [] && before[0].id != "" && before[0].metadata.Some? {
      CompensationRestores(before, data);
    }
  }
}
