/** Binding one evidence identity to the local registry, by the four base rules and the adapter rule. */
module EvidenceBinding {
  import opened Wrappers

  type ModelId = string
  type AdapterId = string
  type Digest = string

  /** The measurement subject a record carries: a base, and possibly an adapter's digest. */
  datatype Identity = Identity(kind: string, name: string, digest: Option<Digest>, adapter: Option<Digest>)

  /** The identity columns of one `models` row. */
  datatype Model = Model(kind: string, name: string, digest: Option<Digest>, canonicalId: string, confirmed: bool)

  type Models = map<ModelId, Model>

  /** The `adapters` table by artifact digest, which is a unique column. */
  type Adapters = map<Digest, AdapterId>

  datatype LocalModel = LocalModel(id: ModelId, kind: string, name: string, digest: Option<Digest>)

  datatype MatchState = Bound | Unmatched | AmbiguousNameOnly

  datatype Upgrade = Upgrade(id: ModelId, digest: Digest)

  datatype Binding = Binding(
    state: MatchState,
    modelId: Option<ModelId>,
    adapterId: Option<AdapterId>,
    upgrade: Option<Upgrade>)

  const UNMATCHED := Binding(Unmatched, None, None, None)

  // ------------------------------------------------------------------ binding against a listing

  function FirstWith(registry: seq<LocalModel>, kind: string, name: string, digest: Option<Digest>): Option<ModelId> {
    if registry == [] then None
    else if registry[0].kind == kind && registry[0].name == name && registry[0].digest == digest then
      Some(registry[0].id)
    else FirstWith(registry[1..], kind, name, digest)
  }

  predicate ListsName(registry: seq<LocalModel>, kind: string, name: string) {
    exists row :: row in registry && row.kind == kind && row.name == name
  }

  function BaseOf(identity: Identity, exact: Option<ModelId>, nameOnly: Option<ModelId>, known: bool): Binding {
    if exact.Some? then
      Binding(Bound, exact, None, None)
    else if identity.digest.Some? then
      if nameOnly.Some? then Binding(Bound, nameOnly, None, Some(Upgrade(nameOnly.value, identity.digest.value)))
      else UNMATCHED
    else if known then
      Binding(AmbiguousNameOnly, None, None, None)
    else
      UNMATCHED
  }

  function WithAdapter(identity: Identity, base: Binding, adapters: Adapters): Binding {
    if identity.adapter.None? then
      base
    else if identity.adapter.value !in adapters then
      UNMATCHED
    else if base.state != Bound then
      Binding(base.state, None, None, None)
    else
      base.(adapterId := Some(adapters[identity.adapter.value]))
  }

  function BindIdentity(identity: Identity, registry: seq<LocalModel>, adapters: Adapters): Binding {
    var exact := FirstWith(registry, identity.kind, identity.name, identity.digest);
    var nameOnly := FirstWith(registry, identity.kind, identity.name, None);
    WithAdapter(identity, BaseOf(identity, exact, nameOnly, ListsName(registry, identity.kind, identity.name)),
                adapters)
  }

  // ------------------------------------------------------------------ binding against the table

  predicate Has(models: Models, id: ModelId, kind: string, name: string, digest: Option<Digest>) {
    id in models && models[id].kind == kind && models[id].name == name && models[id].digest == digest
  }

  /** The two unique indexes of `models` together: no triple twice, a missing digest counted as one. */
  ghost predicate Unique(models: Models) {
    forall a, b, kind, name, digest | Has(models, a, kind, name, digest) && Has(models, b, kind, name, digest) :: a == b
  }

  ghost function Holder(models: Models, kind: string, name: string, digest: Option<Digest>): (id: Option<ModelId>)
    ensures id.Some? ==> Has(models, id.value, kind, name, digest)
  {
    if found :| Has(models, found, kind, name, digest) then Some(found) else None
  }

  ghost predicate KnowsName(models: Models, kind: string, name: string) {
    exists id :: id in models && models[id].kind == kind && models[id].name == name
  }

  /** What an identity binds to, said of the table rather than of a listing of it. */
  ghost function Bind(identity: Identity, models: Models, adapters: Adapters): Binding {
    var exact := Holder(models, identity.kind, identity.name, identity.digest);
    var nameOnly := Holder(models, identity.kind, identity.name, None);
    WithAdapter(identity, BaseOf(identity, exact, nameOnly, KnowsName(models, identity.kind, identity.name)), adapters)
  }

  function AsLocal(models: Models, id: ModelId): LocalModel
    requires id in models
  {
    LocalModel(id, models[id].kind, models[id].name, models[id].digest)
  }

  /** `registry` holds exactly the rows of the table, in some order. */
  ghost predicate Listing(models: Models, registry: seq<LocalModel>) {
    forall row :: row in registry <==> row.id in models && row == AsLocal(models, row.id)
  }

  lemma {:induction false} FirstWithFinds(registry: seq<LocalModel>, kind: string, name: string, digest: Option<Digest>)
    ensures FirstWith(registry, kind, name, digest).None? ==> forall id ::
      LocalModel(id, kind, name, digest) !in registry
    ensures FirstWith(registry, kind, name, digest).Some? ==>
      LocalModel(FirstWith(registry, kind, name, digest).value, kind, name, digest) in registry
  {
    if registry != [] {
      FirstWithFinds(registry[1..], kind, name, digest);
      assert registry == [registry[0]] + registry[1..];
    }
  }

  lemma FirstIsHolder(models: Models, registry: seq<LocalModel>, kind: string, name: string, digest: Option<Digest>)
    requires Unique(models) && Listing(models, registry)
    ensures FirstWith(registry, kind, name, digest) == Holder(models, kind, name, digest)
  {
    FirstWithFinds(registry, kind, name, digest);
    var first, holder := FirstWith(registry, kind, name, digest), Holder(models, kind, name, digest);
    if first.Some? {
      assert Has(models, first.value, kind, name, digest);
    }
    if holder.Some? {
      assert LocalModel(holder.value, kind, name, digest) in registry;
    }
  }

  lemma NamesAreListed(models: Models, registry: seq<LocalModel>, kind: string, name: string)
    requires Listing(models, registry)
    ensures ListsName(registry, kind, name) <==> KnowsName(models, kind, name)
  {
    if id :| id in models && models[id].kind == kind && models[id].name == name {
      assert AsLocal(models, id) in registry;
    }
  }

  /** The order in which the registry is read does not affect what an identity binds to. */
  lemma OrderDoesNotMatter(identity: Identity, models: Models, registry: seq<LocalModel>, adapters: Adapters)
    requires Unique(models) && Listing(models, registry)
    ensures BindIdentity(identity, registry, adapters) == Bind(identity, models, adapters)
  {
    FirstIsHolder(models, registry, identity.kind, identity.name, identity.digest);
    FirstIsHolder(models, registry, identity.kind, identity.name, None);
    NamesAreListed(models, registry, identity.kind, identity.name);
  }

  // ------------------------------------------------------------------ the in-place identity upgrade

  lemma HolderIs(models: Models, id: ModelId, kind: string, name: string, digest: Option<Digest>)
    requires Unique(models) && Has(models, id, kind, name, digest)
    ensures Holder(models, kind, name, digest) == Some(id)
  {
  }

  function Upgraded(models: Models, id: ModelId, digest: Digest, canonicalId: string): Models
    requires id in models
  {
    models[id := models[id].(digest := Some(digest), canonicalId := canonicalId, confirmed := true)]
  }

  /** A name-only row may be given a digest that no row of its name carries yet. */
  ghost predicate CanUpgrade(models: Models, id: ModelId, digest: Digest) {
    && id in models && models[id].digest.None?
    && Holder(models, models[id].kind, models[id].name, Some(digest)).None?
  }

  lemma UpgradeIsPossible(identity: Identity, models: Models, adapters: Adapters)
    requires Bind(identity, models, adapters).upgrade.Some?
    ensures var upgrade := Bind(identity, models, adapters).upgrade.value;
            && CanUpgrade(models, upgrade.id, upgrade.digest)
            && Has(models, upgrade.id, identity.kind, identity.name, None)
            && identity.digest == Some(upgrade.digest)
  {
  }

  lemma UpgradeKeepsUnique(models: Models, id: ModelId, digest: Digest, canonicalId: string)
    requires Unique(models) && CanUpgrade(models, id, digest)
    ensures Unique(Upgraded(models, id, digest, canonicalId))
  {
    var after := Upgraded(models, id, digest, canonicalId);
    forall a, b, kind, name, d | Has(after, a, kind, name, d) && Has(after, b, kind, name, d)
      ensures a == b
    {
      assert a != id ==> Has(models, a, kind, name, d);
      assert b != id ==> Has(models, b, kind, name, d);
    }
  }

  /** Where each triple lives after an upgrade: one moved, the name-only one is gone. */
  lemma HolderAfterUpgrade(models: Models, id: ModelId, digest: Digest, canonicalId: string,
                           kind: string, name: string, d: Option<Digest>)
    requires Unique(models) && CanUpgrade(models, id, digest)
    ensures Holder(Upgraded(models, id, digest, canonicalId), kind, name, d)
         == if kind == models[id].kind && name == models[id].name && d == Some(digest) then Some(id)
            else if kind == models[id].kind && name == models[id].name && d == None then None
            else Holder(models, kind, name, d)
  {
    var after := Upgraded(models, id, digest, canonicalId);
    UpgradeKeepsUnique(models, id, digest, canonicalId);
    assert Has(after, id, models[id].kind, models[id].name, Some(digest));
    assert Has(models, id, models[id].kind, models[id].name, None);
    var before, later := Holder(models, kind, name, d), Holder(after, kind, name, d);
    if later.Some? && later != Some(id) {
      assert Has(models, later.value, kind, name, d);
    }
    if before.Some? && before != Some(id) {
      assert Has(after, before.value, kind, name, d);
    }
  }

  lemma NamesAfterUpgrade(models: Models, id: ModelId, digest: Digest, canonicalId: string, kind: string, name: string)
    requires id in models
    ensures KnowsName(Upgraded(models, id, digest, canonicalId), kind, name) <==> KnowsName(models, kind, name)
  {
    var after := Upgraded(models, id, digest, canonicalId);
    if other :| other in models && models[other].kind == kind && models[other].name == name {
      assert other in after && after[other].kind == kind;
    }
    if other :| other in after && after[other].kind == kind && after[other].name == name {
      assert other in models && models[other].kind == kind;
    }
  }

  /** An upgrade changes what another identity binds to in two ways only: name-only evidence of that
      model becomes ambiguous, and evidence of a third digest loses the row it would have upgraded. */
  lemma BindAfterUpgrade(identity: Identity, models: Models, adapters: Adapters, id: ModelId, digest: Digest,
                         canonicalId: string)
    requires Unique(models) && CanUpgrade(models, id, digest)
    ensures var before := Bind(identity, models, adapters);
            var after := Bind(identity, Upgraded(models, id, digest, canonicalId), adapters);
            && (before.upgrade.None? ==> after.upgrade.None?)
            && (before.upgrade.None? && before != after
                ==> identity.digest.None? && before.state == Bound && before.modelId == Some(id))
            && (before.upgrade == Some(Upgrade(id, digest)) ==> after == before.(upgrade := None))
  {
    HolderAfterUpgrade(models, id, digest, canonicalId, identity.kind, identity.name, identity.digest);
    HolderAfterUpgrade(models, id, digest, canonicalId, identity.kind, identity.name, None);
    NamesAfterUpgrade(models, id, digest, canonicalId, identity.kind, identity.name);
    assert Has(models, id, models[id].kind, models[id].name, None);
    HolderIs(models, id, models[id].kind, models[id].name, None);
  }

  /** Evidence is bound, with no upgrade left to make, exactly when the registry holds its exact
      triple and, if it was measured under an adapter, that adapter's digest. */
  lemma BoundExactlyWhenHeld(identity: Identity, models: Models, adapters: Adapters)
    requires Bind(identity, models, adapters).upgrade.None?
    ensures Bind(identity, models, adapters).state == Bound <==>
      (exists id :: Has(models, id, identity.kind, identity.name, identity.digest))
      && (identity.adapter.Some? ==> identity.adapter.value in adapters)
    ensures var b := Bind(identity, models, adapters);
            b.state == Bound ==>
              b.modelId.Some? && Has(models, b.modelId.value, identity.kind, identity.name, identity.digest)
  {
  }

  // ------------------------------------------------------------------ discovery

  datatype Descriptor = Descriptor(kind: string, name: string, digest: Option<Digest>, canonicalId: string,
                                   confirmed: bool)

  function Described(d: Descriptor): Model {
    Model(d.kind, d.name, d.digest, d.canonicalId, d.confirmed)
  }

  /** The row discovery writes: the exact triple, else the name-only sibling of a digest, else a new one. */
  ghost function UpsertTarget(models: Models, d: Descriptor, unused: ModelId): ModelId {
    var exact, nameOnly := Holder(models, d.kind, d.name, d.digest), Holder(models, d.kind, d.name, None);
    if exact.Some? then exact.value
    else if d.digest.Some? && nameOnly.Some? then nameOnly.value
    else unused
  }

  ghost function Upserted(models: Models, d: Descriptor, unused: ModelId): Models {
    models[UpsertTarget(models, d, unused) := Described(d)]
  }

  /** Discovery keeps the triples unique, loses no row and no digest, and leaves the sighting's triple held. */
  lemma UpsertKeepsUnique(models: Models, d: Descriptor, unused: ModelId)
    requires Unique(models) && unused !in models
    ensures Unique(Upserted(models, d, unused))
    ensures models.Keys <= Upserted(models, d, unused).Keys
    ensures Holder(Upserted(models, d, unused), d.kind, d.name, d.digest) == Some(UpsertTarget(models, d, unused))
    ensures forall id | id in models ::
      var after := Upserted(models, d, unused)[id];
      && after.kind == models[id].kind && after.name == models[id].name
      && (models[id].digest.Some? ==> after.digest == models[id].digest)
      && (after != models[id] ==>
            && models[id].kind == d.kind && models[id].name == d.name && models[id].digest in {d.digest, None}
            && after == Model(d.kind, d.name, d.digest, d.canonicalId, d.confirmed))
  {
    var target, after := UpsertTarget(models, d, unused), Upserted(models, d, unused);
    forall a, b, kind, name, digest | Has(after, a, kind, name, digest) && Has(after, b, kind, name, digest)
      ensures a == b
    {
      assert a != target ==> Has(models, a, kind, name, digest);
      assert b != target ==> Has(models, b, kind, name, digest);
    }
    assert Has(after, target, d.kind, d.name, d.digest);
  }
}
