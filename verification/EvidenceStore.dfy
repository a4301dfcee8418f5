/** The evidence table, and the pass over it that re-evaluates every binding on each discovery. */
module EvidenceStore {
  import opened Wrappers
  import opened EvidenceBinding
  import EvidenceSources

  type Instant = real

  /** The seven columns of the consumer-side uniqueness key. A bare base has an empty adapter digest. */
  datatype Key = Key(
    source: string,
    canonicalId: string,
    adapterDigest: Digest,
    profile: string,
    machine: string,
    capability: string,
    policy: string)

  /** What the producer measured. */
  datatype Content = Content(score: real, confidence: real, samples: nat)

  /** The other columns of `capability_evidence`. */
  datatype Row = Row(
    kind: string,
    name: string,
    digest: Option<Digest>,
    state: MatchState,
    modelId: Option<ModelId>,
    adapterId: Option<AdapterId>,
    measuredAt: Instant,
    content: Content,
    stale: bool,
    staleReason: Option<string>)

  type Rows = map<Key, Row>

  function IdentityOf(key: Key, row: Row): Identity {
    Identity(row.kind, row.name, row.digest, if key.adapterDigest == "" then None else Some(key.adapterDigest))
  }

  function Rebound(row: Row, b: Binding): Row {
    row.(state := b.state, modelId := b.modelId, adapterId := b.adapterId)
  }

  /** The registry after the upgrade a binding asks for, if it asks for one. */
  function AfterUpgrade(models: Models, b: Binding, canonicalId: string): Models {
    if b.upgrade.Some? && b.upgrade.value.id in models && models[b.upgrade.value.id].digest.None? then
      Upgraded(models, b.upgrade.value.id, b.upgrade.value.digest, canonicalId)
    else
      models
  }

  // ------------------------------------------------------------------ one pass

  datatype Progress = Progress(models: Models, rows: Rows, bound: nat, unbound: nat, upgraded: nat)

  /** A visit to a row whose identity binds as `b` says. */
  function Applied(p: Progress, key: Key, b: Binding): Progress
    requires key in p.rows
  {
    var row := p.rows[key];
    var changed := Rebound(row, b) != row;
    Progress(
      AfterUpgrade(p.models, b, key.canonicalId),
      p.rows[key := Rebound(row, b)],
      p.bound + (if changed && b.state == Bound then 1 else 0),
      p.unbound + (if changed && b.state != Bound && row.state == Bound then 1 else 0),
      p.upgraded + (if b.upgrade.Some? then 1 else 0))
  }

  ghost function Visit(p: Progress, adapters: Adapters, key: Key): Progress
    requires key in p.rows
  {
    Applied(p, key, Bind(IdentityOf(key, p.rows[key]), p.models, adapters))
  }

  /** The pass over `order`, each row against the registry as the rows before it left it. */
  ghost function Pass(models: Models, rows: Rows, adapters: Adapters, order: seq<Key>): (p: Progress)
    requires forall key | key in order :: key in rows
    ensures p.rows.Keys == rows.Keys
  {
    if order == [] then Progress(models, rows, 0, 0, 0)
    else Visit(Pass(models, rows, adapters, order[..|order| - 1]), adapters, order[|order| - 1])
  }

  /** The pass that began at `was` has come to `i`, and stands at `p`. */
  ghost predicate Reached(was: Progress, adapters: Adapters, order: seq<Key>, i: nat, p: Progress) {
    && i <= |order|
    && (forall key | key in order :: key in was.rows)
    && p == Pass(was.models, was.rows, adapters, order[..i])
  }

  lemma PassBegins(was: Progress, adapters: Adapters, order: seq<Key>)
    requires was == Progress(was.models, was.rows, 0, 0, 0) && forall key | key in order :: key in was.rows
    ensures Reached(was, adapters, order, 0, was)
  {
    assert order[..0] == [];
  }

  lemma PassEnds(was: Progress, adapters: Adapters, order: seq<Key>, p: Progress)
    requires Reached(was, adapters, order, |order|, p)
    ensures p == Pass(was.models, was.rows, adapters, order)
  {
    assert order[..|order|] == order;
  }

  /** Every row is visited. */
  ghost predicate Covers(order: seq<Key>, rows: Rows) {
    forall key :: key in order <==> key in rows
  }

  // ------------------------------------------------------------------ what a visit does to the others

  /** The row says what its identity binds to now, and asks for no upgrade. */
  ghost predicate Current(key: Key, row: Row, models: Models, adapters: Adapters) {
    var b := Bind(IdentityOf(key, row), models, adapters);
    b.upgrade.None? && row == Rebound(row, b)
  }

  /** Name-only evidence bound to a model that has since been given a digest. */
  predicate Outrun(row: Row, models: Models) {
    && row.digest.None? && row.state == Bound && row.modelId.Some?
    && row.modelId.value in models && models[row.modelId.value].digest.Some?
  }

  lemma OutrunIsNotCurrent(key: Key, row: Row, models: Models, adapters: Adapters)
    requires Outrun(row, models)
    ensures !Current(key, row, models, adapters)
    ensures Bind(IdentityOf(key, row), models, adapters).upgrade.None?
  {
  }

  ghost predicate Visited(key: Key, row: Row, models: Models, adapters: Adapters) {
    Current(key, row, models, adapters) || Outrun(row, models)
  }

  /** A visit keeps the triples unique and makes its row current. */
  lemma VisitedRowIsCurrent(p: Progress, adapters: Adapters, key: Key)
    requires Unique(p.models) && key in p.rows
    ensures var after := Visit(p, adapters, key);
            && Unique(after.models) && p.models.Keys == after.models.Keys
            && Current(key, after.rows[key], after.models, adapters)
  {
    var row := p.rows[key];
    var identity := IdentityOf(key, row);
    var b := Bind(identity, p.models, adapters);
    if b.upgrade.Some? {
      UpgradeIsPossible(identity, p.models, adapters);
      UpgradeKeepsUnique(p.models, b.upgrade.value.id, b.upgrade.value.digest, key.canonicalId);
      BindAfterUpgrade(identity, p.models, adapters, b.upgrade.value.id, b.upgrade.value.digest, key.canonicalId);
    }
  }

  /** A visited row stays visited whatever the pass does next. */
  lemma UpgradeKeepsVisited(key: Key, row: Row, models: Models, adapters: Adapters, id: ModelId, digest: Digest,
                            canonicalId: string)
    requires Unique(models) && CanUpgrade(models, id, digest)
    requires Visited(key, row, models, adapters)
    ensures Visited(key, row, Upgraded(models, id, digest, canonicalId), adapters)
  {
    if Current(key, row, models, adapters) {
      BindAfterUpgrade(IdentityOf(key, row), models, adapters, id, digest, canonicalId);
    }
  }

  lemma VisitKeepsVisited(p: Progress, adapters: Adapters, key: Key, other: Key)
    requires Unique(p.models) && key in p.rows && other in p.rows && other != key
    requires Visited(other, p.rows[other], p.models, adapters)
    ensures var after := Visit(p, adapters, key); Visited(other, after.rows[other], after.models, adapters)
  {
    var identity := IdentityOf(key, p.rows[key]);
    var b := Bind(identity, p.models, adapters);
    if b.upgrade.Some? {
      UpgradeIsPossible(identity, p.models, adapters);
      UpgradeKeepsVisited(other, p.rows[other], p.models, adapters, b.upgrade.value.id, b.upgrade.value.digest,
                          key.canonicalId);
    }
  }

  lemma {:induction false} PassVisits(models: Models, rows: Rows, adapters: Adapters, order: seq<Key>, key: Key)
    requires Unique(models) && forall k | k in order :: k in rows
    ensures var p := Pass(models, rows, adapters, order);
            Unique(p.models) && (key in order ==> Visited(key, p.rows[key], p.models, adapters))
    decreases |order|
  {
    if order != [] {
      var front, last := order[..|order| - 1], order[|order| - 1];
      PassVisits(models, rows, adapters, front, key);
      var p := Pass(models, rows, adapters, front);
      VisitedRowIsCurrent(p, adapters, last);
      if key in order && key != last {
        assert key in front;
        VisitKeepsVisited(p, adapters, last, key);
      }
    }
  }

  // ------------------------------------------------------------------ convergence

  /** No row of the table asks for an upgrade. */
  ghost predicate Settled(models: Models, rows: Rows, adapters: Adapters) {
    forall key | key in rows :: Bind(IdentityOf(key, rows[key]), models, adapters).upgrade.None?
  }

  /** Every row of the table is current. */
  ghost predicate Converged(models: Models, rows: Rows, adapters: Adapters) {
    forall key | key in rows :: Current(key, rows[key], models, adapters)
  }

  /** One pass leaves no upgrade to make, and leaves rows wrong only where a later row of the same
      pass gave their model a digest. */
  lemma OnePass(models: Models, rows: Rows, adapters: Adapters, order: seq<Key>)
    requires Unique(models) && Covers(order, rows)
    ensures var p := Pass(models, rows, adapters, order);
            && Unique(p.models) && Settled(p.models, p.rows, adapters)
            && (Converged(p.models, p.rows, adapters) <==> forall key | key in p.rows :: !Outrun(p.rows[key], p.models))
  {
    var p := Pass(models, rows, adapters, order);
    PassVisits(models, rows, adapters, [], if order == [] then Key("", "", "", "", "", "", "") else order[0]);
    forall key | key in p.rows
      ensures Bind(IdentityOf(key, p.rows[key]), p.models, adapters).upgrade.None?
      ensures Current(key, p.rows[key], p.models, adapters) <==> !Outrun(p.rows[key], p.models)
    {
      PassVisits(models, rows, adapters, order, key);
      if Outrun(p.rows[key], p.models) {
        OutrunIsNotCurrent(key, p.rows[key], p.models, adapters);
      }
    }
    PassKeepsUnique(models, rows, adapters, order);
  }

  lemma {:induction false} PassKeepsUnique(models: Models, rows: Rows, adapters: Adapters, order: seq<Key>)
    requires Unique(models) && forall key | key in order :: key in rows
    ensures Unique(Pass(models, rows, adapters, order).models)
    ensures Pass(models, rows, adapters, order).models.Keys == models.Keys
    decreases |order|
  {
    if order != [] {
      PassKeepsUnique(models, rows, adapters, order[..|order| - 1]);
      VisitedRowIsCurrent(Pass(models, rows, adapters, order[..|order| - 1]), adapters, order[|order| - 1]);
    }
  }

  lemma PassStep(models: Models, rows: Rows, adapters: Adapters, order: seq<Key>, i: nat)
    requires i < |order| && forall key | key in order :: key in rows
    ensures Pass(models, rows, adapters, order[..i + 1])
      == Visit(Pass(models, rows, adapters, order[..i]), adapters, order[i])
  {
    assert order[..i + 1][..i] == order[..i];
  }

  lemma {:induction false} PassKeepsIdentity(models: Models, rows: Rows, adapters: Adapters, order: seq<Key>, key: Key)
    requires key in rows && forall k | k in order :: k in rows
    ensures var row := Pass(models, rows, adapters, order).rows[key];
            row == rows[key].(state := row.state, modelId := row.modelId, adapterId := row.adapterId)
    decreases |order|
  {
    if order != [] {
      PassKeepsIdentity(models, rows, adapters, order[..|order| - 1], key);
    }
  }

  /** A pass over a settled table upgrades nothing. */
  lemma {:induction false} SettledPass(models: Models, rows: Rows, adapters: Adapters, order: seq<Key>)
    requires Settled(models, rows, adapters) && forall key | key in order :: key in rows
    ensures Pass(models, rows, adapters, order).models == models
    ensures Pass(models, rows, adapters, order).upgraded == 0
    decreases |order|
  {
    if order != [] {
      var front, last := order[..|order| - 1], order[|order| - 1];
      SettledPass(models, rows, adapters, front);
      PassKeepsIdentity(models, rows, adapters, front, last);
    }
  }

  /** It makes each row it visits say what its identity binds to, and leaves the others. */
  lemma {:induction false} SettledRow(models: Models, rows: Rows, adapters: Adapters, order: seq<Key>, key: Key)
    requires Settled(models, rows, adapters) && key in rows && forall k | k in order :: k in rows
    ensures Pass(models, rows, adapters, order).rows[key]
         == if key in order then Rebound(rows[key], Bind(IdentityOf(key, rows[key]), models, adapters)) else rows[key]
    decreases |order|
  {
    if order != [] {
      var front, last := order[..|order| - 1], order[|order| - 1];
      SettledPass(models, rows, adapters, front);
      SettledRow(models, rows, adapters, front, key);
      assert key in order <==> key in front || key == last;
    }
  }

  /** A pass over a converged table changes nothing at all. */
  lemma {:induction false} ConvergedPass(models: Models, rows: Rows, adapters: Adapters, order: seq<Key>)
    requires Converged(models, rows, adapters) && forall key | key in order :: key in rows
    ensures Pass(models, rows, adapters, order) == Progress(models, rows, 0, 0, 0)
    decreases |order|
  {
    if order != [] {
      ConvergedPass(models, rows, adapters, order[..|order| - 1]);
      assert Current(order[|order| - 1], rows[order[|order| - 1]], models, adapters);
    }
  }

  /** Re-binding converges in two passes, whatever the orders: the second upgrades nothing, and from
      then on every pass changes nothing. */
  lemma RebindingConverges(models: Models, rows: Rows, adapters: Adapters, first: seq<Key>, second: seq<Key>,
                           third: seq<Key>)
    requires Unique(models) && Covers(first, rows) && Covers(second, rows) && Covers(third, rows)
    ensures var one := Pass(models, rows, adapters, first);
            var two := Pass(one.models, one.rows, adapters, second);
            && two.models == one.models && two.upgraded == 0
            && Converged(two.models, two.rows, adapters)
            && Pass(two.models, two.rows, adapters, third) == Progress(two.models, two.rows, 0, 0, 0)
  {
    var one := Pass(models, rows, adapters, first);
    OnePass(models, rows, adapters, first);
    SettledPass(one.models, one.rows, adapters, second);
    var two := Pass(one.models, one.rows, adapters, second);
    forall key | key in two.rows
      ensures Current(key, two.rows[key], two.models, adapters)
    {
      SettledRow(one.models, one.rows, adapters, second, key);
      assert IdentityOf(key, two.rows[key]) == IdentityOf(key, one.rows[key]);
    }
    ConvergedPass(two.models, two.rows, adapters, third);
  }

  /** Whether one pass was enough can be read off its result: exactly when no row it left bound by
      name alone points at a model that now has a digest. */
  lemma OnePassByItsResult(models: Models, rows: Rows, adapters: Adapters, first: seq<Key>, second: seq<Key>)
    requires Unique(models) && Covers(first, rows) && Covers(second, rows)
    ensures var one := Pass(models, rows, adapters, first);
            Pass(one.models, one.rows, adapters, second) == Progress(one.models, one.rows, 0, 0, 0)
            <==> forall key | key in one.rows :: !Outrun(one.rows[key], one.models)
  {
    var one := Pass(models, rows, adapters, first);
    OnePass(models, rows, adapters, first);
    if Converged(one.models, one.rows, adapters) {
      ConvergedPass(one.models, one.rows, adapters, second);
    } else {
      var key :| key in one.rows && !Current(key, one.rows[key], one.models, adapters);
      SettledRow(one.models, one.rows, adapters, second, key);
      assert Pass(one.models, one.rows, adapters, second).rows[key] != one.rows[key];
    }
  }

  /** At the fixpoint a row is bound exactly when the registry holds its exact triple and, if it was
      measured under an adapter, that adapter's digest; and it is bound to the holder of the triple. */
  lemma FixpointBindings(models: Models, rows: Rows, adapters: Adapters, key: Key)
    requires Unique(models) && Converged(models, rows, adapters) && key in rows
    ensures var row := rows[key];
            && (row.state == Bound <==>
                 (exists id :: Has(models, id, row.kind, row.name, row.digest))
                 && (key.adapterDigest != "" ==> key.adapterDigest in adapters))
            && (row.state == Bound ==>
                 (row.modelId.Some? && Has(models, row.modelId.value, row.kind, row.name, row.digest)
                 && row.adapterId == (if key.adapterDigest == "" then None else Some(adapters[key.adapterDigest]))))
            && (row.state != Bound ==> row.modelId == None && row.adapterId == None)
  {
    assert Current(key, rows[key], models, adapters);
    BoundExactlyWhenHeld(IdentityOf(key, rows[key]), models, adapters);
  }

  /** A single pass is not a fixpoint: name-only evidence read before the row that upgrades its model
      stays bound to weights it never named. */
  lemma OnePassIsNotAFixpoint()
    returns (models: Models, rows: Rows, order: seq<Key>)
    ensures Unique(models) && Covers(order, rows)
    ensures var one := Pass(models, rows, map[], order);
            !Converged(one.models, one.rows, map[])
  {
    var plain := Key("s", "ollama/m", "", "p", "h", "speed", "1.0");
    var hashed := Key("s", "ollama/m@d", "", "p", "h", "speed", "1.0");
    var content := Content(0.5, 0.5, 1);
    models := map["id" := Model("ollama", "m", None, "ollama/m", false)];
    rows := map[
      plain := Row("ollama", "m", None, Unmatched, None, None, 0.0, content, false, None),
      hashed := Row("ollama", "m", Some("d"), Unmatched, None, None, 0.0, content, false, None)];
    order := [plain, hashed];
    FirstVisited(models, rows, order, plain, hashed);
  }

  lemma FirstVisited(models: Models, rows: Rows, order: seq<Key>, plain: Key, hashed: Key)
    requires plain != hashed && order == [plain, hashed] && rows.Keys == {plain, hashed} && models.Keys == {"id"}
    requires plain.adapterDigest == "" && hashed.adapterDigest == ""
    requires Has(models, "id", rows[plain].kind, rows[plain].name, None) && rows[plain].digest == None
    requires rows[hashed].kind == rows[plain].kind && rows[hashed].name == rows[plain].name
      && rows[hashed].digest == Some("d")
    ensures !Converged(Pass(models, rows, map[], order).models, Pass(models, rows, map[], order).rows, map[])
  {
    var zero := Progress(models, rows, 0, 0, 0);
    assert order[..1] == [plain] && order[..1][..0] == [];
    var half := Visit(zero, map[], plain);
    assert Pass(models, rows, map[], order[..1]) == half;
    HolderIs(models, "id", rows[plain].kind, rows[plain].name, None);
    assert half.models == models && half.rows[plain].state == Bound && half.rows[plain].modelId == Some("id");
    var one := Visit(half, map[], hashed);
    assert one == Pass(models, rows, map[], order);
    assert Outrun(one.rows[plain], one.models);
    OutrunIsNotCurrent(plain, one.rows[plain], one.models, map[]);
  }

  // ------------------------------------------------------------------ upgrades are counted

  function NameOnly(models: Models): set<ModelId> {
    set id | id in models && models[id].digest.None?
  }

  /** `upgraded` name-only models were given a digest, and no other model changed. */
  ghost predicate Counted(before: Models, after: Models, upgraded: nat) {
    && after.Keys == before.Keys
    && NameOnly(after) <= NameOnly(before)
    && upgraded == |NameOnly(before)| - |NameOnly(after)|
    && forall id | id in before && (before[id].digest.Some? || id in NameOnly(after)) :: after[id] == before[id]
  }

  lemma CountedStep(before: Models, middle: Models, upgraded: nat, id: ModelId, digest: Digest, canonicalId: string)
    requires Counted(before, middle, upgraded) && id in NameOnly(middle)
    ensures Counted(before, Upgraded(middle, id, digest, canonicalId), upgraded + 1)
  {
    assert NameOnly(Upgraded(middle, id, digest, canonicalId)) == NameOnly(middle) - {id};
  }

  lemma {:induction false} UpgradesAreCounted(models: Models, rows: Rows, adapters: Adapters, order: seq<Key>)
    requires Unique(models) && forall key | key in order :: key in rows
    ensures Counted(models, Pass(models, rows, adapters, order).models, Pass(models, rows, adapters, order).upgraded)
    decreases |order|
  {
    if order != [] {
      var front, last := order[..|order| - 1], order[|order| - 1];
      UpgradesAreCounted(models, rows, adapters, front);
      PassKeepsUnique(models, rows, adapters, front);
      var p := Pass(models, rows, adapters, front);
      var identity := IdentityOf(last, p.rows[last]);
      var b := Bind(identity, p.models, adapters);
      if b.upgrade.Some? {
        UpgradeIsPossible(identity, p.models, adapters);
        CountedStep(models, p.models, p.upgraded, b.upgrade.value.id, b.upgrade.value.digest, last.canonicalId);
      }
    }
  }

  // ------------------------------------------------------------------ discovery, then the pass

  lemma {:induction false} DigestsStay(models: Models, rows: Rows, adapters: Adapters, order: seq<Key>, kind: string,
                                       name: string, digest: Digest)
    requires Unique(models) && forall key | key in order :: key in rows
    ensures Holder(models, kind, name, Some(digest)) in
      {None, Holder(Pass(models, rows, adapters, order).models, kind, name, Some(digest))}
  {
    var holder := Holder(models, kind, name, Some(digest));
    if holder.Some? {
      UpgradesAreCounted(models, rows, adapters, order);
      PassKeepsUnique(models, rows, adapters, order);
      HolderIs(Pass(models, rows, adapters, order).models, holder.value, kind, name, Some(digest));
    }
  }

  /** Unmatched evidence binds on the next discovery pass with no re-import: once discovery has seen a
      digest, one pass in any order binds every row of that triple whose adapter is held, to that model. */
  lemma DiscoveredEvidenceBinds(models: Models, rows: Rows, adapters: Adapters, d: Descriptor, unused: ModelId,
                                order: seq<Key>, key: Key)
    requires Unique(models) && unused !in models && d.digest.Some?
    requires Covers(order, rows) && key in rows
    requires rows[key].kind == d.kind && rows[key].name == d.name && rows[key].digest == d.digest
    requires key.adapterDigest != "" ==> key.adapterDigest in adapters
    ensures var p := Pass(Upserted(models, d, unused), rows, adapters, order);
            p.rows[key].state == Bound && p.rows[key].modelId == Some(UpsertTarget(models, d, unused))
  {
    var seen := Upserted(models, d, unused);
    UpsertKeepsUnique(models, d, unused);
    DigestsStay(seen, rows, adapters, order, d.kind, d.name, d.digest.value);
    PassVisits(seen, rows, adapters, order, key);
    PassKeepsIdentity(seen, rows, adapters, order, key);
  }

  // ------------------------------------------------------------------ the store

  datatype Counts = Counts(bound: nat, unbound: nat, upgraded: nat)

  datatype RebindOutcome = RebindOutcome(counts: Counts, examined: nat)

  function At(models: Models, rows: Rows, counts: Counts): Progress {
    Progress(models, rows, counts.bound, counts.unbound, counts.upgraded)
  }

  /** Every registry row binding needs, in whatever order the query returns them. */
  method ListModels(models: Models) returns (registry: seq<LocalModel>)
    ensures Listing(models, registry)
  {
    registry := [];
    var pending := models.Keys;
    while pending != {}
      invariant pending <= models.Keys
      invariant forall row ::
        row in registry <==> row.id in models && row.id !in pending && row == AsLocal(models, row.id)
      decreases |pending|
    {
      var id :| id in pending;
      var row := AsLocal(models, id);
      assert forall other :: other in registry + [row] <==> other in registry || other == row;
      registry, pending := registry + [row], pending - {id};
    }
  }

  class EvidenceDatabase {
    var models: Models
    var adapters: Adapters
    var rows: Rows
    var sources: EvidenceSources.Sources

    constructor (models: Models, adapters: Adapters, rows: Rows, sources: EvidenceSources.Sources)
      ensures this.models == models && this.adapters == adapters && this.rows == rows && this.sources == sources
    {
      this.models, this.adapters, this.rows, this.sources := models, adapters, rows, sources;
    }

    /** Inserts or updates the identity row of one sighting. */
    method UpsertModel(d: Descriptor, unused: ModelId) returns (id: ModelId)
      requires Unique(models) && unused !in models
      modifies this`models
      ensures Unique(models)
      ensures id == UpsertTarget(old(models), d, unused)
      ensures models == Upserted(old(models), d, unused)
    {
      UpsertKeepsUnique(models, d, unused);
      var registry := ListModels(models);
      FirstIsHolder(models, registry, d.kind, d.name, d.digest);
      FirstIsHolder(models, registry, d.kind, d.name, None);
      var existing := FirstWith(registry, d.kind, d.name, d.digest);
      if existing.None? && d.digest.Some? {
        existing := FirstWith(registry, d.kind, d.name, None);
      }
      if existing.None? {
        id := unused;
        models := models[unused := Described(d)];
      } else {
        id := existing.value;
        models := models[id := models[id].(digest := d.digest, canonicalId := d.canonicalId, confirmed := d.confirmed)];
      }
    }

    /** Makes the upgrade a binding asks for, if the row is still name-only. */
    method MakeUpgrade(b: Binding, canonicalId: string) returns (made: bool)
      modifies this`models
      ensures models == AfterUpgrade(old(models), b, canonicalId)
      ensures made <==>
        b.upgrade.Some? && b.upgrade.value.id in old(models) && old(models)[b.upgrade.value.id].digest.None?
    {
      made := false;
      if b.upgrade.Some? && b.upgrade.value.id in models {
        var model := models[b.upgrade.value.id];
        if model.digest.None? {
          models := models[b.upgrade.value.id :=
            model.(digest := Some(b.upgrade.value.digest), canonicalId := canonicalId, confirmed := true)];
          made := true;
        }
      }
    }

    /** Writes a row's binding if it differs, and says whether the row was bound or unbound by that. */
    method RebindRow(key: Key, b: Binding) returns (nowBound: bool, nowUnbound: bool)
      requires key in rows
      modifies this`rows
      ensures rows == old(rows)[key := Rebound(old(rows)[key], b)]
      ensures nowBound <==> Rebound(old(rows)[key], b) != old(rows)[key] && b.state == Bound
      ensures nowUnbound <==>
        Rebound(old(rows)[key], b) != old(rows)[key] && b.state != Bound && old(rows)[key].state == Bound
    {
      var row := rows[key];
      nowBound, nowUnbound := false, false;
      if row.state != b.state || row.modelId != b.modelId || row.adapterId != b.adapterId {
        rows := rows[key := row.(state := b.state, modelId := b.modelId, adapterId := b.adapterId)];
        nowBound, nowUnbound := b.state == Bound, b.state != Bound && row.state == Bound;
      }
    }

    /** Makes the upgrade a binding asks for, then writes the binding to the row. */
    method Apply(key: Key, b: Binding, counts: Counts) returns (after: Counts, made: bool)
      requires key in rows
      requires b.upgrade.Some? ==> b.upgrade.value.id in models && models[b.upgrade.value.id].digest.None?
      modifies this`models, this`rows
      ensures At(models, rows, after) == Applied(At(old(models), old(rows), counts), key, b)
      ensures !made ==> models == old(models)
    {
      made := MakeUpgrade(b, key.canonicalId);
      var nowBound, nowUnbound := RebindRow(key, b);
      after := Counts(
        if nowBound then counts.bound + 1 else counts.bound,
        if nowUnbound then counts.unbound + 1 else counts.unbound,
        if made then counts.upgraded + 1 else counts.upgraded);
    }

    /** One row of the pass, against a listing of the registry as it is now. */
    method VisitRow(registry: seq<LocalModel>, ghost was: Progress, order: seq<Key>, i: nat, counts: Counts)
      returns (after: Counts, made: bool)
      requires Unique(models) && Listing(models, registry)
      requires i < |order| && Covers(order, rows)
      requires Reached(was, adapters, order, i, At(models, rows, counts))
      modifies this`models, this`rows
      ensures Unique(models) && rows.Keys == old(rows).Keys
      ensures !made ==> models == old(models)
      ensures Reached(was, adapters, order, i + 1, At(models, rows, after))
    {
      ghost var p := At(models, rows, counts);
      PassStep(was.models, was.rows, adapters, order, i);
      var key := order[i];
      var identity := IdentityOf(key, rows[key]);
      var b := BindIdentity(identity, registry, adapters);
      OrderDoesNotMatter(identity, models, registry, adapters);
      VisitedRowIsCurrent(p, adapters, key);
      UpgradeAsked(identity, models, adapters);
      after, made := Apply(key, b, counts);
    }

    /** Re-evaluates every row, in the order the query returned them. The registry is read once, and
        again after each upgrade. */
    method Rebind(order: seq<Key>) returns (outcome: RebindOutcome)
      requires Unique(models) && Covers(order, rows)
      modifies this`models, this`rows
      ensures Unique(models)
      ensures var p := Pass(old(models), old(rows), adapters, order);
              && models == p.models && rows == p.rows
              && outcome == RebindOutcome(Counts(p.bound, p.unbound, p.upgraded), |order|)
    {
      var registry := ListModels(models);
      var counts := Counts(0, 0, 0);
      ghost var was := At(models, rows, counts);
      PassBegins(was, adapters, order);
      var i := 0;
      while i < |order|
        invariant 0 <= i <= |order|
        invariant Unique(models) && Listing(models, registry)
        invariant rows.Keys == old(rows).Keys
        invariant Reached(was, adapters, order, i, At(models, rows, counts))
      {
        var made;
        counts, made := VisitRow(registry, was, order, i, counts);
        if made {
          registry := ListModels(models);
        }
        i := i + 1;
      }
      PassEnds(was, adapters, order, At(models, rows, counts));
      outcome := RebindOutcome(counts, |order|);
    }
  }

  lemma UpgradeAsked(identity: Identity, models: Models, adapters: Adapters)
    ensures var b := Bind(identity, models, adapters);
            (b.upgrade.Some? ==> b.upgrade.value.id in models && models[b.upgrade.value.id].digest.None?)
  {
  }
}
