/** What binding, a re-binding pass and an import leave in the tables, said of the registry's rows and the
    records' columns. */
module EvidenceOutcomes {
  import opened Wrappers
  import opened EvidenceBinding
  import opened EvidenceStore
  import opened RebindOrder
  import opened EvidenceImport

  // ------------------------------------------------------------------ one identity

  /** Some registry row carries the triple. */
  ghost predicate Held(models: Models, kind: string, name: string, digest: Option<Digest>) {
    exists id :: Has(models, id, kind, name, digest)
  }

  /** Some registry row has the name, whatever its digest. */
  ghost predicate NameHeld(models: Models, kind: string, name: string) {
    exists digest :: Held(models, kind, name, digest)
  }

  predicate AdapterKnown(adapter: Option<Digest>, adapters: Adapters) {
    adapter.Some? ==> adapter.value in adapters
  }

  lemma NamesAreHeld(models: Models, kind: string, name: string)
    ensures KnowsName(models, kind, name) <==> NameHeld(models, kind, name)
  {
    if id :| id in models && models[id].kind == kind && models[id].name == name {
      assert Has(models, id, kind, name, models[id].digest);
      assert Held(models, kind, name, models[id].digest);
    }
  }

  /** An identity is bound if its exact triple is held, or if it brings a digest for a name held without one. It
      is ambiguous if it brings no digest and its name is held under digests only. Anything else, and anything
      measured under an adapter that is not held, is unmatched. */
  lemma StateInWords(identity: Identity, models: Models, adapters: Adapters)
    ensures var state := Bind(identity, models, adapters).state;
            var exact := Held(models, identity.kind, identity.name, identity.digest);
            var nameOnly := Held(models, identity.kind, identity.name, None);
            && (state == Bound <==>
                  AdapterKnown(identity.adapter, adapters) && (exact || (identity.digest.Some? && nameOnly)))
            && (state == AmbiguousNameOnly <==>
                  && AdapterKnown(identity.adapter, adapters) && identity.digest.None?
                  && NameHeld(models, identity.kind, identity.name) && !nameOnly)
  {
    NamesAreHeld(models, identity.kind, identity.name);
  }

  /** What a binding points at: the holder of the triple, or the name-only row it is about to give its digest. */
  lemma PointersInWords(identity: Identity, models: Models, adapters: Adapters)
    ensures var b := Bind(identity, models, adapters);
            && (b.state != Bound ==> b == Binding(b.state, None, None, None))
            && (b.state == Bound ==>
                  && b.modelId.Some? && b.modelId.value in models
                  && b.adapterId == (if identity.adapter.None? then None else Some(adapters[identity.adapter.value])))
            && (b.state == Bound && Held(models, identity.kind, identity.name, identity.digest) ==>
                  Has(models, b.modelId.value, identity.kind, identity.name, identity.digest) && b.upgrade == None)
            && (b.state == Bound && !Held(models, identity.kind, identity.name, identity.digest) ==>
                  && Has(models, b.modelId.value, identity.kind, identity.name, None)
                  && b.upgrade == Some(Upgrade(b.modelId.value, identity.digest.value)))
  {
    StateInWords(identity, models, adapters);
  }

  // ------------------------------------------------------------------ the fixpoint of re-binding

  /** At the fixpoint a row is ambiguous if and only if it carries no digest, its name is held but by no row
      without a digest, and its adapter, if it names one, is held; a row that is neither that nor bound is
      unmatched. */
  lemma FixpointStates(models: Models, rows: Rows, adapters: Adapters, key: Key)
    requires Unique(models) && Converged(models, rows, adapters) && key in rows
    ensures var row := rows[key];
            var adapterHeld := key.adapterDigest == "" || key.adapterDigest in adapters;
            && (row.state == Bound <==> adapterHeld && Held(models, row.kind, row.name, row.digest))
            && (row.state == AmbiguousNameOnly <==>
                  && adapterHeld && row.digest.None?
                  && NameHeld(models, row.kind, row.name) && !Held(models, row.kind, row.name, None))
            && (row.state == Unmatched <==>
                  || !adapterHeld
                  || !(Held(models, row.kind, row.name, row.digest)
                       || (row.digest.None? && NameHeld(models, row.kind, row.name))))
  {
    var row := rows[key];
    assert Current(key, row, models, adapters);
    StateInWords(IdentityOf(key, row), models, adapters);
    PointersInWords(IdentityOf(key, row), models, adapters);
    if Held(models, row.kind, row.name, row.digest) && row.digest.None? {
      assert NameHeld(models, row.kind, row.name);
    }
  }

  // ------------------------------------------------------------------ what a pass counts and where digests come from

  /** The pass changed the row and left it bound. */
  predicate NowBound(rows: Rows, after: Rows, key: Key) {
    key in rows && key in after && after[key] != rows[key] && after[key].state == Bound
  }

  /** The pass found the row bound and did not leave it so. */
  predicate NowUnbound(rows: Rows, after: Rows, key: Key) {
    key in rows && key in after && rows[key].state == Bound && after[key].state != Bound
  }

  function NewlyBound(rows: Rows, after: Rows, order: seq<Key>): set<Key> {
    set key | key in order && NowBound(rows, after, key)
  }

  function NewlyUnbound(rows: Rows, after: Rows, order: seq<Key>): set<Key> {
    set key | key in order && NowUnbound(rows, after, key)
  }

  lemma {:induction false} UnvisitedStays(models: Models, rows: Rows, adapters: Adapters, order: seq<Key>, key: Key)
    requires key in rows && key !in order && forall k | k in order :: k in rows
    ensures Pass(models, rows, adapters, order).rows[key] == rows[key]
    decreases |order|
  {
    if order != [] {
      UnvisitedStays(models, rows, adapters, order[..|order| - 1], key);
    }
  }

  /** A pass that visits no row twice counts exactly the rows it bound and the rows it unbound. */
  lemma {:induction false} PassCountsItsChanges(models: Models, rows: Rows, adapters: Adapters, order: seq<Key>)
    requires Distinct(order) && forall key | key in order :: key in rows
    ensures var p := Pass(models, rows, adapters, order);
            p.bound == |NewlyBound(rows, p.rows, order)| && p.unbound == |NewlyUnbound(rows, p.rows, order)|
    decreases |order|
  {
    if order != [] {
      var front, last := order[..|order| - 1], order[|order| - 1];
      PassCountsItsChanges(models, rows, adapters, front);
      UnvisitedStays(models, rows, adapters, front, last);
      var p := Pass(models, rows, adapters, front);
      CountOneVisit(rows, p, order, last, Bind(IdentityOf(last, p.rows[last]), p.models, adapters));
    }
  }

  lemma CountOneVisit(rows: Rows, p: Progress, order: seq<Key>, last: Key, b: Binding)
    requires Distinct(order) && order != [] && last == order[|order| - 1]
    requires last in rows && last in p.rows && p.rows[last] == rows[last]
    ensures var front, after := order[..|order| - 1], Applied(p, last, b);
            && |NewlyBound(rows, after.rows, order)| == |NewlyBound(rows, p.rows, front)| + (after.bound - p.bound)
            && |NewlyUnbound(rows, after.rows, order)|
               == |NewlyUnbound(rows, p.rows, front)| + (after.unbound - p.unbound)
  {
    BoundByOneVisit(rows, p.rows, order, Rebound(rows[last], b));
    UnboundByOneVisit(rows, p.rows, order, Rebound(rows[last], b));
  }

  lemma LastIsNew(order: seq<Key>, key: Key)
    requires Distinct(order) && order != []
    ensures order[|order| - 1] !in order[..|order| - 1]
    ensures key in order <==> key in order[..|order| - 1] || key == order[|order| - 1]
  {
  }

  lemma OneMore(all: set<Key>, fewer: set<Key>, last: Key, more: bool)
    requires last !in fewer && forall key :: key in all <==> key in fewer || (more && key == last)
    ensures |all| == |fewer| + if more then 1 else 0
  {
    assert all == fewer + (if more then {last} else {});
  }

  lemma BoundByOneVisit(rows: Rows, was: Rows, order: seq<Key>, row: Row)
    requires Distinct(order) && order != [] && order[|order| - 1] in rows
    ensures var front, last := order[..|order| - 1], order[|order| - 1];
            |NewlyBound(rows, was[last := row], order)|
            == |NewlyBound(rows, was, front)| + (if row != rows[last] && row.state == Bound then 1 else 0)
  {
    var front, last := order[..|order| - 1], order[|order| - 1];
    var all, fewer := NewlyBound(rows, was[last := row], order), NewlyBound(rows, was, front);
    LastIsNew(order, last);
    forall key
      ensures key in all <==> key in fewer || (row != rows[last] && row.state == Bound && key == last)
    {
      LastIsNew(order, key);
      assert key != last ==> (NowBound(rows, was[last := row], key) <==> NowBound(rows, was, key));
    }
    OneMore(all, fewer, last, row != rows[last] && row.state == Bound);
  }

  lemma UnboundByOneVisit(rows: Rows, was: Rows, order: seq<Key>, row: Row)
    requires Distinct(order) && order != [] && order[|order| - 1] in rows
    ensures var front, last := order[..|order| - 1], order[|order| - 1];
            |NewlyUnbound(rows, was[last := row], order)|
            == |NewlyUnbound(rows, was, front)| + (if rows[last].state == Bound && row.state != Bound then 1 else 0)
  {
    var front, last := order[..|order| - 1], order[|order| - 1];
    var all, fewer := NewlyUnbound(rows, was[last := row], order), NewlyUnbound(rows, was, front);
    LastIsNew(order, last);
    forall key
      ensures key in all <==> key in fewer || (rows[last].state == Bound && row.state != Bound && key == last)
    {
      LastIsNew(order, key);
      assert key != last ==> (NowUnbound(rows, was[last := row], key) <==> NowUnbound(rows, was, key));
    }
    OneMore(all, fewer, last, rows[last].state == Bound && row.state != Bound);
  }

  /** A model's digest, canonical id and confirmation come from a row of that digest and name. */
  ghost predicate UpgradedFrom(before: Model, after: Model, key: Key, row: Row) {
    && row.kind == before.kind && row.name == before.name && row.digest.Some?
    && after == Model(before.kind, before.name, row.digest, key.canonicalId, true)
  }

  /** A pass changes a model in one way only: it had no digest, and gets what some visited row says of it. */
  lemma {:induction false} DigestsComeFromEvidence(
    models: Models, rows: Rows, adapters: Adapters, order: seq<Key>, id: ModelId)
    requires Unique(models) && id in models && forall key | key in order :: key in rows
    ensures var after := Pass(models, rows, adapters, order).models;
            && id in after
            && (after[id] != models[id] ==>
                  && models[id].digest.None?
                  && exists key :: key in order && UpgradedFrom(models[id], after[id], key, rows[key]))
    decreases |order|
  {
    if order != [] {
      var front, last := order[..|order| - 1], order[|order| - 1];
      DigestsComeFromEvidence(models, rows, adapters, front, id);
      PassKeepsIdentity(models, rows, adapters, front, last);
      var p := Pass(models, rows, adapters, front);
      PointersInWords(IdentityOf(last, p.rows[last]), p.models, adapters);
      assert last in order && forall key | key in front :: key in order;
    }
  }

  // ------------------------------------------------------------------ the rows an import stores

  /** The row stored for the first record of a key carries what the record says, is bound or not by the registry
      as the records before it left it, and is stale by drift or by age. */
  lemma StoredRowInWords(models: Models, rows: Rows, records: seq<Record>, c: Context, i: nat)
    requires i < |records|
    ensures var r, row, registry :=
              records[i], StoredBy(models, rows, records, c, i), ImportAll(models, rows, records[..i], c).models;
            && row.kind == r.kind && row.name == r.name && row.digest == r.digest
            && row.measuredAt == r.measuredAt && row.content == r.content
            && (row.state == Bound <==>
                  && AdapterKnown(r.adapter, c.adapters)
                  && (Held(registry, r.kind, r.name, r.digest)
                      || (r.digest.Some? && Held(registry, r.kind, r.name, None))))
            && (row.state == AmbiguousNameOnly <==>
                  && AdapterKnown(r.adapter, c.adapters) && r.digest.None?
                  && NameHeld(registry, r.kind, r.name) && !Held(registry, r.kind, r.name, None))
            && (row.state == Bound ==>
                  && row.modelId.Some? && row.modelId.value in registry
                  && registry[row.modelId.value].kind == r.kind && registry[row.modelId.value].name == r.name
                  && registry[row.modelId.value].digest in {r.digest, None}
                  && row.adapterId == (if r.adapter.None? then None else Some(c.adapters[r.adapter.value])))
            && (row.state != Bound ==> row.modelId == None && row.adapterId == None)
            && (row.stale <==> row.staleReason.Some?)
  {
    var r, registry := records[i], ImportAll(models, rows, records[..i], c).models;
    StateInWords(Subject(r), registry, c.adapters);
    PointersInWords(Subject(r), registry, c.adapters);
  }

  /** Drift comes before age. A term of a performance root goes stale after thirty days, any other after
      ninety; at exactly that age it does not. */
  lemma FreshnessInWords(
    models: Models, rows: Rows, records: seq<Record>, c: Context, i: nat, root: string, rest: string)
    requires i < |records| && '.' !in root && records[i].capability in {root, root + "." + rest}
    ensures var r, row := records[i], StoredBy(models, rows, records, c, i);
            var limit := if root in {"speed", "latency", "memory_efficiency", "energy_efficiency"} then 30.0 else 90.0;
            row.staleReason ==
              if r.drift.Some? then Some("environment_drift:" + r.drift.value)
              else if c.now > r.measuredAt + limit * 86400.0 then Some("freshness")
              else None
  {
    HalfLifeByRoot(root, rest);
  }

  /** A record's row is found under what the record says; two records have one key if and only if they agree in all
      six columns, no adapter being an empty digest. */
  lemma KeysAgreeInEveryColumn(a: Record, b: Record, source: string)
    ensures KeyOf(a, source) == KeyOf(b, source) <==>
      && a.canonicalId == b.canonicalId && a.profile == b.profile && a.machine == b.machine
      && a.capability == b.capability && a.policy == b.policy
      && (a.adapter == b.adapter || {a.adapter, b.adapter} == {None, Some("")})
    ensures var key := KeyOf(a, source);
            && key.source == source && key.canonicalId == a.canonicalId && key.profile == a.profile
            && key.machine == a.machine && key.capability == a.capability && key.policy == a.policy
            && (a.adapter.Some? ==> key.adapterDigest == a.adapter.value)
  {
    assert a.adapter == None && b.adapter == Some("") ==> {a.adapter, b.adapter} == {None, Some("")};
    assert b.adapter == None && a.adapter == Some("") ==> {a.adapter, b.adapter} == {None, Some("")};
    if {a.adapter, b.adapter} == {None, Some("")} {
      assert a.adapter in {None, Some("")} && b.adapter in {None, Some("")};
    }
  }

  // ------------------------------------------------------------------ the rows an import leaves out

  ghost predicate FlagsAgree(rows: Rows) {
    forall key | key in rows :: rows[key].stale <==> rows[key].staleReason.Some?
  }

  lemma {:induction false} StoringKeepsFlags(models: Models, rows: Rows, records: seq<Record>, c: Context)
    requires FlagsAgree(rows)
    ensures FlagsAgree(ImportAll(models, rows, records, c).rows)
  {
    if records != [] {
      StoringKeepsFlags(models, rows, records[..|records| - 1], c);
    }
  }

  /** A row is flagged stale exactly when it has a reason to be. */
  lemma ImportKeepsFlags(models: Models, rows: Rows, records: seq<Record>, c: Context, complete: bool)
    requires FlagsAgree(rows)
    ensures FlagsAgree(Finished(ImportAll(models, rows, records, c), c, complete))
  {
    StoringKeepsFlags(models, rows, records, c);
  }

  /** After an incomplete bundle a row of its source that it left out has the badge it had, unless that said the
      source cannot be reached: then it has the one of its own age. */
  lemma LeftOutRowInWords(
    models: Models, rows: Rows, records: seq<Record>, c: Context, key: Key, root: string, rest: string)
    requires '.' !in root && key.capability in {root, root + "." + rest}
    requires key in rows && key.source == c.source && key !in ImportAll(models, rows, records, c).seen
    ensures key in Finished(ImportAll(models, rows, records, c), c, false)
    ensures var after := Finished(ImportAll(models, rows, records, c), c, false)[key];
            var limit := if root in {"speed", "latency", "memory_efficiency", "energy_efficiency"} then 30.0 else 90.0;
            after.staleReason ==
              if rows[key].staleReason != Some("source_unreachable") then rows[key].staleReason
              else if c.now > rows[key].measuredAt + limit * 86400.0 then Some("freshness")
              else None
  {
    OnlySeenRowsChange(models, rows, records, c);
    HalfLifeByRoot(root, rest);
  }

  ghost function NewlySuperseded(rows: Rows, after: Rows): set<Key> {
    set key | key in rows && key in after && after[key].staleReason == SUPERSEDED && rows[key].staleReason != SUPERSEDED
  }

  /** The outcome counts the rows that were not marked superseded before and are now. */
  lemma SupersededAreCounted(models: Models, rows: Rows, records: seq<Record>, c: Context, complete: bool, invalid: nat)
    requires c.existing == Existing(rows, c.source)
    ensures var p := ImportAll(models, rows, records, c);
            OutcomeOf(p, c, complete, invalid, |records| + invalid).superseded
            == |NewlySuperseded(rows, Finished(p, c, complete))|
  {
    var p := ImportAll(models, rows, records, c);
    OnlySeenRowsChange(models, rows, records, c);
    forall key | key in p.rows && key in rows
      ensures key in p.seen ==> p.rows[key].staleReason != SUPERSEDED
    {
      SeenAreNotSuperseded(models, rows, records, c, key);
    }
    CountedAreNew(rows, p, c, complete);
  }

  lemma CountedAreNew(rows: Rows, p: Import, c: Context, complete: bool)
    requires c.existing == Existing(rows, c.source) && p.rows.Keys == rows.Keys + p.seen
    requires forall key | key in rows && key !in p.seen :: p.rows[key] == rows[key]
    requires forall key | key in p.seen && key in rows :: p.rows[key].staleReason != SUPERSEDED
    ensures var refreshed := Refreshed(p.rows, c.source, c.now);
            NewlySuperseded(rows, Finished(p, c, complete))
            == if complete then NotYetSuperseded(refreshed, c.existing - p.seen) else {}
  {
    var refreshed, after := Refreshed(p.rows, c.source, c.now), Finished(p, c, complete);
    forall key | key in p.rows && p.rows[key].staleReason == UNREACHABLE
      ensures refreshed[key].staleReason != SUPERSEDED
    {
      ReasonIsNotSuperseded(p.rows[key].measuredAt, c.now, key.capability, None);
    }
  }
}
