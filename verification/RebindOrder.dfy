/** When one re-binding pass is enough, told from the table, the registry and the visiting order alone. */
module RebindOrder {
  import opened Wrappers
  import opened EvidenceBinding
  import opened EvidenceStore

  /** A row's adapter, if it bears one, is in the adapter registry. */
  predicate AdapterHeld(key: Key, adapters: Adapters) {
    key.adapterDigest == "" || key.adapterDigest in adapters
  }

  /** Name-only evidence of a model that the registry knows by name only. */
  ghost predicate BindsByName(models: Models, adapters: Adapters, key: Key, row: Row) {
    row.digest.None? && AdapterHeld(key, adapters) && Holder(models, row.kind, row.name, None).Some?
  }

  /** Evidence with a digest that no registry row of its name carries yet. */
  ghost predicate BringsDigest(models: Models, adapters: Adapters, key: Key, row: Row, kind: string, name: string) {
    && row.kind == kind && row.name == name && row.digest.Some?
    && AdapterHeld(key, adapters) && Holder(models, kind, name, row.digest).None?
  }

  ghost predicate BringsDigestAt(models: Models, rows: Rows, adapters: Adapters, key: Key, kind: string, name: string) {
    key in rows && BringsDigest(models, adapters, key, rows[key], kind, name)
  }

  ghost predicate SomeBringsDigest(models: Models, rows: Rows, adapters: Adapters, order: seq<Key>, kind: string,
                                   name: string) {
    exists key :: key in order && BringsDigestAt(models, rows, adapters, key, kind, name)
  }

  /** Each row is visited once. */
  predicate Distinct(order: seq<Key>) {
    forall i, j | 0 <= i < j < |order| :: order[i] != order[j]
  }

  /** The row at `i` binds by name, and the first row to bring its model a digest comes after it. */
  ghost predicate ReadTooEarly(models: Models, rows: Rows, adapters: Adapters, order: seq<Key>, i: nat)
    requires i < |order| && forall key | key in order :: key in rows
  {
    var row := rows[order[i]];
    && BindsByName(models, adapters, order[i], row)
    && !SomeBringsDigest(models, rows, adapters, order[..i], row.kind, row.name)
    && SomeBringsDigest(models, rows, adapters, order[i + 1..], row.kind, row.name)
  }

  // ------------------------------------------------------------------ the holders during a pass

  /** A visit upgrades exactly when it brings a digest to a model known by name only. */
  lemma UpgradeAskedExactlyWhen(models: Models, adapters: Adapters, key: Key, row: Row)
    ensures var b := Bind(IdentityOf(key, row), models, adapters);
            b.upgrade.Some? <==>
              BringsDigest(models, adapters, key, row, row.kind, row.name)
                && Holder(models, row.kind, row.name, None).Some?
  {
  }

  lemma HolderAfterVisit(p: Progress, adapters: Adapters, key: Key, kind: string, name: string, d: Option<Digest>)
    requires Unique(p.models) && key in p.rows
    ensures var after := Visit(p, adapters, key).models;
            if BringsDigest(p.models, adapters, key, p.rows[key], kind, name)
              && Holder(p.models, kind, name, None).Some?
            then Holder(after, kind, name, None).None?
            else Holder(after, kind, name, d) == Holder(p.models, kind, name, d)
  {
    var row := p.rows[key];
    var identity := IdentityOf(key, row);
    var b := Bind(identity, p.models, adapters);
    UpgradeAskedExactlyWhen(p.models, adapters, key, row);
    if b.upgrade.Some? {
      UpgradeIsPossible(identity, p.models, adapters);
      HolderAfterUpgrade(p.models, b.upgrade.value.id, b.upgrade.value.digest, key.canonicalId, kind, name, d);
      HolderAfterUpgrade(p.models, b.upgrade.value.id, b.upgrade.value.digest, key.canonicalId, kind, name, None);
    }
  }

  lemma SomeBringsDigestStep(models: Models, rows: Rows, adapters: Adapters, order: seq<Key>, kind: string,
                             name: string)
    requires order != []
    ensures SomeBringsDigest(models, rows, adapters, order, kind, name) <==>
      || SomeBringsDigest(models, rows, adapters, order[..|order| - 1], kind, name)
      || BringsDigestAt(models, rows, adapters, order[|order| - 1], kind, name)
  {
    assert forall key :: key in order <==> key in order[..|order| - 1] || key == order[|order| - 1];
  }

  /** How the holders of a name relate to the initial ones, once a digest was brought or not. */
  ghost predicate HoldersAt(models: Models, after: Models, brought: bool, kind: string, name: string,
                            d: Option<Digest>) {
    if brought && Holder(models, kind, name, None).Some? then Holder(after, kind, name, None).None?
    else Holder(after, kind, name, d) == Holder(models, kind, name, d)
  }

  lemma HoldersStep(models: Models, p: Progress, adapters: Adapters, key: Key, brought: bool, kind: string,
                    name: string,
                    d: Option<Digest>)
    requires Unique(p.models) && key in p.rows
    requires HoldersAt(models, p.models, brought, kind, name, d)
    requires HoldersAt(models, p.models, brought, kind, name, None)
    requires HoldersAt(models, p.models, brought, kind, name, p.rows[key].digest)
    ensures HoldersAt(models, Visit(p, adapters, key).models,
                      brought || BringsDigest(models, adapters, key, p.rows[key], kind, name), kind, name, d)
  {
    HolderAfterVisit(p, adapters, key, kind, name, d);
    HolderAfterVisit(p, adapters, key, kind, name, None);
  }

  /** Until a row brings a name its first digest, the holders of that name are the initial ones; from
      then on nobody holds it by name only. */
  lemma {:induction false} HoldersInPass(models: Models, rows: Rows, adapters: Adapters, order: seq<Key>,
                                         kind: string, name: string, d: Option<Digest>)
    requires Unique(models) && forall key | key in order :: key in rows
    ensures HoldersAt(models, Pass(models, rows, adapters, order).models,
                      SomeBringsDigest(models, rows, adapters, order, kind, name), kind, name, d)
    decreases |order|
  {
    if order != [] {
      var front, last := order[..|order| - 1], order[|order| - 1];
      var p := Pass(models, rows, adapters, front);
      PassKeepsUnique(models, rows, adapters, front);
      PassKeepsIdentity(models, rows, adapters, front, last);
      SomeBringsDigestStep(models, rows, adapters, order, kind, name);
      HoldersInPass(models, rows, adapters, front, kind, name, d);
      HoldersInPass(models, rows, adapters, front, kind, name, None);
      HoldersInPass(models, rows, adapters, front, kind, name, rows[last].digest);
      HoldersStep(models, p, adapters, last, SomeBringsDigest(models, rows, adapters, front, kind, name),
                  kind, name, d);
    }
  }

  // ------------------------------------------------------------------ one row of the pass

  lemma {:induction false} PassKeepsNames(models: Models, rows: Rows, adapters: Adapters, order: seq<Key>, id: ModelId)
    requires id in models && forall key | key in order :: key in rows
    ensures var after := Pass(models, rows, adapters, order).models;
            id in after && after[id].kind == models[id].kind && after[id].name == models[id].name
    decreases |order|
  {
    if order != [] {
      PassKeepsNames(models, rows, adapters, order[..|order| - 1], id);
    }
  }

  /** A row that is visited once keeps what that visit wrote. */
  lemma {:induction false} VisitedOnce(models: Models, rows: Rows, adapters: Adapters, order: seq<Key>, i: nat, n: nat)
    requires Distinct(order) && i < n <= |order| && forall key | key in order :: key in rows
    ensures var b := Bind(IdentityOf(order[i], rows[order[i]]), Pass(models, rows, adapters, order[..i]).models,
                          adapters);
            Pass(models, rows, adapters, order[..n]).rows[order[i]] == Rebound(rows[order[i]], b)
    decreases n
  {
    PassStep(models, rows, adapters, order, n - 1);
    if i == n - 1 {
      PassKeepsIdentity(models, rows, adapters, order[..i], order[i]);
    } else {
      VisitedOnce(models, rows, adapters, order, i, n - 1);
    }
  }

  lemma BoundByName(models: Models, adapters: Adapters, key: Key, row: Row)
    requires row.digest.None?
    ensures var b := Bind(IdentityOf(key, row), models, adapters);
            && (b.state == Bound <==> BindsByName(models, adapters, key, row))
            && (b.state == Bound ==> b.modelId == Holder(models, row.kind, row.name, None))
  {
  }

  /** A model held by name only still is if and only if its row has no digest. */
  lemma StillByName(before: Models, after: Models, id: ModelId)
    requires Unique(after) && id in before && id in after && before[id].digest.None?
    requires after[id].kind == before[id].kind && after[id].name == before[id].name
    requires Holder(after, before[id].kind, before[id].name, None) in {None, Some(id)}
    ensures after[id].digest.None? <==> Holder(after, before[id].kind, before[id].name, None).Some?
  {
    if after[id].digest.None? {
      HolderIs(after, id, before[id].kind, before[id].name, None);
    }
  }

  /** The pass leaves a row outrun exactly when it reads it too early. */
  lemma OutrunExactlyWhenReadTooEarly(models: Models, rows: Rows, adapters: Adapters, order: seq<Key>, i: nat)
    requires Unique(models) && Distinct(order) && i < |order| && forall key | key in order :: key in rows
    ensures var p := Pass(models, rows, adapters, order);
            Outrun(p.rows[order[i]], p.models) <==> ReadTooEarly(models, rows, adapters, order, i)
  {
    var key, row := order[i], rows[order[i]];
    var kind, name := row.kind, row.name;
    var middle, after := Pass(models, rows, adapters, order[..i]).models, Pass(models, rows, adapters, order).models;
    assert order[..|order|] == order;
    VisitedOnce(models, rows, adapters, order, i, |order|);
    if row.digest.None? {
      BoundByName(middle, adapters, key, row);
      HoldersInPass(models, rows, adapters, order[..i], kind, name, None);
      HoldersInPass(models, rows, adapters, order, kind, name, None);
      SplitAt(models, rows, adapters, order, i, kind, name);
      var holder := Holder(models, kind, name, None);
      if holder.Some? {
        PassKeepsUnique(models, rows, adapters, order);
        PassKeepsNames(models, rows, adapters, order, holder.value);
        StillByName(models, after, holder.value);
      }
    }
  }

  lemma SplitAt(models: Models, rows: Rows, adapters: Adapters, order: seq<Key>, i: nat, kind: string, name: string)
    requires i < |order| && order[i] in rows && rows[order[i]].digest.None?
    ensures SomeBringsDigest(models, rows, adapters, order, kind, name) <==>
      || SomeBringsDigest(models, rows, adapters, order[..i], kind, name)
      || SomeBringsDigest(models, rows, adapters, order[i + 1..], kind, name)
  {
    assert order == order[..i] + [order[i]] + order[i + 1..];
    assert forall key :: key in order <==> key in order[..i] || key == order[i] || key in order[i + 1..];
    assert !BringsDigestAt(models, rows, adapters, order[i], kind, name);
  }

  /** One pass is enough, whatever order the second takes, if and only if it reads no row too early:
      no name-only evidence of a name-only model comes before the first evidence that brings that model
      a digest. */
  lemma OnePassSufficesExactlyWhen(models: Models, rows: Rows, adapters: Adapters, first: seq<Key>, second: seq<Key>)
    requires Unique(models) && Distinct(first) && Covers(first, rows) && Covers(second, rows)
    ensures var one := Pass(models, rows, adapters, first);
            Pass(one.models, one.rows, adapters, second) == Progress(one.models, one.rows, 0, 0, 0)
            <==> forall i | 0 <= i < |first| :: !ReadTooEarly(models, rows, adapters, first, i)
  {
    var one := Pass(models, rows, adapters, first);
    OnePassByItsResult(models, rows, adapters, first, second);
    forall i | 0 <= i < |first|
      ensures Outrun(one.rows[first[i]], one.models) <==> ReadTooEarly(models, rows, adapters, first, i)
    {
      OutrunExactlyWhenReadTooEarly(models, rows, adapters, first, i);
    }
    assert forall key | key in one.rows :: key in first;
  }
}
