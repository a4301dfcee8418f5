/** Importing one evidence bundle in one transaction: what is stored, counted, refreshed and superseded. */
module EvidenceImport {
  import opened Wrappers
  import opened EvidenceBinding
  import EvidenceSources
  import opened EvidenceStore
  import opened Sweeps

  /** One validated record. `drift` is the environment field that has changed since the measurement. */
  datatype Record = Record(
    kind: string,
    name: string,
    digest: Option<Digest>,
    canonicalId: string,
    adapter: Option<Digest>,
    profile: string,
    machine: string,
    capability: string,
    policy: string,
    measuredAt: Instant,
    content: Content,
    drift: Option<string>)

  function KeyOf(record: Record, source: string): Key {
    Key(source, record.canonicalId, if record.adapter.None? then "" else record.adapter.value,
        record.profile, record.machine, record.capability, record.policy)
  }

  function Subject(record: Record): Identity {
    Identity(record.kind, record.name, record.digest, record.adapter)
  }

  // ------------------------------------------------------------------ staleness

  const SECONDS_PER_DAY := 86400.0
  const PERFORMANCE_ROOTS: set<string> := {"speed", "latency", "memory_efficiency", "energy_efficiency"}

  /** The part of a capability term before its first dot. */
  function Root(capability: string): string {
    if capability == "" || capability[0] == '.' then "" else [capability[0]] + Root(capability[1..])
  }

  function HalfLifeDays(capability: string): nat {
    if Root(capability) in PERFORMANCE_ROOTS then 30 else 90
  }

  lemma {:induction false} RootOfTerm(root: string, rest: string)
    requires '.' !in root
    ensures Root(root) == root && Root(root + "." + rest) == root
  {
    if root == "" {
      assert (root + "." + rest)[0] == '.';
    } else {
      RootOfTerm(root[1..], rest);
      assert (root + "." + rest)[1..] == root[1..] + "." + rest;
    }
  }

  /** A performance root and every specialization of it decay by the shorter half-life, any other term
      by the longer one. */
  lemma HalfLifeByRoot(root: string, rest: string)
    requires '.' !in root
    ensures HalfLifeDays(root) == HalfLifeDays(root + "." + rest) == if root in PERFORMANCE_ROOTS then 30 else 90
  {
    RootOfTerm(root, rest);
  }

  /** The decay `0.5 ** (age / half-life)` is below one half exactly when the age exceeds the half-life. */
  predicate Decayed(measuredAt: Instant, now: Instant, capability: string) {
    now - measuredAt > HalfLifeDays(capability) as real * SECONDS_PER_DAY
  }

  function StaleReason(measuredAt: Instant, now: Instant, capability: string, drift: Option<string>): Option<string> {
    if drift.Some? then Some("environment_drift:" + drift.value)
    else if Decayed(measuredAt, now, capability) then Some("freshness")
    else None
  }

  const SUPERSEDED: Option<string> := Some("superseded")
  const UNREACHABLE: Option<string> := Some("source_unreachable")

  // ------------------------------------------------------------------ one record

  function RowOf(record: Record, b: Binding, now: Instant): Row {
    var reason := StaleReason(record.measuredAt, now, record.capability, record.drift);
    Row(record.kind, record.name, record.digest, b.state, b.modelId, b.adapterId,
        record.measuredAt, record.content, reason.Some?, reason)
  }

  datatype Tally = Tally(imported: nat, updated: nat, bound: nat, unmatched: nat, ambiguous: nat, upgraded: nat,
                         duplicates: nat)

  const NOTHING := Tally(0, 0, 0, 0, 0, 0, 0)

  function Tallied(t: Tally, isUpdate: bool, b: Binding): Tally {
    t.(imported := if isUpdate then t.imported else t.imported + 1,
       updated := if isUpdate then t.updated + 1 else t.updated,
       bound := if b.state == Bound then t.bound + 1 else t.bound,
       unmatched := if b.state == Unmatched then t.unmatched + 1 else t.unmatched,
       ambiguous := if b.state == AmbiguousNameOnly then t.ambiguous + 1 else t.ambiguous,
       upgraded := if b.upgrade.Some? then t.upgraded + 1 else t.upgraded)
  }

  /** An import in progress. */
  datatype Import = Import(models: Models, rows: Rows, seen: set<Key>, tally: Tally)

  /** A record whose subject binds as `b` is stored, replacing the row of its key. */
  function Stored(p: Import, record: Record, key: Key, b: Binding, isUpdate: bool, now: Instant): Import {
    Import(
      AfterUpgrade(p.models, b, record.canonicalId),
      p.rows[key := RowOf(record, b, now)],
      p.seen + {key},
      Tallied(p.tally, isUpdate, b))
  }

  /** The inputs of an import that stay the same from record to record. */
  datatype Context = Context(source: string, existing: set<Key>, adapters: Adapters, now: Instant)

  ghost function ImportOne(p: Import, record: Record, c: Context): Import {
    var key := KeyOf(record, c.source);
    if key in p.seen then
      p.(tally := p.tally.(duplicates := p.tally.duplicates + 1))
    else
      Stored(p, record, key, Bind(Subject(record), p.models, c.adapters), key in c.existing, c.now)
  }

  ghost function ImportAll(models: Models, rows: Rows, records: seq<Record>, c: Context): Import {
    if records == [] then Import(models, rows, {}, NOTHING)
    else ImportOne(ImportAll(models, rows, records[..|records| - 1], c), records[|records| - 1], c)
  }

  function Existing(rows: Rows, source: string): set<Key> {
    set key | key in rows && key.source == source
  }

  // ------------------------------------------------------------------ conservation

  function InState(rows: Rows, keys: set<Key>, state: MatchState): set<Key> {
    set key | key in keys && key in rows && rows[key].state == state
  }

  /** Every seen key was counted once as new or known. */
  predicate KeysBalanced(seen: set<Key>, existing: set<Key>, tally: Tally, count: nat) {
    && tally.imported == |seen - existing|
    && tally.updated == |seen * existing|
    && tally.imported + tally.updated + tally.duplicates == count
  }

  /** And once by the state its row is stored in. */
  predicate StatesBalanced(rows: Rows, seen: set<Key>, tally: Tally) {
    && tally.bound == |InState(rows, seen, Bound)|
    && tally.unmatched == |InState(rows, seen, Unmatched)|
    && tally.ambiguous == |InState(rows, seen, AmbiguousNameOnly)|
  }

  lemma KeysStep(seen: set<Key>, existing: set<Key>, tally: Tally, count: nat, key: Key, b: Binding)
    requires KeysBalanced(seen, existing, tally, count) && key !in seen
    ensures KeysBalanced(seen + {key}, existing, Tallied(tally, key in existing, b), count + 1)
  {
    if key in existing {
      assert (seen + {key}) * existing == seen * existing + {key};
      assert (seen + {key}) - existing == seen - existing;
    } else {
      assert (seen + {key}) - existing == seen - existing + {key};
      assert (seen + {key}) * existing == seen * existing;
    }
  }

  lemma InStateStep(rows: Rows, seen: set<Key>, key: Key, row: Row, state: MatchState)
    requires key !in seen
    ensures |InState(rows[key := row], seen + {key}, state)|
      == |InState(rows, seen, state)| + (if row.state == state then 1 else 0)
  {
    assert InState(rows[key := row], seen + {key}, state)
      == InState(rows, seen, state) + (if row.state == state then {key} else {});
  }

  lemma StatesStep(rows: Rows, seen: set<Key>, tally: Tally, key: Key, row: Row, isUpdate: bool, b: Binding)
    requires StatesBalanced(rows, seen, tally) && key !in seen && row.state == b.state
    ensures StatesBalanced(rows[key := row], seen + {key}, Tallied(tally, isUpdate, b))
  {
    InStateStep(rows, seen, key, row, Bound);
    InStateStep(rows, seen, key, row, Unmatched);
    InStateStep(rows, seen, key, row, AmbiguousNameOnly);
  }

  lemma {:induction false} ImportIsBalanced(models: Models, rows: Rows, records: seq<Record>, c: Context)
    ensures var p := ImportAll(models, rows, records, c);
            KeysBalanced(p.seen, c.existing, p.tally, |records|) && StatesBalanced(p.rows, p.seen, p.tally)
  {
    if records == [] {
      assert InState(rows, {}, Bound) == {} && InState(rows, {}, Unmatched) == {}
        && InState(rows, {}, AmbiguousNameOnly) == {};
      assert {} * c.existing == {} && {} - c.existing == {};
    } else {
      var front, last := records[..|records| - 1], records[|records| - 1];
      ImportIsBalanced(models, rows, front, c);
      var p := ImportAll(models, rows, front, c);
      var key := KeyOf(last, c.source);
      if key !in p.seen {
        var b := Bind(Subject(last), p.models, c.adapters);
        KeysStep(p.seen, c.existing, p.tally, |front|, key, b);
        StatesStep(p.rows, p.seen, p.tally, key, RowOf(last, b, c.now), key in c.existing, b);
      }
    }
  }

  /** The keys seen are the keys of the bundle's records. */
  lemma {:induction false} SeenKeys(models: Models, rows: Rows, records: seq<Record>, c: Context, key: Key)
    ensures key in ImportAll(models, rows, records, c).seen <==> exists record ::
      record in records && KeyOf(record, c.source) == key
  {
    if records != [] {
      var front, last := records[..|records| - 1], records[|records| - 1];
      SeenKeys(models, rows, front, c, key);
      assert forall record :: record in records <==> record in front || record == last;
    }
  }

  /** Only rows of this source are stored, under the seen keys; no other row changes. */
  lemma {:induction false} OnlySeenRowsChange(models: Models, rows: Rows, records: seq<Record>, c: Context)
    ensures var p := ImportAll(models, rows, records, c);
            && p.rows.Keys == rows.Keys + p.seen
            && (forall key | key in p.seen :: key.source == c.source)
            && (forall key | key in rows && key !in p.seen :: p.rows[key] == rows[key])
  {
    if records != [] {
      OnlySeenRowsChange(models, rows, records[..|records| - 1], c);
    }
  }

  lemma ImportStep(models: Models, rows: Rows, records: seq<Record>, c: Context, i: nat)
    requires i < |records|
    ensures ImportAll(models, rows, records[..i + 1], c)
      == ImportOne(ImportAll(models, rows, records[..i], c), records[i], c)
  {
    assert records[..i + 1][..i] == records[..i];
  }

  predicate HoldsRow(p: Import, key: Key, row: Row) {
    key in p.seen && key in p.rows && p.rows[key] == row
  }

  lemma SeenRowStays(p: Import, record: Record, c: Context, key: Key)
    requires key in p.seen && key in p.rows
    ensures HoldsRow(ImportOne(p, record, c), key, p.rows[key])
  {
  }

  lemma NewRowIsStored(p: Import, record: Record, c: Context, key: Key)
    requires key == KeyOf(record, c.source) && key !in p.seen
    ensures HoldsRow(ImportOne(p, record, c), key, RowOf(record, Bind(Subject(record), p.models, c.adapters), c.now))
  {
  }

  /** What a record stores when it is the first of its key after the first `i` records. */
  ghost function StoredBy(models: Models, rows: Rows, records: seq<Record>, c: Context, i: nat): Row
    requires i < |records|
  {
    RowOf(records[i], Bind(Subject(records[i]), ImportAll(models, rows, records[..i], c).models, c.adapters), c.now)
  }

  lemma StoredAtItsTurn(models: Models, rows: Rows, records: seq<Record>, c: Context, i: nat)
    requires i < |records|
    requires forall j | 0 <= j < i :: KeyOf(records[j], c.source) != KeyOf(records[i], c.source)
    ensures HoldsRow(ImportAll(models, rows, records[..i + 1], c), KeyOf(records[i], c.source),
                     StoredBy(models, rows, records, c, i))
  {
    var key := KeyOf(records[i], c.source);
    ImportStep(models, rows, records, c, i);
    SeenKeys(models, rows, records[..i], c, key);
    assert forall record | record in records[..i] :: KeyOf(record, c.source) != key;
    NewRowIsStored(ImportAll(models, rows, records[..i], c), records[i], c, key);
  }

  lemma SeenRowStaysOnce(
    models: Models, rows: Rows, records: seq<Record>, c: Context, n: nat, key: Key, row: Row)
    requires n < |records| && HoldsRow(ImportAll(models, rows, records[..n], c), key, row)
    ensures HoldsRow(ImportAll(models, rows, records[..n + 1], c), key, row)
  {
    ImportStep(models, rows, records, c, n);
    SeenRowStays(ImportAll(models, rows, records[..n], c), records[n], c, key);
  }

  lemma {:induction false} SeenRowsStay(
    models: Models, rows: Rows, records: seq<Record>, c: Context, i: nat, n: nat, key: Key, row: Row)
    requires i <= n <= |records| && HoldsRow(ImportAll(models, rows, records[..i], c), key, row)
    ensures HoldsRow(ImportAll(models, rows, records[..n], c), key, row)
    decreases n
  {
    if i < n {
      SeenRowsStay(models, rows, records, c, i, n - 1, key, row);
      SeenRowStaysOnce(models, rows, records, c, n - 1, key, row);
    }
  }

  /** Of several records with one key the first is stored, bound against the registry as the records
      before it left it; the later ones are rejected and overwrite nothing. */
  lemma FirstRecordIsStored(models: Models, rows: Rows, records: seq<Record>, c: Context, i: nat, n: nat)
    requires i < n <= |records|
    requires forall j | 0 <= j < i :: KeyOf(records[j], c.source) != KeyOf(records[i], c.source)
    ensures HoldsRow(ImportAll(models, rows, records[..n], c), KeyOf(records[i], c.source),
                     StoredBy(models, rows, records, c, i))
  {
    StoredAtItsTurn(models, rows, records, c, i);
    SeenRowsStay(models, rows, records, c, i + 1, n, KeyOf(records[i], c.source),
                 StoredBy(models, rows, records, c, i));
  }

  /** An import keeps the triples unique, and counts its upgrades. */
  lemma {:induction false} ImportKeepsUnique(models: Models, rows: Rows, records: seq<Record>, c: Context)
    requires Unique(models)
    ensures var p := ImportAll(models, rows, records, c);
            Unique(p.models) && Counted(models, p.models, p.tally.upgraded)
  {
    if records != [] {
      var front, last := records[..|records| - 1], records[|records| - 1];
      ImportKeepsUnique(models, rows, front, c);
      var p := ImportAll(models, rows, front, c);
      var b := Bind(Subject(last), p.models, c.adapters);
      if b.upgrade.Some? {
        UpgradeIsPossible(Subject(last), p.models, c.adapters);
        UpgradeKeepsUnique(p.models, b.upgrade.value.id, b.upgrade.value.digest, last.canonicalId);
        CountedStep(models, p.models, p.tally.upgraded, b.upgrade.value.id, b.upgrade.value.digest, last.canonicalId);
      }
    }
  }

  // ------------------------------------------------------------------ the end of the transaction

  /** A reachable source clears the badge that said it was not; the row falls back to its own age. */
  function Refreshed(rows: Rows, source: string, now: Instant): Rows {
    map key | key in rows ::
      if key.source == source && rows[key].staleReason == UNREACHABLE then
        var reason := StaleReason(rows[key].measuredAt, now, key.capability, None);
        rows[key].(stale := reason.Some?, staleReason := reason)
      else
        rows[key]
  }

  function Superseded(rows: Rows, gone: set<Key>): Rows {
    map key | key in rows ::
      if key in gone && rows[key].staleReason != SUPERSEDED then
        rows[key].(stale := true, staleReason := SUPERSEDED)
      else
        rows[key]
  }

  function NotYetSuperseded(rows: Rows, gone: set<Key>): set<Key> {
    set key | key in gone && key in rows && rows[key].staleReason != SUPERSEDED
  }

  ghost function Finished(p: Import, c: Context, complete: bool): Rows {
    var refreshed := Refreshed(p.rows, c.source, c.now);
    if complete then Superseded(refreshed, c.existing - p.seen) else refreshed
  }

  datatype ImportOutcome = ImportOutcome(
    total: nat,
    imported: nat,
    updated: nat,
    unmatched: nat,
    ambiguous: nat,
    bound: nat,
    upgraded: nat,
    superseded: nat,
    rejected: nat)

  ghost function OutcomeOf(p: Import, c: Context, complete: bool, invalid: nat, total: nat): ImportOutcome {
    var refreshed := Refreshed(p.rows, c.source, c.now);
    ImportOutcome(total, p.tally.imported, p.tally.updated, p.tally.unmatched, p.tally.ambiguous, p.tally.bound,
                  p.tally.upgraded, if complete then |NotYetSuperseded(refreshed, c.existing - p.seen)| else 0,
                  invalid + p.tally.duplicates)
  }

  lemma SplitByState(rows: Rows, keys: set<Key>)
    requires keys <= rows.Keys
    ensures |keys| == |InState(rows, keys, Bound)| + |InState(rows, keys, Unmatched)|
      + |InState(rows, keys, AmbiguousNameOnly)|
  {
    var bound, unmatched, ambiguous := InState(rows, keys, Bound), InState(rows, keys, Unmatched),
      InState(rows, keys, AmbiguousNameOnly);
    assert keys == bound + unmatched + ambiguous;
  }

  /** Nothing is lost from the report: every record is imported, updated or rejected, and every stored
      one is bound, unmatched or ambiguous. */
  lemma {:induction false} ImportConserves(models: Models, rows: Rows, records: seq<Record>, c: Context,
                                           complete: bool, invalid: nat)
    ensures var p := ImportAll(models, rows, records, c);
            var outcome := OutcomeOf(p, c, complete, invalid, |records| + invalid);
            && outcome.total == outcome.imported + outcome.updated + outcome.rejected
            && outcome.imported + outcome.updated == |p.seen| == outcome.bound + outcome.unmatched + outcome.ambiguous
  {
    var p := ImportAll(models, rows, records, c);
    ImportIsBalanced(models, rows, records, c);
    OnlySeenRowsChange(models, rows, records, c);
    SplitByState(p.rows, p.seen);
    assert p.seen == (p.seen - c.existing) + (p.seen * c.existing);
  }

  /** The counts are those of the table: the rows that are new, and the seen keys' rows by state. */
  lemma CountsMatchTheTable(models: Models, rows: Rows, records: seq<Record>, c: Context, complete: bool, invalid: nat)
    requires c.existing == Existing(rows, c.source)
    ensures var p := ImportAll(models, rows, records, c);
            var outcome, after := OutcomeOf(p, c, complete, invalid, |records| + invalid), Finished(p, c, complete);
            && after.Keys == rows.Keys + p.seen
            && outcome.imported == |after.Keys - rows.Keys|
            && outcome.bound == |InState(after, p.seen, Bound)|
            && outcome.unmatched == |InState(after, p.seen, Unmatched)|
            && outcome.ambiguous == |InState(after, p.seen, AmbiguousNameOnly)|
  {
    var p := ImportAll(models, rows, records, c);
    ImportIsBalanced(models, rows, records, c);
    OnlySeenRowsChange(models, rows, records, c);
    NewKeys(rows, p, c, complete);
    FinishKeepsStates(p, c, complete, Bound);
    FinishKeepsStates(p, c, complete, Unmatched);
    FinishKeepsStates(p, c, complete, AmbiguousNameOnly);
  }

  lemma NewKeys(rows: Rows, p: Import, c: Context, complete: bool)
    requires c.existing == Existing(rows, c.source) && p.rows.Keys == rows.Keys + p.seen
    requires forall key | key in p.seen :: key.source == c.source
    ensures Finished(p, c, complete).Keys == rows.Keys + p.seen
    ensures Finished(p, c, complete).Keys - rows.Keys == p.seen - c.existing
  {
  }

  lemma FinishKeepsStates(p: Import, c: Context, complete: bool, state: MatchState)
    ensures InState(Finished(p, c, complete), p.seen, state) == InState(p.rows, p.seen, state)
  {
  }

  /** After a complete bundle every row of its source is in the bundle or marked superseded, and the
      ones in the bundle are not; rows of other sources are as they were. An incomplete bundle
      supersedes nothing. Neither deletes a row or touches what a row measured. */
  lemma SupersessionIsExact(models: Models, rows: Rows, records: seq<Record>, c: Context, complete: bool, key: Key)
    requires c.existing == Existing(rows, c.source)
    requires key in Finished(ImportAll(models, rows, records, c), c, complete)
    ensures var p := ImportAll(models, rows, records, c);
            var after := Finished(p, c, complete)[key];
            && (key in rows || key in p.seen)
            && (key.source != c.source ==> key in rows && after == rows[key])
            && (key.source == c.source && complete ==> (key in p.seen <==> after.staleReason != SUPERSEDED))
            && (key !in p.seen ==> after == rows[key].(stale := after.stale, staleReason := after.staleReason))
            && (!complete ==> (after.staleReason == SUPERSEDED
                               <==> key !in p.seen && rows[key].staleReason == SUPERSEDED))
  {
    OnlySeenRowsChange(models, rows, records, c);
    SeenAreNotSuperseded(models, rows, records, c, key);
  }

  lemma {:induction false} SeenAreNotSuperseded(models: Models, rows: Rows, records: seq<Record>, c: Context, key: Key)
    ensures var p := ImportAll(models, rows, records, c);
            key in p.seen ==> key in p.rows && p.rows[key].staleReason != SUPERSEDED
  {
    if records != [] {
      var last := records[|records| - 1];
      SeenAreNotSuperseded(models, rows, records[..|records| - 1], c, key);
      ReasonIsNotSuperseded(last.measuredAt, c.now, last.capability, last.drift);
    }
  }

  lemma ReasonIsNotSuperseded(measuredAt: Instant, now: Instant, capability: string, drift: Option<string>)
    ensures StaleReason(measuredAt, now, capability, drift) != SUPERSEDED
  {
    if drift.Some? {
      assert ("environment_drift:" + drift.value)[0] == 'e';
    }
  }

  // ------------------------------------------------------------------ the transaction

  /** Clears the `source_unreachable` badges of a source, row by row. */
  method ClearBadges(db: EvidenceDatabase, source: string, now: Instant)
    modifies db`rows
    ensures db.rows == Refreshed(old(db.rows), source, now)
  {
    ghost var was, goal := db.rows, Refreshed(db.rows, source, now);
    var pending := set key | key in db.rows && key.source == source && db.rows[key].staleReason == UNREACHABLE;
    MidwayStart(was, goal, pending);
    while pending != {}
      invariant pending <= was.Keys
      invariant forall key | key in pending :: key.source == source && was[key].staleReason == UNREACHABLE
      invariant db.rows == Midway(was, goal, pending)
      decreases |pending|
    {
      var key :| key in pending;
      MidwayStep(was, goal, pending, key);
      var reason := StaleReason(db.rows[key].measuredAt, now, key.capability, None);
      db.rows := db.rows[key := db.rows[key].(stale := reason.Some?, staleReason := reason)];
      pending := pending - {key};
    }
  }

  lemma CountedOnce(rows: Rows, gone: set<Key>, pending: set<Key>, key: Key)
    requires pending <= gone && key in pending && key in rows
    ensures |NotYetSuperseded(rows, gone - (pending - {key}))|
         == |NotYetSuperseded(rows, gone - pending)| + (if rows[key].staleReason != SUPERSEDED then 1 else 0)
  {
    assert NotYetSuperseded(rows, gone - (pending - {key}))
        == NotYetSuperseded(rows, gone - pending) + (if rows[key].staleReason != SUPERSEDED then {key} else {});
  }

  method SupersedeRow(db: EvidenceDatabase, key: Key) returns (marked: bool)
    requires key in db.rows
    modifies db`rows
    ensures marked <==> old(db.rows)[key].staleReason != SUPERSEDED
    ensures db.rows == old(db.rows)[key := if marked then old(db.rows)[key].(stale := true, staleReason := SUPERSEDED)
                                    else old(db.rows)[key]]
  {
    marked := db.rows[key].staleReason != SUPERSEDED;
    if marked {
      db.rows := db.rows[key := db.rows[key].(stale := true, staleReason := SUPERSEDED)];
    }
  }

  /** Marks the rows a complete bundle no longer carries, and counts those that were not marked yet. */
  method Supersede(db: EvidenceDatabase, gone: set<Key>) returns (superseded: nat)
    requires gone <= db.rows.Keys
    modifies db`rows
    ensures db.rows == Superseded(old(db.rows), gone)
    ensures superseded == |NotYetSuperseded(old(db.rows), gone)|
  {
    ghost var was, goal := db.rows, Superseded(db.rows, gone);
    superseded := 0;
    var pending := gone;
    MidwayStart(was, goal, pending);
    assert NotYetSuperseded(was, gone - pending) == {};
    while pending != {}
      invariant pending <= gone
      invariant db.rows == Midway(was, goal, pending)
      invariant superseded == |NotYetSuperseded(was, gone - pending)|
      decreases |pending|
    {
      var key :| key in pending;
      MidwayStep(was, goal, pending, key);
      CountedOnce(was, gone, pending, key);
      var marked := SupersedeRow(db, key);
      if marked {
        superseded := superseded + 1;
      }
      pending := pending - {key};
    }
    assert gone - pending == gone;
  }

  /** Makes the upgrade a binding asks for, and upserts the record's row. */
  method StoreRecord(db: EvidenceDatabase, record: Record, key: Key, b: Binding, now: Instant) returns (made: bool)
    requires b.upgrade.Some? ==> b.upgrade.value.id in db.models && db.models[b.upgrade.value.id].digest.None?
    modifies db`models, db`rows
    ensures db.models == AfterUpgrade(old(db.models), b, record.canonicalId)
    ensures db.rows == old(db.rows)[key := RowOf(record, b, now)]
    ensures made <==> b.upgrade.Some?
  {
    made := db.MakeUpgrade(b, record.canonicalId);
    db.rows := db.rows[key := RowOf(record, b, now)];
  }

  /** The import that began at `was` has come to record `i`, and stands at `p`. */
  ghost predicate Reached(was: Import, records: seq<Record>, c: Context, i: nat, p: Import) {
    i <= |records| && p == ImportAll(was.models, was.rows, records[..i], c)
  }

  lemma ImportBegins(was: Import, records: seq<Record>, c: Context)
    requires was == Import(was.models, was.rows, {}, NOTHING)
    ensures Reached(was, records, c, 0, was)
  {
    assert records[..0] == [];
  }

  lemma ImportEnds(was: Import, records: seq<Record>, c: Context, p: Import)
    requires Reached(was, records, c, |records|, p)
    ensures p == ImportAll(was.models, was.rows, records, c)
  {
    assert records[..|records|] == records;
  }

  /** One record of the bundle, against a listing of the registry as it is now. */
  method ImportRecord(db: EvidenceDatabase, registry: seq<LocalModel>, ghost was: Import, records: seq<Record>, i: nat,
                      c: Context, seen: set<Key>, tally: Tally)
    returns (nowSeen: set<Key>, after: Tally, made: bool)
    requires Unique(db.models) && Listing(db.models, registry) && c.adapters == db.adapters
    requires i < |records| && Reached(was, records, c, i, Import(db.models, db.rows, seen, tally))
    modifies db`models, db`rows
    ensures Unique(db.models)
    ensures !made ==> db.models == old(db.models)
    ensures Reached(was, records, c, i + 1, Import(db.models, db.rows, nowSeen, after))
  {
    ImportStep(was.models, was.rows, records, c, i);
    var record := records[i];
    var key := KeyOf(record, c.source);
    if key in seen {
      nowSeen, after, made := seen, tally.(duplicates := tally.duplicates + 1), false;
      return;
    }
    var b := BindIdentity(Subject(record), registry, db.adapters);
    OrderDoesNotMatter(Subject(record), db.models, registry, db.adapters);
    UpgradeAsked(Subject(record), db.models, db.adapters);
    if b.upgrade.Some? {
      UpgradeIsPossible(Subject(record), db.models, db.adapters);
      UpgradeKeepsUnique(db.models, b.upgrade.value.id, b.upgrade.value.digest, record.canonicalId);
    }
    made := StoreRecord(db, record, key, b, c.now);
    nowSeen, after := seen + {key}, Tallied(tally, key in c.existing, b);
  }

  /** Inserts or refreshes the source row a bundle belongs to. */
  method UpsertSource(db: EvidenceDatabase, o: EvidenceSources.Origin, unused: EvidenceSources.SourceId, now: Instant)
    returns (id: EvidenceSources.SourceId)
    requires EvidenceSources.UniqueKeys(db.sources) && unused !in db.sources
    modifies db`sources
    ensures EvidenceSources.BelongsTo(old(db.sources), o, unused, id)
    ensures db.sources == EvidenceSources.Upserted(old(db.sources), o, id, now)
    ensures EvidenceSources.UniqueKeys(db.sources)
  {
    if known :| known in db.sources && EvidenceSources.HasKey(db.sources, known, o.key) {
      id := known;
    } else if placeholder :|
        placeholder in db.sources && o.url.Some?
          && EvidenceSources.IsPlaceholder(db.sources, placeholder, o.url.value) {
      id := placeholder;
    } else {
      id := unused;
    }
    EvidenceSources.UpsertKeepsUniqueKeys(db.sources, o, unused, id, now);
    var row := if id in db.sources then db.sources[id] else EvidenceSources.NewSource(o, now);
    db.sources := db.sources[id := EvidenceSources.Refreshed(row, o, now)];
  }

  /** Stores the records of a source, then refreshes and supersedes its other rows. */
  method WriteRecords(db: EvidenceDatabase, source: string, records: seq<Record>, invalid: nat, complete: bool,
                      now: Instant)
    returns (outcome: ImportOutcome)
    requires Unique(db.models)
    modifies db`models, db`rows
    ensures Unique(db.models)
    ensures var c := Context(source, Existing(old(db.rows), source), db.adapters, now);
            var p := ImportAll(old(db.models), old(db.rows), records, c);
            && db.models == p.models && db.rows == Finished(p, c, complete)
            && outcome == OutcomeOf(p, c, complete, invalid, |records| + invalid)
  {
    var c := Context(source, Existing(db.rows, source), db.adapters, now);
    var registry := ListModels(db.models);
    var seen, tally := {}, NOTHING;
    ghost var was := Import(db.models, db.rows, seen, tally);
    ImportBegins(was, records, c);
    var i := 0;
    while i < |records|
      invariant 0 <= i <= |records|
      invariant Unique(db.models) && Listing(db.models, registry)
      invariant Reached(was, records, c, i, Import(db.models, db.rows, seen, tally))
    {
      var made;
      seen, tally, made := ImportRecord(db, registry, was, records, i, c, seen, tally);
      if made {
        registry := ListModels(db.models);
      }
      i := i + 1;
    }
    ImportEnds(was, records, c, Import(db.models, db.rows, seen, tally));
    OnlySeenRowsChange(was.models, was.rows, records, c);
    ClearBadges(db, source, now);
    var superseded := 0;
    if complete {
      superseded := Supersede(db, c.existing - seen);
    }
    outcome := ImportOutcome(|records| + invalid, tally.imported, tally.updated, tally.unmatched, tally.ambiguous,
                             tally.bound, tally.upgraded, superseded, invalid + tally.duplicates);
  }

  /** Persists a validated bundle in one unit of work. */
  method Write(db: EvidenceDatabase, o: EvidenceSources.Origin, unused: EvidenceSources.SourceId, records: seq<Record>,
               invalid: nat, complete: bool, now: Instant)
    returns (source: EvidenceSources.SourceId, outcome: ImportOutcome)
    requires Unique(db.models) && EvidenceSources.UniqueKeys(db.sources) && unused !in db.sources
    modifies db`models, db`rows, db`sources
    ensures Unique(db.models) && EvidenceSources.UniqueKeys(db.sources)
    ensures EvidenceSources.BelongsTo(old(db.sources), o, unused, source)
    ensures var after := EvidenceSources.Upserted(old(db.sources), o, source, now);
            db.sources == after[source := after[source].(recordCount := outcome.imported + outcome.updated)]
    ensures var c := Context(source, Existing(old(db.rows), source), db.adapters, now);
            var p := ImportAll(old(db.models), old(db.rows), records, c);
            && db.models == p.models && db.rows == Finished(p, c, complete)
            && outcome == OutcomeOf(p, c, complete, invalid, |records| + invalid)
  {
    source := UpsertSource(db, o, unused, now);
    outcome := WriteRecords(db, source, records, invalid, complete, now);
    CountKeepsUniqueKeys(db.sources, source, outcome.imported + outcome.updated);
    db.sources := db.sources[source := db.sources[source].(recordCount := outcome.imported + outcome.updated)];
  }

  lemma CountKeepsUniqueKeys(sources: EvidenceSources.Sources, id: EvidenceSources.SourceId, count: nat)
    requires EvidenceSources.UniqueKeys(sources) && id in sources
    ensures EvidenceSources.UniqueKeys(sources[id := sources[id].(recordCount := count)])
  {
    var after := sources[id := sources[id].(recordCount := count)];
    forall a, b, key | EvidenceSources.HasKey(after, a, key) && EvidenceSources.HasKey(after, b, key)
      ensures a == b
    {
      assert EvidenceSources.HasKey(sources, a, key) && EvidenceSources.HasKey(sources, b, key);
    }
  }
}
