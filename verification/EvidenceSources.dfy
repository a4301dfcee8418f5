/** The rows of `evidence_sources`: one per producer, also when its first refreshes failed. */
module EvidenceSources {
  import opened Wrappers

  type Instant = real
  type SourceId = string

  datatype Source = Source(
    key: string,
    kind: string,
    url: Option<string>,
    recordCount: nat,
    lastImportAt: Option<Instant>,
    lastStatus: Option<string>,
    schemaVersion: Option<string>,
    generatedAt: Option<Instant>,
    error: Option<string>,
    createdAt: Instant)

  type Sources = map<SourceId, Source>

  /** What a bundle says of where it comes from. */
  datatype Origin = Origin(key: string, kind: string, url: Option<string>, schemaVersion: string,
                           generatedAt: Option<Instant>)

  predicate HasKey(sources: Sources, id: SourceId, key: string) {
    id in sources && sources[id].key == key
  }

  /** The unique column. */
  ghost predicate UniqueKeys(sources: Sources) {
    forall a, b, key | HasKey(sources, a, key) && HasKey(sources, b, key) :: a == b
  }

  /** The row a failed refresh of `url` left, when nobody knew yet what its producer calls itself. */
  predicate IsPlaceholder(sources: Sources, id: SourceId, url: string) {
    HasKey(sources, id, url) && sources[id].url == Some(url)
  }

  /** The row a bundle belongs to: the one of its key, else the placeholder of its URL, else a new one. */
  ghost predicate BelongsTo(sources: Sources, o: Origin, unused: SourceId, id: SourceId) {
    if exists known :: HasKey(sources, known, o.key) then HasKey(sources, id, o.key)
    else if o.url.Some? && exists known :: IsPlaceholder(sources, known, o.url.value) then
      IsPlaceholder(sources, id, o.url.value)
    else id == unused
  }

  function Refreshed(row: Source, o: Origin, now: Instant): Source {
    row.(key := o.key, kind := o.kind, url := if o.url.Some? then o.url else row.url, lastImportAt := Some(now),
         lastStatus := Some("ok"), schemaVersion := Some(o.schemaVersion), error := None, generatedAt := o.generatedAt)
  }

  function NewSource(o: Origin, now: Instant): Source {
    Source(o.key, o.kind, o.url, 0, None, None, None, None, None, now)
  }

  function Upserted(sources: Sources, o: Origin, id: SourceId, now: Instant): Sources {
    sources[id := Refreshed(if id in sources then sources[id] else NewSource(o, now), o, now)]
  }

  /** There is one such row; afterwards it alone carries the key, and no row is lost. The placeholder that
      failed refreshes left is adopted, not joined by a second row. */
  lemma UpsertKeepsUniqueKeys(sources: Sources, o: Origin, unused: SourceId, id: SourceId, now: Instant)
    requires UniqueKeys(sources) && unused !in sources && BelongsTo(sources, o, unused, id)
    ensures UniqueKeys(Upserted(sources, o, id, now))
    ensures HasKey(Upserted(sources, o, id, now), id, o.key)
    ensures Upserted(sources, o, id, now).Keys == sources.Keys + {id}
    ensures o.url.Some? && !(exists known :: HasKey(sources, known, o.key)) ==>
      forall other | IsPlaceholder(sources, other, o.url.value) :: other == id
    ensures forall other | BelongsTo(sources, o, unused, other) :: other == id
  {
    var after := Upserted(sources, o, id, now);
    forall a, b, key | HasKey(after, a, key) && HasKey(after, b, key)
      ensures a == b
    {
      assert a != id ==> HasKey(sources, a, key);
      assert b != id ==> HasKey(sources, b, key);
    }
    forall other | o.url.Some? && !(exists known :: HasKey(sources, known, o.key))
      && IsPlaceholder(sources, other, o.url.value)
      ensures other == id
    {
      assert HasKey(sources, other, o.url.value) && HasKey(sources, id, o.url.value);
    }
    forall other | BelongsTo(sources, o, unused, other)
      ensures other == id
    {
      if o.url.Some? && IsPlaceholder(sources, other, o.url.value) && IsPlaceholder(sources, id, o.url.value) {
        assert HasKey(sources, other, o.url.value) && HasKey(sources, id, o.url.value);
      }
    }
  }

  /** The row of a bundle is the one with its key; else the one that has the bundle's address for a key and for its
      address; else a new one. */
  lemma OriginRowInWords(sources: Sources, o: Origin, unused: SourceId, id: SourceId)
    requires BelongsTo(sources, o, unused, id)
    ensures (exists other :: other in sources && sources[other].key == o.key) ==>
      id in sources && sources[id].key == o.key
    ensures !(exists other :: other in sources && sources[other].key == o.key) ==>
      if exists other :: other in sources && o.url == Some(sources[other].key) && sources[other].url == o.url
      then id in sources && o.url == Some(sources[id].key) && sources[id].url == o.url
      else id == unused
  {
    if other :| other in sources && sources[other].key == o.key {
      assert HasKey(sources, other, o.key);
    } else if other :| other in sources && o.url == Some(sources[other].key) && sources[other].url == o.url {
      assert IsPlaceholder(sources, other, o.url.value);
    }
  }

  /** A row that an import refreshes keeps its age, its count and, when the bundle names no address, its address;
      its last import succeeded now, under the bundle's key; no other row changes. */
  lemma RefreshedSource(sources: Sources, o: Origin, id: SourceId, now: Instant)
    ensures var after := Upserted(sources, o, id, now);
            && after.Keys == sources.Keys + {id}
            && (forall other | other in sources && other != id :: after[other] == sources[other])
            && after[id].key == o.key && after[id].kind == o.kind && after[id].error == None
            && after[id].lastImportAt == Some(now) && after[id].lastStatus == Some("ok")
            && after[id].schemaVersion == Some(o.schemaVersion) && after[id].generatedAt == o.generatedAt
            && after[id].createdAt == (if id in sources then sources[id].createdAt else now)
            && (o.url.Some? || id !in sources ==> after[id].url == o.url)
            && (o.url.None? && id in sources ==> after[id].url == sources[id].url)
  {
  }
}
