/** Which models stay loaded: least-recently-used eviction before a load, and idle eviction. */
module Residency {
  import opened Orders
  import opened Wrappers

  type Instant = real
  type ModelId = string

  /** Row ids, in the order of their ULIDs. */
  type EpisodeId = nat

  /** One row of `residency`: a stay of one model on one device, still open while `resident`. */
  datatype Episode = Episode(
    model: ModelId,
    device: nat,
    adapterKey: string,
    loadedAt: Instant,
    lastUsedAt: Instant,
    vram: Option<int>,
    resident: bool,
    unloadedAt: Option<Instant>,
    unloadReason: Option<string>)

  type Episodes = map<EpisodeId, Episode>

  function OnDevice(episodes: Episodes, device: nat): set<EpisodeId> {
    set id | id in episodes && episodes[id].resident && episodes[id].device == device
  }

  function Open(episodes: Episodes): set<EpisodeId> {
    set id | id in episodes && episodes[id].resident
  }

  /** What `record_use` relies on: one open episode per model and device. */
  ghost predicate OneOpen(episodes: Episodes) {
    forall a, b | a in Open(episodes) && b in Open(episodes)
                  && episodes[a].model == episodes[b].model && episodes[a].device == episodes[b].device :: a == b
  }

  // ------------------------------------------------------------------ least recent use

  /** `last_used_at ASC, id ASC`. */
  predicate UsedBefore(episodes: Episodes, a: EpisodeId, b: EpisodeId)
    requires a in episodes && b in episodes
  {
    episodes[a].lastUsedAt < episodes[b].lastUsedAt || (episodes[a].lastUsedAt == episodes[b].lastUsedAt && a < b)
  }

  predicate IsOldest(episodes: Episodes, ids: set<EpisodeId>, id: EpisodeId)
    requires ids <= episodes.Keys
  {
    id in ids && forall other | other in ids && other != id :: UsedBefore(episodes, id, other)
  }

  lemma {:induction false} OldestExists(episodes: Episodes, ids: set<EpisodeId>)
    requires ids <= episodes.Keys && ids != {}
    ensures exists id :: IsOldest(episodes, ids, id)
    decreases |ids|
  {
    var pick :| pick in ids;
    var rest := ids - {pick};
    if rest == {} {
      assert forall id | id in ids && id != pick :: id in rest;
      assert IsOldest(episodes, ids, pick);
    } else {
      OldestExists(episodes, rest);
      var id :| IsOldest(episodes, rest, id);
      assert forall other | other in ids :: other == pick || other in rest;
      assert IsOldest(episodes, ids, if UsedBefore(episodes, id, pick) then id else pick);
    }
  }

  function Oldest(episodes: Episodes, ids: set<EpisodeId>): (id: EpisodeId)
    requires ids <= episodes.Keys && ids != {}
    ensures IsOldest(episodes, ids, id)
  {
    OldestExists(episodes, ids);
    var id :| id in ids && IsOldest(episodes, ids, id);
    id
  }

  /** The episodes, oldest use first. */
  function LruOrder(episodes: Episodes, ids: set<EpisodeId>): seq<EpisodeId>
    requires ids <= episodes.Keys
    decreases |ids|
  {
    if ids == {} then [] else [Oldest(episodes, ids)] + LruOrder(episodes, ids - {Oldest(episodes, ids)})
  }

  lemma {:induction false} LruOrderLists(episodes: Episodes, ids: set<EpisodeId>)
    requires ids <= episodes.Keys
    ensures forall id :: id in LruOrder(episodes, ids) <==> id in ids
    ensures |LruOrder(episodes, ids)| == |ids|
    decreases |ids|
  {
    if ids != {} {
      var first := Oldest(episodes, ids);
      var rest := LruOrder(episodes, ids - {first});
      LruOrderLists(episodes, ids - {first});
      assert forall id :: id in [first] + rest <==> id == first || id in rest;
    }
  }

  lemma {:induction false} LruOrderIsByUse(episodes: Episodes, ids: set<EpisodeId>, i: nat, j: nat)
    requires ids <= episodes.Keys && i < j < |LruOrder(episodes, ids)|
    ensures var order := LruOrder(episodes, ids);
            order[i] in ids && order[j] in ids && UsedBefore(episodes, order[i], order[j])
    decreases |ids|
  {
    var first := Oldest(episodes, ids);
    var rest := LruOrder(episodes, ids - {first});
    LruOrderLists(episodes, ids - {first});
    if i > 0 {
      LruOrderIsByUse(episodes, ids - {first}, i - 1, j - 1);
    } else {
      assert rest[j - 1] in rest;
    }
  }

  // ------------------------------------------------------------------ making room

  /** What one load needs of the device. */
  datatype Need = Need(limit: nat, required: Option<int>, headroom: int)

  predicate NoRoom(need: Need, free: Option<int>) {
    need.required.Some? && free.Some? && free.value < need.required.value + need.headroom
  }

  /** Whether another model must go, with `held` on the device and `free` reported. */
  predicate MustEvict(need: Need, held: int, free: Option<int>) {
    held >= need.limit || NoRoom(need, free)
  }

  function Freed(free: Option<int>, vram: Option<int>): Option<int> {
    if free.Some? && vram.Some? then Some(free.value + vram.value) else free
  }

  /** The models that may go: not used by a job in flight, and not refused by the provider. */
  predicate MayGo(episodes: Episodes, id: EpisodeId, inUse: set<ModelId>, refused: set<EpisodeId>)
    requires id in episodes
  {
    episodes[id].model !in inUse && id !in refused
  }

  /** Walks the residents, oldest use first, until both conditions clear. */
  function Evictions(episodes: Episodes, entries: seq<EpisodeId>, inUse: set<ModelId>, refused: set<EpisodeId>,
                     need: Need, held: int, free: Option<int>): seq<EpisodeId>
    requires forall id | id in entries :: id in episodes
  {
    if entries == [] || !MustEvict(need, held, free) then []
    else if !MayGo(episodes, entries[0], inUse, refused) then
      Evictions(episodes, entries[1..], inUse, refused, need, held, free)
    else
      [entries[0]] + Evictions(episodes, entries[1..], inUse, refused, need, held - 1,
                               Freed(free, episodes[entries[0]].vram))
  }

  /** The residents that may go, oldest use first. */
  function Idle(episodes: Episodes, entries: seq<EpisodeId>, inUse: set<ModelId>,
                refused: set<EpisodeId>): seq<EpisodeId>
    requires forall id | id in entries :: id in episodes
  {
    if entries == [] then []
    else (if MayGo(episodes, entries[0], inUse, refused) then [entries[0]] else [])
         + Idle(episodes, entries[1..], inUse, refused)
  }

  /** What is reported free once the first `k` of `idle` have gone. */
  function FreeAfter(episodes: Episodes, idle: seq<EpisodeId>, free: Option<int>, k: nat): Option<int>
    requires k <= |idle| && forall id | id in idle :: id in episodes
  {
    if k == 0 then free else FreeAfter(episodes, idle[1..], Freed(free, episodes[idle[0]].vram), k - 1)
  }

  /** `k` evictions are the fewest, oldest first, that clear both conditions; or all there are. */
  ghost predicate IsLeastClearing(episodes: Episodes, idle: seq<EpisodeId>, need: Need, held: int, free: Option<int>,
                                  k: nat)
    requires forall id | id in idle :: id in episodes
  {
    && k <= |idle|
    && (forall j | 0 <= j < k :: MustEvict(need, held - j, FreeAfter(episodes, idle, free, j)))
    && (k == |idle| || !MustEvict(need, held - k, FreeAfter(episodes, idle, free, k)))
  }

  lemma {:induction false} IdleIsPart(episodes: Episodes, entries: seq<EpisodeId>, inUse: set<ModelId>,
                                      refused: set<EpisodeId>)
    requires forall id | id in entries :: id in episodes
    ensures forall id ::
      id in Idle(episodes, entries, inUse, refused) <==> id in entries && MayGo(episodes, id, inUse, refused)
  {
    if entries != [] {
      IdleIsPart(episodes, entries[1..], inUse, refused);
      assert entries == [entries[0]] + entries[1..];
    }
  }

  /** `gone` is the shortest beginning of `idle` whose eviction clears both conditions, or all of it. */
  ghost predicate IsExact(episodes: Episodes, idle: seq<EpisodeId>, gone: seq<EpisodeId>, need: Need, held: int,
                          free: Option<int>)
    requires forall id | id in idle :: id in episodes
  {
    && |gone| <= |idle| && gone == idle[..|gone|]
    && IsLeastClearing(episodes, idle, need, held, free, |gone|)
  }

  /** Evictions take idle models only, strictly in the order of their use, and stop at the first moment
      both conditions have cleared. */
  lemma {:induction false} EvictionsAreExact(episodes: Episodes, entries: seq<EpisodeId>, inUse: set<ModelId>,
                                             refused: set<EpisodeId>,
                                             need: Need, held: int, free: Option<int>)
    requires forall id | id in entries :: id in episodes
    ensures var idle, gone := Idle(episodes, entries, inUse, refused),
      Evictions(episodes, entries, inUse, refused, need, held, free);
            (forall id | id in idle :: id in episodes) && IsExact(episodes, idle, gone, need, held, free)
    decreases |entries|
  {
    IdleIsPart(episodes, entries, inUse, refused);
    if entries != [] && MustEvict(need, held, free) {
      var rest := Idle(episodes, entries[1..], inUse, refused);
      if MayGo(episodes, entries[0], inUse, refused) {
        var later := Freed(free, episodes[entries[0]].vram);
        EvictionsAreExact(episodes, entries[1..], inUse, refused, need, held - 1, later);
        ExactStep(episodes, entries[0], rest,
                  Evictions(episodes, entries[1..], inUse, refused, need, held - 1, later), need, held, free);
      } else {
        EvictionsAreExact(episodes, entries[1..], inUse, refused, need, held, free);
        assert [] + rest == rest;
      }
    }
  }

  lemma ExactStep(episodes: Episodes, first: EpisodeId, rest: seq<EpisodeId>, gone: seq<EpisodeId>, need: Need,
                  held: int, free: Option<int>)
    requires first in episodes && forall id | id in rest :: id in episodes
    requires MustEvict(need, held, free)
    requires IsExact(episodes, rest, gone, need, held - 1, Freed(free, episodes[first].vram))
    ensures forall id | id in [first] + rest :: id in episodes
    ensures IsExact(episodes, [first] + rest, [first] + gone, need, held, free)
  {
    ClearingStep(episodes, first, rest, need, held, free, |gone|);
    assert ([first] + rest)[..|gone| + 1] == [first] + rest[..|gone|];
  }

  lemma ClearingStep(episodes: Episodes, first: EpisodeId, rest: seq<EpisodeId>, need: Need, held: int,
                     free: Option<int>, k: nat)
    requires first in episodes && forall id | id in rest :: id in episodes
    requires MustEvict(need, held, free)
    requires IsLeastClearing(episodes, rest, need, held - 1, Freed(free, episodes[first].vram), k)
    ensures forall id | id in [first] + rest :: id in episodes
    ensures IsLeastClearing(episodes, [first] + rest, need, held, free, k + 1)
  {
    var idle, later := [first] + rest, Freed(free, episodes[first].vram);
    assert idle[1..] == rest;
    forall j | 0 <= j <= |rest|
      ensures FreeAfter(episodes, idle, free, j + 1) == FreeAfter(episodes, rest, later, j)
    {
    }
    forall j | 0 <= j < k + 1
      ensures MustEvict(need, held - j, FreeAfter(episodes, idle, free, j))
    {
      assert j > 0 ==> FreeAfter(episodes, idle, free, (j - 1) + 1) == FreeAfter(episodes, rest, later, j - 1);
    }
  }

  /** The memory that is known to come free with some episodes. */
  function KnownVram(episodes: Episodes, ids: seq<EpisodeId>): int
    requires forall id | id in ids :: id in episodes
  {
    if ids == [] then 0
    else (match episodes[ids[0]].vram case Some(bytes) => bytes case None => 0) + KnownVram(episodes, ids[1..])
  }

  lemma {:induction false} FreeAfterAddsUp(episodes: Episodes, idle: seq<EpisodeId>, free: Option<int>, k: nat)
    requires k <= |idle| && forall id | id in idle :: id in episodes
    ensures FreeAfter(episodes, idle, free, k)
         == if free.None? then None else Some(free.value + KnownVram(episodes, idle[..k]))
    decreases k
  {
    if k > 0 {
      FreeAfterAddsUp(episodes, idle[1..], Freed(free, episodes[idle[0]].vram), k - 1);
      assert idle[..k][0] == idle[0] && idle[..k][1..] == idle[1..][..k - 1];
    }
  }

  /** After the first `k` of `idle` have gone the device still holds too many models, or is known to have too
      little memory for what is required and the headroom. */
  predicate StillShort(episodes: Episodes, idle: seq<EpisodeId>, need: Need, held: int, free: Option<int>, k: nat)
    requires k <= |idle| && forall id | id in idle :: id in episodes
  {
    || held - k >= need.limit
    || (need.required.Some? && free.Some?
        && free.value + KnownVram(episodes, idle[..k]) < need.required.value + need.headroom)
  }

  /** The models evicted are the first of those neither in use nor refused: just as many as it takes until the
      device is not short any more, or all. */
  lemma EvictionsInWords(episodes: Episodes, entries: seq<EpisodeId>, inUse: set<ModelId>, refused: set<EpisodeId>,
                         need: Need, held: int, free: Option<int>)
    requires forall id | id in entries :: id in episodes
    ensures var idle, gone := Idle(episodes, entries, inUse, refused),
              Evictions(episodes, entries, inUse, refused, need, held, free);
            && (forall id :: id in idle <==> id in entries && episodes[id].model !in inUse && id !in refused)
            && |gone| <= |idle| && gone == idle[..|gone|]
            && (forall k | 0 <= k < |gone| :: StillShort(episodes, idle, need, held, free, k))
            && (gone == idle || !StillShort(episodes, idle, need, held, free, |gone|))
  {
    var idle, gone := Idle(episodes, entries, inUse, refused),
      Evictions(episodes, entries, inUse, refused, need, held, free);
    IdleIsPart(episodes, entries, inUse, refused);
    EvictionsAreExact(episodes, entries, inUse, refused, need, held, free);
    forall k: nat | k <= |idle|
      ensures MustEvict(need, held - k, FreeAfter(episodes, idle, free, k))
        <==> StillShort(episodes, idle, need, held, free, k)
    {
      FreeAfterAddsUp(episodes, idle, free, k);
    }
    assert |gone| == |idle| ==> gone == idle;
  }

  lemma {:induction false} EarlierGoesFirst(episodes: Episodes, entries: seq<EpisodeId>, inUse: set<ModelId>,
                                            refused: set<EpisodeId>,
                                            need: Need, held: int, free: Option<int>, i: nat, j: nat)
    requires forall id | id in entries :: id in episodes
    requires i < j < |entries| && forall k, l | 0 <= k < l < |entries| :: entries[k] != entries[l]
    requires MayGo(episodes, entries[i], inUse, refused)
    requires entries[j] in Evictions(episodes, entries, inUse, refused, need, held, free)
    ensures entries[i] in Evictions(episodes, entries, inUse, refused, need, held, free)
    decreases |entries|
  {
    if i > 0 && MustEvict(need, held, free) {
      if MayGo(episodes, entries[0], inUse, refused) {
        EarlierGoesFirst(episodes, entries[1..], inUse, refused, need, held - 1,
                         Freed(free, episodes[entries[0]].vram), i - 1, j - 1);
      } else {
        EarlierGoesFirst(episodes, entries[1..], inUse, refused, need, held, free, i - 1, j - 1);
      }
    }
  }

  /** A model that may go is never passed over for one used more recently. */
  lemma LeastRecentlyUsedGoesFirst(episodes: Episodes, device: nat, inUse: set<ModelId>, refused: set<EpisodeId>,
                                   need: Need, held: int, free: Option<int>, a: EpisodeId, b: EpisodeId)
    requires a in OnDevice(episodes, device) && b in OnDevice(episodes, device) && UsedBefore(episodes, a, b)
    requires MayGo(episodes, a, inUse, refused)
    ensures var entries := LruOrder(episodes, OnDevice(episodes, device));
            && (forall id | id in entries :: id in episodes)
            && (b in Evictions(episodes, entries, inUse, refused, need, held, free) ==>
                a in Evictions(episodes, entries, inUse, refused, need, held, free))
  {
    var ids := OnDevice(episodes, device);
    var entries := LruOrder(episodes, ids);
    LruOrderLists(episodes, ids);
    DistinctOrder(episodes, ids);
    var i :| 0 <= i < |entries| && entries[i] == a;
    var j :| 0 <= j < |entries| && entries[j] == b;
    if j < i {
      LruOrderIsByUse(episodes, ids, j, i);
    }
    if b in Evictions(episodes, entries, inUse, refused, need, held, free) {
      EarlierGoesFirst(episodes, entries, inUse, refused, need, held, free, i, j);
    }
  }

  function Blocked(episodes: Episodes, entries: seq<EpisodeId>, inUse: set<ModelId>, refused: set<EpisodeId>): nat
    requires forall id | id in entries :: id in episodes
  {
    if entries == [] then 0
    else
      (if MayGo(episodes, entries[0], inUse, refused) then 0 else 1)
      + Blocked(episodes, entries[1..], inUse, refused)
  }

  lemma {:induction false} IdleAndBlocked(episodes: Episodes, entries: seq<EpisodeId>, inUse: set<ModelId>,
                                          refused: set<EpisodeId>)
    requires forall id | id in entries :: id in episodes
    ensures |Idle(episodes, entries, inUse, refused)| + Blocked(episodes, entries, inUse, refused) == |entries|
  {
    if entries != [] {
      IdleAndBlocked(episodes, entries[1..], inUse, refused);
    }
  }

  lemma EnoughGone(episodes: Episodes, entries: seq<EpisodeId>, inUse: set<ModelId>, refused: set<EpisodeId>,
                   need: Need, free: Option<int>)
    requires forall id | id in entries :: id in episodes
    ensures |entries| - |Evictions(episodes, entries, inUse, refused, need, |entries|, free)| + 1
         <= Larger(need.limit, Blocked(episodes, entries, inUse, refused) + 1)
  {
    EvictionsAreExact(episodes, entries, inUse, refused, need, |entries|, free);
    IdleAndBlocked(episodes, entries, inUse, refused);
  }

  // ------------------------------------------------------------------ the service

  /** The episodes after those in `gone` were closed. */
  function Closed(episodes: Episodes, gone: set<EpisodeId>, reason: string, now: Instant): Episodes {
    map id | id in episodes ::
      if id in gone then episodes[id].(resident := false, unloadedAt := Some(now), unloadReason := Some(reason))
      else episodes[id]
  }

  /** The episodes after the model's open one on the device was used. */
  function Touched(episodes: Episodes, model: ModelId, device: nat, adapterKey: string, now: Instant): Episodes {
    map id | id in episodes ::
      if episodes[id].resident && episodes[id].device == device && episodes[id].model == model
      then episodes[id].(lastUsedAt := now, adapterKey := adapterKey)
      else episodes[id]
  }

  /** An adapter switch on a resident base is no load and no unload: the same episodes stay open. */
  lemma TouchingKeepsOneOpen(episodes: Episodes, model: ModelId, device: nat, adapterKey: string, now: Instant)
    requires OneOpen(episodes)
    ensures OneOpen(Touched(episodes, model, device, adapterKey, now))
    ensures Open(Touched(episodes, model, device, adapterKey, now)) == Open(episodes)
  {
  }

  /** A use makes a model the last of its device to be evicted, as long as no clock was ahead. */
  lemma UsedGoesLast(episodes: Episodes, model: ModelId, device: nat, adapterKey: string, now: Instant,
                     id: EpisodeId, other: EpisodeId)
    requires OneOpen(episodes) && id in OnDevice(episodes, device) && episodes[id].model == model
    requires other in OnDevice(episodes, device) && other != id && episodes[other].lastUsedAt < now
    ensures var after := Touched(episodes, model, device, adapterKey, now);
            && other in after && after[other] == episodes[other] && UsedBefore(after, other, id)
            && after[id] == episodes[id].(lastUsedAt := now, adapterKey := adapterKey)
  {
    assert id in Open(episodes) && other in Open(episodes);
  }

  function Members(ids: seq<EpisodeId>): set<EpisodeId> {
    set id | id in ids
  }

  lemma ClosingKeepsOneOpen(episodes: Episodes, gone: set<EpisodeId>, reason: string, now: Instant)
    requires OneOpen(episodes)
    ensures OneOpen(Closed(episodes, gone, reason, now))
    ensures Open(Closed(episodes, gone, reason, now)) == Open(episodes) - gone
  {
  }

  lemma LoadingKeepsOneOpen(episodes: Episodes, id: EpisodeId, episode: Episode)
    requires OneOpen(episodes) && id !in episodes
    requires forall other | other in OnDevice(episodes, episode.device) :: episodes[other].model != episode.model
    ensures OneOpen(episodes[id := episode])
  {
    var after := episodes[id := episode];
    forall a, b | a in Open(after) && b in Open(after) && after[a].model == after[b].model
      && after[a].device == after[b].device
      ensures a == b
    {
      assert a != id ==> a in Open(episodes);
      assert b != id ==> b in Open(episodes);
      assert a != id && after[a].device == episode.device ==> a in OnDevice(episodes, episode.device);
      assert b != id && after[b].device == episode.device ==> b in OnDevice(episodes, episode.device);
    }
  }

  lemma {:induction false} EvictionsArePart(episodes: Episodes, entries: seq<EpisodeId>, inUse: set<ModelId>,
                                            refused: set<EpisodeId>, need: Need, held: int, free: Option<int>)
    requires forall id | id in entries :: id in episodes
    requires forall i, j | 0 <= i < j < |entries| :: entries[i] != entries[j]
    ensures var gone := Evictions(episodes, entries, inUse, refused, need, held, free);
            (forall id | id in gone :: id in entries) && |Members(gone)| == |gone|
    decreases |entries|
  {
    if entries != [] && MustEvict(need, held, free) {
      if MayGo(episodes, entries[0], inUse, refused) {
        var later := Freed(free, episodes[entries[0]].vram);
        var rest := Evictions(episodes, entries[1..], inUse, refused, need, held - 1, later);
        EvictionsArePart(episodes, entries[1..], inUse, refused, need, held - 1, later);
        assert entries[0] !in Members(rest);
        assert Members([entries[0]] + rest) == {entries[0]} + Members(rest);
      } else {
        EvictionsArePart(episodes, entries[1..], inUse, refused, need, held, free);
      }
    }
  }

  /** Closing dates an episode and says why, and changes nothing else of it and no other. */
  lemma ClosedInWords(episodes: Episodes, gone: set<EpisodeId>, reason: string, now: Instant, id: EpisodeId)
    requires id in episodes
    ensures var before, after := episodes[id], Closed(episodes, gone, reason, now)[id];
            && (id !in gone ==> after == before)
            && (id in gone ==>
                  && !after.resident && after.unloadedAt == Some(now) && after.unloadReason == Some(reason)
                  && after == before.(resident := after.resident, unloadedAt := after.unloadedAt,
                                      unloadReason := after.unloadReason))
  {
  }

  lemma OnDeviceAfterLoad(episodes: Episodes, gone: set<EpisodeId>, unused: EpisodeId, episode: Episode,
                          reason: string, now: Instant)
    requires gone <= OnDevice(episodes, episode.device) && unused !in episodes && episode.resident
    ensures |OnDevice(Closed(episodes, gone, reason, now)[unused := episode], episode.device)|
         == |OnDevice(episodes, episode.device)| - |gone| + 1
  {
    var before := OnDevice(episodes, episode.device);
    assert OnDevice(Closed(episodes, gone, reason, now)[unused := episode], episode.device) == before - gone + {unused};
  }

  /** After a load the device holds at most the limit, or else only what could not be evicted and the new
      model. */
  lemma HeldAfterLoad(episodes: Episodes, inUse: set<ModelId>, refused: set<EpisodeId>, need: Need, free: Option<int>,
                      unused: EpisodeId, episode: Episode, reason: string, now: Instant)
    requires unused !in episodes && episode.resident
    ensures var entries := LruOrder(episodes, OnDevice(episodes, episode.device));
            && (forall id | id in entries :: id in episodes)
            && var gone := Evictions(episodes, entries, inUse, refused, need, |entries|, free);
               |OnDevice(Closed(episodes, Members(gone), reason, now)[unused := episode], episode.device)|
               <= Larger(need.limit, Blocked(episodes, entries, inUse, refused) + 1)
  {
    var onDevice := OnDevice(episodes, episode.device);
    var entries := LruOrder(episodes, onDevice);
    LruOrderLists(episodes, onDevice);
    DistinctOrder(episodes, onDevice);
    var gone := Evictions(episodes, entries, inUse, refused, need, |entries|, free);
    EvictionsArePart(episodes, entries, inUse, refused, need, |entries|, free);
    OnDeviceAfterLoad(episodes, Members(gone), unused, episode, reason, now);
    EnoughGone(episodes, entries, inUse, refused, need, free);
  }

  function Larger(a: nat, b: nat): nat {
    if a >= b then a else b
  }

  lemma ClosedInTurn(episodes: Episodes, gone: set<EpisodeId>, id: EpisodeId, reason: string, now: Instant)
    requires id in episodes && id !in gone
    ensures Closed(episodes, gone, reason, now)[id] == episodes[id]
    ensures Closed(episodes, gone + {id}, reason, now)
         == Closed(episodes, gone, reason, now)[
              id := episodes[id].(resident := false, unloadedAt := Some(now), unloadReason := Some(reason))]
  {
  }

  lemma MembersGrow(ids: seq<EpisodeId>, id: EpisodeId)
    ensures Members(ids + [id]) == Members(ids) + {id}
  {
  }

  lemma NextMember(ids: seq<EpisodeId>, i: nat)
    requires i < |ids| && forall j, k | 0 <= j < k < |ids| :: ids[j] != ids[k]
    ensures ids[i] !in Members(ids[..i])
    ensures Members(ids[..i + 1]) == Members(ids[..i]) + {ids[i]}
  {
    assert ids[..i + 1] == ids[..i] + [ids[i]];
  }

  lemma Reassociated(ids: seq<EpisodeId>, id: EpisodeId, rest: seq<EpisodeId>)
    ensures ids + [id] + rest == ids + ([id] + rest)
  {
  }

  datatype LoadOutcome =
    | Unmanaged
    | NoDevice
    | AlreadyResident
    | Loaded(evicted: seq<EpisodeId>)
    | LoadFailed(evicted: seq<EpisodeId>, code: string)

  class ResidencyService {
    const manageable: bool
    const limit: nat
    const idleSeconds: real
    var episodes: Episodes

    constructor (manageable: bool, limit: nat, idleSeconds: real, episodes: Episodes)
      requires limit >= 1 && idleSeconds >= 0.0 && OneOpen(episodes)
      ensures Valid() && this.episodes == episodes
      ensures this.manageable == manageable && this.limit == limit && this.idleSeconds == idleSeconds
    {
      this.manageable, this.limit, this.idleSeconds, this.episodes := manageable, limit, idleSeconds, episodes;
    }

    ghost predicate Valid()
      reads this
    {
      limit >= 1 && idleSeconds >= 0.0 && OneOpen(episodes)
    }

    /** Touches the one open episode of a model on a device, if there is one. */
    method RecordUse(model: ModelId, device: nat, adapterKey: string, now: Instant)
      requires Valid()
      modifies this`episodes
      ensures Valid()
      ensures episodes == Touched(old(episodes), model, device, adapterKey, now)
    {
      ghost var was := episodes;
      if id :| id in OnDevice(episodes, device) && episodes[id].model == model {
        assert forall other | other in OnDevice(was, device) && was[other].model == model ::
          other in Open(was) && other == id;
        episodes := episodes[id := episodes[id].(lastUsedAt := now, adapterKey := adapterKey)];
      }
      assert episodes == Touched(was, model, device, adapterKey, now);
      TouchingKeepsOneOpen(was, model, device, adapterKey, now);
    }

    /** Closes an episode unless the provider refuses to unload it. */
    method Unload(id: EpisodeId, refused: set<EpisodeId>, reason: string, now: Instant) returns (unloaded: bool)
      requires id in episodes
      modifies this`episodes
      ensures unloaded <==> id !in refused
      ensures episodes == if unloaded
                          then old(episodes)[id := old(episodes)[id].(resident := false, unloadedAt := Some(now),
                                                                      unloadReason := Some(reason))]
                          else old(episodes)
    {
      unloaded := id !in refused;
      if unloaded {
        episodes := episodes[
          id := episodes[id].(resident := false, unloadedAt := Some(now), unloadReason := Some(reason))];
      }
    }

    /** Evicts from `entries`, in their order, until the need is met. */
    method MakeRoom(entries: seq<EpisodeId>, inUse: set<ModelId>, refused: set<EpisodeId>, need: Need,
                    reportedFree: Option<int>, reason: string, now: Instant) returns (evicted: seq<EpisodeId>)
      requires forall id | id in entries :: id in episodes
      requires forall i, j | 0 <= i < j < |entries| :: entries[i] != entries[j]
      modifies this`episodes
      ensures evicted == Evictions(old(episodes), entries, inUse, refused, need, |entries|, reportedFree)
      ensures episodes == Closed(old(episodes), Members(evicted), reason, now)
    {
      ghost var was := episodes;
      evicted := [];
      var free := reportedFree;
      var i := 0;
      assert Closed(was, Members([]), reason, now) == was;
      while i < |entries|
        invariant 0 <= i <= |entries|
        invariant forall id | id in evicted :: id in entries[..i]
        invariant episodes == Closed(was, Members(evicted), reason, now)
        invariant Evictions(was, entries, inUse, refused, need, |entries|, reportedFree)
               == evicted + Evictions(was, entries[i..], inUse, refused, need, |entries| - |evicted|, free)
      {
        var id := entries[i];
        assert entries[i..][0] == id && entries[i..][1..] == entries[i + 1..];
        if !MustEvict(need, |entries| - |evicted|, free) {
          assert evicted + [] == evicted;
          return;
        }
        var entry := episodes[id];
        if entry.model !in inUse {
          ClosedInTurn(was, Members(evicted), id, reason, now);
          var unloaded := Unload(id, refused, reason, now);
          if unloaded {
            MembersGrow(evicted, id);
            Reassociated(evicted, id, Evictions(was, entries[i + 1..], inUse, refused, need,
                                                |entries| - |evicted| - 1, Freed(free, entry.vram)));
            evicted := evicted + [id];
            free := Freed(free, entry.vram);
          }
        }
        i := i + 1;
      }
      assert evicted + [] == evicted;
    }

    /** Loads a model that is not resident: makes room, then asks the provider. */
    method Load(model: ModelId, device: nat, inUse: set<ModelId>, need: Need, free: Option<int>, adapterKey: string,
                now: Instant, refused: set<EpisodeId>, failure: Option<string>, vram: Option<int>, unused: EpisodeId,
                reason: string)
      returns (outcome: LoadOutcome)
      requires Valid() && unused !in episodes && need.limit == limit
      requires forall id | id in OnDevice(episodes, device) :: episodes[id].model != model
      modifies this`episodes
      ensures Valid()
      ensures outcome.Loaded? || outcome.LoadFailed?
      ensures var entries := LruOrder(old(episodes), OnDevice(old(episodes), device));
              && (forall id | id in entries :: id in old(episodes))
              && outcome.evicted == Evictions(old(episodes), entries, inUse, refused, need, |entries|, free)
              && var closed := Closed(old(episodes), Members(outcome.evicted), reason, now);
                 if outcome.Loaded?
                 then
                   && episodes == closed[unused := Episode(model, device, adapterKey, now, now, vram, true, None, None)]
                   && |OnDevice(episodes, device)| <= Larger(limit, Blocked(old(episodes), entries, inUse, refused) + 1)
                 else episodes == closed
      ensures outcome.LoadFailed? ==> failure == Some(outcome.code)
      ensures outcome.Loaded? ==> failure == None
    {
      var onDevice := OnDevice(episodes, device);
      var entries := LruOrder(episodes, onDevice);
      LruOrderLists(episodes, onDevice);
      DistinctOrder(episodes, onDevice);
      ghost var was := episodes;
      var evicted := MakeRoom(entries, inUse, refused, need, free, reason, now);
      ClosingKeepsOneOpen(was, Members(evicted), reason, now);
      if failure.Some? {
        return LoadFailed(evicted, failure.value);
      }
      var episode := Episode(model, device, adapterKey, now, now, vram, true, None, None);
      LoadingKeepsOneOpen(episodes, unused, episode);
      HeldAfterLoad(was, inUse, refused, need, free, unused, episode, reason, now);
      episodes := episodes[unused := episode];
      outcome := Loaded(evicted);
    }

    /** Makes a model resident on a device. `refused` are the episodes the provider will not unload,
        `failure` its answer to the load, `vram` what it reports afterwards. */
    method EnsureLoaded(model: ModelId, device: Option<nat>, inUse: set<ModelId>, required: Option<int>,
                        free: Option<int>, headroom: int, adapterKey: string, now: Instant, refused: set<EpisodeId>,
                        failure: Option<string>, vram: Option<int>, unused: EpisodeId, reason: string)
      returns (outcome: LoadOutcome)
      requires Valid() && unused !in episodes
      modifies this`episodes
      ensures Valid()
      ensures outcome.Unmanaged? <==> !manageable
      ensures outcome.NoDevice? <==> manageable && device.None?
      ensures outcome.Unmanaged? || outcome.NoDevice? ==> episodes == old(episodes)
      ensures outcome.AlreadyResident? <==>
        manageable && device.Some? && exists id ::
          id in OnDevice(old(episodes), device.value) && old(episodes)[id].model == model
      ensures outcome.AlreadyResident? ==> episodes == Touched(old(episodes), model, device.value, adapterKey, now)
      ensures outcome.Loaded? || outcome.LoadFailed? ==>
        var entries := LruOrder(old(episodes), OnDevice(old(episodes), device.value));
        && (forall id | id in entries :: id in old(episodes))
        && outcome.evicted == Evictions(old(episodes), entries, inUse, refused, Need(limit, required, headroom),
                                        |entries|, free)
        && var closed := Closed(old(episodes), Members(outcome.evicted), reason, now);
           if outcome.Loaded?
           then episodes == closed[unused := Episode(model, device.value, adapterKey, now, now, vram, true, None, None)]
           else episodes == closed
      ensures outcome.Loaded? ==>
        var entries := LruOrder(old(episodes), OnDevice(old(episodes), device.value));
        && (forall id | id in entries :: id in old(episodes))
        && |OnDevice(episodes, device.value)| <= Larger(limit, Blocked(old(episodes), entries, inUse, refused) + 1)
      ensures outcome.LoadFailed? ==> failure == Some(outcome.code)
      ensures outcome.Loaded? ==> failure == None
    {
      if !manageable {
        return Unmanaged;
      }
      if device.None? {
        return NoDevice;
      }
      if exists id :: id in OnDevice(episodes, device.value) && episodes[id].model == model {
        RecordUse(model, device.value, adapterKey, now);
        return AlreadyResident;
      }
      outcome := Load(model, device.value, inUse, Need(limit, required, headroom), free, adapterKey, now, refused,
                      failure, vram, unused, reason);
    }

    /** One step of the idle eviction, with `gone` closed so far. */
    method EvictIfIdle(id: EpisodeId, inUse: set<ModelId>, refused: set<EpisodeId>, now: Instant,
                       ghost was: Episodes, ghost gone: set<EpisodeId>) returns (done: bool)
      requires id in was && id !in gone && episodes == Closed(was, gone, "idle", now)
      modifies this`episodes
      ensures done <==> IdleFor(was[id], idleSeconds, inUse, now) && id !in refused
      ensures episodes == Closed(was, if done then gone + {id} else gone, "idle", now)
    {
      ClosedInTurn(was, gone, id, "idle", now);
      done := false;
      if IdleFor(episodes[id], idleSeconds, inUse, now) {
        done := Unload(id, refused, "idle", now);
      }
    }

    /** Unloads every model idle for long enough, on every device; only those, and none in use. */
    method EvictIdle(inUse: set<ModelId>, refused: set<EpisodeId>, now: Instant) returns (unloaded: seq<EpisodeId>)
      requires Valid()
      modifies this`episodes
      ensures Valid()
      ensures Members(unloaded) ==
        if manageable then IdleIn(old(episodes), Open(old(episodes)), idleSeconds, inUse, refused, now) else {}
      ensures episodes == Closed(old(episodes), Members(unloaded), "idle", now)
      ensures forall id :: id in unloaded <==>
        && manageable && id in old(episodes) && old(episodes)[id].resident && id !in refused
        && old(episodes)[id].model !in inUse && now >= old(episodes)[id].lastUsedAt + idleSeconds
    {
      unloaded := [];
      ghost var was := episodes;
      assert Closed(was, Members([]), "idle", now) == was;
      if !manageable {
        return;
      }
      var entries := LruOrder(episodes, Open(episodes));
      LruOrderLists(episodes, Open(episodes));
      DistinctOrder(episodes, Open(episodes));
      var i := 0;
      while i < |entries|
        invariant 0 <= i <= |entries|
        invariant Members(unloaded) == IdleIn(was, Members(entries[..i]), idleSeconds, inUse, refused, now)
        invariant episodes == Closed(was, Members(unloaded), "idle", now)
      {
        var id := entries[i];
        NextMember(entries, i);
        IdleInGrows(was, Members(entries[..i]), id, idleSeconds, inUse, refused, now);
        var done := EvictIfIdle(id, inUse, refused, now, was, Members(unloaded));
        if done {
          MembersGrow(unloaded, id);
          unloaded := unloaded + [id];
        }
        i := i + 1;
      }
      assert entries[..i] == entries;
      assert Members(entries) == Open(was);
      ClosingKeepsOneOpen(was, Members(unloaded), "idle", now);
      assert forall id :: id in unloaded <==> id in Members(unloaded);
    }
  }

  predicate IdleFor(episode: Episode, idleSeconds: real, inUse: set<ModelId>, now: Instant) {
    episode.model !in inUse && now - episode.lastUsedAt >= idleSeconds
  }

  /** Of some episodes, those idle for long enough that the provider will unload. */
  function IdleIn(episodes: Episodes, ids: set<EpisodeId>, idleSeconds: real, inUse: set<ModelId>,
                  refused: set<EpisodeId>, now: Instant): set<EpisodeId> {
    set id | id in ids && id in episodes && IdleFor(episodes[id], idleSeconds, inUse, now) && id !in refused
  }

  lemma IdleInGrows(episodes: Episodes, ids: set<EpisodeId>, id: EpisodeId, idleSeconds: real, inUse: set<ModelId>,
                    refused: set<EpisodeId>, now: Instant)
    requires id in episodes
    ensures IdleIn(episodes, ids + {id}, idleSeconds, inUse, refused, now)
         == IdleIn(episodes, ids, idleSeconds, inUse, refused, now)
            + (if IdleFor(episodes[id], idleSeconds, inUse, now) && id !in refused then {id} else {})
  {
  }

  lemma DistinctOrder(episodes: Episodes, ids: set<EpisodeId>)
    requires ids <= episodes.Keys
    ensures var order := LruOrder(episodes, ids); forall i, j | 0 <= i < j < |order| :: order[i] != order[j]
  {
    var order := LruOrder(episodes, ids);
    forall i, j | 0 <= i < j < |order|
      ensures order[i] != order[j]
    {
      LruOrderIsByUse(episodes, ids, i, j);
    }
  }
}
