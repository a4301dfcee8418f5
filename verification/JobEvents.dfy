/** Event streams: the merged, ordered stream of a job's stored and live frames, and its pages. */
module JobEvents {
  import opened Orders

  datatype Frame = Frame(sequence: nat, kind: string, payload: string)

  /** Frames keyed by sequence number. */
  type Keyed = map<nat, Frame>

  predicate Ascending(frames: seq<Frame>) {
    forall i, j | 0 <= i < j < |frames| :: frames[i].sequence < frames[j].sequence
  }

  /** Every frame sits under its own number. */
  ghost predicate WellKeyed(m: Keyed) {
    forall n | n in m :: m[n].sequence == n
  }

  /** Frames by their numbers; of two with one number the later wins. */
  function ByNumber(frames: seq<Frame>): Keyed {
    if frames == [] then map[]
    else ByNumber(frames[..|frames| - 1])[frames[|frames| - 1].sequence := frames[|frames| - 1]]
  }

  function Above(m: Keyed, after: nat): Keyed {
    map n | n in m && n > after :: m[n]
  }

  function UpTo(m: Keyed, last: nat): Keyed {
    map n | n in m && n <= last :: m[n]
  }

  function Take(frames: seq<Frame>, limit: nat): seq<Frame> {
    if limit < |frames| then frames[..limit] else frames
  }

  // ------------------------------------------------------------------ frames in order

  predicate IsLeast(m: Keyed, n: nat) {
    n in m && forall other | other in m :: n <= other
  }

  lemma {:induction false} LeastExists(m: Keyed)
    requires m != map[]
    ensures exists n :: IsLeast(m, n)
    decreases |m|
  {
    var pick :| pick in m;
    var rest := m - {pick};
    if rest == map[] {
      assert forall n | n in m && n != pick :: n in rest;
      assert IsLeast(m, pick);
    } else {
      LeastExists(rest);
      var n :| IsLeast(rest, n);
      assert forall k | k in m :: k == pick || k in rest;
      assert IsLeast(m, if n < pick then n else pick);
    }
  }

  function Least(m: Keyed): (n: nat)
    requires m != map[]
    ensures IsLeast(m, n)
  {
    LeastExists(m);
    var n :| n in m && IsLeast(m, n);
    n
  }

  /** The frames in ascending order of their numbers. */
  function InOrder(m: Keyed): seq<Frame>
    decreases |m|
  {
    if m == map[] then [] else [m[Least(m)]] + InOrder(m - {Least(m)})
  }

  /** `frames` lists exactly the frames of `m`, ascending. */
  ghost predicate Lists(m: Keyed, frames: seq<Frame>) {
    Ascending(frames) && forall f :: f in frames <==> f.sequence in m && m[f.sequence] == f
  }

  lemma {:induction false} InOrderLists(m: Keyed)
    requires WellKeyed(m)
    ensures Lists(m, InOrder(m)) && |InOrder(m)| == |m|
    decreases |m|
  {
    if m != map[] {
      var n := Least(m);
      InOrderLists(m - {n});
      var rest := InOrder(m - {n});
      forall i | 0 <= i < |rest|
        ensures m[n].sequence < rest[i].sequence
      {
        assert rest[i] in rest;
      }
      ListsPrepend(m, n, rest);
    }
  }

  lemma ListsPrepend(m: Keyed, n: nat, rest: seq<Frame>)
    requires WellKeyed(m) && n in m && Lists(m - {n}, rest)
    requires forall i | 0 <= i < |rest| :: m[n].sequence < rest[i].sequence
    ensures Lists(m, [m[n]] + rest)
  {
    forall f
      ensures f in [m[n]] + rest <==> f.sequence in m && m[f.sequence] == f
    {
      assert f in [m[n]] + rest <==> f == m[n] || f in rest;
    }
  }

  predicate Before(f: Frame, g: Frame) {
    f.sequence < g.sequence
  }

  lemma ListedInOrder(m: Keyed, frames: seq<Frame>)
    requires WellKeyed(m) && Lists(m, frames)
    ensures InOrder(m) == frames
  {
    InOrderLists(m);
    OneOrder(InOrder(m), frames, Before);
  }

  /** The order splits at any number. */
  lemma OrderSplits(m: Keyed, at: nat)
    requires WellKeyed(m)
    ensures InOrder(m) == InOrder(UpTo(m, at)) + InOrder(Above(m, at))
  {
    var low, high := InOrder(UpTo(m, at)), InOrder(Above(m, at));
    InOrderLists(UpTo(m, at));
    InOrderLists(Above(m, at));
    ListsJoin(m, at, low, high);
    ListedInOrder(m, low + high);
  }

  lemma ListsJoin(m: Keyed, at: nat, low: seq<Frame>, high: seq<Frame>)
    requires Lists(UpTo(m, at), low) && Lists(Above(m, at), high)
    ensures Lists(m, low + high)
  {
    forall i, j | 0 <= i < |low| && 0 <= j < |high|
      ensures low[i].sequence < high[j].sequence
    {
      assert low[i] in low && high[j] in high;
    }
    forall f
      ensures f in low + high <==> f.sequence in m && m[f.sequence] == f
    {
      assert f in low + high <==> f in low || f in high;
    }
  }

  /** The first frames of an ordered stream are those numbered up to the last of them. */
  lemma TakenUpTo(m: Keyed, limit: nat)
    requires WellKeyed(m) && 0 < limit <= |InOrder(m)|
    ensures InOrder(m)[..limit] == InOrder(UpTo(m, InOrder(m)[limit - 1].sequence))
  {
    var all := InOrder(m);
    var last := all[limit - 1].sequence;
    InOrderLists(m);
    forall f
      ensures f in all[..limit] <==> f.sequence in UpTo(m, last) && UpTo(m, last)[f.sequence] == f
    {
      if f in all && f.sequence <= last {
        var i :| 0 <= i < |all| && all[i] == f;
        assert i < limit;
        assert all[..limit][i] == f;
      }
    }
    ListedInOrder(UpTo(m, last), all[..limit]);
  }

  lemma {:induction false} ByNumberIsWellKeyed(frames: seq<Frame>)
    ensures WellKeyed(ByNumber(frames))
    ensures forall n | n in ByNumber(frames) :: ByNumber(frames)[n] in frames
    ensures forall f | f in frames :: f.sequence in ByNumber(frames)
  {
    if frames != [] {
      var front, last := frames[..|frames| - 1], frames[|frames| - 1];
      ByNumberIsWellKeyed(front);
      assert forall f :: f in frames <==> f in front || f == last;
    }
  }

  lemma {:induction false} DistinctByNumber(frames: seq<Frame>)
    requires Ascending(frames)
    ensures Lists(ByNumber(frames), frames)
  {
    ByNumberIsWellKeyed(frames);
    forall f, g | f in frames && g in frames && f.sequence == g.sequence
      ensures f == g
    {
    }
  }

  lemma ByNumberOfInOrder(m: Keyed)
    requires WellKeyed(m)
    ensures ByNumber(InOrder(m)) == m
  {
    var frames := InOrder(m);
    InOrderLists(m);
    DistinctByNumber(frames);
    ByNumberIsWellKeyed(frames);
    var again := ByNumber(frames);
    forall n
      ensures n in m <==> n in again
      ensures n in m ==> again[n] == m[n]
    {
      assert n in m ==> m[n] in frames;
      assert n in again ==> again[n] in frames;
    }
  }

  // ------------------------------------------------------------------ the merged stream

  /** Everything above `after`, stored and live, in order; a stored frame wins a tie. */
  function Merged(stored: seq<Frame>, live: seq<Frame>, after: nat): Keyed {
    Above(ByNumber(live) + ByNumber(stored), after)
  }

  function Stream(stored: seq<Frame>, live: seq<Frame>, after: nat): seq<Frame> {
    InOrder(Merged(stored, live, after))
  }

  function Page(stored: seq<Frame>, live: seq<Frame>, after: nat, limit: nat): seq<Frame> {
    Take(Stream(stored, live, after), limit)
  }

  lemma MergedIsWellKeyed(stored: seq<Frame>, live: seq<Frame>, after: nat)
    ensures WellKeyed(Merged(stored, live, after))
  {
    ByNumberIsWellKeyed(stored);
    ByNumberIsWellKeyed(live);
  }

  /** The stream ascends, holds only stored and live frames above `after`, and misses no number. */
  lemma StreamIsTheUnion(stored: seq<Frame>, live: seq<Frame>, after: nat)
    requires Ascending(stored) && Ascending(live)
    ensures Ascending(Stream(stored, live, after))
    ensures forall f :: f in Stream(stored, live, after) <==>
      f.sequence > after && (f in stored || (f in live && forall g | g in stored :: g.sequence != f.sequence))
  {
    MergedIsWellKeyed(stored, live, after);
    InOrderLists(Merged(stored, live, after));
    DistinctByNumber(stored);
    DistinctByNumber(live);
    ByNumberIsWellKeyed(stored);
  }

  // ------------------------------------------------------------------ truncating before merging

  lemma TakeOfPrefix(prefix: seq<Frame>, a: seq<Frame>, b: seq<Frame>, limit: nat)
    requires limit <= |prefix|
    ensures Take(prefix + a, limit) == Take(prefix + b, limit)
  {
    assert (prefix + a)[..limit] == (prefix + b)[..limit];
  }

  /** Two streams that agree up to a number, and have `limit` frames there, have the same first page. */
  lemma SamePage(a: Keyed, b: Keyed, at: nat, limit: nat)
    requires WellKeyed(a) && WellKeyed(b)
    requires UpTo(a, at) == UpTo(b, at) && limit <= |UpTo(a, at)|
    ensures Take(InOrder(a), limit) == Take(InOrder(b), limit)
  {
    OrderSplits(a, at);
    OrderSplits(b, at);
    InOrderLists(UpTo(a, at));
    TakeOfPrefix(InOrder(UpTo(a, at)), InOrder(Above(a, at)), InOrder(Above(b, at)), limit);
  }

  lemma {:induction false} MoreKeysMoreFrames(few: Keyed, many: Keyed)
    requires few.Keys <= many.Keys
    ensures |few| <= |many|
    decreases |few|
  {
    if few != map[] {
      var n :| n in few;
      MoreKeysMoreFrames(few - {n}, many - {n});
    }
  }

  lemma CutMerge(live: Keyed, stored: Keyed, at: nat, limit: nat)
    requires WellKeyed(live) && WellKeyed(stored) && limit <= |UpTo(stored, at)|
    ensures Take(InOrder(live + UpTo(stored, at)), limit) == Take(InOrder(live + stored), limit)
  {
    CutAgrees(live, stored, at);
    MoreKeysMoreFrames(UpTo(stored, at), UpTo(live + UpTo(stored, at), at));
    SamePage(live + UpTo(stored, at), live + stored, at, limit);
  }

  lemma CutAgrees(live: Keyed, stored: Keyed, at: nat)
    ensures UpTo(live + UpTo(stored, at), at) == UpTo(live + stored, at)
    ensures UpTo(stored, at).Keys <= UpTo(live + stored, at).Keys
    ensures WellKeyed(live) && WellKeyed(stored) ==> WellKeyed(live + UpTo(stored, at)) && WellKeyed(live + stored)
  {
  }

  /** The table's first `limit` rows, as a map, are the rows up to the last of them. */
  lemma FirstRows(stored: Keyed, limit: nat)
    requires WellKeyed(stored) && 0 < limit < |InOrder(stored)|
    ensures var at := InOrder(stored)[limit - 1].sequence;
            ByNumber(Take(InOrder(stored), limit)) == UpTo(stored, at) && |UpTo(stored, at)| == limit
  {
    var kept := UpTo(stored, InOrder(stored)[limit - 1].sequence);
    TakenUpTo(stored, limit);
    ByNumberOfInOrder(kept);
    InOrderLists(kept);
  }

  /** The first `limit` frames of a merged stream need only the first `limit` of the stored ones. */
  lemma TruncatedMerge(live: Keyed, stored: Keyed, limit: nat)
    requires WellKeyed(live) && WellKeyed(stored)
    ensures Take(InOrder(live + ByNumber(Take(InOrder(stored), limit))), limit) == Take(InOrder(live + stored), limit)
  {
    if limit >= |InOrder(stored)| {
      ByNumberOfInOrder(stored);
    } else if limit > 0 {
      FirstRows(stored, limit);
      CutMerge(live, stored, InOrder(stored)[limit - 1].sequence, limit);
    }
  }

  /** Truncating the table before merging, as a replay does, still gives the page of the whole stream. */
  lemma TruncatedPage(stored: seq<Frame>, live: seq<Frame>, after: nat, limit: nat)
    ensures var rows, buffered := Above(ByNumber(stored), after), Above(ByNumber(live), after);
            var persisted := Take(InOrder(rows), limit);
            && Take(InOrder(buffered + ByNumber(persisted)), limit) == Page(stored, live, after, limit)
            && (buffered == map[] ==> persisted == Page(stored, live, after, limit))
  {
    var rows, buffered := Above(ByNumber(stored), after), Above(ByNumber(live), after);
    ByNumberIsWellKeyed(stored);
    ByNumberIsWellKeyed(live);
    TruncatedMerge(buffered, rows, limit);
    MergedParts(ByNumber(stored), ByNumber(live), after);
  }

  lemma MergedParts(stored: Keyed, live: Keyed, after: nat)
    ensures Above(live, after) + Above(stored, after) == Above(live + stored, after)
    ensures Above(live, after) == map[] ==> Above(stored, after) == Above(live + stored, after)
  {
  }

  // ------------------------------------------------------------------ paging

  /** A page is followed by exactly the stream after its last frame. */
  lemma NextPage(stored: seq<Frame>, live: seq<Frame>, after: nat, limit: nat)
    requires Page(stored, live, after, limit) != []
    ensures var page := Page(stored, live, after, limit);
            Stream(stored, live, after) == page + Stream(stored, live, page[|page| - 1].sequence)
  {
    var m, page := Merged(stored, live, after), Page(stored, live, after, limit);
    var last := page[|page| - 1].sequence;
    MergedIsWellKeyed(stored, live, after);
    PageThenRest(m, |page|);
    LaterPart(stored, live, after, last);
  }

  lemma PageThenRest(m: Keyed, count: nat)
    requires WellKeyed(m) && 0 < count <= |InOrder(m)|
    ensures InOrder(m) == InOrder(m)[..count] + InOrder(Above(m, InOrder(m)[count - 1].sequence))
    ensures InOrder(m)[count - 1].sequence in m
  {
    var last := InOrder(m)[count - 1];
    InOrderLists(m);
    assert last in InOrder(m);
    TakenUpTo(m, count);
    OrderSplits(m, last.sequence);
  }

  lemma LaterPart(stored: seq<Frame>, live: seq<Frame>, after: nat, last: nat)
    requires last in Merged(stored, live, after)
    ensures Above(Merged(stored, live, after), last) == Merged(stored, live, last)
  {
  }

  /** All pages in turn, each continuing after the last frame of the one before. */
  function Pages(stored: seq<Frame>, live: seq<Frame>, after: nat, limit: nat): seq<seq<Frame>>
    requires limit > 0
    decreases |Stream(stored, live, after)|
  {
    var page := Page(stored, live, after, limit);
    if page == [] then []
    else
      NextPage(stored, live, after, limit);
      [page] + Pages(stored, live, page[|page| - 1].sequence, limit)
  }

  function Concat(pages: seq<seq<Frame>>): seq<Frame> {
    if pages == [] then [] else pages[0] + Concat(pages[1..])
  }

  /** Paging ends and reproduces the whole stream, without gap or duplicate, for every page size. */
  lemma {:induction false} PagesReproduceTheStream(stored: seq<Frame>, live: seq<Frame>, after: nat, limit: nat)
    requires limit > 0
    ensures Concat(Pages(stored, live, after, limit)) == Stream(stored, live, after)
    decreases |Stream(stored, live, after)|
  {
    var page := Page(stored, live, after, limit);
    if page != [] {
      NextPage(stored, live, after, limit);
      var rest := Pages(stored, live, page[|page| - 1].sequence, limit);
      PagesReproduceTheStream(stored, live, page[|page| - 1].sequence, limit);
      assert ([page] + rest)[1..] == rest;
    }
  }
}
