/** The event sink of one process: one counter per job shared by stored and live frames, transactional
    appends to a table that other processes append to as well, a bounded live buffer, and the replay that
    merges the two. */
module EventSink {
  import opened JobEvents
  import opened Orders

  type JobId = string

  type Frames = map<JobId, seq<Frame>>

  type Counters = map<JobId, nat>

  const LIVE_BUFFER_SIZE: nat := 4096

  const TERMINAL_STREAM_EVENTS: set<string> := {"job.completed", "job.failed", "job.cancelled", "result", "error"}

  function FramesOf(frames: Frames, id: JobId): seq<Frame> {
    if id in frames then frames[id] else []
  }

  function HighOf(high: Counters, id: JobId): nat {
    if id in high then high[id] else 0
  }

  /** `max(sequence)`, or 0 for a job with no rows. */
  function Highest(frames: seq<Frame>): nat {
    if frames == [] then 0
    else
      var rest := Highest(frames[1..]);
      if frames[0].sequence > rest then frames[0].sequence else rest
  }

  lemma {:induction false} HighestBounds(frames: seq<Frame>)
    ensures AllBelow(frames, Highest(frames) + 1)
    ensures frames != [] ==> !AllBelow(frames, Highest(frames))
  {
    if frames != [] {
      HighestBounds(frames[1..]);
      assert forall f :: f in frames <==> f == frames[0] || f in frames[1..];
    }
  }

  lemma {:induction false} HighestAppend(frames: seq<Frame>, frame: Frame)
    ensures Highest(frames + [frame]) == Larger(Highest(frames), frame.sequence)
  {
    if frames == [] {
      assert [frame][1..] == [];
    } else {
      assert (frames + [frame])[1..] == frames[1..] + [frame];
      HighestAppend(frames[1..], frame);
    }
  }

  function Larger(a: nat, b: nat): nat {
    if a >= b then a else b
  }

  /** The last number a sink knows of: stored by anybody, or handed out by itself. */
  function Floor(stored: Frames, high: Counters, id: JobId): nat {
    Larger(Highest(FramesOf(stored, id)), HighOf(high, id))
  }

  /** Some frame carries the number. */
  predicate Taken(frames: seq<Frame>, n: nat) {
    exists f :: f in frames && f.sequence == n
  }

  lemma CaughtUp(frames: seq<Frame>, high: nat)
    ensures AllBelow(frames, high + 1) <==> Highest(frames) <= high
  {
    HighestBounds(frames);
  }

  /** The newest frames a bounded buffer keeps. */
  function Newest(frames: seq<Frame>): seq<Frame> {
    if |frames| > LIVE_BUFFER_SIZE then frames[|frames| - LIVE_BUFFER_SIZE..] else frames
  }

  predicate AllBelow(frames: seq<Frame>, sequence: nat) {
    forall f | f in frames :: f.sequence < sequence
  }

  /** A job's live frames ascend and are below its counter. */
  predicate Buffers(live: Frames, high: Counters, id: JobId) {
    Ascending(FramesOf(live, id)) && AllBelow(FramesOf(live, id), HighOf(high, id) + 1)
  }

  ghost predicate AllBuffered(live: Frames, high: Counters) {
    forall id :: Buffers(live, high, id)
  }

  predicate RowsAscend(stored: Frames) {
    forall id | id in stored :: Ascending(stored[id])
  }

  /** No number is carried by both a stored and a live frame. */
  predicate Apart(stored: seq<Frame>, live: seq<Frame>) {
    forall f, g | f in stored && g in live :: f.sequence != g.sequence
  }

  /** The counter is at least every number the job's frames carry, and no number is carried twice. */
  ghost predicate Safe(stored: seq<Frame>, live: seq<Frame>, high: nat) {
    AllBelow(stored, high + 1) && AllBelow(live, high + 1) && Apart(stored, live)
  }

  lemma AppendAscends(frames: seq<Frame>, frame: Frame)
    requires Ascending(frames) && AllBelow(frames, frame.sequence)
    ensures Ascending(frames + [frame]) && AllBelow(frames + [frame], frame.sequence + 1)
  {
  }

  lemma NewestInWords(buffer: seq<Frame>, frame: Frame)
    ensures Newest(buffer + [frame]) == (if |buffer| < 4096 then buffer else buffer[|buffer| - 4095..]) + [frame]
  {
  }

  lemma NewestAscends(frames: seq<Frame>)
    requires Ascending(frames)
    ensures Ascending(Newest(frames))
    ensures forall f | f in Newest(frames) :: f in frames
    ensures frames != [] ==> frames[|frames| - 1] in Newest(frames)
  {
    assert frames != [] ==> Newest(frames)[|Newest(frames)| - 1] == frames[|frames| - 1];
  }

  lemma LiveStaysBuffered(live: seq<Frame>, frame: Frame)
    requires Ascending(live) && AllBelow(live, frame.sequence)
    ensures Ascending(Newest(live + [frame])) && AllBelow(Newest(live + [frame]), frame.sequence + 1)
  {
    AppendAscends(live, frame);
    NewestAscends(live + [frame]);
  }

  lemma StaysBuffered(live: Frames, high: Counters, id: JobId, frame: Frame)
    requires AllBuffered(live, high) && frame.sequence > HighOf(high, id)
    ensures AllBuffered(live[id := Newest(FramesOf(live, id) + [frame])], high[id := frame.sequence])
    ensures AllBuffered(live, high[id := frame.sequence])
    ensures AllBelow(FramesOf(live, id), frame.sequence)
  {
    var longer, later := live[id := Newest(FramesOf(live, id) + [frame])], high[id := frame.sequence];
    assert Buffers(live, high, id);
    LiveStaysBuffered(FramesOf(live, id), frame);
    forall other
      ensures Buffers(longer, later, other) && Buffers(live, later, other)
    {
      assert Buffers(live, high, other);
    }
  }

  lemma ForgottenStaysBuffered(live: Frames, high: Counters, id: JobId)
    requires AllBuffered(live, high)
    ensures AllBuffered(live - {id}, high - {id})
  {
    forall other
      ensures Buffers(live - {id}, high - {id}, other)
    {
      assert Buffers(live, high, other);
    }
  }

  lemma LiveStaysSafe(stored: seq<Frame>, live: seq<Frame>, high: nat, frame: Frame)
    requires Safe(stored, live, high) && frame.sequence == high + 1
    ensures Safe(stored, Newest(live + [frame]), high + 1)
  {
    assert forall f | f in Newest(live + [frame]) :: f in live || f == frame;
  }

  lemma RowStaysSafe(stored: seq<Frame>, live: seq<Frame>, high: nat, frame: Frame)
    requires Safe(stored, live, high) && frame.sequence > high
    ensures Safe(stored + [frame], live, frame.sequence)
  {
  }

  /** In a safe job the merge hides nothing: the stream is every stored and every live frame. */
  lemma NothingIsHidden(stored: seq<Frame>, live: seq<Frame>, high: nat, after: nat)
    requires Ascending(stored) && Ascending(live) && Safe(stored, live, high)
    ensures forall f :: f in Stream(stored, live, after) <==> f.sequence > after && (f in stored || f in live)
  {
    StreamIsTheUnion(stored, live, after);
  }

  /** Of a frame that is live only: it is hidden if and only if a stored frame carries its number. */
  lemma HiddenWhenTaken(stored: seq<Frame>, live: seq<Frame>, after: nat, frame: Frame)
    requires Ascending(stored) && Ascending(live)
    requires frame in live && frame !in stored && frame.sequence > after
    ensures frame !in Stream(stored, live, after) <==> Taken(stored, frame.sequence)
  {
    StreamIsTheUnion(stored, live, after);
  }

  // ------------------------------------------------------------------ gap-free numbers

  /** Every number handed out for the job is carried by exactly one of its frames. */
  ghost predicate GapFree(stored: seq<Frame>, live: seq<Frame>, high: nat) {
    Safe(stored, live, high) && forall n | 1 <= n <= high :: Taken(stored, n) || Taken(live, n)
  }

  lemma TakenAppend(frames: seq<Frame>, frame: Frame, n: nat)
    ensures Taken(frames + [frame], n) <==> Taken(frames, n) || frame.sequence == n
  {
    assert frame in frames + [frame];
    assert forall f :: f in frames + [frame] <==> f in frames || f == frame;
  }

  lemma LiveStaysGapFree(stored: seq<Frame>, live: seq<Frame>, high: nat, frame: Frame)
    requires GapFree(stored, live, high) && frame.sequence == high + 1 && |live| < LIVE_BUFFER_SIZE
    ensures GapFree(stored, Newest(live + [frame]), high + 1)
  {
    LiveStaysSafe(stored, live, high, frame);
    forall n | 1 <= n <= high + 1
      ensures Taken(stored, n) || Taken(live + [frame], n)
    {
      TakenAppend(live, frame, n);
    }
  }

  lemma RowStaysGapFree(stored: seq<Frame>, live: seq<Frame>, high: nat, frame: Frame)
    requires GapFree(stored, live, high) && frame.sequence == high + 1
    ensures GapFree(stored + [frame], live, high + 1)
  {
    RowStaysSafe(stored, live, high, frame);
    forall n | 1 <= n <= high + 1
      ensures Taken(stored + [frame], n) || Taken(live, n)
    {
      TakenAppend(stored, frame, n);
    }
  }

  /** A counter that has gone on without frames leaves a gap. */
  lemma CountingLeavesAGap(stored: seq<Frame>, live: seq<Frame>, high: nat, asked: nat)
    requires GapFree(stored, live, high)
    ensures GapFree(stored, live, high + asked) <==> asked == 0
  {
    if asked > 0 {
      assert !Taken(stored, high + asked) && !Taken(live, high + asked);
    }
  }

  /** The stream of a gap-free job has exactly the numbers after the position, up to the counter. */
  lemma GapFreeStream(stored: seq<Frame>, live: seq<Frame>, high: nat, after: nat, n: nat)
    requires Ascending(stored) && Ascending(live) && GapFree(stored, live, high)
    ensures Taken(Stream(stored, live, after), n) <==> after < n <= high
  {
    NothingIsHidden(stored, live, high, after);
    if after < n <= high {
      assert Taken(stored, n) || Taken(live, n);
      if Taken(stored, n) {
        var f :| f in stored && f.sequence == n;
        assert f in Stream(stored, live, after);
      } else {
        var f :| f in live && f.sequence == n;
        assert f in Stream(stored, live, after);
      }
    }
  }

  // ------------------------------------------------------------------ rows of this process and of others

  /** A row with the table's highest number takes that number's place in the stream, and nothing else
      changes. */
  lemma RowTakesItsPlace(stored: seq<Frame>, live: seq<Frame>, after: nat, row: Frame)
    requires Ascending(stored) && Ascending(live) && AllBelow(stored, row.sequence)
    ensures forall f :: f in Stream(stored + [row], live, after) <==>
      (f in Stream(stored, live, after) && f.sequence != row.sequence) || (f == row && row.sequence > after)
  {
    AppendAscends(stored, row);
    StreamIsTheUnion(stored, live, after);
    StreamIsTheUnion(stored + [row], live, after);
    assert row in stored + [row];
    assert forall f :: f in stored + [row] <==> f in stored || f == row;
  }

  /** The stream loses the frame at that place, if it is not the row itself, and at most that one. */
  lemma RowHides(stored: seq<Frame>, live: seq<Frame>, after: nat, row: Frame)
    requires Ascending(stored) && Ascending(live) && AllBelow(stored, row.sequence) && row !in live
    ensures Hides(stored, live, after, row) <==> row.sequence > after && Taken(live, row.sequence)
    ensures forall f, g | HidesFrame(stored, live, after, row, f) && HidesFrame(stored, live, after, row, g) :: f == g
  {
    RowTakesItsPlace(stored, live, after, row);
    StreamIsTheUnion(stored, live, after);
    if row.sequence > after && Taken(live, row.sequence) {
      var f :| f in live && f.sequence == row.sequence;
      assert HidesFrame(stored, live, after, row, f);
    }
  }

  /** The frame was in the stream and no longer is when the row has been added to the table. */
  ghost predicate HidesFrame(stored: seq<Frame>, live: seq<Frame>, after: nat, row: Frame, f: Frame) {
    f in Stream(stored, live, after) && f !in Stream(stored + [row], live, after)
  }

  ghost predicate Hides(stored: seq<Frame>, live: seq<Frame>, after: nat, row: Frame) {
    exists f :: HidesFrame(stored, live, after, row, f)
  }

  /** A row this process appends is above every live frame too and hides nothing. */
  lemma OwnRowHidesNothing(stored: seq<Frame>, live: seq<Frame>, high: nat, after: nat, row: Frame)
    requires Ascending(stored) && Ascending(live) && AllBelow(live, high + 1)
    requires row.sequence == Larger(Highest(stored), high) + 1
    ensures !Hides(stored, live, after, row)
    ensures after < row.sequence ==> row in Stream(stored + [row], live, after)
  {
    HighestBounds(stored);
    RowHides(stored, live, after, row);
    RowTakesItsPlace(stored, live, after, row);
  }

  /** A row another process appends knows the table alone. It hides a frame from a client at `after` if and
      only if the number after the table's last was streamed live and is still ahead of the client; it
      hides one frame at most; and a client past that number never gets the row. */
  lemma ForeignRowHidesOne(stored: seq<Frame>, live: seq<Frame>, after: nat, row: Frame)
    requires Ascending(stored) && Ascending(live)
    requires row.sequence == Highest(stored) + 1 && row !in live
    ensures Hides(stored, live, after, row) <==> after <= Highest(stored) && Taken(live, Highest(stored) + 1)
    ensures forall f, g | HidesFrame(stored, live, after, row, f) && HidesFrame(stored, live, after, row, g) :: f == g
    ensures row in Stream(stored + [row], live, after) <==> after <= Highest(stored)
  {
    HighestBounds(stored);
    RowHides(stored, live, after, row);
    RowTakesItsPlace(stored, live, after, row);
    StreamIsTheUnion(stored, live, after);
  }

  /** In a gap-free job that is: if and only if something was streamed since the last stored event, and
      the client has not got past that event. */
  lemma ForeignRowHidesExactlyWhenStreaming(stored: seq<Frame>, live: seq<Frame>, high: nat, after: nat, row: Frame)
    requires Ascending(stored) && Ascending(live) && GapFree(stored, live, high)
    requires row.sequence == Highest(stored) + 1 && row !in live
    ensures Hides(stored, live, after, row) <==> after <= Highest(stored) < high
  {
    ForeignRowHidesOne(stored, live, after, row);
    HighestBounds(stored);
    var next := Highest(stored) + 1;
    assert !Taken(stored, next);
    if Taken(live, next) {
      var f :| f in live && f.sequence == next;
    }
  }

  // ------------------------------------------------------------------ what one write stages

  datatype Append = Append(id: JobId, kind: string, payload: string)

  /** A staged event: the job it is for and the frame that was added to the transaction. */
  datatype Staged = Staged(id: JobId, frame: Frame)

  function StagedFor(staged: seq<Staged>, id: JobId): seq<Frame> {
    if staged == [] then []
    else
      var last := staged[|staged| - 1];
      StagedFor(staged[..|staged| - 1], id) + (if last.id == id then [last.frame] else [])
  }

  lemma StagedForStep(staged: seq<Staged>, one: Staged, id: JobId)
    ensures StagedFor(staged + [one], id) == StagedFor(staged, id) + (if one.id == id then [one.frame] else [])
  {
    assert (staged + [one])[..|staged|] == staged;
  }

  /** The table and the counters. */
  datatype Numbering = Numbering(rows: Frames, high: Counters) {
    /** The numbering after one staged row. */
    function With(one: Staged): Numbering {
      Numbering(rows[one.id := FramesOf(rows, one.id) + [one.frame]], high[one.id := one.frame.sequence])
    }
  }

  predicate MatchesAt(append: Append, staged: Staged) {
    staged.id == append.id && staged.frame.kind == append.kind && staged.frame.payload == append.payload
  }

  /** Event by event, what was asked for. */
  predicate Matches(appends: seq<Append>, staged: seq<Staged>)
    requires |staged| <= |appends|
  {
    forall k | 0 <= k < |staged| :: MatchesAt(appends[k], staged[k])
  }

  /** A counter after a write that asked for `asked` numbers. */
  function Counted(floor: nat, high: nat, asked: nat): nat {
    if asked == 0 then high else floor + asked
  }

  /** How many of a write's events are for the job. */
  function AskedFor(appends: seq<Append>, id: JobId): nat {
    if appends == [] then 0
    else AskedFor(appends[..|appends| - 1], id) + (if appends[|appends| - 1].id == id then 1 else 0)
  }

  lemma {:induction false} StagedAsAsked(appends: seq<Append>, staged: seq<Staged>, id: JobId)
    requires |staged| == |appends| && Matches(appends, staged)
    ensures |StagedFor(staged, id)| == AskedFor(appends, id)
  {
    if staged != [] {
      var last := |staged| - 1;
      assert Matches(appends[..last], staged[..last]);
      StagedAsAsked(appends[..last], staged[..last], id);
      assert MatchesAt(appends[last], staged[last]);
    }
  }

  /** Numbers `floor + 1`, `floor + 2`, and so on. */
  predicate Consecutive(frames: seq<Frame>, floor: nat) {
    forall k | 0 <= k < |frames| :: frames[k].sequence == floor + 1 + k
  }

  lemma ConsecutiveAppend(frames: seq<Frame>, floor: nat, frame: Frame)
    requires Consecutive(frames, floor) && frame.sequence == floor + |frames| + 1
    ensures Consecutive(frames + [frame], floor)
  {
  }

  ghost predicate SafeAt(stored: Frames, live: Frames, high: Counters, id: JobId) {
    Safe(FramesOf(stored, id), FramesOf(live, id), HighOf(high, id))
  }

  ghost predicate GapFreeAt(stored: Frames, live: Frames, high: Counters, id: JobId) {
    GapFree(FramesOf(stored, id), FramesOf(live, id), HighOf(high, id))
  }

  lemma FloorOfSafe(stored: Frames, live: Frames, high: Counters, id: JobId)
    requires SafeAt(stored, live, high, id)
    ensures Floor(stored, high, id) == HighOf(high, id)
  {
    CaughtUp(FramesOf(stored, id), HighOf(high, id));
  }

  /** Where a job's numbering has come to: its rows are extended by the staged frames under the numbers that
      follow its floor, and what was safe or gap-free still is. */
  ghost predicate ReachedAt(before: Numbering, live: Frames, after: Numbering, staged: seq<Staged>, id: JobId) {
    && CountsOnAt(before, after, staged, id)
    && (SafeAt(before.rows, live, before.high, id) ==> SafeAt(after.rows, live, after.high, id))
    && (GapFreeAt(before.rows, live, before.high, id) ==> GapFreeAt(after.rows, live, after.high, id))
  }

  ghost predicate CountsOnAt(before: Numbering, after: Numbering, staged: seq<Staged>, id: JobId) {
    CountsOnFrom(FramesOf(before.rows, id), HighOf(before.high, id), FramesOf(after.rows, id),
                 HighOf(after.high, id), StagedFor(staged, id))
  }

  ghost predicate Reached(before: Numbering, live: Frames, after: Numbering, staged: seq<Staged>) {
    forall id :: ReachedAt(before, live, after, staged, id)
  }

  /** `CountsOnAt` of the job's own rows, staged frames and counters. */
  ghost predicate CountsOnFrom(before: seq<Frame>, from: nat, rows: seq<Frame>, high: nat, frames: seq<Frame>) {
    && rows == before + frames
    && Consecutive(frames, Larger(Highest(before), from))
    && Larger(Highest(rows), high) == Larger(Highest(before), from) + |frames|
    && high == Counted(Larger(Highest(before), from), from, |frames|)
  }

  lemma CountsOnRow(
    before: seq<Frame>, from: nat, rows: seq<Frame>, high: nat, frames: seq<Frame>, frame: Frame)
    requires CountsOnFrom(before, from, rows, high, frames)
    requires frame.sequence == Larger(Highest(rows), high) + 1
    ensures CountsOnFrom(before, from, rows + [frame], frame.sequence, frames + [frame])
  {
    HighestAppend(rows, frame);
    ConsecutiveAppend(frames, Larger(Highest(before), from), frame);
  }

  lemma WithAt(middle: Numbering, one: Staged, id: JobId)
    ensures FramesOf(middle.With(one).rows, id)
         == FramesOf(middle.rows, id) + (if one.id == id then [one.frame] else [])
    ensures HighOf(middle.With(one).high, id) == if one.id == id then one.frame.sequence else HighOf(middle.high, id)
  {
  }

  lemma CountsOnStep(before: Numbering, middle: Numbering, staged: seq<Staged>, one: Staged, id: JobId)
    requires CountsOnAt(before, middle, staged, id)
    requires one.frame.sequence == Floor(middle.rows, middle.high, one.id) + 1
    ensures CountsOnAt(before, middle.With(one), staged + [one], id)
  {
    StagedForStep(staged, one, id);
    WithAt(middle, one, id);
    var frames, rows := StagedFor(staged, id), FramesOf(middle.rows, id);
    if id == one.id {
      CountsOnRow(FramesOf(before.rows, id), HighOf(before.high, id), rows, HighOf(middle.high, id), frames, one.frame);
    } else {
      assert frames + [] == frames && rows + [] == rows;
    }
  }

  lemma RowKeepsNumbering(middle: Numbering, live: Frames, one: Staged, id: JobId)
    requires one.frame.sequence == Floor(middle.rows, middle.high, one.id) + 1
    ensures SafeAt(middle.rows, live, middle.high, id)
        ==> SafeAt(middle.With(one).rows, live, middle.With(one).high, id)
    ensures GapFreeAt(middle.rows, live, middle.high, id)
        ==> GapFreeAt(middle.With(one).rows, live, middle.With(one).high, id)
  {
    if id == one.id && SafeAt(middle.rows, live, middle.high, id) {
      FloorOfSafe(middle.rows, live, middle.high, id);
      RowStaysSafe(FramesOf(middle.rows, id), FramesOf(live, id), HighOf(middle.high, id), one.frame);
      if GapFreeAt(middle.rows, live, middle.high, id) {
        RowStaysGapFree(FramesOf(middle.rows, id), FramesOf(live, id), HighOf(middle.high, id), one.frame);
      }
    }
  }

  lemma ReachedStep(before: Numbering, live: Frames, middle: Numbering, staged: seq<Staged>, one: Staged)
    requires Reached(before, live, middle, staged)
    requires one.frame.sequence == Floor(middle.rows, middle.high, one.id) + 1
    ensures Reached(before, live, middle.With(one), staged + [one])
  {
    forall id
      ensures ReachedAt(before, live, middle.With(one), staged + [one], id)
    {
      assert ReachedAt(before, live, middle, staged, id);
      CountsOnStep(before, middle, staged, one, id);
      RowKeepsNumbering(middle, live, one, id);
    }
  }

  /** The jobs a write finished. */
  function Finished(staged: seq<Staged>): set<JobId> {
    set k | 0 <= k < |staged| && staged[k].frame.kind in TERMINAL_STREAM_EVENTS :: staged[k].id
  }

  lemma FinishedStep(staged: seq<Staged>, i: nat)
    requires i < |staged|
    ensures Finished(staged[..i + 1])
         == Finished(staged[..i]) + (if staged[i].frame.kind in TERMINAL_STREAM_EVENTS then {staged[i].id} else {})
  {
    var longer, shorter := staged[..i + 1], staged[..i];
    forall k | 0 <= k < |shorter|
      ensures longer[k] == shorter[k]
    {
    }
    if staged[i].frame.kind in TERMINAL_STREAM_EVENTS {
      assert longer[i] == staged[i];
    }
  }

  /** The counter after all appends, before any job is forgotten. */
  ghost predicate CounterAt(before: Numbering, high: Counters, appends: seq<Append>, id: JobId) {
    HighOf(high, id) == Counted(Floor(before.rows, before.high, id), HighOf(before.high, id), AskedFor(appends, id))
  }

  /** The rows the job has gained: the staged frames, under the numbers from its floor on. */
  ghost predicate GainsAt(before: Numbering, rows: Frames, staged: seq<Staged>, id: JobId) {
    && FramesOf(rows, id) == FramesOf(before.rows, id) + StagedFor(staged, id)
    && Consecutive(StagedFor(staged, id), Floor(before.rows, before.high, id))
  }

  lemma WrittenAt(
    before: Numbering, live: Frames, after: Numbering, appends: seq<Append>, staged: seq<Staged>, id: JobId)
    requires Reached(before, live, after, staged) && |staged| == |appends| && Matches(appends, staged)
    ensures CounterAt(before, after.high, appends, id) && GainsAt(before, after.rows, staged, id)
    ensures SafeAt(before.rows, live, before.high, id) ==> SafeAt(after.rows, live, after.high, id)
    ensures SafeAt(before.rows, live, before.high, id) ==> SafeAt(before.rows, live, after.high, id)
    ensures GapFreeAt(before.rows, live, before.high, id) ==> GapFreeAt(after.rows, live, after.high, id)
  {
    assert ReachedAt(before, live, after, staged, id);
    StagedAsAsked(appends, staged, id);
  }

  lemma RolledBackAt(before: Numbering, live: Frames, high: Counters, appends: seq<Append>, id: JobId)
    requires CounterAt(before, high, appends, id) && GapFreeAt(before.rows, live, before.high, id)
    ensures GapFreeAt(before.rows, live, high, id) <==> AskedFor(appends, id) == 0
  {
    FloorOfSafe(before.rows, live, before.high, id);
    CountingLeavesAGap(FramesOf(before.rows, id), FramesOf(live, id), HighOf(before.high, id), AskedFor(appends, id));
  }

  lemma Written(before: Numbering, live: Frames, after: Numbering, appends: seq<Append>, staged: seq<Staged>)
    requires Reached(before, live, after, staged) && |staged| == |appends| && Matches(appends, staged)
    ensures forall id :: CounterAt(before, after.high, appends, id)
    ensures forall id :: GainsAt(before, after.rows, staged, id)
    ensures forall id | SafeAt(before.rows, live, before.high, id) ::
      SafeAt(after.rows, live, after.high, id) && SafeAt(before.rows, live, after.high, id)
    ensures forall id | GapFreeAt(before.rows, live, before.high, id) ::
      GapFreeAt(after.rows, live, after.high, id)
      && (GapFreeAt(before.rows, live, after.high, id) <==> AskedFor(appends, id) == 0)
  {
    forall id
      ensures CounterAt(before, after.high, appends, id) && GainsAt(before, after.rows, staged, id)
      ensures SafeAt(before.rows, live, before.high, id)
          ==> SafeAt(after.rows, live, after.high, id) && SafeAt(before.rows, live, after.high, id)
      ensures GapFreeAt(before.rows, live, before.high, id) ==>
        GapFreeAt(after.rows, live, after.high, id)
        && (GapFreeAt(before.rows, live, after.high, id) <==> AskedFor(appends, id) == 0)
    {
      WrittenAt(before, live, after, appends, staged, id);
      if GapFreeAt(before.rows, live, before.high, id) {
        RolledBackAt(before, live, after.high, appends, id);
      }
    }
  }

  /** Forgetting jobs leaves the numbering of every other job. */
  lemma OthersUntouched(rows: Frames, live: Frames, high: Counters, done: set<JobId>, id: JobId)
    requires id !in done
    ensures HighOf(high - done, id) == HighOf(high, id)
    ensures SafeAt(rows, live, high, id) ==> SafeAt(rows, live - done, high - done, id)
    ensures GapFreeAt(rows, live, high, id) ==> GapFreeAt(rows, live - done, high - done, id)
  {
    assert FramesOf(live - done, id) == FramesOf(live, id);
  }

  lemma RemovedInTurn<V>(m: map<JobId, V>, done: set<JobId>, id: JobId)
    ensures m - done - {id} == m - (done + {id})
  {
  }

  // ------------------------------------------------------------------ the sink

  class EventTable {
    var rows: Frames

    constructor (rows: Frames)
      ensures this.rows == rows
    {
      this.rows := rows;
    }
  }

  class JobEventSink {
    /** The highest number handed out per live job. */
    var high: Counters
    /** The unstored frames of each live job, oldest first. */
    var live: Frames
    /** The `job_events` table, which the sinks of other processes append to as well. */
    const table: EventTable

    constructor (table: EventTable)
      requires RowsAscend(table.rows)
      ensures Valid()
      ensures this.table == table && high == map[] && live == map[]
      ensures forall id | FramesOf(table.rows, id) == [] :: IsGapFree(id)
    {
      high, live := map[], map[];
      this.table := table;
    }

    /** Rows ascend in the order they were written; so do live frames, below the counter. */
    ghost predicate Valid()
      reads this, table
    {
      RowsAscend(table.rows) && AllBuffered(live, high)
    }

    ghost function Now(): Numbering
      reads this, table
    {
      Numbering(table.rows, high)
    }

    ghost predicate IsSafe(id: JobId)
      reads this, table
    {
      SafeAt(table.rows, live, high, id)
    }

    ghost predicate IsGapFree(id: JobId)
      reads this, table
    {
      GapFreeAt(table.rows, live, high, id)
    }

    /** Above every stored and every handed-out number, whether or not the write commits. */
    method NextSequence(id: JobId) returns (sequence: nat)
      requires Valid()
      modifies this`high
      ensures Valid()
      ensures high == old(high)[id := sequence]
      ensures sequence == Floor(table.rows, old(high), id) + 1
      ensures AllBelow(FramesOf(table.rows, id), sequence) && AllBelow(FramesOf(live, id), sequence)
    {
      var rows := FramesOf(table.rows, id);
      HighestBounds(rows);
      var top := if Highest(rows) > HighOf(high, id) then Highest(rows) else HighOf(high, id);
      sequence := top + 1;
      StaysBuffered(live, high, id, Frame(sequence, "", ""));
      high := high[id := sequence];
    }

    /** One unstored frame under the counter's next number, whatever the table holds. It is hidden from
        the start if and only if that number is stored, and above every stored one if and only if the
        counter has caught up with the table. */
    method PublishLive(id: JobId, kind: string, payload: string) returns (frame: Frame)
      requires Valid()
      modifies this`high, this`live
      ensures Valid()
      ensures frame == Frame(HighOf(old(high), id) + 1, kind, payload)
      ensures high == old(high)[id := frame.sequence]
      ensures live == old(live)[id := Newest(FramesOf(old(live), id) + [frame])]
      ensures frame in FramesOf(live, id)
      ensures var buffer := FramesOf(old(live), id);
              FramesOf(live, id)
              == (if |buffer| < 4096 then buffer else buffer[|buffer| - 4095..]) + [frame]
      ensures frame !in FramesOf(table.rows, id) ==>
        (frame !in Stream(FramesOf(table.rows, id), FramesOf(live, id), 0)
         <==> Taken(FramesOf(table.rows, id), HighOf(old(high), id) + 1))
      ensures AllBelow(FramesOf(table.rows, id), frame.sequence)
        <==> Highest(FramesOf(table.rows, id)) <= HighOf(old(high), id)
      ensures old(IsSafe(id)) ==> IsSafe(id)
      ensures old(IsGapFree(id)) && |FramesOf(old(live), id)| < LIVE_BUFFER_SIZE ==> IsGapFree(id)
    {
      frame := Frame(HighOf(high, id) + 1, kind, payload);
      StaysBuffered(live, high, id, frame);
      assert Buffers(live, high, id);
      LiveIsHiddenWhenTaken(FramesOf(table.rows, id), FramesOf(live, id), HighOf(high, id), frame);
      LiveKeepsNumbering(FramesOf(table.rows, id), FramesOf(live, id), HighOf(high, id), frame);
      NewestInWords(FramesOf(live, id), frame);
      high := high[id := frame.sequence];
      live := live[id := Newest(FramesOf(live, id) + [frame])];
    }

    /** Drops the counter and the buffer of a finished job. */
    method Forget(id: JobId)
      requires Valid()
      modifies this`high, this`live
      ensures Valid()
      ensures high == old(high) - {id} && live == old(live) - {id}
    {
      ForgottenStaysBuffered(live, high, id);
      high, live := high - {id}, live - {id};
    }

    /** The row is added to the open transaction under the job's next number. From a job's first row
        on, while no frame of it is live, its numbers are safe; and they stay so. */
    method AppendRow(id: JobId, kind: string, payload: string) returns (frame: Frame)
      requires Valid()
      modifies this`high, table`rows
      ensures Valid()
      ensures frame == Frame(Floor(old(table.rows), old(high), id) + 1, kind, payload)
      ensures table.rows == old(table.rows)[id := FramesOf(old(table.rows), id) + [frame]]
      ensures high == old(high)[id := frame.sequence]
      ensures old(IsSafe(id)) || FramesOf(live, id) == [] ==> IsSafe(id)
    {
      var sequence := NextSequence(id);
      frame := Frame(sequence, kind, payload);
      AppendAscends(FramesOf(table.rows, id), frame);
      table.rows := table.rows[id := FramesOf(table.rows, id) + [frame]];
    }

    /** One write: every append, then commit or roll back, then publish. Rolled-back rows are gone,
        but their numbers are not handed out again; a committed terminal frame forgets its job. */
    method Write(appends: seq<Append>, commits: bool) returns (published: seq<Staged>)
      requires Valid()
      modifies this, table
      ensures Valid()
      ensures |published| == (if commits then |appends| else 0) && Matches(appends, published)
      ensures forall id :: GainsAt(old(Now()), table.rows, published, id)
      ensures !commits ==> table.rows == old(table.rows)
      ensures live == old(live) - Finished(published)
      ensures forall id | id in Finished(published) :: id !in high
      ensures forall id | id !in Finished(published) :: CounterAt(old(Now()), high, appends, id)
      ensures forall id | id !in Finished(published) && old(IsSafe(id)) :: IsSafe(id)
      ensures commits ==> forall id | id !in Finished(published) && old(IsGapFree(id)) :: IsGapFree(id)
      ensures !commits ==> forall id | old(IsGapFree(id)) :: IsGapFree(id) <==> AskedFor(appends, id) == 0
    {
      var rows := table.rows;
      ghost var before := Numbering(table.rows, high);
      published := [];
      var i := 0;
      while i < |appends|
        invariant 0 <= i == |published| <= |appends|
        invariant Valid() && live == old(live)
        invariant Matches(appends, published)
        invariant Reached(before, live, Numbering(table.rows, high), published)
      {
        ghost var middle := Numbering(table.rows, high);
        var frame := AppendRow(appends[i].id, appends[i].kind, appends[i].payload);
        var one := Staged(appends[i].id, frame);
        ReachedStep(before, live, middle, published, one);
        published := published + [one];
        i := i + 1;
      }
      ghost var after := Numbering(table.rows, high);
      ghost var was := live;
      Written(before, live, after, appends, published);
      if !commits {
        table.rows := rows;
        published := [];
        return;
      }
      Publish(published);
      forall id | id !in Finished(published)
        ensures CounterAt(before, high, appends, id)
        ensures SafeAt(before.rows, was, before.high, id) ==> IsSafe(id)
        ensures GapFreeAt(before.rows, was, before.high, id) ==> IsGapFree(id)
      {
        OthersUntouched(after.rows, was, after.high, Finished(published), id);
        assert CounterAt(before, after.high, appends, id);
      }
    }

    /** Publishes what a committed write staged, forgetting each job that it finished. */
    method Publish(staged: seq<Staged>)
      requires Valid()
      modifies this`high, this`live
      ensures Valid()
      ensures high == old(high) - Finished(staged) && live == old(live) - Finished(staged)
    {
      var i := 0;
      while i < |staged|
        invariant 0 <= i <= |staged|
        invariant Valid()
        invariant high == old(high) - Finished(staged[..i]) && live == old(live) - Finished(staged[..i])
      {
        FinishedStep(staged, i);
        ghost var done := Finished(staged[..i]);
        if staged[i].frame.kind in TERMINAL_STREAM_EVENTS {
          RemovedInTurn(old(high), done, staged[i].id);
          RemovedInTurn(old(live), done, staged[i].id);
          Forget(staged[i].id);
        }
        i := i + 1;
      }
      assert staged[..i] == staged;
    }

    /** The table's first `limit` rows, with the live buffer merged in, are a page of the one stream. */
    method Replay(id: JobId, after: nat, limit: nat) returns (frames: seq<Frame>)
      ensures frames == Page(FramesOf(table.rows, id), FramesOf(live, id), after, limit)
    {
      var rows := FramesOf(table.rows, id);
      var persisted := Take(InOrder(Above(ByNumber(rows), after)), limit);
      var buffered := Buffered(FramesOf(live, id), after);
      TruncatedPage(rows, FramesOf(live, id), after, limit);
      if buffered == [] {
        return persisted;
      }
      var merged := ByNumber(buffered) + ByNumber(persisted);
      frames := Take(InOrder(merged), limit);
    }
  }

  lemma BufferedStep(buffered: seq<Frame>, seen: seq<Frame>, next: Frame, after: nat)
    requires ByNumber(buffered) == Above(ByNumber(seen), after)
    ensures ByNumber(if next.sequence > after then buffered + [next] else buffered)
      == Above(ByNumber(seen + [next]), after)
  {
    assert (seen + [next])[..|seen|] == seen;
    assert (buffered + [next])[..|buffered|] == buffered;
  }

  /** The buffered frames above `after`, in order. */
  method Buffered(buffer: seq<Frame>, after: nat) returns (buffered: seq<Frame>)
    ensures ByNumber(buffered) == Above(ByNumber(buffer), after)
  {
    buffered := [];
    var i := 0;
    while i < |buffer|
      invariant 0 <= i <= |buffer|
      invariant ByNumber(buffered) == Above(ByNumber(buffer[..i]), after)
    {
      BufferedStep(buffered, buffer[..i], buffer[i], after);
      assert buffer[..i + 1] == buffer[..i] + [buffer[i]];
      if buffer[i].sequence > after {
        buffered := buffered + [buffer[i]];
      }
      i := i + 1;
    }
    assert buffer[..i] == buffer;
  }

  lemma LiveKeepsNumbering(rows: seq<Frame>, buffer: seq<Frame>, high: nat, frame: Frame)
    requires frame.sequence == high + 1
    ensures Safe(rows, buffer, high) ==> Safe(rows, Newest(buffer + [frame]), frame.sequence)
    ensures GapFree(rows, buffer, high) && |buffer| < LIVE_BUFFER_SIZE
        ==> GapFree(rows, Newest(buffer + [frame]), frame.sequence)
  {
    if Safe(rows, buffer, high) {
      LiveStaysSafe(rows, buffer, high, frame);
    }
    if GapFree(rows, buffer, high) && |buffer| < LIVE_BUFFER_SIZE {
      LiveStaysGapFree(rows, buffer, high, frame);
    }
  }

  lemma LiveIsHiddenWhenTaken(rows: seq<Frame>, buffer: seq<Frame>, high: nat, frame: Frame)
    requires Ascending(rows) && Ascending(buffer) && AllBelow(buffer, frame.sequence) && frame.sequence == high + 1
    ensures var longer := Newest(buffer + [frame]);
            && frame in longer
            && (frame !in rows ==> (frame !in Stream(rows, longer, 0) <==> Taken(rows, frame.sequence)))
            && (AllBelow(rows, frame.sequence) <==> Highest(rows) <= high)
  {
    CaughtUp(rows, high);
    AppendAscends(buffer, frame);
    NewestAscends(buffer + [frame]);
    assert (buffer + [frame])[|buffer|] == frame;
    if frame !in rows {
      HiddenWhenTaken(rows, Newest(buffer + [frame]), 0, frame);
    }
  }

  // ------------------------------------------------------------------ three failing runs

  /** After a restart the counter does not know the table: the first live frame takes number 1, which the
      stored `queued` event carries, and every replay hides it. */
  method RestartedSinkHidesALiveFrame(payload: string)
    returns (sink: JobEventSink, frame: Frame, frames: seq<Frame>)
    ensures FramesOf(sink.table.rows, "j") == [Frame(1, "job.queued", "")]
    ensures frame == Frame(1, "token", payload) && frame in FramesOf(sink.live, "j") && !sink.IsSafe("j")
    ensures frame !in frames && frames == Page(FramesOf(sink.table.rows, "j"), FramesOf(sink.live, "j"), 0, 10)
  {
    var queued := Frame(1, "job.queued", "");
    var table := new EventTable(map["j" := [queued]]);
    sink := new JobEventSink(table);
    frame := sink.PublishLive("j", "token", payload);
    assert queued in FramesOf(table.rows, "j");
    frames := sink.Replay("j", 0, 10);
    HiddenWhenTaken(FramesOf(table.rows, "j"), FramesOf(sink.live, "j"), 0, frame);
  }

  /** The server queues a job and streams a token under number 2; then another process cancels
      the job and its fresh sink takes number 2 as well. The token was in the stream and is no longer, and
      a client that has seen it never gets the cancellation. */
  method ForeignCancelHidesAToken(payload: string)
    returns (server: JobEventSink, token: Frame, first: seq<Frame>, again: seq<Frame>, resumed: seq<Frame>)
    ensures token == Frame(2, "token", payload)
    ensures first == [Frame(1, "job.queued", ""), token]
    ensures again == [Frame(1, "job.queued", ""), Frame(2, "job.cancelling", "")]
    ensures resumed == []
  {
    var one, two := Frame(1, "job.queued", ""), Frame(2, "job.cancelling", "");
    var table := new EventTable(map[]);
    server := new JobEventSink(table);
    NotTerminal();
    WriteOne(server, "j", "job.queued");
    token := server.PublishLive("j", "token", payload);
    assert FramesOf(server.live, "j") == [token];
    first := server.Replay("j", 0, 10);
    TwoFrames(one, token);
    var cli := new JobEventSink(table);
    assert Floor(table.rows, cli.high, "j") == 1;
    WriteOne(cli, "j", "job.cancelling");
    again := server.Replay("j", 0, 10);
    resumed := server.Replay("j", 2, 10);
    TokenReplaced(one, two, token);
  }

  /** The first write of a job is rolled back and done again: the job's first row has number 2. */
  method RolledBackWriteLeavesAGap() returns (sink: JobEventSink)
    ensures FramesOf(sink.table.rows, "j") == [Frame(2, "job.queued", "")] && !sink.IsGapFree("j")
  {
    NotTerminal();
    var table := new EventTable(map[]);
    sink := new JobEventSink(table);
    var appends := [Append("j", "job.queued", "")];
    ghost var before := sink.Now();
    var none := sink.Write(appends, false);
    assert CounterAt(before, sink.high, appends, "j");
    assert appends[..0] == [] && AskedFor(appends, "j") == 1;
    WriteOne(sink, "j", "job.queued");
    OnlyTwoIsTaken(Frame(2, "job.queued", ""), HighOf(sink.high, "j"));
  }

  lemma OnlyTwoIsTaken(two: Frame, high: nat)
    requires two.sequence == 2 && high >= 1
    ensures !GapFree([two], [], high)
  {
    assert !Taken([two], 1) && !Taken([], 1);
  }

  lemma NotTerminal()
    ensures "job.queued" !in TERMINAL_STREAM_EVENTS && "job.cancelling" !in TERMINAL_STREAM_EVENTS
  {
    assert forall kind | kind in TERMINAL_STREAM_EVENTS :: |kind| != |"job.cancelling"|;
    assert "job.queued"[4] != "job.failed"[4];
  }

  /** A write of one event that ends nothing. */
  method WriteOne(sink: JobEventSink, id: JobId, kind: string)
    requires sink.Valid() && kind !in TERMINAL_STREAM_EVENTS
    modifies sink, sink.table
    ensures sink.Valid() && sink.live == old(sink.live)
    ensures AddsOne(old(sink.Now()), sink.Now(), id, kind)
  {
    ghost var before := sink.Now();
    var appends := [Append(id, kind, "")];
    var staged := sink.Write(appends, true);
    OneWritten(before, sink.Now(), appends, staged, id, kind);
  }

  /** The row under the job's next number was added, and the counter is at that number. */
  ghost predicate AddsOne(before: Numbering, after: Numbering, id: JobId, kind: string) {
    var next := Floor(before.rows, before.high, id) + 1;
    FramesOf(after.rows, id) == FramesOf(before.rows, id) + [Frame(next, kind, "")] && HighOf(after.high, id) == next
  }

  lemma OneWritten(
    before: Numbering, after: Numbering, appends: seq<Append>, staged: seq<Staged>, id: JobId, kind: string)
    requires appends == [Append(id, kind, "")] && |staged| == 1 && Matches(appends, staged)
    requires kind !in TERMINAL_STREAM_EVENTS
    ensures Finished(staged) == {}
    ensures GainsAt(before, after.rows, staged, id) && CounterAt(before, after.high, appends, id)
        ==> AddsOne(before, after, id, kind)
  {
    assert MatchesAt(appends[0], staged[0]);
    assert appends[..0] == [] && staged[..0] == [];
    assert StagedFor(staged, id) == [staged[0].frame];
    assert AskedFor(appends, id) == 1;
  }

  lemma TwoFrames(one: Frame, token: Frame)
    requires one.sequence == 1 && token.sequence == 2
    ensures Page([one], [token], 0, 10) == [one, token]
  {
    StreamIsTheUnion([one], [token], 0);
    StreamIs([one], [token], 0, [one, token]);
  }

  lemma TokenReplaced(one: Frame, two: Frame, token: Frame)
    requires one.sequence == 1 && two.sequence == 2 && token.sequence == 2
    ensures Page([one] + [two], [token], 0, 10) == [one, two]
    ensures Page([one] + [two], [token], 2, 10) == []
  {
    StreamIs([one] + [two], [token], 0, [one, two]);
    StreamIs([one] + [two], [token], 2, []);
  }

  /** A stream is known by its frames. */
  lemma StreamIs(stored: seq<Frame>, live: seq<Frame>, after: nat, expected: seq<Frame>)
    requires Ascending(stored) && Ascending(live) && Ascending(expected)
    requires forall f :: f in expected <==>
      f.sequence > after && (f in stored || (f in live && forall g | g in stored :: g.sequence != f.sequence))
    ensures Stream(stored, live, after) == expected
  {
    StreamIsTheUnion(stored, live, after);
    OneOrder(Stream(stored, live, after), expected, Before);
  }
}
