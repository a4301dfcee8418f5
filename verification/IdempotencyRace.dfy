/** Submissions racing on one idempotency key. Looking the key up and inserting the row are separate
    transactions, so several submissions may interleave between them; the unique index on
    `(source, key)` decides. Both `enqueue` and the synchronous reservation take these steps. */
module IdempotencyRace {
  import opened Wrappers
  import opened Priority
  import opened Queue
  import opened QueueRuns

  /** How far one submission has got. `period` says in which reservation period of the key it ended:
      the number of times the key had been released by then. */
  datatype Phase =
    | Started
    | FoundNothing
    | LostInsert
    | Done(id: JobId, created: bool, period: nat)
    | Raised

  /** One submission; `now` is its own instant, read once, and `row` is what it would insert. */
  datatype Submitter = Submitter(now: Instant, newId: JobId, row: Entry, phase: Phase)

  datatype Race = Race(t: Table, submitters: seq<Submitter>, period: nat)

  /** The key everybody submits under, and how long it is reserved. */
  datatype Key = Key(source: string, key: string, ttl: real)

  /** A step of one submitter, with the job its lookup found, or of anybody else, who leaves this key
      alone. */
  datatype Event = Advance(who: nat, found: Option<JobId>) | Other(next: Table)

  function HoldersOf(t: Table, k: Key): set<JobId> {
    Holders(t, k.source, k.key)
  }

  /** The row reserves the key from the submission's instant on. */
  predicate SubmitsUnder(s: Submitter, k: Key) {
    s.row.job.source == k.source && s.row.job.key == Some(k.key) && s.row.job.keyExpires == Some(s.now + k.ttl)
  }

  /** A submitter of what `enqueue` inserts for a submission does. */
  lemma EnqueueSubmitsUnder(newId: JobId, s: Submission, priority: int, now: Instant, settings: QueueSettings)
    requires s.key.Some?
    ensures SubmitsUnder(Submitter(now, newId, NewEntry(s, priority, now, settings), Started),
                         Key(s.source, s.key.value, settings.idempotencyTtl))
  {
  }

  predicate KeepsKey(t: Table, next: Table, k: Key) {
    && HoldersOf(next, k) == HoldersOf(t, k)
    && forall id | id in HoldersOf(t, k) :: next[id].job.keyExpires == t[id].job.keyExpires
  }

  /** What a lookup at `now` may return: an unexpired holder, or nothing when there is none. */
  predicate MayFind(t: Table, k: Key, now: Instant, found: Option<JobId>) {
    if found.Some? then found.value in HoldersOf(t, k) && !KeyExpired(t[found.value].job, now)
    else forall id | id in HoldersOf(t, k) :: KeyExpired(t[id].job, now)
  }

  predicate Enabled(r: Race, e: Event, k: Key) {
    match e
    case Other(next) => KeepsKey(r.t, next, k)
    case Advance(who, found) =>
      && who < |r.submitters|
      && r.submitters[who].newId !in r.t
      && r.submitters[who].phase in {Started, FoundNothing, LostInsert}
      && (r.submitters[who].phase != FoundNothing ==> MayFind(r.t, k, r.submitters[who].now, found))
  }

  /** The lookup transaction: an expired reservation is released, an unexpired one is found. */
  function Lookup(r: Race, who: nat, k: Key, found: Option<JobId>, otherwise: Phase): Race
    requires who < |r.submitters|
  {
    var s := r.submitters[who];
    var releases := exists id :: id in HoldersOf(r.t, k) && KeyExpired(r.t[id].job, s.now);
    var phase := if found.Some? then Done(found.value, false, r.period) else otherwise;
    Race(Looked(r.t, k.source, k.key, s.now), r.submitters[who := s.(phase := phase)],
         if releases then r.period + 1 else r.period)
  }

  function Next(r: Race, e: Event, k: Key): Race
    requires Enabled(r, e, k)
  {
    match e
    case Other(next) => r.(t := next)
    case Advance(who, found) =>
      var s := r.submitters[who];
      match s.phase
      case FoundNothing =>
        if HoldersOf(r.t, k) != {} then
          r.(submitters := r.submitters[who := s.(phase := LostInsert)])
        else
          Race(r.t[s.newId := s.row], r.submitters[who := s.(phase := Done(s.newId, true, r.period))], r.period)
      case LostInsert => Lookup(r, who, k, found, Raised)
      case _ => Lookup(r, who, k, found, FoundNothing)
  }

  predicate CanPlay(r: Race, events: seq<Event>, k: Key)
    decreases |events|
  {
    events == [] || (Enabled(r, events[0], k) && CanPlay(Next(r, events[0], k), events[1..], k))
  }

  function Play(r: Race, events: seq<Event>, k: Key): (end: Race)
    requires CanPlay(r, events, k)
    ensures |end.submitters| == |r.submitters|
    decreases |events|
  {
    if events == [] then r else Play(Next(r, events[0], k), events[1..], k)
  }

  /** A race about to start: nobody holds the key. */
  predicate Fresh(r: Race, k: Key) {
    && HoldersOf(r.t, k) == {} && r.period == 0
    && forall i | 0 <= i < |r.submitters| :: r.submitters[i].phase == Started && SubmitsUnder(r.submitters[i], k)
  }

  // ------------------------------------------------------------------ one winner per period

  predicate DoneIn(s: Submitter, period: nat) {
    s.phase.Done? && s.phase.period == period
  }

  predicate CreatedIn(s: Submitter, period: nat) {
    DoneIn(s, period) && s.phase.created
  }

  /** In every reservation period all submissions that ended in it got one job id, and exactly one of
      them created it. */
  ghost predicate OneWinner(r: Race) {
    forall i, j | 0 <= i < |r.submitters| && 0 <= j < |r.submitters| :: Agree(r, i, j)
  }

  ghost predicate Agree(r: Race, i: nat, j: nat)
    requires i < |r.submitters| && j < |r.submitters|
  {
    var a, b := r.submitters[i], r.submitters[j];
    && (a.phase.Done? && b.phase.Done? && a.phase.period == b.phase.period ==>
          && a.phase.id == b.phase.id
          && (a.phase.created && b.phase.created ==> i == j))
    && (a.phase.Done? ==> HasCreator(r, a.phase.period))
  }

  ghost predicate HasCreator(r: Race, period: nat) {
    exists i :: 0 <= i < |r.submitters| && CreatedIn(r.submitters[i], period)
  }

  /** The invariant behind it: the current period's winner holds the key. */
  ghost predicate Inv(r: Race, k: Key) {
    && OneWinner(r)
    && (forall i | 0 <= i < |r.submitters| :: SubmitsUnder(r.submitters[i], k))
    && (forall a, b | a in HoldersOf(r.t, k) && b in HoldersOf(r.t, k) :: a == b)
    && (forall i | 0 <= i < |r.submitters| && r.submitters[i].phase.Done? ::
          && r.submitters[i].phase.period <= r.period
          && (r.submitters[i].phase.period == r.period ==> r.submitters[i].phase.id in HoldersOf(r.t, k)))
    && (HoldersOf(r.t, k) != {} ==> HasCreator(r, r.period))
  }

  /** A submitter's new phase keeps every creator that was there. */
  lemma CreatorsStay(r: Race, next: Race, who: nat, period: nat)
    requires who < |r.submitters| && !r.submitters[who].phase.Done?
    requires |next.submitters| == |r.submitters|
    requires forall i | 0 <= i < |r.submitters| && i != who :: next.submitters[i] == r.submitters[i]
    requires HasCreator(r, period)
    ensures HasCreator(next, period)
  {
    var i :| 0 <= i < |r.submitters| && CreatedIn(r.submitters[i], period);
    assert CreatedIn(next.submitters[i], period);
  }

  /** Changing one submitter keeps the agreement when its own new outcome agrees. */
  lemma AgreementKept(r: Race, next: Race, who: nat)
    requires OneWinner(r) && who < |r.submitters| && !r.submitters[who].phase.Done?
    requires |next.submitters| == |r.submitters|
    requires forall i | 0 <= i < |r.submitters| && i != who :: next.submitters[i] == r.submitters[i]
    requires var s := next.submitters[who];
             s.phase.Done? ==>
             && HasCreator(next, s.phase.period)
             && (forall i | 0 <= i < |r.submitters| && DoneIn(r.submitters[i], s.phase.period) ::
                   r.submitters[i].phase.id == s.phase.id && !(s.phase.created && r.submitters[i].phase.created))
    ensures OneWinner(next)
  {
    forall i, j | 0 <= i < |next.submitters| && 0 <= j < |next.submitters|
      ensures Agree(next, i, j)
    {
      if i != who && j != who {
        assert Agree(r, i, j);
      }
      if i != who && next.submitters[i].phase.Done? {
        assert Agree(r, i, i);
        CreatorsStay(r, next, who, next.submitters[i].phase.period);
      }
    }
  }

  lemma LookupKeepsInv(r: Race, who: nat, k: Key, found: Option<JobId>, otherwise: Phase)
    requires Inv(r, k) && who < |r.submitters| && !r.submitters[who].phase.Done? && !otherwise.Done?
    requires MayFind(r.t, k, r.submitters[who].now, found)
    ensures Inv(Lookup(r, who, k, found, otherwise), k)
  {
    var s, next := r.submitters[who], Lookup(r, who, k, found, otherwise);
    assert HoldersOf(next.t, k) == set id | id in HoldersOf(r.t, k) && !KeyExpired(r.t[id].job, s.now);
    if HoldersOf(r.t, k) != {} {
      CreatorsStay(r, next, who, r.period);
    }
    AgreementKept(r, next, who);
  }

  lemma InsertKeepsInv(r: Race, who: nat, k: Key)
    requires Inv(r, k) && who < |r.submitters| && r.submitters[who].phase == FoundNothing
    requires r.submitters[who].newId !in r.t && HoldersOf(r.t, k) == {}
    ensures Inv(Next(r, Advance(who, None), k), k)
  {
    var s, next := r.submitters[who], Next(r, Advance(who, None), k);
    assert HoldersOf(next.t, k) == {s.newId};
    assert CreatedIn(next.submitters[who], r.period);
    AgreementKept(r, next, who);
  }

  lemma EventKeepsInv(r: Race, e: Event, k: Key)
    requires Inv(r, k) && Enabled(r, e, k)
    ensures Inv(Next(r, e, k), k)
  {
    match e
    case Other(next) =>
      forall i, j | 0 <= i < |r.submitters| && 0 <= j < |r.submitters|
        ensures Agree(r.(t := next), i, j)
      {
        assert Agree(r, i, j);
      }
      if HasCreator(r, r.period) {
        var i :| 0 <= i < |r.submitters| && CreatedIn(r.submitters[i], r.period);
        assert CreatedIn(r.(t := next).submitters[i], r.period);
      }
    case Advance(who, found) =>
      match r.submitters[who].phase
      case FoundNothing =>
        if HoldersOf(r.t, k) == {} {
          assert Next(r, e, k) == Next(r, Advance(who, None), k);
          InsertKeepsInv(r, who, k);
        } else {
          var next := Next(r, e, k);
          CreatorsStay(r, next, who, r.period);
          AgreementKept(r, next, who);
        }
      case LostInsert => LookupKeepsInv(r, who, k, found, Raised);
      case _ => LookupKeepsInv(r, who, k, found, FoundNothing);
  }

  lemma {:induction false} PlayKeepsInv(r: Race, events: seq<Event>, k: Key)
    requires Inv(r, k) && CanPlay(r, events, k)
    ensures Inv(Play(r, events, k), k)
    decreases |events|
  {
    if events != [] {
      EventKeepsInv(r, events[0], k);
      PlayKeepsInv(Next(r, events[0], k), events[1..], k);
    }
  }

  /** Under any interleaving, key releases included: one job id per reservation period, created once. */
  lemma OneJobPerReservation(r: Race, events: seq<Event>, k: Key)
    requires Fresh(r, k) && CanPlay(r, events, k)
    ensures OneWinner(Play(r, events, k))
  {
    PlayKeepsInv(r, events, k);
  }

  // ------------------------------------------------------------------ when the retry can raise

  /** No submission comes a reservation or more after another. */
  predicate Overlapping(r: Race, k: Key) {
    forall i, j | 0 <= i < |r.submitters| && 0 <= j < |r.submitters| && i != j ::
      r.submitters[j].now < r.submitters[i].now + k.ttl
  }

  /** With overlapping submissions the reservation is never released and the loser always finds it. */
  ghost predicate Calm(r: Race, k: Key) {
    && Inv(r, k) && r.period == 0 && Overlapping(r, k)
    && (forall i | 0 <= i < |r.submitters| :: r.submitters[i].phase != Raised)
    && (forall i | 0 <= i < |r.submitters| && r.submitters[i].phase == LostInsert :: HoldersOf(r.t, k) != {})
    && (forall i, id | 0 <= i < |r.submitters| && !r.submitters[i].phase.Done? && id in HoldersOf(r.t, k) ::
          !KeyExpired(r.t[id].job, r.submitters[i].now))
  }

  lemma LookupKeepsCalm(r: Race, who: nat, k: Key, found: Option<JobId>, otherwise: Phase)
    requires Calm(r, k) && who < |r.submitters| && !r.submitters[who].phase.Done?
    requires otherwise == FoundNothing || (otherwise == Raised && HoldersOf(r.t, k) != {})
    requires MayFind(r.t, k, r.submitters[who].now, found)
    ensures Calm(Lookup(r, who, k, found, otherwise), k)
  {
    LookupKeepsInv(r, who, k, found, otherwise);
    assert HoldersOf(Lookup(r, who, k, found, otherwise).t, k) == HoldersOf(r.t, k);
  }

  lemma InsertKeepsCalm(r: Race, who: nat, k: Key)
    requires Calm(r, k) && who < |r.submitters| && r.submitters[who].phase == FoundNothing
    requires r.submitters[who].newId !in r.t && HoldersOf(r.t, k) == {}
    ensures Calm(Next(r, Advance(who, None), k), k)
  {
    InsertKeepsInv(r, who, k);
    assert HoldersOf(Next(r, Advance(who, None), k).t, k) == {r.submitters[who].newId};
  }

  lemma EventKeepsCalm(r: Race, e: Event, k: Key)
    requires Calm(r, k) && Enabled(r, e, k)
    ensures Calm(Next(r, e, k), k)
  {
    EventKeepsInv(r, e, k);
    if e.Advance? {
      if r.submitters[e.who].phase != FoundNothing {
        LookupKeepsCalm(r, e.who, k, e.found, if r.submitters[e.who].phase == LostInsert then Raised else FoundNothing);
      } else if HoldersOf(r.t, k) == {} {
        InsertKeepsCalm(r, e.who, k);
      }
    }
  }

  lemma {:induction false} PlayKeepsCalm(r: Race, events: seq<Event>, k: Key)
    requires Calm(r, k) && CanPlay(r, events, k)
    ensures Calm(Play(r, events, k), k)
    decreases |events|
  {
    if events != [] {
      EventKeepsCalm(r, events[0], k);
      PlayKeepsCalm(Next(r, events[0], k), events[1..], k);
    }
  }

  /** The second lookup finds the winner when no submission's instant reaches the end of another's
      reservation, and then every submission that ends gets the same job. */
  lemma OverlappingSubmissionsNeverRaise(r: Race, events: seq<Event>, k: Key)
    requires Fresh(r, k) && Overlapping(r, k) && CanPlay(r, events, k)
    ensures var end := Play(r, events, k);
            && (forall i | 0 <= i < |end.submitters| :: end.submitters[i].phase != Raised)
            && (forall i, j | 0 <= i < |end.submitters| && 0 <= j < |end.submitters| && end.submitters[i].phase.Done?
                && end.submitters[j].phase.Done? ::
                  end.submitters[i].phase.id == end.submitters[j].phase.id)
  {
    PlayKeepsCalm(r, events, k);
    var end := Play(r, events, k);
    forall i, j | 0 <= i < |end.submitters| && 0 <= j < |end.submitters| && end.submitters[i].phase.Done?
      && end.submitters[j].phase.Done?
      ensures end.submitters[i].phase.id == end.submitters[j].phase.id
    {
      assert Agree(end, i, j);
    }
  }

  /** Otherwise some interleaving makes the late submission lose the insert and then find nothing,
      although the code takes the winning row for granted. */
  lemma LateSubmissionCanRaise(r: Race, k: Key, winner: nat, late: nat) returns (events: seq<Event>)
    requires Fresh(r, k) && winner < |r.submitters| && late < |r.submitters| && winner != late
    requires r.submitters[winner].newId !in r.t && r.submitters[late].newId !in r.t
    requires r.submitters[winner].newId != r.submitters[late].newId
    requires r.submitters[winner].now + k.ttl <= r.submitters[late].now
    ensures CanPlay(r, events, k) && Play(r, events, k).submitters[late].phase == Raised
  {
    var first, second := Advance(late, None), Advance(winner, None);
    var r1 := Next(r, first, k);
    var r2 := Next(r1, second, k);
    assert HoldersOf(r1.t, k) == {} && HoldersOf(r2.t, k) == {};
    var r3 := Next(r2, second, k);
    assert r.submitters[winner].newId in HoldersOf(r3.t, k);
    var r4 := Next(r3, first, k);
    assert HoldersOf(r4.t, k) == {r.submitters[winner].newId};
    PlayFirst(r4, first, [], k);
    PlayFirst(r3, first, [first] + [], k);
    PlayFirst(r2, second, [first] + ([first] + []), k);
    PlayFirst(r1, second, [second] + ([first] + ([first] + [])), k);
    PlayFirst(r, first, [second] + ([second] + ([first] + ([first] + []))), k);
    events := [first] + ([second] + ([second] + ([first] + ([first] + []))));
  }

  /** Some interleaving makes a submission raise. */
  ghost predicate CanRaise(r: Race, k: Key) {
    exists events :: CanPlay(r, events, k) && Raises(Play(r, events, k))
  }

  predicate Raises(r: Race) {
    exists i :: 0 <= i < |r.submitters| && r.submitters[i].phase == Raised
  }

  predicate DistinctNewIds(r: Race) {
    && (forall i | 0 <= i < |r.submitters| :: r.submitters[i].newId !in r.t)
    && (forall i, j | 0 <= i < j < |r.submitters| :: r.submitters[i].newId != r.submitters[j].newId)
  }

  /** The retry after a lost insert can raise exactly when some submission's instant is not before the
      end of another's reservation. */
  lemma RaisesExactlyWhenLate(r: Race, k: Key)
    requires Fresh(r, k) && DistinctNewIds(r)
    ensures CanRaise(r, k) <==> !Overlapping(r, k)
  {
    if Overlapping(r, k) {
      forall events | CanPlay(r, events, k)
        ensures !Raises(Play(r, events, k))
      {
        OverlappingSubmissionsNeverRaise(r, events, k);
      }
    } else {
      var i, j :| 0 <= i < |r.submitters| && 0 <= j < |r.submitters| && i != j
        && r.submitters[j].now >= r.submitters[i].now + k.ttl;
      var events := LateSubmissionCanRaise(r, k, i, j);
      assert Raises(Play(r, events, k));
    }
  }

  lemma PlayFirst(r: Race, e: Event, rest: seq<Event>, k: Key)
    requires Enabled(r, e, k) && CanPlay(Next(r, e, k), rest, k)
    ensures CanPlay(r, [e] + rest, k) && Play(r, [e] + rest, k) == Play(Next(r, e, k), rest, k)
  {
    assert ([e] + rest)[1..] == rest;
  }
}
