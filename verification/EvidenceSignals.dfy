/** Which evidence routing sees: one stored row per capability and profile of each bound subject. */
module EvidenceSignals {
  import opened Wrappers
  import opened EvidenceBinding
  import opened EvidenceStore
  import opened Orders

  /** One stored row with its ULID. */
  datatype Evidence = Evidence(id: string, key: Key, row: Row)

  // ------------------------------------------------------------------ policy versions

  /** `text.split(".")`. */
  function Split(text: string): (parts: seq<string>)
    ensures parts != []
  {
    if text == "" then [""]
    else
      var rest := Split(text[1..]);
      if text[0] == '.' then [""] + rest else [[text[0]] + rest[0]] + rest[1..]
  }

  predicate IsNumber(part: string) {
    part != "" && forall i | 0 <= i < |part| :: '0' <= part[i] <= '9'
  }

  function NumberOf(part: string): int
    requires forall i | 0 <= i < |part| :: '0' <= part[i] <= '9'
  {
    if part == "" then 0
    else
      var front, last := part[..|part| - 1], part[|part| - 1];
      10 * NumberOf(front) + (last as int - '0' as int)
  }

  predicate IsNumeric(version: string) {
    forall part | part in Split(version) :: IsNumber(part)
  }

  function NumbersOf(parts: seq<string>): (numbers: seq<int>)
    requires forall part | part in parts :: IsNumber(part)
    ensures |numbers| == |parts|
  {
    if parts == [] then []
    else
      assert IsNumber(parts[0]);
      [NumberOf(parts[0])] + NumbersOf(parts[1..])
  }

  /** The numeric parts of a dotted-integer version; nothing for any other version. */
  function VersionNumbers(version: string): seq<int> {
    if IsNumeric(version) then NumbersOf(Split(version)) else []
  }

  predicate VersionLess(a: string, b: string) {
    LexLess(VersionNumbers(a), VersionNumbers(b))
    || (VersionNumbers(a) == VersionNumbers(b) && LexLess(Codes(a), Codes(b)))
  }

  /** An unrecognized version never displaces a recognized one. */
  lemma NumericVersionsRankAbove(a: string, b: string)
    requires !IsNumeric(a) && IsNumeric(b)
    ensures VersionLess(a, b) && !VersionLess(b, a)
  {
    LexTotal(VersionNumbers(a), VersionNumbers(b));
  }

  // ------------------------------------------------------------------ the selection order

  predicate IsLocal(e: Evidence, local: Option<string>) {
    local.None? || e.key.machine == local.value
  }

  /** `b` is preferred to `a`: this machine first, then the higher policy version, then the later
      measurement, then the larger ULID. */
  predicate Preferred(a: Evidence, b: Evidence, local: Option<string>) {
    (!IsLocal(a, local) && IsLocal(b, local))
    || (IsLocal(a, local) == IsLocal(b, local) &&
        (VersionLess(a.key.policy, b.key.policy)
        || (a.key.policy == b.key.policy &&
            (a.row.measuredAt < b.row.measuredAt
            || (a.row.measuredAt == b.row.measuredAt && LexLess(Codes(a.id), Codes(b.id)))))))
  }

  lemma VersionOrder(a: string, b: string)
    ensures VersionLess(a, b) || VersionLess(b, a) || a == b
    ensures !(VersionLess(a, b) && VersionLess(b, a))
  {
    LexTotal(VersionNumbers(a), VersionNumbers(b));
    LexTotal(Codes(a), Codes(b));
    if Codes(a) == Codes(b) {
      CodesAreInjective(a, b);
    }
  }

  /** Of two rows with different ULIDs exactly one is preferred. */
  lemma PreferenceIsTotal(a: Evidence, b: Evidence, local: Option<string>)
    ensures a.id != b.id ==> Preferred(a, b, local) || Preferred(b, a, local)
    ensures !(Preferred(a, b, local) && Preferred(b, a, local))
  {
    VersionOrder(a.key.policy, b.key.policy);
    LexTotal(Codes(a.id), Codes(b.id));
    if Codes(a.id) == Codes(b.id) {
      CodesAreInjective(a.id, b.id);
    }
  }

  lemma VersionTransitive(a: string, b: string, c: string)
    requires VersionLess(a, b) && VersionLess(b, c)
    ensures VersionLess(a, c)
  {
    var x, y, z := VersionNumbers(a), VersionNumbers(b), VersionNumbers(c);
    if LexLess(x, y) && LexLess(y, z) {
      LexTransitive(x, y, z);
    } else if x == y && y == z {
      LexTransitive(Codes(a), Codes(b), Codes(c));
    }
  }

  lemma PreferenceIsTransitive(a: Evidence, b: Evidence, c: Evidence, local: Option<string>)
    requires Preferred(a, b, local) && Preferred(b, c, local)
    ensures Preferred(a, c, local)
  {
    if VersionLess(a.key.policy, b.key.policy) && VersionLess(b.key.policy, c.key.policy) {
      VersionTransitive(a.key.policy, b.key.policy, c.key.policy);
    }
    if LexLess(Codes(a.id), Codes(b.id)) && LexLess(Codes(b.id), Codes(c.id)) {
      LexTransitive(Codes(a.id), Codes(b.id), Codes(c.id));
    }
  }

  // ------------------------------------------------------------------ at most one row per group

  /** Rows compete within one capability and runtime profile. */
  datatype Group = Group(capability: string, profile: string)

  function GroupOf(e: Evidence): Group {
    Group(e.key.capability, e.key.profile)
  }

  predicate GroupLess(a: Group, b: Group) {
    LexLess(Codes(a.capability), Codes(b.capability))
    || (a.capability == b.capability && LexLess(Codes(a.profile), Codes(b.profile)))
  }

  lemma GroupOrder(a: Group, b: Group)
    ensures GroupLess(a, b) || GroupLess(b, a) || a == b
    ensures !(GroupLess(a, b) && GroupLess(b, a))
  {
    LexTotal(Codes(a.capability), Codes(b.capability));
    LexTotal(Codes(a.profile), Codes(b.profile));
    if Codes(a.capability) == Codes(b.capability) {
      CodesAreInjective(a.capability, b.capability);
    }
    if Codes(a.profile) == Codes(b.profile) {
      CodesAreInjective(a.profile, b.profile);
    }
  }

  lemma GroupTransitive(a: Group, b: Group, c: Group)
    requires GroupLess(a, b) && GroupLess(b, c)
    ensures GroupLess(a, c)
  {
    if LexLess(Codes(a.capability), Codes(b.capability)) && LexLess(Codes(b.capability), Codes(c.capability)) {
      LexTransitive(Codes(a.capability), Codes(b.capability), Codes(c.capability));
    } else if a.capability == b.capability == c.capability {
      LexTotal(Codes(a.capability), Codes(b.capability));
      LexTransitive(Codes(a.profile), Codes(b.profile), Codes(c.profile));
    }
  }

  /** The row its group selects: a candidate to which no other of the group is preferred. */
  ghost predicate IsBest(candidates: set<Evidence>, local: Option<string>, e: Evidence) {
    e in candidates && forall other | other in candidates && GroupOf(other) == GroupOf(e) :: !Preferred(e, other, local)
  }

  ghost predicate Represented(selected: seq<Evidence>, group: Group) {
    exists e :: e in selected && GroupOf(e) == group
  }

  ghost predicate InGroupOrder(selected: seq<Evidence>) {
    forall i, j | 0 <= i < j < |selected| :: ComesBefore(selected[i], selected[j])
  }

  /** What collapsing promises: one row of every group, the best of it, in the order of the groups. */
  ghost predicate IsCollapse(candidates: set<Evidence>, local: Option<string>, selected: seq<Evidence>) {
    && InGroupOrder(selected)
    && (forall e | e in selected :: IsBest(candidates, local, e))
    && (forall c | c in candidates :: Represented(selected, GroupOf(c)))
  }

  /** Row ids are a primary key. */
  ghost predicate UniqueIds(candidates: set<Evidence>) {
    forall a, b | a in candidates && b in candidates && a.id == b.id :: a == b
  }

  lemma SelectedByBoth(candidates: set<Evidence>, local: Option<string>, a: seq<Evidence>, b: seq<Evidence>,
                       e: Evidence)
    requires UniqueIds(candidates) && IsCollapse(candidates, local, a) && IsCollapse(candidates, local, b)
    requires e in a
    ensures e in b
  {
    assert IsBest(candidates, local, e);
    assert Represented(b, GroupOf(e));
    var other :| other in b && GroupOf(other) == GroupOf(e);
    assert IsBest(candidates, local, other);
    PreferenceIsTotal(e, other, local);
  }

  /** The promise leaves no choice: the same candidates always collapse to the same rows. */
  lemma OneCollapse(candidates: set<Evidence>, local: Option<string>, a: seq<Evidence>, b: seq<Evidence>)
    requires UniqueIds(candidates) && IsCollapse(candidates, local, a) && IsCollapse(candidates, local, b)
    ensures a == b
  {
    forall e
      ensures e in a <==> e in b
    {
      if e in a {
        SelectedByBoth(candidates, local, a, b, e);
      }
      if e in b {
        SelectedByBoth(candidates, local, b, a, e);
      }
    }
    ComesBeforeIsAsymmetric();
    assert StrictlySorted(a, ComesBefore) && StrictlySorted(b, ComesBefore);
    OneOrder(a, b, ComesBefore);
  }

  predicate ComesBefore(x: Evidence, y: Evidence) {
    GroupLess(GroupOf(x), GroupOf(y))
  }

  lemma ComesBeforeIsAsymmetric()
    ensures Asymmetric(ComesBefore)
  {
    forall x, y | ComesBefore(x, y)
      ensures !ComesBefore(y, x)
    {
      GroupOrder(GroupOf(x), GroupOf(y));
    }
  }

  // ------------------------------------------------------------------ collapsing

  function Members(s: seq<Evidence>): set<Evidence> {
    set e | e in s
  }

  /** No row so far is preferred to `best`. */
  ghost predicate Unbeaten(best: Evidence, seen: seq<Evidence>, local: Option<string>) {
    forall e | e in seen :: !Preferred(best, e, local)
  }

  lemma UnbeatenStep(seen: seq<Evidence>, best: Evidence, next: Evidence, local: Option<string>)
    requires Unbeaten(best, seen, local)
    ensures Unbeaten(if Preferred(best, next, local) then next else best, seen + [next], local)
  {
    PreferenceIsTotal(next, next, local);
    forall e | e in seen
      ensures Preferred(best, next, local) ==> !Preferred(next, e, local)
    {
      if Preferred(best, next, local) && Preferred(next, e, local) {
        PreferenceIsTransitive(best, next, e, local);
      }
    }
    assert forall e :: e in seen + [next] <==> e in seen || e == next;
  }

  /** `max(group, key=...)`: the first of the greatest. */
  method BestOf(group: seq<Evidence>, local: Option<string>) returns (best: Evidence)
    requires group != []
    ensures best in group
    ensures Unbeaten(best, group, local)
  {
    best := group[0];
    PreferenceIsTotal(best, best, local);
    var i := 1;
    while i < |group|
      invariant 1 <= i <= |group|
      invariant best in group
      invariant Unbeaten(best, group[..i], local)
    {
      UnbeatenStep(group[..i], best, group[i], local);
      assert group[..i + 1] == group[..i] + [group[i]];
      if Preferred(best, group[i], local) {
        best := group[i];
      }
      i := i + 1;
    }
    assert group[..i] == group;
  }

  /** The least of some groups. */
  method LeastGroup(groups: set<Group>) returns (least: Group)
    requires groups != {}
    ensures least in groups
    ensures forall g | g in groups && g != least :: GroupLess(least, g)
  {
    least :| least in groups;
    var pending := groups - {least};
    while pending != {}
      invariant pending <= groups && least in groups && least !in pending
      invariant forall g | g in groups && g !in pending && g != least :: GroupLess(least, g)
      decreases |pending|
    {
      var g :| g in pending;
      GroupOrder(least, g);
      if GroupLess(g, least) {
        forall other | other in groups && other !in pending && other != least
          ensures GroupLess(g, other)
        {
          GroupTransitive(g, least, other);
        }
        least := g;
      }
      pending := pending - {g};
    }
  }

  /** The candidates by group, each group in the order they came. */
  method GroupCandidates(candidates: seq<Evidence>) returns (grouped: map<Group, seq<Evidence>>)
    ensures forall g | g in grouped :: grouped[g] != []
    ensures forall e :: e in candidates <==> GroupOf(e) in grouped && e in grouped[GroupOf(e)]
    ensures forall g, e | g in grouped && e in grouped[g] :: GroupOf(e) == g
  {
    grouped := map[];
    var i := 0;
    while i < |candidates|
      invariant 0 <= i <= |candidates|
      invariant forall g | g in grouped :: grouped[g] != []
      invariant forall e :: e in candidates[..i] <==> GroupOf(e) in grouped && e in grouped[GroupOf(e)]
      invariant forall g, e | g in grouped && e in grouped[g] :: GroupOf(e) == g
    {
      var candidate := candidates[i];
      var g := GroupOf(candidate);
      assert candidates[..i + 1] == candidates[..i] + [candidate];
      grouped := grouped[g := (if g in grouped then grouped[g] else []) + [candidate]];
      i := i + 1;
    }
    assert candidates[..i] == candidates;
  }

  /** At most one row per group, chosen and never merged, in the order of the groups. */
  method CollapseEvidence(candidates: seq<Evidence>, local: Option<string>) returns (selected: seq<Evidence>)
    ensures IsCollapse(Members(candidates), local, selected)
  {
    var grouped := GroupCandidates(candidates);
    ghost var all := Members(candidates);
    selected := [];
    var pending := grouped.Keys;
    while pending != {}
      invariant pending <= grouped.Keys
      invariant InGroupOrder(selected)
      invariant forall e | e in selected :: IsBest(all, local, e)
      invariant forall e, g | e in selected && g in pending :: GroupLess(GroupOf(e), g)
      invariant forall g | g in grouped && g !in pending :: Represented(selected, g)
      decreases |pending|
    {
      var g := LeastGroup(pending);
      var best := BestOf(grouped[g], local);
      assert GroupOf(best) == g && best in candidates;
      assert IsBest(all, local, best);
      ghost var before := selected;
      selected := selected + [best];
      Extended(before, best, grouped.Keys, pending, g);
      pending := pending - {g};
    }
  }

  lemma Extended(selected: seq<Evidence>, best: Evidence, groups: set<Group>, pending: set<Group>, g: Group)
    requires GroupOf(best) == g && g in pending && pending <= groups
    requires forall other | other in groups && other !in pending :: Represented(selected, other)
    ensures forall other | other in groups && other !in pending - {g} :: Represented(selected + [best], other)
    ensures forall e :: e in selected + [best] <==> e in selected || e == best
  {
    forall other | other in groups && other !in pending - {g}
      ensures Represented(selected + [best], other)
    {
      if other == g {
        assert best in selected + [best];
      } else {
        assert Represented(selected, other);
        var e :| e in selected && GroupOf(e) == other;
        assert e in selected + [best];
      }
    }
  }

  // ------------------------------------------------------------------ the routing signals

  /** `user.<slug>` with a slug. */
  predicate IsUserCapability(capability: string) {
    |capability| > 5 && capability[..5] == "user."
  }

  /** A `user.*` capability influences routing only when the task profile names it. */
  predicate WeightsAdmit(capability: string, weights: set<string>) {
    IsUserCapability(capability) ==> capability in weights
  }

  datatype Subject = Subject(model: ModelId, adapter: string)

  predicate Admitted(e: Evidence, weights: set<string>) {
    e.row.state == Bound && e.row.modelId.Some? && WeightsAdmit(e.key.capability, weights)
  }

  function SubjectOf(e: Evidence): Subject
    requires e.row.modelId.Some?
  {
    Subject(e.row.modelId.value, if e.row.adapterId.None? then "" else e.row.adapterId.value)
  }

  function SubjectRows(rows: seq<Evidence>, weights: set<string>, subject: Subject): set<Evidence> {
    set e | e in rows && Admitted(e, weights) && SubjectOf(e) == subject
  }

  /** A routing input; every number in it is one a single stored row carried. */
  datatype Signal = Signal(
    capability: string,
    score: real,
    confidence: real,
    profile: string,
    machine: string,
    measuredAt: Instant,
    samples: nat,
    ageDays: nat,
    stale: bool,
    staleReason: Option<string>)

  function AgeDays(measuredAt: Instant, now: Instant): nat {
    var days := ((now - measuredAt) / 86400.0).Floor;
    if days > 0 then days else 0
  }

  function SignalOf(e: Evidence, now: Instant): Signal {
    Signal(e.key.capability, e.row.content.score, e.row.content.confidence, e.key.profile, e.key.machine,
           e.row.measuredAt, e.row.content.samples, AgeDays(e.row.measuredAt, now), e.row.stale, e.row.staleReason)
  }

  function SignalsOf(selected: seq<Evidence>, now: Instant): (signals: seq<Signal>)
    ensures |signals| == |selected|
  {
    seq(|selected|, i requires 0 <= i < |selected| => SignalOf(selected[i], now))
  }

  /** `signals` are what a subject's admitted rows collapse to. */
  ghost predicate Explains(rows: seq<Evidence>, weights: set<string>, local: Option<string>, now: Instant,
                           subject: Subject, signals: seq<Signal>) {
    exists selected :: IsCollapse(SubjectRows(rows, weights, subject), local, selected)
      && signals == SignalsOf(selected, now)
  }

  /** The admitted rows of each subject that has one. */
  method PerSubject(rows: seq<Evidence>, weights: set<string>) returns (per: map<Subject, seq<Evidence>>)
    ensures forall subject :: subject in per <==> SubjectRows(rows, weights, subject) != {}
    ensures forall subject | subject in per :: Members(per[subject]) == SubjectRows(rows, weights, subject)
  {
    per := map[];
    var i := 0;
    while i < |rows|
      invariant 0 <= i <= |rows|
      invariant forall subject | subject in per :: per[subject] != []
      invariant forall e :: e in rows[..i] && Admitted(e, weights) ==> SubjectOf(e) in per && e in per[SubjectOf(e)]
      invariant forall subject, e | subject in per && e in per[subject] ::
        e in rows[..i] && Admitted(e, weights) && SubjectOf(e) == subject
    {
      var e := rows[i];
      assert rows[..i + 1] == rows[..i] + [e];
      if Admitted(e, weights) {
        var subject := SubjectOf(e);
        per := per[subject := (if subject in per then per[subject] else []) + [e]];
      }
      i := i + 1;
    }
    assert rows[..i] == rows;
    forall subject
      ensures subject in per <==> SubjectRows(rows, weights, subject) != {}
      ensures subject in per ==> Members(per[subject]) == SubjectRows(rows, weights, subject)
    {
      if subject in per {
        assert per[subject][0] in SubjectRows(rows, weights, subject);
      }
    }
  }

  /** The signals of every subject with bound, admitted evidence; other subjects have no entry. */
  method BoundSignals(rows: seq<Evidence>, weights: set<string>, now: Instant, local: Option<string>)
    returns (signals: map<Subject, seq<Signal>>)
    ensures forall subject :: subject in signals <==> SubjectRows(rows, weights, subject) != {}
    ensures forall subject | subject in signals :: Explains(rows, weights, local, now, subject, signals[subject])
  {
    var per := PerSubject(rows, weights);
    signals := map[];
    var pending := per.Keys;
    while pending != {}
      invariant pending <= per.Keys
      invariant signals.Keys == per.Keys - pending
      invariant forall subject | subject in signals :: Explains(rows, weights, local, now, subject, signals[subject])
      decreases |pending|
    {
      var subject :| subject in pending;
      var selected := CollapseEvidence(per[subject], local);
      signals := signals[subject := SignalsOf(selected, now)];
      pending := pending - {subject};
    }
  }

  // ------------------------------------------------------------------ isolation

  /** The signals of a subject depend on its admitted rows, and on nothing else in the table. */
  lemma SignalsAreIsolated(rows: seq<Evidence>, others: seq<Evidence>, weights: set<string>, otherWeights: set<string>,
                           local: Option<string>, now: Instant, subject: Subject, a: seq<Signal>, b: seq<Signal>)
    requires UniqueIds(SubjectRows(rows, weights, subject))
    requires SubjectRows(rows, weights, subject) == SubjectRows(others, otherWeights, subject)
    requires Explains(rows, weights, local, now, subject, a)
    requires Explains(others, otherWeights, local, now, subject, b)
    ensures a == b
  {
    var x :| IsCollapse(SubjectRows(rows, weights, subject), local, x) && a == SignalsOf(x, now);
    var y :| IsCollapse(SubjectRows(others, otherWeights, subject), local, y) && b == SignalsOf(y, now);
    OneCollapse(SubjectRows(rows, weights, subject), local, x, y);
  }

  /** Neither the order of the rows, nor unbound rows, nor `user.*` rows the profile does not name,
      nor rows of other subjects change what a subject's evidence is. */
  lemma UnrelatedRowsDoNotMatter(rows: seq<Evidence>, more: seq<Evidence>, weights: set<string>, subject: Subject)
    requires forall e | e in rows :: e in more
    requires forall e | e in more && e !in rows ::
      || e.row.state != Bound
      || (IsUserCapability(e.key.capability) && e.key.capability !in weights)
      || (e.row.modelId.Some? && SubjectOf(e) != subject)
    ensures SubjectRows(more, weights, subject) == SubjectRows(rows, weights, subject)
  {
  }

  /** Naming a `user.*` capability in the profile admits its rows, and changes nothing else. */
  lemma NamingAdmits(rows: seq<Evidence>, weights: set<string>, capability: string, subject: Subject)
    ensures SubjectRows(rows, weights + {capability}, subject)
         == SubjectRows(rows, weights, subject)
            + set e | e in SubjectRows(rows, {capability}, subject) && e.key.capability == capability
  {
  }

  /** Each signal is one stored row: bound, of that subject, and preferred to every other row of its
      capability and profile. */
  lemma SignalsAreStoredRows(rows: seq<Evidence>, weights: set<string>, local: Option<string>, now: Instant,
                             subject: Subject, signals: seq<Signal>, i: nat)
    returns (e: Evidence)
    requires Explains(rows, weights, local, now, subject, signals) && i < |signals|
    ensures e in rows && Admitted(e, weights) && SubjectOf(e) == subject && signals[i] == SignalOf(e, now)
    ensures forall other | other in rows && Admitted(other, weights) && SubjectOf(other) == subject
                           && GroupOf(other) == GroupOf(e) && other.id != e.id :: Preferred(other, e, local)
  {
    var selected :| IsCollapse(SubjectRows(rows, weights, subject), local, selected)
      && signals == SignalsOf(selected, now);
    e := selected[i];
    assert IsBest(SubjectRows(rows, weights, subject), local, e);
    forall other | other in rows && Admitted(other, weights) && SubjectOf(other) == subject
                   && GroupOf(other) == GroupOf(e) && other.id != e.id
      ensures Preferred(other, e, local)
    {
      PreferenceIsTotal(e, other, local);
    }
  }
}
