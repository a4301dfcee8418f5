/** Which row of a group routing sees, and what it sees of it, said of the rows' columns. */
module EvidenceChoice {
  import opened Wrappers
  import opened EvidenceBinding
  import opened EvidenceStore
  import opened EvidenceSignals
  import opened Orders

  // ------------------------------------------------------------------ the order of versions

  /** The sequences agree up to `k`, where the first one ends or has the smaller number. */
  predicate SmallerAt(a: seq<int>, b: seq<int>, k: nat) {
    k <= |a| && k < |b| && a[..k] == b[..k] && (k == |a| || a[k] < b[k])
  }

  ghost predicate Smaller(a: seq<int>, b: seq<int>) {
    exists k :: SmallerAt(a, b, k)
  }

  lemma SameHeads(a: seq<int>, b: seq<int>)
    ensures forall k: nat | SmallerAt(a, b, k) && k > 0 :: a[0] == b[0]
  {
    forall k: nat | SmallerAt(a, b, k) && k > 0
      ensures a[0] == b[0]
    {
      assert a[..k][0] == b[..k][0];
    }
  }

  /** The lexicographic order is decided at the first difference. */
  lemma {:induction false} LexByFirstDifference(a: seq<int>, b: seq<int>)
    ensures LexLess(a, b) <==> Smaller(a, b)
  {
    if a == [] || b == [] || a[0] != b[0] {
      if LexLess(a, b) {
        assert SmallerAt(a, b, 0);
      }
      SameHeads(a, b);
    } else {
      LexByFirstDifference(a[1..], b[1..]);
      if k: nat :| SmallerAt(a[1..], b[1..], k) {
        assert a[..k + 1] == [a[0]] + a[1..][..k] && b[..k + 1] == [b[0]] + b[1..][..k];
        assert SmallerAt(a, b, k + 1);
      }
      if k: nat :| SmallerAt(a, b, k) {
        assert a[1..][..k - 1] == a[..k][1..] && b[1..][..k - 1] == b[..k][1..];
        assert SmallerAt(a[1..], b[1..], k - 1);
      }
    }
  }

  function Digit(d: nat): char
    requires d < 10
  {
    ('0' as int + d) as char
  }

  function Decimal(n: nat): (text: string)
    ensures text != "" && forall i | 0 <= i < |text| :: '0' <= text[i] <= '9'
  {
    if n < 10 then [Digit(n)] else Decimal(n / 10) + [Digit(n % 10)]
  }

  lemma {:induction false} DecimalReadsBack(n: nat)
    ensures NumberOf(Decimal(n)) == n
  {
    if n >= 10 {
      DecimalReadsBack(n / 10);
      assert Decimal(n)[..|Decimal(n)| - 1] == Decimal(n / 10);
    } else {
      assert Decimal(n)[..0] == "";
    }
  }

  /** A dotted version. */
  function Dotted(numbers: seq<nat>): string
    requires numbers != []
  {
    if |numbers| == 1 then Decimal(numbers[0]) else Decimal(numbers[0]) + "." + Dotted(numbers[1..])
  }

  lemma {:induction false} SplitAtDot(part: string, rest: string)
    requires '.' !in part
    ensures Split(part) == [part] && Split(part + "." + rest) == [part] + Split(rest)
  {
    if part == "" {
      assert (part + "." + rest)[1..] == rest;
    } else {
      SplitAtDot(part[1..], rest);
      assert (part + "." + rest)[1..] == part[1..] + "." + rest;
      assert part == [part[0]] + part[1..];
    }
  }

  lemma NoDotInDecimal(n: nat)
    ensures '.' !in Decimal(n) && IsNumber(Decimal(n))
  {
  }

  lemma {:induction false} DottedReadsBack(numbers: seq<nat>)
    requires numbers != []
    ensures IsNumeric(Dotted(numbers)) && VersionNumbers(Dotted(numbers)) == numbers
  {
    var first := Decimal(numbers[0]);
    NoDotInDecimal(numbers[0]);
    DecimalReadsBack(numbers[0]);
    if |numbers| == 1 {
      SplitAtDot(first, "");
      assert NumbersOf([first]) == [numbers[0]] + NumbersOf([first][1..]);
    } else {
      var rest := Dotted(numbers[1..]);
      DottedReadsBack(numbers[1..]);
      SplitAtDot(first, rest);
      assert ([first] + Split(rest))[1..] == Split(rest);
      assert NumbersOf([first] + Split(rest)) == [numbers[0]] + NumbersOf(Split(rest));
    }
  }

  /** Dotted versions compare by their numbers, part by part; a version comes before its own extensions. */
  lemma DottedVersionsCompareByNumbers(a: seq<nat>, b: seq<nat>)
    requires a != [] && b != []
    ensures VersionLess(Dotted(a), Dotted(b)) <==> Smaller(a, b)
  {
    DottedReadsBack(a);
    DottedReadsBack(b);
    LexByFirstDifference(a, b);
    LexTotal(a, b);
    LexTotal(Codes(Dotted(a)), Codes(Dotted(b)));
  }

  lemma DottedPair(a: nat, b: nat)
    requires a < 10
    ensures Dotted([a, b]) == [Digit(a)] + "." + Decimal(b)
  {
    assert [a, b][1..] == [b];
  }

  lemma TwoVersions()
    ensures Dotted([1, 9]) == "1.9" && Dotted([1, 10]) == "1.10"
  {
    DottedPair(1, 9);
    DottedPair(1, 10);
    assert Decimal(10) == Decimal(1) + [Digit(0)];
  }

  /** So 1.9 comes before 1.10, although its text comes after. */
  lemma NineBeforeTen()
    ensures VersionLess("1.9", "1.10") && Smaller(Codes("1.10"), Codes("1.9"))
  {
    TwoVersions();
    assert SmallerAt([1, 9], [1, 10], 1);
    DottedVersionsCompareByNumbers([1, 9], [1, 10]);
    assert SmallerAt(Codes("1.10"), Codes("1.9"), 2);
  }

  /** Any two versions: a dotted-integer one is above any other; two of them compare by their numbers; and where
      that does not decide, the text does. */
  lemma VersionsInWords(a: string, b: string)
    ensures IsNumeric(a) && IsNumeric(b) && VersionNumbers(a) != VersionNumbers(b) ==>
      (VersionLess(a, b) <==> Smaller(VersionNumbers(a), VersionNumbers(b)))
    ensures IsNumeric(a) && IsNumeric(b) && VersionNumbers(a) == VersionNumbers(b) ==>
      (VersionLess(a, b) <==> Smaller(Codes(a), Codes(b)))
    ensures !IsNumeric(a) && !IsNumeric(b) ==> (VersionLess(a, b) <==> Smaller(Codes(a), Codes(b)))
    ensures IsNumeric(a) != IsNumeric(b) ==> (VersionLess(a, b) <==> IsNumeric(b))
  {
    LexByFirstDifference(VersionNumbers(a), VersionNumbers(b));
    LexByFirstDifference(Codes(a), Codes(b));
    LexTotal(VersionNumbers(a), VersionNumbers(b));
  }

  // ------------------------------------------------------------------ the selected row of a group

  /** Measured on this machine; without a machine of its own, every row is. */
  predicate Here(e: Evidence, local: Option<string>) {
    local.Some? ==> e.key.machine == local.value
  }

  /** Of the rows of one capability and profile: if one was measured here, the selected one was. Among rows equal
      in that none has a higher policy version, among those none was measured later, and among those none has a
      larger id. */
  lemma SelectionInWords(
    candidates: set<Evidence>, local: Option<string>, selected: seq<Evidence>, e: Evidence, other: Evidence)
    requires IsCollapse(candidates, local, selected) && e in selected && other in candidates
    requires other.key.capability == e.key.capability && other.key.profile == e.key.profile
    ensures e in candidates
    ensures Here(other, local) ==> Here(e, local)
    ensures Here(other, local) == Here(e, local) ==>
      && !VersionLess(e.key.policy, other.key.policy)
      && (other.key.policy == e.key.policy ==>
            && other.row.measuredAt <= e.row.measuredAt
            && (other.row.measuredAt == e.row.measuredAt ==> !Smaller(Codes(e.id), Codes(other.id))))
  {
    assert IsBest(candidates, local, e);
    assert GroupOf(other) == GroupOf(e);
    LexByFirstDifference(Codes(e.id), Codes(other.id));
  }

  ghost predicate SelectsFor(selected: seq<Evidence>, c: Evidence) {
    exists e :: e in selected && e.key.capability == c.key.capability && e.key.profile == c.key.profile
  }

  /** Every capability and profile with a candidate has one selected row, and they come by capability, then by
      profile. */
  lemma GroupsInWords(candidates: set<Evidence>, local: Option<string>, selected: seq<Evidence>)
    requires IsCollapse(candidates, local, selected)
    ensures forall c | c in candidates :: SelectsFor(selected, c)
    ensures forall i, j | 0 <= i < j < |selected| ::
      || Smaller(Codes(selected[i].key.capability), Codes(selected[j].key.capability))
      || (selected[i].key.capability == selected[j].key.capability
          && Smaller(Codes(selected[i].key.profile), Codes(selected[j].key.profile)))
  {
    forall c | c in candidates
      ensures SelectsFor(selected, c)
    {
      assert Represented(selected, GroupOf(c));
      var e :| e in selected && GroupOf(e) == GroupOf(c);
    }
    forall i, j | 0 <= i < j < |selected|
      ensures || Smaller(Codes(selected[i].key.capability), Codes(selected[j].key.capability))
              || (selected[i].key.capability == selected[j].key.capability
                  && Smaller(Codes(selected[i].key.profile), Codes(selected[j].key.profile)))
    {
      assert ComesBefore(selected[i], selected[j]);
      LexByFirstDifference(Codes(selected[i].key.capability), Codes(selected[j].key.capability));
      LexByFirstDifference(Codes(selected[i].key.profile), Codes(selected[j].key.profile));
    }
  }

  // ------------------------------------------------------------------ what routing sees of a row

  lemma UserCapabilityInWords(capability: string)
    ensures IsUserCapability(capability) <==> exists slug :: slug != "" && capability == "user." + slug
  {
    if IsUserCapability(capability) {
      assert capability == "user." + capability[5..];
    }
  }

  /** A subject's evidence is the bound rows of its model and adapter, without the user capabilities that the
      profile does not name. */
  lemma SubjectRowsInWords(rows: seq<Evidence>, weights: set<string>, subject: Subject, e: Evidence)
    ensures e in SubjectRows(rows, weights, subject) <==>
      && e in rows && e.row.state == Bound && e.row.modelId == Some(subject.model)
      && (e.row.adapterId == Some(subject.adapter) || (e.row.adapterId == None && subject.adapter == ""))
      && (e.key.capability in weights || !(exists slug :: slug != "" && e.key.capability == "user." + slug))
  {
    UserCapabilityInWords(e.key.capability);
  }

  /** A signal repeats its row, and adds its age in whole days; a measurement from the future is of today. */
  lemma SignalsInWords(rows: seq<Evidence>, weights: set<string>, local: Option<string>, now: Instant,
                       subject: Subject, signals: seq<Signal>, i: nat)
    returns (e: Evidence)
    requires Explains(rows, weights, local, now, subject, signals) && i < |signals|
    ensures e in SubjectRows(rows, weights, subject)
    ensures var s := signals[i];
            && s.capability == e.key.capability && s.profile == e.key.profile && s.machine == e.key.machine
            && s.score == e.row.content.score && s.confidence == e.row.content.confidence
            && s.samples == e.row.content.samples && s.measuredAt == e.row.measuredAt
            && s.stale == e.row.stale && s.staleReason == e.row.staleReason
            && (now < e.row.measuredAt ==> s.ageDays == 0)
            && (now >= e.row.measuredAt ==>
                  s.ageDays as real * 86400.0 <= now - e.row.measuredAt < (s.ageDays + 1) as real * 86400.0)
  {
    e := SignalsAreStoredRows(rows, weights, local, now, subject, signals, i);
    var days := (now - e.row.measuredAt) / 86400.0;
    assert days.Floor as real <= days < (days.Floor + 1) as real;
  }
}
