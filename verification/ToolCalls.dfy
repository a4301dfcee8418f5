/** Reassembling streamed tool calls: one call per index, whatever the interleaving of the deltas. */
module ToolCalls {
  import opened Wrappers
  import opened Orders
  import Validation

  /** One delta. A missing id, name or argument text is empty; a missing index is 0. */
  datatype Fragment = Fragment(index: int, id: string, name: string, text: string)

  /** A call being put together. */
  datatype Parts = Parts(id: Option<string>, name: Option<string>, text: string)

  /** The argument text as JSON where it parses, and as the text where it does not. */
  datatype Arguments = Parsed(json: Validation.Json) | Raw(text: string)

  datatype Call = Call(index: int, id: Option<string>, name: Option<string>, arguments: Arguments)

  /** `json.loads`, or nothing when the text does not parse. */
  type Loads = string -> Option<Validation.Json>

  /** No text at all stands for no arguments. */
  function ParsedArguments(text: string, loads: Loads): Arguments {
    if text == "" then Parsed(Validation.Obj([]))
    else
      var parsed := loads(text);
      if parsed.Some? then Parsed(parsed.value) else Raw(text)
  }

  // ------------------------------------------------------------------ what a call is made of

  /** The deltas of one call, in the order they arrived. */
  function OfIndex(fragments: seq<Fragment>, index: int): seq<Fragment> {
    if fragments == [] then []
    else
      var last := fragments[|fragments| - 1];
      OfIndex(fragments[..|fragments| - 1], index) + (if last.index == index then [last] else [])
  }

  /** The first that is not empty. */
  function FirstOf(texts: seq<string>): Option<string> {
    if texts == [] then None
    else if texts[0] != "" then Some(texts[0])
    else FirstOf(texts[1..])
  }

  function Joined(texts: seq<string>): string {
    if texts == [] then "" else texts[0] + Joined(texts[1..])
  }

  function Ids(fragments: seq<Fragment>): (ids: seq<string>)
    ensures |ids| == |fragments|
  {
    seq(|fragments|, i requires 0 <= i < |fragments| => fragments[i].id)
  }

  function Names(fragments: seq<Fragment>): (names: seq<string>)
    ensures |names| == |fragments|
  {
    seq(|fragments|, i requires 0 <= i < |fragments| => fragments[i].name)
  }

  function Texts(fragments: seq<Fragment>): (texts: seq<string>)
    ensures |texts| == |fragments|
  {
    seq(|fragments|, i requires 0 <= i < |fragments| => fragments[i].text)
  }

  /** The first id and name that are not and every piece of the text in order. */
  function PartsOf(fragments: seq<Fragment>): Parts {
    Parts(FirstOf(Ids(fragments)), FirstOf(Names(fragments)), Joined(Texts(fragments)))
  }

  function CallOf(index: int, parts: Parts, loads: Loads): Call {
    Call(index, parts.id, parts.name, ParsedArguments(parts.text, loads))
  }

  predicate EarlierIndex(a: Call, b: Call) {
    a.index < b.index
  }

  ghost predicate Assembles(fragments: seq<Fragment>, calls: seq<Call>, loads: Loads) {
    && (forall i, j | 0 <= i < j < |calls| :: EarlierIndex(calls[i], calls[j]))
    && forall c ::
         c in calls <==>
           OfIndex(fragments, c.index) != [] && c == CallOf(c.index, PartsOf(OfIndex(fragments, c.index)), loads)
  }

  /** Only each call's own deltas, in their own order, matter: any two interleavings of the same
      deltas assemble to the same calls. */
  lemma InterleavingDoesNotMatter(a: seq<Fragment>, b: seq<Fragment>, x: seq<Call>, y: seq<Call>, loads: Loads)
    requires forall index :: OfIndex(a, index) == OfIndex(b, index)
    requires Assembles(a, x, loads) && Assembles(b, y, loads)
    ensures x == y
  {
    var less := (p: Call, q: Call) => EarlierIndex(p, q);
    forall c
      ensures c in x <==> c in y
    {
      assert OfIndex(a, c.index) == OfIndex(b, c.index);
    }
    OneOrder(x, y, less);
  }

  // ------------------------------------------------------------------ the columns of a call

  /** The text is what `k` carries, and nothing before `k` carries any. */
  predicate FirstGiven(texts: seq<string>, k: nat, text: string) {
    k < |texts| && texts[k] == text != "" && forall m | 0 <= m < k :: texts[m] == ""
  }

  lemma {:induction false} FirstOfInWords(texts: seq<string>)
    ensures FirstOf(texts).None? <==> forall k | 0 <= k < |texts| :: texts[k] == ""
    ensures FirstOf(texts).Some? ==> exists k :: FirstGiven(texts, k, FirstOf(texts).value)
  {
    if texts != [] {
      FirstOfInWords(texts[1..]);
      if texts[0] != "" {
        assert FirstGiven(texts, 0, texts[0]);
      } else if FirstOf(texts).Some? {
        var k: nat :| FirstGiven(texts[1..], k, FirstOf(texts).value);
        assert FirstGiven(texts, k + 1, FirstOf(texts).value);
      }
    }
  }

  /** Joining cuts anywhere, and one text is itself. */
  lemma {:induction false} JoinedInWords(a: seq<string>, b: seq<string>, text: string)
    ensures Joined(a + b) == Joined(a) + Joined(b) && Joined([text]) == text && Joined([]) == ""
  {
    if a == [] {
      assert [] + b == b;
    } else {
      assert (a + b)[1..] == a[1..] + b;
      JoinedInWords(a[1..], b, text);
    }
    assert [text][1..] == [];
  }

  /** A call's id is the first that any of its deltas carries, and so is its name; its arguments are what the
      joined text parses to, the text itself where it does not parse, and no arguments where there is none. */
  lemma CallsInWords(fragments: seq<Fragment>, calls: seq<Call>, loads: Loads, c: Call)
    requires Assembles(fragments, calls, loads) && c in calls
    ensures var own := OfIndex(fragments, c.index);
            && own != []
            && (c.id == None <==> forall f | f in own :: f.id == "")
            && (c.id.Some? ==> exists k :: FirstGiven(Ids(own), k, c.id.value))
            && (c.name == None <==> forall f | f in own :: f.name == "")
            && (c.name.Some? ==> exists k :: FirstGiven(Names(own), k, c.name.value))
            && var text := Joined(Texts(own));
               c.arguments == if text == "" then Parsed(Validation.Obj([]))
                              else match loads(text) case Some(json) => Parsed(json) case None => Raw(text)
  {
    var own := OfIndex(fragments, c.index);
    FirstOfInWords(Ids(own));
    FirstOfInWords(Names(own));
    assert forall k | 0 <= k < |own| :: Ids(own)[k] == own[k].id && Names(own)[k] == own[k].name;
  }

  /** The deltas of a call are those with its index, in the order they came: putting one more after the others
      adds it to its own call alone. */
  lemma OwnDeltas(fragments: seq<Fragment>, f: Fragment, index: int)
    ensures OfIndex([], index) == []
    ensures OfIndex(fragments + [f], index)
         == if f.index == index then OfIndex(fragments, index) + [f] else OfIndex(fragments, index)
  {
    assert (fragments + [f])[..|fragments|] == fragments;
  }

  // ------------------------------------------------------------------ adding one delta

  lemma {:induction false} FirstOfAppend(texts: seq<string>, last: string)
    ensures FirstOf(texts + [last])
         == if FirstOf(texts).Some? then FirstOf(texts) else if last != "" then Some(last) else None
  {
    if texts != [] {
      assert (texts + [last])[1..] == texts[1..] + [last];
      FirstOfAppend(texts[1..], last);
    }
  }

  lemma {:induction false} JoinedAppend(texts: seq<string>, last: string)
    ensures Joined(texts + [last]) == Joined(texts) + last
  {
    if texts == [] {
      assert [] + [last] == [last] && [last][1..] == [];
    } else {
      assert (texts + [last])[1..] == texts[1..] + [last];
      JoinedAppend(texts[1..], last);
    }
  }

  function Extended(parts: Parts, f: Fragment): Parts {
    Parts(
      if parts.id.None? && f.id != "" then Some(f.id) else parts.id,
      if parts.name.None? && f.name != "" then Some(f.name) else parts.name,
      parts.text + f.text)
  }

  const NO_PARTS := Parts(None, None, "")

  lemma PartsOfAppend(fragments: seq<Fragment>, f: Fragment)
    ensures PartsOf(fragments + [f]) == Extended(PartsOf(fragments), f)
    ensures PartsOf([]) == NO_PARTS
  {
    assert Ids(fragments + [f]) == Ids(fragments) + [f.id];
    assert Names(fragments + [f]) == Names(fragments) + [f.name];
    assert Texts(fragments + [f]) == Texts(fragments) + [f.text];
    FirstOfAppend(Ids(fragments), f.id);
    FirstOfAppend(Names(fragments), f.name);
    JoinedAppend(Texts(fragments), f.text);
  }

  // ------------------------------------------------------------------ the assembly

  /** The dictionary after some fragments: one entry per index among them. */
  ghost predicate GroupsAt(fragments: seq<Fragment>, grouped: map<int, Parts>, index: int) {
    && (index in grouped <==> OfIndex(fragments, index) != [])
    && (index in grouped ==> grouped[index] == PartsOf(OfIndex(fragments, index)))
  }

  lemma GroupsStep(fragments: seq<Fragment>, grouped: map<int, Parts>, f: Fragment, index: int)
    requires GroupsAt(fragments, grouped, index) && GroupsAt(fragments, grouped, f.index)
    ensures var was := if f.index in grouped then grouped[f.index] else NO_PARTS;
            GroupsAt(fragments + [f], grouped[f.index := Extended(was, f)], index)
  {
    assert (fragments + [f])[..|fragments|] == fragments;
    if f.index == index {
      PartsOfAppend(OfIndex(fragments, index), f);
    } else {
      assert OfIndex(fragments + [f], index) == OfIndex(fragments, index);
    }
  }

  method GroupFragments(fragments: seq<Fragment>) returns (grouped: map<int, Parts>)
    ensures forall index :: GroupsAt(fragments, grouped, index)
  {
    grouped := map[];
    var i := 0;
    while i < |fragments|
      invariant 0 <= i <= |fragments|
      invariant forall index :: GroupsAt(fragments[..i], grouped, index)
    {
      var f := fragments[i];
      assert fragments[..i + 1] == fragments[..i] + [f];
      var call := if f.index in grouped then grouped[f.index] else NO_PARTS;
      ghost var before, grown := grouped, grouped[f.index := Extended(call, f)];
      if f.id != "" && call.id.None? {
        call := call.(id := Some(f.id));
      }
      if f.name != "" && call.name.None? {
        call := call.(name := Some(f.name));
      }
      call := call.(text := call.text + f.text);
      grouped := grouped[f.index := call];
      assert grouped == grown;
      ghost var longer := fragments[..i + 1];
      forall index
        ensures GroupsAt(longer, grown, index)
      {
        assert GroupsAt(fragments[..i], before, index) && GroupsAt(fragments[..i], before, f.index);
        GroupsStep(fragments[..i], before, f, index);
      }
      i := i + 1;
    }
    assert fragments[..i] == fragments;
  }

  lemma SomeMember(numbers: set<int>)
    requires numbers != {}
    ensures exists n :: n in numbers
  {
    assert (forall n :: n !in numbers) ==> numbers == {};
  }

  /** The least of some numbers. */
  method LeastOf(numbers: set<int>) returns (least: int)
    requires numbers != {}
    ensures least in numbers && forall n | n in numbers :: least <= n
  {
    SomeMember(numbers);
    least :| least in numbers;
    var pending := numbers - {least};
    while pending != {}
      invariant pending <= numbers && least in numbers
      invariant forall n | n in numbers && n !in pending :: least <= n
      decreases |pending|
    {
      SomeMember(pending);
      var n :| n in pending;
      if n < least {
        least := n;
      }
      pending := pending - {n};
    }
  }

  /** One call per index, in the order of the indices. */
  method AssembleToolCalls(fragments: seq<Fragment>, loads: Loads) returns (assembled: seq<Call>)
    ensures Assembles(fragments, assembled, loads)
  {
    var grouped := GroupFragments(fragments);
    assembled := [];
    var pending := grouped.Keys;
    while pending != {}
      invariant pending <= grouped.Keys
      invariant forall i, j | 0 <= i < j < |assembled| :: EarlierIndex(assembled[i], assembled[j])
      invariant forall c, n | c in assembled && n in pending :: c.index < n
      invariant forall c ::
        c in assembled <==> c.index in grouped && c.index !in pending && c == CallOf(c.index, grouped[c.index], loads)
      decreases |pending|
    {
      var index := LeastOf(pending);
      var call := CallOf(index, grouped[index], loads);
      assert forall c :: c in assembled + [call] <==> c in assembled || c == call;
      assembled := assembled + [call];
      pending := pending - {index};
    }
    forall c
      ensures c in assembled <==>
        OfIndex(fragments, c.index) != [] && c == CallOf(c.index, PartsOf(OfIndex(fragments, c.index)), loads)
    {
      assert GroupsAt(fragments, grouped, c.index);
    }
  }
}
