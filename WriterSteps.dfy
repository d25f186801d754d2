/**
 * The writer's state as a value, and what each visitor callback does to
 * it.  The stack is a sequence whose last element is the top; a node under
 * construction occupies two frames: a wrapper frame holding the node's
 * "type" field (named after the element the node will be stored under) and
 * a body frame above it collecting the node's elements.
 */
module WriterSteps {
  import opened Outcomes
  import opened JsonValue
  import opened ValueEncoding

  /** A stack entry: the pending element name and the fields gathered so far. */
  datatype Frame = Frame(name: string, fields: map<string, Json>)

  /** The stack (bottom first) and the result slot (None until end succeeds). */
  datatype WriterState = WriterState(stack: seq<Frame>, result: Option<Json>)

  /** The state after a callback, and whether the callback completed or threw. */
  datatype Transition = Transition(state: WriterState, status: Status)

  /** A visitor callback; the metadata argument is ignored by the writer and omitted. */
  datatype Call =
    | Begin(typeName: string)
    | Item(name: string, value: Value)
    | BeginSub(name: string, typeName: string)
    | EndSub
    | End

  /** The writer before any callback. */
  const Initial := WriterState([], None)

  /** The frame pushed first for a node: its "type" field, under the element name. */
  function WrapperFrame(name: string, typeName: string): Frame {
    Frame(name, map["type" := JString(typeName)])
  }

  /** The frame pushed second for a node: its body, still empty. */
  const EmptyBody := Frame("", map[])

  /** The encoded node made of a wrapper frame and the body frame above it. */
  function Fold(wrapper: Frame, body: Frame): Json {
    JObject(wrapper.fields["body" := JObject(body.fields)])
  }

  /** The frame f with key set to j (last write wins). */
  function Put(f: Frame, key: string, j: Json): Frame {
    Frame(f.name, f.fields[key := j])
  }

  // ---------------------------------------------------------------------
  // One function per callback.

  /** begin(cls): forget everything, then push the root's wrapper and body frames. */
  function BeginStep(typeName: string): (r: WriterState)
    ensures r.result.None? && |r.stack| == 2
    ensures IsWrapper(r.stack[0]) && r.stack[0].fields["type"] == JString(typeName)
    ensures IsBody(r.stack[1]) && r.stack[1].fields == map[]
  {
    WriterState([WrapperFrame("", typeName), EmptyBody], None)
  }

  /** item(name, value, metadata): peek, encode, store in the top frame. */
  function ItemStep(s: WriterState, name: string, v: Value): (r: Transition)
    ensures r.status.Completed? <==> |s.stack| > 0 && Supported(v)
    ensures r.status == Threw(EmptyStack) <==> |s.stack| == 0
    ensures r.status.Threw? ==> r.state == s
    ensures |r.state.stack| == |s.stack| && r.state.result == s.result
    ensures forall i :: 0 <= i < |s.stack| - 1 ==> r.state.stack[i] == s.stack[i]
    ensures r.status.Completed? ==> name in r.state.stack[|s.stack| - 1].fields
  {
    var n := |s.stack|;
    if n == 0 then Transition(s, Threw(EmptyStack))
    else
      match Encode(v)
      case Err(f) => Transition(s, Threw(f))
      case Ok(j) => Transition(WriterState(s.stack[n - 1 := Put(s.stack[n - 1], name, j)], s.result), Completed)
  }

  /** beginSubConfiguration(name, cls, metadata): push a named wrapper frame and a body frame. */
  function BeginSubStep(s: WriterState, name: string, typeName: string): (r: WriterState)
    ensures |r.stack| == |s.stack| + 2 && r.stack[..|s.stack|] == s.stack && r.result == s.result
    ensures r.stack[|s.stack|].name == name && IsWrapper(r.stack[|s.stack|])
    ensures r.stack[|s.stack|].fields["type"] == JString(typeName)
    ensures IsBody(r.stack[|s.stack| + 1]) && r.stack[|s.stack| + 1].fields == map[]
  {
    WriterState(s.stack + [WrapperFrame(name, typeName), EmptyBody], s.result)
  }

  /**
   * endSubConfiguration(): pop the body, fold it into the wrapper, pop the
   * wrapper and store the node in the new top frame.  With fewer than three
   * frames one of the pops or peeks throws, after the pops before it.
   */
  function EndSubStep(s: WriterState): (r: Transition)
    ensures r.status.Completed? <==> |s.stack| >= 3
    ensures r.status.Threw? ==> r.status.fault == EmptyStack && r.state.stack == []
    ensures r.state.result == s.result
    ensures r.status.Completed? ==>
      var n := |s.stack|;
      && |r.state.stack| == n - 2
      && r.state.stack[..n - 3] == s.stack[..n - 3]
      && r.state.stack[n - 3].name == s.stack[n - 3].name
      && s.stack[n - 2].name in r.state.stack[n - 3].fields
  {
    var n := |s.stack|;
    if n == 0 then Transition(s, Threw(EmptyStack))
    else if n <= 2 then Transition(WriterState([], s.result), Threw(EmptyStack))
    else
      var wrapper := s.stack[n - 2];
      var node := Fold(wrapper, s.stack[n - 1]);
      Transition(WriterState(s.stack[..n - 2][n - 3 := Put(s.stack[n - 3], wrapper.name, node)], s.result), Completed)
  }

  /** end(): as endSubConfiguration, but the node becomes the result. */
  function EndStep(s: WriterState): (r: Transition)
    ensures r.status.Completed? <==> |s.stack| >= 2
    ensures r.status.Threw? ==> r.status.fault == EmptyStack && r.state.stack == [] && r.state.result == s.result
    ensures r.status.Completed? ==>
      && r.state.stack == s.stack[..|s.stack| - 2]
      && r.state.result.Some? && r.state.result.value.JObject?
      && "body" in r.state.result.value.fields
      && r.state.result.value.fields["body"] == JObject(s.stack[|s.stack| - 1].fields)
  {
    var n := |s.stack|;
    if n == 0 then Transition(s, Threw(EmptyStack))
    else if n == 1 then Transition(WriterState([], s.result), Threw(EmptyStack))
    else Transition(WriterState(s.stack[..n - 2], Some(Fold(s.stack[n - 2], s.stack[n - 1]))), Completed)
  }

  /**
   * One callback.  Only begin and end touch the result; begin leaves two
   * frames, item keeps the depth, beginSubConfiguration adds two frames,
   * and endSubConfiguration or end, when they complete, remove two.
   */
  function Step(s: WriterState, c: Call): (r: Transition)
    ensures !c.Begin? && !c.End? ==> r.state.result == s.result
    ensures c.Begin? ==> r.status.Completed? && r.state.result.None? && |r.state.stack| == 2
    ensures c.End? && r.status.Completed? ==> r.state.result.Some?
    ensures c.Item? ==> |r.state.stack| == |s.stack|
    ensures c.BeginSub? ==> r.status.Completed? && |r.state.stack| == |s.stack| + 2
    ensures (c.EndSub? || c.End?) && r.status.Completed? ==> |r.state.stack| == |s.stack| - 2
    ensures r.status.Threw? ==> |r.state.stack| <= |s.stack|
  {
    match c
    case Begin(t) => Transition(BeginStep(t), Completed)
    case Item(name, v) => ItemStep(s, name, v)
    case BeginSub(name, t) => Transition(BeginSubStep(s, name, t), Completed)
    case EndSub => EndSubStep(s)
    case End => EndStep(s)
  }

  /**
   * A sequence of callbacks, stopping at the first that throws.  Without
   * begin or end among them, the result stays what it was.
   */
  function Run(s: WriterState, calls: seq<Call>): (r: Transition)
    ensures (forall i :: 0 <= i < |calls| ==> !calls[i].Begin? && !calls[i].End?) ==> r.state.result == s.result
    decreases |calls|
  {
    if calls == [] then Transition(s, Completed)
    else
      var t := Step(s, calls[0]);
      if t.status.Threw? then t else Run(t.state, calls[1..])
  }

  // ---------------------------------------------------------------------
  // The shape of what the writer builds.

  /** An element of a body: an encoded item or an encoded node. */
  predicate IsEntry(j: Json)
    decreases j, 1
  {
    IsItemEncoding(j) || IsNode(j)
  }

  /** An encoded node: exactly a string "type" and an object "body" of entries. */
  predicate IsNode(j: Json)
    decreases j, 0
  {
    && j.JObject?
    && j.fields.Keys == {"type", "body"}
    && j.fields["type"].JString?
    && j.fields["body"].JObject?
    && forall k :: k in j.fields["body"].fields ==> IsEntry(j.fields["body"].fields[k])
  }

  /** A wrapper frame holds exactly the node's "type" field. */
  predicate IsWrapper(f: Frame) {
    f.fields.Keys == {"type"} && f.fields["type"].JString?
  }

  /** A body frame is unnamed and holds only entries. */
  predicate IsBody(f: Frame) {
    f.name == "" && forall k :: k in f.fields ==> IsEntry(f.fields[k])
  }

  /**
   * The writer's invariant, whatever order the callbacks come in: the
   * stack alternates wrapper and body frames from the bottom, so its depth
   * is even, and a result, once there, is an encoded node.
   */
  predicate WellFormed(s: WriterState) {
    && |s.stack| % 2 == 0
    && (forall i :: 0 <= i < |s.stack| ==>
          if i % 2 == 0 then IsWrapper(s.stack[i]) else IsBody(s.stack[i]))
    && (s.result.Some? ==> IsNode(s.result.value))
  }

  lemma FoldIsNode(wrapper: Frame, body: Frame)
    requires IsWrapper(wrapper) && IsBody(body)
    ensures IsNode(Fold(wrapper, body))
    ensures Fold(wrapper, body).fields["type"] == wrapper.fields["type"]
    ensures Fold(wrapper, body).fields["body"] == JObject(body.fields)
  {
  }

  lemma BeginEstablishesWellFormed(t: string)
    ensures WellFormed(BeginStep(t))
  {
  }

  lemma ItemPreservesWellFormed(s: WriterState, name: string, v: Value)
    requires WellFormed(s)
    ensures WellFormed(ItemStep(s, name, v).state)
  {
    var n := |s.stack|;
    if n > 0 && Supported(v) {
      EncodingIsItem(v);
      var s' := ItemStep(s, name, v).state;
      assert (n - 1) % 2 == 1;
      assert IsBody(s'.stack[n - 1]);
      assert forall i :: 0 <= i < n - 1 ==> s'.stack[i] == s.stack[i];
    }
  }

  lemma BeginSubPreservesWellFormed(s: WriterState, name: string, t: string)
    requires WellFormed(s)
    ensures WellFormed(BeginSubStep(s, name, t))
  {
    var s' := BeginSubStep(s, name, t);
    assert forall i :: 0 <= i < |s.stack| ==> s'.stack[i] == s.stack[i];
  }

  lemma EndSubPreservesWellFormed(s: WriterState)
    requires WellFormed(s)
    ensures WellFormed(EndSubStep(s).state)
  {
    var n := |s.stack|;
    if n > 2 {
      assert IsWrapper(s.stack[n - 2]) && IsBody(s.stack[n - 1]);
      FoldIsNode(s.stack[n - 2], s.stack[n - 1]);
      assert IsBody(s.stack[n - 3]);
      var s' := EndSubStep(s).state;
      assert IsBody(s'.stack[n - 3]);
      assert forall i :: 0 <= i < n - 3 ==> s'.stack[i] == s.stack[i];
    }
  }

  lemma EndPreservesWellFormed(s: WriterState)
    requires WellFormed(s)
    ensures WellFormed(EndStep(s).state)
  {
    var n := |s.stack|;
    if n > 1 {
      assert IsWrapper(s.stack[n - 2]) && IsBody(s.stack[n - 1]);
      FoldIsNode(s.stack[n - 2], s.stack[n - 1]);
    }
  }

  /** Every callback keeps the invariant, even when it throws. */
  lemma StepPreservesWellFormed(s: WriterState, c: Call)
    requires WellFormed(s)
    ensures WellFormed(Step(s, c).state)
  {
    match c
    case Begin(t) => BeginEstablishesWellFormed(t);
    case Item(name, v) => ItemPreservesWellFormed(s, name, v);
    case BeginSub(name, t) => BeginSubPreservesWellFormed(s, name, t);
    case EndSub => EndSubPreservesWellFormed(s);
    case End => EndPreservesWellFormed(s);
  }

  /** Any sequence of callbacks keeps the invariant. */
  lemma {:induction false} RunPreservesWellFormed(s: WriterState, calls: seq<Call>)
    requires WellFormed(s)
    ensures WellFormed(Run(s, calls).state)
    decreases |calls|
  {
    if calls != [] {
      StepPreservesWellFormed(s, calls[0]);
      if Step(s, calls[0]).status.Completed? {
        RunPreservesWellFormed(Step(s, calls[0]).state, calls[1..]);
      }
    }
  }

  /**
   * An item only ever lands in a body frame: whatever its name, even
   * "type" or "body", no wrapper frame (and so no node's type) changes.
   */
  lemma ItemCannotClobberType(s: WriterState, name: string, v: Value)
    requires WellFormed(s)
    ensures var s' := ItemStep(s, name, v).state;
      |s'.stack| == |s.stack| &&
      forall i :: 0 <= i < |s.stack| && i % 2 == 0 ==> s'.stack[i] == s.stack[i]
  {
    var n := |s.stack|;
    if n > 0 {
      assert (n - 1) % 2 == 1;
    }
  }

  /**
   * Until end runs there is no result: from a state without one, callbacks
   * other than end never produce one, so toJson keeps failing.
   */
  lemma {:induction false} NoResultBeforeEnd(s: WriterState, calls: seq<Call>)
    requires s.result.None?
    requires forall i :: 0 <= i < |calls| ==> !calls[i].End?
    ensures Run(s, calls).state.result.None?
    decreases |calls|
  {
    if calls != [] {
      assert forall i :: 1 <= i < |calls| ==> calls[1..][i - 1] == calls[i];
      NoResultBeforeEnd(Step(s, calls[0]).state, calls[1..]);
    }
  }
}
