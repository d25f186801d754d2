/**
 * JSONConfigurationWriter: a configuration visitor that accumulates the
 * callbacks of one traversal into a JSON tree.  The stack of (name, map)
 * pairs is a sequence field whose last element is the top; push, peek and
 * pop are written out on it.  A callback that throws in the source
 * returns Threw here, after the changes the source makes before throwing.
 */
module ConfigurationWriter {
  import opened Outcomes
  import opened JsonValue
  import opened ValueEncoding
  import opened WriterSteps

  class JsonConfigurationWriter {
    var stack: seq<Frame>
    var result: Option<Json>

    /** The writer's state as a value. */
    function State(): WriterState
      reads this
    {
      WriterState(stack, result)
    }

    ghost predicate Valid()
      reads this
    {
      WellFormed(State())
    }

    constructor ()
      ensures Valid() && State() == Initial
    {
      stack := [];
      result := None;
    }

    /** begin(cls): discard any earlier result and stack; open the root node. */
    method Begin(typeName: string)
      requires Valid()
      modifies this
      ensures Valid()
      ensures result == None
      ensures stack == [Frame("", map["type" := JString(typeName)]), Frame("", map[])]
      ensures State() == Step(old(State()), Call.Begin(typeName)).state
    {
      result := None;
      stack := [];
      stack := stack + [WrapperFrame("", typeName)];
      stack := stack + [EmptyBody];
      BeginEstablishesWellFormed(typeName);
    }

    /**
     * item(name, value, metadata): store the encoding of value under name
     * in the top frame, replacing any earlier entry of that name.
     */
    method Item<M>(name: string, value: Value, metadata: M) returns (status: Status)
      requires Valid()
      modifies this
      ensures Valid()
      ensures Transition(State(), status) == Step(old(State()), Call.Item(name, value))
      ensures status.Completed? <==> |old(stack)| > 0 && Supported(value)
      ensures status.Threw? ==> stack == old(stack) && result == old(result)
      ensures status == Threw(EmptyStack) <==> |old(stack)| == 0
      ensures status.Completed? ==>
        && |stack| == |old(stack)|
        && stack[..|stack| - 1] == old(stack)[..|stack| - 1]
        && stack[|stack| - 1].name == old(stack)[|stack| - 1].name
        && stack[|stack| - 1].fields == old(stack)[|stack| - 1].fields[name := Encode(value).value]
        && result == old(result)
      ensures forall i :: 0 <= i < |stack| && i % 2 == 0 ==> stack[i] == old(stack)[i]
    {
      ghost var s := State();
      ItemPreservesWellFormed(s, name, value);
      if |stack| == 0 {
        return Threw(EmptyStack);
      }
      var top := stack[|stack| - 1];
      var encoded := Encode(value);
      if encoded.Err? {
        return Threw(encoded.fault);
      }
      stack := stack[|stack| - 1 := Put(top, name, encoded.value)];
      status := Completed;
    }

    /** beginSubConfiguration(name, cls, metadata): open a node to be stored under name. */
    method BeginSubConfiguration<M>(name: string, typeName: string, metadata: M)
      requires Valid()
      modifies this
      ensures Valid()
      ensures stack == old(stack) + [Frame(name, map["type" := JString(typeName)]), Frame("", map[])]
      ensures result == old(result)
      ensures State() == Step(old(State()), BeginSub(name, typeName)).state
    {
      BeginSubPreservesWellFormed(State(), name, typeName);
      stack := stack + [WrapperFrame(name, typeName)];
      stack := stack + [EmptyBody];
    }

    /**
     * endSubConfiguration(): close the innermost node and store it, as a
     * {type, body} object, in its parent's body under the node's name.
     */
    method EndSubConfiguration() returns (status: Status)
      requires Valid()
      modifies this
      ensures Valid()
      ensures Transition(State(), status) == Step(old(State()), EndSub)
      ensures status.Completed? <==> |old(stack)| >= 4
      ensures status.Threw? ==> status.fault == EmptyStack && stack == [] && result == old(result)
      ensures status.Completed? ==>
        var n := |old(stack)|;
        var wrapper := old(stack)[n - 2];
        && |stack| == n - 2
        && stack[..n - 3] == old(stack)[..n - 3]
        && stack[n - 3].name == old(stack)[n - 3].name
        && stack[n - 3].fields == old(stack)[n - 3].fields[wrapper.name := Fold(wrapper, old(stack)[n - 1])]
        && IsNode(Fold(wrapper, old(stack)[n - 1]))
        && result == old(result)
    {
      ghost var s := State();
      EndSubPreservesWellFormed(s);
      if |stack| == 0 {
        return Threw(EmptyStack);
      }
      var body := stack[|stack| - 1];
      stack := stack[..|stack| - 1];
      if |stack| == 0 {
        return Threw(EmptyStack);
      }
      stack := stack[|stack| - 1 := Put(stack[|stack| - 1], "body", JObject(body.fields))];
      var wrapper := stack[|stack| - 1];
      stack := stack[..|stack| - 1];
      if |stack| == 0 {
        return Threw(EmptyStack);
      }
      stack := stack[|stack| - 1 := Put(stack[|stack| - 1], wrapper.name, JObject(wrapper.fields))];
      status := Completed;
      assert IsWrapper(s.stack[|s.stack| - 2]) && IsBody(s.stack[|s.stack| - 1]);
      FoldIsNode(s.stack[|s.stack| - 2], s.stack[|s.stack| - 1]);
    }

    /** end(): close the root node; the {type, body} object becomes the result. */
    method End() returns (status: Status)
      requires Valid()
      modifies this
      ensures Valid()
      ensures Transition(State(), status) == Step(old(State()), Call.End)
      ensures status.Completed? <==> |old(stack)| >= 2
      ensures status.Threw? ==> status.fault == EmptyStack && stack == [] && result == old(result)
      ensures status.Completed? ==>
        var n := |old(stack)|;
        && stack == old(stack)[..n - 2]
        && result == Some(Fold(old(stack)[n - 2], old(stack)[n - 1]))
        && result.value.fields.Keys == {"type", "body"}
        && result.value.fields["type"] == old(stack)[n - 2].fields["type"]
        && result.value.fields["body"] == JObject(old(stack)[n - 1].fields)
    {
      ghost var s := State();
      EndPreservesWellFormed(s);
      if |stack| == 0 {
        return Threw(EmptyStack);
      }
      var body := stack[|stack| - 1];
      stack := stack[..|stack| - 1];
      if |stack| == 0 {
        return Threw(EmptyStack);
      }
      stack := stack[|stack| - 1 := Put(stack[|stack| - 1], "body", JObject(body.fields))];
      var top := stack[|stack| - 1];
      stack := stack[..|stack| - 1];
      result := Some(JObject(top.fields));
      status := Completed;
      assert IsWrapper(s.stack[|s.stack| - 2]) && IsBody(s.stack[|s.stack| - 1]);
      FoldIsNode(s.stack[|s.stack| - 2], s.stack[|s.stack| - 1]);
    }

    /** toJson(): the result, or "Writer not ended" while there is none. */
    method ToJson() returns (r: Result<Json>)
      requires Valid()
      ensures r.Ok? <==> result.Some?
      ensures r.Ok? ==> r.value == result.value && IsNode(r.value)
      ensures r.Err? ==> r.fault == NotEnded
    {
      if result.None? {
        return Err(NotEnded);
      }
      r := Ok(result.value);
    }
  }
}
