/**
 * What a whole traversal produces.  A configuration tree is linearised
 * into the callback sequence a walker emits for it (begin, then per
 * element an item or a balanced beginSubConfiguration ... end pair, then
 * end); the writer's stack machine run on that sequence yields the
 * {type, body} tree a direct recursion over the configuration gives.
 */
module Traversal {
  import opened Outcomes
  import opened JsonValue
  import opened ValueEncoding
  import opened WriterSteps

  /** A configuration: the qualified name of its type and its elements in visiting order. */
  datatype Configuration = Configuration(typeName: string, elements: seq<Element>)

  datatype Element =
    | ItemElement(name: string, value: Value)
    | SubConfiguration(name: string, config: Configuration)

  /** The callbacks a walker emits for one element. */
  function ElementCalls(e: Element): seq<Call>
    decreases e
  {
    match e
    case ItemElement(name, v) => [Item(name, v)]
    case SubConfiguration(name, c) => [BeginSub(name, c.typeName)] + ElementsCalls(c.elements) + [EndSub]
  }

  function ElementsCalls(es: seq<Element>): seq<Call>
    decreases es
  {
    if es == [] then [] else ElementCalls(es[0]) + ElementsCalls(es[1..])
  }

  /** The callbacks of a whole traversal of c. */
  function Walk(c: Configuration): seq<Call> {
    [Begin(c.typeName)] + ElementsCalls(c.elements) + [End]
  }

  /** Every item value anywhere in the tree can be encoded. */
  predicate Writable(c: Configuration)
    decreases c, 1
  {
    forall i :: 0 <= i < |c.elements| ==> ElementWritable(c.elements[i])
  }

  predicate ElementWritable(e: Element)
    decreases e, 0
  {
    match e
    case ItemElement(_, v) => Supported(v)
    case SubConfiguration(_, c) => Writable(c)
  }

  function Names(es: seq<Element>): set<string> {
    set i | 0 <= i < |es| :: es[i].name
  }

  /**
   * Reference encoding of a configuration, by recursion on the tree: its
   * type, and a body mapping each element name to the encoding of the last
   * element of that name.
   */
  function EncodeConfiguration(c: Configuration): (r: Result<Json>)
    ensures r.Ok? <==> Writable(c)
    ensures r.Ok? ==> IsNode(r.value) && r.value.fields["type"] == JString(c.typeName)
    ensures r.Ok? ==> r.value.fields["body"].fields.Keys == Names(c.elements)
    decreases c, 2
  {
    match EncodeBody(c.elements, map[])
    case Err(f) => Err(f)
    case Ok(body) => Ok(JObject(map["type" := JString(c.typeName), "body" := JObject(body)]))
  }

  function EncodeElement(e: Element): (r: Result<Json>)
    ensures r.Ok? <==> ElementWritable(e)
    ensures r.Ok? ==> IsEntry(r.value)
    decreases e, 1
  {
    match e
    case ItemElement(_, v) =>
      var r := Encode(v);
      // An encoding has item shape, so it is an entry of a body.
      if r.Ok? then
        EncodingIsItem(v);
        r
      else
        r
    case SubConfiguration(_, c) => EncodeConfiguration(c)
  }

  /** acc with the elements of es stored in order, last write winning. */
  function EncodeBody(es: seq<Element>, acc: map<string, Json>): (r: Result<map<string, Json>>)
    ensures r.Ok? <==> forall i :: 0 <= i < |es| ==> ElementWritable(es[i])
    ensures r.Ok? ==> r.value.Keys == acc.Keys + Names(es)
    ensures r.Ok? && (forall k :: k in acc ==> IsEntry(acc[k])) ==> forall k :: k in r.value ==> IsEntry(r.value[k])
    decreases es, 0
  {
    if es == [] then Ok(acc)
    else
      assert forall i :: 1 <= i < |es| ==> es[i] == es[1..][i - 1];
      assert Names(es) == {es[0].name} + Names(es[1..]) by {
        forall x | x in Names(es) ensures x in {es[0].name} + Names(es[1..]) {
          var i :| 0 <= i < |es| && es[i].name == x;
          if i > 0 { assert es[1..][i - 1].name == x; }
        }
      }
      match EncodeElement(es[0])
      case Err(f) => Err(f)
      case Ok(j) => EncodeBody(es[1..], acc[es[0].name := j])
  }

  // ---------------------------------------------------------------------
  // Running the stack machine.

  lemma {:induction false} RunAppend(s: WriterState, a: seq<Call>, b: seq<Call>)
    ensures Run(s, a + b) == if Run(s, a).status.Threw? then Run(s, a) else Run(Run(s, a).state, b)
    decreases |a|
  {
    if a != [] {
      assert (a + b)[1..] == a[1..] + b;
      RunAppend(Step(s, a[0]).state, a[1..], b);
    } else {
      assert a + b == b;
    }
  }

  /** The state after storing j under key in the top frame. */
  function PutTop(s: WriterState, key: string, j: Json): WriterState
    requires |s.stack| > 0
  {
    WriterState(s.stack[|s.stack| - 1 := Put(s.stack[|s.stack| - 1], key, j)], s.result)
  }

  /**
   * The callbacks of one element store its encoding under its name in the
   * top frame and leave every other frame and the result as they were; if
   * it cannot be encoded they throw that fault, and the result is untouched.
   */
  lemma {:induction false} RunElement(s: WriterState, e: Element)
    requires |s.stack| > 0
    ensures var r := Run(s, ElementCalls(e));
      match EncodeElement(e)
      case Ok(j) => r == Transition(PutTop(s, e.name, j), Completed)
      case Err(f) => r.status == Threw(f) && r.state.result == s.result
    decreases e, 1
  {
    match e
    case ItemElement(name, v) =>
    case SubConfiguration(name, c) => RunSubConfiguration(s, name, c);
  }

  lemma {:induction false} RunSubConfiguration(s: WriterState, name: string, c: Configuration)
    requires |s.stack| > 0
    ensures var r := Run(s, ElementCalls(SubConfiguration(name, c)));
      match EncodeConfiguration(c)
      case Ok(j) => r == Transition(PutTop(s, name, j), Completed)
      case Err(f) => r.status == Threw(f) && r.state.result == s.result
    decreases SubConfiguration(name, c), 0
  {
    var inner := ElementsCalls(c.elements);
    var s1 := BeginSubStep(s, name, c.typeName);
    var n := |s.stack|;
    assert ElementCalls(SubConfiguration(name, c)) == [BeginSub(name, c.typeName)] + (inner + [EndSub]);
    assert Run(s, ElementCalls(SubConfiguration(name, c))) == Run(s1, inner + [EndSub]);
    RunAppend(s1, inner, [EndSub]);
    RunElements(s1, c.elements);
    assert s1.stack[n + 1] == EmptyBody;
    match EncodeBody(c.elements, map[])
    case Err(f) =>
    case Ok(m) =>
      var s2 := Run(s1, inner).state;
      assert s2.stack == s.stack + [WrapperFrame(name, c.typeName), Frame("", m)];
      var node := Fold(WrapperFrame(name, c.typeName), Frame("", m));
      assert EndSubStep(s2) == Transition(PutTop(s, name, node), Completed);
      assert EncodeConfiguration(c) == Ok(node);
  }

  /** The callbacks of a sequence of elements fold their encodings into the top frame. */
  lemma {:induction false} RunElements(s: WriterState, es: seq<Element>)
    requires |s.stack| > 0
    ensures var r := Run(s, ElementsCalls(es)); var top := s.stack[|s.stack| - 1];
      match EncodeBody(es, top.fields)
      case Ok(m) => r == Transition(WriterState(s.stack[|s.stack| - 1 := Frame(top.name, m)], s.result), Completed)
      case Err(f) => r.status == Threw(f) && r.state.result == s.result
    decreases es
  {
    var n := |s.stack|;
    if es == [] {
      assert s.stack[n - 1 := s.stack[n - 1]] == s.stack;
    } else {
      RunAppend(s, ElementCalls(es[0]), ElementsCalls(es[1..]));
      RunElement(s, es[0]);
      match EncodeElement(es[0])
      case Err(f) =>
      case Ok(j) =>
        var s1 := PutTop(s, es[0].name, j);
        RunElements(s1, es[1..]);
    }
  }

  /**
   * A whole traversal of c, from any state of the writer, ends with an
   * empty stack and the encoding of c as the result; if an item of c cannot
   * be encoded, the traversal throws that fault and there is no result.
   */
  lemma WalkWritesEncoding(s: WriterState, c: Configuration)
    ensures var r := Run(s, Walk(c));
      match EncodeConfiguration(c)
      case Ok(j) => r == Transition(WriterState([], Some(j)), Completed)
      case Err(f) => r.status == Threw(f) && r.state.result == None
  {
    var s0 := BeginStep(c.typeName);
    var body := ElementsCalls(c.elements);
    assert Walk(c) == [Begin(c.typeName)] + (body + [End]);
    assert Run(s, Walk(c)) == Run(s0, body + [End]);
    RunAppend(s0, body, [End]);
    RunElements(s0, c.elements);
  }

  /** The writer's result after a traversal is a node whose type is c's, even when an element is named "type". */
  lemma WalkResultHasType(s: WriterState, c: Configuration)
    requires Writable(c)
    ensures Run(s, Walk(c)).status.Completed?
    ensures var r := Run(s, Walk(c)).state.result;
      r.Some? && IsNode(r.value) && r.value.fields["type"] == JString(c.typeName)
      && r.value.fields["body"].fields.Keys == Names(c.elements)
  {
    WalkWritesEncoding(s, c);
  }

  // ---------------------------------------------------------------------
  // Depth during a traversal.

  /** No prefix of one element's callbacks takes the stack below where it started. */
  lemma {:induction false} ElementDepth(s: WriterState, e: Element, k: nat)
    requires |s.stack| > 0 && k <= |ElementCalls(e)|
    ensures |Run(s, ElementCalls(e)[..k]).state.stack| >= |s.stack|
    decreases e
  {
    match e
    case ItemElement(_, _) =>
    case SubConfiguration(name, c) =>
      var calls := ElementCalls(e);
      var inner := ElementsCalls(c.elements);
      var s1 := BeginSubStep(s, name, c.typeName);
      if k == 0 {
        assert calls[..0] == [];
      } else if k <= |inner| + 1 {
        assert calls[..k][1..] == inner[..k - 1];
        ElementsDepth(s1, c.elements, k - 1);
      } else {
        assert calls[..k] == [BeginSub(name, c.typeName)] + (inner + [EndSub]);
        RunAppend(s1, inner, [EndSub]);
        assert inner[..|inner|] == inner;
        ElementsDepth(s1, c.elements, |inner|);
      }
  }

  /** No prefix of a sequence of elements' callbacks takes the stack below where it started. */
  lemma {:induction false} ElementsDepth(s: WriterState, es: seq<Element>, k: nat)
    requires |s.stack| > 0 && k <= |ElementsCalls(es)|
    ensures |Run(s, ElementsCalls(es)[..k]).state.stack| >= |s.stack|
    decreases es
  {
    if es == [] {
      assert ElementsCalls(es)[..k] == [];
    } else {
      var a := ElementCalls(es[0]);
      var b := ElementsCalls(es[1..]);
      assert ElementsCalls(es) == a + b;
      if k <= |a| {
        assert (a + b)[..k] == a[..k];
        ElementDepth(s, es[0], k);
      } else {
        assert (a + b)[..k] == a + b[..k - |a|];
        RunAppend(s, a, b[..k - |a|]);
        assert a[..|a|] == a;
        ElementDepth(s, es[0], |a|);
        if Run(s, a).status.Completed? {
          ElementsDepth(Run(s, a).state, es[1..], k - |a|);
        }
      }
    }
  }

  /**
   * Between begin and end of a traversal, after any number of callbacks,
   * the stack holds an even number of frames, and at least two.
   */
  lemma TraversalDepth(s: WriterState, c: Configuration, k: nat)
    requires 1 <= k < |Walk(c)|
    ensures var d := |Run(s, Walk(c)[..k]).state.stack|; d >= 2 && d % 2 == 0
  {
    var s0 := BeginStep(c.typeName);
    var body := ElementsCalls(c.elements);
    assert Walk(c)[..k][1..] == body[..k - 1];
    ElementsDepth(s0, c.elements, k - 1);
    BeginEstablishesWellFormed(c.typeName);
    RunPreservesWellFormed(s0, body[..k - 1]);
  }

  // ---------------------------------------------------------------------
  // A worked example.

  const ExampleChild := Configuration("Config", [ItemElement("y", Str("hi"))])
  const ExampleRoot := Configuration("Config", [ItemElement("x", Num("Int", 5)), SubConfiguration("child", ExampleChild)])

  const ExampleItemX := JObject(map["type" := JString("Int"), "value" := JNum(5)])
  const ExampleItemY := JObject(map["type" := JString("String"), "value" := JString("hi")])
  const ExampleChildNode := JObject(map["type" := JString("Config"), "body" := JObject(map["y" := ExampleItemY])])
  const ExampleRootNode :=
    JObject(map["type" := JString("Config"), "body" := JObject(map["x" := ExampleItemX, "child" := ExampleChildNode])])

  lemma ExampleEncoding()
    ensures EncodeConfiguration(ExampleRoot) == Ok(ExampleRootNode)
  {
    var child := ExampleChild.elements;
    assert EncodeElement(child[0]) == Ok(ExampleItemY);
    assert EncodeBody(child[1..], map["y" := ExampleItemY]) == Ok(map["y" := ExampleItemY]);
    assert EncodeBody(child, map[]) == Ok(map["y" := ExampleItemY]);
    assert EncodeConfiguration(ExampleChild) == Ok(ExampleChildNode);
    var root := ExampleRoot.elements;
    assert EncodeElement(root[0]) == Ok(ExampleItemX);
    assert EncodeElement(root[1]) == Ok(ExampleChildNode);
    var acc := map["x" := ExampleItemX];
    assert root[1..][1..] == [];
    assert EncodeBody(root[1..], acc) == Ok(acc["child" := ExampleChildNode]);
    assert EncodeBody(root, map[]) == Ok(map["x" := ExampleItemX, "child" := ExampleChildNode]);
  }

  lemma ExampleCalls()
    ensures Walk(ExampleRoot)
         == [Begin("Config"), Item("x", Num("Int", 5)), BeginSub("child", "Config"), Item("y", Str("hi")), EndSub, End]
  {
    assert ElementsCalls(ExampleChild.elements) == [Item("y", Str("hi"))];
    assert ElementCalls(SubConfiguration("child", ExampleChild)) == [BeginSub("child", "Config"), Item("y", Str("hi")), EndSub];
    assert ExampleRoot.elements[1..] == [SubConfiguration("child", ExampleChild)];
    assert ElementsCalls(ExampleRoot.elements[1..]) == [BeginSub("child", "Config"), Item("y", Str("hi")), EndSub];
    assert ElementCalls(ExampleRoot.elements[0]) == [Item("x", Num("Int", 5))];
    assert ElementsCalls(ExampleRoot.elements)
        == [Item("x", Num("Int", 5)), BeginSub("child", "Config"), Item("y", Str("hi")), EndSub];
  }

  /**
   * begin(Config); item("x", 5); beginSubConfiguration("child", Config);
   * item("y", "hi"); endSubConfiguration(); end() yields
   * {"type": "Config", "body": {"x": {"type": "Int", "value": 5},
   *   "child": {"type": "Config", "body": {"y": {"type": "String", "value": "hi"}}}}}.
   */
  lemma ExampleDocument(s: WriterState)
    ensures Run(s, [Begin("Config"), Item("x", Num("Int", 5)), BeginSub("child", "Config"),
                    Item("y", Str("hi")), EndSub, End])
         == Transition(WriterState([], Some(
              JObject(map[
                "type" := JString("Config"),
                "body" := JObject(map[
                  "x" := JObject(map["type" := JString("Int"), "value" := JNum(5)]),
                  "child" := JObject(map[
                    "type" := JString("Config"),
                    "body" := JObject(map[
                      "y" := JObject(map["type" := JString("String"), "value" := JString("hi")])])])])]))),
              Completed)
  {
    ExampleCalls();
    ExampleEncoding();
    WalkWritesEncoding(s, ExampleRoot);
  }
}
