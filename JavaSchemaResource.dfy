/**
 * The resource statements of the Java schema generator: one `sb.resource(...)`
 * builder statement per resource of the schema, naming the type, the HTTP
 * method and the path, then one chained call per line for the comment, the
 * name, the inputs, the outputs, the authorization, the expected status, the
 * exceptions (in ascending order of their names) and the async flag.
 */
module JavaSchemaResource {
  import opened Wrappers
  import opened Text
  import opened Rdl
  import opened Calls
  import opened StringOrder
  import opened JavaSchema

  const ResourceCallee: string := "    sb.resource"

  // ---------------------------------------------------------------------------
  // The head: the type a resource is declared for
  // ---------------------------------------------------------------------------

  /** An input that is neither a path parameter, a query parameter nor a header: the request body. */
  predicate IsBodyInput(ri: ResourceInput) {
    !ri.pathParam && ri.queryParam == "" && ri.header == ""
  }

  /** The index of the first body input, if there is one. */
  function FirstBodyInput(inputs: seq<ResourceInput>): (r: Option<nat>)
    ensures r.Some? ==> r.value < |inputs| && IsBodyInput(inputs[r.value])
    ensures r.Some? ==> forall j :: 0 <= j < r.value ==> !IsBodyInput(inputs[j])
    ensures r.None? ==> forall j :: 0 <= j < |inputs| ==> !IsBodyInput(inputs[j])
  {
    if inputs == [] then None
    else if IsBodyInput(inputs[0]) then Some(0)
    else match FirstBodyInput(inputs[1..])
      case Some(k) => Some(k + 1)
      case None => None
  }

  /**
   * The type a resource statement names: for `PUT` and `POST` the type of the
   * first body input, when there is one; the resource's own type otherwise.
   */
  function ResourceTypeName(rez: Resource): string {
    if rez.httpMethod == "PUT" || rez.httpMethod == "POST" then
      match FirstBodyInput(rez.inputs)
      case Some(k) => rez.inputs[k].inputType
      case None => rez.resourceType
    else rez.resourceType
  }

  function ResourceHead(rez: Resource): Call {
    Call(ResourceCallee, [Quoted(ResourceTypeName(rez)), Quoted(rez.httpMethod), Quoted(rez.path)])
  }

  /** Scans the inputs for the first body input, as the generator does. */
  method RequestTypeName(rez: Resource) returns (name: string)
    ensures name == ResourceTypeName(rez)
  {
    name := rez.resourceType;
    if rez.httpMethod == "PUT" || rez.httpMethod == "POST" {
      var k := 0;
      while k < |rez.inputs|
        invariant 0 <= k <= |rez.inputs|
        invariant forall j :: 0 <= j < k ==> !IsBodyInput(rez.inputs[j])
        invariant name == rez.resourceType
      {
        var ri := rez.inputs[k];
        if !ri.pathParam && ri.queryParam == "" && ri.header == "" {
          name := ri.inputType;
          FirstBodyInputAt(rez.inputs, k);
          return;
        }
        k := k + 1;
      }
    }
  }

  lemma {:induction false} FirstBodyInputAt(inputs: seq<ResourceInput>, k: nat)
    requires k < |inputs| && IsBodyInput(inputs[k])
    requires forall j :: 0 <= j < k ==> !IsBodyInput(inputs[j])
    ensures FirstBodyInput(inputs) == Some(k)
  {
    if k > 0 {
      assert !IsBodyInput(inputs[0]);
      assert forall j :: 0 <= j < k - 1 ==> inputs[1..][j] == inputs[j + 1];
      FirstBodyInputAt(inputs[1..], k - 1);
    }
  }

  // ---------------------------------------------------------------------------
  // Inputs
  // ---------------------------------------------------------------------------

  /** The chained calls an input can be written as. */
  const InputClauses: set<string> := {"pathParam", "queryParam", "headerParam", "input"}

  /** The Java text of an input's default: `null` without a default. */
  function InputDefaultText(reg: TypeRegistry, ri: ResourceInput): string {
    match ri.default
    case Some(d) => DefaultText(reg, ri.inputType, d)
    case None => "null"
  }

  function InputDefaultArg(reg: TypeRegistry, ri: ResourceInput): (a: Arg)
    ensures ArgText(a) == InputDefaultText(reg, ri)
  {
    match ri.default
    case Some(d) => DefaultArg(reg, ri.inputType, d)
    case None => Bare("null")
  }

  function InputClause(ri: ResourceInput): (name: string)
    ensures name in InputClauses
  {
    if ri.pathParam then "pathParam"
    else if ri.queryParam != "" then "queryParam"
    else if ri.header != "" then "headerParam"
    else "input"
  }

  /**
   * `.pathParam(name, type, comment)` for a path parameter,
   * `.queryParam(param, name, type, default, comment)` for a query parameter,
   * `.headerParam(header, name, type, default, comment)` for a header, and
   * `.input(name, type, comment)` for the body.
   */
  function InputArgs(reg: TypeRegistry, ri: ResourceInput): seq<Arg> {
    if ri.pathParam then
      [Quoted(ri.name), Quoted(ri.inputType), Quoted(ri.comment)]
    else if ri.queryParam != "" then
      [Quoted(ri.queryParam), Quoted(ri.name), Quoted(ri.inputType), InputDefaultArg(reg, ri), Quoted(ri.comment)]
    else if ri.header != "" then
      [Quoted(ri.header), Quoted(ri.name), Quoted(ri.inputType), InputDefaultArg(reg, ri), Quoted(ri.comment)]
    else
      [Quoted(ri.name), Quoted(ri.inputType), Quoted(ri.comment)]
  }

  function InputCall(reg: TypeRegistry, ri: ResourceInput): (c: Call)
    ensures NameOf(c.callee) == Some(InputClause(ri))
  {
    NameOfChained(InputClause(ri), InputArgs(reg, ri));
    Chained(InputClause(ri), InputArgs(reg, ri))
  }

  function InputLines(reg: TypeRegistry, inputs: seq<ResourceInput>): seq<Line> {
    seq(|inputs|, i requires 0 <= i < |inputs| => Clause(InputCall(reg, inputs[i])))
  }

  function InputCalls(reg: TypeRegistry, inputs: seq<ResourceInput>): seq<Call> {
    seq(|inputs|, i requires 0 <= i < |inputs| => InputCall(reg, inputs[i]))
  }

  /** Writes an input's line as the generator does, default first. */
  method GenerateInputLine(reg: TypeRegistry, ri: ResourceInput) returns (line: string)
    ensures line == CallText(InputCall(reg, ri))
  {
    var def := "null";
    if ri.default.Some? {
      var ft := FindType(reg, ri.inputType);
      if ft.Some? {
        def := JavaLiteral(ft.value, ri.default.value);
      }
    }
    if ri.pathParam {
      line := CallText(Chained("pathParam", [Quoted(ri.name), Quoted(ri.inputType), Quoted(ri.comment)]));
    } else if ri.queryParam != "" {
      var written := [Quoted(ri.queryParam), Quoted(ri.name), Quoted(ri.inputType), Bare(def), Quoted(ri.comment)];
      ArgListSameTexts(written, InputArgs(reg, ri));
      line := CallText(Chained("queryParam", written));
    } else if ri.header != "" {
      var written := [Quoted(ri.header), Quoted(ri.name), Quoted(ri.inputType), Bare(def), Quoted(ri.comment)];
      ArgListSameTexts(written, InputArgs(reg, ri));
      line := CallText(Chained("headerParam", written));
    } else {
      line := CallText(Chained("input", [Quoted(ri.name), Quoted(ri.inputType), Quoted(ri.comment)]));
    }
  }

  /** What an input's line says; a default is the argument written for it. */
  datatype InputText =
    | PathParamText(name: string, inputType: string, comment: string)
    | QueryParamText(param: string, name: string, inputType: string, default: Arg, comment: string)
    | HeaderParamText(header: string, name: string, inputType: string, default: Arg, comment: string)
    | BodyInputText(name: string, inputType: string, comment: string)

  function ReadInput(c: Call): Option<InputText> {
    var a := c.args;
    if NameOf(c.callee) == Some("pathParam") || NameOf(c.callee) == Some("input") then
      if |a| == 3 && a[0].Quoted? && a[1].Quoted? && a[2].Quoted? then
        if NameOf(c.callee) == Some("pathParam") then Some(PathParamText(a[0].text, a[1].text, a[2].text))
        else Some(BodyInputText(a[0].text, a[1].text, a[2].text))
      else None
    else if NameOf(c.callee) == Some("queryParam") || NameOf(c.callee) == Some("headerParam") then
      if |a| == 5 && a[0].Quoted? && a[1].Quoted? && a[2].Quoted? && a[4].Quoted? then
        if NameOf(c.callee) == Some("queryParam") then Some(QueryParamText(a[0].text, a[1].text, a[2].text, a[3], a[4].text))
        else Some(HeaderParamText(a[0].text, a[1].text, a[2].text, a[3], a[4].text))
      else None
    else None
  }

  function ReadInputs(cs: seq<Call>): Option<seq<InputText>> {
    if cs == [] then Some([])
    else match (ReadInput(cs[0]), ReadInputs(cs[1..]))
      case (Some(x), Some(xs)) => Some([x] + xs)
      case _ => None
  }

  /**
   * An input's line read back agrees with the input: a path parameter exactly
   * when it is one, else a query parameter when it has a query name, else a
   * header when it has a header name, else the body; with the input's name,
   * type and comment, and for query and header parameters the parameter's name
   * and the default's Java text (`null` without a default).
   */
  predicate InputReadsAs(it: InputText, reg: TypeRegistry, ri: ResourceInput) {
    it.name == ri.name && it.inputType == ri.inputType && it.comment == ri.comment
    && (it.PathParamText? <==> ri.pathParam)
    && (it.QueryParamText? <==> !ri.pathParam && ri.queryParam != "")
    && (it.HeaderParamText? <==> !ri.pathParam && ri.queryParam == "" && ri.header != "")
    && (it.BodyInputText? <==> IsBodyInput(ri))
    && (it.QueryParamText? ==> it.param == ri.queryParam && ArgText(it.default) == InputDefaultText(reg, ri))
    && (it.HeaderParamText? ==> it.header == ri.header && ArgText(it.default) == InputDefaultText(reg, ri))
  }

  /** Every input's line reads back as the input. */
  lemma ReadInputCall(reg: TypeRegistry, ri: ResourceInput)
    ensures ReadInput(InputCall(reg, ri)).Some?
    ensures InputReadsAs(ReadInput(InputCall(reg, ri)).value, reg, ri)
  {
  }

  /** Each read input agrees with the input at its position. */
  predicate InputsReadAs(its: seq<InputText>, reg: TypeRegistry, inputs: seq<ResourceInput>) {
    |its| == |inputs| && forall i :: 0 <= i < |inputs| ==> InputReadsAs(its[i], reg, inputs[i])
  }

  lemma ReadInputsCons(c: Call, cs: seq<Call>, x: InputText, xs: seq<InputText>)
    requires ReadInput(c) == Some(x) && ReadInputs(cs) == Some(xs)
    ensures ReadInputs([c] + cs) == Some([x] + xs)
  {
    assert ([c] + cs)[0] == c && ([c] + cs)[1..] == cs;
  }

  lemma InputsReadAsCons(x: InputText, xs: seq<InputText>, reg: TypeRegistry, ri: ResourceInput, rest: seq<ResourceInput>)
    requires InputReadsAs(x, reg, ri) && InputsReadAs(xs, reg, rest)
    ensures InputsReadAs([x] + xs, reg, [ri] + rest)
  {
    forall i | 0 <= i < |rest| + 1
      ensures InputReadsAs(([x] + xs)[i], reg, ([ri] + rest)[i])
    {
      if i > 0 {
        assert ([x] + xs)[i] == xs[i - 1] && ([ri] + rest)[i] == rest[i - 1];
      }
    }
  }

  lemma InputCallsConsAt(reg: TypeRegistry, inputs: seq<ResourceInput>, k: nat)
    requires 0 < k < |inputs|
    ensures InputCalls(reg, inputs)[k] == InputCalls(reg, inputs[1..])[k - 1]
  {
    assert inputs[k] == inputs[1..][k - 1];
  }

  lemma InputCallsCons(reg: TypeRegistry, inputs: seq<ResourceInput>)
    requires inputs != []
    ensures InputCalls(reg, inputs) == [InputCall(reg, inputs[0])] + InputCalls(reg, inputs[1..])
  {
    var a := InputCalls(reg, inputs);
    var b := [InputCall(reg, inputs[0])] + InputCalls(reg, inputs[1..]);
    assert |a| == |b|;
    forall k | 0 <= k < |a|
      ensures a[k] == b[k]
    {
      if k > 0 {
        InputCallsConsAt(reg, inputs, k);
      }
    }
  }

  /** The input lines read back as the inputs, one by one. */
  lemma {:induction false} ReadInputsCalls(reg: TypeRegistry, inputs: seq<ResourceInput>)
    ensures ReadInputs(InputCalls(reg, inputs)).Some?
    ensures InputsReadAs(ReadInputs(InputCalls(reg, inputs)).value, reg, inputs)
  {
    if inputs != [] {
      ReadInputsCalls(reg, inputs[1..]);
      var xs := ReadInputs(InputCalls(reg, inputs[1..])).value;
      var c := InputCall(reg, inputs[0]);
      ReadInputCall(reg, inputs[0]);
      var x := ReadInput(c).value;
      InputCallsCons(reg, inputs);
      ReadInputsCons(c, InputCalls(reg, inputs[1..]), x, xs);
      InputsReadAsCons(x, xs, reg, inputs[0], inputs[1..]);
      assert [inputs[0]] + inputs[1..] == inputs;
    }
  }

  /** A query or header parameter's default whose Java text can be read back; other inputs write none. */
  predicate ReadableInputDefault(reg: TypeRegistry, ri: ResourceInput) {
    !ri.pathParam && (ri.queryParam != "" || ri.header != "") ==> ReadableArg(InputDefaultArg(reg, ri))
  }

  lemma InputCallReadable(reg: TypeRegistry, ri: ResourceInput)
    requires ReadableInputDefault(reg, ri)
    ensures ReadableCall(InputCall(reg, ri))
  {
    assert forall k :: 0 <= k < |InputArgs(reg, ri)| ==> ReadableArg(InputArgs(reg, ri)[k]);
    assert ReadableName(InputClause(ri));
    ChainedReadable(InputClause(ri), InputArgs(reg, ri));
  }

  // ---------------------------------------------------------------------------
  // Outputs and authorization
  // ---------------------------------------------------------------------------

  /** `.output(header, name, type, comment)`. */
  function OutputCall(ro: ResourceOutput): (c: Call)
    ensures NameOf(c.callee) == Some("output") && ReadableCall(c)
  {
    var args := [Quoted(ro.header), Quoted(ro.name), Quoted(ro.outputType), Quoted(ro.comment)];
    NameOfChained("output", args);
    ChainedReadable("output", args);
    Chained("output", args)
  }

  function OutputLines(outputs: seq<ResourceOutput>): seq<Line> {
    seq(|outputs|, i requires 0 <= i < |outputs| => Clause(OutputCall(outputs[i])))
  }

  function OutputCalls(outputs: seq<ResourceOutput>): seq<Call> {
    seq(|outputs|, i requires 0 <= i < |outputs| => OutputCall(outputs[i]))
  }

  function ReadOutputs(cs: seq<Call>): Option<seq<ResourceOutput>> {
    if cs == [] then Some([])
    else
      var a := cs[0].args;
      if |a| == 4 && a[0].Quoted? && a[1].Quoted? && a[2].Quoted? && a[3].Quoted? then
        match ReadOutputs(cs[1..])
        case Some(rest) => Some([ResourceOutput(a[1].text, a[2].text, a[0].text, a[3].text)] + rest)
        case None => None
      else None
  }

  /** The output lines read back as the outputs, in order. */
  lemma {:induction false} ReadOutputsCalls(outputs: seq<ResourceOutput>)
    ensures ReadOutputs(OutputCalls(outputs)) == Some(outputs)
  {
    if outputs != [] {
      ReadOutputsCalls(outputs[1..]);
      assert OutputCalls(outputs)[1..] == OutputCalls(outputs[1..]);
      assert [outputs[0]] + outputs[1..] == outputs;
    }
  }

  /**
   * The arguments of the `auth` clause: action, resource, the authenticate
   * flag and the domain when there is a domain; action, resource and `true`
   * when authentication is required; action and resource otherwise.
   */
  function AuthValue(auth: Option<ResourceAuth>): (v: Option<seq<Arg>>)
    ensures ReadableValue(v) && ReadAuth(v) == Some(auth)
    ensures v.Some? <==> auth.Some?
  {
    match auth
    case None => None
    case Some(a) =>
      assert ReadBool(BoolText(a.authenticate)) == Some(a.authenticate);
      if a.domain != "" then
        Some([Quoted(a.action), Quoted(a.resource), Bare(BoolText(a.authenticate)), Quoted(a.domain)])
      else if a.authenticate then Some([Quoted(a.action), Quoted(a.resource), Bare("true")])
      else Some([Quoted(a.action), Quoted(a.resource)])
  }

  function ReadAuth(v: Option<seq<Arg>>): Option<Option<ResourceAuth>> {
    match v
    case None => Some(None)
    case Some(a) =>
      if |a| == 4 && a[0].Quoted? && a[1].Quoted? && a[2].Bare? && a[3].Quoted?
        && ReadBool(a[2].text).Some? && a[3].text != ""
      then Some(Some(ResourceAuth(ReadBool(a[2].text).value, a[0].text, a[1].text, a[3].text)))
      else if |a| == 3 && a[0].Quoted? && a[1].Quoted? && a[2] == Bare("true")
      then Some(Some(ResourceAuth(true, a[0].text, a[1].text, "")))
      else if |a| == 2 && a[0].Quoted? && a[1].Quoted?
      then Some(Some(ResourceAuth(false, a[0].text, a[1].text, "")))
      else None
  }

  // ---------------------------------------------------------------------------
  // Exceptions, in ascending order of their names
  // ---------------------------------------------------------------------------

  /** The names of a set in some order, each once. */
  ghost function SetToSeq(s: set<string>): (r: seq<string>)
    ensures Distinct(r) && forall x :: x in r <==> x in s
    decreases s
  {
    if s == {} then []
    else
      var x :| x in s;
      [x] + SetToSeq(s - {x})
  }

  /** The exception names in ascending order: the order the statement lists them in. */
  ghost function ExceptionOrder(m: map<string, ExceptionDef>): (r: seq<string>)
    ensures StrictlyAscending(r) && forall x :: x in r <==> x in m
  {
    var keys := SetToSeq(m.Keys);
    var r := SortStrings(keys);
    DistinctPermutation(keys, r);
    assert forall x :: x in r <==> x in multiset(r);
    r
  }

  /**
   * Sorting the names collected in any order gives the same sequence: the
   * order of the exceptions does not depend on the order the map is walked in.
   */
  lemma SortedKeysAreExceptionOrder(syms: seq<string>, m: map<string, ExceptionDef>)
    requires Distinct(syms) && forall x :: x in syms <==> x in m
    ensures SortStrings(syms) == ExceptionOrder(m)
  {
    var keys := SetToSeq(m.Keys);
    DistinctSameElements(syms, keys);
    SortedUnique(SortStrings(syms), SortStrings(keys));
  }

  /** `.exception(name, type, comment)`. */
  function ExceptionCall(sym: string, e: ExceptionDef): (c: Call)
    ensures NameOf(c.callee) == Some("exception") && ReadableCall(c)
  {
    var args := [Quoted(sym), Quoted(e.exceptionType), Quoted(e.comment)];
    NameOfChained("exception", args);
    ChainedReadable("exception", args);
    Chained("exception", args)
  }

  /** Each exception's line followed by an empty line. */
  function ExceptionLines(syms: seq<string>, m: map<string, ExceptionDef>): seq<Line>
    requires forall i :: 0 <= i < |syms| ==> syms[i] in m
  {
    if syms == [] then []
    else
      var last := syms[|syms| - 1];
      ExceptionLines(syms[..|syms| - 1], m) + [Clause(ExceptionCall(last, m[last])), Blank]
  }

  function ExceptionCalls(syms: seq<string>, m: map<string, ExceptionDef>): seq<Call>
    requires forall i :: 0 <= i < |syms| ==> syms[i] in m
  {
    seq(|syms|, i requires 0 <= i < |syms| => ExceptionCall(syms[i], m[syms[i]]))
  }

  /** The exceptions as the statement lists them: name and definition. */
  function ExceptionEntries(syms: seq<string>, m: map<string, ExceptionDef>): seq<(string, ExceptionDef)>
    requires forall i :: 0 <= i < |syms| ==> syms[i] in m
  {
    seq(|syms|, i requires 0 <= i < |syms| => (syms[i], m[syms[i]]))
  }

  function ReadExceptions(cs: seq<Call>): Option<seq<(string, ExceptionDef)>> {
    if cs == [] then Some([])
    else
      var a := cs[0].args;
      if |a| == 3 && a[0].Quoted? && a[1].Quoted? && a[2].Quoted? then
        match ReadExceptions(cs[1..])
        case Some(rest) => Some([(a[0].text, ExceptionDef(a[1].text, a[2].text))] + rest)
        case None => None
      else None
  }

  lemma {:induction false} CallsOfExceptionLines(syms: seq<string>, m: map<string, ExceptionDef>)
    requires forall i :: 0 <= i < |syms| ==> syms[i] in m
    ensures CallsOf(ExceptionLines(syms, m)) == ExceptionCalls(syms, m)
    ensures ReadableBody(ExceptionLines(syms, m))
  {
    if syms != [] {
      var init := syms[..|syms| - 1];
      var last := syms[|syms| - 1];
      var c := ExceptionCall(last, m[last]);
      CallsOfExceptionLines(init, m);
      CallsOfConcat(ExceptionLines(init, m), [Clause(c), Blank]);
      assert CallsOf([Clause(c), Blank]) == [c] by {
        assert [Clause(c), Blank][1..] == [Blank] && [Blank][1..] == [];
      }
      assert ExceptionCalls(syms, m) == ExceptionCalls(init, m) + [c];
    }
  }

  /** The exception lines read back as the names and definitions, in order. */
  lemma {:induction false} ReadExceptionsCalls(syms: seq<string>, m: map<string, ExceptionDef>)
    requires forall i :: 0 <= i < |syms| ==> syms[i] in m
    ensures ReadExceptions(ExceptionCalls(syms, m)) == Some(ExceptionEntries(syms, m))
  {
    if syms != [] {
      ReadExceptionsCalls(syms[1..], m);
      assert ExceptionCalls(syms, m)[1..] == ExceptionCalls(syms[1..], m);
      assert ExceptionEntries(syms, m) == [(syms[0], m[syms[0]])] + ExceptionEntries(syms[1..], m);
    }
  }

  /** `.async()` and an empty line, for a resource whose async flag is set. */
  function AsyncLines(async: Option<bool>): seq<Line> {
    if async == Some(true) then [Clause(Chained("async", [])), Blank] else []
  }

  function AsyncValue(async: Option<bool>): Option<seq<Arg>> {
    if async == Some(true) then Some([]) else None
  }

  function ReadAsync(v: Option<seq<Arg>>): Option<bool> {
    match v
    case None => Some(false)
    case Some(a) => if a == [] then Some(true) else None
  }

  lemma AsyncCalls(async: Option<bool>)
    ensures CallsOf(AsyncLines(async)) == CallsOf(OptionalLines(["async"], [AsyncValue(async)]))
    ensures ReadableBody(AsyncLines(async))
    ensures ReadAsync(AsyncValue(async)) == Some(async == Some(true))
  {
    OptionalLinesSingle("async", AsyncValue(async));
    if async == Some(true) {
      var c := Chained("async", []);
      assert [Clause(c), Blank][1..] == [Blank] && [Blank][1..] == [];
      ChainedReadable("async", []);
    }
  }

  // ---------------------------------------------------------------------------
  // The statement
  // ---------------------------------------------------------------------------

  function NameLines(name: string): seq<Line> {
    OptionalLines(["name"], [TextValue(name)])
  }

  function AuthLines(auth: Option<ResourceAuth>): seq<Line> {
    OptionalLines(["auth"], [AuthValue(auth)])
  }

  function ExpectedCall(rez: Resource): (c: Call)
    ensures NameOf(c.callee) == Some("expected") && ReadableCall(c)
  {
    NameOfChained("expected", [Quoted(rez.expected)]);
    ChainedReadable("expected", [Quoted(rez.expected)]);
    Chained("expected", [Quoted(rez.expected)])
  }

  /**
   * The lines of a resource statement: comment and name when present, one line
   * per input and per output, the authorization when present, the expected
   * status, each exception (in ascending order of names) followed by an empty
   * line, and `.async()` followed by an empty line when the async flag is set.
   */
  ghost function ResourceBody(reg: TypeRegistry, rez: Resource): seq<Line> {
    CommentLines(rez.comment) + NameLines(rez.name) + InputLines(reg, rez.inputs) + OutputLines(rez.outputs)
    + AuthLines(rez.auth) + [Clause(ExpectedCall(rez))]
    + ExceptionLines(ExceptionOrder(rez.exceptions), rez.exceptions) + AsyncLines(rez.async)
  }

  ghost function ResourceConstructor(reg: TypeRegistry, rez: Resource): string {
    Render(ResourceHead(rez), ResourceBody(reg, rez))
  }

  lemma ResourceHeadText(rez: Resource)
    ensures CallText(ResourceHead(rez)) == ResourceCallee + "(" + Quote(ResourceTypeName(rez)) + ", "
      + Quote(rez.httpMethod) + ", " + Quote(rez.path) + ")"
  {
    ArgListThree(Quoted(ResourceTypeName(rez)), Quoted(rez.httpMethod), Quoted(rez.path));
  }

  lemma InputLinesSnocAt(reg: TypeRegistry, inputs: seq<ResourceInput>, i: nat, j: nat)
    requires i < |inputs| && j <= i
    ensures InputLines(reg, inputs[..i + 1])[j] == (InputLines(reg, inputs[..i]) + [Clause(InputCall(reg, inputs[i]))])[j]
  {
    if j < i {
      assert inputs[..i + 1][j] == inputs[..i][j];
    } else {
      assert inputs[..i + 1][j] == inputs[i];
    }
  }

  lemma InputLinesSnoc(reg: TypeRegistry, inputs: seq<ResourceInput>, i: nat)
    requires i < |inputs|
    ensures InputLines(reg, inputs[..i + 1]) == InputLines(reg, inputs[..i]) + [Clause(InputCall(reg, inputs[i]))]
  {
    var a := InputLines(reg, inputs[..i + 1]);
    var b := InputLines(reg, inputs[..i]) + [Clause(InputCall(reg, inputs[i]))];
    assert |a| == |b|;
    forall j | 0 <= j < |a|
      ensures a[j] == b[j]
    {
      InputLinesSnocAt(reg, inputs, i, j);
    }
  }

  lemma OutputLinesSnoc(outputs: seq<ResourceOutput>, i: nat)
    requires i < |outputs|
    ensures OutputLines(outputs[..i + 1]) == OutputLines(outputs[..i]) + [Clause(OutputCall(outputs[i]))]
  {
  }

  /** Appends an exception's line and the empty line after it. */
  lemma AppendException(head: Call, body: seq<Line>, syms: seq<string>, m: map<string, ExceptionDef>, i: nat)
    requires i < |syms| && forall j :: 0 <= j < |syms| ==> syms[j] in m
    ensures Unterminated(head, body + ExceptionLines(syms[..i + 1], m)) ==
      Unterminated(head, body + ExceptionLines(syms[..i], m)) + "\n" + CallText(ExceptionCall(syms[i], m[syms[i]])) + "\n"
  {
    var c := Clause(ExceptionCall(syms[i], m[syms[i]]));
    assert syms[..i + 1][..i] == syms[..i];
    var before := body + ExceptionLines(syms[..i], m);
    assert body + ExceptionLines(syms[..i + 1], m) == before + [c] + [Blank];
    AppendLine(head, before, c);
    AppendLine(head, before + [c], Blank);
  }

  /** Collects the exception names in the order the map yields them, then sorts them. */
  method SortedExceptionNames(m: map<string, ExceptionDef>) returns (syms: seq<string>)
    ensures syms == ExceptionOrder(m)
  {
    syms := [];
    var left := m.Keys;
    while left != {}
      invariant left <= m.Keys && Distinct(syms)
      invariant forall x :: x in syms <==> x in m && x !in left
      decreases |left|
    {
      var sym :| sym in left;
      syms := syms + [sym];
      left := left - {sym};
    }
    SortedKeysAreExceptionOrder(syms, m);
    syms := SortStrings(syms);
  }

  /** Writes the head, then the comment and the name when present. */
  method WriteResourceStart(rez: Resource) returns (s: string)
    ensures s == Unterminated(ResourceHead(rez), CommentLines(rez.comment) + NameLines(rez.name))
  {
    var head := ResourceHead(rez);
    var rTypeName := RequestTypeName(rez);
    s := ResourceCallee + "(" + Quote(rTypeName) + ", " + Quote(rez.httpMethod) + ", " + Quote(rez.path) + ")";
    ResourceHeadText(rez);
    assert s == Unterminated(head, []);
    if rez.comment != "" {
      s := s + "\n" + CallText(Chained("comment", [Quoted(rez.comment)]));
    }
    AppendOptional(head, [], "comment", TextValue(rez.comment));
    assert [] + CommentLines(rez.comment) == CommentLines(rez.comment);
    if rez.name != "" {
      s := s + "\n" + CallText(Chained("name", [Quoted(rez.name)]));
    }
    AppendOptional(head, CommentLines(rez.comment), "name", TextValue(rez.name));
  }

  /** Appends one line per input. */
  method WriteInputs(reg: TypeRegistry, head: Call, ghost body: seq<Line>, inputs: seq<ResourceInput>, s0: string)
    returns (s: string)
    requires s0 == Unterminated(head, body)
    ensures s == Unterminated(head, body + InputLines(reg, inputs))
  {
    s := s0;
    assert body + InputLines(reg, inputs[..0]) == body;
    for i := 0 to |inputs|
      invariant s == Unterminated(head, body + InputLines(reg, inputs[..i]))
    {
      var line := GenerateInputLine(reg, inputs[i]);
      InputLinesSnoc(reg, inputs, i);
      assert body + InputLines(reg, inputs[..i + 1]) == body + InputLines(reg, inputs[..i]) + [Clause(InputCall(reg, inputs[i]))];
      AppendLine(head, body + InputLines(reg, inputs[..i]), Clause(InputCall(reg, inputs[i])));
      s := s + "\n" + line;
    }
    assert inputs[..|inputs|] == inputs;
  }

  /** Appends one line per output. */
  method WriteOutputs(head: Call, ghost body: seq<Line>, outputs: seq<ResourceOutput>, s0: string) returns (s: string)
    requires s0 == Unterminated(head, body)
    ensures s == Unterminated(head, body + OutputLines(outputs))
  {
    s := s0;
    assert body + OutputLines(outputs[..0]) == body;
    for i := 0 to |outputs|
      invariant s == Unterminated(head, body + OutputLines(outputs[..i]))
    {
      var ro := outputs[i];
      OutputLinesSnoc(outputs, i);
      assert body + OutputLines(outputs[..i + 1]) == body + OutputLines(outputs[..i]) + [Clause(OutputCall(ro))];
      AppendLine(head, body + OutputLines(outputs[..i]), Clause(OutputCall(ro)));
      s := s + "\n" + CallText(Chained("output", [Quoted(ro.header), Quoted(ro.name), Quoted(ro.outputType), Quoted(ro.comment)]));
    }
    assert outputs[..|outputs|] == outputs;
  }

  /** Appends the authorization line, in the form its fields call for, when there is one. */
  method WriteAuth(head: Call, ghost body: seq<Line>, auth: Option<ResourceAuth>, s0: string) returns (s: string)
    requires s0 == Unterminated(head, body)
    ensures s == Unterminated(head, body + AuthLines(auth))
  {
    s := s0;
    AppendOptional(head, body, "auth", AuthValue(auth));
    if auth.Some? {
      var a := auth.value;
      if a.domain != "" {
        s := s + "\n" + CallText(Chained("auth", [Quoted(a.action), Quoted(a.resource), Bare(BoolText(a.authenticate)), Quoted(a.domain)]));
      } else if a.authenticate {
        s := s + "\n" + CallText(Chained("auth", [Quoted(a.action), Quoted(a.resource), Bare("true")]));
      } else {
        s := s + "\n" + CallText(Chained("auth", [Quoted(a.action), Quoted(a.resource)]));
      }
    }
  }

  /** Appends each exception's line and an empty line, in ascending order of names. */
  method WriteExceptions(head: Call, ghost body: seq<Line>, m: map<string, ExceptionDef>, s0: string)
    returns (s: string)
    requires s0 == Unterminated(head, body)
    ensures s == Unterminated(head, body + ExceptionLines(ExceptionOrder(m), m))
  {
    var syms := SortedExceptionNames(m);
    s := WriteExceptionLines(head, body, syms, m, s0);
  }

  /** Writes each named exception's line, and an empty line after it. */
  method WriteExceptionLines(head: Call, ghost body: seq<Line>, syms: seq<string>, m: map<string, ExceptionDef>, s0: string)
    returns (s: string)
    requires forall j :: 0 <= j < |syms| ==> syms[j] in m
    requires s0 == Unterminated(head, body)
    ensures s == Unterminated(head, body + ExceptionLines(syms, m))
  {
    s := s0;
    assert body + ExceptionLines(syms[..0], m) == body;
    for i := 0 to |syms|
      invariant s == Unterminated(head, body + ExceptionLines(syms[..i], m))
    {
      var re := m[syms[i]];
      AppendException(head, body, syms, m, i);
      assert CallText(ExceptionCall(syms[i], re))
        == CallText(Chained("exception", [Quoted(syms[i]), Quoted(re.exceptionType), Quoted(re.comment)]));
      s := s + "\n" + CallText(Chained("exception", [Quoted(syms[i]), Quoted(re.exceptionType), Quoted(re.comment)])) + "\n";
    }
    assert syms[..|syms|] == syms;
  }

  /** Appends the expected status, the exceptions and the async flag. */
  method WriteResourceEnd(head: Call, ghost body: seq<Line>, rez: Resource, s0: string) returns (s: string)
    requires s0 == Unterminated(head, body)
    ensures s == Unterminated(head, body + [Clause(ExpectedCall(rez))]
      + ExceptionLines(ExceptionOrder(rez.exceptions), rez.exceptions) + AsyncLines(rez.async))
  {
    AppendLine(head, body, Clause(ExpectedCall(rez)));
    s := s0 + "\n" + CallText(Chained("expected", [Quoted(rez.expected)]));
    s := WriteExceptions(head, body + [Clause(ExpectedCall(rez))], rez.exceptions, s);
    ghost var body2 := body + [Clause(ExpectedCall(rez))] + ExceptionLines(ExceptionOrder(rez.exceptions), rez.exceptions);
    if rez.async.Some? {
      if rez.async.value {
        var c := Clause(Chained("async", []));
        AppendLine(head, body2, c);
        AppendLine(head, body2 + [c], Blank);
        assert body2 + [c] + [Blank] == body2 + AsyncLines(rez.async);
        s := s + "\n" + CallText(Chained("async", [])) + "\n";
      }
    }
    assert rez.async != Some(true) ==> body2 + AsyncLines(rez.async) == body2;
  }

  /** Writes the resource statement line by line, as the generator does. */
  method GenerateResourceConstructor(reg: TypeRegistry, rez: Resource) returns (s: string)
    ensures s == ResourceConstructor(reg, rez)
  {
    var head := ResourceHead(rez);
    s := WriteResourceStart(rez);
    ghost var body := CommentLines(rez.comment) + NameLines(rez.name);
    s := WriteInputs(reg, head, body, rez.inputs, s);
    body := body + InputLines(reg, rez.inputs);
    s := WriteOutputs(head, body, rez.outputs, s);
    body := body + OutputLines(rez.outputs);
    s := WriteAuth(head, body, rez.auth, s);
    body := body + AuthLines(rez.auth);
    s := WriteResourceEnd(head, body, rez, s);
    s := s + ";";
  }

  // ---------------------------------------------------------------------------
  // Reading a resource statement back
  // ---------------------------------------------------------------------------

  /** What a resource statement says. */
  datatype ResourceText = ResourceText(
    typeName: string, httpMethod: string, path: string, comment: string, name: string,
    inputs: seq<InputText>, outputs: seq<ResourceOutput>, auth: Option<ResourceAuth>,
    expected: string, exceptions: seq<(string, ExceptionDef)>, async: bool)

  /** What follows the comment and the name. */
  datatype ResourceTail = ResourceTail(
    inputs: seq<InputText>, outputs: seq<ResourceOutput>, auth: Option<ResourceAuth>,
    expected: string, exceptions: seq<(string, ExceptionDef)>, async: bool)

  /** Reads the expected status, the exceptions and the async flag, which end the statement. */
  function ReadResourceEnd(cs: seq<Call>): Option<(string, seq<(string, ExceptionDef)>, bool)> {
    if cs != [] && NameOf(cs[0].callee) == Some("expected") && |cs[0].args| == 1 && cs[0].args[0].Quoted? then
      var (xs, r1) := ReadRun(cs[1..], {"exception"});
      var (y, r2) := ReadOptional(r1, ["async"]);
      match (ReadExceptions(xs), ReadAsync(y[0]))
      case (Some(es), Some(a)) => if r2 == [] then Some((cs[0].args[0].text, es, a)) else None
      case _ => None
    else None
  }

  function ReadResourceTail(cs: seq<Call>): Option<ResourceTail> {
    var (ins, r1) := ReadRun(cs, InputClauses);
    var (outs, r2) := ReadRun(r1, {"output"});
    var (a, r3) := ReadOptional(r2, ["auth"]);
    match (ReadInputs(ins), ReadOutputs(outs), ReadAuth(a[0]), ReadResourceEnd(r3))
    case (Some(i), Some(o), Some(au), Some(end)) => Some(ResourceTail(i, o, au, end.0, end.1, end.2))
    case _ => None
  }

  function ReadResource(calls: seq<Call>): Option<ResourceText> {
    if calls != [] && calls[0].callee == ResourceCallee && |calls[0].args| == 3
      && calls[0].args[0].Quoted? && calls[0].args[1].Quoted? && calls[0].args[2].Quoted?
    then
      var h := calls[0].args;
      var (c, r1) := ReadOptional(calls[1..], ["comment"]);
      var (n, r2) := ReadOptional(r1, ["name"]);
      match (ReadText(c[0]), ReadText(n[0]), ReadResourceTail(r2))
      case (Some(comment), Some(name), Some(t)) =>
        Some(ResourceText(h[0].text, h[1].text, h[2].text, comment, name,
                          t.inputs, t.outputs, t.auth, t.expected, t.exceptions, t.async))
      case _ => None
    else None
  }

  /** A resource statement that reads back has a comment clause and a name clause each exactly when that text is non-empty. */
  lemma ResourceClausesPresent(calls: seq<Call>, r: ResourceText)
    requires ReadResource(calls) == Some(r)
    ensures var (c, rest) := ReadOptional(calls[1..], ["comment"]);
      (c[0].Some? <==> r.comment != "") && (ReadOptional(rest, ["name"]).0[0].Some? <==> r.name != "")
  {
    var (c, rest) := ReadOptional(calls[1..], ["comment"]);
    ReadTextPresence(c[0], r.comment);
    ReadTextPresence(ReadOptional(rest, ["name"]).0[0], r.name);
  }

  /**
   * A resource statement read back agrees with the resource: the type is the
   * one the head names, the inputs agree one by one, the outputs and the
   * authorization are the resource's, the exceptions are all of them, in
   * ascending order of names, and the async flag is read as set exactly when
   * the resource's is set.
   */
  ghost predicate ResourceReadsAs(r: ResourceText, reg: TypeRegistry, rez: Resource) {
    r.typeName == ResourceTypeName(rez) && r.httpMethod == rez.httpMethod && r.path == rez.path
    && r.comment == rez.comment && r.name == rez.name
    && InputsReadAs(r.inputs, reg, rez.inputs)
    && r.outputs == rez.outputs && r.auth == rez.auth && r.expected == rez.expected
    && (forall i :: 0 <= i < |r.exceptions| ==>
          r.exceptions[i].0 in rez.exceptions && r.exceptions[i].1 == rez.exceptions[r.exceptions[i].0])
    && (forall sym :: sym in rez.exceptions <==> exists i :: 0 <= i < |r.exceptions| && r.exceptions[i].0 == sym)
    && (forall i, j :: 0 <= i < j < |r.exceptions| ==>
          Below(r.exceptions[i].0, r.exceptions[j].0) && r.exceptions[i].0 != r.exceptions[j].0)
    && r.async == (rez.async == Some(true))
  }

  /** The first call is a chained call named in `names`. */
  predicate FirstNamedIn(cs: seq<Call>, names: set<string>) {
    cs != [] && NameOf(cs[0].callee).Some? && NameOf(cs[0].callee).value in names
  }

  lemma FirstOfConcat(a: seq<Call>, b: seq<Call>, na: set<string>, nb: set<string>)
    requires NamedIn(a, na) && FirstNamedIn(b, nb)
    ensures FirstNamedIn(a + b, na + nb)
  {
    if a == [] {
      assert a + b == b;
    } else {
      assert (a + b)[0] == a[0];
    }
  }

  lemma OptionalNamed(name: string, v: Option<seq<Arg>>)
    ensures NamedIn(CallsOf(OptionalLines([name], [v])), {name})
  {
    OptionalLinesSingle(name, v);
    if v.Some? {
      NameOfChained(name, v.value);
      assert [Clause(Chained(name, v.value))][1..] == [];
    }
  }

  lemma InputCallsNamed(reg: TypeRegistry, inputs: seq<ResourceInput>)
    ensures NamedIn(InputCalls(reg, inputs), InputClauses)
  {
  }

  /** The calls of eight bodies written one after another. */
  lemma CallsOfEight(a: seq<Line>, b: seq<Line>, c: seq<Line>, d: seq<Line>, e: seq<Line>, f: seq<Line>, g: seq<Line>, h: seq<Line>,
                     ca: seq<Call>, cb: seq<Call>, cc: seq<Call>, cd: seq<Call>, ce: seq<Call>, cf: seq<Call>, cg: seq<Call>, ch: seq<Call>)
    requires CallsOf(a) == ca && CallsOf(b) == cb && CallsOf(c) == cc && CallsOf(d) == cd
    requires CallsOf(e) == ce && CallsOf(f) == cf && CallsOf(g) == cg && CallsOf(h) == ch
    ensures CallsOf(a + b + c + d + e + f + g + h) == ca + (cb + (cc + (cd + (ce + (cf + (cg + ch))))))
  {
    CallsOfConcat(a, b);
    CallsOfConcat(a + b, c);
    CallsOfConcat(a + b + c, d);
    CallsOfConcat(a + b + c + d, e);
    CallsOfConcat(a + b + c + d + e, f);
    CallsOfConcat(a + b + c + d + e + f, g);
    CallsOfConcat(a + b + c + d + e + f + g, h);
    var t6 := cg + ch;
    var t5 := cf + t6;
    var t4 := ce + t5;
    var t3 := cd + t4;
    var t2 := cc + t3;
    var t1 := cb + t2;
    AssocCalls(ca + cb + cc + cd + ce + cf, cg, ch);
    AssocCalls(ca + cb + cc + cd + ce, cf, t6);
    AssocCalls(ca + cb + cc + cd, ce, t5);
    AssocCalls(ca + cb + cc, cd, t4);
    AssocCalls(ca + cb, cc, t3);
    AssocCalls(ca, cb, t2);
  }

  lemma AssocCalls(x: seq<Call>, y: seq<Call>, z: seq<Call>)
    ensures x + y + z == x + (y + z)
  {
  }

  /** The calls of the statement's body, segment by segment. */
  lemma ResourceBodyCalls(reg: TypeRegistry, rez: Resource)
    ensures CallsOf(ResourceBody(reg, rez)) ==
      CallsOf(CommentLines(rez.comment)) + (CallsOf(NameLines(rez.name)) + ResourceTailCalls(reg, rez))
  {
    var m := rez.exceptions;
    CallsOfClauses(InputCalls(reg, rez.inputs), InputLines(reg, rez.inputs));
    CallsOfClauses(OutputCalls(rez.outputs), OutputLines(rez.outputs));
    CallsOfClauses([ExpectedCall(rez)], [Clause(ExpectedCall(rez))]);
    CallsOfExceptionLines(ExceptionOrder(m), m);
    AsyncCalls(rez.async);
    CallsOfEight(CommentLines(rez.comment), NameLines(rez.name), InputLines(reg, rez.inputs),
      OutputLines(rez.outputs), AuthLines(rez.auth), [Clause(ExpectedCall(rez))],
      ExceptionLines(ExceptionOrder(m), m), AsyncLines(rez.async),
      CallsOf(CommentLines(rez.comment)), CallsOf(NameLines(rez.name)), InputCalls(reg, rez.inputs),
      OutputCalls(rez.outputs), CallsOf(AuthLines(rez.auth)), [ExpectedCall(rez)],
      ExceptionCalls(ExceptionOrder(m), m), CallsOf(OptionalLines(["async"], [AsyncValue(rez.async)])));
  }

  lemma ReadableConcats(a: seq<Line>, b: seq<Line>, c: seq<Line>, d: seq<Line>, e: seq<Line>, f: seq<Line>, g: seq<Line>, h: seq<Line>)
    requires ReadableBody(a) && ReadableBody(b) && ReadableBody(c) && ReadableBody(d)
    requires ReadableBody(e) && ReadableBody(f) && ReadableBody(g) && ReadableBody(h)
    ensures ReadableBody(a + b + c + d + e + f + g + h)
  {
    ReadableConcat(a, b);
    ReadableConcat(a + b, c);
    ReadableConcat(a + b + c, d);
    ReadableConcat(a + b + c + d, e);
    ReadableConcat(a + b + c + d + e, f);
    ReadableConcat(a + b + c + d + e + f, g);
    ReadableConcat(a + b + c + d + e + f + g, h);
  }

  lemma InputLinesReadable(reg: TypeRegistry, inputs: seq<ResourceInput>)
    requires forall i :: 0 <= i < |inputs| ==> ReadableInputDefault(reg, inputs[i])
    ensures ReadableBody(InputLines(reg, inputs))
  {
    forall i | 0 <= i < |inputs|
      ensures ReadableCall(InputLines(reg, inputs)[i].call)
    {
      InputCallReadable(reg, inputs[i]);
    }
  }

  lemma ResourceBodyReadable(reg: TypeRegistry, rez: Resource)
    requires forall i :: 0 <= i < |rez.inputs| ==> ReadableInputDefault(reg, rez.inputs[i])
    ensures ReadableBody(ResourceBody(reg, rez))
  {
    var m := rez.exceptions;
    CommentLinesReadable(rez.comment);
    OptionalLinesReadable(["name"], [TextValue(rez.name)]);
    InputLinesReadable(reg, rez.inputs);
    assert ReadableBody(OutputLines(rez.outputs));
    OptionalLinesReadable(["auth"], [AuthValue(rez.auth)]);
    CallsOfExceptionLines(ExceptionOrder(m), m);
    AsyncCalls(rez.async);
    ReadableConcats(CommentLines(rez.comment), NameLines(rez.name), InputLines(reg, rez.inputs),
      OutputLines(rez.outputs), AuthLines(rez.auth), [Clause(ExpectedCall(rez))],
      ExceptionLines(ExceptionOrder(m), m), AsyncLines(rez.async));
  }

  /** The end of the statement reads back as the expected status, the exceptions in order, and the async flag. */
  lemma ReadEndCalls(rez: Resource, syms: seq<string>)
    requires forall i :: 0 <= i < |syms| ==> syms[i] in rez.exceptions
    ensures ReadResourceEnd([ExpectedCall(rez)] + (ExceptionCalls(syms, rez.exceptions)
      + CallsOf(OptionalLines(["async"], [AsyncValue(rez.async)]))))
      == Some((rez.expected, ExceptionEntries(syms, rez.exceptions), rez.async == Some(true)))
  {
    var m := rez.exceptions;
    var xs := ExceptionCalls(syms, m);
    var ys := CallsOf(OptionalLines(["async"], [AsyncValue(rez.async)]));
    var cs := [ExpectedCall(rez)] + (xs + ys);
    assert cs[0] == ExpectedCall(rez) && cs[1..] == xs + ys;
    OptionalNamed("async", AsyncValue(rez.async));
    assert NamedIn(xs, {"exception"});
    ReadRunOf(xs, ys, {"exception"});
    ReadOptionalLines(["async"], [AsyncValue(rez.async)], []);
    assert ys + [] == ys;
    ReadExceptionsCalls(syms, m);
    AsyncCalls(rez.async);
  }

  /** Everything after the name reads back as the resource's inputs, outputs, authorization and end. */
  lemma ReadTailCalls(reg: TypeRegistry, rez: Resource, end: seq<Call>)
    requires end != [] && NameOf(end[0].callee) == Some("expected")
    requires ReadResourceEnd(end).Some?
    ensures var t := ReadResourceTail(InputCalls(reg, rez.inputs) + (OutputCalls(rez.outputs)
      + (CallsOf(AuthLines(rez.auth)) + end)));
      t.Some? && InputsReadAs(t.value.inputs, reg, rez.inputs)
      && t.value.outputs == rez.outputs && t.value.auth == rez.auth
      && (t.value.expected, t.value.exceptions, t.value.async) == ReadResourceEnd(end).value
  {
    var ics := InputCalls(reg, rez.inputs);
    var ocs := OutputCalls(rez.outputs);
    var acs := CallsOf(AuthLines(rez.auth));
    assert FirstNamedIn(end, {"expected"});
    TailNamesDiffer();
    NotStartingWith(end, {"expected"}, "auth");
    ReadOptionalLines(["auth"], [AuthValue(rez.auth)], end);
    OptionalNamed("auth", AuthValue(rez.auth));
    FirstOfConcat(acs, end, {"auth"}, {"expected"});
    assert NamedIn(ocs, {"output"});
    ReadRunOf(ocs, acs + end, {"output"});
    FirstOfConcat(ocs, acs + end, {"output"}, {"auth"} + {"expected"});
    InputCallsNamed(reg, rez.inputs);
    ReadRunOf(ics, ocs + (acs + end), InputClauses);
    ReadInputsCalls(reg, rez.inputs);
    ReadOutputsCalls(rez.outputs);
    var ins := ReadInputs(ics).value;
    var au := ReadAuth(AuthValue(rez.auth));
    assert au == Some(rez.auth);
    var e := ReadResourceEnd(end).value;
    assert ReadResourceTail(ics + (ocs + (acs + end))) == Some(ResourceTail(ins, rez.outputs, rez.auth, e.0, e.1, e.2));
  }

  /** The clause names that can follow the name clause. */
  const AfterName: set<string> := InputClauses + ({"output"} + ({"auth"} + {"expected"}))

  /** The clauses that follow the inputs are not input clauses, and each differs from those after it. */
  lemma TailNamesDiffer()
    ensures "auth" !in {"expected"} && "output" !in {"auth"} + {"expected"}
    ensures forall n :: n in {"output"} + ({"auth"} + {"expected"}) ==> n !in InputClauses
  {
  }

  /** Neither the comment nor the name clause can follow the name clause. */
  lemma FrontNamesDiffer()
    ensures "name" !in AfterName && "comment" !in {"name"} + AfterName
  {
  }

  /** A call run whose first clause is named in `names` does not start with the clause `name`. */
  lemma NotStartingWith(cs: seq<Call>, names: set<string>, name: string)
    requires FirstNamedIn(cs, names) && name !in names
    ensures cs == [] || forall i :: 0 <= i < |[name]| ==> NameOf(cs[0].callee) != Some([name][i])
  {
  }

  /** How the reader takes a resource statement apart, given how each part reads. */
  lemma ReadResourceOf(calls: seq<Call>, head: Call, cv: Option<seq<Arg>>, nv: Option<seq<Arg>>,
                       mid: seq<Call>, tail: seq<Call>, t: ResourceTail)
    requires calls != [] && calls[0] == head && head.callee == ResourceCallee && |head.args| == 3
    requires head.args[0].Quoted? && head.args[1].Quoted? && head.args[2].Quoted?
    requires ReadOptional(calls[1..], ["comment"]) == ([cv], mid) && ReadText(cv).Some?
    requires ReadOptional(mid, ["name"]) == ([nv], tail) && ReadText(nv).Some?
    requires ReadResourceTail(tail) == Some(t)
    ensures ReadResource(calls) == Some(ResourceText(head.args[0].text, head.args[1].text, head.args[2].text,
      ReadText(cv).value, ReadText(nv).value, t.inputs, t.outputs, t.auth, t.expected, t.exceptions, t.async))
  {
  }

  /** After the head, the calls read back as the resource. */
  lemma ReadFrontCalls(reg: TypeRegistry, rez: Resource, tail: seq<Call>)
    requires FirstNamedIn(tail, AfterName)
    requires ReadResourceTail(tail).Some?
    ensures var r := ReadResource([ResourceHead(rez)] + (CallsOf(CommentLines(rez.comment))
      + (CallsOf(NameLines(rez.name)) + tail)));
      r.Some? && r.value.typeName == ResourceTypeName(rez) && r.value.httpMethod == rez.httpMethod
      && r.value.path == rez.path && r.value.comment == rez.comment && r.value.name == rez.name
      && var t := ReadResourceTail(tail).value;
      r.value.inputs == t.inputs && r.value.outputs == t.outputs && r.value.auth == t.auth
      && r.value.expected == t.expected && r.value.exceptions == t.exceptions && r.value.async == t.async
  {
    var ccs := CallsOf(CommentLines(rez.comment));
    var ncs := CallsOf(NameLines(rez.name));
    var head := ResourceHead(rez);
    var calls := [head] + (ccs + (ncs + tail));
    var cv := TextValue(rez.comment);
    var nv := TextValue(rez.name);
    assert calls[0] == head && calls[1..] == ccs + (ncs + tail);
    assert ReadOptional(ncs + tail, ["name"]) == ([nv], tail) by {
      FrontNamesDiffer();
      NotStartingWith(tail, AfterName, "name");
      ReadOptionalLines(["name"], [nv], tail);
    }
    assert ReadOptional(ccs + (ncs + tail), ["comment"]) == ([cv], ncs + tail) by {
      FrontNamesDiffer();
      OptionalNamed("name", nv);
      FirstOfConcat(ncs, tail, {"name"}, AfterName);
      NotStartingWith(ncs + tail, {"name"} + AfterName, "comment");
      ReadOptionalLines(["comment"], [cv], ncs + tail);
    }
    ReadResourceOf(calls, head, cv, nv, ncs + tail, tail, ReadResourceTail(tail).value);
  }

  lemma EntriesCover(order: seq<string>, m: map<string, ExceptionDef>)
    requires forall x :: x in order <==> x in m
    ensures var es := ExceptionEntries(order, m);
      forall sym :: sym in m <==> exists i :: 0 <= i < |es| && es[i].0 == sym
  {
    var es := ExceptionEntries(order, m);
    forall sym | sym in m
      ensures exists i :: 0 <= i < |es| && es[i].0 == sym
    {
      var i :| 0 <= i < |order| && order[i] == sym;
      assert es[i].0 == sym;
    }
  }

  lemma EntriesAscending(order: seq<string>, m: map<string, ExceptionDef>)
    requires StrictlyAscending(order) && forall x :: x in order ==> x in m
    ensures var es := ExceptionEntries(order, m);
      forall i, j :: 0 <= i < j < |es| ==> Below(es[i].0, es[j].0) && es[i].0 != es[j].0
  {
    var es := ExceptionEntries(order, m);
    forall i, j | 0 <= i < j < |es|
      ensures Below(es[i].0, es[j].0) && es[i].0 != es[j].0
    {
      assert es[i].0 == order[i] && es[j].0 == order[j];
    }
  }

  /** The order of the exceptions: all of them, each once, in ascending order of names. */
  lemma ExceptionEntriesOrdered(m: map<string, ExceptionDef>)
    ensures var es := ExceptionEntries(ExceptionOrder(m), m);
      (forall i :: 0 <= i < |es| ==> es[i].0 in m && es[i].1 == m[es[i].0])
      && (forall sym :: sym in m <==> exists i :: 0 <= i < |es| && es[i].0 == sym)
      && (forall i, j :: 0 <= i < j < |es| ==> Below(es[i].0, es[j].0) && es[i].0 != es[j].0)
  {
    var order := ExceptionOrder(m);
    EntriesCover(order, m);
    EntriesAscending(order, m);
  }

  /**
   * The resource statement loses nothing: it reads back as the type it names,
   * the method, path, comment and name, each input, the outputs, the
   * authorization, the expected status, every exception once in ascending
   * order of names, and the async flag.
   */
  lemma ResourceRoundTrip(reg: TypeRegistry, rez: Resource)
    requires forall i :: 0 <= i < |rez.inputs| ==> ReadableInputDefault(reg, rez.inputs[i])
    ensures Decode(ResourceConstructor(reg, rez)).Some?
    ensures var r := ReadResource(Decode(ResourceConstructor(reg, rez)).value);
      r.Some? && ResourceReadsAs(r.value, reg, rez)
    ensures var (c, rest) := ReadOptional(Decode(ResourceConstructor(reg, rez)).value[1..], ["comment"]);
      (c[0].Some? <==> rez.comment != "") && (ReadOptional(rest, ["name"]).0[0].Some? <==> rez.name != "")
  {
    DecodeResource(reg, rez);
    ReadResourceCalls(reg, rez);
    var calls := Decode(ResourceConstructor(reg, rez)).value;
    ResourceClausesPresent(calls, ReadResource(calls).value);
  }

  /** The calls of a resource statement, head first. */
  ghost function ResourceCalls(reg: TypeRegistry, rez: Resource): seq<Call> {
    [ResourceHead(rez)] + (CallsOf(CommentLines(rez.comment)) + (CallsOf(NameLines(rez.name))
      + ResourceTailCalls(reg, rez)))
  }

  ghost function ResourceTailCalls(reg: TypeRegistry, rez: Resource): seq<Call> {
    InputCalls(reg, rez.inputs) + (OutputCalls(rez.outputs) + (CallsOf(AuthLines(rez.auth))
      + ResourceEndCalls(rez)))
  }

  ghost function ResourceEndCalls(rez: Resource): seq<Call> {
    [ExpectedCall(rez)] + (ExceptionCalls(ExceptionOrder(rez.exceptions), rez.exceptions)
      + CallsOf(OptionalLines(["async"], [AsyncValue(rez.async)])))
  }

  lemma ResourceHeadReadable(rez: Resource)
    ensures ReadableCall(ResourceHead(rez))
  {
  }

  lemma DecodeRenderCalls(head: Call, body: seq<Line>, calls: seq<Call>)
    requires ReadableCall(head) && ReadableBody(body) && calls == [head] + CallsOf(body)
    ensures Decode(Render(head, body)) == Some(calls)
  {
    DecodeRender(head, body);
  }

  lemma DecodeResource(reg: TypeRegistry, rez: Resource)
    requires forall i :: 0 <= i < |rez.inputs| ==> ReadableInputDefault(reg, rez.inputs[i])
    ensures Decode(ResourceConstructor(reg, rez)) == Some(ResourceCalls(reg, rez))
  {
    ResourceHeadReadable(rez);
    ResourceBodyReadable(reg, rez);
    ResourceBodyCalls(reg, rez);
    DecodeRenderCalls(ResourceHead(rez), ResourceBody(reg, rez), ResourceCalls(reg, rez));
  }

  lemma ReadResourceCalls(reg: TypeRegistry, rez: Resource)
    ensures var r := ReadResource(ResourceCalls(reg, rez));
      r.Some? && ResourceReadsAs(r.value, reg, rez)
  {
    var m := rez.exceptions;
    var end := ResourceEndCalls(rez);
    ReadEndCalls(rez, ExceptionOrder(m));
    ReadTailCalls(reg, rez, end);
    TailFirstName(reg, rez, end);
    ReadFrontCalls(reg, rez, ResourceTailCalls(reg, rez));
    ExceptionEntriesOrdered(m);
  }

  lemma TailFirstName(reg: TypeRegistry, rez: Resource, end: seq<Call>)
    requires end != [] && NameOf(end[0].callee) == Some("expected")
    ensures FirstNamedIn(InputCalls(reg, rez.inputs) + (OutputCalls(rez.outputs) + (CallsOf(AuthLines(rez.auth)) + end)),
      AfterName)
  {
    var ocs := OutputCalls(rez.outputs);
    var acs := CallsOf(AuthLines(rez.auth));
    assert FirstNamedIn(end, {"expected"});
    OptionalNamed("auth", AuthValue(rez.auth));
    FirstOfConcat(acs, end, {"auth"}, {"expected"});
    assert NamedIn(ocs, {"output"});
    FirstOfConcat(ocs, acs + end, {"output"}, {"auth"} + {"expected"});
    InputCallsNamed(reg, rez.inputs);
    FirstOfConcat(InputCalls(reg, rez.inputs), ocs + (acs + end), InputClauses, {"output"} + ({"auth"} + {"expected"}));
  }
}
