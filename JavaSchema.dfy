/**
 * The Java schema generator of the Athenz RDL tooling: for each type of an RDL
 * schema it writes one `SchemaBuilder` statement (`sb.stringType(...)`,
 * `sb.enumType(...)`, ...) with one chained call per line, and the class header
 * around them. The resource statements are in module JavaSchemaResource.
 */
module JavaSchema {
  import opened Wrappers
  import opened Text
  import opened Rdl
  import opened Calls

  predicate StartsWith(s: string, prefix: string) {
    |prefix| <= |s| && s[..|prefix|] == prefix
  }

  /** The line for an optional clause: one line when present, none otherwise. */
  function OptLine(present: bool, line: string): seq<string> {
    if present then [line] else []
  }

  // ---------------------------------------------------------------------------
  // The class header (the template functions of GenerateSchema)
  // ---------------------------------------------------------------------------

  const RdlNamespace: string := "com.yahoo.rdl"

  /** The second line of the banner comment. */
  function BannerLine(banner: string): string {
    "// This file generated by " + banner + ". Do not modify!"
  }

  /** `line` followed by a line break, appended to `s`. */
  function WithLine(s: string, line: string): string {
    s + line + "\n"
  }

  /**
   * The banner comment and an empty line, then a `package` line when the
   * generation package `pkg` is not empty, then an `import com.yahoo.rdl.*;`
   * line unless the namespace is the RDL package itself.
   */
  function SchemaHeader(banner: string, pkg: string, ns: string): string {
    var s := "//" + "\n" + BannerLine(banner) + "\n" + "//" + "\n" + "\n";
    var s1 := if pkg != "" then WithLine(s, "package " + pkg + ";") else s;
    if ns != RdlNamespace then WithLine(s1, "import com.yahoo.rdl.*;") else s1
  }

  lemma HeaderBaseLines(b: string)
    requires NoNewline(b)
    ensures Lines("//" + "\n" + b + "\n" + "//" + "\n" + "") == ["//", b, "//", ""]
  {
    var u0: string := "//";
    var u1 := u0 + "\n" + b;
    var u2 := u1 + "\n" + "//";
    assert Lines(u0) == [u0];
    LinesSnoc(u0, ["//"], b);
    LinesSnoc(u1, ["//", b], "//");
    LinesSnoc(u2, ["//", b, "//"], "");
  }

  /** Appending an optional line to a text that ends in a line break. */
  lemma HeaderStep(u: string, ls: seq<string>, present: bool, x: string) returns (u2: string)
    requires Lines(u) == ls && NoNewline(x)
    ensures (if present then WithLine(u + "\n", x) else u + "\n") == u2 + "\n"
    ensures Lines(u2) == ls + OptLine(present, x)
  {
    if present {
      u2 := u + "\n" + x;
      LinesSnoc(u, ls, x);
    } else {
      u2 := u;
    }
  }

  lemma HeaderLinesSingle(banner: string, pkg: string)
    requires NoNewline(banner) && NoNewline(pkg)
    ensures NoNewline(BannerLine(banner)) && NoNewline("package " + pkg + ";")
    ensures NoNewline("import com.yahoo.rdl.*;")
  {
  }

  /**
   * The header is the three banner lines and an empty line, the package line
   * when there is a package, the import line outside the RDL namespace, and an
   * empty line.
   */
  lemma SchemaHeaderLines(banner: string, pkg: string, ns: string)
    requires NoNewline(banner) && NoNewline(pkg)
    ensures Lines(SchemaHeader(banner, pkg, ns)) ==
      ["//", "// This file generated by " + banner + ". Do not modify!", "//", ""]
      + OptLine(pkg != "", "package " + pkg + ";")
      + OptLine(ns != RdlNamespace, "import com.yahoo.rdl.*;")
      + [""]
  {
    var b := BannerLine(banner);
    HeaderLinesSingle(banner, pkg);
    var u := "//" + "\n" + b + "\n" + "//" + "\n" + "";
    HeaderBaseLines(b);
    assert "//" + "\n" + b + "\n" + "//" + "\n" + "\n" == u + "\n";
    var u1 := HeaderStep(u, ["//", b, "//", ""], pkg != "", "package " + pkg + ";");
    var ls1 := ["//", b, "//", ""] + OptLine(pkg != "", "package " + pkg + ";");
    var u2 := HeaderStep(u1, ls1, ns != RdlNamespace, "import com.yahoo.rdl.*;");
    var ls2 := ls1 + OptLine(ns != RdlNamespace, "import com.yahoo.rdl.*;");
    LinesSnoc(u2, ls2, "");
    assert u2 + "\n" + "" == u2 + "\n";
  }

  // ---------------------------------------------------------------------------
  // The schema's own statements: version, namespace and comment
  // ---------------------------------------------------------------------------

  const VersionCallee: string := "        sb.version"
  const NamespaceCallee: string := "        sb.namespace"
  const SchemaCommentCallee: string := "        sb.comment"

  /** `sb.version(n);` when the schema has a version, else nothing. */
  function SchemaVersion(schema: Schema): (r: string)
    ensures r == "" <==> schema.version.None?
  {
    match schema.version
    case Some(v) => Render(Call(VersionCallee, [Bare(IntToString(v as int))]), [])
    case None => ""
  }

  /** Reads the version statement back; nothing written reads as no version. */
  function ReadVersion(r: string): Option<int32> {
    match Decode(r)
    case Some(cs) =>
      if |cs| == 1 && cs[0].callee == VersionCallee && |cs[0].args| == 1 && cs[0].args[0].Bare? then
        match ParseInt(cs[0].args[0].text)
        case Some(i) => if -0x8000_0000 <= i < 0x8000_0000 then Some(i as int32) else None
        case None => None
      else None
    case None => None
  }

  lemma IntReadable(i: int)
    ensures ReadableArg(Bare(IntToString(i)))
  {
    var s := IntToString(i);
    assert IsDigit(s[0]) || s[0] == '-';
    forall k | 0 <= k < |s| ensures s[k] != ',' {
      assert IsDigit(s[k]) || s[k] == '-';
    }
  }

  lemma SchemaCalleesReadable()
    ensures ReadableName(VersionCallee) && ReadableName(NamespaceCallee) && ReadableName(SchemaCommentCallee)
  {
  }

  /** The version statement reads back as the schema's version. */
  lemma SchemaVersionRoundTrip(schema: Schema)
    ensures ReadVersion(SchemaVersion(schema)) == schema.version
  {
    match schema.version
    case Some(v) =>
      var c := Call(VersionCallee, [Bare(IntToString(v as int))]);
      SchemaCalleesReadable();
      IntReadable(v as int);
      ParseIntToString(v as int);
      DecodeRender(c, []);
    case None =>
  }

  /** A line break then `callee("text");` for a non-empty text, else nothing. */
  function TextStatement(callee: string, text: string): (r: string)
    ensures r == "" <==> text == ""
    ensures r != "" ==> r[0] == '\n'
  {
    if text != "" then "\n" + Render(Call(callee, [Quoted(text)]), []) else ""
  }

  /** Reads a one-literal statement back; nothing written reads as the empty text. */
  function ReadTextStatement(r: string, callee: string): Option<string> {
    if r == "" then Some("")
    else match Decode(r)
      case Some(cs) =>
        if |cs| == 1 && cs[0].callee == callee && |cs[0].args| == 1 && cs[0].args[0].Quoted?
        then Some(cs[0].args[0].text) else None
      case None => None
  }

  lemma TextStatementRoundTrip(callee: string, text: string)
    requires ReadableName(callee)
    ensures ReadTextStatement(TextStatement(callee, text), callee) == Some(text)
  {
    if text != "" {
      DecodeAfterNewline(Call(callee, [Quoted(text)]), []);
    }
  }

  /** A line break then `sb.namespace("ns");` when the namespace is set, else nothing. */
  function SchemaNamespace(schema: Schema): string {
    TextStatement(NamespaceCallee, schema.namespace)
  }

  /** A line break then `sb.comment("text");` when the schema has a comment, else nothing. */
  function SchemaComment(schema: Schema): string {
    TextStatement(SchemaCommentCallee, schema.comment)
  }

  /** The namespace statement reads back as the namespace, and is empty exactly when it is. */
  lemma SchemaNamespaceRoundTrip(schema: Schema)
    ensures SchemaNamespace(schema) == "" <==> schema.namespace == ""
    ensures ReadTextStatement(SchemaNamespace(schema), NamespaceCallee) == Some(schema.namespace)
  {
    SchemaCalleesReadable();
    TextStatementRoundTrip(NamespaceCallee, schema.namespace);
  }

  /** The comment statement reads back as the comment, and is empty exactly when it is. */
  lemma SchemaCommentRoundTrip(schema: Schema)
    ensures SchemaComment(schema) == "" <==> schema.comment == ""
    ensures ReadTextStatement(SchemaComment(schema), SchemaCommentCallee) == Some(schema.comment)
  {
    SchemaCalleesReadable();
    TextStatementRoundTrip(SchemaCommentCallee, schema.comment);
  }

  // ---------------------------------------------------------------------------
  // Literals
  // ---------------------------------------------------------------------------

  /** How a number is written: integers in decimal, 64-bit floats as Go prints them, `0` otherwise. */
  function NumberValueString(n: Number): (r: string)
    ensures n.NInt32? ==> ParseInt(r) == Some(n.i32 as int)
    ensures n.NInt64? ==> ParseInt(r) == Some(n.i64 as int)
    ensures n.NFloat64? ==> r == n.f64Text
    ensures n.NInt8? || n.NInt16? || n.NFloat32? ==> r == "0"
  {
    match n
    case NInt32(v) => ParseIntToString(v as int); IntToString(v as int)
    case NInt64(v) => ParseIntToString(v as int); IntToString(v as int)
    case NFloat64(text) => text
    case _ => "0"
  }

  /** Base types whose values are written as string literals. */
  predicate QuotedBaseType(b: BaseType) {
    b == String || b == Timestamp || b == UUID || b == Symbol
  }

  /** Base types whose values are written as Go prints them. */
  predicate VerbatimBaseType(b: BaseType) {
    b == Bool || b == Int8 || b == Int16 || b == Int32 || b == Int64 || b == Float32 || b == Float64
  }

  predicate QuotedLiteralType(t: Type) {
    t.StringT? || (t.BaseTypeT? && QuotedBaseType(t.baseType))
  }

  predicate VerbatimLiteralType(t: Type) {
    t.NumberT? || (t.BaseTypeT? && VerbatimBaseType(t.baseType))
  }

  /**
   * The Java literal for a value of type `t`, given the text Go prints for the
   * value: a string literal for the string-like types, `Name.value` for an enum,
   * the printed text for numbers and booleans, and `null` for every other type.
   */
  function JavaLiteral(t: Type, shown: string): (r: string)
    ensures QuotedLiteralType(t) ==> Unquote(r) == Some(shown)
    ensures VerbatimLiteralType(t) ==> r == shown
    ensures t.EnumT? ==> r == t.enumDef.name + "." + shown
    ensures !QuotedLiteralType(t) && !VerbatimLiteralType(t) && !t.EnumT? ==> r == "null"
    ensures NoNewline(shown) && (t.EnumT? ==> NoNewline(t.enumDef.name)) ==> NoNewline(r)
  {
    match t
    case StringT(_) => UnquoteQuote(shown); Quote(shown)
    case NumberT(_) => shown
    case AliasT(_) => "null"
    case BaseTypeT(b) =>
      if QuotedBaseType(b) then UnquoteQuote(shown); Quote(shown)
      else if VerbatimBaseType(b) then shown
      else "null"
    case EnumT(e) => e.name + "." + shown
    case _ => "null"
  }

  /** How `%v` writes a boolean; the text reads back as the boolean. */
  function BoolText(b: bool): (r: string)
    ensures ReadBool(r) == Some(b)
  {
    if b then "true" else "false"
  }

  function ReadBool(s: string): Option<bool> {
    if s == "true" then Some(true) else if s == "false" then Some(false) else None
  }

  /** The argument a literal is written as: a string literal, or bare text. */
  function LiteralArg(t: Type, shown: string): (a: Arg)
    ensures ArgText(a) == JavaLiteral(t, shown)
    ensures a.Quoted? <==> QuotedLiteralType(t)
  {
    if QuotedLiteralType(t) then Quoted(shown) else Bare(JavaLiteral(t, shown))
  }

  // ---------------------------------------------------------------------------
  // Optional clauses and how they read back
  // ---------------------------------------------------------------------------

  /** The arguments of a one-literal clause, present only for a non-empty text. */
  function TextValue(text: string): (v: Option<seq<Arg>>)
    ensures ReadableValue(v) && ReadText(v) == Some(text)
    ensures v.Some? <==> text != ""
  {
    if text != "" then Some([Quoted(text)]) else None
  }

  /**
   * The text a one-literal clause stands for: empty when the clause is absent.
   * A clause written with an empty literal is not one the generators write.
   */
  function ReadText(v: Option<seq<Arg>>): Option<string> {
    match v
    case None => Some("")
    case Some(args) => if |args| == 1 && args[0].Quoted? && args[0].text != "" then Some(args[0].text) else None
  }

  /** A one-literal clause that reads back is present exactly when its text is non-empty. */
  lemma ReadTextPresence(v: Option<seq<Arg>>, text: string)
    requires ReadText(v) == Some(text)
    ensures v.Some? <==> text != ""
  {
  }

  /** The arguments of a size clause, present only when the size is. */
  function SizeValue(n: Option<int32>): (v: Option<seq<Arg>>)
    ensures ReadableValue(v) && ReadSize(v) == Some(n)
    ensures v.Some? <==> n.Some?
  {
    match n
    case Some(x) =>
      ParseIntToString(x as int);
      IntReadable(x as int);
      Some([Bare(IntToString(x as int))])
    case None => None
  }

  function ReadSize(v: Option<seq<Arg>>): Option<Option<int32>> {
    match v
    case None => Some(None)
    case Some(args) =>
      if |args| == 1 && args[0].Bare? then
        match ParseInt(args[0].text)
        case Some(i) => if -0x8000_0000 <= i < 0x8000_0000 then Some(Some(i as int32)) else None
        case None => None
      else None
  }

  /** The head call holding the type's name. */
  function NamedHead(callee: string, name: string): Call {
    Call(callee, [Quoted(name)])
  }

  function ReadNamedHead(calls: seq<Call>, callee: string): Option<string> {
    if calls != [] && calls[0].callee == callee && |calls[0].args| == 1 && calls[0].args[0].Quoted?
    then Some(calls[0].args[0].text) else None
  }

  /** The optional `comment` clause every type statement starts with. */
  function CommentLines(comment: string): seq<Line> {
    OptionalLines(["comment"], [TextValue(comment)])
  }

  lemma CommentLinesStart(head: Call, comment: string)
    ensures Unterminated(head, CommentLines(comment)) ==
      if comment != "" then CallText(head) + "\n" + CallText(Chained("comment", [Quoted(comment)])) else CallText(head)
  {
    OptionalLinesSingle("comment", TextValue(comment));
    assert Unterminated(head, []) == CallText(head);
    if comment != "" {
      assert CommentLines(comment) == [] + [Clause(Chained("comment", [Quoted(comment)]))];
      AppendLine(head, [], Clause(Chained("comment", [Quoted(comment)])));
    }
  }

  /** The comment clause, then a run of clauses none of which is a comment, read back as written. */
  lemma ReadCommentThenRun(comment: string, run: seq<Call>, names: set<string>)
    requires NamedIn(run, names) && "comment" !in names
    ensures ReadOptional(CallsOf(CommentLines(comment)) + run, ["comment"]) == ([TextValue(comment)], run)
    ensures ReadRun(run, names) == (run, [])
  {
    ReadOptionalLines(["comment"], [TextValue(comment)], run);
    ReadRunOf(run, [], names);
    assert run + [] == run;
  }

  lemma CommentLinesReadable(comment: string)
    ensures ReadableBody(CommentLines(comment))
  {
    OptionalLinesReadable(["comment"], [TextValue(comment)]);
  }

  // ---------------------------------------------------------------------------
  // String types
  // ---------------------------------------------------------------------------

  const StringTypeCallee: string := "    sb.stringType"

  const StringTypeClauses: seq<string> := ["comment", "pattern", "minSize", "maxSize"]

  function StringTypeValues(t: StringTypeDef): seq<Option<seq<Arg>>> {
    [TextValue(t.comment), TextValue(t.pattern), SizeValue(t.minSize), SizeValue(t.maxSize)]
  }

  /** `sb.stringType(name)`, then `comment`, `pattern`, `minSize`, `maxSize` when present, then `;`. */
  function StringTypeConstructor(t: StringTypeDef): string {
    Render(NamedHead(StringTypeCallee, t.name), OptionalLines(StringTypeClauses, StringTypeValues(t)))
  }

  /** Reads a string type statement back into the type definition. */
  function ReadStringType(calls: seq<Call>): Option<StringTypeDef> {
    match ReadNamedHead(calls, StringTypeCallee)
    case None => None
    case Some(name) =>
      var (vs, rest) := ReadOptional(calls[1..], StringTypeClauses);
      match (ReadText(vs[0]), ReadText(vs[1]), ReadSize(vs[2]), ReadSize(vs[3]))
      case (Some(c), Some(p), Some(mn), Some(mx)) =>
        if rest == [] then Some(StringTypeDef(name, c, p, mn, mx)) else None
      case _ => None
  }

  /** A string type statement that reads back has each optional clause exactly when the definition has that part. */
  lemma StringTypeClausesPresent(calls: seq<Call>, t: StringTypeDef)
    requires ReadStringType(calls) == Some(t)
    ensures var vs := ReadOptional(calls[1..], StringTypeClauses).0;
      (vs[0].Some? <==> t.comment != "") && (vs[1].Some? <==> t.pattern != "")
      && (vs[2].Some? <==> t.minSize.Some?) && (vs[3].Some? <==> t.maxSize.Some?)
  {
    var vs := ReadOptional(calls[1..], StringTypeClauses).0;
    ReadTextPresence(vs[0], t.comment);
    ReadTextPresence(vs[1], t.pattern);
  }

  lemma StringTypeFacts()
    ensures ReadableName(StringTypeCallee)
    ensures ReadableNames(StringTypeClauses) && DistinctStrings(StringTypeClauses)
  {
  }

  lemma StringTypeValuesReadable(t: StringTypeDef)
    ensures ReadableValues(StringTypeValues(t))
  {
    var vs := StringTypeValues(t);
    assert ReadableValue(vs[0]) && ReadableValue(vs[1]) && ReadableValue(vs[2]) && ReadableValue(vs[3]);
  }

  lemma ReadStringTypeCalls(t: StringTypeDef, calls: seq<Call>)
    requires calls != [] && calls[0] == NamedHead(StringTypeCallee, t.name)
    requires ReadOptional(calls[1..], StringTypeClauses) == (StringTypeValues(t), [])
    ensures ReadStringType(calls) == Some(t)
  {
    var vs := StringTypeValues(t);
    assert ReadNamedHead(calls, StringTypeCallee) == Some(t.name);
    assert ReadText(vs[0]) == Some(t.comment) && ReadText(vs[1]) == Some(t.pattern);
    assert ReadSize(vs[2]) == Some(t.minSize) && ReadSize(vs[3]) == Some(t.maxSize);
  }

  /** The statement loses nothing: it reads back as the string type it was written for. */
  lemma StringTypeRoundTrip(t: StringTypeDef)
    ensures Decode(StringTypeConstructor(t)).Some?
    ensures ReadStringType(Decode(StringTypeConstructor(t)).value) == Some(t)
    ensures var vs := ReadOptional(Decode(StringTypeConstructor(t)).value[1..], StringTypeClauses).0;
      (vs[0].Some? <==> t.comment != "") && (vs[1].Some? <==> t.pattern != "")
      && (vs[2].Some? <==> t.minSize.Some?) && (vs[3].Some? <==> t.maxSize.Some?)
  {
    var head := NamedHead(StringTypeCallee, t.name);
    StringTypeFacts();
    StringTypeValuesReadable(t);
    DecodeOptional(head, StringTypeClauses, StringTypeValues(t));
    ReadOptionalAfterHead(head, StringTypeClauses, StringTypeValues(t));
    ReadStringTypeCalls(t, [head] + CallsOf(OptionalLines(StringTypeClauses, StringTypeValues(t))));
    StringTypeClausesPresent(Decode(StringTypeConstructor(t)).value, t);
  }

  // ---------------------------------------------------------------------------
  // Number types
  // ---------------------------------------------------------------------------

  const NumberTypeCallee: string := "    sb.numberType"

  const NumberTypeClauses: seq<string> := ["comment", "min", "max"]

  /** A bound whose text can be read back: every integer bound, and a float text without a comma. */
  predicate ReadableBound(n: Option<Number>) {
    n.Some? ==> ReadableArg(Bare(NumberValueString(n.value)))
  }

  /** The value a bound's text reads back as agrees with the bound. */
  predicate BoundReadsAs(text: Option<string>, n: Option<Number>) {
    (text.Some? <==> n.Some?)
    && (n.Some? && n.value.NInt32? ==> ParseInt(text.value) == Some(n.value.i32 as int))
    && (n.Some? && n.value.NInt64? ==> ParseInt(text.value) == Some(n.value.i64 as int))
    && (n.Some? && n.value.NFloat64? ==> text.value == n.value.f64Text)
  }

  /** The arguments of a `min` or `max` clause, present only when the bound is. */
  function BoundValue(n: Option<Number>): (v: Option<seq<Arg>>)
    ensures ReadBound(v).Some? && BoundReadsAs(ReadBound(v).value, n)
    ensures ReadableBound(n) ==> ReadableValue(v)
  {
    match n
    case Some(x) => Some([Bare(NumberValueString(x))])
    case None => None
  }

  function ReadBound(v: Option<seq<Arg>>): Option<Option<string>> {
    match v
    case None => Some(None)
    case Some(args) => if |args| == 1 && args[0].Bare? then Some(Some(args[0].text)) else None
  }

  function NumberTypeHead(t: NumberTypeDef): Call {
    Call(NumberTypeCallee, [Quoted(t.name), Quoted(t.numType)])
  }

  function NumberTypeValues(t: NumberTypeDef): seq<Option<seq<Arg>>> {
    [TextValue(t.comment), BoundValue(t.min), BoundValue(t.max)]
  }

  /** `sb.numberType(name, type)`, then `comment`, `min`, `max` when present, then `;`. */
  function NumberTypeConstructor(t: NumberTypeDef): string {
    Render(NumberTypeHead(t), OptionalLines(NumberTypeClauses, NumberTypeValues(t)))
  }

  /** What a number type statement says: the bounds are the texts written for them. */
  datatype NumberTypeText = NumberTypeText(
    name: string, numType: string, comment: string, min: Option<string>, max: Option<string>)

  function ReadNumberType(calls: seq<Call>): Option<NumberTypeText> {
    if calls != [] && calls[0].callee == NumberTypeCallee && |calls[0].args| == 2
      && calls[0].args[0].Quoted? && calls[0].args[1].Quoted? then
      var (vs, rest) := ReadOptional(calls[1..], NumberTypeClauses);
      match (ReadText(vs[0]), ReadBound(vs[1]), ReadBound(vs[2]))
      case (Some(c), Some(mn), Some(mx)) =>
        if rest == [] then Some(NumberTypeText(calls[0].args[0].text, calls[0].args[1].text, c, mn, mx)) else None
      case _ => None
    else None
  }

  /** A number type statement that reads back has a comment clause exactly for a non-empty comment, and each bound clause exactly for a bound. */
  lemma NumberTypeClausesPresent(calls: seq<Call>, r: NumberTypeText)
    requires ReadNumberType(calls) == Some(r)
    ensures var vs := ReadOptional(calls[1..], NumberTypeClauses).0;
      (vs[0].Some? <==> r.comment != "") && (vs[1].Some? <==> r.min.Some?) && (vs[2].Some? <==> r.max.Some?)
  {
    ReadTextPresence(ReadOptional(calls[1..], NumberTypeClauses).0[0], r.comment);
  }

  lemma NumberTypeFacts()
    ensures ReadableName(NumberTypeCallee)
    ensures ReadableNames(NumberTypeClauses) && DistinctStrings(NumberTypeClauses)
  {
  }

  lemma NumberTypeValuesReadable(t: NumberTypeDef)
    requires ReadableBound(t.min) && ReadableBound(t.max)
    ensures ReadableValues(NumberTypeValues(t))
  {
    var vs := NumberTypeValues(t);
    assert ReadableValue(vs[0]) && ReadableValue(vs[1]) && ReadableValue(vs[2]);
  }

  lemma ReadNumberTypeCalls(t: NumberTypeDef, calls: seq<Call>)
    requires calls != [] && calls[0] == NumberTypeHead(t)
    requires ReadOptional(calls[1..], NumberTypeClauses) == (NumberTypeValues(t), [])
    ensures var r := ReadNumberType(calls);
      r.Some? && r.value.name == t.name && r.value.numType == t.numType && r.value.comment == t.comment
      && BoundReadsAs(r.value.min, t.min) && BoundReadsAs(r.value.max, t.max)
  {
    var vs := NumberTypeValues(t);
    assert ReadText(vs[0]) == Some(t.comment);
    assert BoundReadsAs(ReadBound(vs[1]).value, t.min) && BoundReadsAs(ReadBound(vs[2]).value, t.max);
  }

  /**
   * The statement reads back as the number type's name, numeric type and comment,
   * and bounds whose integer values are those of the definition.
   */
  lemma NumberTypeRoundTrip(t: NumberTypeDef)
    requires ReadableBound(t.min) && ReadableBound(t.max)
    ensures Decode(NumberTypeConstructor(t)).Some?
    ensures var r := ReadNumberType(Decode(NumberTypeConstructor(t)).value);
      r.Some? && r.value.name == t.name && r.value.numType == t.numType && r.value.comment == t.comment
      && BoundReadsAs(r.value.min, t.min) && BoundReadsAs(r.value.max, t.max)
    ensures var vs := ReadOptional(Decode(NumberTypeConstructor(t)).value[1..], NumberTypeClauses).0;
      (vs[0].Some? <==> t.comment != "") && (vs[1].Some? <==> t.min.Some?) && (vs[2].Some? <==> t.max.Some?)
  {
    var head := NumberTypeHead(t);
    NumberTypeFacts();
    NumberTypeValuesReadable(t);
    DecodeOptional(head, NumberTypeClauses, NumberTypeValues(t));
    ReadOptionalAfterHead(head, NumberTypeClauses, NumberTypeValues(t));
    ReadNumberTypeCalls(t, [head] + CallsOf(OptionalLines(NumberTypeClauses, NumberTypeValues(t))));
    var calls := Decode(NumberTypeConstructor(t)).value;
    NumberTypeClausesPresent(calls, ReadNumberType(calls).value);
  }

  /** Every integer bound is readable. */
  lemma IntegerBoundsReadable(n: Option<Number>)
    requires n.Some? ==> !n.value.NFloat64?
    ensures ReadableBound(n)
  {
    if n.Some? {
      match n.value
      case NInt32(v) => IntReadable(v as int);
      case NInt64(v) => IntReadable(v as int);
      case _ =>
    }
  }

  // ---------------------------------------------------------------------------
  // Enum and union types: a comment, then one clause per element or variant
  // ---------------------------------------------------------------------------

  const EnumTypeCallee: string := "    sb.enumType"
  const UnionTypeCallee: string := "    sb.unionType"

  /** One `.item(value)` line per value. */
  function ItemLines(item: string, values: seq<string>): seq<Line> {
    seq(|values|, i requires 0 <= i < |values| => Clause(Chained(item, [Quoted(values[i])])))
  }

  function ListBody(comment: string, item: string, values: seq<string>): seq<Line> {
    CommentLines(comment) + ItemLines(item, values)
  }

  /** `callee(name)`, then `comment` when present, then one `.item(value)` per value, then `;`. */
  function ListStatement(callee: string, name: string, comment: string, item: string, values: seq<string>): string {
    Render(NamedHead(callee, name), ListBody(comment, item, values))
  }

  function Symbols(elements: seq<EnumElementDef>): (r: seq<string>)
    ensures |r| == |elements| && forall i :: 0 <= i < |elements| ==> r[i] == elements[i].symbol
  {
    seq(|elements|, i requires 0 <= i < |elements| => elements[i].symbol)
  }

  /** `sb.enumType(name)`, then `comment` when present, then one `element` per symbol, then `;`. */
  function EnumTypeConstructor(t: EnumTypeDef): string {
    ListStatement(EnumTypeCallee, t.name, t.comment, "element", Symbols(t.elements))
  }

  /** `sb.unionType(name)`, then `comment` when present, then one `variant` per variant, then `;`. */
  function UnionTypeConstructor(t: UnionTypeDef): string {
    ListStatement(UnionTypeCallee, t.name, t.comment, "variant", t.variants)
  }

  lemma ItemLinesSnoc(item: string, values: seq<string>, i: nat)
    requires i < |values|
    ensures ItemLines(item, values[..i + 1]) == ItemLines(item, values[..i]) + [Clause(Chained(item, [Quoted(values[i])]))]
  {
    var a := ItemLines(item, values[..i + 1]);
    var b := ItemLines(item, values[..i]) + [Clause(Chained(item, [Quoted(values[i])]))];
    assert |a| == |b|;
    forall k | 0 <= k < |a|
      ensures a[k] == b[k]
    {
    }
  }

  lemma ListBodySnoc(comment: string, item: string, values: seq<string>, i: nat)
    requires i < |values|
    ensures ListBody(comment, item, values[..i + 1])
      == ListBody(comment, item, values[..i]) + [Clause(Chained(item, [Quoted(values[i])]))]
  {
    ItemLinesSnoc(item, values, i);
    var c := Clause(Chained(item, [Quoted(values[i])]));
    assert CommentLines(comment) + (ItemLines(item, values[..i]) + [c])
      == CommentLines(comment) + ItemLines(item, values[..i]) + [c];
  }

  /** One more value adds its clause on a line of its own. */
  lemma ListAppendItem(head: Call, comment: string, item: string, values: seq<string>, i: nat)
    requires i < |values|
    ensures Unterminated(head, ListBody(comment, item, values[..i + 1]))
      == Unterminated(head, ListBody(comment, item, values[..i])) + "\n" + CallText(Chained(item, [Quoted(values[i])]))
  {
    ListBodySnoc(comment, item, values, i);
    AppendLine(head, ListBody(comment, item, values[..i]), Clause(Chained(item, [Quoted(values[i])])));
  }

  lemma ListBodyStart(head: Call, comment: string, item: string, values: seq<string>)
    ensures Unterminated(head, ListBody(comment, item, values[..0])) ==
      if comment != "" then CallText(head) + "\n" + CallText(Chained("comment", [Quoted(comment)])) else CallText(head)
  {
    assert ItemLines(item, values[..0]) == [];
    assert ListBody(comment, item, values[..0]) == CommentLines(comment);
    CommentLinesStart(head, comment);
  }

  /** Writes the enum statement clause by clause. */
  method GenerateEnumTypeConstructor(t: EnumTypeDef) returns (s: string)
    ensures s == EnumTypeConstructor(t)
  {
    var head := NamedHead(EnumTypeCallee, t.name);
    s := CallText(head);
    if t.comment != "" {
      s := s + "\n" + CallText(Chained("comment", [Quoted(t.comment)]));
    }
    ListBodyStart(head, t.comment, "element", Symbols(t.elements));
    for i := 0 to |t.elements|
      invariant s == Unterminated(head, ListBody(t.comment, "element", Symbols(t.elements)[..i]))
    {
      ListAppendItem(head, t.comment, "element", Symbols(t.elements), i);
      s := s + "\n" + CallText(Chained("element", [Quoted(t.elements[i].symbol)]));
    }
    assert Symbols(t.elements)[..|t.elements|] == Symbols(t.elements);
    s := s + ";";
  }

  /** Writes the union statement clause by clause. */
  method GenerateUnionTypeConstructor(t: UnionTypeDef) returns (s: string)
    ensures s == UnionTypeConstructor(t)
  {
    var head := NamedHead(UnionTypeCallee, t.name);
    s := CallText(head);
    if t.comment != "" {
      s := s + "\n" + CallText(Chained("comment", [Quoted(t.comment)]));
    }
    ListBodyStart(head, t.comment, "variant", t.variants);
    for i := 0 to |t.variants|
      invariant s == Unterminated(head, ListBody(t.comment, "variant", t.variants[..i]))
    {
      ListAppendItem(head, t.comment, "variant", t.variants, i);
      s := s + "\n" + CallText(Chained("variant", [Quoted(t.variants[i])]));
    }
    assert t.variants[..|t.variants|] == t.variants;
    s := s + ";";
  }

  /** What an enum or union statement says. */
  datatype ListTypeText = ListTypeText(name: string, comment: string, values: seq<string>)

  /** The values of a run of one-literal clauses. */
  function ReadValues(cs: seq<Call>): Option<seq<string>> {
    if cs == [] then Some([])
    else if |cs[0].args| == 1 && cs[0].args[0].Quoted? then
      match ReadValues(cs[1..])
      case Some(vs) => Some([cs[0].args[0].text] + vs)
      case None => None
    else None
  }

  /** Reads an enum (`item` is `element`) or union (`item` is `variant`) statement back. */
  function ReadListType(calls: seq<Call>, callee: string, item: string): Option<ListTypeText> {
    match ReadNamedHead(calls, callee)
    case None => None
    case Some(name) =>
      var (vs, rest) := ReadOptional(calls[1..], ["comment"]);
      var (run, rest2) := ReadRun(rest, {item});
      match (ReadText(vs[0]), ReadValues(run))
      case (Some(c), Some(values)) => if rest2 == [] then Some(ListTypeText(name, c, values)) else None
      case _ => None
  }

  /** An enum or union statement that reads back has a comment clause exactly for a non-empty comment. */
  lemma ListCommentPresent(calls: seq<Call>, callee: string, item: string, r: ListTypeText)
    requires ReadListType(calls, callee, item) == Some(r)
    ensures ReadOptional(calls[1..], ["comment"]).0[0].Some? <==> r.comment != ""
  {
    ReadTextPresence(ReadOptional(calls[1..], ["comment"]).0[0], r.comment);
  }

  function ItemCalls(item: string, values: seq<string>): seq<Call> {
    seq(|values|, i requires 0 <= i < |values| => Chained(item, [Quoted(values[i])]))
  }

  lemma {:induction false} ReadValuesItems(item: string, values: seq<string>)
    ensures ReadValues(ItemCalls(item, values)) == Some(values)
  {
    if values != [] {
      ReadValuesItems(item, values[1..]);
      assert ItemCalls(item, values)[1..] == ItemCalls(item, values[1..]);
      assert [values[0]] + values[1..] == values;
    }
  }

  lemma ListBodyCalls(comment: string, item: string, values: seq<string>)
    requires '(' !in item && NoNewline(item)
    ensures ReadableBody(ListBody(comment, item, values))
    ensures CallsOf(ListBody(comment, item, values))
      == CallsOf(CommentLines(comment)) + ItemCalls(item, values)
    ensures NamedIn(ItemCalls(item, values), {item})
  {
    CommentLinesReadable(comment);
    CallsOfConcat(CommentLines(comment), ItemLines(item, values));
    CallsOfClauses(ItemCalls(item, values), ItemLines(item, values));
    forall i | 0 <= i < |values|
      ensures ReadableCall(ItemCalls(item, values)[i])
      ensures NameOf(ItemCalls(item, values)[i].callee) == Some(item)
    {
      ChainedReadable(item, [Quoted(values[i])]);
      NameOfChained(item, [Quoted(values[i])]);
    }
  }

  lemma DecodeListStatement(callee: string, name: string, comment: string, item: string, values: seq<string>)
    requires '(' !in callee && NoNewline(callee) && '(' !in item && NoNewline(item)
    ensures Decode(ListStatement(callee, name, comment, item, values))
      == Some([NamedHead(callee, name)] + (CallsOf(CommentLines(comment)) + ItemCalls(item, values)))
  {
    ListBodyCalls(comment, item, values);
    CommentLinesReadable(comment);
    ReadableConcat(CommentLines(comment), ItemLines(item, values));
    DecodeRender(NamedHead(callee, name), ListBody(comment, item, values));
  }

  lemma ReadListCalls(callee: string, name: string, comment: string, item: string, values: seq<string>)
    requires '(' !in item && NoNewline(item) && item != "comment"
    ensures ReadListType([NamedHead(callee, name)] + (CallsOf(CommentLines(comment)) + ItemCalls(item, values)), callee, item)
      == Some(ListTypeText(name, comment, values))
  {
    var head := NamedHead(callee, name);
    var items := ItemCalls(item, values);
    ListBodyCalls(comment, item, values);
    var calls := [head] + (CallsOf(CommentLines(comment)) + items);
    assert calls[1..] == CallsOf(CommentLines(comment)) + items;
    ReadCommentThenRun(comment, items, {item});
    ReadValuesItems(item, values);
  }

  /** An enum or union statement reads back as its name, comment and values, in order. */
  lemma ListStatementRoundTrip(callee: string, name: string, comment: string, item: string, values: seq<string>)
    requires '(' !in callee && NoNewline(callee) && '(' !in item && NoNewline(item) && item != "comment"
    ensures Decode(ListStatement(callee, name, comment, item, values)).Some?
    ensures ReadListType(Decode(ListStatement(callee, name, comment, item, values)).value, callee, item)
      == Some(ListTypeText(name, comment, values))
    ensures ReadOptional(Decode(ListStatement(callee, name, comment, item, values)).value[1..], ["comment"]).0[0].Some?
      <==> comment != ""
  {
    DecodeListStatement(callee, name, comment, item, values);
    ReadListCalls(callee, name, comment, item, values);
    ListCommentPresent(Decode(ListStatement(callee, name, comment, item, values)).value, callee, item,
      ListTypeText(name, comment, values));
  }

  lemma ListCallees()
    ensures '(' !in EnumTypeCallee && NoNewline(EnumTypeCallee)
    ensures '(' !in UnionTypeCallee && NoNewline(UnionTypeCallee)
  {
  }

  /** The enum statement reads back as the enum's name, comment and symbols, in order. */
  lemma EnumTypeRoundTrip(t: EnumTypeDef)
    ensures Decode(EnumTypeConstructor(t)).Some?
    ensures ReadListType(Decode(EnumTypeConstructor(t)).value, EnumTypeCallee, "element")
      == Some(ListTypeText(t.name, t.comment, Symbols(t.elements)))
    ensures ReadOptional(Decode(EnumTypeConstructor(t)).value[1..], ["comment"]).0[0].Some? <==> t.comment != ""
  {
    ListCallees();
    ListStatementRoundTrip(EnumTypeCallee, t.name, t.comment, "element", Symbols(t.elements));
  }

  /** The union statement reads back as the union's name, comment and variants, in order. */
  lemma UnionTypeRoundTrip(t: UnionTypeDef)
    ensures Decode(UnionTypeConstructor(t)).Some?
    ensures ReadListType(Decode(UnionTypeConstructor(t)).value, UnionTypeCallee, "variant")
      == Some(ListTypeText(t.name, t.comment, t.variants))
    ensures ReadOptional(Decode(UnionTypeConstructor(t)).value[1..], ["comment"]).0[0].Some? <==> t.comment != ""
  {
    ListCallees();
    ListStatementRoundTrip(UnionTypeCallee, t.name, t.comment, "variant", t.variants);
  }

  // ---------------------------------------------------------------------------
  // Struct types: a comment, then one clause per field
  // ---------------------------------------------------------------------------

  const StructTypeCallee: string := "    sb.structType"

  /** The chained calls a field can be written as. */
  const FieldClauses: set<string> := {"mapField", "arrayField", "field"}

  /** `sb.structType(name)`, with the super type as a second literal unless it is `Struct`. */
  function StructHead(t: StructTypeDef): Call {
    Call(StructTypeCallee, [Quoted(t.name)] + if t.superType != "Struct" then [Quoted(t.superType)] else [])
  }

  /**
   * The Java text for a field's default value: the literal for the field's
   * type when the registry knows the type, `null` otherwise.
   */
  function DefaultText(reg: TypeRegistry, typeName: string, shown: string): string {
    match FindType(reg, typeName)
    case Some(ft) => JavaLiteral(ft, shown)
    case None => "null"
  }

  /** The default as an argument: a string literal for string-like types, bare text otherwise. */
  function DefaultArg(reg: TypeRegistry, typeName: string, shown: string): (a: Arg)
    ensures ArgText(a) == DefaultText(reg, typeName, shown)
    ensures a.Quoted? ==> a.text == shown
  {
    match FindType(reg, typeName)
    case Some(ft) => LiteralArg(ft, shown)
    case None => Bare("null")
  }

  /**
   * `.mapField(name, keys, items, optional, comment)` for a field with keys,
   * `.arrayField(name, items, optional, comment)` for one with items, and
   * `.field(name, type, optional, comment)` otherwise, with the default value
   * as a fifth argument when the field has one.
   */
  function FieldCall(reg: TypeRegistry, f: StructFieldDef): (c: Call)
    ensures NameOf(c.callee).Some? && NameOf(c.callee).value in FieldClauses
  {
    NameOfChained(FieldClause(f), FieldArgs(reg, f));
    Chained(FieldClause(f), FieldArgs(reg, f))
  }

  function FieldClause(f: StructFieldDef): (name: string)
    ensures name in FieldClauses
  {
    if f.keys != "" then "mapField" else if f.items != "" then "arrayField" else "field"
  }

  function FieldArgs(reg: TypeRegistry, f: StructFieldDef): seq<Arg> {
    if f.keys != "" then
      [Quoted(f.name), Quoted(f.keys), Quoted(f.items), Bare(BoolText(f.optional)), Quoted(f.comment)]
    else if f.items != "" then
      [Quoted(f.name), Quoted(f.items), Bare(BoolText(f.optional)), Quoted(f.comment)]
    else if f.default.Some? then
      [Quoted(f.name), Quoted(f.fieldType), Bare(BoolText(f.optional)), Quoted(f.comment),
       DefaultArg(reg, f.fieldType, f.default.value)]
    else
      [Quoted(f.name), Quoted(f.fieldType), Bare(BoolText(f.optional)), Quoted(f.comment)]
  }

  function FieldLines(reg: TypeRegistry, fields: seq<StructFieldDef>): seq<Line> {
    seq(|fields|, i requires 0 <= i < |fields| => Clause(FieldCall(reg, fields[i])))
  }

  function FieldCalls(reg: TypeRegistry, fields: seq<StructFieldDef>): seq<Call> {
    seq(|fields|, i requires 0 <= i < |fields| => FieldCall(reg, fields[i]))
  }

  function StructBody(reg: TypeRegistry, comment: string, fields: seq<StructFieldDef>): seq<Line> {
    CommentLines(comment) + FieldLines(reg, fields)
  }

  /** The head, then `comment` when present, then one clause per field, in order, then `;`. */
  function StructTypeConstructor(reg: TypeRegistry, t: StructTypeDef): string {
    Render(StructHead(t), StructBody(reg, t.comment, t.fields))
  }

  lemma StructBodySnoc(reg: TypeRegistry, comment: string, fields: seq<StructFieldDef>, i: nat)
    requires i < |fields|
    ensures StructBody(reg, comment, fields[..i + 1])
      == StructBody(reg, comment, fields[..i]) + [Clause(FieldCall(reg, fields[i]))]
  {
    var c := Clause(FieldCall(reg, fields[i]));
    var a := FieldLines(reg, fields[..i + 1]);
    var b := FieldLines(reg, fields[..i]) + [c];
    assert a == b by {
      assert |a| == |b|;
      forall k | 0 <= k < |a|
        ensures a[k] == b[k]
      {
        if k < i {
          assert fields[..i + 1][k] == fields[..i][k];
        } else {
          assert fields[..i + 1][k] == fields[i];
        }
      }
    }
    assert CommentLines(comment) + (FieldLines(reg, fields[..i]) + [c])
      == CommentLines(comment) + FieldLines(reg, fields[..i]) + [c];
  }

  lemma StructHeadText(t: StructTypeDef)
    ensures CallText(StructHead(t)) ==
      if t.superType != "Struct" then StructTypeCallee + "(" + Quote(t.name) + ", " + Quote(t.superType) + ")"
      else StructTypeCallee + "(" + Quote(t.name) + ")"
  {
    var args := StructHead(t).args;
    if t.superType != "Struct" {
      assert args[1..] == [Quoted(t.superType)];
      assert ArgList(args) == Quote(t.name) + ", " + Quote(t.superType);
    } else {
      assert args == [Quoted(t.name)];
    }
  }

  /** Writes the field's line as the generator does, branch by branch. */
  method GenerateFieldLine(reg: TypeRegistry, f: StructFieldDef) returns (line: string)
    ensures line == CallText(FieldCall(reg, f))
  {
    if f.keys != "" {
      line := CallText(Chained("mapField", [Quoted(f.name), Quoted(f.keys), Quoted(f.items), Bare(BoolText(f.optional)), Quoted(f.comment)]));
    } else if f.items != "" {
      line := CallText(Chained("arrayField", [Quoted(f.name), Quoted(f.items), Bare(BoolText(f.optional)), Quoted(f.comment)]));
    } else if f.default.Some? {
      var ss := "null";
      var ft := FindType(reg, f.fieldType);
      if ft.Some? {
        ss := JavaLiteral(ft.value, f.default.value);
      }
      var written := [Quoted(f.name), Quoted(f.fieldType), Bare(BoolText(f.optional)), Quoted(f.comment), Bare(ss)];
      var modelled := [Quoted(f.name), Quoted(f.fieldType), Bare(BoolText(f.optional)), Quoted(f.comment), DefaultArg(reg, f.fieldType, f.default.value)];
      ArgListSameTexts(written, modelled);
      assert FieldArgs(reg, f) == modelled;
      line := CallText(Chained("field", written));
    } else {
      line := CallText(Chained("field", [Quoted(f.name), Quoted(f.fieldType), Bare(BoolText(f.optional)), Quoted(f.comment)]));
    }
  }

  /** Writes the struct statement: the head, the comment, then the fields one by one. */
  method GenerateStructTypeConstructor(reg: TypeRegistry, t: StructTypeDef) returns (s: string)
    ensures s == StructTypeConstructor(reg, t)
  {
    var head := StructHead(t);
    s := StructTypeCallee + "(" + Quote(t.name);
    if t.superType != "Struct" {
      s := s + ", " + Quote(t.superType) + ")";
    } else {
      s := s + ")";
    }
    StructHeadText(t);
    if t.comment != "" {
      s := s + "\n" + CallText(Chained("comment", [Quoted(t.comment)]));
    }
    CommentLinesStart(head, t.comment);
    assert StructBody(reg, t.comment, t.fields[..0]) == CommentLines(t.comment);
    for i := 0 to |t.fields|
      invariant s == Unterminated(head, StructBody(reg, t.comment, t.fields[..i]))
    {
      var line := GenerateFieldLine(reg, t.fields[i]);
      StructBodySnoc(reg, t.comment, t.fields, i);
      AppendLine(head, StructBody(reg, t.comment, t.fields[..i]), Clause(FieldCall(reg, t.fields[i])));
      s := s + "\n" + line;
    }
    assert t.fields[..|t.fields|] == t.fields;
    s := s + ";";
  }

  /** What a field's line says; a default is the argument written for it. */
  datatype FieldText =
    | MapFieldText(name: string, keys: string, items: string, optional: bool, comment: string)
    | ArrayFieldText(name: string, items: string, optional: bool, comment: string)
    | PlainFieldText(name: string, fieldType: string, optional: bool, comment: string, default: Option<Arg>)

  function ReadField(c: Call): Option<FieldText> {
    var a := c.args;
    if NameOf(c.callee) == Some("mapField") then
      if |a| == 5 && a[0].Quoted? && a[1].Quoted? && a[2].Quoted? && a[3].Bare? && a[4].Quoted?
        && ReadBool(a[3].text).Some?
      then Some(MapFieldText(a[0].text, a[1].text, a[2].text, ReadBool(a[3].text).value, a[4].text))
      else None
    else if NameOf(c.callee) == Some("arrayField") then
      if |a| == 4 && a[0].Quoted? && a[1].Quoted? && a[2].Bare? && a[3].Quoted? && ReadBool(a[2].text).Some?
      then Some(ArrayFieldText(a[0].text, a[1].text, ReadBool(a[2].text).value, a[3].text))
      else None
    else if NameOf(c.callee) == Some("field") then
      if (|a| == 4 || |a| == 5) && a[0].Quoted? && a[1].Quoted? && a[2].Bare? && a[3].Quoted?
        && ReadBool(a[2].text).Some?
      then Some(PlainFieldText(a[0].text, a[1].text, ReadBool(a[2].text).value, a[3].text,
                               if |a| == 5 then Some(a[4]) else None))
      else None
    else None
  }

  function ReadFields(cs: seq<Call>): Option<seq<FieldText>> {
    if cs == [] then Some([])
    else match (ReadField(cs[0]), ReadFields(cs[1..]))
      case (Some(f), Some(fs)) => Some([f] + fs)
      case _ => None
  }

  /**
   * A field's line read back agrees with the field: a map field exactly when it
   * has keys, an array field when it has items but no keys, a plain field
   * otherwise; the name, the types, the optional flag and the comment are the
   * field's, and a plain field carries a default exactly when the field has
   * one, written as the default's Java text.
   */
  predicate FieldReadsAs(ft: FieldText, reg: TypeRegistry, f: StructFieldDef) {
    ft.name == f.name && ft.optional == f.optional && ft.comment == f.comment
    && (ft.MapFieldText? <==> f.keys != "")
    && (ft.ArrayFieldText? <==> f.keys == "" && f.items != "")
    && (ft.MapFieldText? ==> ft.keys == f.keys && ft.items == f.items)
    && (ft.ArrayFieldText? ==> ft.items == f.items)
    && (ft.PlainFieldText? ==> ft.fieldType == f.fieldType && (ft.default.Some? <==> f.default.Some?))
    && (ft.PlainFieldText? && ft.default.Some? ==>
          ArgText(ft.default.value) == DefaultText(reg, f.fieldType, f.default.value))
  }

  /** A default whose Java text can be read back. */
  predicate ReadableDefault(reg: TypeRegistry, f: StructFieldDef) {
    f.keys == "" && f.items == "" && f.default.Some? ==> ReadableArg(DefaultArg(reg, f.fieldType, f.default.value))
  }

  lemma BoolTextReadable(b: bool)
    ensures ReadableArg(Bare(BoolText(b)))
  {
  }

  lemma FieldArgsReadable(reg: TypeRegistry, f: StructFieldDef)
    requires ReadableDefault(reg, f)
    ensures forall i :: 0 <= i < |FieldArgs(reg, f)| ==> ReadableArg(FieldArgs(reg, f)[i])
  {
    BoolTextReadable(f.optional);
  }

  lemma FieldCallReadable(reg: TypeRegistry, f: StructFieldDef)
    requires ReadableDefault(reg, f)
    ensures ReadableCall(FieldCall(reg, f))
  {
    FieldArgsReadable(reg, f);
    assert ReadableName(FieldClause(f));
    ChainedReadable(FieldClause(f), FieldArgs(reg, f));
  }

  /** Every field's line reads back as the field. */
  lemma ReadFieldCall(reg: TypeRegistry, f: StructFieldDef)
    ensures ReadField(FieldCall(reg, f)).Some?
    ensures FieldReadsAs(ReadField(FieldCall(reg, f)).value, reg, f)
  {
    assert ReadBool(BoolText(f.optional)) == Some(f.optional);
    NameOfChained(FieldClause(f), FieldArgs(reg, f));
  }

  /** Reading one more field in front of fields that read back as `fs`. */
  lemma ReadFieldsStep(c: Call, cs: seq<Call>, reg: TypeRegistry, f0: StructFieldDef, fs: seq<StructFieldDef>)
    requires ReadField(c).Some? && FieldReadsAs(ReadField(c).value, reg, f0)
    requires ReadFields(cs).Some? && |ReadFields(cs).value| == |fs|
    requires forall i :: 0 <= i < |fs| ==> FieldReadsAs(ReadFields(cs).value[i], reg, fs[i])
    ensures ReadFields([c] + cs).Some?
    ensures var r := ReadFields([c] + cs).value; var f := [f0] + fs;
      |r| == |f| && forall i :: 0 <= i < |f| ==> FieldReadsAs(r[i], reg, f[i])
  {
    assert ([c] + cs)[0] == c && ([c] + cs)[1..] == cs;
    var r0 := ReadField(c).value;
    var rs := ReadFields(cs).value;
    var r := [r0] + rs;
    var f := [f0] + fs;
    assert ReadFields([c] + cs) == Some(r);
    forall i | 0 <= i < |f|
      ensures FieldReadsAs(r[i], reg, f[i])
    {
      if i > 0 {
        assert r[i] == rs[i - 1] && f[i] == fs[i - 1];
      }
    }
  }

  lemma FieldCallsCons(reg: TypeRegistry, fields: seq<StructFieldDef>)
    requires fields != []
    ensures FieldCalls(reg, fields) == [FieldCall(reg, fields[0])] + FieldCalls(reg, fields[1..])
  {
    var cs := FieldCalls(reg, fields);
    var ds := [FieldCall(reg, fields[0])] + FieldCalls(reg, fields[1..]);
    forall k | 0 <= k < |cs|
      ensures cs[k] == ds[k]
    {
      if k > 0 {
        assert fields[k] == fields[1..][k - 1];
      }
    }
  }

  lemma {:induction false} ReadFieldsCalls(reg: TypeRegistry, fields: seq<StructFieldDef>)
    ensures ReadFields(FieldCalls(reg, fields)).Some?
    ensures var r := ReadFields(FieldCalls(reg, fields)).value;
      |r| == |fields| && forall i :: 0 <= i < |fields| ==> FieldReadsAs(r[i], reg, fields[i])
  {
    if fields != [] {
      ReadFieldCall(reg, fields[0]);
      ReadFieldsCalls(reg, fields[1..]);
      FieldCallsCons(reg, fields);
      ReadFieldsStep(FieldCall(reg, fields[0]), FieldCalls(reg, fields[1..]), reg, fields[0], fields[1..]);
      assert fields == [fields[0]] + fields[1..];
    }
  }

  /** What a struct statement says. */
  datatype StructText = StructText(name: string, superType: string, comment: string, fields: seq<FieldText>)

  /**
   * Reads a struct statement back; a head with one literal extends `Struct`,
   * and a second literal that names `Struct` is not one the generator writes.
   */
  function ReadStructType(calls: seq<Call>): Option<StructText> {
    if calls != [] && calls[0].callee == StructTypeCallee
      && (|calls[0].args| == 1 || (|calls[0].args| == 2 && calls[0].args[1] != Quoted("Struct")))
      && forall k :: 0 <= k < |calls[0].args| ==> calls[0].args[k].Quoted?
    then
      var args := calls[0].args;
      var superType := if |args| == 2 then args[1].text else "Struct";
      var (vs, rest) := ReadOptional(calls[1..], ["comment"]);
      var (run, rest2) := ReadRun(rest, FieldClauses);
      match (ReadText(vs[0]), ReadFields(run))
      case (Some(c), Some(fields)) =>
        if rest2 == [] then Some(StructText(args[0].text, superType, c, fields)) else None
      case _ => None
    else None
  }

  /**
   * A struct statement that reads back names a super type in its head exactly
   * when the super type is not `Struct`, and has a comment clause exactly for a
   * non-empty comment.
   */
  lemma StructClausesPresent(calls: seq<Call>, r: StructText)
    requires ReadStructType(calls) == Some(r)
    ensures |calls[0].args| == 2 <==> r.superType != "Struct"
    ensures ReadOptional(calls[1..], ["comment"]).0[0].Some? <==> r.comment != ""
  {
    ReadTextPresence(ReadOptional(calls[1..], ["comment"]).0[0], r.comment);
  }

  lemma FieldLinesReadable(reg: TypeRegistry, fields: seq<StructFieldDef>)
    requires forall i :: 0 <= i < |fields| ==> ReadableDefault(reg, fields[i])
    ensures ReadableBody(FieldLines(reg, fields))
  {
    forall i | 0 <= i < |fields|
      ensures ReadableCall(FieldLines(reg, fields)[i].call)
    {
      FieldCallReadable(reg, fields[i]);
    }
  }

  lemma StructBodyCalls(reg: TypeRegistry, comment: string, fields: seq<StructFieldDef>)
    requires forall i :: 0 <= i < |fields| ==> ReadableDefault(reg, fields[i])
    ensures ReadableBody(StructBody(reg, comment, fields))
    ensures CallsOf(StructBody(reg, comment, fields)) == CallsOf(CommentLines(comment)) + FieldCalls(reg, fields)
    ensures NamedIn(FieldCalls(reg, fields), FieldClauses)
  {
    CommentLinesReadable(comment);
    FieldLinesReadable(reg, fields);
    ReadableConcat(CommentLines(comment), FieldLines(reg, fields));
    CallsOfConcat(CommentLines(comment), FieldLines(reg, fields));
    CallsOfClauses(FieldCalls(reg, fields), FieldLines(reg, fields));
  }

  lemma StructCalleeReadable()
    ensures ReadableName(StructTypeCallee) && "comment" !in FieldClauses
  {
  }

  lemma DecodeStruct(reg: TypeRegistry, t: StructTypeDef)
    requires forall i :: 0 <= i < |t.fields| ==> ReadableDefault(reg, t.fields[i])
    ensures Decode(StructTypeConstructor(reg, t))
      == Some([StructHead(t)] + (CallsOf(CommentLines(t.comment)) + FieldCalls(reg, t.fields)))
  {
    StructCalleeReadable();
    StructBodyCalls(reg, t.comment, t.fields);
    DecodeRender(StructHead(t), StructBody(reg, t.comment, t.fields));
  }

  lemma StructHeadArgs(t: StructTypeDef)
    ensures var args := StructHead(t).args;
      (|args| == 1 || (|args| == 2 && args[1] != Quoted("Struct"))) && (forall k :: 0 <= k < |args| ==> args[k].Quoted?)
      && args[0].text == t.name && (if |args| == 2 then args[1].text else "Struct") == t.superType
  {
  }

  lemma FieldCallsNamed(reg: TypeRegistry, fields: seq<StructFieldDef>)
    ensures NamedIn(FieldCalls(reg, fields), FieldClauses)
  {
  }

  /** A struct statement read back agrees with the struct, field by field. */
  predicate StructReadsAs(r: StructText, reg: TypeRegistry, t: StructTypeDef) {
    r.name == t.name && r.superType == t.superType && r.comment == t.comment
    && |r.fields| == |t.fields|
    && forall i :: 0 <= i < |t.fields| ==> FieldReadsAs(r.fields[i], reg, t.fields[i])
  }

  lemma ReadStructParts(calls: seq<Call>, head: Call, comment: string, run: seq<Call>, fts: seq<FieldText>)
    requires calls == [head] + (CallsOf(CommentLines(comment)) + run)
    requires head.callee == StructTypeCallee && (|head.args| == 1 || (|head.args| == 2 && head.args[1] != Quoted("Struct")))
    requires forall k :: 0 <= k < |head.args| ==> head.args[k].Quoted?
    requires NamedIn(run, FieldClauses) && ReadFields(run) == Some(fts)
    ensures ReadStructType(calls) == Some(StructText(head.args[0].text,
      if |head.args| == 2 then head.args[1].text else "Struct", comment, fts))
  {
    StructCalleeReadable();
    assert calls[0] == head && calls[1..] == CallsOf(CommentLines(comment)) + run;
    ReadCommentThenRun(comment, run, FieldClauses);
  }

  lemma ReadStructCalls(reg: TypeRegistry, t: StructTypeDef)
    ensures var r := ReadStructType([StructHead(t)] + (CallsOf(CommentLines(t.comment)) + FieldCalls(reg, t.fields)));
      r.Some? && StructReadsAs(r.value, reg, t)
  {
    var fcs := FieldCalls(reg, t.fields);
    StructHeadArgs(t);
    FieldCallsNamed(reg, t.fields);
    ReadFieldsCalls(reg, t.fields);
    ReadStructParts([StructHead(t)] + (CallsOf(CommentLines(t.comment)) + fcs), StructHead(t), t.comment, fcs,
      ReadFields(fcs).value);
  }

  /**
   * The struct statement reads back as the struct's name, super type and
   * comment, and one field text per field, in order, each agreeing with its
   * field.
   */
  lemma StructTypeRoundTrip(reg: TypeRegistry, t: StructTypeDef)
    requires forall i :: 0 <= i < |t.fields| ==> ReadableDefault(reg, t.fields[i])
    ensures Decode(StructTypeConstructor(reg, t)).Some?
    ensures var r := ReadStructType(Decode(StructTypeConstructor(reg, t)).value);
      r.Some? && StructReadsAs(r.value, reg, t)
    ensures var calls := Decode(StructTypeConstructor(reg, t)).value;
      (|calls[0].args| == 2 <==> t.superType != "Struct")
      && (ReadOptional(calls[1..], ["comment"]).0[0].Some? <==> t.comment != "")
  {
    DecodeStruct(reg, t);
    ReadStructCalls(reg, t);
    var calls := Decode(StructTypeConstructor(reg, t)).value;
    StructClausesPresent(calls, ReadStructType(calls).value);
  }

  /** A string-typed default reads back as the very value the field declares. */
  lemma StringDefaultReadsBack(reg: TypeRegistry, f: StructFieldDef, ft: FieldText)
    requires f.keys == "" && f.items == "" && f.default.Some? && FieldReadsAs(ft, reg, f)
    requires f.fieldType in reg && QuotedLiteralType(reg[f.fieldType])
    ensures ft.PlainFieldText? && ft.default.Some? && Unquote(ArgText(ft.default.value)) == Some(f.default.value)
  {
  }

  // ---------------------------------------------------------------------------
  // One statement per type definition
  // ---------------------------------------------------------------------------

  /** The type variants written as a comment saying they are not yet implemented. */
  predicate NotYetImplemented(t: Type) {
    t.BaseTypeT? || t.MapT? || t.ArrayT? || t.BytesT? || t.UnknownVariant?
  }

  /** The type variants written as a builder statement. */
  predicate Generated(t: Type) {
    t.StructT? || t.EnumT? || t.StringT? || t.NumberT? || t.UnionT?
  }

  lemma RenderStartsWith(head: Call, body: seq<Line>, p: string)
    requires StartsWith(head.callee, p)
    ensures StartsWith(Render(head, body), p)
  {
    var r := Render(head, body);
    assert r == head.callee + ("(" + ArgList(head.args) + ")" + JoinLines(LineTexts(body)) + ";");
    assert r[..|p|] == head.callee[..|p|];
  }

  lemma BuilderCallees()
    ensures StartsWith(StringTypeCallee, "    sb.") && StartsWith(NumberTypeCallee, "    sb.")
    ensures StartsWith(EnumTypeCallee, "    sb.") && StartsWith(UnionTypeCallee, "    sb.")
    ensures StartsWith(StructTypeCallee, "    sb.")
  {
  }

  /** The not-yet-implemented comments, before the definition's name. */
  const BaseTypeNyi: string := "    //s.type(BaseType) NYI - "
  const MapTypeNyi: string := "    //s.type(MapTypeDef) NYI - "
  const ArrayTypeNyi: string := "    //s.type(ArrayTypeDef) NYI - "
  const BytesTypeNyi: string := "    //s.type(BytesTypeDef) NYI - "
  const UnknownTypeNyi: string := "    //s.type("

  lemma NyiPrefixes()
    ensures StartsWith(BaseTypeNyi, "    //") && StartsWith(MapTypeNyi, "    //")
    ensures StartsWith(ArrayTypeNyi, "    //") && StartsWith(BytesTypeNyi, "    //")
    ensures StartsWith(UnknownTypeNyi, "    //")
  {
  }

  lemma StartsWithConcat(a: string, b: string, p: string)
    requires StartsWith(a, p)
    ensures StartsWith(a + b, p)
  {
    assert (a + b)[..|p|] == a[..|p|];
  }

  lemma PrefixesDiffer(r: string)
    ensures !(StartsWith(r, "    //") && StartsWith(r, "    sb."))
  {
    if StartsWith(r, "    //") {
      assert r[4] == r[..6][4] == '/';
    }
  }

  /**
   * The statement for a type definition: the builder statement of a struct,
   * enum, string, number or union type; a not-yet-implemented comment naming
   * the definition for base, map, array and bytes types and unknown variants;
   * nothing for an alias.
   */
  function TypeConstructor(reg: TypeRegistry, t: Type): string {
    match t
    case BaseTypeT(b) => BaseTypeNyi + BaseTypeName(b)
    case StructT(s) => StructTypeConstructor(reg, s)
    case EnumT(e) => EnumTypeConstructor(e)
    case StringT(s) => StringTypeConstructor(s)
    case MapT(name) => MapTypeNyi + name
    case ArrayT(name) => ArrayTypeNyi + name
    case BytesT(name) => BytesTypeNyi + name
    case NumberT(n) => NumberTypeConstructor(n)
    case UnionT(u) => UnionTypeConstructor(u)
    case AliasT(_) => ""
    case UnknownVariant(v) => UnknownTypeNyi + v + ");"
  }

  lemma NotYetImplementedShape(reg: TypeRegistry, t: Type)
    requires NotYetImplemented(t)
    ensures StartsWith(TypeConstructor(reg, t), "    //")
  {
    NyiPrefixes();
    match t
    case BaseTypeT(b) => StartsWithConcat(BaseTypeNyi, BaseTypeName(b), "    //");
    case MapT(name) => StartsWithConcat(MapTypeNyi, name, "    //");
    case ArrayT(name) => StartsWithConcat(ArrayTypeNyi, name, "    //");
    case BytesT(name) => StartsWithConcat(BytesTypeNyi, name, "    //");
    case UnknownVariant(v) => StartsWithConcat(UnknownTypeNyi, v + ");", "    //");
  }

  lemma GeneratedShape(reg: TypeRegistry, t: Type)
    requires Generated(t)
    ensures StartsWith(TypeConstructor(reg, t), "    sb.")
  {
    BuilderCallees();
    match t
    case StructT(s) => RenderStartsWith(StructHead(s), StructBody(reg, s.comment, s.fields), "    sb.");
    case EnumT(e) =>
      RenderStartsWith(NamedHead(EnumTypeCallee, e.name), ListBody(e.comment, "element", Symbols(e.elements)), "    sb.");
    case StringT(s) =>
      RenderStartsWith(NamedHead(StringTypeCallee, s.name), OptionalLines(StringTypeClauses, StringTypeValues(s)), "    sb.");
    case NumberT(n) =>
      RenderStartsWith(NumberTypeHead(n), OptionalLines(NumberTypeClauses, NumberTypeValues(n)), "    sb.");
    case UnionT(u) =>
      RenderStartsWith(NamedHead(UnionTypeCallee, u.name), ListBody(u.comment, "variant", u.variants), "    sb.");
  }

  /**
   * Only an alias writes nothing; the variants the generator does not implement
   * write a comment, and the others a builder statement.
   */
  lemma TypeConstructorShape(reg: TypeRegistry, t: Type)
    ensures TypeConstructor(reg, t) == "" <==> t.AliasT?
    ensures StartsWith(TypeConstructor(reg, t), "    //") <==> NotYetImplemented(t)
    ensures StartsWith(TypeConstructor(reg, t), "    sb.") <==> Generated(t)
  {
    PrefixesDiffer(TypeConstructor(reg, t));
    if NotYetImplemented(t) {
      NotYetImplementedShape(reg, t);
    } else if Generated(t) {
      GeneratedShape(reg, t);
    }
  }

  /** Writes the statement for a type definition, dispatching on its variant. */
  method GenerateTypeConstructor(reg: TypeRegistry, t: Type) returns (s: string)
    ensures s == TypeConstructor(reg, t)
  {
    match t
    case BaseTypeT(b) => s := BaseTypeNyi + BaseTypeName(b);
    case StructT(d) => s := GenerateStructTypeConstructor(reg, d);
    case EnumT(e) => s := GenerateEnumTypeConstructor(e);
    case StringT(d) => s := StringTypeConstructor(d);
    case MapT(name) => s := MapTypeNyi + name;
    case ArrayT(name) => s := ArrayTypeNyi + name;
    case BytesT(name) => s := BytesTypeNyi + name;
    case NumberT(n) => s := NumberTypeConstructor(n);
    case UnionT(u) => s := GenerateUnionTypeConstructor(u);
    case AliasT(_) => s := "";
    case UnknownVariant(v) => s := UnknownTypeNyi + v + ");";
  }
}
