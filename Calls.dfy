/**
 * The shape of what the Java schema generator writes: builder calls
 * `callee(arg, arg, ...)`, whose arguments are Go string literals (`%q`) or
 * bare text (`%v`, `%s`, `%d`), and builder statements made of a head call and
 * one chained call per line. Besides writing them, this module reads them back,
 * so that every generator can be shown to lose nothing it writes.
 */
module Calls {
  import opened Wrappers
  import opened Text

  datatype Arg = Quoted(text: string) | Bare(text: string)

  /** One builder call: `callee(args)`. */
  datatype Call = Call(callee: string, args: seq<Arg>)

  /** A line of a builder statement: a chained call, or an empty line. */
  datatype Line = Clause(call: Call) | Blank

  /** The indentation of every chained call. */
  const Indent: string := "            "

  /** The chained call `.name(args)` on its own line. */
  function Chained(name: string, args: seq<Arg>): Call {
    Call(Indent + "." + name, args)
  }

  function ArgText(a: Arg): string {
    match a
    case Quoted(t) => Quote(t)
    case Bare(t) => t
  }

  /** The arguments separated by `, `. */
  function ArgList(args: seq<Arg>): string
    decreases |args|
  {
    if args == [] then ""
    else if |args| == 1 then ArgText(args[0])
    else ArgText(args[0]) + ", " + ArgList(args[1..])
  }

  lemma ArgListThree(a: Arg, b: Arg, c: Arg)
    ensures ArgList([a, b, c]) == ArgText(a) + ", " + ArgText(b) + ", " + ArgText(c)
  {
    assert [a, b, c][1..] == [b, c] && [b, c][1..] == [c];
    assert ArgList([c]) == ArgText(c);
    assert ArgList([b, c]) == ArgText(b) + ", " + ArgText(c);
    assert ArgList([a, b, c]) == ArgText(a) + ", " + (ArgText(b) + ", " + ArgText(c));
  }

  function CallText(c: Call): string {
    c.callee + "(" + ArgList(c.args) + ")"
  }

  function LineText(l: Line): string {
    match l
    case Clause(c) => CallText(c)
    case Blank => ""
  }

  function LineTexts(body: seq<Line>): (r: seq<string>)
    ensures |r| == |body|
  {
    if body == [] then [] else [LineText(body[0])] + LineTexts(body[1..])
  }

  /** The calls of a statement body, in order, without the empty lines. */
  function CallsOf(body: seq<Line>): seq<Call> {
    if body == [] then []
    else if body[0].Blank? then CallsOf(body[1..])
    else [body[0].call] + CallsOf(body[1..])
  }

  /** A builder statement before its closing `;`: the head call, then each line. */
  function Unterminated(head: Call, body: seq<Line>): string {
    CallText(head) + JoinLines(LineTexts(body))
  }

  /** A builder statement: the head call, then each line, then the closing `;`. */
  function Render(head: Call, body: seq<Line>): string {
    Unterminated(head, body) + ";"
  }

  lemma {:induction false} LineTextsSnoc(body: seq<Line>, l: Line)
    ensures LineTexts(body + [l]) == LineTexts(body) + [LineText(l)]
  {
    if body != [] {
      assert (body + [l])[1..] == body[1..] + [l];
      LineTextsSnoc(body[1..], l);
    } else {
      assert body + [l] == [l];
    }
  }

  /** Writing one more line is appending a newline and the line's text. */
  lemma AppendLine(head: Call, body: seq<Line>, l: Line)
    ensures Unterminated(head, body + [l]) == Unterminated(head, body) + "\n" + LineText(l)
  {
    LineTextsSnoc(body, l);
    JoinLinesSnoc(LineTexts(body), LineText(l));
  }

  // ---------------------------------------------------------------------------
  // Reading calls back
  // ---------------------------------------------------------------------------

  function IndexOf(s: string, c: char): (k: nat)
    requires c in s
    ensures k < |s| && s[k] == c && c !in s[..k]
  {
    if s[0] == c then 0 else 1 + IndexOf(s[1..], c)
  }

  /**
   * Reads the inside of a string literal up to its closing quote: the string
   * it stands for and the text after the quote.
   */
  function ReadEscaped(s: string): (r: Option<(string, string)>)
    ensures r.Some? ==> |r.value.1| < |s|
    decreases |s|
  {
    if s == [] then None
    else if s[0] == '"' then Some(([], s[1..]))
    else if s[0] == '\\' then
      if |s| < 2 then None
      else match (UnescapeChar(s[1]), ReadEscaped(s[2..]))
        case (Some(c), Some((t, rest))) => Some(([c] + t, rest))
        case _ => None
    else if s[0] in "\n\r\t" then None
    else match ReadEscaped(s[1..])
      case Some((t, rest)) => Some(([s[0]] + t, rest))
      case None => None
  }

  /** Reads a string literal at the front of `s`: its value and the text after it. */
  function ReadQuoted(s: string): (r: Option<(string, string)>)
    ensures r.Some? ==> |r.value.1| < |s|
  {
    if s != [] && s[0] == '"' then ReadEscaped(s[1..]) else None
  }

  /** Reads the first argument of a list: a literal, or bare text up to the next comma. */
  function ReadArg(s: string): (r: Option<(Arg, string)>)
    ensures r.Some? ==> |r.value.1| < |s|
  {
    if s != [] && s[0] == '"' then
      match ReadQuoted(s)
      case Some((t, rest)) => Some((Quoted(t), rest))
      case None => None
    else if ',' in s then
      var k := IndexOf(s, ',');
      if k == 0 then None else Some((Bare(s[..k]), s[k..]))
    else if s == [] then None
    else Some((Bare(s), []))
  }

  /** Reads a non-empty argument list. */
  function ReadArgList(s: string): Option<seq<Arg>>
    decreases |s|
  {
    match ReadArg(s)
    case None => None
    case Some((a, rest)) =>
      if rest == [] then Some([a])
      else if |rest| > 2 && rest[..2] == ", " then
        match ReadArgList(rest[2..])
        case Some(more) => Some([a] + more)
        case None => None
      else None
  }

  function ReadArgs(s: string): Option<seq<Arg>> {
    if s == [] then Some([]) else ReadArgList(s)
  }

  /** Reads `callee(args)`: the callee is everything before the first `(`. */
  function ParseCall(line: string): Option<Call> {
    if '(' in line && line[|line| - 1] == ')' then
      var k := IndexOf(line, '(');
      if k < |line| - 1 then
        match ReadArgs(line[k + 1..|line| - 1])
        case Some(args) => Some(Call(line[..k], args))
        case None => None
      else None
    else None
  }

  /** Reads the lines of a statement; empty lines are skipped. */
  function ParseLines(ls: seq<string>): Option<seq<Call>> {
    if ls == [] then Some([])
    else if ls[0] == "" then ParseLines(ls[1..])
    else match (ParseCall(ls[0]), ParseLines(ls[1..]))
      case (Some(c), Some(cs)) => Some([c] + cs)
      case _ => None
  }

  /** Reads a builder statement back into its calls, head first. */
  function Decode(r: string): Option<seq<Call>> {
    if r != [] && r[|r| - 1] == ';' then ParseLines(Lines(r[..|r| - 1])) else None
  }

  // ---------------------------------------------------------------------------
  // What can be read back
  // ---------------------------------------------------------------------------

  /** Bare text that cannot be mistaken for a literal or run into the next argument. */
  predicate ReadableArg(a: Arg) {
    a.Bare? ==> a.text != [] && a.text[0] != '"' && ',' !in a.text && NoNewline(a.text)
  }

  predicate ReadableCall(c: Call) {
    '(' !in c.callee && NoNewline(c.callee) && forall i :: 0 <= i < |c.args| ==> ReadableArg(c.args[i])
  }

  predicate ReadableBody(body: seq<Line>) {
    forall i :: 0 <= i < |body| ==> body[i].Clause? ==> ReadableCall(body[i].call)
  }

  lemma ReadEscapedCons(c: char, rest: string)
    ensures ReadEscaped(EscapeChar(c) + rest) ==
      match ReadEscaped(rest) case Some((t, r)) => Some(([c] + t, r)) case None => None
  {
    var e := EscapeChar(c) + rest;
    if c in "\"\\\n\r\t" {
      assert e[0] == '\\' && UnescapeChar(e[1]) == Some(c) && e[2..] == rest;
    } else {
      assert e[0] == c && e[1..] == rest;
    }
  }

  lemma {:induction false} ReadEscapedEscape(s: string, rest: string)
    ensures ReadEscaped(Escape(s) + "\"" + rest) == Some((s, rest))
  {
    if s == [] {
      assert Escape(s) + "\"" + rest == "\"" + rest;
      assert ("\"" + rest)[1..] == rest;
    } else {
      ReadEscapedEscape(s[1..], rest);
      assert Escape(s) + "\"" + rest == EscapeChar(s[0]) + (Escape(s[1..]) + "\"" + rest);
      ReadEscapedCons(s[0], Escape(s[1..]) + "\"" + rest);
      assert [s[0]] + s[1..] == s;
    }
  }

  /** A literal written by `%q` reads back as the string it quotes, whatever follows it. */
  lemma ReadQuotedQuote(s: string, rest: string)
    ensures ReadQuoted(Quote(s) + rest) == Some((s, rest))
  {
    var q := Quote(s) + rest;
    assert q[1..] == Escape(s) + "\"" + rest;
    ReadEscapedEscape(s, rest);
  }

  lemma {:induction false} IndexOfAfter(a: string, c: char, b: string)
    requires c !in a
    ensures IndexOf(a + [c] + b, c) == |a|
  {
    if a != [] {
      assert (a + [c] + b)[1..] == a[1..] + [c] + b;
      IndexOfAfter(a[1..], c, b);
    }
  }

  lemma ReadArgText(a: Arg, rest: string)
    requires ReadableArg(a) && (rest == [] || rest[0] == ',')
    ensures ReadArg(ArgText(a) + rest) == Some((a, rest))
  {
    var s := ArgText(a) + rest;
    match a
    case Quoted(t) =>
      ReadQuotedQuote(t, rest);
    case Bare(t) =>
      assert s[0] == t[0];
      if rest == [] {
        assert s == t;
      } else {
        assert s == t + [','] + rest[1..];
        IndexOfAfter(t, ',', rest[1..]);
        assert s[..|t|] == t && s[|t|..] == rest;
      }
  }

  lemma ArgListNonEmpty(args: seq<Arg>)
    requires args != [] && ReadableArg(args[0])
    ensures ArgList(args) != []
  {
    assert ArgText(args[0]) != [];
    if |args| > 1 {
      assert ArgList(args) == ArgText(args[0]) + ", " + ArgList(args[1..]);
    }
  }

  lemma ReadArgListStep(s: string, a: Arg, rest: string, more: seq<Arg>)
    requires ReadArg(s) == Some((a, rest)) && |rest| > 2 && rest[..2] == ", "
    requires ReadArgList(rest[2..]) == Some(more)
    ensures ReadArgList(s) == Some([a] + more)
  {
  }

  lemma ReadArgListLast(s: string, a: Arg)
    requires ReadArg(s) == Some((a, []))
    ensures ReadArgList(s) == Some([a])
  {
  }

  /** One more argument in front of a list that reads back. */
  lemma ReadArgListCons(a: Arg, more: seq<Arg>)
    requires ReadableArg(a) && more != [] && ReadableArg(more[0])
    requires ReadArgList(ArgList(more)) == Some(more)
    ensures ReadArgList(ArgList([a] + more)) == Some([a] + more)
  {
    var tail := ArgList(more);
    var rest := ", " + tail;
    ArgListNonEmpty(more);
    assert |rest| > 2 && rest[..2] == ", " && rest[2..] == tail;
    ReadArgText(a, rest);
    assert ([a] + more)[1..] == more;
    assert ArgList([a] + more) == ArgText(a) + rest;
    ReadArgListStep(ArgList([a] + more), a, rest, more);
  }

  lemma {:induction false} ReadArgListText(args: seq<Arg>)
    requires args != [] && forall i :: 0 <= i < |args| ==> ReadableArg(args[i])
    ensures ReadArgList(ArgList(args)) == Some(args)
    decreases |args|
  {
    if |args| == 1 {
      assert ArgList(args) == ArgText(args[0]) + [];
      ReadArgText(args[0], []);
      ReadArgListLast(ArgList(args), args[0]);
      assert [args[0]] == args;
    } else {
      ReadArgListText(args[1..]);
      ReadArgListCons(args[0], args[1..]);
      assert [args[0]] + args[1..] == args;
    }
  }

  lemma ArgListNoNewline(args: seq<Arg>)
    requires forall i :: 0 <= i < |args| ==> ReadableArg(args[i])
    ensures NoNewline(ArgList(args))
    decreases |args|
  {
    if |args| > 1 {
      ArgListNoNewline(args[1..]);
    }
  }

  /** A readable call reads back as itself; it is written on one line. */
  lemma ParseCallText(c: Call)
    requires ReadableCall(c)
    ensures ParseCall(CallText(c)) == Some(c)
    ensures NoNewline(CallText(c)) && CallText(c) != ""
  {
    var line := CallText(c);
    var inner := ArgList(c.args);
    assert line == c.callee + ['('] + (inner + ")");
    IndexOfAfter(c.callee, '(', inner + ")");
    assert line[|c.callee| + 1..|line| - 1] == inner;
    assert line[..|c.callee|] == c.callee;
    if c.args != [] {
      ReadArgListText(c.args);
    }
    ArgListNoNewline(c.args);
  }

  lemma {:induction false} ParseLinesText(body: seq<Line>)
    requires ReadableBody(body)
    ensures ParseLines(LineTexts(body)) == Some(CallsOf(body))
    ensures forall i :: 0 <= i < |body| ==> NoNewline(LineTexts(body)[i])
  {
    if body != [] {
      ParseLinesText(body[1..]);
      var ls := LineTexts(body);
      assert ls[1..] == LineTexts(body[1..]);
      if body[0].Clause? {
        ParseCallText(body[0].call);
      }
    }
  }

  lemma DecodeTerminated(u: string)
    ensures Decode(u + ";") == ParseLines(Lines(u))
  {
    assert (u + ";")[..|u|] == u;
  }

  lemma ParseLinesCons(line: string, rest: seq<string>, c: Call, cs: seq<Call>)
    requires line != "" && ParseCall(line) == Some(c) && ParseLines(rest) == Some(cs)
    ensures ParseLines([line] + rest) == Some([c] + cs)
  {
    assert ([line] + rest)[1..] == rest;
  }

  lemma ParseLinesSkip(rest: seq<string>)
    ensures ParseLines([""] + rest) == ParseLines(rest)
  {
    assert ([""] + rest)[1..] == rest;
  }

  lemma LinesAfterNewline(u: string)
    ensures Lines("\n" + u) == [""] + Lines(u)
  {
    LinesConcat("", u);
    assert "" + "\n" + u == "\n" + u;
  }

  /** The lines of an unterminated statement read back as its head and the calls of its lines. */
  lemma ParseUnterminated(head: Call, body: seq<Line>)
    requires ReadableCall(head) && ReadableBody(body)
    ensures ParseLines(Lines(Unterminated(head, body))) == Some([head] + CallsOf(body))
  {
    ParseCallText(head);
    ParseLinesText(body);
    LinesOfJoin(CallText(head), LineTexts(body));
    ParseLinesCons(CallText(head), LineTexts(body), head, CallsOf(body));
  }

  /** A statement written by `Render` reads back as its head and the calls of its lines. */
  lemma DecodeRender(head: Call, body: seq<Line>)
    requires ReadableCall(head) && ReadableBody(body)
    ensures Decode(Render(head, body)) == Some([head] + CallsOf(body))
  {
    DecodeTerminated(Unterminated(head, body));
    ParseUnterminated(head, body);
  }

  /** A statement written after a line break reads back the same: the empty line is skipped. */
  lemma DecodeAfterNewline(head: Call, body: seq<Line>)
    requires ReadableCall(head) && ReadableBody(body)
    ensures Decode("\n" + Render(head, body)) == Some([head] + CallsOf(body))
  {
    var u := Unterminated(head, body);
    assert "\n" + Render(head, body) == ("\n" + u) + ";";
    DecodeTerminated("\n" + u);
    LinesAfterNewline(u);
    ParseLinesSkip(Lines(u));
    ParseUnterminated(head, body);
  }

  // ---------------------------------------------------------------------------
  // Reading statement bodies: optional clauses in a fixed order, and runs of
  // repeated clauses
  // ---------------------------------------------------------------------------

  /** The method name of a chained call, when `callee` is one. */
  function NameOf(callee: string): Option<string> {
    var p := Indent + ".";
    if |p| <= |callee| && callee[..|p|] == p then Some(callee[|p|..]) else None
  }

  lemma NameOfChained(name: string, args: seq<Arg>)
    ensures NameOf(Chained(name, args).callee) == Some(name)
  {
    var c := Indent + "." + name;
    assert c[..|Indent| + 1] == Indent + "." && c[|Indent| + 1..] == name;
  }

  /** A chained call whose name and arguments are readable is readable. */
  lemma ChainedReadable(name: string, args: seq<Arg>)
    requires '(' !in name && NoNewline(name)
    requires forall i :: 0 <= i < |args| ==> ReadableArg(args[i])
    ensures ReadableCall(Chained(name, args))
  {
    var c := Indent + "." + name;
    forall i | 0 <= i < |c|
      ensures c[i] != '(' && c[i] != '\n'
    {
      if i >= |Indent| + 1 {
        assert c[i] == name[i - |Indent| - 1];
      }
    }
  }

  /**
   * Optional clauses in a fixed order: `.names[i](values[i])` for each value
   * present, nothing for each value absent.
   */
  function OptionalLines(names: seq<string>, values: seq<Option<seq<Arg>>>): seq<Line>
    requires |names| == |values|
  {
    if names == [] then []
    else
      var rest := OptionalLines(names[1..], values[1..]);
      match values[0]
      case Some(a) => [Clause(Chained(names[0], a))] + rest
      case None => rest
  }

  /**
   * Reads optional clauses named `names`, in that order: for each name, the
   * arguments of the next call when it has that name, and nothing otherwise.
   */
  function ReadOptional(cs: seq<Call>, names: seq<string>): (r: (seq<Option<seq<Arg>>>, seq<Call>))
    ensures |r.0| == |names|
  {
    if names == [] then ([], cs)
    else if cs != [] && NameOf(cs[0].callee) == Some(names[0]) then
      var (vs, rest) := ReadOptional(cs[1..], names[1..]);
      ([Some(cs[0].args)] + vs, rest)
    else
      var (vs, rest) := ReadOptional(cs, names[1..]);
      ([None] + vs, rest)
  }

  /** Reads the longest run of calls whose names are in `names`. */
  function ReadRun(cs: seq<Call>, names: set<string>): (seq<Call>, seq<Call>) {
    if cs != [] && NameOf(cs[0].callee).Some? && NameOf(cs[0].callee).value in names then
      var (run, rest) := ReadRun(cs[1..], names);
      ([cs[0]] + run, rest)
    else ([], cs)
  }

  /** Every call is a chained call named in `names`. */
  predicate NamedIn(cs: seq<Call>, names: set<string>) {
    forall i :: 0 <= i < |cs| ==> NameOf(cs[i].callee).Some? && NameOf(cs[i].callee).value in names
  }

  predicate DistinctStrings(names: seq<string>) {
    forall i, j :: 0 <= i < j < |names| ==> names[i] != names[j]
  }

  predicate ReadableName(name: string) {
    '(' !in name && NoNewline(name)
  }

  predicate ReadableNames(names: seq<string>) {
    forall i :: 0 <= i < |names| ==> ReadableName(names[i])
  }

  predicate ReadableValue(v: Option<seq<Arg>>) {
    v.Some? ==> forall k :: 0 <= k < |v.value| ==> ReadableArg(v.value[k])
  }

  predicate ReadableValues(values: seq<Option<seq<Arg>>>) {
    forall i :: 0 <= i < |values| ==> ReadableValue(values[i])
  }

  lemma {:induction false} CallsOfConcat(a: seq<Line>, b: seq<Line>)
    ensures CallsOf(a + b) == CallsOf(a) + CallsOf(b)
  {
    if a != [] {
      assert (a + b)[0] == a[0] && (a + b)[1..] == a[1..] + b;
      CallsOfConcat(a[1..], b);
      if a[0].Clause? {
        assert CallsOf(a + b) == [a[0].call] + (CallsOf(a[1..]) + CallsOf(b));
      }
    } else {
      assert a + b == b;
    }
  }

  lemma ReadableConcat(a: seq<Line>, b: seq<Line>)
    requires ReadableBody(a) && ReadableBody(b)
    ensures ReadableBody(a + b)
  {
  }

  lemma {:induction false} OptionalLinesReadable(names: seq<string>, values: seq<Option<seq<Arg>>>)
    requires |names| == |values| && ReadableNames(names) && ReadableValues(values)
    ensures ReadableBody(OptionalLines(names, values))
  {
    if names != [] {
      OptionalLinesReadable(names[1..], values[1..]);
      if values[0].Some? {
        assert ReadableName(names[0]) && ReadableValue(values[0]);
        ChainedReadable(names[0], values[0].value);
      }
    }
  }

  /** The first call of some optional clauses is named by one of them. */
  lemma {:induction false} FirstOptionalCall(names: seq<string>, values: seq<Option<seq<Arg>>>) returns (j: nat)
    requires |names| == |values| && CallsOf(OptionalLines(names, values)) != []
    ensures j < |names| && NameOf(CallsOf(OptionalLines(names, values))[0].callee) == Some(names[j])
  {
    match values[0]
    case Some(a) =>
      NameOfChained(names[0], a);
      j := 0;
    case None =>
      var k := FirstOptionalCall(names[1..], values[1..]);
      j := k + 1;
  }

  /** After an absent clause, the next call is not that clause. */
  lemma SkipAbsent(names: seq<string>, values: seq<Option<seq<Arg>>>, rest: seq<Call>)
    requires |names| == |values| && names != [] && values[0].None? && DistinctStrings(names)
    requires rest == [] || forall i :: 0 <= i < |names| ==> NameOf(rest[0].callee) != Some(names[i])
    ensures var cs := CallsOf(OptionalLines(names, values)) + rest;
      cs == CallsOf(OptionalLines(names[1..], values[1..])) + rest
      && (cs == [] || NameOf(cs[0].callee) != Some(names[0]))
  {
    var first := CallsOf(OptionalLines(names[1..], values[1..]));
    if first != [] {
      var j := FirstOptionalCall(names[1..], values[1..]);
      assert names[j + 1] == names[1..][j];
      assert (first + rest)[0] == first[0];
    } else {
      assert first + rest == rest;
    }
  }

  lemma {:induction false} ReadOptionalLines(names: seq<string>, values: seq<Option<seq<Arg>>>, rest: seq<Call>)
    requires |names| == |values| && DistinctStrings(names)
    requires rest == [] || forall i :: 0 <= i < |names| ==> NameOf(rest[0].callee) != Some(names[i])
    ensures ReadOptional(CallsOf(OptionalLines(names, values)) + rest, names) == (values, rest)
  {
    if names == [] {
      assert CallsOf(OptionalLines(names, values)) + rest == rest;
      assert values == [];
    } else {
      var more := CallsOf(OptionalLines(names[1..], values[1..])) + rest;
      ReadOptionalLines(names[1..], values[1..], rest);
      assert [values[0]] + values[1..] == values;
      match values[0]
      case Some(a) =>
        NameOfChained(names[0], a);
        var cs := CallsOf(OptionalLines(names, values)) + rest;
        assert cs == [Chained(names[0], a)] + more;
        assert cs[0] == Chained(names[0], a) && cs[1..] == more;
      case None =>
        SkipAbsent(names, values, rest);
    }
  }

  lemma {:induction false} ReadRunOf(run: seq<Call>, rest: seq<Call>, names: set<string>)
    requires NamedIn(run, names)
    requires rest == [] || NameOf(rest[0].callee).None? || NameOf(rest[0].callee).value !in names
    ensures ReadRun(run + rest, names) == (run, rest)
  {
    if run != [] {
      assert (run + rest)[0] == run[0] && (run + rest)[1..] == run[1..] + rest;
      ReadRunOf(run[1..], rest, names);
      assert [run[0]] + run[1..] == run;
    } else {
      assert run + rest == rest;
    }
  }

  /** A statement made of a head and optional clauses reads back as the head and the clauses. */
  lemma DecodeOptional(head: Call, names: seq<string>, values: seq<Option<seq<Arg>>>)
    requires |names| == |values| && ReadableCall(head) && ReadableNames(names) && ReadableValues(values)
    ensures Decode(Render(head, OptionalLines(names, values)))
      == Some([head] + CallsOf(OptionalLines(names, values)))
  {
    OptionalLinesReadable(names, values);
    DecodeRender(head, OptionalLines(names, values));
  }

  /** After the head, the optional clauses read back as the values they were written for. */
  lemma ReadOptionalAfterHead(head: Call, names: seq<string>, values: seq<Option<seq<Arg>>>)
    requires |names| == |values| && DistinctStrings(names)
    ensures ReadOptional(([head] + CallsOf(OptionalLines(names, values)))[1..], names) == (values, [])
  {
    ReadOptionalLines(names, values, []);
    assert ([head] + CallsOf(OptionalLines(names, values)))[1..] == CallsOf(OptionalLines(names, values)) + [];
  }

  /** Arguments that print the same make the same text. */
  lemma {:induction false} ArgListSameTexts(a: seq<Arg>, b: seq<Arg>)
    requires |a| == |b| && forall i :: 0 <= i < |a| ==> ArgText(a[i]) == ArgText(b[i])
    ensures ArgList(a) == ArgList(b)
    decreases |a|
  {
    if |a| > 1 {
      ArgListSameTexts(a[1..], b[1..]);
    }
  }

  lemma {:induction false} CallsOfClauses(cs: seq<Call>, body: seq<Line>)
    requires |body| == |cs| && forall i :: 0 <= i < |cs| ==> body[i] == Clause(cs[i])
    ensures CallsOf(body) == cs
  {
    if body != [] {
      CallsOfClauses(cs[1..], body[1..]);
      assert [cs[0]] + cs[1..] == cs;
    }
  }

  lemma OptionalLinesSingle(name: string, value: Option<seq<Arg>>)
    ensures OptionalLines([name], [value]) == if value.Some? then [Clause(Chained(name, value.value))] else []
  {
    assert [name][1..] == [] && [value][1..] == [];
  }

  /** Appending an optional clause adds its line when it is present, and nothing otherwise. */
  lemma AppendOptional(head: Call, body: seq<Line>, name: string, v: Option<seq<Arg>>)
    ensures Unterminated(head, body + OptionalLines([name], [v])) ==
      if v.Some? then Unterminated(head, body) + "\n" + CallText(Chained(name, v.value)) else Unterminated(head, body)
  {
    OptionalLinesSingle(name, v);
    if v.Some? {
      AppendLine(head, body, Clause(Chained(name, v.value)));
    } else {
      assert body + OptionalLines([name], [v]) == body;
    }
  }
}
