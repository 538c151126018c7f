/**
 * The text primitives the generators rely on: Go's `%q` quoting, Go's decimal
 * formatting of integers (`%d`, `fmt.Sprint`), and splitting a text into lines.
 */
module Text {
  import opened Wrappers

  predicate NoNewline(s: string) {
    '\n' !in s
  }

  // ---------------------------------------------------------------------------
  // Quoting (`%q`)
  // ---------------------------------------------------------------------------

  /** How `%q` writes one character inside the quotes. */
  function EscapeChar(c: char): string {
    match c
    case '"' => "\\\""
    case '\\' => "\\\\"
    case '\n' => "\\n"
    case '\r' => "\\r"
    case '\t' => "\\t"
    case _ => [c]
  }

  function Escape(s: string): (r: string)
    ensures NoNewline(r)
  {
    if s == [] then [] else EscapeChar(s[0]) + Escape(s[1..])
  }

  /** A Go string literal holding `s`. */
  function Quote(s: string): (r: string)
    ensures |r| >= 2 && r[0] == '"' && r[|r| - 1] == '"'
    ensures NoNewline(r)
  {
    "\"" + Escape(s) + "\""
  }

  /** The character a backslash escape stands for. */
  function UnescapeChar(c: char): Option<char> {
    match c
    case '"' => Some('"')
    case '\\' => Some('\\')
    case 'n' => Some('\n')
    case 'r' => Some('\r')
    case 't' => Some('\t')
    case _ => None
  }

  /** Reads the inside of a string literal back; None when it is not one `Escape` writes. */
  function Unescape(s: string): Option<string>
    decreases |s|
  {
    if s == [] then Some([])
    else if s[0] == '\\' then
      if |s| < 2 then None
      else match (UnescapeChar(s[1]), Unescape(s[2..]))
        case (Some(c), Some(rest)) => Some([c] + rest)
        case _ => None
    else if s[0] in "\"\n\r\t" then None
    else match Unescape(s[1..])
      case Some(rest) => Some([s[0]] + rest)
      case None => None
  }

  /** The value of a Go string literal; None when `s` is not one `Quote` writes. */
  function Unquote(s: string): Option<string> {
    if |s| >= 2 && s[0] == '"' && s[|s| - 1] == '"' then Unescape(s[1..|s| - 1]) else None
  }

  lemma UnescapeCons(c: char, rest: string)
    ensures Unescape(EscapeChar(c) + rest) ==
      match Unescape(rest) case Some(t) => Some([c] + t) case None => None
  {
    var e := EscapeChar(c) + rest;
    if c in "\"\\\n\r\t" {
      assert e[0] == '\\' && UnescapeChar(e[1]) == Some(c) && e[2..] == rest;
    } else {
      assert e[0] == c && e[1..] == rest;
    }
  }

  lemma {:induction false} UnescapeEscape(s: string)
    ensures Unescape(Escape(s)) == Some(s)
  {
    if s != [] {
      UnescapeEscape(s[1..]);
      UnescapeCons(s[0], Escape(s[1..]));
      assert Escape(s) == EscapeChar(s[0]) + Escape(s[1..]);
      assert [s[0]] + s[1..] == s;
    }
  }

  /** Quoting loses nothing: the literal reads back as the string quoted. */
  lemma UnquoteQuote(s: string)
    ensures Unquote(Quote(s)) == Some(s)
  {
    var q := Quote(s);
    assert q[1..|q| - 1] == Escape(s);
    UnescapeEscape(s);
  }

  // ---------------------------------------------------------------------------
  // Decimal integers (`%d`)
  // ---------------------------------------------------------------------------

  predicate IsDigit(c: char) {
    '0' as int <= c as int <= '9' as int
  }

  function DigitChar(d: nat): (c: char)
    requires d < 10
    ensures IsDigit(c) && c as int - '0' as int == d
  {
    "0123456789"[d]
  }

  /** The decimal digits of `n`, most significant first, without leading zeros. */
  function NatToString(n: nat): (r: string)
    ensures |r| > 0 && forall i :: 0 <= i < |r| ==> IsDigit(r[i])
  {
    if n < 10 then [DigitChar(n)] else NatToString(n / 10) + [DigitChar(n % 10)]
  }

  /** How Go writes an integer in decimal: a minus sign, then the digits. */
  function IntToString(i: int): (r: string)
    ensures NoNewline(r) && |r| > 0
    ensures forall k :: 0 <= k < |r| ==> IsDigit(r[k]) || r[k] == '-'
  {
    if i < 0 then "-" + NatToString(-i) else NatToString(i)
  }

  function DigitsValue(s: string): nat
    requires forall i :: 0 <= i < |s| ==> IsDigit(s[i])
  {
    if s == [] then 0
    else
      assert IsDigit(s[|s| - 1]);
      DigitsValue(s[..|s| - 1]) * 10 + (s[|s| - 1] as int - '0' as int)
  }

  /** Reads a decimal integer back; None when `s` is not one. */
  function ParseInt(s: string): Option<int> {
    if |s| > 0 && s[0] == '-' then
      if |s| > 1 && forall i :: 1 <= i < |s| ==> IsDigit(s[i]) then Some(0 - DigitsValue(s[1..]) as int) else None
    else if |s| > 0 && forall i :: 0 <= i < |s| ==> IsDigit(s[i]) then Some(DigitsValue(s))
    else None
  }

  lemma {:induction false} DigitsValueNatToString(n: nat)
    ensures DigitsValue(NatToString(n)) == n
  {
    if n >= 10 {
      DigitsValueNatToString(n / 10);
      var s := NatToString(n);
      assert s[..|s| - 1] == NatToString(n / 10);
    }
  }

  lemma ParseNegative(d: string)
    requires |d| > 0 && forall k :: 0 <= k < |d| ==> IsDigit(d[k])
    ensures ParseInt("-" + d) == Some(0 - DigitsValue(d) as int)
  {
    var s := "-" + d;
    assert s[1..] == d;
    forall k | 1 <= k < |s|
      ensures IsDigit(s[k])
    {
      assert s[k] == d[k - 1];
    }
  }

  lemma ParseDigits(d: string)
    requires |d| > 0 && forall k :: 0 <= k < |d| ==> IsDigit(d[k])
    ensures ParseInt(d) == Some(DigitsValue(d) as int)
  {
    assert IsDigit(d[0]);
  }

  /** Decimal formatting loses nothing: the text reads back as the integer written. */
  lemma ParseIntToString(i: int)
    ensures ParseInt(IntToString(i)) == Some(i)
  {
    var n: nat := if i < 0 then -i else i;
    var d := NatToString(n);
    DigitsValueNatToString(n);
    if i < 0 {
      assert IntToString(i) == "-" + d;
      ParseNegative(d);
    } else {
      assert IntToString(i) == d;
      ParseDigits(d);
    }
  }

  // ---------------------------------------------------------------------------
  // Lines
  // ---------------------------------------------------------------------------

  function IndexOfNewline(s: string): (k: nat)
    requires '\n' in s
    ensures k < |s| && s[k] == '\n' && NoNewline(s[..k])
  {
    if s[0] == '\n' then 0 else 1 + IndexOfNewline(s[1..])
  }

  /** `s` cut at every newline character. */
  function Lines(s: string): (r: seq<string>)
    ensures |r| > 0
    decreases |s|
  {
    if NoNewline(s) then [s]
    else
      var k := IndexOfNewline(s);
      [s[..k]] + Lines(s[k + 1..])
  }

  /** The lines written one after another, each preceded by a newline. */
  function JoinLines(ls: seq<string>): string {
    if ls == [] then "" else JoinLines(ls[..|ls| - 1]) + "\n" + ls[|ls| - 1]
  }

  lemma JoinLinesSnoc(ls: seq<string>, l: string)
    ensures JoinLines(ls + [l]) == JoinLines(ls) + "\n" + l
  {
    assert (ls + [l])[..|ls|] == ls;
  }

  lemma {:induction false} IndexOfNewlineAfter(a: string, b: string)
    requires NoNewline(a)
    ensures IndexOfNewline(a + "\n" + b) == |a|
  {
    if a != [] {
      assert (a + "\n" + b)[1..] == a[1..] + "\n" + b;
      IndexOfNewlineAfter(a[1..], b);
    }
  }

  lemma {:induction false} IndexOfNewlinePrefix(a: string, b: string)
    requires '\n' in a
    ensures IndexOfNewline(a + b) == IndexOfNewline(a)
  {
    if a[0] != '\n' {
      assert (a + b)[1..] == a[1..] + b;
      IndexOfNewlinePrefix(a[1..], b);
    }
  }

  /** Splitting distributes over a newline. */
  lemma {:induction false} LinesConcat(a: string, b: string)
    ensures Lines(a + "\n" + b) == Lines(a) + Lines(b)
    decreases |a|
  {
    var s := a + "\n" + b;
    assert s[|a|] == '\n';
    if NoNewline(a) {
      IndexOfNewlineAfter(a, b);
      assert s[..|a|] == a && s[|a| + 1..] == b;
      assert Lines(s) == [a] + Lines(b);
      assert Lines(a) == [a];
    } else {
      var j := IndexOfNewline(a);
      IndexOfNewlinePrefix(a, "\n" + b);
      assert s == a + ("\n" + b);
      assert s[..j] == a[..j];
      assert s[j + 1..] == a[j + 1..] + "\n" + b;
      LinesConcat(a[j + 1..], b);
      assert Lines(s) == [a[..j]] + Lines(a[j + 1..] + "\n" + b);
      assert Lines(a) == [a[..j]] + Lines(a[j + 1..]);
    }
  }

  lemma LinesSnoc(front: string, ls: seq<string>, last: string)
    requires NoNewline(last)
    requires Lines(front) == ls
    ensures Lines(front + "\n" + last) == ls + [last]
  {
    LinesConcat(front, last);
    assert Lines(last) == [last];
  }

  /** A head line followed by newline-free lines splits back into exactly those lines. */
  lemma {:induction false} LinesOfJoin(head: string, ls: seq<string>)
    requires NoNewline(head)
    requires forall i :: 0 <= i < |ls| ==> NoNewline(ls[i])
    ensures Lines(head + JoinLines(ls)) == [head] + ls
    decreases |ls|
  {
    if ls == [] {
      assert head + JoinLines(ls) == head;
    } else {
      var init, last := ls[..|ls| - 1], ls[|ls| - 1];
      assert ls == init + [last];
      LinesOfJoin(head, init);
      var front := head + JoinLines(init);
      JoinLinesSnoc(init, last);
      assert head + JoinLines(ls) == front + "\n" + last;
      LinesSnoc(front, [head] + init, last);
    }
  }
}
