/** The string operations the diff parser relies on, with the printing side of each. */
module Text {

  // ----- lines

  /** `str.splitlines`, with `\n` as the only line break. */
  function SplitLines(text: string, partial: string): seq<string>
    decreases |text|
  {
    if text == "" then (if partial == "" then [] else [partial])
    else if text[0] == '\n' then [partial] + SplitLines(text[1..], "")
    else SplitLines(text[1..], partial + [text[0]])
  }

  function JoinLines(lines: seq<string>): string {
    if lines == [] then "" else lines[0] + "\n" + JoinLines(lines[1..])
  }

  predicate OneLine(s: string) {
    '\n' !in s
  }

  lemma {:induction false} SplitOne(line: string, partial: string, rest: string)
    requires OneLine(line)
    ensures SplitLines(line + "\n" + rest, partial) == [partial + line] + SplitLines(rest, "")
    decreases |line|
  {
    var text := line + "\n" + rest;
    if line == "" {
      assert text == "\n" + rest;
      assert partial + line == partial;
    } else {
      assert text[1..] == line[1..] + "\n" + rest;
      SplitOne(line[1..], partial + [line[0]], rest);
      assert partial + [line[0]] + line[1..] == partial + line;
    }
  }

  lemma {:induction false} SplitJoin(lines: seq<string>)
    requires forall l :: l in lines ==> OneLine(l)
    ensures SplitLines(JoinLines(lines), "") == lines
  {
    if lines != [] {
      SplitOne(lines[0], "", JoinLines(lines[1..]));
      SplitJoin(lines[1..]);
      assert "" + lines[0] == lines[0];
    }
  }

  /** Splitting a text that ends its last line loses nothing. */
  lemma {:induction false} JoinSplit(text: string, partial: string)
    requires OneLine(partial) && (text == "" ==> partial == "") && (text != "" ==> text[|text| - 1] == '\n')
    ensures JoinLines(SplitLines(text, partial)) == partial + text
    ensures forall l :: l in SplitLines(text, partial) ==> OneLine(l)
    decreases |text|
  {
    if text != "" {
      if text[0] == '\n' {
        JoinSplit(text[1..], "");
        assert partial + text == partial + "\n" + ("" + text[1..]);
      } else {
        JoinSplit(text[1..], partial + [text[0]]);
        assert partial + [text[0]] + text[1..] == partial + text;
      }
    }
  }

  lemma {:induction false} JoinEndsLine(lines: seq<string>)
    requires lines != []
    ensures JoinLines(lines) != "" && JoinLines(lines)[|JoinLines(lines)| - 1] == '\n'
  {
    if |lines| > 1 {
      JoinEndsLine(lines[1..]);
    }
  }

  // ----- fields

  /** `line.split(" ")`. */
  function SplitSpaces(line: string, partial: string): seq<string>
    decreases |line|
  {
    if line == "" then [partial]
    else if line[0] == ' ' then [partial] + SplitSpaces(line[1..], "")
    else SplitSpaces(line[1..], partial + [line[0]])
  }

  lemma {:induction false} SplitField(field: string, partial: string, rest: string)
    requires ' ' !in field
    ensures SplitSpaces(field + " " + rest, partial) == [partial + field] + SplitSpaces(rest, "")
    ensures SplitSpaces(field, partial) == [partial + field]
    decreases |field|
  {
    var line := field + " " + rest;
    if field == "" {
      assert line == " " + rest;
      assert partial + field == partial;
    } else {
      assert line[1..] == field[1..] + " " + rest;
      SplitField(field[1..], partial + [field[0]], rest);
      assert partial + [field[0]] + field[1..] == partial + field;
    }
  }

  // ----- decimal numbers

  predicate IsDigit(c: char) {
    '0' <= c <= '9'
  }

  predicate AllDigits(s: string) {
    forall i :: 0 <= i < |s| ==> IsDigit(s[i])
  }

  function DigitOf(n: nat): char
    requires n < 10
  {
    ('0' as int + n) as char
  }

  function Decimal(n: nat): (s: string)
    ensures s != "" && AllDigits(s)
  {
    if n < 10 then [DigitOf(n)] else Decimal(n / 10) + [DigitOf(n % 10)]
  }

  function NatOf(s: string): nat
    requires AllDigits(s)
  {
    if s == "" then 0 else 10 * NatOf(s[..|s| - 1]) + (s[|s| - 1] as int - '0' as int)
  }

  lemma {:induction false} NatOfDecimal(n: nat)
    ensures NatOf(Decimal(n)) == n
  {
    if n < 10 {
      assert Decimal(n)[..0] == "";
    } else {
      NatOfDecimal(n / 10);
      assert Decimal(n)[..|Decimal(n)| - 1] == Decimal(n / 10);
    }
  }

  /** How many digits `s` starts with. */
  function DigitCount(s: string): (k: nat)
    ensures k <= |s| && AllDigits(s[..k]) && (k < |s| ==> !IsDigit(s[k]))
  {
    if s == "" || !IsDigit(s[0]) then 0 else 1 + DigitCount(s[1..])
  }

  lemma {:induction false} DigitCountOf(digits: string, rest: string)
    requires AllDigits(digits) && (rest == "" || !IsDigit(rest[0]))
    ensures DigitCount(digits + rest) == |digits|
  {
    if digits == "" {
      assert digits + rest == rest;
    } else {
      assert (digits + rest)[1..] == digits[1..] + rest;
      DigitCountOf(digits[1..], rest);
    }
  }
}
