// The text side of kb_new's configuration parser: the words that sscanf's %s takes out of a line,
// the numbers that atoi reads, and the canonical text of a configuration.
module ConfigText {
  import opened Wrappers

  // What the parser skips at the start of a line, and what ends a word for sscanf.
  predicate IsBlank(c: char) { c == ' ' || c == '\t' }

  predicate IsSpace(c: char) {
    c == ' ' || c == '\t' || c == '\n' || c == '\r' || c == '\U{0B}' || c == '\U{0C}'
  }

  function SkipBlanks(s: string): string {
    if s != [] && IsBlank(s[0]) then SkipBlanks(s[1..]) else s
  }

  function SkipSpaces(s: string): string {
    if s != [] && IsSpace(s[0]) then SkipSpaces(s[1..]) else s
  }

  function TakeWord(s: string): string {
    if s == [] || IsSpace(s[0]) then [] else [s[0]] + TakeWord(s[1..])
  }

  function DropWord(s: string): string {
    if s == [] || IsSpace(s[0]) then s else DropWord(s[1..])
  }

  // One %s: the word, if there is one, and what follows it.
  function Word(s: string): Option<(string, string)> {
    var t := SkipSpaces(s);
    if t == [] then None else Some((TakeWord(t), DropWord(t)))
  }

  predicate IsWord(w: string) {
    w != [] && forall i | 0 <= i < |w| :: !IsSpace(w[i])
  }

  lemma {:induction false} TakeDropWord(w: string, rest: string)
    requires forall i | 0 <= i < |w| :: !IsSpace(w[i])
    requires rest == [] || IsSpace(rest[0])
    ensures TakeWord(w + rest) == w && DropWord(w + rest) == rest
    decreases |w|
  {
    if w == [] {
      assert w + rest == rest;
    } else {
      assert (w + rest)[0] == w[0] && (w + rest)[1..] == w[1..] + rest;
      TakeDropWord(w[1..], rest);
      assert [w[0]] + w[1..] == w;
    }
  }

  // sscanf finds a word again that is followed by white space.
  lemma {:induction false} WordFound(w: string, rest: string)
    requires IsWord(w) && (rest == [] || IsSpace(rest[0]))
    ensures Word(w + rest) == Some((w, rest))
  {
    assert (w + rest)[0] == w[0];
    TakeDropWord(w, rest);
  }

  lemma {:induction false} WordAfterSpace(w: string, rest: string)
    requires IsWord(w) && (rest == [] || IsSpace(rest[0]))
    ensures Word(" " + w + rest) == Some((w, rest))
  {
    var s := " " + w + rest;
    assert s[0] == ' ' && s[1..] == w + rest;
    WordFound(w, rest);
  }

  lemma {:induction false} SkipMoreBlanks(blanks: string, s: string)
    requires forall i | 0 <= i < |blanks| :: IsBlank(blanks[i])
    ensures SkipBlanks(blanks + s) == SkipBlanks(s)
    decreases |blanks|
  {
    if blanks == [] {
      assert blanks + s == s;
    } else {
      assert (blanks + s)[0] == blanks[0] && (blanks + s)[1..] == blanks[1..] + s;
      SkipMoreBlanks(blanks[1..], s);
    }
  }

  // ---------- numbers ----------

  predicate IsDigit(c: char) { '0' <= c <= '9' }

  function DigitsFrom(s: string, sofar: nat): nat
    decreases |s|
  {
    if s == [] || !IsDigit(s[0]) then sofar else DigitsFrom(s[1..], 10 * sofar + (s[0] as int - '0' as int))
  }

  // atoi on a word: an optional sign and the digits that follow it.
  function Atoi(s: string): int {
    if s != [] && s[0] == '-' then 0 - DigitsFrom(s[1..], 0) as int
    else if s != [] && s[0] == '+' then DigitsFrom(s[1..], 0)
    else DigitsFrom(s, 0)
  }

  function Digit(d: nat): char
    requires d < 10
  {
    '0' + d as char
  }

  function Decimal(n: nat): (s: string)
    ensures s != [] && IsDigit(s[0])
  {
    if n < 10 then [Digit(n)] else Decimal(n / 10) + [Digit(n % 10)]
  }

  function NumberText(n: int): string {
    if n < 0 then "-" + Decimal(-n) else Decimal(n)
  }

  lemma {:induction false} DecimalDigits(n: nat, rest: string)
    ensures DigitsFrom(Decimal(n) + rest, 0) == DigitsFrom(rest, n)
    ensures IsWord(Decimal(n))
  {
    if n < 10 {
      assert ([Digit(n)] + rest)[1..] == rest;
    } else {
      var last := [Digit(n % 10)];
      DecimalDigits(n / 10, last + rest);
      assert Decimal(n) + rest == Decimal(n / 10) + (last + rest);
      assert (last + rest)[1..] == rest;
      DecimalDigits(n / 10, []);
    }
  }

  // atoi reads back every number that is written out.
  lemma {:induction false} AtoiReadsBack(n: int)
    ensures Atoi(NumberText(n)) == n && IsWord(NumberText(n))
  {
    var m := if n < 0 then -n else n;
    DecimalDigits(m, []);
    assert Decimal(m) + [] == Decimal(m);
    if n < 0 {
      assert NumberText(n)[1..] == Decimal(m);
    }
  }

  // atoi reads no further than the digits, takes a plus sign, and makes 0 of a word without a number.
  lemma {:induction false} AtoiStops(n: int, rest: string)
    requires rest == [] || !IsDigit(rest[0])
    ensures Atoi(NumberText(n) + rest) == n
    ensures n >= 0 ==> Atoi("+" + NumberText(n) + rest) == n
    ensures rest == [] || (rest[0] != '-' && rest[0] != '+') ==> Atoi(rest) == 0
  {
    var m := if n < 0 then -n else n;
    DecimalDigits(m, rest);
    assert (Decimal(m) + rest)[0] == Decimal(m)[0];
    if n < 0 {
      assert (NumberText(n) + rest)[1..] == Decimal(m) + rest;
    } else {
      assert ("+" + NumberText(n) + rest)[1..] == Decimal(m) + rest;
    }
  }
}
