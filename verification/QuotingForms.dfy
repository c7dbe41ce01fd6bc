/**
  The forms of quoted strings, character by character: what `%q` writes for each,
  and what each escape stands for.
 */
module QuotingForms {
  import opened Common
  import opened Quoting

  // ---------------------------------------------------------------- what is written

  /** Quote, backslash and newline get a backslash, carriage return and NUL an
      escape of their own, and everything else is written as it is. */
  lemma QuotedForms(c: char)
    ensures QuoteChar('"') == "\\\"" && QuoteChar('\\') == "\\\\" && QuoteChar('\n') == "\\\n"
    ensures QuoteChar('\r') == "\\r" && QuoteChar('\0') == "\\000"
    ensures c !in "\"\\\n\r\0" ==> QuoteChar(c) == [c]
  {
  }

  // ---------------------------------------------------------------- what is read

  /** The letters with a meaning of their own, and the codes they stand for. */
  const ESCAPES: map<char, int> := map['a' := 7, 'b' := 8, 't' := 9, 'n' := 10, 'v' := 11, 'f' := 12, 'r' := 13]

  lemma EscapeIs(c: char)
    ensures Control(c).Some? <==> c in ESCAPES
    ensures c in ESCAPES ==> Control(c).value as int == ESCAPES[c]
  {
  }

  /** A backslash and such a letter, wherever it stands in a string. */
  lemma LetterReads(c: char, ts: string, del: char)
    requires c in ESCAPES && del != '\\'
    ensures ReadBody(['\\', c] + ts, del) == Before(ESCAPES[c] as char, ReadBody(ts, del))
  {
    EscapeIs(c);
    assert (['\\', c] + ts)[1..] == [c] + ts && ([c] + ts)[1..] == ts;
  }

  lemma DigitIn(c: char)
    ensures IsDigit(c) <==> c in "0123456789"
  {
    var ds := "0123456789";
    if IsDigit(c) { assert ds[c as int - '0' as int] == c; }
  }

  lemma NewlineIn(c: char)
    ensures IsNewline(c) <==> c in "\n\r"
  {
  }

  /** Any other character but a digit and a line end stands for itself behind a backslash. */
  lemma OtherReads(c: char, ts: string, del: char)
    requires c !in ESCAPES && c !in "0123456789" && c !in "\n\r" && del != '\\'
    ensures ReadBody(['\\', c] + ts, del) == Before(c, ReadBody(ts, del))
  {
    EscapeIs(c);
    DigitIn(c);
    NewlineIn(c);
    assert (['\\', c] + ts)[1..] == [c] + ts && ([c] + ts)[1..] == ts;
  }

  /** A backslash and a line end, of one character or two different ones, is a newline. */
  lemma LineReads(c: char, d: char, ts: string, del: char)
    requires c in "\n\r" && del != '\\'
    ensures d in "\n\r" && d != c ==> ReadBody(['\\', c, d] + ts, del) == OneLine(Before('\n', ReadBody(ts, del)))
    ensures d !in "\n\r" || d == c ==>
      ReadBody(['\\', c, d] + ts, del) == OneLine(Before('\n', ReadBody([d] + ts, del)))
  {
    EscapeIs(c);
    var t := [c, d] + ts;
    assert (['\\', c, d] + ts)[1..] == t && t[1..] == [d] + ts && t[2..] == ts;
  }

  /** The digit of a value. */
  function Digit(n: nat): char
    requires n < 10
  {
    "0123456789"[n]
  }

  lemma DigitValue(n: nat)
    requires n < 10
    ensures IsDigit(Digit(n)) && Digit(n) as int - '0' as int == n
  {
  }

  lemma NotControl(c: char)
    requires IsDigit(c)
    ensures Control(c).None? && !IsNewline(c)
  {
  }

  /** What is left when up to three digits have been read. */
  lemma DigitsRead(ts: string, del: char, n: nat, v: nat, rest: string)
    requires ts != [] && IsDigit(ts[0]) && del != '\\'
    requires Digits(ts, 3) == n && (forall i :: 0 <= i < n <= |ts| ==> IsDigit(ts[i])) && Decimal(ts, n, 0) == v
    requires n <= |ts| && ts[n..] == rest
    ensures ReadBody(['\\'] + ts, del)
      == if v > 255 then Err(EscapeTooLarge) else Before(v as char, ReadBody(rest, del))
  {
    NotControl(ts[0]);
    assert (['\\'] + ts)[1..] == ts;
  }

  /** `\ddd` is the character of that code, and too large an error, whatever follows. */
  lemma ThreeDigits(x: nat, y: nat, z: nat, ts: string, del: char)
    requires x < 10 && y < 10 && z < 10 && del != '\\'
    ensures ReadBody(['\\', Digit(x), Digit(y), Digit(z)] + ts, del)
      == if 100 * x + 10 * y + z > 255 then Err(EscapeTooLarge)
         else Before((100 * x + 10 * y + z) as char, ReadBody(ts, del))
  {
    DigitValue(x);
    DigitValue(y);
    DigitValue(z);
    var t1 := [Digit(z)] + ts;
    var t2 := [Digit(y)] + t1;
    var t3 := [Digit(x)] + t2;
    assert t3[1..] == t2 && t2[1..] == t1 && t1[1..] == ts;
    assert Digits(ts, 0) == 0 && Digits(t1, 1) == 1 && Digits(t2, 2) == 2 && Digits(t3, 3) == 3;
    assert Decimal(ts, 0, 100 * x + 10 * y + z) == 100 * x + 10 * y + z;
    assert Decimal(t1, 1, 10 * x + y) == 100 * x + 10 * y + z;
    assert Decimal(t2, 2, x) == 100 * x + 10 * y + z;
    assert Decimal(t3, 3, 0) == 100 * x + 10 * y + z;
    assert t3[3..] == ts;
    DigitsRead(t3, del, 3, 100 * x + 10 * y + z, ts);
    assert ['\\', Digit(x), Digit(y), Digit(z)] + ts == ['\\'] + t3;
  }

  predicate NoDigit(ts: string) {
    ts == [] || ts[0] !in "0123456789"
  }

  lemma NoDigitIs(ts: string, n: nat)
    requires NoDigit(ts)
    ensures Digits(ts, n) == 0
  {
    if ts != [] { DigitIn(ts[0]); }
  }

  /** Fewer digits, when no other follows. */
  lemma TwoDigits(x: nat, y: nat, ts: string, del: char)
    requires x < 10 && y < 10 && NoDigit(ts) && del != '\\'
    ensures ReadBody(['\\', Digit(x), Digit(y)] + ts, del) == Before((10 * x + y) as char, ReadBody(ts, del))
  {
    DigitValue(x);
    DigitValue(y);
    NoDigitIs(ts, 1);
    var t2 := [Digit(y)] + ts;
    var t3 := [Digit(x)] + t2;
    assert t3[1..] == t2 && t2[1..] == ts;
    assert Digits(t2, 2) == 1 && Digits(t3, 3) == 2;
    assert Decimal(ts, 0, 10 * x + y) == 10 * x + y;
    assert Decimal(t2, 1, x) == 10 * x + y;
    assert Decimal(t3, 2, 0) == 10 * x + y;
    assert t3[2..] == ts;
    DigitsRead(t3, del, 2, 10 * x + y, ts);
    assert ['\\', Digit(x), Digit(y)] + ts == ['\\'] + t3;
  }

  lemma OneDigit(x: nat, ts: string, del: char)
    requires x < 10 && NoDigit(ts) && del != '\\'
    ensures ReadBody(['\\', Digit(x)] + ts, del) == Before(x as char, ReadBody(ts, del))
  {
    DigitValue(x);
    NoDigitIs(ts, 2);
    var t3 := [Digit(x)] + ts;
    assert t3[1..] == ts;
    assert Digits(t3, 3) == 1;
    assert Decimal(ts, 0, x) == x;
    assert Decimal(t3, 1, 0) == x;
    DigitsRead(t3, del, 1, x, ts);
    assert ['\\', Digit(x)] + ts == ['\\'] + t3;
  }

  /** Every other character is itself, and the delimiter ends the string. */
  lemma PlainReads(c: char, ts: string, del: char)
    requires c != '\\' && c !in "\n\r"
    ensures ReadBody([c] + ts, del) == if c == del then Ok([], ts, 0) else Before(c, ReadBody(ts, del))
  {
    assert ([c] + ts)[1..] == ts;
  }

  /** A line end without a backslash, or the end of the text, leaves the string unfinished. */
  lemma Unfinished(c: char, ts: string, del: char)
    requires c in "\n\r" && del !in "\n\r\\"
    ensures ReadBody([c] + ts, del) == Err(UnfinishedString) && ReadBody([], del) == Err(UnfinishedString)
    ensures ReadBody("\\", del) == Err(UnfinishedString)
  {
    assert "\\"[1..] == [];
  }
}
