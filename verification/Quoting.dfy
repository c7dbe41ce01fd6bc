/**
  Quoted strings: what `%q` writes, and what the lexer reads back from it.
 */
module Quoting {
  import opened Common

  const QUOTE: char := '"'
  const BACKSLASH: char := '\\'

  // ---------------------------------------------------------------- writing

  function QuoteChar(c: char): string {
    if c == QUOTE || c == BACKSLASH || c == '\n' then [BACKSLASH, c]
    else if c == '\r' then [BACKSLASH, 'r']
    else if c == '\0' then [BACKSLASH, '0', '0', '0']
    else [c]
  }

  function QuoteAll(s: string): string {
    if s == [] then [] else QuoteChar(s[0]) + QuoteAll(s[1..])
  }

  lemma {:induction false} QuoteSnoc(s: string, c: char)
    ensures QuoteAll(s + [c]) == QuoteAll(s) + QuoteChar(c)
  {
    if s == [] {
      assert [] + [c] == [c] && [c][1..] == [];
    } else {
      assert (s + [c])[0] == s[0] && (s + [c])[1..] == s[1..] + [c];
      QuoteSnoc(s[1..], c);
    }
  }

  /** `addquoted` */
  method AddQuoted(s: string) returns (b: string)
    ensures b == [QUOTE] + QuoteAll(s) + [QUOTE]
  {
    b := [QUOTE];
    var i := 0;
    while i < |s|
      invariant 0 <= i <= |s| && b == [QUOTE] + QuoteAll(s[..i])
    {
      QuoteSnoc(s[..i], s[i]);
      assert s[..i + 1] == s[..i] + [s[i]];
      var c := s[i];
      ghost var b0 := b;
      if c == QUOTE || c == BACKSLASH || c == '\n' {
        b := b + [BACKSLASH];
        b := b + [c];
      } else if c == '\r' {
        b := b + [BACKSLASH, 'r'];
      } else if c == '\0' {
        b := b + [BACKSLASH, '0', '0', '0'];
      } else {
        b := b + [c];
      }
      assert b == b0 + QuoteChar(c);
      Assoc([QUOTE], QuoteAll(s[..i]), QuoteChar(c));
      i := i + 1;
    }
    assert s[..i] == s;
    b := b + [QUOTE];
  }

  // ---------------------------------------------------------------- reading

  predicate IsNewline(c: char) {
    c == '\n' || c == '\r'
  }

  /** The control character that a letter stands for behind a backslash. */
  function Control(c: char): Option<char> {
    match c
    case 'a' => Some(7 as char)
    case 'b' => Some(8 as char)
    case 'f' => Some(12 as char)
    case 'n' => Some('\n')
    case 'r' => Some('\r')
    case 't' => Some('\t')
    case 'v' => Some(11 as char)
    case _ => None
  }

  /** A line end of one or two different characters. */
  function SkipLine(ts: string): (r: string)
    requires ts != [] && IsNewline(ts[0])
    ensures |r| < |ts|
  {
    if |ts| >= 2 && IsNewline(ts[1]) && ts[1] != ts[0] then ts[2..] else ts[1..]
  }

  /** Up to `n` decimal digits: how many there are, and their value. */
  function Digits(ts: string, n: nat): (r: nat)
    ensures r <= n && r <= |ts|
  {
    if n == 0 || ts == [] || !IsDigit(ts[0]) then 0 else 1 + Digits(ts[1..], n - 1)
  }

  function Decimal(ts: string, n: nat, c: nat): nat
    requires n <= |ts| && forall i :: 0 <= i < n ==> IsDigit(ts[i])
    decreases n
  {
    if n == 0 then c else assert IsDigit(ts[0]); Decimal(ts[1..], n - 1, 10 * c + (ts[0] as int - '0' as int))
  }

  lemma {:induction false} DigitsAre(ts: string, n: nat)
    ensures forall i :: 0 <= i < Digits(ts, n) ==> IsDigit(ts[i])
    decreases n
  {
    if !(n == 0 || ts == [] || !IsDigit(ts[0])) {
      DigitsAre(ts[1..], n - 1);
      forall i | 0 <= i < Digits(ts, n) ensures IsDigit(ts[i]) { if i > 0 { assert ts[i] == ts[1..][i - 1]; } }
    }
  }

  datatype Error = UnfinishedString | EscapeTooLarge

  /** The text read, what follows the delimiter, and the line ends passed. */
  datatype Read = Ok(text: string, rest: string, lines: nat) | Err(error: Error)

  function Before(c: char, r: Read): Read {
    if r.Ok? then r.(text := [c] + r.text) else r
  }

  function OneLine(r: Read): Read {
    if r.Ok? then r.(lines := r.lines + 1) else r
  }

  /** What the lexer makes of the text behind the opening delimiter. */
  function ReadBody(ts: string, del: char): Read
    decreases |ts|
  {
    if ts == [] then Err(UnfinishedString)
    else if ts[0] == del then Ok([], ts[1..], 0)
    else if IsNewline(ts[0]) then Err(UnfinishedString)
    else if ts[0] != BACKSLASH then Before(ts[0], ReadBody(ts[1..], del))
    else ReadEscape(ts[1..], del)
  }

  function ReadEscape(ts: string, del: char): Read
    decreases |ts|
  {
    if ts == [] then Err(UnfinishedString)
    else if Control(ts[0]).Some? then Before(Control(ts[0]).value, ReadBody(ts[1..], del))
    else if IsNewline(ts[0]) then OneLine(Before('\n', ReadBody(SkipLine(ts), del)))
    else if !IsDigit(ts[0]) then Before(ts[0], ReadBody(ts[1..], del))
    else
      var n := Digits(ts, 3);
      DigitsAre(ts, 3);
      var c := Decimal(ts, n, 0);
      if c > 255 then Err(EscapeTooLarge) else Before(c as char, ReadBody(ts[n..], del))
  }

  function Prepend(text: string, lines: nat, r: Read): Read {
    if r.Ok? then r.(text := text + r.text, lines := lines + r.lines) else r
  }

  class LexState {
    const input: string
    var pos: nat
    var buff: string
    var linenumber: nat

    constructor (input: string)
      ensures this.input == input && pos == 0 && linenumber == 1
    {
      this.input, pos, buff, linenumber := input, 0, "", 1;
    }

    predicate Valid()
      reads this
    {
      pos <= |input|
    }

    function Left(): string
      requires Valid()
      reads this
    {
      input[pos..]
    }

    /** The current character, if the stream has not ended. */
    function Current(): Option<char>
      reads this
    {
      if pos < |input| then Some(input[pos]) else None
    }

    method Next()
      requires pos < |input|
      modifies `pos
      ensures pos == old(pos) + 1
    {
      pos := pos + 1;
    }

    method Save(c: char)
      modifies `buff
      ensures buff == old(buff) + [c]
    {
      buff := buff + [c];
    }

    /** `inclinenumber` */
    method IncLineNumber()
      requires pos < |input| && IsNewline(input[pos])
      modifies `pos, `linenumber
      ensures Valid() && Left() == SkipLine(old(input[pos..])) && linenumber == old(linenumber) + 1
    {
      var start := input[pos];
      Next();
      if pos < |input| && IsNewline(input[pos]) && input[pos] != start { Next(); }
      linenumber := linenumber + 1;
    }

    /** The digits of a decimal escape. */
    method ReadDecimal() returns (c: nat)
      requires pos < |input| && IsDigit(input[pos])
      modifies `pos
      ensures Valid() && var ts := old(input[pos..]); var n := Digits(ts, 3); Left() == ts[n..]
      ensures var ts := old(input[pos..]); var n := Digits(ts, 3);
        (forall i :: 0 <= i < n ==> IsDigit(ts[i])) && c == Decimal(ts, n, 0)
    {
      ghost var ts := input[pos..];
      DigitsAre(ts, 3);
      var i := 0;
      c := 0;
      ghost var left: nat := 3;
      while i < 3 && pos < |input| && IsDigit(input[pos])
        invariant left == 3 - i && i <= 3 && pos <= |input| && pos == old(pos) + i
        invariant Digits(ts, 3) == i + Digits(input[pos..], left)
        invariant forall k :: 0 <= k < Digits(input[pos..], left) ==> IsDigit(input[pos..][k])
        invariant Decimal(ts, Digits(ts, 3), 0) == Decimal(input[pos..], Digits(input[pos..], left), c)
        decreases 3 - i
      {
        DigitsAre(input[pos + 1..], left - 1);
        assert input[pos..][1..] == input[pos + 1..];
        c := 10 * c + (input[pos] as int - '0' as int);
        Next();
        i, left := i + 1, left - 1;
      }
    }

    /** One escape behind its backslash; None when the stream ends there. */
    method ReadOneEscape(ghost del: char) returns (err: Option<Error>)
      requires Valid()
      modifies this
      ensures Valid() && pos >= old(pos)
      ensures Stepped(ReadEscape(old(Left()), del), old(buff), old(linenumber), err, del)
    {
      err := None;
      ghost var ts := Left();
      if pos == |input| { return; }
      var c := input[pos];
      assert ts[0] == c && ts[1..] == input[pos + 1..];
      if Control(c).Some? {
        Save(Control(c).value);
        Next();
      } else if IsNewline(c) {
        Save('\n');
        IncLineNumber();
      } else if !IsDigit(c) {
        Save(c);
        Next();
      } else {
        var x := ReadDecimal();
        if x > 255 { return Some(EscapeTooLarge); }
        Save(x as char);
      }
    }

    /** What was to be read is what has been saved since, and what is still to be read. */
    ghost predicate Stepped(r: Read, buff0: string, line0: nat, err: Option<Error>, del: char)
      requires Valid()
      reads this
    {
      if err.Some? then r == Err(err.value)
      else
        && buff0 <= buff && line0 <= linenumber
        && r == Prepend(buff[|buff0|..], linenumber - line0, ReadBody(Left(), del))
    }

    /** One character of the string, written directly or as an escape. */
    method ReadOne(del: char) returns (err: Option<Error>)
      requires pos < |input| && input[pos] != del
      modifies this
      ensures Valid() && (err.None? ==> pos > old(pos))
      ensures Stepped(ReadBody(old(input[pos..]), del), old(buff), old(linenumber), err, del) == true
    {
      ghost var ts := Left();
      assert ts[0] == input[pos] && ts[1..] == input[pos + 1..];
      err := None;
      if IsNewline(input[pos]) { return Some(UnfinishedString); }
      if input[pos] == BACKSLASH {
        Next();
        err := ReadOneEscape(del);
      } else {
        Save(input[pos]);
        Next();
      }
    }

    /** `read_string`; the buffer keeps the delimiters. */
    method ReadString(del: char) returns (r: Read)
      requires pos < |input| && input[pos] == del
      modifies this
      ensures Valid() && match r {
        case Ok(text, rest, lines) => ReadBody(old(input[pos + 1..]), del) == r && Left() == rest
            && linenumber == old(linenumber) + lines
        case Err(e) => ReadBody(old(input[pos + 1..]), del) == Err(e) }
    {
      buff := [];
      Save(del);
      Next();
      ghost var ts := Left();
      var line0 := linenumber;
      ghost var b0 := buff;
      while pos < |input| && input[pos] != del
        invariant Valid() && b0 == [del] && Stepped(ReadBody(ts, del), b0, line0, None, del)
        decreases |input| - pos
      {
        ghost var b1, l1, rest := buff, linenumber, Left();
        var err := ReadOne(del);
        if err.Some? { return Err(err.value); }
        StepBoth(ReadBody(ts, del), b0, line0, rest, b1, l1, buff, linenumber, ReadBody(Left(), del), del);
      }
      if pos == |input| { return Err(UnfinishedString); }
      assert Left()[0] == del && Left()[1..] == input[pos + 1..];
      Save(del);
      Next();
      r := Ok(buff[1..|buff| - 1], Left(), linenumber - line0);
    }
  }

  lemma StepBoth(r: Read, b0: string, l0: nat, rest: string, b1: string, l1: nat, b2: string, l2: nat, tail: Read,
      del: char)
    requires b0 <= b1 && l0 <= l1 && b1 <= b2 && l1 <= l2
    requires r == Prepend(b1[|b0|..], l1 - l0, ReadBody(rest, del))
    requires ReadBody(rest, del) == Prepend(b2[|b1|..], l2 - l1, tail)
    ensures b0 <= b2 && r == Prepend(b2[|b0|..], l2 - l0, tail)
  {
    assert b2[|b0|..] == b1[|b0|..] + b2[|b1|..];
    if tail.Ok? { assert b2[|b0|..] + tail.text == b1[|b0|..] + (b2[|b1|..] + tail.text); }
  }

  // ---------------------------------------------------------------- round trip

  function Newlines(s: string): nat {
    if s == [] then 0 else (if s[0] == '\n' then 1 else 0) + Newlines(s[1..])
  }

  lemma PlainTrip(c: char, ts: string)
    requires QuoteChar(c) == [c]
    ensures ReadBody([c] + ts, QUOTE) == Before(c, ReadBody(ts, QUOTE))
  {
    var all := [c] + ts;
    assert all[0] == c && all[1..] == ts;
  }

  lemma EscapeTrip(c: char, ts: string)
    requires !IsNewline(c) && !IsDigit(c)
    ensures ReadBody([BACKSLASH, c] + ts, QUOTE)
        == Before(if Control(c).Some? then Control(c).value else c, ReadBody(ts, QUOTE))
  {
    var all, more := [BACKSLASH, c] + ts, [c] + ts;
    assert all[0] == BACKSLASH && all[1..] == more && more[0] == c && more[1..] == ts;
  }

  lemma LineTrip(ts: string, all: string)
    requires !(ts != [] && ts[0] == '\r') && |all| == |ts| + 2 && all[0] == BACKSLASH && all[1] == '\n'
        && all[2..] == ts
    ensures ReadBody(all, QUOTE) == OneLine(Before('\n', ReadBody(ts, QUOTE)))
  {
    var more := all[1..];
    assert more[1..] == ts && (|more| >= 2 ==> more[1] == ts[0]);
    assert SkipLine(more) == ts;
    assert ReadBody(all, QUOTE) == ReadEscape(more, QUOTE);
  }

  lemma NulTrip(ts: string)
    ensures ReadBody([BACKSLASH, '0', '0', '0'] + ts, QUOTE) == Before('\0', ReadBody(ts, QUOTE))
  {
    var all := [BACKSLASH, '0', '0', '0'] + ts;
    assert all[0] == BACKSLASH && all[1..] == "000" + ts;
    ZeroTrip(ts);
  }

  lemma PrependOne(c: char, r: Read)
    ensures Prepend([c], 0, r) == Before(c, r) && Prepend([c], 1, r) == OneLine(Before(c, r))
  {
  }

  predicate ReadBack(c: char, ts: string) {
    ReadBody(QuoteChar(c) + ts, QUOTE) == Prepend([c], if c == '\n' then 1 else 0, ReadBody(ts, QUOTE))
  }

  lemma ControlBack(c: char, ts: string)
    requires c == '\0' || c == '\r'
    ensures ReadBack(c, ts)
  {
    PrependOne(c, ReadBody(ts, QUOTE));
    if c == '\0' { NulTrip(ts); } else { EscapeTrip('r', ts); }
  }

  lemma LineBack(ts: string)
    requires !(ts != [] && ts[0] == '\r')
    ensures ReadBack('\n', ts)
  {
    PrependOne('\n', ReadBody(ts, QUOTE));
    LineTrip(ts, QuoteChar('\n') + ts);
  }

  lemma SelfBack(c: char, ts: string)
    requires c == QUOTE || c == BACKSLASH
    ensures ReadBack(c, ts)
  {
    PrependOne(c, ReadBody(ts, QUOTE));
    EscapeTrip(c, ts);
  }

  lemma PlainBack(c: char, ts: string)
    requires QuoteChar(c) == [c]
    ensures ReadBack(c, ts)
  {
    PrependOne(c, ReadBody(ts, QUOTE));
    PlainTrip(c, ts);
  }

  /** A quoted character is read as that character, whatever follows. */
  lemma QuoteCharTrip(c: char, ts: string)
    requires !(c == '\n' && ts != [] && ts[0] == '\r')
    ensures ReadBack(c, ts) == true
  {
    if c == '\0' || c == '\r' {
      ControlBack(c, ts);
    } else if c == '\n' {
      LineBack(ts);
    } else if c == QUOTE || c == BACKSLASH {
      SelfBack(c, ts);
    } else {
      PlainBack(c, ts);
    }
  }

  /** Three zeros are one character even before more digits. */
  lemma ZeroTrip(ts: string)
    ensures ReadEscape("000" + ts, QUOTE) == Before('\0', ReadBody(ts, QUOTE))
  {
    var all := "000" + ts;
    var t1, t2 := all[1..], all[2..];
    assert t1[1..] == t2 && t2[1..] == ts;
    assert Digits(ts, 0) == 0 && Digits(t2, 1) == 1 && Digits(t1, 2) == 2 && Digits(all, 3) == 3;
    assert all[3..] == ts;
    DigitsAre(all, 3);
    assert Decimal(ts, 0, 0) == 0 && Decimal(t2, 1, 0) == 0 && Decimal(t1, 2, 0) == 0 && Decimal(all, 3, 0) == 0;
  }

  lemma QuoteAllStart(s: string, rest: string)
    ensures QuoteAll(s) + [QUOTE] + rest != [] && (QuoteAll(s) + [QUOTE] + rest)[0] != '\r'
  {
    if s != [] { assert (QuoteAll(s) + [QUOTE] + rest)[0] == QuoteChar(s[0])[0]; }
  }

  /** Reading what was quoted gives back the text, and passes one line for each
      line end in it. */
  lemma {:induction false} QuoteTrip(s: string, rest: string)
    ensures ReadBody(QuoteAll(s) + [QUOTE] + rest, QUOTE) == Ok(s, rest, Newlines(s))
  {
    if s == [] {
      assert QuoteAll(s) + [QUOTE] + rest == [QUOTE] + rest;
      assert ([QUOTE] + rest)[1..] == rest;
    } else {
      var ts := QuoteAll(s[1..]) + [QUOTE] + rest;
      assert QuoteAll(s) + [QUOTE] + rest == QuoteChar(s[0]) + ts;
      QuoteAllStart(s[1..], rest);
      QuoteCharTrip(s[0], ts);
      QuoteTrip(s[1..], rest);
      assert s == [s[0]] + s[1..];
    }
  }

  /** Quoting a text and lexing it. */
  method QuoteAndRead(s: string, rest: string) returns (r: Read)
    ensures r == Ok(s, rest, Newlines(s))
  {
    var q := AddQuoted(s);
    var ls := new LexState(q + rest);
    QuoteTrip(s, rest);
    assert (q + rest)[1..] == QuoteAll(s) + [QUOTE] + rest;
    r := ls.ReadString(QUOTE);
  }
}
