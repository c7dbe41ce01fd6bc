/**
  Patterns: what a pattern string denotes as a list of items, and the meaning
  of a list of items as the list of all its successes, in order of preference.
 */
module PatternModel {
  import opened Common

  const ESC: char := '%'
  const MAXCAPTURES: nat := 32
  const CAP_UNFINISHED: int := -1
  const CAP_POSITION: int := -2

  /** The character at a place, zero at the end. */
  function At(s: string, i: nat): char {
    if i < |s| then s[i] else '\0'
  }

  // ---------------------------------------------------------------- character classes

  predicate IsUpper(c: char) { 'A' <= c <= 'Z' }
  predicate IsLower(c: char) { 'a' <= c <= 'z' }
  predicate IsAlpha(c: char) { IsUpper(c) || IsLower(c) }
  predicate IsAlnum(c: char) { IsAlpha(c) || IsDigit(c) }
  predicate IsXDigit(c: char) { IsDigit(c) || 'a' <= c <= 'f' || 'A' <= c <= 'F' }
  predicate IsSpace(c: char) { c == ' ' || 9 as char <= c <= 13 as char }
  predicate IsCntrl(c: char) { c < ' ' || c == 127 as char }
  predicate IsPunct(c: char) { '!' <= c <= '~' && !IsAlnum(c) }

  function ToLower(c: char): char {
    if IsUpper(c) then (c as int + 32) as char else c
  }

  /** The letter classes, in their lower-case form. */
  predicate LetterSet(l: char, c: char)
    requires IsLetter(l)
  {
    match l
    case 'a' => IsAlpha(c)
    case 'c' => IsCntrl(c)
    case 'd' => IsDigit(c)
    case 'l' => IsLower(c)
    case 'p' => IsPunct(c)
    case 's' => IsSpace(c)
    case 'u' => IsUpper(c)
    case 'w' => IsAlnum(c)
    case 'x' => IsXDigit(c)
    case _ => c == '\0'
  }

  predicate IsLetter(l: char) {
    l in "acdlpsuwxz"
  }

  datatype Elem = Char(c: char) | Range(lo: char, hi: char) | Letter(l: char)

  datatype Class = Any | One(e: Elem) | Set(negated: bool, elems: seq<Elem>)

  /** An upper-case letter class is the complement; any other escaped character is itself. */
  predicate InElem(e: Elem, c: char) {
    match e
    case Char(x) => c == x
    case Range(lo, hi) => lo <= c <= hi
    case Letter(l) => if IsLetter(ToLower(l)) then LetterSet(ToLower(l), c) == !IsUpper(l) else c == l
  }

  predicate InClass(k: Class, c: char) {
    match k
    case Any => true
    case One(e) => InElem(e, c)
    case Set(negated, elems) => negated != exists i :: 0 <= i < |elems| && InElem(elems[i], c)
  }

  /** The elements of a set, written from `q` up to `ec`. */
  function Elems(pat: string, q: nat, ec: nat): seq<Elem>
    decreases ec - q
  {
    if q >= ec then []
    else if At(pat, q) == ESC then [Letter(At(pat, q + 1))] + Elems(pat, q + 2, ec)
    else if At(pat, q + 1) == '-' && q + 2 < ec then [Range(At(pat, q), At(pat, q + 2))] + Elems(pat, q + 3, ec)
    else [Char(At(pat, q))] + Elems(pat, q + 1, ec)
  }

  /** Behind the bracket that closes a set whose first character is at `q`. */
  function SetEnd(pat: string, q: nat): (r: Option<nat>)
    ensures r.Some? ==> q + 2 <= r.value <= |pat|
    decreases |pat| - q
  {
    if At(pat, q) == '\0' then None
    else
      var q' := if At(pat, q) == ESC && At(pat, q + 1) != '\0' then q + 2 else q + 1;
      if At(pat, q') == ']' then Some(q' + 1) else SetEnd(pat, q')
  }

  /** Behind the class at `p` (`classend`). */
  function ClassEnd(pat: string, p: nat): (r: Option<nat>)
    requires At(pat, p) != '\0'
    ensures r.Some? ==> p < r.value <= |pat|
  {
    if At(pat, p) == ESC then if At(pat, p + 1) == '\0' then None else Some(p + 2)
    else if At(pat, p) == '[' then SetEnd(pat, if At(pat, p + 1) == '^' then p + 2 else p + 1)
    else Some(p + 1)
  }

  function SetAt(pat: string, p: nat, ec: nat): Class {
    var negated := At(pat, p + 1) == '^';
    Set(negated, Elems(pat, if negated then p + 2 else p + 1, ec))
  }

  function ClassAt(pat: string, p: nat, ep: nat): Class
    requires ep > 0
  {
    match At(pat, p)
    case '.' => Any
    case '%' => One(Letter(At(pat, p + 1)))
    case '[' => SetAt(pat, p, ep - 1)
    case c => One(Char(c))
  }

  // ---------------------------------------------------------------- items

  datatype Rep = Once | Optional | Star | Plus | Lazy

  datatype Error = Malformed | Unbalanced | MissingBracket | TooManyCaptures | InvalidCapture | InvalidIndex

  datatype Item =
    | Single(k: Class, rep: Rep)
    | Open(position: bool)
    | Close
    | Back(d: char)
    | Balance(b: char, e: char)
    | Frontier(set_: Class)
    | End
    | Bad(error: Error)

  function RepAt(pat: string, ep: nat): Rep {
    match At(pat, ep)
    case '?' => Optional
    case '*' => Star
    case '+' => Plus
    case '-' => Lazy
    case _ => Once
  }

  function SingleAt(pat: string, p: nat): (r: (Item, nat))
    requires At(pat, p) != '\0'
    ensures p < r.1 && (r.0.Bad? || r.1 <= |pat|)
  {
    var ep := ClassEnd(pat, p);
    if ep.None? then (Bad(Malformed), p + 1)
    else (Single(ClassAt(pat, p, ep.value), RepAt(pat, ep.value)),
        if RepAt(pat, ep.value) == Once then ep.value else ep.value + 1)
  }

  /** The item at `p`, and where the next one is. */
  function ItemAt(pat: string, p: nat): (r: (Item, nat))
    requires At(pat, p) != '\0'
    ensures p < r.1 && (r.0.Bad? || r.1 <= |pat|)
  {
    var c, d := At(pat, p), At(pat, p + 1);
    if c == '(' then if d == ')' then (Open(true), p + 2) else (Open(false), p + 1)
    else if c == ')' then (Close, p + 1)
    else if c == ESC && d == 'b' then
      if At(pat, p + 2) == '\0' || At(pat, p + 3) == '\0' then (Bad(Unbalanced), p + 1)
      else (Balance(At(pat, p + 2), At(pat, p + 3)), p + 4)
    else if c == ESC && d == 'f' then
      if At(pat, p + 2) != '[' then (Bad(MissingBracket), p + 1)
      else
        var ep := ClassEnd(pat, p + 2);
        if ep.None? then (Bad(Malformed), p + 1) else (Frontier(SetAt(pat, p + 2, ep.value - 1)), ep.value)
    else if c == ESC && IsDigit(d) then (Back(d), p + 2)
    else if c == '$' && d == '\0' then (End, p + 1)
    else SingleAt(pat, p)
  }

  /** All items from `p` on; a malformed one is the last. */
  function Parse(pat: string, p: nat): seq<Item>
    decreases |pat| - p
  {
    if At(pat, p) == '\0' then []
    else
      var (item, next) := ItemAt(pat, p);
      if item.Bad? then [item] else [item] + Parse(pat, next)
  }

  // ---------------------------------------------------------------- meaning

  /** A capture: where it starts and its length, if it is closed. */
  datatype Cap = Cap(init: nat, len: int)

  datatype Outcome = Done(e: nat, caps: seq<Cap>) | Err(error: Error)

  /** The last capture that is still open. */
  function LastOpen(caps: seq<Cap>): (r: int)
    ensures -1 <= r < |caps|
    ensures r >= 0 ==> caps[r].len == CAP_UNFINISHED
    ensures forall i :: r < i < |caps| ==> caps[i].len != CAP_UNFINISHED
  {
    if caps == [] then -1
    else if caps[|caps| - 1].len == CAP_UNFINISHED then |caps| - 1
    else LastOpen(caps[..|caps| - 1])
  }

  /** The end of the balanced text that starts before `s` with `cont` more to close. */
  function BalanceEnd(src: string, s: nat, b: char, e: char, cont: nat): (r: Option<nat>)
    requires cont > 0
    ensures r.Some? ==> s < r.value <= |src|
    decreases |src| - s
  {
    if s >= |src| then None
    else if src[s] == e then if cont == 1 then Some(s + 1) else BalanceEnd(src, s + 1, b, e, cont - 1)
    else BalanceEnd(src, s + 1, b, e, if src[s] == b then cont + 1 else cont)
  }

  predicate OneMore(src: string, s: nat, k: Class) {
    s < |src| && InClass(k, src[s])
  }

  /** All ways for the items to match from `s` on, the preferred first; an error
      stands where the search would meet it. */
  function Sem(items: seq<Item>, src: string, s: nat, caps: seq<Cap>): seq<Outcome>
    decreases |items|, 1, 0
  {
    if items == [] then [Done(s, caps)]
    else
      var rest := items[1..];
      match items[0]
      case Single(k, rep) =>
        (match rep
         case Once => if OneMore(src, s, k) then Sem(rest, src, s + 1, caps) else []
         case Optional => (if OneMore(src, s, k) then Sem(rest, src, s + 1, caps) else []) + Sem(rest, src, s, caps)
         case Star => Greedy(k, rest, src, s, caps)
         case Plus => if OneMore(src, s, k) then Greedy(k, rest, src, s + 1, caps) else []
         case Lazy => Reluctant(k, rest, src, s, caps))
      case Open(position) =>
        if |caps| >= MAXCAPTURES then [Err(TooManyCaptures)]
        else Sem(rest, src, s, caps + [Cap(s, if position then CAP_POSITION else CAP_UNFINISHED)])
      case Close =>
        var l := LastOpen(caps);
        if l < 0 then [Err(InvalidCapture)] else Sem(rest, src, s, caps[l := Cap(caps[l].init, s - caps[l].init)])
      case Back(d) =>
        var l := d as int - '1' as int;
        if l < 0 || l >= |caps| || caps[l].len == CAP_UNFINISHED then [Err(InvalidIndex)]
        else if Repeats(src, s, caps[l]) then Sem(rest, src, s + caps[l].len, caps)
        else []
      case Balance(b, e) =>
        if At(src, s) != b then []
        else
          var r := BalanceEnd(src, s + 1, b, e, 1);
          if r.None? then [] else Sem(rest, src, r.value, caps)
      case Frontier(k) =>
        var previous := if s == 0 then '\0' else At(src, s - 1);
        if InClass(k, previous) || !InClass(k, At(src, s)) then [] else Sem(rest, src, s, caps)
      case End => if s == |src| then Sem(rest, src, s, caps) else []
      case Bad(e) => [Err(e)]
  }

  /** The text of a closed capture stands at `s`; a position capture has none. */
  predicate Repeats(src: string, s: nat, c: Cap) {
    c.len >= 0 && s + c.len <= |src| && c.init + c.len <= |src| && src[s..s + c.len] == src[c.init..c.init + c.len]
  }

  function Greedy(k: Class, rest: seq<Item>, src: string, s: nat, caps: seq<Cap>): seq<Outcome>
    decreases |rest| + 1, 0, |src| - s
  {
    (if OneMore(src, s, k) then Greedy(k, rest, src, s + 1, caps) else []) + Sem(rest, src, s, caps)
  }

  function Reluctant(k: Class, rest: seq<Item>, src: string, s: nat, caps: seq<Cap>): seq<Outcome>
    decreases |rest| + 1, 0, |src| - s
  {
    Sem(rest, src, s, caps) + if OneMore(src, s, k) then Reluctant(k, rest, src, s + 1, caps) else []
  }
}
