/**
  Patterns as they are written: what each letter class holds, how each item is
  spelled, and which stretch of the subject the four repetitions prefer.
 */
module PatternText {
  import opened Common
  import opened PatternModel
  import opened Pattern
  import opened PatternTheory

  // ---------------------------------------------------------------- letter classes

  const LOWER: string := "abcdefghijklmnopqrstuvwxyz"
  const UPPER: string := "ABCDEFGHIJKLMNOPQRSTUVWXYZ"
  const DIGITS: string := "0123456789"
  const PUNCTUATION: string := "!\"#$%&'()*+,-./" + (":;<=>?@" + ("[\\]^_`" + "{|}~"))
  const SPACES: string := " \t\n\U{B}\U{C}\r"
  const CONTROLS: string :=
    "\U{0}\U{1}\U{2}\U{3}\U{4}\U{5}\U{6}\U{7}\U{8}\U{9}\U{A}\U{B}\U{C}\U{D}\U{E}\U{F}"
    + "\U{10}\U{11}\U{12}\U{13}\U{14}\U{15}\U{16}\U{17}\U{18}\U{19}\U{1A}\U{1B}\U{1C}\U{1D}\U{1E}\U{1F}\U{7F}"

  /** Section 5.4.1 of the Lua 5.1 Reference Manual: a letter, the letter of the
      complement, and the characters of the class. */
  const CLASSES: seq<(char, char, string)> := [
    ('a', 'A', LOWER + UPPER),
    ('c', 'C', CONTROLS),
    ('d', 'D', DIGITS),
    ('l', 'L', LOWER),
    ('p', 'P', PUNCTUATION),
    ('s', 'S', SPACES),
    ('u', 'U', UPPER),
    ('w', 'W', LOWER + UPPER + DIGITS),
    ('x', 'X', DIGITS + "abcdefABCDEF"),
    ('z', 'Z', "\0")]

  lemma LowerIs(c: char)
    ensures c in LOWER <==> 'a' <= c <= 'z'
  {
  }

  lemma UpperIs(c: char)
    ensures c in UPPER <==> 'A' <= c <= 'Z'
  {
  }

  lemma DigitsAre(c: char)
    ensures c in DIGITS <==> '0' <= c <= '9'
  {
  }

  lemma PunctuationIs(c: char)
    ensures c in PUNCTUATION <==> IsPunct(c)
  {
    assert c in "!\"#$%&'()*+,-./" <==> '!' <= c <= '/';
    assert c in ":;<=>?@" <==> ':' <= c <= '@';
    assert c in "[\\]^_`" <==> '[' <= c <= '`';
    assert c in "{|}~" <==> '{' <= c <= '~';
  }

  lemma SpacesAre(c: char)
    ensures c in SPACES <==> IsSpace(c)
  {
  }

  lemma ControlsAre(c: char)
    ensures c in CONTROLS <==> IsCntrl(c)
  {
  }

  lemma HexadecimalIs(c: char)
    ensures c in DIGITS + "abcdefABCDEF" <==> IsXDigit(c)
  {
    DigitsAre(c);
  }

  /** `%l` and the like hold the characters written beside them. */
  lemma Members(l: char, u: char, chars: string, c: char)
    requires (l, u, chars) in CLASSES
    ensures IsLetter(l) && ToLower(u) == l && IsUpper(u) && !IsUpper(l)
    ensures LetterSet(l, c) <==> c in chars
  {
    match l
    case 'a' => LowerIs(c); UpperIs(c);
    case 'c' => ControlsAre(c);
    case 'd' => DigitsAre(c);
    case 'l' => LowerIs(c);
    case 'p' => PunctuationIs(c);
    case 's' => SpacesAre(c);
    case 'u' => UpperIs(c);
    case 'w' => LowerIs(c); UpperIs(c); DigitsAre(c);
    case 'x' => HexadecimalIs(c);
    case _ =>
  }

  /** An escaped letter of the list stands for its characters, its upper-case form
      for all others, and any other escaped character for itself. */
  lemma ClassIs(l: char, u: char, chars: string, c: char)
    requires (l, u, chars) in CLASSES
    ensures InClass(One(Letter(l)), c) <==> c in chars
    ensures InClass(One(Letter(u)), c) <==> c !in chars
  {
    Members(l, u, chars, c);
  }

  lemma EscapedIs(x: char, c: char)
    requires x !in "acdlpsuwxzACDLPSUWXZ"
    ensures InClass(One(Letter(x)), c) <==> c == x
  {
    if IsUpper(x) {
      assert x as int == ToLower(x) as int - 32;
    }
  }

  /** A dot stands for any character, a plain character for itself. */
  lemma PlainIs(x: char, c: char)
    ensures InClass(ClassAt(".", 0, 1), c)
    ensures x !in ".%[" ==> (InClass(ClassAt([x], 0, 1), c) <==> c == x)
  {
  }

  /** `%a` is `%l` and `%u`, `%w` is `%a` and `%d`; the parts have nothing in common. */
  lemma Unions(c: char)
    ensures InClass(One(Letter('a')), c) <==> InClass(One(Letter('l')), c) || InClass(One(Letter('u')), c)
    ensures !(InClass(One(Letter('l')), c) && InClass(One(Letter('u')), c))
    ensures InClass(One(Letter('w')), c) <==> InClass(One(Letter('a')), c) || InClass(One(Letter('d')), c)
    ensures !(InClass(One(Letter('a')), c) && InClass(One(Letter('d')), c))
  {
    LowerIs(c);
    UpperIs(c);
    DigitsAre(c);
    assert ToLower('a') == 'a' && ToLower('l') == 'l' && ToLower('u') == 'u';
  }

  // ---------------------------------------------------------------- how items are written

  function RepText(rep: Rep): string {
    match rep
    case Once => ""
    case Optional => "?"
    case Star => "*"
    case Plus => "+"
    case Lazy => "-"
  }

  function ElemText(e: Elem): (t: string)
    ensures t != ""
  {
    match e
    case Char(c) => [c]
    case Range(lo, hi) => [lo, '-', hi]
    case Letter(l) => ['%', l]
  }

  function ElemsText(es: seq<Elem>): string {
    if es == [] then "" else ElemText(es[0]) + ElemsText(es[1..])
  }

  function ClassText(k: Class): (t: string)
    ensures t != ""
  {
    match k
    case Any => "."
    case One(e) => ElemText(e)
    case Set(negated, es) => (if negated then "[^" else "[") + (ElemsText(es) + "]")
  }

  function ItemText(item: Item): (t: string)
    ensures !item.Bad? ==> t != ""
  {
    match item
    case Single(k, rep) => ClassText(k) + RepText(rep)
    case Open(position) => if position then "()" else "("
    case Close => ")"
    case Back(d) => ['%', d]
    case Balance(b, e) => ['%', 'b', b, e]
    case Frontier(k) => "%f" + ClassText(k)
    case End => "$"
    case Bad(_) => ""
  }

  function Text(items: seq<Item>): string {
    if items == [] then "" else ItemText(items[0]) + Text(items[1..])
  }

  // ---------------------------------------------------------------- what can be written so

  /** In a set a bracket, a hyphen and an escape are written with an escape. */
  predicate ElemFits(e: Elem) {
    match e
    case Char(c) => c !in "]%-\0"
    case Range(lo, hi) => lo !in "]%-\0" && hi !in "]%\0"
    case Letter(l) => l != '\0'
  }

  predicate ElemsFit(es: seq<Elem>) {
    forall i :: 0 <= i < |es| ==> ElemFits(es[i])
  }

  predicate SetFits(k: Class) {
    k.Set? && k.elems != [] && ElemsFit(k.elems) && (k.negated || ElemText(k.elems[0])[0] != '^')
  }

  predicate ClassFits(k: Class) {
    match k
    case Any => true
    case One(Char(c)) => c !in "().%[*+-?\0"
    case One(Letter(l)) => l !in "bf\0" && !IsDigit(l)
    case One(Range(_, _)) => false
    case Set(_, _) => SetFits(k)
  }

  /** What must not follow: a repetition behind a single class, a `)` behind a `(`;
      and `$` closes the pattern or is a plain character. */
  predicate ItemFits(item: Item, next: char) {
    match item
    case Single(k, rep) =>
      ClassFits(k) && (rep == Once ==> next !in "*+-?" && (k == One(Char('$')) ==> next != '\0'))
    case Open(position) => position || next != ')'
    case Close => true
    case Back(d) => IsDigit(d)
    case Balance(b, e) => b != '\0' && e != '\0'
    case Frontier(k) => SetFits(k)
    case End => next == '\0'
    case Bad(_) => false
  }

  /** The first character of the items' text, or the one behind them. */
  function First(items: seq<Item>, next: char): char {
    if items == [] || ItemText(items[0]) == "" then next else ItemText(items[0])[0]
  }

  predicate Fits(items: seq<Item>, next: char) {
    items == [] || (ItemFits(items[0], First(items[1..], next)) && Fits(items[1..], next))
  }

  // ---------------------------------------------------------------- the text is read back

  /** The text stands in the pattern at `p`. */
  predicate Lies(pat: string, p: nat, t: string) {
    p + |t| <= |pat| && forall i :: 0 <= i < |t| ==> pat[p + i] == t[i]
  }

  lemma LiesParts(pat: string, p: nat, a: string, b: string)
    ensures Lies(pat, p, a + b) <==> Lies(pat, p, a) && Lies(pat, p + |a|, b)
  {
    if Lies(pat, p, a + b) {
      forall i | 0 <= i < |a| ensures pat[p + i] == a[i] { assert (a + b)[i] == a[i]; }
      forall i | 0 <= i < |b| ensures pat[p + |a| + i] == b[i] { assert (a + b)[|a| + i] == b[i]; }
    }
    if Lies(pat, p, a) && Lies(pat, p + |a|, b) {
      forall i | 0 <= i < |a + b| ensures pat[p + i] == (a + b)[i] {
        if i >= |a| { assert pat[p + |a| + (i - |a|)] == b[i - |a|]; }
      }
    }
  }

  lemma LiesApart(pat: string, p: nat, a: string, q: nat, b: string)
    requires q == p + |a| && Lies(pat, p, a + b) == true
    ensures Lies(pat, p, a) == true && Lies(pat, q, b) == true
  {
    LiesParts(pat, p, a, b);
  }

  /** What the scan for the end of a set does at one of its elements. */
  lemma ElemSkipped(pat: string, q: nat, e: Elem)
    requires ElemFits(e) && Lies(pat, q, ElemText(e))
    ensures var q' := q + |ElemText(e)|;
      At(pat, q') != '\0' ==> SetEnd(pat, q) == if At(pat, q') == ']' then Some(q' + 1) else SetEnd(pat, q')
  {
    var t := ElemText(e);
    assert pat[q] == t[0];
    if e.Range? {
      assert pat[q + 1] == t[1] && pat[q + 2] == t[2];
      assert SetEnd(pat, q) == SetEnd(pat, q + 1) == SetEnd(pat, q + 2);
    } else if e.Letter? {
      assert pat[q + 1] == t[1];
    }
  }

  /** The elements of a set stand from `q` up to the bracket at `ec`. */
  predicate ElemsStand(pat: string, q: nat, es: seq<Elem>, ec: nat) {
    ElemsFit(es) && ec == q + |ElemsText(es)| && Lies(pat, q, ElemsText(es)) && At(pat, ec) == ']'
  }

  lemma RestOfElems(pat: string, q: nat, es: seq<Elem>, ec: nat)
    requires ElemsStand(pat, q, es, ec) && es != []
    ensures var q' := q + |ElemText(es[0])|;
      && q' <= ec && ElemFits(es[0]) && Lies(pat, q, ElemText(es[0])) && ElemsStand(pat, q', es[1..], ec) == true
      && At(pat, q') != '\0' && At(pat, q') != '-' && (At(pat, q') == ']' <==> es[1..] == [])
  {
    LiesParts(pat, q, ElemText(es[0]), ElemsText(es[1..]));
    FirstOfElems(pat, q + |ElemText(es[0])|, es[1..], ec);
  }

  lemma {:induction false} ElemsRead(pat: string, q: nat, es: seq<Elem>, ec: nat)
    requires ElemsStand(pat, q, es, ec) == true
    ensures q <= ec && Elems(pat, q, ec) == es
    ensures es != [] ==> SetEnd(pat, q) == Some(ec + 1)
    decreases |es|
  {
    if es != [] {
      var q' := q + |ElemText(es[0])|;
      RestOfElems(pat, q, es, ec);
      ElemsRead(pat, q', es[1..], ec);
      if es[1..] == [] { assert q' == ec; }
      ElemSkipped(pat, q, es[0]);
      ElemIs(pat, q, es[0], ec);
      assert es == [es[0]] + es[1..];
    }
  }

  /** Behind an element comes another or the bracket that closes the set. */
  lemma FirstOfElems(pat: string, q: nat, es: seq<Elem>, ec: nat)
    requires ElemsStand(pat, q, es, ec)
    ensures At(pat, q) != '\0' && At(pat, q) != '-' && (At(pat, q) == ']' <==> es == [])
  {
    if es != [] {
      LiesParts(pat, q, ElemText(es[0]), ElemsText(es[1..]));
      assert pat[q] == ElemText(es[0])[0];
    }
  }

  lemma ElemIs(pat: string, q: nat, e: Elem, ec: nat)
    requires ElemFits(e) && Lies(pat, q, ElemText(e)) && q + |ElemText(e)| <= ec
    requires At(pat, q + |ElemText(e)|) != '-'
    ensures Elems(pat, q, ec) == [e] + Elems(pat, q + |ElemText(e)|, ec)
  {
    var t := ElemText(e);
    assert pat[q] == t[0];
    if e.Range? { assert pat[q + 1] == t[1] && pat[q + 2] == t[2]; }
    if e.Letter? { assert pat[q + 1] == t[1]; }
  }

  lemma SetRead(pat: string, p: nat, k: Class)
    requires SetFits(k) && Lies(pat, p, ClassText(k))
    ensures At(pat, p) == '['
    ensures ClassEnd(pat, p) == Some(p + |ClassText(k)|) && SetAt(pat, p, p + |ClassText(k)| - 1) == k
  {
    var head, es := if k.negated then "[^" else "[", k.elems;
    LiesParts(pat, p, head, ElemsText(es) + "]");
    LiesParts(pat, p + |head|, ElemsText(es), "]");
    assert pat[p] == head[0];
    if k.negated { assert pat[p + 1] == head[1]; }
    var q := p + |head|;
    var ec := q + |ElemsText(es)|;
    assert pat[ec] == "]"[0];
    ElemsRead(pat, q, es, ec);
    LiesParts(pat, q, ElemText(es[0]), ElemsText(es[1..]));
    assert pat[q] == ElemText(es[0])[0];
  }

  lemma ClassRead(pat: string, p: nat, k: Class)
    requires ClassFits(k) && Lies(pat, p, ClassText(k))
    ensures At(pat, p) == ClassText(k)[0] && At(pat, p) !in "()\0" && (At(pat, p) == '$' ==> k == One(Char('$')))
    ensures At(pat, p) == ESC ==> k.One? && k.e.Letter? && At(pat, p + 1) == k.e.l
    ensures ClassEnd(pat, p) == Some(p + |ClassText(k)|) && ClassAt(pat, p, p + |ClassText(k)|) == k
  {
    var t := ClassText(k);
    assert pat[p] == t[0];
    if k.Set? {
      SetRead(pat, p, k);
    } else if k.One? && k.e.Letter? {
      assert pat[p + 1] == t[1];
    }
  }

  lemma SingleRead(pat: string, p: nat, k: Class, rep: Rep)
    requires Lies(pat, p, ItemText(Single(k, rep)))
    requires ItemFits(Single(k, rep), At(pat, p + |ItemText(Single(k, rep))|))
    ensures At(pat, p) != '\0' && ItemAt(pat, p) == (Single(k, rep), p + |ItemText(Single(k, rep))|)
  {
    LiesParts(pat, p, ClassText(k), RepText(rep));
    ClassRead(pat, p, k);
    var ep := p + |ClassText(k)|;
    assert rep != Once ==> At(pat, ep) == RepText(rep)[0];
    assert RepAt(pat, ep) == rep;
  }

  lemma FrontierRead(pat: string, p: nat, k: Class)
    requires SetFits(k) && Lies(pat, p, "%f" + ClassText(k))
    ensures At(pat, p) != '\0' && ItemAt(pat, p) == (Frontier(k), p + 2 + |ClassText(k)|)
  {
    LiesParts(pat, p, "%f", ClassText(k));
    assert pat[p] == "%f"[0] && pat[p + 1] == "%f"[1];
    SetRead(pat, p + 2, k);
  }

  lemma ShortRead(pat: string, p: nat, item: Item)
    requires !item.Single? && !item.Frontier?
    requires Lies(pat, p, ItemText(item)) && ItemFits(item, At(pat, p + |ItemText(item)|))
    ensures At(pat, p) != '\0' && ItemAt(pat, p) == (item, p + |ItemText(item)|)
  {
    var t := ItemText(item);
    assert pat[p] == t[0];
    if |t| > 1 { assert pat[p + 1] == t[1]; }
    if item.Balance? { assert pat[p + 2] == t[2] && pat[p + 3] == t[3]; }
  }

  lemma ItemRead(pat: string, p: nat, item: Item)
    requires Lies(pat, p, ItemText(item)) == true && ItemFits(item, At(pat, p + |ItemText(item)|)) == true
    ensures At(pat, p) != '\0' && ItemAt(pat, p) == (item, p + |ItemText(item)|)
  {
    if item.Single? {
      SingleRead(pat, p, item.k, item.rep);
    } else if item.Frontier? {
      FrontierRead(pat, p, item.set_);
    } else {
      ShortRead(pat, p, item);
    }
  }

  /** The text of the items stands from `p` up to `e`. */
  predicate TextLies(pat: string, p: nat, items: seq<Item>, e: nat) {
    e == p + |Text(items)| && Lies(pat, p, Text(items))
  }

  lemma TextParts(pat: string, p: nat, items: seq<Item>, q: nat, e: nat)
    requires items != [] && q == p + |ItemText(items[0])| && TextLies(pat, p, items, e) == true
    ensures Lies(pat, p, ItemText(items[0])) == true && TextLies(pat, q, items[1..], e) == true
  {
    LiesApart(pat, p, ItemText(items[0]), q, Text(items[1..]));
  }

  /** What follows leaves the items as they are. */
  predicate Stands(pat: string, p: nat, items: seq<Item>, e: nat) {
    TextLies(pat, p, items, e) == true && Fits(items, At(pat, e)) == true
  }

  lemma FitsParts(items: seq<Item>, next: char)
    requires Fits(items, next) && items != []
    ensures ItemFits(items[0], First(items[1..], next)) == true && Fits(items[1..], next) == true
  {
  }

  lemma FirstStands(pat: string, p: nat, items: seq<Item>, e: nat)
    requires Stands(pat, p, items, e)
    ensures At(pat, p) == First(items, At(pat, e))
  {
    if items != [] {
      FitsParts(items, At(pat, e));
      TextParts(pat, p, items, p + |ItemText(items[0])|, e);
      assert pat[p] == ItemText(items[0])[0];
    }
  }

  lemma RestStands(pat: string, p: nat, items: seq<Item>, q: nat, e: nat)
    requires Stands(pat, p, items, e) && items != [] && q == p + |ItemText(items[0])|
    ensures Lies(pat, p, ItemText(items[0])) == true && ItemFits(items[0], At(pat, q)) == true
    ensures Stands(pat, q, items[1..], e) == true
  {
    TextParts(pat, p, items, q, e);
    FitsParts(items, At(pat, e));
    FirstStands(pat, q, items[1..], e);
  }

  lemma ParsedFirst(pat: string, p: nat, item: Item, q: nat)
    requires At(pat, p) != '\0' && ItemAt(pat, p) == (item, q) && !item.Bad?
    ensures Parse(pat, p) == [item] + Parse(pat, q)
  {
    ItemFirst(pat, p);
  }

  lemma FirstRead(pat: string, p: nat, item: Item, q: nat)
    requires q == p + |ItemText(item)| && Lies(pat, p, ItemText(item)) == true
    requires ItemFits(item, At(pat, q)) == true
    ensures Parse(pat, p) == [item] + Parse(pat, q)
  {
    ItemRead(pat, p, item);
    ParsedFirst(pat, p, item, q);
  }

  /** Where the text of items stands, exactly these items are read, and reading
      goes on behind it. */
  lemma {:induction false} TextRead(pat: string, p: nat, items: seq<Item>, e: nat)
    requires Stands(pat, p, items, e) == true
    ensures Parse(pat, p) == items + Parse(pat, e)
    decreases |items|
  {
    if items == [] {
      assert p == e && [] + Parse(pat, e) == Parse(pat, e);
    } else {
      var item, rest := items[0], items[1..];
      var q := p + |ItemText(item)|;
      RestStands(pat, p, items, q, e);
      TextRead(pat, q, rest, e);
      FirstRead(pat, p, item, q);
      Joined(items, Parse(pat, e));
    }
  }

  lemma Joined(items: seq<Item>, more: seq<Item>)
    requires items != []
    ensures [items[0]] + (items[1..] + more) == items + more
  {
    assert items == [items[0]] + items[1..];
  }

  /** A whole pattern. */
  lemma PatternRead(items: seq<Item>)
    requires Fits(items, '\0')
    ensures Parse(Text(items), 0) == items
  {
    var t := Text(items);
    TextRead(t, 0, items, |t|);
    assert items + [] == items;
  }

  // ---------------------------------------------------------------- sets, anchors and malformed patterns

  /** What an element of a set lets in. */
  predicate Holds(e: Elem, c: char) {
    match e
    case Char(x) => c == x
    case Range(lo, hi) => lo as int <= c as int <= hi as int
    case Letter(l) => InClass(One(Letter(l)), c)
  }

  /** A set written out: the characters that some element lets in, or with `^` all others. */
  lemma SetIs(negated: bool, es: seq<Elem>, c: char)
    requires SetFits(Set(negated, es))
    ensures var t := (if negated then "[^" else "[") + (ElemsText(es) + "]");
      && ClassEnd(t, 0) == Some(|t|)
      && (InClass(ClassAt(t, 0, |t|), c) <==> negated != exists i :: 0 <= i < |es| && Holds(es[i], c))
  {
    var k := Set(negated, es);
    ClassRead(ClassText(k), 0, k);
    assert forall i :: 0 <= i < |es| ==> Holds(es[i], c) == InElem(es[i], c);
  }

  /** `^` in front holds the match to one place and is no item; without it any place will do. */
  lemma AnchorRead(items: seq<Item>)
    requires Fits(items, '\0')
    ensures Anchored("^" + Text(items)) && Parse("^" + Text(items), PatStart("^" + Text(items))) == items
    ensures First(items, '\0') != '^' ==> !Anchored(Text(items)) && Parse(Text(items), PatStart(Text(items))) == items
  {
    var t := "^" + Text(items);
    TextRead(t, 1, items, |t|);
    assert items + [] == items;
    PatternRead(items);
    FirstStands(Text(items), 0, items, |Text(items)|);
  }

  /** The successes that end where the subject does; errors stay. */
  function Ending(outs: seq<Outcome>, src: string): seq<Outcome> {
    if outs == [] then []
    else (if outs[0].Done? ==> outs[0].e == |src| then [outs[0]] else []) + Ending(outs[1..], src)
  }

  lemma EndingOne(o: Outcome, outs: seq<Outcome>, src: string)
    ensures Ending([o] + outs, src) == (if o.Done? ==> o.e == |src| then [o] else []) + Ending(outs, src)
  {
    assert ([o] + outs)[1..] == outs;
  }

  lemma {:induction false} EndingApart(a: seq<Outcome>, b: seq<Outcome>, src: string)
    ensures Ending(a + b, src) == Ending(a, src) + Ending(b, src)
    decreases |a|
  {
    if a == [] {
      assert a + b == b;
    } else {
      var first := if a[0].Done? ==> a[0].e == |src| then [a[0]] else [];
      EndingApart(a[1..], b, src);
      EndingOne(a[0], a[1..] + b, src);
      EndingOne(a[0], a[1..], src);
      assert a + b == [a[0]] + (a[1..] + b) && a == [a[0]] + a[1..];
      Assoc(first, Ending(a[1..], src), Ending(b, src));
    }
  }

  /** A `$` at the end of a pattern keeps the successes that end where the subject
      does, in their order. */
  lemma {:induction false} EndKeeps(items: seq<Item>, src: string, s: nat, caps: seq<Cap>)
    ensures Sem(items + [End], src, s, caps) == Ending(Sem(items, src, s, caps), src)
    decreases |items|, 2, 0
  {
    if items == [] {
      EndingOne(Done(s, caps), [], src);
    } else {
      var rest := items[1..];
      assert (items + [End])[1..] == rest + [End] && (items + [End])[0] == items[0];
      match items[0]
      case Single(k, rep) => EndKeepsSingle(k, rep, items, src, s, caps);
      case Balance(b, e) =>
        var r := BalanceEnd(src, s + 1, b, e, 1);
        if r.Some? { EndKeeps(rest, src, r.value, caps); }
      case Frontier(k) => EndKeeps(rest, src, s, caps);
      case End => EndKeeps(rest, src, s, caps);
      case Bad(e) =>
      case _ => EndKeepsCapture(items, src, s, caps);
    }
  }

  lemma {:induction false} EndKeepsCapture(items: seq<Item>, src: string, s: nat, caps: seq<Cap>)
    requires items != [] && (items[0].Open? || items[0].Close? || items[0].Back?)
    ensures Sem(items + [End], src, s, caps) == Ending(Sem(items, src, s, caps), src)
    decreases |items|, 1, 0
  {
    var rest := items[1..];
    assert (items + [End])[1..] == rest + [End] && (items + [End])[0] == items[0];
    match items[0]
    case Open(position) =>
      if |caps| < MAXCAPTURES {
        EndKeeps(rest, src, s, caps + [Cap(s, if position then CAP_POSITION else CAP_UNFINISHED)]);
      }
    case Close =>
      var l := LastOpen(caps);
      if l >= 0 { EndKeeps(rest, src, s, caps[l := Cap(caps[l].init, s - caps[l].init)]); }
    case Back(d) =>
      var l := d as int - '1' as int;
      if 0 <= l < |caps| && Repeats(src, s, caps[l]) { EndKeeps(rest, src, s + caps[l].len, caps); }
  }

  lemma {:induction false} EndKeepsSingle(k: Class, rep: Rep, items: seq<Item>, src: string, s: nat, caps: seq<Cap>)
    requires items != [] && items[0] == Single(k, rep)
    ensures Sem(items + [End], src, s, caps) == Ending(Sem(items, src, s, caps), src)
    decreases |items|, 1, 0
  {
    var rest := items[1..];
    assert (items + [End])[1..] == rest + [End] && (items + [End])[0] == items[0];
    match rep
    case Once => if OneMore(src, s, k) { EndKeeps(rest, src, s + 1, caps); }
    case Optional =>
      EndKeeps(rest, src, s, caps);
      EndKeeps(rest, src, s + 1, caps);
      EndingApart(if OneMore(src, s, k) then Sem(rest, src, s + 1, caps) else [], Sem(rest, src, s, caps), src);
    case Star => EndGreedy(k, rest, src, s, caps);
    case Plus => if OneMore(src, s, k) { EndGreedy(k, rest, src, s + 1, caps); }
    case Lazy => EndReluctant(k, rest, src, s, caps);
  }

  lemma {:induction false} EndGreedy(k: Class, rest: seq<Item>, src: string, s: nat, caps: seq<Cap>)
    ensures Greedy(k, rest + [End], src, s, caps) == Ending(Greedy(k, rest, src, s, caps), src)
    decreases |rest| + 1, 0, |src| - s
  {
    EndKeeps(rest, src, s, caps);
    if OneMore(src, s, k) { EndGreedy(k, rest, src, s + 1, caps); }
    EndingApart(if OneMore(src, s, k) then Greedy(k, rest, src, s + 1, caps) else [], Sem(rest, src, s, caps), src);
  }

  lemma {:induction false} EndReluctant(k: Class, rest: seq<Item>, src: string, s: nat, caps: seq<Cap>)
    ensures Reluctant(k, rest + [End], src, s, caps) == Ending(Reluctant(k, rest, src, s, caps), src)
    decreases |rest| + 1, 0, |src| - s
  {
    EndKeeps(rest, src, s, caps);
    if OneMore(src, s, k) { EndReluctant(k, rest, src, s + 1, caps); }
    EndingApart(Sem(rest, src, s, caps), if OneMore(src, s, k) then Reluctant(k, rest, src, s + 1, caps) else [], src);
  }

  // ---------------------------------------------------------------- malformed patterns

  /** A set ends behind a bracket. */
  lemma {:induction false} SetCloses(pat: string, q: nat)
    ensures SetEnd(pat, q).Some? ==> At(pat, SetEnd(pat, q).value - 1) == ']'
    decreases |pat| - q
  {
    if At(pat, q) != '\0' {
      var q' := if At(pat, q) == ESC && At(pat, q + 1) != '\0' then q + 2 else q + 1;
      if At(pat, q') != ']' { SetCloses(pat, q'); }
    }
  }

  lemma NeverCloses(pat: string, e: nat, q: nat)
    requires e <= q && e <= |pat| && ']' !in pat[e..]
    ensures SetEnd(pat, q) == None
  {
    SetCloses(pat, q);
  }

  /** What is wrong at a place is found there. */
  lemma MalformedAt(pat: string, e: nat)
    requires e <= |pat|
    ensures pat[e..] == "%" ==> Parse(pat, e) == [Bad(Malformed)]
    ensures At(pat, e) == '[' && ']' !in pat[e..] ==> Parse(pat, e) == [Bad(Malformed)]
    ensures At(pat, e) == '%' && At(pat, e + 1) == 'b' && |pat| <= e + 3 ==> Parse(pat, e) == [Bad(Unbalanced)]
    ensures At(pat, e) == '%' && At(pat, e + 1) == 'f' ==>
      && (At(pat, e + 2) != '[' ==> Parse(pat, e) == [Bad(MissingBracket)])
      && (At(pat, e + 2) == '[' && ']' !in pat[e..] ==> Parse(pat, e) == [Bad(Malformed)])
  {
    if pat[e..] == "%" { assert pat[e] == pat[e..][0]; }
    if ']' !in pat[e..] {
      forall q: nat | q >= e ensures SetEnd(pat, q) == None { NeverCloses(pat, e, q); }
    }
  }

  /** There can be 32 captures; one more is an error. */
  lemma CapturesLimit(position: bool, rest: seq<Item>, src: string, s: nat, caps: seq<Cap>)
    ensures Sem([Open(position)] + rest, src, s, caps)
      == if |caps| >= 32 then [Err(TooManyCaptures)]
         else Sem(rest, src, s, caps + [Cap(s, if position then CAP_POSITION else CAP_UNFINISHED)])
  {
    assert ([Open(position)] + rest)[1..] == rest;
  }

  // ---------------------------------------------------------------- what a repetition prefers

  /** How often the class may be repeated before `*`, `+`, `-` and `?`. */
  predicate Enough(c: char, n: nat) {
    (c == '+' ==> n >= 1) && (c == '?' ==> n <= 1)
  }

  /** The class is repeated from `s` up to `t`, and the rest of the pattern matches there. */
  predicate Fit(c: char, k: Class, rest: seq<Item>, src: string, s: nat, t: nat, caps: seq<Cap>) {
    Stretch(src, s, t, k) && Enough(c, t - s) && Sem(rest, src, t, caps) != []
  }

  /** `-` tries the shorter stretch first, the others the longer one. */
  predicate Sooner(c: char, u: nat, t: nat) {
    if c == '-' then u < t else t < u
  }

  /** The first choice from which the rest of the pattern matches. */
  ghost predicate Preferred(c: char, k: Class, rest: seq<Item>, src: string, s: nat, t: nat, caps: seq<Cap>) {
    Fit(c, k, rest, src, s, t, caps) && forall u: nat :: Sooner(c, u, t) ==> !Fit(c, k, rest, src, s, u, caps)
  }

  /** The successes: none when no stretch will do, and otherwise the first of those
      behind the preferred stretch comes first. */
  ghost predicate Chosen(c: char, k: Class, rest: seq<Item>, src: string, s: nat, t: nat, caps: seq<Cap>,
      outs: seq<Outcome>)
  {
    if outs == [] then forall u: nat :: !Fit(c, k, rest, src, s, u, caps)
    else Preferred(c, k, rest, src, s, t, caps) && outs[0] == Sem(rest, src, t, caps)[0]
  }

  lemma GreedyPrefers(k: Class, rest: seq<Item>, src: string, s: nat, caps: seq<Cap>) returns (t: nat)
    requires s <= |src|
    ensures Chosen('*', k, rest, src, s, t, caps, Greedy(k, rest, src, s, caps))
  {
    t := s;
    if Greedy(k, rest, src, s, caps) != [] {
      t := GreedyFirst(k, rest, src, s, caps);
    } else {
      forall u: nat ensures !Fit('*', k, rest, src, s, u, caps) {
        if Fit('*', k, rest, src, s, u, caps) {
          var o := Sem(rest, src, u, caps)[0];
          assert ByRun(rest, src, s, caps, k, u - s, o);
          GreedyMember(k, rest, src, s, caps, o);
        }
      }
    }
  }

  lemma LazyPrefers(k: Class, rest: seq<Item>, src: string, s: nat, caps: seq<Cap>) returns (t: nat)
    requires s <= |src|
    ensures Chosen('-', k, rest, src, s, t, caps, Reluctant(k, rest, src, s, caps))
  {
    t := s;
    if Reluctant(k, rest, src, s, caps) != [] {
      t := LazyFirst(k, rest, src, s, caps);
    } else {
      forall u: nat ensures !Fit('-', k, rest, src, s, u, caps) {
        if Fit('-', k, rest, src, s, u, caps) {
          var o := Sem(rest, src, u, caps)[0];
          assert ByRun(rest, src, s, caps, k, u - s, o);
          LazyMember(k, rest, src, s, caps, o);
        }
      }
    }
  }

  lemma PlusPrefers(k: Class, rest: seq<Item>, src: string, s: nat, caps: seq<Cap>) returns (t: nat)
    requires s <= |src|
    ensures Chosen('+', k, rest, src, s, t, caps, if OneMore(src, s, k) then Greedy(k, rest, src, s + 1, caps) else [])
  {
    t := s;
    if OneMore(src, s, k) { t := GreedyPrefers(k, rest, src, s + 1, caps); }
    forall u: nat | u > s
        ensures Fit('+', k, rest, src, s, u, caps)
          <==> OneMore(src, s, k) && Fit('*', k, rest, src, s + 1, u, caps) {
      StretchStep(src, s, u, k);
    }
  }

  lemma OptionalPrefers(k: Class, rest: seq<Item>, src: string, s: nat, caps: seq<Cap>) returns (t: nat)
    requires s <= |src|
    ensures Chosen('?', k, rest, src, s, t, caps,
        (if OneMore(src, s, k) then Sem(rest, src, s + 1, caps) else []) + Sem(rest, src, s, caps))
  {
    RunUpTo1(src, s, k);
    t := if OneMore(src, s, k) && Sem(rest, src, s + 1, caps) != [] then s + 1 else s;
  }

  function RepOf(c: char): Rep
    requires c in "*+-?"
  {
    match c
    case '*' => Star
    case '+' => Plus
    case '-' => Lazy
    case _ => Optional
  }

  lemma RepeatPrefers(c: char, k: Class, rest: seq<Item>, src: string, s: nat, caps: seq<Cap>) returns (t: nat)
    requires s <= |src| && c in "*+-?"
    ensures Chosen(c, k, rest, src, s, t, caps, Sem([Single(k, RepOf(c))] + rest, src, s, caps)) == true
  {
    assert ([Single(k, RepOf(c))] + rest)[1..] == rest;
    match c
    case '*' => t := GreedyPrefers(k, rest, src, s, caps);
    case '-' => t := LazyPrefers(k, rest, src, s, caps);
    case '+' => t := PlusPrefers(k, rest, src, s, caps);
    case _ => t := OptionalPrefers(k, rest, src, s, caps);
  }

  /** In a pattern a class stands at `p` with `*`, `+`, `-` or `?` behind it; then
      the matcher fails when no stretch of the class will do, and otherwise goes on
      behind the preferred one, as it would there. */
  lemma Prefers(pat: string, p: nat, k: Class, c: char, q: nat, src: string, s: nat,
      r: Result, before: seq<Cap>, after: seq<Cap>) returns (t: nat)
    requires ClassFits(k) && c in "*+-?" && q == p + |ClassText(k)| + 1
    requires Lies(pat, p, ClassText(k) + [c]) && s <= |src|
    requires FirstOf(r, Sem(Parse(pat, p), src, s, before), before, after)
    ensures r == Fail <==> forall u: nat :: !Fit(c, k, Parse(pat, q), src, s, u, before)
    ensures r != Fail ==> Preferred(c, k, Parse(pat, q), src, s, t, before)
    ensures r != Fail ==> FirstOf(r, Sem(Parse(pat, q), src, t, before), before, after)
  {
    assert ItemText(Single(k, RepOf(c))) == ClassText(k) + [c];
    FirstRead(pat, p, Single(k, RepOf(c)), q);
    t := RepeatPrefers(c, k, Parse(pat, q), src, s, before);
  }

  /** All characters from `s` up to `t` are `x`. */
  predicate AllAre(src: string, s: nat, t: nat, x: char) {
    s <= t <= |src| && forall j :: s <= j < t ==> src[j] == x
  }

  /** A plain character alone with its repetition: `x*` and `x+` take all there are,
      `x-` none, `x?` at most one; only `x+` can fail. */
  lemma Alone(x: char, c: char, src: string, s: nat, r: Result, after: seq<Cap>)
    requires x !in "().%[*+-?\0" && c in "*+-?" && s <= |src|
    requires FirstOf(r, Sem(Parse([x, c], 0), src, s, []), [], after)
    ensures r == Fail <==> c == '+' && !(s < |src| && src[s] == x)
    ensures r != Fail ==> r.Ok? && AllAre(src, s, r.e, x)
    ensures c == '*' || c == '+' ==> r != Fail ==> r.e == |src| || src[r.e] != x
    ensures c == '-' ==> r == Ok(s)
    ensures c == '?' ==> r == Ok(if s < |src| && src[s] == x then s + 1 else s)
  {
    var k := One(Char(x));
    assert Lies([x, c], 0, ClassText(k) + [c]);
    var t := Prefers([x, c], 0, k, c, 2, src, s, r, [], after);
    assert Parse([x, c], 2) == [];
    forall u: nat ensures Fit(c, k, [], src, s, u, []) <==> AllAre(src, s, u, x) && Enough(c, u - s) {
    }
    if r != Fail && t < |src| && src[t] == x {
      assert AllAre(src, s, t + 1, x);
    }
    assert c != '+' ==> Fit(c, k, [], src, s, s, []);
    if s < |src| && src[s] == x {
      var s1 := s + 1;
      assert Fit(c, k, [], src, s, s1, []);
    }
  }
}
