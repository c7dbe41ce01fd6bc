/**
  Jump lists as the generator keeps them: threaded through the offsets of the
  waiting jumps themselves.
 */
module CodeChains {
  import opened Common
  import opened CodeModel
  import opened CodeLists

  const NO_JUMP: int := -1

  /** An emitted instruction: a jump holds an offset, from the instruction after it. */
  datatype Op = Code(i: Instr) | Jump(sbx: int)

  /** Where the jump at `pc` points; a jump to itself ends a list (`getjump`). */
  function GetJump(c: seq<Op>, pc: nat): int
    requires pc < |c| && c[pc].Jump?
  {
    if c[pc].sbx == NO_JUMP then NO_JUMP else pc + 1 + c[pc].sbx
  }

  /** `fixjump`: the jump at `pc` points to `dest`. */
  function FixJump(c: seq<Op>, pc: nat, dest: int): seq<Op>
    requires pc < |c|
  {
    c[pc := Jump(dest - (pc + 1))]
  }

  /** The list that starts at `head`. */
  ghost predicate Chain(c: seq<Op>, head: int, l: seq<nat>)
    decreases |l|
  {
    if l == [] then head == NO_JUMP
    else head == l[0] && l[0] < |c| && c[l[0]].Jump? && Chain(c, GetJump(c, l[0]), l[1..])
  }

  /** The code as it is read by someone who knows which jumps wait. */
  function Read(c: seq<Op>, held: set<nat>): seq<Instr> {
    seq(|c|, i requires 0 <= i < |c| => ReadAt(c[i], i, held))
  }

  function ReadAt(op: Op, i: nat, held: set<nat>): Instr {
    match op
    case Code(x) => x
    case Jump(o) => if i in held || i + 1 + o < 0 then Jmp(None) else Jmp(Some(i + 1 + o))
  }

  /** Jumps are only ever stored with an offset; those that wait are among them. */
  ghost predicate Coded(c: seq<Op>, held: set<nat>) {
    && (forall i: nat :: i < |c| && c[i].Code? ==> !c[i].i.Jmp?)
    && (forall i: nat :: i < |c| && c[i].Jump? ==> i in held || i + 1 + c[i].sbx >= 0)
    && (forall i: nat :: i in held ==> i < |c| && c[i].Jump?)
  }

  lemma {:induction false} ChainFrame(c: seq<Op>, c': seq<Op>, head: int, l: seq<nat>)
    requires Chain(c, head, l) && forall i :: i in l ==> i < |c| && i < |c'| && c'[i] == c[i]
    ensures Chain(c', head, l)
    decreases |l|
  {
    if l != [] {
      assert l[0] in l && forall i :: i in l[1..] ==> i in l;
      ChainFrame(c, c', GetJump(c, l[0]), l[1..]);
    }
  }

  /** A waiting jump holds its place in the readable code. */
  lemma PendHeld(c: seq<Op>, held: set<nat>, i: nat)
    requires Coded(c, held) && Pend(Read(c, held), i)
    ensures i in held && i < |c| && c[i].Jump?
  {
    assert Read(c, held)[i] == ReadAt(c[i], i, held);
  }

  /** Linking the end of one list to the start of another appends it. */
  lemma {:induction false} ChainAppend(c: seq<Op>, head: int, l1: seq<nat>, h2: int, l2: seq<nat>)
    requires Chain(c, head, l1) && Chain(c, h2, l2) && l1 != [] && l2 != []
    requires Distinct(l1) && forall i :: i in l1 ==> i !in l2
    ensures l1[|l1| - 1] < |c| && Chain(FixJump(c, l1[|l1| - 1], h2), head, l1 + l2)
    decreases |l1|
  {
    ChainIn(c, head, l1, |l1| - 1);
    var last := l1[|l1| - 1];
    var c' := FixJump(c, last, h2);
    if |l1| == 1 {
      assert h2 == l2[0] && l2[0] in l2 && last in l1;
      forall i | i in l2 ensures i < |c| && c'[i] == c[i] {
        var k :| 0 <= k < |l2| && l2[k] == i;
        ChainIn(c, h2, l2, k);
      }
      ChainFrame(c, c', h2, l2);
      assert l1 + l2 == [last] + l2;
      assert (l1 + l2)[1..] == l2;
      assert GetJump(c', last) == h2;
    } else {
      var t := l1[1..];
      assert Distinct(t) by { forall i, j | 0 <= i < j < |t| ensures t[i] != t[j] { assert l1[i + 1] != l1[j + 1]; } }
      ChainAppend(c, GetJump(c, l1[0]), t, h2, l2);
      assert t[|t| - 1] == last && l1[0] != last;
      assert (l1 + l2)[1..] == t + l2;
    }
  }

  /** The places of a list are jumps. */
  lemma {:induction false} ChainIn(c: seq<Op>, head: int, l: seq<nat>, k: nat)
    requires Chain(c, head, l) && k < |l|
    ensures l[k] < |c| && c[l[k]].Jump? && Chain(c, l[k], l[k..])
    ensures GetJump(c, l[k]) == if k + 1 < |l| then l[k + 1] else NO_JUMP
    decreases k
  {
    if k > 0 {
      ChainIn(c, GetJump(c, l[0]), l[1..], k - 1);
      assert l[1..][k - 1..] == l[k..];
    } else {
      assert l[0..] == l;
    }
  }

  // ---------------------------------------------------------------- one jump patched

  /** What patching does to one jump and the test before it. */
  function PatchOne(code: seq<Instr>, j: nat, vtarget: nat, reg: Option<nat>, dtarget: nat): seq<Instr>
    requires j < |code|
  {
    if ValueJump(code, j) then code[j := Jmp(Some(vtarget))][j - 1 := PatchReg(code[j - 1], reg)]
    else code[j := Jmp(Some(dtarget))]
  }

  lemma PatchStepAt(code: seq<Instr>, l: seq<nat>, j: nat, vtarget: nat, reg: Option<nat>, dtarget: nat, i: nat)
    requires i < |code| && Pend(code, j) && j !in l && forall i :: i in l ==> Pend(code, i)
    requires ValueJump(PatchList(code, l, vtarget, reg, dtarget), j) <==> ValueJump(code, j)
    ensures PatchOne(PatchList(code, l, vtarget, reg, dtarget), j, vtarget, reg, dtarget)[i]
      == PatchList(code, l + [j], vtarget, reg, dtarget)[i]
  {
    if i + 1 in l { assert Pend(code, i + 1); }
    if i in l { assert Pend(code, i); }
  }

  lemma PatchControl(code: seq<Instr>, l: seq<nat>, j: nat, vtarget: nat, reg: Option<nat>, dtarget: nat)
    requires j < |code| && j !in l && forall i :: i in l ==> Pend(code, i)
    ensures ValueJump(PatchList(code, l, vtarget, reg, dtarget), j) <==> ValueJump(code, j)
  {
    if j >= 1 && j - 1 in l { assert Pend(code, j - 1); }
  }

  /** Patching a list one jump at a time. */
  lemma PatchStep(code: seq<Instr>, l: seq<nat>, k: nat, vtarget: nat, reg: Option<nat>, dtarget: nat)
    requires k < |l| && Distinct(l) && forall i :: i in l ==> Pend(code, i)
    ensures l[k] < |code|
    ensures PatchOne(PatchList(code, l[..k], vtarget, reg, dtarget), l[k], vtarget, reg, dtarget)
      == PatchList(code, l[..k + 1], vtarget, reg, dtarget)
  {
    var j := l[k];
    assert j in l && Pend(code, j);
    assert l[..k + 1] == l[..k] + [j];
    assert forall i :: 0 <= i < k ==> l[i] != j;
    assert forall i :: i in l[..k] ==> i in l;
    PatchControl(code, l[..k], j, vtarget, reg, dtarget);
    forall i: nat | i < |code|
      ensures PatchOne(PatchList(code, l[..k], vtarget, reg, dtarget), j, vtarget, reg, dtarget)[i]
        == PatchList(code, l[..k] + [j], vtarget, reg, dtarget)[i]
    {
      PatchStepAt(code, l[..k], j, vtarget, reg, dtarget, i);
    }
  }

  lemma PatchNone(code: seq<Instr>, vtarget: nat, reg: Option<nat>, dtarget: nat)
    ensures PatchList(code, [], vtarget, reg, dtarget) == code
  {
  }

  // ---------------------------------------------------------------- frames

  /** A jump of the expression, or pending to where the code is. */
  predicate Mine(s: St, e: Exp, i: nat) {
    Held(s, e, i) || e.k == KJmp(i)
  }

  /** Waiting jumps that are no business of the expression are left alone. */
  ghost predicate Untouched(c: seq<Op>, held: set<nat>, s: St, e: Exp, c': seq<Op>, held': set<nat>) {
    forall i: nat :: i in held && !Mine(s, e, i) ==> i in held' && i < |c| && i < |c'| && c'[i] == c[i]
  }

  /** A waiting jump elsewhere is no business of what comes of the expression either. */
  lemma MineStays(c: seq<Op>, h: set<nat>, s: St, e: Exp, s1: St, e1: Exp, i: nat)
    requires s.code == Read(c, h) && Coded(c, h) && ExpOk(s, e) && ExpOk(s1, e1) && Grows(s, e, s1, e1)
    requires i in h && !Mine(s, e, i)
    ensures !Mine(s1, e1, i)
  {
    assert Read(c, h)[i] == ReadAt(c[i], i, h);
  }

  lemma UntouchedTrans(c: seq<Op>, h: set<nat>, s: St, e: Exp, c1: seq<Op>, h1: set<nat>, s1: St, e1: Exp,
      c2: seq<Op>, h2: set<nat>)
    requires s.code == Read(c, h) && Coded(c, h) && ExpOk(s, e) && ExpOk(s1, e1) && Grows(s, e, s1, e1)
    requires Untouched(c, h, s, e, c1, h1) && Untouched(c1, h1, s1, e1, c2, h2)
    ensures Untouched(c, h, s, e, c2, h2)
  {
    forall i: nat | i in h && !Mine(s, e, i) ensures !Mine(s1, e1, i) { MineStays(c, h, s, e, s1, e1, i); }
  }
}
