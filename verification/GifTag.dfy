/** Quadwords and GIF tags: the fields of a tag, and what `Gif_Tag::setTag`,
    `analyzeTag` and `packedStep` do with them.  All sizes are in quadwords. */
module GifTag {
  type Word = x: int | 0 <= x < 0x1_0000_0000

  datatype Quad = Quad(w0: Word, w1: Word, w2: Word, w3: Word)

  const ZERO_QUAD := Quad(0, 0, 0, 0)
  const AD_REGISTER := 14

  datatype Flag = Packed | Reglist | Image

  /** The fields of a tag as the hardware lays them out. */
  function NLoop(q: Quad): nat { q.w0 % 0x8000 }

  predicate Eop(q: Quad) { q.w0 / 0x8000 % 2 == 1 }

  function Flg(q: Quad): Flag {
    var f := q.w1 / 0x400_0000 % 4;
    if f == 0 then Packed else if f == 1 then Reglist else Image
  }

  /** NREG, where 0 stands for 16. */
  function NReg(q: Quad): nat {
    if q.w1 / 0x1000_0000 == 0 then 16 else q.w1 / 0x1000_0000
  }

  /** The i-th nibble of a word. */
  function Nibble(w: nat, i: nat): nat {
    if i == 0 then w % 16 else Nibble(w / 16, i - 1)
  }

  /** The i-th of the sixteen register descriptors of a tag. */
  function Register(q: Quad, i: nat): nat
    requires i < 16
  {
    if i < 8 then Nibble(q.w2, i) else Nibble(q.w3, i - 8)
  }

  /** Number of quadwords that follow the tag. */
  function PayloadLen(q: Quad): nat {
    match Flg(q)
    case Packed => NReg(q) * NLoop(q)
    case Reglist => (NReg(q) * NLoop(q) + 1) / 2
    case Image => NLoop(q)
  }

  /** The decoded tag: the raw quadword and the counters that parsing changes. */
  datatype Tag = Tag(hdr: Quad, nLoop: nat, nRegs: nat, nRegIdx: nat, len: nat, cycles: nat,
                     regs: seq<nat>, hasAD: bool, isValid: bool)
  {
    function CurReg(): nat {
      if nRegIdx % 16 < |regs| then regs[nRegIdx % 16] else 0
    }

    function PackedStep(): Tag {
      if nLoop == 0 then this
      else if nRegIdx + 1 >= nRegs then this.(nRegIdx := 0, nLoop := nLoop - 1)
      else this.(nRegIdx := nRegIdx + 1)
    }
  }

  const RESET_TAG := Tag(ZERO_QUAD, 0, 0, 0, 0, 0, [0, 0, 0, 0, 0, 0, 0, 0, 0, 0, 0, 0, 0, 0, 0, 0], false, false)

  /** The register list after a PACKED tag was analysed: only its first NREG entries change. */
  function Registers(prior: seq<nat>, q: Quad): (regs: seq<nat>)
    requires |prior| == 16
  {
    seq(16, i requires 0 <= i < 16 => if i < NReg(q) then Register(q, i) else prior[i])
  }

  ghost predicate AnyAD(q: Quad) {
    exists i :: 0 <= i < NReg(q) && i < 16 && Register(q, i) == AD_REGISTER
  }

  /** `hasAD` as a function: some of the registers i, i+1, .. names A+D. */
  function HasADFrom(q: Quad, i: nat): (b: bool)
    requires i <= NReg(q) <= 16
    ensures b <==> exists k :: i <= k < NReg(q) && Register(q, k) == AD_REGISTER
    decreases NReg(q) - i
  {
    i < NReg(q) && (Register(q, i) == AD_REGISTER || HasADFrom(q, i + 1))
  }

  lemma NRegRange(q: Quad)
    ensures 1 <= NReg(q) <= 16
  {}

  /** `setTag` with `analyze` on, over the register list left by earlier tags. */
  function SetTag(regs: seq<nat>, q: Quad): (t: Tag)
    requires |regs| == 16
    ensures t.len == PayloadLen(q) && |t.regs| == 16 && t.isValid && t.hdr == q
    ensures t.hasAD <==> Flg(q) == Packed && AnyAD(q)
  {
    match Flg(q)
    case Packed =>
      Tag(q, NLoop(q), NReg(q), 0, NReg(q) * NLoop(q), NReg(q) * NLoop(q) * 32,
          Registers(regs, q), HasADFrom(q, 0), true)
    case Reglist =>
      var len := (NReg(q) * NLoop(q) + 1) / 2;
      Tag(q, NLoop(q), NReg(q), 0, len, len * 64, regs, false, true)
    case Image =>
      Tag(q, NLoop(q), 0, 0, NLoop(q), NLoop(q) * 64, regs, false, true)
  }

  lemma NibbleShift(w: nat, i: nat, k: nat)
    ensures Nibble(w, i + k) == Nibble(Shifted(w, i), k)
    decreases i
  {
    if i > 0 { NibbleShift(w / 16, i - 1, k); }
  }

  /** A word after i steps of `t >>= 4`. */
  function Shifted(w: nat, i: nat): nat {
    if i == 0 then w else Shifted(w / 16, i - 1)
  }

  lemma ShiftedStep(w: nat, i: nat)
    ensures Shifted(w, i + 1) == Shifted(w, i) / 16
  {
    if i > 0 { ShiftedStep(w / 16, i - 1); }
  }

  /** `analyzeTag`: the two shifting loops fill in the register list and find A+D. */
  method AnalyzeTag(q: Quad, regs: array<nat>) returns (hasAD: bool)
    requires regs.Length == 16
    modifies regs
    ensures regs[..] == Registers(old(regs[..]), q)
    ensures hasAD <==> AnyAD(q)
  {
    var nRegs := NReg(q);
    hasAD := false;
    var t: nat := q.w2;
    var i := 0;
    var j := if nRegs < 8 then nRegs else 8;
    while i < j
      invariant 0 <= i <= j
      invariant t == Shifted(q.w2, i)
      invariant forall k :: 0 <= k < i ==> regs[k] == Register(q, k)
      invariant forall k :: i <= k < 16 ==> regs[k] == old(regs[k])
      invariant hasAD <==> exists k :: 0 <= k < i && Register(q, k) == AD_REGISTER
    {
      NibbleShift(q.w2, i, 0);
      ShiftedStep(q.w2, i);
      regs[i] := t % 16;
      hasAD := hasAD || regs[i] == AD_REGISTER;
      t := t / 16;
      i := i + 1;
    }
    t := q.w3;
    j := nRegs;
    while i < j
      invariant if nRegs < 8 then i == j else 8 <= i <= j
      invariant nRegs >= 8 ==> t == Shifted(q.w3, i - 8)
      invariant forall k :: 0 <= k < i ==> regs[k] == Register(q, k)
      invariant forall k :: i <= k < 16 ==> regs[k] == old(regs[k])
      invariant hasAD <==> exists k :: 0 <= k < i && Register(q, k) == AD_REGISTER
    {
      NibbleShift(q.w3, i - 8, 0);
      ShiftedStep(q.w3, i - 8);
      regs[i] := t % 16;
      hasAD := hasAD || regs[i] == AD_REGISTER;
      t := t / 16;
      i := i + 1;
    }
  }
}
