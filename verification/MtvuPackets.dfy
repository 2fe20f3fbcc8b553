/** The packets that the EE thread sends to the VU1 thread, as words of the ring. */
module MtvuPackets {
  import opened GifTag

  const VU_EXECUTE: Word := 0
  const VU_WRITE_MICRO: Word := 1
  const VU_WRITE_DATA: Word := 2
  const VIF_WRITE_COL: Word := 3
  const VIF_WRITE_ROW: Word := 4
  const VIF_UNPACK: Word := 5
  const NULL_PACKET: Word := 6

  const MASK_WORDS := 4    // a 128-bit mask
  const VIF_WORDS := 8     // the part of the VIF state from `tag` up to `StructEnd`
  const REGS_WORDS := 6    // the VIF registers that VU1 needs

  /** Number of words for a size in bytes. */
  function SizeU32(bytes: nat): nat { (bytes + 3) / 4 }

  datatype Packet =
    | Execute(addr: Word, top: Word, itop: Word)
    | WriteMicro(addr: Word, size: Word, data: seq<Word>)
    | WriteData(addr: Word, size: Word, data: seq<Word>)
    | WriteCol(data: seq<Word>)
    | WriteRow(data: seq<Word>)
    | Unpack(vif: seq<Word>, regs: seq<Word>, size: Word, data: seq<Word>)

  /** What the types of the source fix about the sizes of the parts. */
  predicate WellFormed(p: Packet) {
    match p
    case Execute(_, _, _) => true
    case WriteMicro(_, size, data) => |data| == SizeU32(size)
    case WriteData(_, size, data) => |data| == SizeU32(size)
    case WriteCol(data) => |data| == MASK_WORDS
    case WriteRow(data) => |data| == MASK_WORDS
    case Unpack(vif, regs, size, data) => |vif| == VIF_WORDS && |regs| == REGS_WORDS && |data| == SizeU32(size)
  }

  function Encode(p: Packet): (s: seq<Word>)
    ensures |s| > 0 && s[0] != NULL_PACKET
  {
    match p
    case Execute(addr, top, itop) => [VU_EXECUTE, addr, top, itop]
    case WriteMicro(addr, size, data) => [VU_WRITE_MICRO, addr, size] + data
    case WriteData(addr, size, data) => [VU_WRITE_DATA, addr, size] + data
    case WriteCol(data) => [VIF_WRITE_COL] + data
    case WriteRow(data) => [VIF_WRITE_ROW] + data
    case Unpack(vif, regs, size, data) => [VIF_UNPACK] + vif + regs + [size] + data
  }

  /** How many words the VU thread will have read when it commits, as far as the words it has read tell;
      0 if they do not tell yet. */
  function Length(seen: seq<Word>): nat {
    if seen == [] then 0
    else if seen[0] == VU_EXECUTE then 4
    else if seen[0] == VU_WRITE_MICRO || seen[0] == VU_WRITE_DATA then
      if |seen| < 3 then 0 else 3 + SizeU32(seen[2])
    else if seen[0] == VIF_WRITE_COL || seen[0] == VIF_WRITE_ROW then 1 + MASK_WORDS
    else if seen[0] == VIF_UNPACK then
      if |seen| < 2 + VIF_WORDS + REGS_WORDS then 0 else 2 + VIF_WORDS + REGS_WORDS + SizeU32(seen[1 + VIF_WORDS + REGS_WORDS])
    else 1
  }

  /** Whether the VU thread has read a whole packet. */
  predicate Whole(seen: seq<Word>) { 0 < Length(seen) <= |seen| }

  datatype Decoded = Packet(packet: Packet) | Null | Unknown

  /** What the VU thread makes of a whole packet. */
  function Decode(s: seq<Word>): Decoded
    requires Whole(s)
  {
    var n := Length(s);
    if s[0] == VU_EXECUTE then Packet(Execute(s[1], s[2], s[3]))
    else if s[0] == VU_WRITE_MICRO then Packet(WriteMicro(s[1], s[2], s[3..n]))
    else if s[0] == VU_WRITE_DATA then Packet(WriteData(s[1], s[2], s[3..n]))
    else if s[0] == VIF_WRITE_COL then Packet(WriteCol(s[1..n]))
    else if s[0] == VIF_WRITE_ROW then Packet(WriteRow(s[1..n]))
    else if s[0] == VIF_UNPACK then
      Packet(Unpack(s[1..1 + VIF_WORDS], s[1 + VIF_WORDS..1 + VIF_WORDS + REGS_WORDS],
                    s[1 + VIF_WORDS + REGS_WORDS], s[2 + VIF_WORDS + REGS_WORDS..n]))
    else if s[0] == NULL_PACKET then Null
    else Unknown
  }

  lemma UnpackParts(p: Packet)
    requires p.Unpack? && WellFormed(p)
    ensures var s := Encode(p); var at := 1 + VIF_WORDS + REGS_WORDS;
            && |s| == at + 1 + |p.data| && s[0] == VIF_UNPACK && s[at] == p.size
            && s[1..1 + VIF_WORDS] == p.vif && s[1 + VIF_WORDS..at] == p.regs && s[at + 1..] == p.data
  {}

  /** Round trip, word by word: the VU thread reads on exactly until the packet's last word, and then
      has the packet that was sent. */
  lemma RoundTrip(p: Packet, k: nat)
    requires WellFormed(p) && k <= |Encode(p)|
    ensures var s := Encode(p)[..k];
            && (Whole(s) <==> k == |Encode(p)|)
            && (Whole(s) ==> Decode(s) == Packet(p))
  {
    var e := Encode(p);
    if p.Unpack? { UnpackParts(p); }
    if k == |e| { assert e[..k] == e; }
  }
}
