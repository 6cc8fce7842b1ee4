/**
 * The linear-sweep LR35902 disassembler of the hex-dump tool: starting at the
 * first byte, decode one instruction, print it, and move on by its size; an
 * instruction whose operands would run past the end of the buffer is printed
 * as its opcode alone and the sweep moves on by one byte.
 *
 * `Disassembly` is the specification (a list of decoded instructions),
 * `Render` turns it into the printed lines, and `DisassembleLr35902` is the
 * loop the tool runs, proved to print exactly `Render(Disassembly(..))`.
 */
module Disasm {
  import opened Wrappers
  import opened Text
  import opened Opcodes

  /**
   * One printed line: its address, the bytes of its hex column and the
   * mnemonic template of its opcode (None when the opcode is not in the table).
   */
  datatype Insn = Insn(addr: int, raw: seq<Byte>, template: Option<string>)

  /** The operand of a relative jump read as a two's-complement 8-bit number. */
  function Signed8(b: Byte): (s: int)
    ensures -128 <= s < 128
    ensures (s - b) % 256 == 0
  {
    if b < 128 then b else b - 256
  }

  /** A 16-bit operand assembled from its two bytes, `(hi << 8) | lo` in the source. */
  function Word(lo: Byte, hi: Byte): int {
    hi * 256 + lo
  }

  /** Target of `JR` at `addr`: the address after the two-byte instruction plus the signed offset. */
  function JrTarget(addr: int, operand: Byte): int {
    addr + 2 + Signed8(operand)
  }

  /** Fills the "n" of a two-byte mnemonic template, as the source does. */
  function SubstituteByte(template: string, addr: int, operand: Byte): string {
    if Contains(template, "n") && !Contains(template, "nn") then
      if Contains(template, "JR") then ReplaceAll(template, "n", "0x" + FormatHex(JrTarget(addr, operand), 4))
      else ReplaceAll(template, "n", "0x" + FormatHex(operand, 2))
    else template
  }

  /** The text of a byte the table does not define: `DB 0x..`. */
  function DbText(raw: seq<Byte>): string {
    "DB 0x" + HexBytes(raw)
  }

  /** The mnemonic column: the template with its operand filled in, as far as the operands were read. */
  function InsnText(insn: Insn): string {
    match insn.template
    case None => DbText(insn.raw)
    case Some(t) =>
      if |insn.raw| == 2 then SubstituteByte(t, insn.addr, insn.raw[1])
      else if |insn.raw| == 3 then ReplaceAll(t, "nn", "0x" + FormatHex(Word(insn.raw[1], insn.raw[2]), 4))
      else t
  }

  /** Decodes the instruction at offset i of the buffer loaded at base. */
  function DecodeAt(table: Table, data: seq<Byte>, base: int, i: nat): (insn: Insn)
    requires i < |data|
    ensures 1 <= |insn.raw| <= 3 && i + |insn.raw| <= |data|
  {
    var opcode := data[i];
    var addr := base + i;
    if opcode >= |table| then Insn(addr, [opcode], None)
    else
    var info := table[opcode];
    if info.size == 2 && i + 1 < |data| then Insn(addr, [opcode, data[i + 1]], Some(info.mnemonic))
    else if info.size == 3 && i + 2 < |data| then Insn(addr, [opcode, data[i + 1], data[i + 2]], Some(info.mnemonic))
    else Insn(addr, [opcode], Some(info.mnemonic))
  }

  /** The instructions decoded from offset i to the end of the buffer. */
  function DisasmFrom(table: Table, data: seq<Byte>, base: int, i: nat): seq<Insn>
    requires i <= |data|
    decreases |data| - i
  {
    if i == |data| then []
    else
      var insn := DecodeAt(table, data, base, i);
      [insn] + DisasmFrom(table, data, base, i + |insn.raw|)
  }

  function Disassembly(table: Table, data: seq<Byte>, base: int): seq<Insn> {
    DisasmFrom(table, data, base, 0)
  }

  /** `f"{addr:04X}: {hex_bytes:<12} {mnemonic}"`. */
  function RenderInsn(insn: Insn): string {
    FormatHex(insn.addr, 4) + ": " + PadRight(HexBytes(insn.raw), 12) + " " + InsnText(insn)
  }

  function Render(insns: seq<Insn>): (lines: seq<string>)
    ensures |lines| == |insns|
  {
    seq(|insns|, k requires 0 <= k < |insns| => RenderInsn(insns[k]))
  }

  /** The bytes of the hex columns, concatenated. */
  function Flatten(insns: seq<Insn>): seq<Byte> {
    if insns == [] then [] else insns[0].raw + Flatten(insns[1..])
  }

  // ---------------------------------------------------------------------------
  // The loop of the tool
  // ---------------------------------------------------------------------------

  lemma HexBytesTwo(a: Byte, b: Byte)
    ensures HexBytes([a, b]) == FormatHex(a, 2) + " " + FormatHex(b, 2)
  {
    assert [a, b][1..] == [b];
  }

  /** Ten spaces of padding and the separating space, then the `DB` text. */
  lemma DbSpacing()
    ensures Repeat(' ', 10) + " " + "DB 0x" == "           DB 0x"
  {
    RepeatAll(' ', 10);
    assert Repeat(' ', 10) == "          ";
  }

  lemma Regroup(x: string, h: string, pad: string, sp: string, db: string)
    ensures ((x + (h + pad)) + sp) + (db + h) == ((x + h) + ((pad + sp) + db)) + h
  {
  }

  /** Two characters padded to 12 and a space, then the `DB` text, are the eleven spaces of the fallback line. */
  lemma DbShape(a: string, h: string)
    requires |h| == 2
    ensures a + ": " + h + "           DB 0x" + h == a + ": " + PadRight(h, 12) + " " + ("DB 0x" + h)
  {
    assert PadRight(h, 12) == h + Repeat(' ', 10);
    DbSpacing();
    Regroup(a + ": ", h, Repeat(' ', 10), " ", "DB 0x");
  }

  /** The fallback line `f"{addr:04X}: {opcode:02X}           DB 0x{opcode:02X}"` is the rendering of a one-byte `DB` instruction. */
  lemma DbLine(addr: int, opcode: Byte)
    ensures FormatHex(addr, 4) + ": " + FormatHex(opcode, 2) + "           DB 0x" + FormatHex(opcode, 2)
         == RenderInsn(Insn(addr, [opcode], None))
  {
    var h := FormatHex(opcode, 2);
    ByteHex(opcode);
    assert HexBytes([opcode]) == h;
    DbShape(FormatHex(addr, 4), h);
  }

  lemma HexBytesThree(a: Byte, b: Byte, c: Byte)
    ensures HexBytes([a, b, c]) == FormatHex(a, 2) + " " + FormatHex(b, 2) + " " + FormatHex(c, 2)
  {
    assert [a, b, c][1..] == [b, c];
    HexBytesTwo(b, c);
  }

  /** One step of the sweep: the instruction at i moves from what is left to what is done. */
  lemma DisasmAdvance(table: Table, data: seq<Byte>, base: int, i: nat, done: seq<Insn>, all: seq<Insn>)
    requires i < |data| && done + DisasmFrom(table, data, base, i) == all
    ensures var insn := DecodeAt(table, data, base, i);
      (done + [insn]) + DisasmFrom(table, data, base, i + |insn.raw|) == all
  {
    var insn := DecodeAt(table, data, base, i);
    Advance(done, insn, DisasmFrom(table, data, base, i + |insn.raw|), DisasmFrom(table, data, base, i), all);
  }

  /** Rendering one more instruction appends its line. */
  lemma RenderAppend(insns: seq<Insn>, insn: Insn, lines: seq<string>, line: string)
    requires lines == Render(insns) && [line] == Render([insn])
    ensures lines + [line] == Render(insns + [insn])
  {
    assert [line][0] == Render([insn])[0] == RenderInsn(insn);
    assert forall k | 0 <= k < |insns| :: (insns + [insn])[k] == insns[k];
  }

  lemma RenderOne(insn: Insn, line: string)
    requires line == RenderInsn(insn)
    ensures [line] == Render([insn])
  {
  }

  // Each case of the loop body prints the rendering of the decoded instruction.

  /** A two-byte instruction with its operand in the buffer. */
  lemma LineTwo(table: Table, data: seq<Byte>, base: int, i: nat, info: OpInfo, hexBytes: string, text: string)
    requires i + 1 < |data| && data[i] < |table| && table[data[i]] == info && info.size == 2
    requires hexBytes == HexBytes([data[i], data[i + 1]])
    requires text == SubstituteByte(info.mnemonic, base + i, data[i + 1])
    ensures |DecodeAt(table, data, base, i).raw| == 2
    ensures RenderInsn(DecodeAt(table, data, base, i)) == FormatHex(base + i, 4) + ": " + PadRight(hexBytes, 12) + " " + text
  {
  }

  /** A three-byte instruction with both operand bytes in the buffer. */
  lemma LineThree(table: Table, data: seq<Byte>, base: int, i: nat, info: OpInfo, hexBytes: string, text: string)
    requires i + 2 < |data| && data[i] < |table| && table[data[i]] == info && info.size == 3
    requires hexBytes == HexBytes([data[i], data[i + 1], data[i + 2]])
    requires text == ReplaceAll(info.mnemonic, "nn", "0x" + FormatHex(Word(data[i + 1], data[i + 2]), 4))
    ensures |DecodeAt(table, data, base, i).raw| == 3
    ensures RenderInsn(DecodeAt(table, data, base, i)) == FormatHex(base + i, 4) + ": " + PadRight(hexBytes, 12) + " " + text
  {
  }

  /** A one-byte instruction, or one whose operands are cut off by the end of the buffer. */
  lemma LineShort(table: Table, data: seq<Byte>, base: int, i: nat, info: OpInfo, hexBytes: string)
    requires i < |data| && data[i] < |table| && table[data[i]] == info
    requires !(info.size == 2 && i + 1 < |data|) && !(info.size == 3 && i + 2 < |data|)
    requires hexBytes == HexBytes([data[i]])
    ensures |DecodeAt(table, data, base, i).raw| == 1
    ensures RenderInsn(DecodeAt(table, data, base, i)) == FormatHex(base + i, 4) + ": " + PadRight(hexBytes, 12) + " " + info.mnemonic
  {
  }

  /** A byte the table does not define. */
  lemma LineDb(table: Table, data: seq<Byte>, base: int, i: nat)
    requires i < |data| && data[i] >= |table|
    ensures |DecodeAt(table, data, base, i).raw| == 1
    ensures RenderInsn(DecodeAt(table, data, base, i))
         == FormatHex(base + i, 4) + ": " + FormatHex(data[i], 2) + "           DB 0x" + FormatHex(data[i], 2)
  {
    DbLine(base + i, data[i]);
  }

  /** The source's handling of a two-byte template agrees with SubstituteByte. */
  lemma SubstituteCases(template: string, addr: int, operand: Byte)
    ensures Contains(template, "n") && !Contains(template, "nn") && Contains(template, "JR") ==>
      SubstituteByte(template, addr, operand)
        == ReplaceAll(template, "n", "0x" + FormatHex(addr + 2 + (if operand < 128 then operand else operand - 256), 4))
    ensures Contains(template, "n") && !Contains(template, "nn") && !Contains(template, "JR") ==>
      SubstituteByte(template, addr, operand) == ReplaceAll(template, "n", "0x" + FormatHex(operand, 2))
    ensures !(Contains(template, "n") && !Contains(template, "nn")) ==> SubstituteByte(template, addr, operand) == template
  {
  }

  /**
   * One iteration of the disassembler loop: the line printed for the byte at
   * offset i and the number of bytes the loop then skips.
   */
  method FormatLine(data: seq<Byte>, baseAddr: int, i: nat, table: Table) returns (line: string, size: nat)
    requires i < |data|
    ensures [line] == Render([DecodeAt(table, data, baseAddr, i)])
    ensures size == |DecodeAt(table, data, baseAddr, i).raw|
  {
    var addr := baseAddr + i;
    var opcode := data[i];
    match Lookup(table, opcode) {
      case Some(info) =>
        var mnemonic := info.mnemonic;
        size := info.size;
        var hexBytes: string;
        if size == 2 && i + 1 < |data| {
          var operand := data[i + 1];
          hexBytes := FormatHex(opcode, 2) + " " + FormatHex(operand, 2);
          HexBytesTwo(opcode, operand);
          SubstituteCases(mnemonic, addr, operand);
          if Contains(mnemonic, "n") && !Contains(mnemonic, "nn") {
            if Contains(mnemonic, "JR") {
              var target := addr + 2 + (if operand < 128 then operand else operand - 256);
              mnemonic := ReplaceAll(mnemonic, "n", "0x" + FormatHex(target, 4));
            } else {
              mnemonic := ReplaceAll(mnemonic, "n", "0x" + FormatHex(operand, 2));
            }
          }
          LineTwo(table, data, baseAddr, i, info, hexBytes, mnemonic);
        } else if size == 3 && i + 2 < |data| {
          var lo, hi := data[i + 1], data[i + 2];
          var operand := Word(lo, hi);
          hexBytes := FormatHex(opcode, 2) + " " + FormatHex(lo, 2) + " " + FormatHex(hi, 2);
          HexBytesThree(opcode, lo, hi);
          mnemonic := ReplaceAll(mnemonic, "nn", "0x" + FormatHex(operand, 4));
          LineThree(table, data, baseAddr, i, info, hexBytes, mnemonic);
        } else {
          hexBytes := FormatHex(opcode, 2);
          ByteHex(opcode);
          LineShort(table, data, baseAddr, i, info, hexBytes);
          size := 1;  // operands cut off by the end of the buffer
        }
        line := FormatHex(addr, 4) + ": " + PadRight(hexBytes, 12) + " " + mnemonic;
        RenderOne(DecodeAt(table, data, baseAddr, i), line);
      case None =>
        line := FormatHex(addr, 4) + ": " + FormatHex(opcode, 2) + "           DB 0x" + FormatHex(opcode, 2);
        size := 1;
        LineDb(table, data, baseAddr, i);
        RenderOne(DecodeAt(table, data, baseAddr, i), line);
    }
  }

  /**
   * The disassembler loop: prints one line per decoded instruction and
   * advances by the instruction's size, or by one byte when its operands are
   * cut off by the end of the buffer. The tool uses the LR35902 table.
   */
  method DisassembleLr35902(data: seq<Byte>, baseAddr: int, table: Table) returns (lines: seq<string>)
    ensures lines == Render(Disassembly(table, data, baseAddr))
  {
    ghost var done: seq<Insn> := [];
    ghost var all := Disassembly(table, data, baseAddr);
    lines := [];
    var i := 0;
    while i < |data|
      invariant 0 <= i <= |data|
      invariant done + DisasmFrom(table, data, baseAddr, i) == all
      invariant lines == Render(done)
      decreases |data| - i
    {
      var line, size := FormatLine(data, baseAddr, i, table);
      DisasmAdvance(table, data, baseAddr, i, done, all);
      RenderAppend(done, DecodeAt(table, data, baseAddr, i), lines, line);
      lines := lines + [line];
      done := done + [DecodeAt(table, data, baseAddr, i)];
      i := i + size;
    }
    assert done == Disassembly(table, data, baseAddr);
  }

  // ---------------------------------------------------------------------------
  // Properties of the disassembly
  // ---------------------------------------------------------------------------

  /**
   * Each step consumes the opcode's size when all its operands are in the
   * buffer and exactly one byte otherwise; the line sits at base + i.
   */
  lemma DecodeAtStep(table: Table, data: seq<Byte>, base: int, i: nat)
    requires i < |data|
    ensures DecodeAt(table, data, base, i).addr == base + i
    ensures DecodeAt(table, data, base, i).raw == data[i..i + |DecodeAt(table, data, base, i).raw|]
    ensures |DecodeAt(table, data, base, i).raw|
         == if data[i] >= |table| then 1
            else if i + table[data[i]].size <= |data| then table[data[i]].size as int else 1
  {
  }

  /**
   * With the LR35902 table the `DB` fallback is never taken: every byte is an
   * opcode of the table, so every line prints a mnemonic.
   */
  lemma DbFallbackUnreachable(data: seq<Byte>, base: int, i: nat)
    requires i < |data|
    ensures DecodeAt(OPCODES, data, base, i).template == Some(OPCODES[data[i]].mnemonic)
  {
    LookupDefinesEveryByte(data[i]);
  }

  /** The hex columns of the lines, read in order, are exactly the bytes swept. */
  lemma {:induction false} DisasmConsumesAll(table: Table, data: seq<Byte>, base: int, i: nat)
    requires i <= |data|
    ensures Flatten(DisasmFrom(table, data, base, i)) == data[i..]
    decreases |data| - i
  {
    if i < |data| {
      var insn := DecodeAt(table, data, base, i);
      DecodeAtStep(table, data, base, i);
      DisasmConsumesAll(table, data, base, i + |insn.raw|);
      assert data[i..] == data[i..i + |insn.raw|] + data[i + |insn.raw|..];
    }
  }

  /**
   * Line addresses start at base + i and each one is the previous address plus
   * the previous instruction's size, so they are strictly increasing and all
   * lie in [base + i, base + |data|).
   */
  lemma {:induction false} DisasmAddresses(table: Table, data: seq<Byte>, base: int, i: nat)
    requires i <= |data|
    ensures var d := DisasmFrom(table, data, base, i);
      && (d != [] ==> d[0].addr == base + i)
      && (forall k :: 0 <= k < |d| ==> 1 <= |d[k].raw| <= 3)
      && (forall k :: 0 <= k < |d| - 1 ==> d[k + 1].addr == d[k].addr + |d[k].raw|)
      && (forall k :: 0 <= k < |d| ==> base + i <= d[k].addr < base + |data|)
    decreases |data| - i
  {
    if i < |data| {
      var insn := DecodeAt(table, data, base, i);
      var j := i + |insn.raw|;
      DisasmAddresses(table, data, base, j);
      var d := DisasmFrom(table, data, base, i);
      var rest := DisasmFrom(table, data, base, j);
      assert d == [insn] + rest;
      forall k | 0 <= k < |d| - 1
        ensures d[k + 1].addr == d[k].addr + |d[k].raw|
      {
        if k > 0 {
          assert d[k] == rest[k - 1] && d[k + 1] == rest[k];
        }
      }
    }
  }

  /** Addresses strictly increase from line to line. */
  lemma DisasmAddressesIncrease(table: Table, data: seq<Byte>, base: int, k: nat, l: nat)
    requires k < l < |Disassembly(table, data, base)|
    ensures Disassembly(table, data, base)[k].addr < Disassembly(table, data, base)[l].addr
    decreases l - k
  {
    var d := Disassembly(table, data, base);
    DisasmAddresses(table, data, base, 0);
    assert d[l].addr == d[l - 1].addr + |d[l - 1].raw| && |d[l - 1].raw| >= 1;
    if l > k + 1 {
      DisasmAddressesIncrease(table, data, base, k, l - 1);
    }
  }

  /** Every line covers one to three bytes, so there are between ⌈n/3⌉ and n lines. */
  lemma {:induction false} DisasmLineCount(table: Table, data: seq<Byte>, base: int, i: nat)
    requires i <= |data|
    ensures (|data| - i + 2) / 3 <= |DisasmFrom(table, data, base, i)| <= |data| - i
    decreases |data| - i
  {
    if i < |data| {
      var insn := DecodeAt(table, data, base, i);
      DisasmLineCount(table, data, base, i + |insn.raw|);
    }
  }

  /** The 16-bit operand is little-endian: low byte first, high byte second. */
  lemma WordLittleEndian(lo: Byte, hi: Byte)
    ensures 0 <= Word(lo, hi) < 0x1_0000
    ensures Word(lo, hi) % 256 == lo && Word(lo, hi) / 256 == hi
  {
  }

  /** Shifting the high byte left by eight and or-ing in the low byte is the same sum. */
  lemma WordIsShiftOr(lo: bv16, hi: bv16)
    requires lo < 256 && hi < 256
    ensures (hi << 8) | lo == hi * 256 + lo
  {
  }

  /**
   * A three-byte instruction prints its operand as exactly four hexadecimal
   * digits that read back as hi * 256 + lo.
   */
  lemma OperandPrinting(lo: Byte, hi: Byte)
    ensures |FormatHex(Word(lo, hi), 4)| == 4
    ensures AllHexDigits(FormatHex(Word(lo, hi), 4))
    ensures HexNumber(FormatHex(Word(lo, hi), 4)) == hi * 256 + lo
  {
    WordLittleEndian(lo, hi);
    FormatHexWidth(Word(lo, hi), 4);
    FormatHexRoundTrip(Word(lo, hi), 4);
  }

  /**
   * A relative jump lands within -128..127 bytes of the address after the
   * instruction, and the offset is the operand modulo 256.
   */
  lemma JrTargetRange(addr: int, operand: Byte)
    ensures addr + 2 - 128 <= JrTarget(addr, operand) <= addr + 2 + 127
    ensures (JrTarget(addr, operand) - addr - 2 - operand) % 256 == 0
    ensures operand < 128 ==> JrTarget(addr, operand) == addr + 2 + operand
    ensures operand >= 128 ==> JrTarget(addr, operand) == addr + 2 + operand - 256
  {
  }
}
