/**
 * The LR35902 (Game Boy CPU) opcode table of the disassembler: for every
 * opcode byte, its mnemonic template and its instruction size in bytes.
 * In a template, "n" stands for an 8-bit operand and "nn" for a 16-bit one.
 * The source keeps the table as a dictionary keyed by 0x00 through 0xFF in
 * order; here it is a sequence indexed by the opcode.
 */
module Opcodes {
  import opened Wrappers

  /** An instruction occupies one, two or three bytes. */
  type InsnSize = n: int | 1 <= n <= 3 witness 1

  datatype OpInfo = OpInfo(mnemonic: string, size: InsnSize)

  /** An opcode table: entry b describes opcode b; bytes past its end are not in the table. */
  type Table = seq<OpInfo>

  const OPCODES: Table := [
    /* 00 */ OpInfo("NOP", 1), OpInfo("LD BC,nn", 3), OpInfo("LD [BC],A", 1), OpInfo("INC BC", 1),
    /* 04 */ OpInfo("INC B", 1), OpInfo("DEC B", 1), OpInfo("LD B,n", 2), OpInfo("RLCA", 1),
    /* 08 */ OpInfo("LD [nn],SP", 3), OpInfo("ADD HL,BC", 1), OpInfo("LD A,[BC]", 1), OpInfo("DEC BC", 1),
    /* 0C */ OpInfo("INC C", 1), OpInfo("DEC C", 1), OpInfo("LD C,n", 2), OpInfo("RRCA", 1),
    /* 10 */ OpInfo("STOP", 1), OpInfo("LD DE,nn", 3), OpInfo("LD [DE],A", 1), OpInfo("INC DE", 1),
    /* 14 */ OpInfo("INC D", 1), OpInfo("DEC D", 1), OpInfo("LD D,n", 2), OpInfo("RLA", 1),
    /* 18 */ OpInfo("JR n", 2), OpInfo("ADD HL,DE", 1), OpInfo("LD A,[DE]", 1), OpInfo("DEC DE", 1),
    /* 1C */ OpInfo("INC E", 1), OpInfo("DEC E", 1), OpInfo("LD E,n", 2), OpInfo("RRA", 1),
    /* 20 */ OpInfo("JR NZ,n", 2), OpInfo("LD HL,nn", 3), OpInfo("LD [HL+],A", 1), OpInfo("INC HL", 1),
    /* 24 */ OpInfo("INC H", 1), OpInfo("DEC H", 1), OpInfo("LD H,n", 2), OpInfo("DAA", 1),
    /* 28 */ OpInfo("JR Z,n", 2), OpInfo("ADD HL,HL", 1), OpInfo("LD A,[HL+]", 1), OpInfo("DEC HL", 1),
    /* 2C */ OpInfo("INC L", 1), OpInfo("DEC L", 1), OpInfo("LD L,n", 2), OpInfo("CPL", 1),
    /* 30 */ OpInfo("JR NC,n", 2), OpInfo("LD SP,nn", 3), OpInfo("LD [HL-],A", 1), OpInfo("INC SP", 1),
    /* 34 */ OpInfo("INC [HL]", 1), OpInfo("DEC [HL]", 1), OpInfo("LD [HL],n", 2), OpInfo("SCF", 1),
    /* 38 */ OpInfo("JR C,n", 2), OpInfo("ADD HL,SP", 1), OpInfo("LD A,[HL-]", 1), OpInfo("DEC SP", 1),
    /* 3C */ OpInfo("INC A", 1), OpInfo("DEC A", 1), OpInfo("LD A,n", 2), OpInfo("CCF", 1),
    /* 40 */ OpInfo("LD B,B", 1), OpInfo("LD B,C", 1), OpInfo("LD B,D", 1), OpInfo("LD B,E", 1),
    /* 44 */ OpInfo("LD B,H", 1), OpInfo("LD B,L", 1), OpInfo("LD B,[HL]", 1), OpInfo("LD B,A", 1),
    /* 48 */ OpInfo("LD C,B", 1), OpInfo("LD C,C", 1), OpInfo("LD C,D", 1), OpInfo("LD C,E", 1),
    /* 4C */ OpInfo("LD C,H", 1), OpInfo("LD C,L", 1), OpInfo("LD C,[HL]", 1), OpInfo("LD C,A", 1),
    /* 50 */ OpInfo("LD D,B", 1), OpInfo("LD D,C", 1), OpInfo("LD D,D", 1), OpInfo("LD D,E", 1),
    /* 54 */ OpInfo("LD D,H", 1), OpInfo("LD D,L", 1), OpInfo("LD D,[HL]", 1), OpInfo("LD D,A", 1),
    /* 58 */ OpInfo("LD E,B", 1), OpInfo("LD E,C", 1), OpInfo("LD E,D", 1), OpInfo("LD E,E", 1),
    /* 5C */ OpInfo("LD E,H", 1), OpInfo("LD E,L", 1), OpInfo("LD E,[HL]", 1), OpInfo("LD E,A", 1),
    /* 60 */ OpInfo("LD H,B", 1), OpInfo("LD H,C", 1), OpInfo("LD H,D", 1), OpInfo("LD H,E", 1),
    /* 64 */ OpInfo("LD H,H", 1), OpInfo("LD H,L", 1), OpInfo("LD H,[HL]", 1), OpInfo("LD H,A", 1),
    /* 68 */ OpInfo("LD L,B", 1), OpInfo("LD L,C", 1), OpInfo("LD L,D", 1), OpInfo("LD L,E", 1),
    /* 6C */ OpInfo("LD L,H", 1), OpInfo("LD L,L", 1), OpInfo("LD L,[HL]", 1), OpInfo("LD L,A", 1),
    /* 70 */ OpInfo("LD [HL],B", 1), OpInfo("LD [HL],C", 1), OpInfo("LD [HL],D", 1), OpInfo("LD [HL],E", 1),
    /* 74 */ OpInfo("LD [HL],H", 1), OpInfo("LD [HL],L", 1), OpInfo("HALT", 1), OpInfo("LD [HL],A", 1),
    /* 78 */ OpInfo("LD A,B", 1), OpInfo("LD A,C", 1), OpInfo("LD A,D", 1), OpInfo("LD A,E", 1),
    /* 7C */ OpInfo("LD A,H", 1), OpInfo("LD A,L", 1), OpInfo("LD A,[HL]", 1), OpInfo("LD A,A", 1),
    /* 80 */ OpInfo("ADD A,B", 1), OpInfo("ADD A,C", 1), OpInfo("ADD A,D", 1), OpInfo("ADD A,E", 1),
    /* 84 */ OpInfo("ADD A,H", 1), OpInfo("ADD A,L", 1), OpInfo("ADD A,[HL]", 1), OpInfo("ADD A,A", 1),
    /* 88 */ OpInfo("ADC A,B", 1), OpInfo("ADC A,C", 1), OpInfo("ADC A,D", 1), OpInfo("ADC A,E", 1),
    /* 8C */ OpInfo("ADC A,H", 1), OpInfo("ADC A,L", 1), OpInfo("ADC A,[HL]", 1), OpInfo("ADC A,A", 1),
    /* 90 */ OpInfo("SUB B", 1), OpInfo("SUB C", 1), OpInfo("SUB D", 1), OpInfo("SUB E", 1),
    /* 94 */ OpInfo("SUB H", 1), OpInfo("SUB L", 1), OpInfo("SUB [HL]", 1), OpInfo("SUB A", 1),
    /* 98 */ OpInfo("SBC A,B", 1), OpInfo("SBC A,C", 1), OpInfo("SBC A,D", 1), OpInfo("SBC A,E", 1),
    /* 9C */ OpInfo("SBC A,H", 1), OpInfo("SBC A,L", 1), OpInfo("SBC A,[HL]", 1), OpInfo("SBC A,A", 1),
    /* A0 */ OpInfo("AND B", 1), OpInfo("AND C", 1), OpInfo("AND D", 1), OpInfo("AND E", 1),
    /* A4 */ OpInfo("AND H", 1), OpInfo("AND L", 1), OpInfo("AND [HL]", 1), OpInfo("AND A", 1),
    /* A8 */ OpInfo("XOR B", 1), OpInfo("XOR C", 1), OpInfo("XOR D", 1), OpInfo("XOR E", 1),
    /* AC */ OpInfo("XOR H", 1), OpInfo("XOR L", 1), OpInfo("XOR [HL]", 1), OpInfo("XOR A", 1),
    /* B0 */ OpInfo("OR B", 1), OpInfo("OR C", 1), OpInfo("OR D", 1), OpInfo("OR E", 1),
    /* B4 */ OpInfo("OR H", 1), OpInfo("OR L", 1), OpInfo("OR [HL]", 1), OpInfo("OR A", 1),
    /* B8 */ OpInfo("CP B", 1), OpInfo("CP C", 1), OpInfo("CP D", 1), OpInfo("CP E", 1),
    /* BC */ OpInfo("CP H", 1), OpInfo("CP L", 1), OpInfo("CP [HL]", 1), OpInfo("CP A", 1),
    /* C0 */ OpInfo("RET NZ", 1), OpInfo("POP BC", 1), OpInfo("JP NZ,nn", 3), OpInfo("JP nn", 3),
    /* C4 */ OpInfo("CALL NZ,nn", 3), OpInfo("PUSH BC", 1), OpInfo("ADD A,n", 2), OpInfo("RST 00", 1),
    /* C8 */ OpInfo("RET Z", 1), OpInfo("RET", 1), OpInfo("JP Z,nn", 3), OpInfo("PREFIX CB", 1),
    /* CC */ OpInfo("CALL Z,nn", 3), OpInfo("CALL nn", 3), OpInfo("ADC A,n", 2), OpInfo("RST 08", 1),
    /* D0 */ OpInfo("RET NC", 1), OpInfo("POP DE", 1), OpInfo("JP NC,nn", 3), OpInfo("???", 1),
    /* D4 */ OpInfo("CALL NC,nn", 3), OpInfo("PUSH DE", 1), OpInfo("SUB n", 2), OpInfo("RST 10", 1),
    /* D8 */ OpInfo("RET C", 1), OpInfo("RETI", 1), OpInfo("JP C,nn", 3), OpInfo("???", 1),
    /* DC */ OpInfo("CALL C,nn", 3), OpInfo("???", 1), OpInfo("SBC A,n", 2), OpInfo("RST 18", 1),
    /* E0 */ OpInfo("LDH [n],A", 2), OpInfo("POP HL", 1), OpInfo("LD [C],A", 1), OpInfo("???", 1),
    /* E4 */ OpInfo("???", 1), OpInfo("PUSH HL", 1), OpInfo("AND n", 2), OpInfo("RST 20", 1),
    /* E8 */ OpInfo("ADD SP,n", 2), OpInfo("JP HL", 1), OpInfo("LD [nn],A", 3), OpInfo("???", 1),
    /* EC */ OpInfo("???", 1), OpInfo("???", 1), OpInfo("XOR n", 2), OpInfo("RST 28", 1),
    /* F0 */ OpInfo("LDH A,[n]", 2), OpInfo("POP AF", 1), OpInfo("LD A,[C]", 1), OpInfo("DI", 1),
    /* F4 */ OpInfo("???", 1), OpInfo("PUSH AF", 1), OpInfo("OR n", 2), OpInfo("RST 30", 1),
    /* F8 */ OpInfo("LD HL,SP+n", 2), OpInfo("LD SP,HL", 1), OpInfo("LD A,[nn]", 3), OpInfo("EI", 1),
    /* FC */ OpInfo("???", 1), OpInfo("???", 1), OpInfo("CP n", 2), OpInfo("RST 38", 1)
  ]

  /** The dictionary test `opcode in table` followed by the lookup. */
  function Lookup(table: Table, opcode: int): Option<OpInfo> {
    if 0 <= opcode < |table| then Some(table[opcode]) else None
  }

  /**
   * The LR35902 table defines all 256 byte values, so looking up any byte
   * succeeds and yields a size of one, two or three bytes.
   */
  lemma LookupDefinesEveryByte(opcode: int)
    requires 0 <= opcode < 256
    ensures Lookup(OPCODES, opcode).Some?
    ensures 1 <= Lookup(OPCODES, opcode).value.size <= 3
  {
    assert |OPCODES| == 256;
  }
}
