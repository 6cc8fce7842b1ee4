/**
 * The hex-dump tool: read up to 4096 bytes of a file from an offset and print
 * them either as `xxd` does (an 8-digit address, 16 bytes in hexadecimal
 * padded to 48 columns, then the printable characters) or through the
 * LR35902 disassembler.
 *
 * The length cap is written `min(length, 4096)` and the file is then read
 * with `f.read(length)`, where Python reads to the end of the file for -1.
 * `DumpLengthAsWritten` keeps that and `NegativeLengthBypassesCap` shows what
 * it lets through; `DumpLength` is the cap the tool evidently intends, and is
 * what the rest of this module uses.
 */
module Dump {
  import opened Wrappers
  import opened Text
  import opened Opcodes
  import opened Disasm

  const MaxDump := 4096
  const BytesPerLine := 16

  /** Why seeking or reading failed. */
  datatype ReadError = InvalidSeek | InvalidReadLength

  /** The text of the exception Python raises for each failure. */
  function ReadErrorText(e: ReadError): string {
    match e
    case InvalidSeek => "[Errno 22] Invalid argument"
    case InvalidReadLength => "read length must be non-negative or -1"
  }

  /**
   * `f.seek(offset); f.read(length)` on a file holding `file`: a negative
   * offset cannot be sought, -1 reads to the end, any other negative length
   * is refused, and reading past the end yields what is there.
   */
  function SeekRead(file: seq<Byte>, offset: int, length: int): Result<seq<Byte>, ReadError> {
    if offset < 0 then Err(InvalidSeek)
    else if length < -1 then Err(InvalidReadLength)
    else if offset >= |file| then Ok([])
    else if length == -1 || offset + length >= |file| then Ok(file[offset..])
    else Ok(file[offset..offset + length])
  }

  /** The length passed to `f.read`, as written: `min(length, 4096)`. */
  function DumpLengthAsWritten(requested: int): int {
    if requested < MaxDump then requested else MaxDump
  }

  /** The length cap as intended: between 0 and 4096 bytes. */
  function DumpLength(requested: int): (n: nat)
    ensures n <= MaxDump
    ensures 0 <= requested <= MaxDump ==> n == requested
    ensures requested > MaxDump ==> n == MaxDump
  {
    if requested < 0 then 0 else DumpLengthAsWritten(requested)
  }

  /** A length of -1 passes `min(length, 4096)` unchanged and reads the whole file. */
  lemma NegativeLengthBypassesCap()
    ensures var file := seq(5000, _ => 0 as Byte);
      && SeekRead(file, 0, DumpLengthAsWritten(-1)) == Ok(file)
      && |SeekRead(file, 0, DumpLengthAsWritten(-1)).value| > MaxDump
  {
    var file := seq(5000, _ => 0 as Byte);
    assert file[0..] == file;
  }

  /**
   * With the intended cap every dump from a valid offset succeeds and is the
   * contiguous run of at most 4096 bytes starting at the offset, cut short
   * only by the end of the file.
   */
  lemma CappedRead(file: seq<Byte>, offset: int, requested: int)
    requires offset >= 0
    ensures SeekRead(file, offset, DumpLength(requested)).Ok?
    ensures var d := SeekRead(file, offset, DumpLength(requested)).value;
      && |d| <= MaxDump
      && (offset >= |file| ==> d == [])
      && (offset < |file| ==>
            && d == file[offset..offset + |d|]
            && |d| == if offset + DumpLength(requested) <= |file| then DumpLength(requested) else |file| - offset)
  {
  }

  /** A negative offset cannot be sought, whatever the length. */
  lemma NegativeOffsetFails(file: seq<Byte>, offset: int, requested: int)
    requires offset < 0
    ensures SeekRead(file, offset, DumpLength(requested)) == Err(InvalidSeek)
  {
  }

  // ---------------------------------------------------------------------------
  // The xxd layout
  // ---------------------------------------------------------------------------

  /** The character shown for a byte in the ASCII column. */
  function ShownChar(b: Byte): char {
    if 32 <= b < 127 then b as char else '.'
  }

  function AsciiColumn(chunk: seq<Byte>): string {
    if chunk == [] then "" else [ShownChar(chunk[0])] + AsciiColumn(chunk[1..])
  }

  lemma {:induction false} AsciiColumnLength(chunk: seq<Byte>)
    ensures |AsciiColumn(chunk)| == |chunk|
    decreases |chunk|
  {
    if chunk != [] {
      AsciiColumnLength(chunk[1..]);
    }
  }

  /** Bytes 32..126 are shown as themselves, all others as '.', so the column is printable ASCII. */
  lemma {:induction false} AsciiColumnSpec(chunk: seq<Byte>)
    ensures |AsciiColumn(chunk)| == |chunk|
    ensures forall i :: 0 <= i < |chunk| ==>
      && (32 <= chunk[i] < 127 ==> AsciiColumn(chunk)[i] == chunk[i] as char)
      && (!(32 <= chunk[i] < 127) ==> AsciiColumn(chunk)[i] == '.')
      && ' ' <= AsciiColumn(chunk)[i] <= '~'
    decreases |chunk|
  {
    AsciiColumnLength(chunk);
    if chunk != [] {
      AsciiColumnSpec(chunk[1..]);
      var a := AsciiColumn(chunk);
      forall i | 0 < i < |chunk|
        ensures a[i] == AsciiColumn(chunk[1..])[i - 1] && chunk[i] == chunk[1..][i - 1]
      {
      }
    }
  }

  /** `data[i:i+16]`. */
  function Chunk(data: seq<Byte>, i: nat): (c: seq<Byte>)
    requires i < |data|
  {
    if i + BytesPerLine <= |data| then data[i..i + BytesPerLine] else data[i..]
  }

  /** `f"{addr:08X}: {hex_part:<48}  {ascii_part}"`. */
  function DumpLine(addr: int, chunk: seq<Byte>): string {
    FormatHex(addr, 8) + ": " + PadRight(HexBytes(chunk), 48) + "  " + AsciiColumn(chunk)
  }

  /** The dump lines for the bytes from offset i on. */
  function DumpFrom(data: seq<Byte>, offset: int, i: nat): seq<string> {
    Every16(LineOf(data, offset), |data|, i)
  }

  function LineOf(data: seq<Byte>, offset: int): nat -> string {
    (i: nat) => if i < |data| then LineAt(data, offset, i) else []
  }

  /** The line for the chunk at position i, printed at address offset + i. */
  function LineAt(data: seq<Byte>, offset: int, i: nat): string
    requires i < |data|
  {
    DumpLine(offset + i, Chunk(data, i))
  }

  /** The chunks from offset i on, concatenated. */
  function ChunksFrom(data: seq<Byte>, i: nat): seq<Byte>
    decreases |data| - i
  {
    if i >= |data| then [] else Chunk(data, i) + ChunksFrom(data, i + BytesPerLine)
  }

  /** The line for offset i comes first, then the lines from 16 bytes on. */
  lemma DumpStep(data: seq<Byte>, offset: int, i: nat, line: string)
    requires i < |data| && line == DumpLine(offset + i, Chunk(data, i))
    ensures DumpFrom(data, offset, i) == [line] + DumpFrom(data, offset, i + BytesPerLine)
  {
    Every16Step(LineOf(data, offset), |data|, i);
  }

  /** The `for i in range(0, len(data), 16)` loop of the tool. */
  method HexDump(data: seq<Byte>, offset: int) returns (lines: seq<string>)
    ensures lines == DumpFrom(data, offset, 0)
  {
    ghost var whole := DumpFrom(data, offset, 0);
    lines := [];
    var i := 0;
    while i < |data|
      invariant lines + DumpFrom(data, offset, i) == whole
      decreases |data| - i
    {
      var chunk := Chunk(data, i);
      var line := FormatHex(offset + i, 8) + ": " + PadRight(HexBytes(chunk), 48) + "  " + AsciiColumn(chunk);
      DumpStep(data, offset, i, line);
      Advance(lines, line, DumpFrom(data, offset, i + BytesPerLine), DumpFrom(data, offset, i), whole);
      lines := lines + [line];
      i := i + BytesPerLine;
    }
  }

  /**
   * A line with 1 to 16 bytes at an address below 2^32: eight address digits
   * that read back as the address, ": ", the hex column padded to exactly 48
   * characters, two spaces, then one ASCII character per byte.
   */
  lemma DumpLineLayout(addr: int, chunk: seq<Byte>)
    requires 1 <= |chunk| <= BytesPerLine && 0 <= addr < Pow16(8)
    ensures var line := DumpLine(addr, chunk);
      && |line| == 60 + |chunk|
      && AllHexDigits(line[..8]) && HexNumber(line[..8]) == addr
      && line[8..10] == ": "
      && line[10..10 + 3 * |chunk| - 1] == HexBytes(chunk)
      && line[58..60] == "  "
      && line[60..] == AsciiColumn(chunk)
  {
    var a := FormatHex(addr, 8);
    FormatHexWidth(addr, 8);
    FormatHexRoundTrip(addr, 8);
    var h := PadRight(HexBytes(chunk), 48);
    HexColumn(chunk);
    var t := AsciiColumn(chunk);
    AsciiColumnLength(chunk);
    Slices5(a, ": ", h, "  ", t);
    assert h[..3 * |chunk| - 1] == HexBytes(chunk);
  }

  /** The hex column of 1 to 16 bytes is 3n - 1 characters, padded with spaces to 48. */
  lemma HexColumn(chunk: seq<Byte>)
    requires 1 <= |chunk| <= BytesPerLine
    ensures |PadRight(HexBytes(chunk), 48)| == 48
    ensures PadRight(HexBytes(chunk), 48)[..3 * |chunk| - 1] == HexBytes(chunk)
  {
    HexBytesLength(chunk);
  }

  lemma Slices5<T>(a: seq<T>, b: seq<T>, c: seq<T>, d: seq<T>, e: seq<T>)
    ensures var s := a + b + c + d + e;
      && |s| == |a| + |b| + |c| + |d| + |e|
      && s[..|a|] == a
      && s[|a|..|a| + |b|] == b
      && s[|a| + |b|..|a| + |b| + |c|] == c
      && s[|a| + |b| + |c|..|a| + |b| + |c| + |d|] == d
      && s[|a| + |b| + |c| + |d|..] == e
  {
  }

  /** There are ⌈(n - i)/16⌉ dump lines for the bytes from i on. */
  lemma DumpLineCount(data: seq<Byte>, offset: int, i: nat)
    requires i <= |data|
    ensures |DumpFrom(data, offset, i)| == (|data| - i + BytesPerLine - 1) / BytesPerLine
  {
    Every16Length(LineOf(data, offset), |data|, i);
  }

  /** Line k of the dump is the chunk at i + 16k printed at address offset + i + 16k. */
  lemma DumpLineAt(data: seq<Byte>, offset: int, i: nat, k: nat)
    requires k < |DumpFrom(data, offset, i)|
    ensures i + BytesPerLine * k < |data|
    ensures DumpFrom(data, offset, i)[k] == DumpLine(offset + i + BytesPerLine * k, Chunk(data, i + BytesPerLine * k))
  {
    var f := LineOf(data, offset);
    Every16At(f, |data|, i, k);
    var m := i + 16 * k;
    assert f(m) == LineAt(data, offset, m);
  }

  /** The chunks, read in order, are exactly the bytes from i on. */
  lemma {:induction false} ChunksCover(data: seq<Byte>, i: nat)
    requires i <= |data|
    ensures ChunksFrom(data, i) == data[i..]
    decreases |data| - i
  {
    if i < |data| {
      var j := i + BytesPerLine;
      if j <= |data| {
        ChunksCover(data, j);
        assert data[i..] == data[i..j] + data[j..];
      } else {
        assert ChunksFrom(data, j) == [];
      }
    }
  }

  // ---------------------------------------------------------------------------
  // The tool
  // ---------------------------------------------------------------------------

  function Header(romName: string, offset: int, count: nat): string {
    "Hex dump of " + romName + " at 0x" + FormatHex(offset, 4) + " (" + FormatDec(count) + " bytes):"
  }

  /**
   * The text the tool returns for a file whose bytes are `file` (or whose
   * opening failed with the given text), under the intended length cap.
   */
  function XxdText(table: Table, romName: string, file: Result<seq<Byte>, string>,
                   offset: int, requested: int, disassemble: bool): string
  {
    match file
    case Err(reason) => "Error: " + reason
    case Ok(bytes) =>
      match SeekRead(bytes, offset, DumpLength(requested))
      case Err(e) => "Error: " + ReadErrorText(e)
      case Ok(data) =>
        var body := if disassemble then Render(Disassembly(table, data, offset)) else DumpFrom(data, offset, 0);
        Join("\n", [Header(romName, offset, |data|), ""] + body)
  }

  method XxdTool(romName: string, file: Result<seq<Byte>, string>, offset: int, requested: int,
                 disassemble: bool) returns (text: string)
    ensures text == XxdText(OPCODES, romName, file, offset, requested, disassemble)
  {
    match file {
      case Err(reason) =>
        text := "Error: " + reason;
      case Ok(bytes) =>
        var length := DumpLength(requested);
        match SeekRead(bytes, offset, length) {
          case Err(e) =>
            text := "Error: " + ReadErrorText(e);
          case Ok(data) =>
            var lines := [Header(romName, offset, |data|), ""];
            var body: seq<string>;
            if disassemble {
              body := DisassembleLr35902(data, offset, OPCODES);
            } else {
              body := HexDump(data, offset);
            }
            text := Join("\n", lines + body);
        }
    }
  }

  /** Whatever the file and the arguments, a successful dump never shows more than 4096 bytes. */
  lemma DumpNeverExceedsCap(file: seq<Byte>, offset: int, requested: int)
    requires SeekRead(file, offset, DumpLength(requested)).Ok?
    ensures |SeekRead(file, offset, DumpLength(requested)).value| <= MaxDump
    ensures |DumpFrom(SeekRead(file, offset, DumpLength(requested)).value, offset, 0)| <= MaxDump / BytesPerLine
  {
    CappedRead(file, offset, requested);
    DumpLineCount(SeekRead(file, offset, DumpLength(requested)).value, offset, 0);
  }
}
