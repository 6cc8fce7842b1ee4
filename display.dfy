/**
 * How the server prints the records of a memory range, of the OAM and of the
 * entity table: a header, then one line per 16 bytes of the range, one row
 * per visible sprite, and one row per entity that holds a non-zero byte.
 */
module Display {
  import opened Text
  import opened Records
  import opened Dump

  // ---------------------------------------------------------------------------
  // Memory range
  // ---------------------------------------------------------------------------

  /** `f"Memory range 0x{start:04X} - 0x{start + len(data) - 1:04X}:"`. */
  function RangeHeader(start: int, n: nat): string {
    "Memory range 0x" + FormatHex(start, 4) + " - 0x" + FormatHex(start + n - 1, 4) + ":"
  }

  /** `f"  {addr:04X}: {hex_bytes}"` for the 16 bytes at offset i. */
  function RangeLine(start: int, data: seq<Byte>, i: nat): string
    requires i < |data|
  {
    "  " + FormatHex(start + i, 4) + ": " + HexBytes(Chunk(data, i))
  }

  function RangeFrom(start: int, data: seq<Byte>, i: nat): seq<string> {
    Every16(RangeLineOf(start, data), |data|, i)
  }

  function RangeLineOf(start: int, data: seq<Byte>): nat -> string {
    (i: nat) => if i < |data| then RangeLine(start, data, i) else []
  }

  /** The lines printed for a memory range. */
  method RangeLines(r: RangeDump) returns (lines: seq<string>)
    ensures lines == [RangeHeader(r.start, |r.data|)] + RangeFrom(r.start, r.data, 0)
  {
    var data, start := r.data, r.start;
    var header := RangeHeader(start, |data|);
    ghost var whole := [header] + RangeFrom(start, data, 0);
    lines := [header];
    var i := 0;
    while i < |data|
      invariant lines + RangeFrom(start, data, i) == whole
      decreases |data| - i
    {
      var line := "  " + FormatHex(start + i, 4) + ": " + HexBytes(Chunk(data, i));
      RangeStep(start, data, i, line);
      Advance(lines, line, RangeFrom(start, data, i + BytesPerLine), RangeFrom(start, data, i), whole);
      lines := lines + [line];
      i := i + BytesPerLine;
    }
  }

  /** The line for offset i comes first, then the lines from 16 bytes on. */
  lemma RangeStep(start: int, data: seq<Byte>, i: nat, line: string)
    requires i < |data| && line == "  " + FormatHex(start + i, 4) + ": " + HexBytes(Chunk(data, i))
    ensures RangeFrom(start, data, i) == [line] + RangeFrom(start, data, i + BytesPerLine)
  {
    Every16Step(RangeLineOf(start, data), |data|, i);
  }

  /** One line per 16 bytes: ⌈n/16⌉ lines after the header. */
  lemma RangeLineCount(start: int, data: seq<Byte>, i: nat)
    requires i <= |data|
    ensures |RangeFrom(start, data, i)| == (|data| - i + BytesPerLine - 1) / BytesPerLine
  {
    Every16Length(RangeLineOf(start, data), |data|, i);
  }

  /** Line k after the header shows the 16 bytes at offset 16k, labelled with address start + 16k. */
  lemma RangeLineAt(start: int, data: seq<Byte>, i: nat, k: nat)
    requires k < |RangeFrom(start, data, i)|
    ensures i + BytesPerLine * k < |data|
    ensures RangeFrom(start, data, i)[k]
      == "  " + FormatHex(start + i + BytesPerLine * k, 4) + ": " + HexBytes(Chunk(data, i + BytesPerLine * k))
  {
    var f := RangeLineOf(start, data);
    Every16At(f, |data|, i, k);
    var m := i + 16 * k;
    assert f(m) == RangeLine(start, data, m);
  }

  /** The range lines of what the script read: the header names the first and last address read. */
  lemma RangeOfMemory(mem: Memory, start: int, length: int)
    requires length > 0
    ensures var r := RangeRecord(mem, start, length);
      && |r.data| == length
      && RangeHeader(r.start, |r.data|)
         == "Memory range 0x" + FormatHex(start, 4) + " - 0x" + FormatHex(start + length - 1, 4) + ":"
      && |RangeFrom(r.start, r.data, 0)| == (length + BytesPerLine - 1) / BytesPerLine
  {
    var r := RangeRecord(mem, start, length);
    RangeLineCount(r.start, r.data, 0);
  }

  // ---------------------------------------------------------------------------
  // OAM
  // ---------------------------------------------------------------------------

  const OamHeader: seq<string> := [
    "OAM Sprite Data (40 slots):",
    "Slot  Y    X   Tile  Flags  Pal  Visible",
    Repeat('-', 45)
  ]

  /** `f"{n:3d}"`. */
  function Dec3(n: int): string {
    PadLeft(FormatDec(n), 3, ' ')
  }

  function SpriteRow(s: Sprite): string {
    Dec3(s.slot) + SpriteFields(s)
  }

  /** The columns after the slot number. */
  function SpriteFields(s: Sprite): string {
    "  " + Dec3(s.y) + "  " + Dec3(s.x) + "  "
      + "0x" + FormatHex(s.tile, 2) + "   0x" + FormatHex(s.flags, 2) + "    " + FormatDec(s.palette) + "    *"
  }

  /** The rows of the visible sprites, in slot order. */
  function VisibleRows(oam: seq<Sprite>): seq<string> {
    if oam == [] then []
    else VisibleRows(oam[..|oam| - 1]) + (if oam[|oam| - 1].visible then [SpriteRow(oam[|oam| - 1])] else [])
  }

  /** The lines printed for an OAM record. */
  method OamLines(oam: seq<Sprite>) returns (lines: seq<string>)
    ensures lines == OamHeader + VisibleRows(oam)
  {
    lines := OamHeader;
    var k := 0;
    while k < |oam|
      invariant 0 <= k <= |oam|
      invariant lines == OamHeader + VisibleRows(oam[..k])
    {
      var sprite := oam[k];
      assert oam[..k + 1][..k] == oam[..k];
      if sprite.visible {
        lines := lines + [SpriteRow(sprite)];
      }
      k := k + 1;
    }
    assert oam[..|oam|] == oam;
  }

  /**
   * A sprite gets a row exactly when it is visible: every visible sprite's
   * row is printed, every printed row is a visible sprite's, and there are
   * never more rows than sprites.
   */
  lemma {:induction false} VisibleRowsFilter(oam: seq<Sprite>)
    ensures |VisibleRows(oam)| <= |oam|
    ensures forall i :: 0 <= i < |oam| && oam[i].visible ==> SpriteRow(oam[i]) in VisibleRows(oam)
    ensures forall r :: r in VisibleRows(oam) ==> exists i :: 0 <= i < |oam| && oam[i].visible && r == SpriteRow(oam[i])
    decreases |oam|
  {
    if oam != [] {
      var init := oam[..|oam| - 1];
      VisibleRowsFilter(init);
      forall i | 0 <= i < |init|
        ensures init[i] == oam[i]
      {
      }
    }
  }

  /** With nothing visible, only the three header lines are printed. */
  lemma {:induction false} NoVisibleSprites(oam: seq<Sprite>)
    requires forall i :: 0 <= i < |oam| ==> !oam[i].visible
    ensures VisibleRows(oam) == []
    decreases |oam|
  {
    if oam != [] {
      NoVisibleSprites(oam[..|oam| - 1]);
    }
  }

  /** For the OAM the script reads, slot s is printed exactly when 0 < y < 160 at 0xFE00 + 4s. */
  lemma OamDisplayOfMemory(mem: Memory, s: nat)
    requires s < 40
    ensures var y := mem(0xFE00 + 4 * s);
      0 < y < 160 <==> SpriteRow(SpriteAt(mem, s)) in VisibleRows(OamRecord(mem))
  {
    var oam := OamRecord(mem);
    OamLayout(mem);
    VisibleRowsFilter(oam);
    assert oam[s] == SpriteAt(mem, s);
    if SpriteRow(SpriteAt(mem, s)) in VisibleRows(oam) {
      var i :| 0 <= i < |oam| && oam[i].visible && SpriteRow(SpriteAt(mem, s)) == SpriteRow(oam[i]);
      SpriteRowNamesSlot(oam[i], SpriteAt(mem, s));
    }
  }

  /** Rows of different slots differ: the row begins with the slot number. */
  lemma SpriteRowNamesSlot(a: Sprite, b: Sprite)
    requires a.slot < 1000 && b.slot < 1000 && SpriteRow(a) == SpriteRow(b)
    ensures a.slot == b.slot
  {
    var da, _, _, _ := Dec3Digits(a.slot);
    var db, _, _, _ := Dec3Digits(b.slot);
    assert SpriteRow(a)[..3] == da && SpriteRow(b)[..3] == db;
    Dec3Injective(a.slot, b.slot);
  }

  lemma Dec3Injective(a: nat, b: nat)
    requires a < 1000 && b < 1000 && Dec3(a) == Dec3(b)
    ensures a == b
  {
    if a != b {
      DecDigitsDistinct(a, b);
    }
  }

  /** Decimal spellings of different numbers below 1000, right-aligned in 3 columns, differ. */
  lemma DecDigitsDistinct(a: nat, b: nat)
    requires a < 1000 && b < 1000 && a != b
    ensures Dec3(a) != Dec3(b)
  {
    var da, ha, ta, oa := Dec3Digits(a);
    var db, hb, tb, ob := Dec3Digits(b);
    if ha != hb {
      assert da[0] != db[0];
    } else if ta != tb {
      assert da[1] != db[1];
    } else {
      assert da[2] != db[2];
    }
  }

  /** A number below 1000 in 3 columns: its three decimal digits, with blanks for leading zeros. */
  lemma Dec3Digits(n: nat) returns (d: string, h: nat, t: nat, o: nat)
    requires n < 1000
    ensures h < 10 && t < 10 && o < 10 && n == 100 * h + 10 * t + o
    ensures d == Dec3(n) && |d| == 3
    ensures d[2] == DecDigit(o)
    ensures d[1] == (if h == 0 && t == 0 then ' ' else DecDigit(t))
    ensures d[0] == (if h == 0 then ' ' else DecDigit(h))
  {
    h, t, o := n / 100, n / 10 % 10, n % 10;
    d := Dec3(n);
    if n >= 100 {
      var m := n / 10;
      assert 10 <= m < 100 && m / 10 == h && m % 10 == t;
      assert DecDigits(m) == DecDigits(m / 10) + [DecDigit(m % 10)];
      var u := DecDigits(m);
      assert u == [DecDigit(h), DecDigit(t)];
      assert d == u + [DecDigit(o)];
    } else if n >= 10 {
      assert h == 0 && n / 10 == t;
      assert DecDigits(n) == [DecDigit(t), DecDigit(o)];
      assert Repeat(' ', 1) == [' '];
      assert d == [' '] + DecDigits(n);
    } else {
      assert h == 0 && t == 0 && o == n;
      assert Repeat(' ', 1) == [' '];
      assert Repeat(' ', 2) == [' ', ' '];
      assert d == [' ', ' '] + [DecDigit(n)];
    }
  }

  // ---------------------------------------------------------------------------
  // Entities
  // ---------------------------------------------------------------------------

  predicate AnyNonZero(bs: seq<Byte>) {
    exists i :: 0 <= i < |bs| && bs[i] != 0
  }

  /** `bytes_data[:16]`. */
  function First16(bs: seq<Byte>): (r: seq<Byte>)
    ensures |r| <= 16 && |r| <= |bs| && r == bs[..|r|]
    ensures |bs| <= 16 ==> r == bs
  {
    if |bs| <= 16 then bs else bs[..16]
  }

  function EntityRow(e: Entity): string {
    "  Entity " + FormatDec(e.index) + " (0x" + FormatHex(e.address, 4) + "): " + HexBytes(First16(e.bytes)) + "..."
  }

  /** The rows of the entities holding a non-zero byte, in table order. */
  function ActiveRows(es: seq<Entity>): seq<string> {
    if es == [] then []
    else ActiveRows(es[..|es| - 1]) + (if AnyNonZero(es[|es| - 1].bytes) then [EntityRow(es[|es| - 1])] else [])
  }

  function EntityHeader(bossFlag: Byte): seq<string> {
    ["Boss flag: 0x" + FormatHex(bossFlag, 2), "\nEntity Data:"]
  }

  /** The lines printed for an entity record. */
  method EntityLines(d: EntityDump) returns (lines: seq<string>)
    ensures lines == EntityHeader(d.bossFlag) + ActiveRows(d.entities)
  {
    lines := ["Boss flag: 0x" + FormatHex(d.bossFlag, 2)];
    lines := lines + ["\nEntity Data:"];
    var es := d.entities;
    var k := 0;
    while k < |es|
      invariant 0 <= k <= |es|
      invariant lines == EntityHeader(d.bossFlag) + ActiveRows(es[..k])
    {
      var bytesData := es[k].bytes;
      assert es[..k + 1][..k] == es[..k];
      var j := 0;
      var nonZero := false;
      while j < |bytesData| && !nonZero
        invariant 0 <= j <= |bytesData|
        invariant nonZero <==> exists i :: 0 <= i < j && bytesData[i] != 0
      {
        nonZero := bytesData[j] != 0;
        j := j + 1;
      }
      if nonZero {
        var hexStr := HexBytes(if |bytesData| <= 16 then bytesData else bytesData[..16]);
        lines := lines + ["  Entity " + FormatDec(es[k].index) + " (0x" + FormatHex(es[k].address, 4) + "): " + hexStr + "..."];
      }
      k := k + 1;
    }
    assert es[..|es|] == es;
  }

  /**
   * An entity gets a row exactly when one of its bytes is non-zero, and the
   * row shows at most its first 16 bytes.
   */
  lemma {:induction false} ActiveRowsFilter(es: seq<Entity>)
    ensures |ActiveRows(es)| <= |es|
    ensures forall i :: 0 <= i < |es| && AnyNonZero(es[i].bytes) ==> EntityRow(es[i]) in ActiveRows(es)
    ensures forall r :: r in ActiveRows(es) ==>
      exists i :: 0 <= i < |es| && AnyNonZero(es[i].bytes) && r == EntityRow(es[i])
    decreases |es|
  {
    if es != [] {
      var init := es[..|es| - 1];
      ActiveRowsFilter(init);
      forall i | 0 <= i < |init|
        ensures init[i] == es[i]
      {
      }
    }
  }

  /** An all-zero entity table prints only the boss flag and the heading. */
  lemma {:induction false} AllZeroEntities(es: seq<Entity>)
    requires forall i, j :: 0 <= i < |es| && 0 <= j < |es[i].bytes| ==> es[i].bytes[j] == 0
    ensures ActiveRows(es) == []
    decreases |es|
  {
    if es != [] {
      AllZeroEntities(es[..|es| - 1]);
    }
  }
}
