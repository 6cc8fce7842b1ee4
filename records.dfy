/**
 * The records the canned Lua scripts write to `output.json`, as functions of
 * the emulated memory (`emu:read8`) and the script parameters: the address
 * keys of a memory read, a range of bytes, the 40 OAM sprite slots and the
 * entity table.
 */
module Records {
  import opened Text

  /** The emulated address space as `emu:read8` sees it. */
  type Memory = int -> Byte

  /** `"0x%04X"`: the key of an address in the memory-read record. */
  function MemoryKey(addr: nat): string {
    "0x" + FormatHex(addr, 4)
  }

  /** The `"key":value` pairs of the memory-read record, in the order of the addresses asked for. */
  function MemoryRecord(mem: Memory, addrs: seq<nat>): (r: seq<(string, Byte)>)
    ensures |r| == |addrs|
  {
    if addrs == [] then [] else [(MemoryKey(addrs[0]), mem(addrs[0]))] + MemoryRecord(mem, addrs[1..])
  }

  /** The n bytes from addr on. */
  function Region(mem: Memory, addr: int, n: nat): (r: seq<Byte>)
    ensures |r| == n
  {
    seq(n, i => mem(addr + i))
  }

  function Clip(n: int): nat {
    if n < 0 then 0 else n
  }

  /** What the memory-range script writes: `for i = 0, length - 1`. */
  datatype RangeDump = RangeDump(start: int, length: int, data: seq<Byte>)

  function RangeRecord(mem: Memory, start: int, length: int): RangeDump {
    RangeDump(start, length, Region(mem, start, Clip(length)))
  }

  /** One sprite of the OAM record. */
  datatype Sprite = Sprite(slot: nat, y: Byte, x: Byte, tile: Byte, flags: Byte, palette: nat, visible: bool)

  const OamBase := 0xFE00
  const OamSlots := 40

  function SpriteAt(mem: Memory, slot: nat): Sprite {
    var addr := OamBase + slot * 4;
    var y, flags := mem(addr), mem(addr + 3);
    Sprite(slot, y, mem(addr + 1), mem(addr + 2), flags, flags % 8, 0 < y < 160)
  }

  /** The OAM record: `for slot = 0, 39`. */
  function OamRecord(mem: Memory): seq<Sprite> {
    seq(OamSlots, s requires 0 <= s => SpriteAt(mem, s))
  }

  /** One entity of the entity record. */
  datatype Entity = Entity(index: nat, address: int, bytes: seq<Byte>)

  datatype EntityDump = EntityDump(bossFlag: Byte, entities: seq<Entity>)

  const BossFlagAddr := 0xFFBF

  /** The entity record: the boss flag, then `for ent = 0, count - 1`, each `size` bytes at `base + ent * size`. */
  function EntityRecord(mem: Memory, base: int, size: int, count: int): EntityDump {
    EntityDump(mem(BossFlagAddr), seq(Clip(count), k requires 0 <= k => EntityAt(mem, base, size, k)))
  }

  function EntityAt(mem: Memory, base: int, size: int, k: nat): Entity {
    Entity(k, base + k * size, Region(mem, base + k * size, Clip(size)))
  }

  function AllBytes(es: seq<Entity>): seq<Byte> {
    if es == [] then [] else AllBytes(es[..|es| - 1]) + es[|es| - 1].bytes
  }

  // ---------------------------------------------------------------------------
  // Properties
  // ---------------------------------------------------------------------------

  /** A memory key is "0x" then at least four upper-case digits that read back as the address. */
  lemma MemoryKeyRoundTrip(addr: nat)
    ensures var key := MemoryKey(addr);
      && key[..2] == "0x"
      && AllHexDigits(key[2..]) && HexNumber(key[2..]) == addr
      && (addr < 0x1_0000 ==> |key| == 6)
  {
    var key := MemoryKey(addr);
    assert key[2..] == FormatHex(addr, 4);
    FormatHexRoundTrip(addr, 4);
    if addr < 0x1_0000 {
      assert Pow16(4) == 0x1_0000;
      FormatHexWidth(addr, 4);
    }
  }

  /** Distinct addresses get distinct keys, so no read is lost when the record becomes a JSON object. */
  lemma MemoryKeyInjective(a: nat, b: nat)
    requires a != b
    ensures MemoryKey(a) != MemoryKey(b)
  {
    MemoryKeyRoundTrip(a);
    MemoryKeyRoundTrip(b);
  }

  /** The memory-read record pairs each address asked for with its key and its byte. */
  lemma {:induction false} MemoryRecordEntries(mem: Memory, addrs: seq<nat>)
    ensures forall i :: 0 <= i < |addrs| ==> MemoryRecord(mem, addrs)[i] == (MemoryKey(addrs[i]), mem(addrs[i]))
    decreases |addrs|
  {
    if addrs != [] {
      MemoryRecordEntries(mem, addrs[1..]);
      var r := MemoryRecord(mem, addrs);
      forall i | 0 < i < |addrs|
        ensures r[i] == MemoryRecord(mem, addrs[1..])[i - 1] && addrs[i] == addrs[1..][i - 1]
      {
      }
    }
  }

  /** A range of a non-positive length is empty; otherwise byte i is the memory at start + i. */
  lemma RangeRecordContents(mem: Memory, start: int, length: int)
    ensures var r := RangeRecord(mem, start, length);
      && r.start == start && r.length == length
      && (length <= 0 ==> r.data == [])
      && (length > 0 ==> |r.data| == length)
      && forall i :: 0 <= i < |r.data| ==> r.data[i] == mem(start + i)
  {
  }

  /**
   * Exactly 40 slots; slot s is read from 0xFE00 + 4s, its palette is its
   * flags modulo 8 and it is visible exactly when 0 < y < 160.
   */
  lemma OamLayout(mem: Memory)
    ensures var oam := OamRecord(mem);
      && |oam| == 40
      && forall s :: 0 <= s < 40 ==>
        && oam[s].slot == s
        && oam[s].y == mem(0xFE00 + 4 * s) && oam[s].x == mem(0xFE00 + 4 * s + 1)
        && oam[s].tile == mem(0xFE00 + 4 * s + 2) && oam[s].flags == mem(0xFE00 + 4 * s + 3)
        && oam[s].palette == oam[s].flags % 8 < 8
        && (oam[s].visible <==> 0 < oam[s].y < 160)
  {
  }

  /** The 40 slots read exactly the 160 bytes 0xFE00..0xFE9F, four per slot, with no gap or overlap. */
  lemma OamCoversTable(mem: Memory, addr: int)
    requires 0xFE00 <= addr < 0xFEA0
    ensures var s, f := (addr - 0xFE00) / 4, (addr - 0xFE00) % 4;
      && 0 <= s < 40
      && OamBase + s * 4 + f == addr
  {
  }

  /**
   * Entity k sits at base + k * size and holds the `size` bytes from there;
   * there are `count` entities (none when it is not positive).
   */
  lemma EntityLayout(mem: Memory, base: int, size: int, count: int)
    ensures var d := EntityRecord(mem, base, size, count);
      && d.bossFlag == mem(0xFFBF)
      && |d.entities| == Clip(count)
      && forall k :: 0 <= k < |d.entities| ==>
        && d.entities[k].index == k
        && d.entities[k].address == base + k * size
        && |d.entities[k].bytes| == Clip(size)
        && forall i :: 0 <= i < |d.entities[k].bytes| ==> d.entities[k].bytes[i] == mem(base + k * size + i)
  {
  }

  lemma RegionSplit(mem: Memory, addr: int, a: nat, b: nat)
    ensures Region(mem, addr, a + b) == Region(mem, addr, a) + Region(mem, addr + a, b)
  {
    var l, r := Region(mem, addr, a + b), Region(mem, addr, a) + Region(mem, addr + a, b);
    forall i | 0 <= i < a + b
      ensures l[i] == r[i]
    {
      if i >= a {
        assert r[i] == Region(mem, addr + a, b)[i - a];
      }
    }
  }

  /**
   * With a non-negative size, the entity bytes read in order are the
   * count * size contiguous bytes from base on.
   */
  lemma {:induction false} EntitiesContiguous(mem: Memory, base: int, size: nat, count: nat)
    ensures AllBytes(EntityRecord(mem, base, size, count).entities) == Region(mem, base, count * size)
    decreases count
  {
    if count > 0 {
      var m := (count - 1) * size;
      EntitiesContiguous(mem, base, size, count - 1);
      EntitiesStep(mem, base, size, count - 1, m);
      assert m + size == count * size;
    }
  }

  /** One more entity appends the next `size` bytes. */
  lemma EntitiesStep(mem: Memory, base: int, size: nat, n: nat, m: nat)
    requires m == n * size
    requires AllBytes(EntityRecord(mem, base, size, n).entities) == Region(mem, base, m)
    ensures AllBytes(EntityRecord(mem, base, size, n + 1).entities) == Region(mem, base, m + size)
  {
    EntityTable(mem, base, size, n + 1);
    LastBytes(EntityRecord(mem, base, size, n + 1).entities, EntityRecord(mem, base, size, n).entities);
    RegionSplit(mem, base, m, size);
  }

  /** The bytes of a non-empty table are those of all but its last entity, then the last entity's. */
  lemma LastBytes(es: seq<Entity>, prev: seq<Entity>)
    requires es != [] && es[..|es| - 1] == prev
    ensures AllBytes(es) == AllBytes(prev) + es[|es| - 1].bytes
  {
  }

  /** The table of count entities is the table of count - 1 entities, then entity count - 1. */
  lemma EntityTable(mem: Memory, base: int, size: nat, count: nat)
    requires count > 0
    ensures var es := EntityRecord(mem, base, size, count).entities;
      && es[..count - 1] == EntityRecord(mem, base, size, count - 1).entities
      && es[count - 1].bytes == Region(mem, base + (count - 1) * size, size)
  {
    var es := EntityRecord(mem, base, size, count).entities;
    var prev := EntityRecord(mem, base, size, count - 1).entities;
    forall k | 0 <= k < count - 1
      ensures es[k] == prev[k]
    {
      assert es[k] == EntityAt(mem, base, size, k);
    }
    assert es[count - 1] == EntityAt(mem, base, size, count - 1);
  }
}
