/** Pin masks, timing and buffer constants, and the NAND geometry record with the
    operations that set and read it. */
module Config {

  newtype u8 = x: int | 0 <= x < 0x100
  newtype u16 = x: int | 0 <= x < 0x1_0000
  newtype u32 = x: int | 0 <= x < 0x1_0000_0000

  // ---------------------------------------------------------------------------
  // Pins and masks
  // ---------------------------------------------------------------------------

  /** The six signal roles the header names on port B. */
  datatype Pin = Clk | Sio0 | Sio1 | Sio2 | Sio3 | NandCs

  /** The port B bit the header assigns to each role. */
  function PinBit(p: Pin): (k: nat)
    ensures k < 6
  {
    match p
    case Clk => 5
    case Sio0 => 3
    case Sio1 => 4
    case Sio2 => 2
    case Sio3 => 1
    case NandCs => 0
  }

  /** `1 << PIN_x`: a mask with exactly the pin's bit set. */
  function Mask(p: Pin): (m: bv8)
    ensures m != 0 && m & (m - 1) == 0
    ensures m & 0xc0 == 0
  {
    (1 as bv8) << PinBit(p)
  }

  const MASK_CLK: bv8 := Mask(Clk)
  const MASK_SIO0: bv8 := Mask(Sio0)
  const MASK_SIO1: bv8 := Mask(Sio1)
  const MASK_SIO2: bv8 := Mask(Sio2)
  const MASK_SIO3: bv8 := Mask(Sio3)
  const MASK_NAND_CS: bv8 := Mask(NandCs)
  const MASK_ALL_SIO: bv8 := MASK_SIO0 | MASK_SIO1 | MASK_SIO2 | MASK_SIO3
  const MASK_ALL_OUT: bv8 := MASK_CLK | MASK_ALL_SIO | MASK_NAND_CS

  /** Distinct roles never share a bit. */
  lemma MasksDisjoint(p: Pin, q: Pin)
    requires p != q
    ensures Mask(p) & Mask(q) == 0
  {
  }

  /** The combined masks are the data-lane bits 1..4 (the bits the engine's 0x1e and
      0xe1 masks set and clear) and the six low bits. */
  lemma MaskValues()
    ensures MASK_CLK == 0x20 && MASK_NAND_CS == 0x01
    ensures MASK_ALL_SIO == 0x1e && MASK_ALL_SIO == !0xe1
    ensures MASK_ALL_OUT == 0x3f
  {
  }

  // ---------------------------------------------------------------------------
  // Timing and buffer
  // ---------------------------------------------------------------------------

  /** Bit-bang delay in microseconds. */
  const BDELAY: nat := 10
  /** Capacity of the RAM transfer buffer. */
  const BUFFER_SIZE: nat := 256

  // ---------------------------------------------------------------------------
  // NAND geometry
  // ---------------------------------------------------------------------------

  const NAND_PAGE_SIZE: u16 := 2048
  const NAND_OOB_SIZE: u16 := 64
  const NAND_PAGES_PER_BLK: u8 := 64

  /** The `NandConfig_t` record, each field at its declared width. */
  datatype Geometry = Geometry(pageSize: u16, pagesPerBlock: u8, totalBlocks: u16, oobSize: u16)

  /** The initial value of the global configuration (a 128 MB part). */
  const DEFAULT_CONFIG: Geometry := Geometry(NAND_PAGE_SIZE, NAND_PAGES_PER_BLK, 1024, NAND_OOB_SIZE)

  /** The 16-bit product `sizeMB * 8` stored into the `uint16_t` field. */
  function BlocksFor(sizeMB: u16): (n: u16)
    ensures sizeMB < 0x2000 ==> n as int == 8 * sizeMB as int
    ensures (n as int - 8 * sizeMB as int) % 0x1_0000 == 0
  {
    ((sizeMB as int * 8) % 0x1_0000) as u16
  }

  /** The configuration `setNandSize(sizeMB)` leaves behind: it depends on nothing but its
      argument, the three presets are fixed and only the block count varies. */
  function Preset(sizeMB: u16): (g: Geometry)
    ensures g.pageSize == 2048 && g.pagesPerBlock == 64 && g.oobSize == 64
    ensures g.totalBlocks == BlocksFor(sizeMB)
  {
    Geometry(NAND_PAGE_SIZE, NAND_PAGES_PER_BLK, BlocksFor(sizeMB), NAND_OOB_SIZE)
  }

  /** `getTotalPages`: the 32-bit product of blocks and pages per block, which never
      wraps because both factors are at most 16 and 8 bits wide. */
  function TotalPages(g: Geometry): (r: u32)
    ensures r as int == g.totalBlocks as int * g.pagesPerBlock as int
    ensures r as int <= 0xffff * 0xff
  {
    PagesBound(g.totalBlocks as int, g.pagesPerBlock as int);
    (g.totalBlocks as int * g.pagesPerBlock as int) as u32
  }

  lemma PagesBound(blocks: int, pages: int)
    requires 0 <= blocks <= 0xffff && 0 <= pages <= 0xff
    ensures blocks * pages <= 0xffff * 0xff
  {
    assert blocks * pages <= 0xffff * pages;
  }

  /** `getTotalBytes`: pages times page size with 32-bit wrap-around. */
  function TotalBytes(g: Geometry): (r: u32)
    ensures r as int == (g.totalBlocks as int * g.pagesPerBlock as int * g.pageSize as int) % 0x1_0000_0000
  {
    ((TotalPages(g) as int * g.pageSize as int) % 0x1_0000_0000) as u32
  }

  /** `setNandSize(128)` reproduces the default configuration. */
  lemma Preset128IsDefault()
    ensures Preset(128) == DEFAULT_CONFIG
  {
  }

  /** For every size below 4 GB the byte count is exact: `sizeMB` mebibytes. */
  lemma {:induction false} TotalBytesOfPreset(sizeMB: u16)
    requires sizeMB < 4096
    ensures TotalBytes(Preset(sizeMB)) as int == sizeMB as int * 0x10_0000
  {
    var s := sizeMB as int;
    var g := Preset(sizeMB);
    assert g.totalBlocks as int == 8 * s;
    assert TotalPages(g) as int == 512 * s;
    assert 512 * s * 2048 == s * 0x10_0000;
    assert s * 0x10_0000 < 0x1_0000_0000;
  }

  /** The global `nandConfig`, whose fields `setNandSize` overwrites in place. */
  class NandConfig {
    var pageSize: u16
    var pagesPerBlock: u8
    var totalBlocks: u16
    var oobSize: u16

    function Value(): Geometry
      reads this
    {
      Geometry(pageSize, pagesPerBlock, totalBlocks, oobSize)
    }

    /** The static initializer. */
    constructor ()
      ensures Value() == DEFAULT_CONFIG
    {
      pageSize := NAND_PAGE_SIZE;
      pagesPerBlock := NAND_PAGES_PER_BLK;
      totalBlocks := 1024;
      oobSize := NAND_OOB_SIZE;
    }

    method SetNandSize(sizeMB: u16)
      modifies this
      ensures Value() == Preset(sizeMB)
      ensures sizeMB < 4096 ==> TotalBytes(Value()) as int == sizeMB as int * 0x10_0000
    {
      pageSize := NAND_PAGE_SIZE;
      pagesPerBlock := NAND_PAGES_PER_BLK;
      oobSize := NAND_OOB_SIZE;
      totalBlocks := ((sizeMB as int * 8) % 0x1_0000) as u16;
      if sizeMB < 4096 {
        TotalBytesOfPreset(sizeMB);
      }
    }
  }
}
