// The CRC of exts/xconfig: a word-at-a-time form against its definition.
module Crc32 {
  const POLY: bv32 := 0xEDB88320

  // ------------------------------------------------------- the definition

  // One step of the division by the reflected polynomial (RFC 1952, section 8).
  function Shift(c: bv32): bv32 {
    if c & 1 == 1 then (c >> 1) ^ POLY else c >> 1
  }

  // Divide in the bits of a message.
  function Divided(c: bv32, bits: seq<bv32>): bv32
    decreases |bits|
  {
    if bits == [] then c else Divided(Shift(Xor(c, bits[0])), bits[1..])
  }

  // The n low bits of x, the lowest first.
  function Bits(x: bv32, n: nat): seq<bv32>
    decreases n
  {
    if n == 0 then [] else [Low(x)] + Bits(Half(x), n - 1)
  }

  // The bits of a buffer, byte after byte.
  function AllBits(buf: seq<bv8>): seq<bv32> {
    if buf == [] then [] else Bits(Wide(buf[0]), 8) + AllBits(buf[1..])
  }

  function Xor(a: bv32, b: bv32): bv32 {
    a ^ b
  }

  function Low(x: bv32): bv32 {
    x & 1
  }

  function Half(x: bv32): bv32 {
    x >> 1
  }

  // --------------------------------------------------------- byte by byte

  // n steps at once.
  function Shifts(c: bv32, n: nat): bv32
    decreases n
  {
    if n == 0 then c else Shifts(Shift(c), n - 1)
  }

  function Halves(x: bv32, n: nat): bv32
    decreases n
  {
    if n == 0 then x else Halves(Half(x), n - 1)
  }

  function ByBytes(c: bv32, buf: seq<bv8>): bv32
    decreases |buf|
  {
    if buf == [] then c else ByBytes(Shifts(Xor(c, Wide(buf[0])), 8), buf[1..])
  }

  // A step in terms of the operations named above.
  lemma ShiftIs(c: bv32)
    ensures Shift(c) == if Low(c) == 1 then Xor(Half(c), POLY) else Half(c)
  {
  }

  lemma LowXor(c: bv32, x: bv32)
    ensures Low(Xor(c, Low(x))) == Low(Xor(c, x))
  {
  }

  lemma HalfXor(c: bv32, x: bv32)
    ensures Half(Xor(c, x)) == Xor(Half(c), Half(x))
    ensures Half(Xor(c, Low(x))) == Half(c)
  {
  }

  lemma XorSwap(a: bv32, b: bv32, p: bv32)
    ensures Xor(Xor(a, b), p) == Xor(Xor(a, p), b)
  {
    XorsSwap(a, b, p);
    assert Xor(Xor(a, b), p) == (a ^ b) ^ p;
    assert Xor(Xor(a, p), b) == (a ^ p) ^ b;
  }

  lemma XorsSwap(a: bv32, b: bv32, p: bv32)
    ensures (a ^ b) ^ p == (a ^ p) ^ b
  {
  }

  lemma XorZero(a: bv32)
    ensures Xor(a, 0) == a
  {
  }

  // The bits above the lowest only move down.
  lemma ShiftAhead(c: bv32, x: bv32)
    ensures Shift(Xor(c, x)) == Xor(Shift(Xor(c, Low(x))), Half(x))
  {
    hide Shift, Xor, Low, Half;
    ShiftIs(Xor(c, x));
    ShiftIs(Xor(c, Low(x)));
    LowXor(c, x);
    HalfXor(c, x);
    XorSwap(Half(c), Half(x), POLY);
  }

  // Dividing in the n low bits of x is n steps from c ^ x; what is left of x
  // stays on top.
  lemma {:induction false} DivideBits(c: bv32, x: bv32, n: nat)
    ensures Xor(Divided(c, Bits(x, n)), Halves(x, n)) == Shifts(Xor(c, x), n)
    decreases n
  {
    hide Shift, Xor, Low, Half;
    if n > 0 {
      ShiftAhead(c, x);
      var bits := Bits(x, n);
      assert bits[0] == Low(x) && bits[1..] == Bits(Half(x), n - 1);
      DivideBits(Shift(Xor(c, Low(x))), Half(x), n - 1);
    }
  }

  lemma NothingLeft(x: bv32)
    requires x < 256
    ensures Halves(x, 8) == 0
  {
    EightHalves(x);
  }

  lemma EightHalves(x: bv32)
    ensures Halves(x, 8) == x >> 8
  {
    var x4 := Half(Half(Half(Half(x))));
    assert Halves(x, 8) == Halves(x4, 4);
    assert Halves(x4, 4) == Half(Half(Half(Half(x4))));
  }

  lemma {:induction false} DividedAppend(c: bv32, s: seq<bv32>, t: seq<bv32>)
    ensures Divided(c, s + t) == Divided(Divided(c, s), t)
    decreases |s|
  {
    hide Shift, Xor;
    if s == [] {
      assert s + t == t;
    } else {
      assert (s + t)[0] == s[0] && (s + t)[1..] == s[1..] + t;
      DividedAppend(Shift(Xor(c, s[0])), s[1..], t);
    }
  }

  // Byte by byte is the same as bit by bit.
  lemma {:induction false} BytesDivide(c: bv32, buf: seq<bv8>)
    ensures ByBytes(c, buf) == Divided(c, AllBits(buf))
    decreases |buf|
  {
    hide Shift, Xor, Low, Half, Shifts, Halves, Bits;
    if buf != [] {
      var x := Wide(buf[0]);
      ByteSmall(buf[0]);
      DivideBits(c, x, 8);
      NothingLeft(x);
      XorZero(Divided(c, Bits(x, 8)));
      DividedAppend(c, Bits(x, 8), AllBits(buf[1..]));
      BytesDivide(Shifts(Xor(c, x), 8), buf[1..]);
    }
  }

  lemma ByteSmall(x: bv8)
    ensures Wide(x) < 256
  {
  }

  // ------------------------------------------------------------ the table

  // Eight steps, written out.
  function Shift8(c: bv32): bv32 {
    Shift(Shift(Shift(Shift(Shift(Shift(Shift(Shift(c))))))))
  }

  lemma EightShifts(c: bv32)
    ensures Shifts(c, 8) == Shift8(c)
  {
    hide Shift;
    var c4 := Shift(Shift(Shift(Shift(c))));
    assert Shifts(c, 8) == Shifts(c4, 4);
    assert Shifts(c4, 4) == Shift(Shift(Shift(Shift(c4))));
  }

  // crc_table, eight entries to a row and eight rows to a quarter
  function Quarter0(k: bv8): (r: seq<bv32>)
    ensures |r| == 8
  {
    match k
    case 0 => [0x00000000, 0x77073096, 0xee0e612c, 0x990951ba, 0x076dc419, 0x706af48f, 0xe963a535, 0x9e6495a3]
    case 1 => [0x0edb8832, 0x79dcb8a4, 0xe0d5e91e, 0x97d2d988, 0x09b64c2b, 0x7eb17cbd, 0xe7b82d07, 0x90bf1d91]
    case 2 => [0x1db71064, 0x6ab020f2, 0xf3b97148, 0x84be41de, 0x1adad47d, 0x6ddde4eb, 0xf4d4b551, 0x83d385c7]
    case 3 => [0x136c9856, 0x646ba8c0, 0xfd62f97a, 0x8a65c9ec, 0x14015c4f, 0x63066cd9, 0xfa0f3d63, 0x8d080df5]
    case 4 => [0x3b6e20c8, 0x4c69105e, 0xd56041e4, 0xa2677172, 0x3c03e4d1, 0x4b04d447, 0xd20d85fd, 0xa50ab56b]
    case 5 => [0x35b5a8fa, 0x42b2986c, 0xdbbbc9d6, 0xacbcf940, 0x32d86ce3, 0x45df5c75, 0xdcd60dcf, 0xabd13d59]
    case 6 => [0x26d930ac, 0x51de003a, 0xc8d75180, 0xbfd06116, 0x21b4f4b5, 0x56b3c423, 0xcfba9599, 0xb8bda50f]
    case _ => [0x2802b89e, 0x5f058808, 0xc60cd9b2, 0xb10be924, 0x2f6f7c87, 0x58684c11, 0xc1611dab, 0xb6662d3d]
  }

  function Quarter1(k: bv8): (r: seq<bv32>)
    ensures |r| == 8
  {
    match k
    case 0 => [0x76dc4190, 0x01db7106, 0x98d220bc, 0xefd5102a, 0x71b18589, 0x06b6b51f, 0x9fbfe4a5, 0xe8b8d433]
    case 1 => [0x7807c9a2, 0x0f00f934, 0x9609a88e, 0xe10e9818, 0x7f6a0dbb, 0x086d3d2d, 0x91646c97, 0xe6635c01]
    case 2 => [0x6b6b51f4, 0x1c6c6162, 0x856530d8, 0xf262004e, 0x6c0695ed, 0x1b01a57b, 0x8208f4c1, 0xf50fc457]
    case 3 => [0x65b0d9c6, 0x12b7e950, 0x8bbeb8ea, 0xfcb9887c, 0x62dd1ddf, 0x15da2d49, 0x8cd37cf3, 0xfbd44c65]
    case 4 => [0x4db26158, 0x3ab551ce, 0xa3bc0074, 0xd4bb30e2, 0x4adfa541, 0x3dd895d7, 0xa4d1c46d, 0xd3d6f4fb]
    case 5 => [0x4369e96a, 0x346ed9fc, 0xad678846, 0xda60b8d0, 0x44042d73, 0x33031de5, 0xaa0a4c5f, 0xdd0d7cc9]
    case 6 => [0x5005713c, 0x270241aa, 0xbe0b1010, 0xc90c2086, 0x5768b525, 0x206f85b3, 0xb966d409, 0xce61e49f]
    case _ => [0x5edef90e, 0x29d9c998, 0xb0d09822, 0xc7d7a8b4, 0x59b33d17, 0x2eb40d81, 0xb7bd5c3b, 0xc0ba6cad]
  }

  function Quarter2(k: bv8): (r: seq<bv32>)
    ensures |r| == 8
  {
    match k
    case 0 => [0xedb88320, 0x9abfb3b6, 0x03b6e20c, 0x74b1d29a, 0xead54739, 0x9dd277af, 0x04db2615, 0x73dc1683]
    case 1 => [0xe3630b12, 0x94643b84, 0x0d6d6a3e, 0x7a6a5aa8, 0xe40ecf0b, 0x9309ff9d, 0x0a00ae27, 0x7d079eb1]
    case 2 => [0xf00f9344, 0x8708a3d2, 0x1e01f268, 0x6906c2fe, 0xf762575d, 0x806567cb, 0x196c3671, 0x6e6b06e7]
    case 3 => [0xfed41b76, 0x89d32be0, 0x10da7a5a, 0x67dd4acc, 0xf9b9df6f, 0x8ebeeff9, 0x17b7be43, 0x60b08ed5]
    case 4 => [0xd6d6a3e8, 0xa1d1937e, 0x38d8c2c4, 0x4fdff252, 0xd1bb67f1, 0xa6bc5767, 0x3fb506dd, 0x48b2364b]
    case 5 => [0xd80d2bda, 0xaf0a1b4c, 0x36034af6, 0x41047a60, 0xdf60efc3, 0xa867df55, 0x316e8eef, 0x4669be79]
    case 6 => [0xcb61b38c, 0xbc66831a, 0x256fd2a0, 0x5268e236, 0xcc0c7795, 0xbb0b4703, 0x220216b9, 0x5505262f]
    case _ => [0xc5ba3bbe, 0xb2bd0b28, 0x2bb45a92, 0x5cb36a04, 0xc2d7ffa7, 0xb5d0cf31, 0x2cd99e8b, 0x5bdeae1d]
  }

  function Quarter3(k: bv8): (r: seq<bv32>)
    ensures |r| == 8
  {
    match k
    case 0 => [0x9b64c2b0, 0xec63f226, 0x756aa39c, 0x026d930a, 0x9c0906a9, 0xeb0e363f, 0x72076785, 0x05005713]
    case 1 => [0x95bf4a82, 0xe2b87a14, 0x7bb12bae, 0x0cb61b38, 0x92d28e9b, 0xe5d5be0d, 0x7cdcefb7, 0x0bdbdf21]
    case 2 => [0x86d3d2d4, 0xf1d4e242, 0x68ddb3f8, 0x1fda836e, 0x81be16cd, 0xf6b9265b, 0x6fb077e1, 0x18b74777]
    case 3 => [0x88085ae6, 0xff0f6a70, 0x66063bca, 0x11010b5c, 0x8f659eff, 0xf862ae69, 0x616bffd3, 0x166ccf45]
    case 4 => [0xa00ae278, 0xd70dd2ee, 0x4e048354, 0x3903b3c2, 0xa7672661, 0xd06016f7, 0x4969474d, 0x3e6e77db]
    case 5 => [0xaed16a4a, 0xd9d65adc, 0x40df0b66, 0x37d83bf0, 0xa9bcae53, 0xdebb9ec5, 0x47b2cf7f, 0x30b5ffe9]
    case 6 => [0xbdbdf21c, 0xcabac28a, 0x53b39330, 0x24b4a3a6, 0xbad03605, 0xcdd70693, 0x54de5729, 0x23d967bf]
    case _ => [0xb3667a2e, 0xc4614ab8, 0x5d681b02, 0x2a6f2b94, 0xb40bbe37, 0xc30c8ea1, 0x5a05df1b, 0x2d02ef8d]
  }

  ghost predicate RowOk(r: seq<bv32>, c: bv32)
    requires |r| == 8
  {
    && r[0] == Shift8(c) && r[1] == Shift8(c + 1) && r[2] == Shift8(c + 2) && r[3] == Shift8(c + 3)
    && r[4] == Shift8(c + 4) && r[5] == Shift8(c + 5) && r[6] == Shift8(c + 6) && r[7] == Shift8(c + 7)
  }

  lemma Rows0a(k: bv8)
    requires 0 <= k < 4
    ensures RowOk(Quarter0(k), 0 + 8 * (k as bv32))
  {
  }

  lemma Rows0b(k: bv8)
    requires 4 <= k < 8
    ensures RowOk(Quarter0(k), 0 + 8 * (k as bv32))
  {
  }

  lemma Rows1a(k: bv8)
    requires 0 <= k < 4
    ensures RowOk(Quarter1(k), 64 + 8 * (k as bv32))
  {
  }

  lemma Rows1b(k: bv8)
    requires 4 <= k < 8
    ensures RowOk(Quarter1(k), 64 + 8 * (k as bv32))
  {
  }

  lemma Rows2a(k: bv8)
    requires 0 <= k < 4
    ensures RowOk(Quarter2(k), 128 + 8 * (k as bv32))
  {
  }

  lemma Rows2b(k: bv8)
    requires 4 <= k < 8
    ensures RowOk(Quarter2(k), 128 + 8 * (k as bv32))
  {
  }

  lemma Rows3a(k: bv8)
    requires 0 <= k < 4
    ensures RowOk(Quarter3(k), 192 + 8 * (k as bv32))
  {
  }

  lemma Rows3b(k: bv8)
    requires 4 <= k < 8
    ensures RowOk(Quarter3(k), 192 + 8 * (k as bv32))
  {
  }

  function CrcTable(i: bv8): bv32 {
    var k, j := (i >> 3) & 7, (i & 7) as nat;
    if i < 64 then Quarter0(k)[j] else if i < 128 then Quarter1(k)[j]
    else if i < 192 then Quarter2(k)[j] else Quarter3(k)[j]
  }

  // Each entry is what eight steps make of its index.
  lemma TableRight(i: bv8)
    ensures CrcTable(i) == Shift8(i as bv32)
  {
    var k := (i >> 3) & 7;
    if i < 64 {
      if k < 4 { Rows0a(k); } else { Rows0b(k); }
      InRow(Quarter0(k), i, 0);
    } else if i < 128 {
      if k < 4 { Rows1a(k); } else { Rows1b(k); }
      InRow(Quarter1(k), i, 64);
    } else if i < 192 {
      if k < 4 { Rows2a(k); } else { Rows2b(k); }
      InRow(Quarter2(k), i, 128);
    } else {
      if k < 4 { Rows3a(k); } else { Rows3b(k); }
      InRow(Quarter3(k), i, 192);
    }
  }

  lemma InRow(r: seq<bv32>, i: bv8, start: bv32)
    requires |r| == 8 && RowOk(r, start + 8 * (((i >> 3) & 7) as bv32))
    requires i as bv32 & 192 == start
    ensures r[(i & 7) as nat] == Shift8(i as bv32)
  {
    hide Shift8;
  }

  function Wide(x: bv8): bv32 {
    x as bv32
  }

  // (c ^ x) & 255
  function TableIndex(c: bv32, x: bv8): bv8 {
    (c & 255) as bv8 ^ x
  }

  function Down(c: bv32): bv32 {
    c >> 8
  }

  function High(c: bv32): bv32 {
    c & 0xFFFFFF00
  }

  // DO_CRC: one byte, through the table
  function DoCrc(c: bv32, x: bv8): bv32 {
    Xor(CrcTable(TableIndex(c, x)), Down(c))
  }

  lemma {:induction false} ShiftsAbove(a: bv32, y: bv32, n: nat)
    requires Zeros(y, n)
    ensures Shifts(Xor(a, y), n) == Xor(Shifts(a, n), Halves(y, n))
    decreases n
  {
    hide Shift, Xor, Low, Half;
    if n > 0 {
      ShiftAhead(a, y);
      XorZero(a);
      ShiftsAbove(Shift(a), Half(y), n - 1);
    }
  }

  // The n low bits of y are zero.
  predicate Zeros(y: bv32, n: nat)
    decreases n
  {
    n == 0 || (Low(y) == 0 && Zeros(Half(y), n - 1))
  }

  lemma EightZeros(y: bv32)
    requires y & 255 == 0
    ensures Zeros(y, 8)
  {
    var y4 := Half(Half(Half(Half(y))));
    assert Zeros(y4, 4) by {
      assert Low(y4) == 0 && Low(Half(y4)) == 0 && Low(Half(Half(y4))) == 0 && Low(Half(Half(Half(y4)))) == 0;
    }
    assert Low(y) == 0 && Low(Half(y)) == 0 && Low(Half(Half(y))) == 0 && Low(Half(Half(Half(y)))) == 0;
  }

  // What lies above a byte comes down by eight bits.
  lemma AboveByte(a: bv32, c: bv32)
    ensures Shifts(Xor(a, High(c)), 8) == Xor(Shifts(a, 8), Down(c))
  {
    hide Xor;
    HighOnly(c);
    EightZeros(High(c));
    EightHalves(High(c));
    ShiftsAbove(a, High(c), 8);
  }

  lemma HighOnly(c: bv32)
    ensures High(c) & 255 == 0 && High(c) >> 8 == Down(c)
  {
  }

  lemma IndexSplits(c: bv32, x: bv8)
    ensures Xor(Wide(TableIndex(c, x)), High(c)) == Xor(c, Wide(x))
  {
  }

  // A byte is divided in by one look into the table.
  lemma DoCrcDivides(c: bv32, x: bv8)
    ensures DoCrc(c, x) == Shifts(Xor(c, Wide(x)), 8)
  {
    hide CrcTable, Shifts, Shift8, Xor, Wide, TableIndex, Down, High;
    var i := TableIndex(c, x);
    TableAt(i);
    AboveByte(Wide(i), c);
    IndexSplits(c, x);
  }

  lemma TableAt(i: bv8)
    ensures CrcTable(i) == Shifts(Wide(i), 8)
  {
    hide CrcTable, Shifts, Shift8;
    TableRight(i);
    EightShifts(i as bv32);
  }

  // -------------------------------------------------------- word by word

  // A byte below what a word holds above it.
  function Join(x: bv8, above: bv32): bv32 {
    (x as bv32) | (above << 8)
  }

  // Four bytes loaded as one little-endian word.
  function Word(x0: bv8, x1: bv8, x2: bv8, x3: bv8): bv32 {
    Join(x0, Join(x1, Join(x2, Join(x3, 0))))
  }

  predicate Below(w: bv32, limit: bv32) {
    w < limit
  }

  lemma JoinSplits(x: bv8, above: bv32)
    requires Below(above, 0x1000000)
    ensures Join(x, above) == Xor(Wide(x), High(Join(x, above)))
    ensures Down(Join(x, above)) == above
  {
  }

  lemma JoinBelow(x: bv8, above: bv32)
    ensures Below(above, 0x10000) ==> Below(Join(x, above), 0x1000000)
    ensures Below(above, 0x100) ==> Below(Join(x, above), 0x10000)
    ensures above == 0 ==> Below(Join(x, above), 0x100)
    ensures above == 0 ==> Below(above, 0x1000000)
  {
  }

  lemma BelowMore(w: bv32)
    ensures Below(w, 0x100) || Below(w, 0x10000) ==> Below(w, 0x1000000)
  {
  }

  lemma XorComm(a: bv32, b: bv32)
    ensures Xor(a, b) == Xor(b, a)
  {
  }

  lemma XorAssoc(a: bv32, b: bv32, c: bv32)
    ensures Xor(a, Xor(b, c)) == Xor(Xor(a, b), c)
  {
    hide Xor;
    XorComm(a, Xor(b, c));
    XorSwap(b, c, a);
    XorComm(a, b);
  }

  lemma WideZero()
    ensures Wide(0) == 0
  {
  }

  // A zero byte pushed through divides in the lowest byte of what was xored
  // in before, and the rest comes down.
  lemma PushZero(c: bv32, x: bv8, above: bv32)
    requires Below(above, 0x1000000)
    ensures DoCrc(Xor(c, Join(x, above)), 0) == Xor(DoCrc(c, x), above)
  {
    hide DoCrc, Shifts, Xor, Wide, Down, High, Join, Below;
    var w := Join(x, above);
    DoCrcDivides(Xor(c, w), 0);
    DoCrcDivides(c, x);
    WideZero();
    XorZero(Xor(c, w));
    JoinSplits(x, above);
    XorAssoc(c, Wide(x), High(w));
    AboveByte(Xor(c, Wide(x)), w);
  }

  // A word xored in and four zero bytes pushed through is four bytes.
  lemma WordDivides(c: bv32, x0: bv8, x1: bv8, x2: bv8, x3: bv8)
    ensures DoCrc(DoCrc(DoCrc(DoCrc(Xor(c, Word(x0, x1, x2, x3)), 0), 0), 0), 0)
      == DoCrc(DoCrc(DoCrc(DoCrc(c, x0), x1), x2), x3)
  {
    hide DoCrc, Xor, Join, Below;
    var w3 := Join(x3, 0);
    var w2 := Join(x2, w3);
    var w1 := Join(x1, w2);
    JoinBelow(x3, 0);
    JoinBelow(x2, w3);
    JoinBelow(x1, w2);
    BelowMore(w3);
    BelowMore(w2);
    PushZero(c, x0, w1);
    PushZero(DoCrc(c, x0), x1, w2);
    PushZero(DoCrc(DoCrc(c, x0), x1), x2, w3);
    PushZero(DoCrc(DoCrc(DoCrc(c, x0), x1), x2), x3, 0);
    XorZero(DoCrc(DoCrc(DoCrc(DoCrc(c, x0), x1), x2), x3));
  }

  lemma {:induction false} ByBytesAppend(c: bv32, s: seq<bv8>, t: seq<bv8>)
    ensures ByBytes(c, s + t) == ByBytes(ByBytes(c, s), t)
    decreases |s|
  {
    hide Shifts, Xor;
    if s == [] {
      assert s + t == t;
    } else {
      assert (s + t)[0] == s[0] && (s + t)[1..] == s[1..] + t;
      ByBytesAppend(Shifts(Xor(c, Wide(s[0])), 8), s[1..], t);
    }
  }

  // One more byte.
  lemma ByteMore(c: bv32, buf: seq<bv8>, i: nat)
    requires i < |buf|
    ensures ByBytes(c, buf[..i + 1]) == DoCrc(ByBytes(c, buf[..i]), buf[i])
  {
    hide Shifts, Xor, DoCrc, Wide;
    assert buf[..i + 1] == buf[..i] + [buf[i]];
    ByBytesAppend(c, buf[..i], [buf[i]]);
    var d := ByBytes(c, buf[..i]);
    DoCrcDivides(d, buf[i]);
    assert ByBytes(d, [buf[i]]) == ByBytes(Shifts(Xor(d, Wide(buf[i])), 8), []);
  }

  // Four more bytes.
  lemma WordMore(c: bv32, buf: seq<bv8>, i: nat)
    requires i + 4 <= |buf|
    ensures ByBytes(c, buf[..i + 4])
      == DoCrc(DoCrc(DoCrc(DoCrc(Xor(ByBytes(c, buf[..i]), Word(buf[i], buf[i + 1], buf[i + 2], buf[i + 3])), 0), 0),
        0), 0)
  {
    hide Shifts, Xor, DoCrc, Word, ByBytes;
    ByteMore(c, buf, i);
    ByteMore(c, buf, i + 1);
    ByteMore(c, buf, i + 2);
    ByteMore(c, buf, i + 3);
    WordDivides(ByBytes(c, buf[..i]), buf[i], buf[i + 1], buf[i + 2], buf[i + 3]);
  }

  // crc32_no_comp, for a buffer at the address addr: single bytes up to the
  // first whole word, then words, then the bytes that are left.
  method Crc32NoComp(crc0: bv32, buf: seq<bv8>, addr: nat) returns (crc: bv32)
    ensures crc == Divided(crc0, AllBits(buf))
  {
    hide Xor, DoCrc, Word, ByBytes, Divided, AllBits;
    Nothing(crc0, buf);
    crc := crc0;
    var b: nat := 0;
    var len: nat := |buf|;
    if (addr + b) % 4 != 0 && len != 0 {
      while true
        invariant 0 < len && b + len == |buf|
        invariant crc == ByBytes(crc0, buf[..b])
        decreases len
      {
        ByteMore(crc0, buf, b);
        crc := DoCrc(crc, buf[b]);
        b := b + 1;
        len := len - 1;
        if len == 0 || (addr + b) % 4 == 0 {
          break;
        }
      }
    }
    var rem_len := len % 4;
    len := len / 4;
    while len != 0
      invariant b + 4 * len + rem_len == |buf|
      invariant crc == ByBytes(crc0, buf[..b])
    {
      WordMore(crc0, buf, b);
      crc := Xor(crc, Word(buf[b], buf[b + 1], buf[b + 2], buf[b + 3]));
      crc := DoCrc(crc, 0);
      crc := DoCrc(crc, 0);
      crc := DoCrc(crc, 0);
      crc := DoCrc(crc, 0);
      b := b + 4;
      len := len - 1;
    }
    len := rem_len;
    while len != 0
      invariant b + len == |buf|
      invariant crc == ByBytes(crc0, buf[..b])
    {
      ByteMore(crc0, buf, b);
      crc := DoCrc(crc, buf[b]);
      b := b + 1;
      len := len - 1;
    }
    assert buf[..b] == buf;
    BytesDivide(crc0, buf);
  }

  lemma Nothing(c: bv32, buf: seq<bv8>)
    ensures ByBytes(c, buf[..0]) == c
  {
  }

  // ---------------------------------------------------------------- crc32

  function Invert(c: bv32): bv32 {
    c ^ 0xFFFFFFFF
  }

  // The CRC of a buffer that carries on from the CRC c of what came before.
  function Crc(c: bv32, buf: seq<bv8>): bv32 {
    Invert(Divided(Invert(c), AllBits(buf)))
  }

  method Crc32(crc: bv32, buf: seq<bv8>, addr: nat) returns (r: bv32)
    ensures r == Crc(crc, buf)
  {
    hide Divided, AllBits, Invert;
    r := Crc32NoComp(Invert(crc), buf, addr);
    r := Invert(r);
  }

  lemma {:induction false} AllBitsAppend(s: seq<bv8>, t: seq<bv8>)
    ensures AllBits(s + t) == AllBits(s) + AllBits(t)
  {
    hide Bits;
    if s == [] {
      assert s + t == t;
    } else {
      assert (s + t)[0] == s[0] && (s + t)[1..] == s[1..] + t;
      AllBitsAppend(s[1..], t);
    }
  }

  lemma InvertTwice(c: bv32)
    ensures Invert(Invert(c)) == c
  {
  }

  // Blocks of a message can be fed in one after the other.
  lemma Chains(c: bv32, s: seq<bv8>, t: seq<bv8>)
    ensures Crc(Crc(c, s), t) == Crc(c, s + t)
  {
    hide Divided, AllBits, Invert;
    AllBitsAppend(s, t);
    DividedAppend(Invert(c), AllBits(s), AllBits(t));
    InvertTwice(Divided(Invert(c), AllBits(s)));
  }

  // ---------------------------------------------------------- the residue

  // The four bytes of a CRC, the lowest first.
  function Bytes(c: bv32): (r: seq<bv8>)
    ensures |r| == 4
  {
    [(c & 255) as bv8, ((c >> 8) & 255) as bv8, ((c >> 16) & 255) as bv8, (c >> 24) as bv8]
  }

  lemma BytesJoin(c: bv32)
    ensures Word(Bytes(c)[0], Bytes(c)[1], Bytes(c)[2], Bytes(c)[3]) == c
  {
    JoinsHigh(c);
    JoinsLow(c);
  }

  lemma JoinsHigh(c: bv32)
    ensures Join(((c >> 16) & 255) as bv8, Join((c >> 24) as bv8, 0)) == c >> 16
  {
  }

  lemma JoinsLow(c: bv32)
    ensures Join((c & 255) as bv8, Join(((c >> 8) & 255) as bv8, c >> 16)) == c
  {
  }

  // Whatever the message is, its CRC put behind it leaves one and the same CRC.
  lemma Residue(start: bv32, s: seq<bv8>)
    ensures Crc(start, s + Bytes(Crc(start, s))) == 0x2144DF1C
  {
    hide Divided, AllBits, Invert, DoCrc, Xor, Word, Bytes, ByBytes;
    var d := Divided(Invert(start), AllBits(s));
    var c := Invert(d);
    var b := Bytes(c);
    Chains(start, s, b);
    InvertTwice(d);
    BytesDivide(d, b);
    FourBytes(d, b);
    WordDivides(d, b[0], b[1], b[2], b[3]);
    BytesJoin(c);
    XorInverted(d);
    FourZeros();
    ResidueInverted();
  }

  lemma XorInverted(d: bv32)
    ensures Xor(d, Invert(d)) == 0xFFFFFFFF
  {
    InvertedXor(d);
    assert Xor(d, Invert(d)) == d ^ (d ^ 0xFFFFFFFF);
  }

  lemma InvertedXor(d: bv32)
    ensures d ^ (d ^ 0xFFFFFFFF) == 0xFFFFFFFF
  {
  }

  lemma ResidueInverted()
    ensures Invert(0xDEBB20E3) == 0x2144DF1C
  {
  }

  lemma FourBytes(c: bv32, b: seq<bv8>)
    requires |b| == 4
    ensures ByBytes(c, b) == DoCrc(DoCrc(DoCrc(DoCrc(c, b[0]), b[1]), b[2]), b[3])
  {
    hide DoCrc, ByBytes;
    ByteMore(c, b, 0);
    ByteMore(c, b, 1);
    ByteMore(c, b, 2);
    ByteMore(c, b, 3);
    Nothing(c, b);
    assert b[..4] == b;
  }

  lemma FourZeros()
    ensures DoCrc(DoCrc(DoCrc(DoCrc(0xFFFFFFFF, 0), 0), 0), 0) == 0xDEBB20E3
  {
    hide DoCrc, Step;
    DoCrcIsStep(0xFFFFFFFF, 0);
    DoCrcIsStep(0x2DFD1072, 0);
    DoCrcIsStep(0xBE26ED00, 0);
    DoCrcIsStep(0x00BE26ED, 0);
    FourSteps();
  }

  lemma DoCrcIsStep(c: bv32, x: bv8)
    ensures DoCrc(c, x) == Step(c, x)
  {
    hide DoCrc, Shifts, Shift8, Xor, Wide;
    DoCrcDivides(c, x);
    EightShifts(Xor(c, Wide(x)));
  }

  lemma FourSteps()
    ensures Step(0xFFFFFFFF, 0) == 0x2DFD1072 && Step(0x2DFD1072, 0) == 0xBE26ED00
    ensures Step(0xBE26ED00, 0) == 0x00BE26ED && Step(0x00BE26ED, 0) == 0xDEBB20E3
  {
  }

  // The CRCs of no byte and of one zero byte, and the check value, the CRC of the
  // digits 1 to 9.
  lemma CheckValues()
    ensures Crc(0, []) == 0 && Crc(0, [0]) == 0xD202EF8D
    ensures Crc(0, [0x31, 0x32, 0x33, 0x34, 0x35, 0x36, 0x37, 0x38, 0x39]) == 0xCBF43926
  {
    hide Divided, AllBits, ByBytes, Step;
    var s: seq<bv8> := [0x31, 0x32, 0x33, 0x34, 0x35, 0x36, 0x37, 0x38, 0x39];
    BytesDivide(0xFFFFFFFF, []);
    BytesDivide(0xFFFFFFFF, [0]);
    BytesDivide(0xFFFFFFFF, s);
    Nothing(0xFFFFFFFF, s);
    assert s[..0] == [];
    FourSteps();
    OneMore([], 0, 0xFFFFFFFF, 0x2DFD1072);
    assert [] + [0 as bv8] == [0];
    NineSteps();
    OneMore(s[..0], s[0], 0xFFFFFFFF, 0x7C231048);
    assert s[..0] + [s[0]] == s[..1];
    OneMore(s[..1], s[1], 0x7C231048, 0xB0ACBB32);
    assert s[..1] + [s[1]] == s[..2];
    OneMore(s[..2], s[2], 0xB0ACBB32, 0x77B79C2D);
    assert s[..2] + [s[2]] == s[..3];
    OneMore(s[..3], s[3], 0x77B79C2D, 0x641C1F5C);
    assert s[..3] + [s[3]] == s[..4];
    OneMore(s[..4], s[4], 0x641C1F5C, 0x340AC5E3);
    assert s[..4] + [s[4]] == s[..5];
    OneMore(s[..5], s[5], 0x340AC5E3, 0xF68D2C9E);
    assert s[..5] + [s[5]] == s[..6];
    OneMore(s[..6], s[6], 0xF68D2C9E, 0xAFFC9660);
    assert s[..6] + [s[6]] == s[..7];
    OneMore(s[..7], s[7], 0xAFFC9660, 0x651F2550);
    assert s[..7] + [s[7]] == s[..8];
    OneMore(s[..8], s[8], 0x651F2550, 0x340BC6D9);
    assert s[..8] + [s[8]] == s[..9];
    assert s[..9] == s;
  }

  lemma OneMore(s: seq<bv8>, x: bv8, c: bv32, d: bv32)
    requires ByBytes(0xFFFFFFFF, s) == c && Step(c, x) == d
    ensures ByBytes(0xFFFFFFFF, s + [x]) == d
  {
    hide Step, Shift8, Shifts, Xor, Wide;
    ByBytesAppend(0xFFFFFFFF, s, [x]);
    StepOf(c, [x]);
  }

  lemma NineSteps()
    ensures Step(0xFFFFFFFF, 0x31) == 0x7C231048
    ensures Step(0x7C231048, 0x32) == 0xB0ACBB32
    ensures Step(0xB0ACBB32, 0x33) == 0x77B79C2D
    ensures Step(0x77B79C2D, 0x34) == 0x641C1F5C
    ensures Step(0x641C1F5C, 0x35) == 0x340AC5E3
    ensures Step(0x340AC5E3, 0x36) == 0xF68D2C9E
    ensures Step(0xF68D2C9E, 0x37) == 0xAFFC9660
    ensures Step(0xAFFC9660, 0x38) == 0x651F2550
    ensures Step(0x651F2550, 0x39) == 0x340BC6D9
  {
  }

  // ------------------------------------------------------- what it detects

  // No step forgets anything: the register can be run backwards.
  lemma ShiftKeeps(a: bv32, b: bv32)
    requires Shift(a) == Shift(b)
    ensures a == b
  {
  }

  lemma {:induction false} DividedKeeps(a: bv32, b: bv32, bits: seq<bv32>)
    requires Divided(a, bits) == Divided(b, bits)
    ensures a == b
    decreases |bits|
  {
    hide Shift, Xor;
    if bits != [] {
      DividedKeeps(Shift(Xor(a, bits[0])), Shift(Xor(b, bits[0])), bits[1..]);
      ShiftKeeps(Xor(a, bits[0]), Xor(b, bits[0]));
      XorKeeps(a, b, bits[0]);
    }
  }

  lemma XorKeeps(a: bv32, b: bv32, x: bv32)
    requires Xor(a, x) == Xor(b, x)
    ensures a == b
  {
  }

  lemma {:induction false} ShiftsKeep(a: bv32, b: bv32, n: nat)
    requires Shifts(a, n) == Shifts(b, n)
    ensures a == b
    decreases n
  {
    hide Shift;
    if n > 0 {
      ShiftsKeep(Shift(a), Shift(b), n - 1);
      ShiftKeeps(a, b);
    }
  }

  // A damaged byte never goes unnoticed.
  lemma DamageShows(c: bv32, s: seq<bv8>, x: bv8, y: bv8, t: seq<bv8>)
    requires x != y
    ensures Crc(c, s + [x] + t) != Crc(c, s + [y] + t)
  {
    hide Crc, Divided, AllBits, Invert;
    Chains(c, s + [x], t);
    Chains(c, s + [y], t);
    Chains(c, s, [x]);
    Chains(c, s, [y]);
    OneByte(Crc(c, s), x);
    OneByte(Crc(c, s), y);
    var a, b := Crc(Crc(c, s), [x]), Crc(Crc(c, s), [y]);
    if Crc(a, t) == Crc(b, t) {
      CrcKeeps(a, b, t);
      OneByteKeeps(Crc(c, s), x, y);
    }
  }

  lemma OneByte(c: bv32, x: bv8)
    ensures Crc(c, [x]) == Invert(Shifts(Xor(Invert(c), Wide(x)), 8))
  {
    hide Divided, AllBits, Invert, Shifts, Xor, Wide;
    BytesDivide(Invert(c), [x]);
    Single(Invert(c), x);
  }

  lemma Single(c: bv32, x: bv8)
    ensures ByBytes(c, [x]) == Shifts(Xor(c, Wide(x)), 8)
  {
    hide Shifts, Xor;
    assert ByBytes(c, [x]) == ByBytes(Shifts(Xor(c, Wide(x)), 8), []);
  }

  lemma CrcKeeps(a: bv32, b: bv32, t: seq<bv8>)
    requires Crc(a, t) == Crc(b, t)
    ensures a == b
  {
    hide Divided, AllBits, Invert;
    InvertTwice(a);
    InvertTwice(b);
    InvertTwice(Divided(Invert(a), AllBits(t)));
    InvertTwice(Divided(Invert(b), AllBits(t)));
    DividedKeeps(Invert(a), Invert(b), AllBits(t));
  }

  lemma OneByteKeeps(c: bv32, x: bv8, y: bv8)
    requires Invert(Shifts(Xor(Invert(c), Wide(x)), 8)) == Invert(Shifts(Xor(Invert(c), Wide(y)), 8))
    ensures x == y
  {
    hide Invert, Shifts, Xor, Wide;
    var d := Invert(c);
    InvertTwice(Shifts(Xor(d, Wide(x)), 8));
    InvertTwice(Shifts(Xor(d, Wide(y)), 8));
    ShiftsKeep(Xor(d, Wide(x)), Xor(d, Wide(y)), 8);
    XorComm(d, Wide(x));
    XorComm(d, Wide(y));
    XorKeeps(Wide(x), Wide(y), d);
    WideKeeps(x, y);
  }

  lemma WideKeeps(x: bv8, y: bv8)
    requires Wide(x) == Wide(y)
    ensures x == y
  {
  }

  // ------------------------------------------------------- bursts of errors

  lemma LowsXor(a: bv32, b: bv32)
    ensures Low(Xor(a, b)) == if Low(a) == Low(b) then 0 else 1
  {
  }

  lemma XorTwice(a: bv32, b: bv32, p: bv32)
    ensures Xor(Xor(a, p), Xor(b, p)) == Xor(a, b)
  {
    XorsTwice(a, b, p);
    assert Xor(Xor(a, p), Xor(b, p)) == (a ^ p) ^ (b ^ p);
    assert Xor(a, b) == a ^ b;
  }

  lemma XorsTwice(a: bv32, b: bv32, p: bv32)
    ensures (a ^ p) ^ (b ^ p) == a ^ b
  {
  }

  lemma ShiftXor(a: bv32, b: bv32)
    ensures Shift(Xor(a, b)) == Xor(Shift(a), Shift(b))
  {
    hide Shift, Xor, Low, Half;
    ShiftIs(a);
    ShiftIs(b);
    ShiftIs(Xor(a, b));
    LowIs(a);
    LowIs(b);
    LowsXor(a, b);
    HalfXor(a, b);
    XorTwice(Half(a), Half(b), POLY);
    XorSwap(Half(a), Half(b), POLY);
    XorAssoc(Half(a), Half(b), POLY);
  }

  lemma LowIs(x: bv32)
    ensures Low(x) == 0 || Low(x) == 1
  {
  }

  // A step that does not set the highest bit took in a zero.
  lemma HighestClear(e: bv32)
    requires Top(Shift(e)) == 0
    ensures Low(e) == 0 && Shift(e) == Half(e)
  {
  }

  lemma {:induction false} HalvesOfZero(n: nat)
    ensures Halves(0, n) == 0
  {
    if n > 0 { HalvesOfZero(n - 1); }
  }

  lemma {:induction false} HalvesOfHalves(x: bv32, m: nat, n: nat)
    ensures Halves(Halves(x, m), n) == Halves(x, m + n)
    decreases m
  {
    hide Half;
    if m > 0 { HalvesOfHalves(Half(x), m - 1, n); }
  }

  function Top(x: bv32): bv32 {
    x >> 31
  }

  function Down7(x: bv32): bv32 {
    x >> 7
  }

  lemma SevenHalves(x: bv32)
    ensures Halves(x, 7) == Down7(x)
  {
    var x4 := Half(Half(Half(Half(x))));
    assert Halves(x, 7) == Halves(x4, 3);
    assert Halves(x4, 3) == Half(Half(Half(x4)));
  }

  lemma EightDown(x: bv32)
    ensures Halves(x, 8) == Down(x)
  {
    EightHalves(x);
  }

  lemma AllHalves(x: bv32)
    ensures Halves(x, 31) == Top(x)
  {
    hide Halves, Down, Down7, Top;
    HalvesOfHalves(x, 8, 23);
    EightDown(x);
    HalvesOfHalves(Down(x), 8, 15);
    EightDown(Down(x));
    HalvesOfHalves(Down(Down(x)), 8, 7);
    EightDown(Down(Down(x)));
    SevenHalves(Down(Down(Down(x))));
    AllDown(x);
  }

  lemma AllDown(x: bv32)
    ensures Down7(Down(Down(Down(x)))) == Top(x)
  {
  }

  // If what is above the n low bits is zero, so is the highest bit.
  lemma HighestOf(x: bv32, n: nat)
    requires n < 32 && Halves(x, n) == 0
    ensures Top(x) == 0
  {
    HalvesOfHalves(x, n, 31 - n);
    HalvesOfZero(31 - n);
    AllHalves(x);
  }

  predicate IsBit(x: bv32) {
    x == 0 || x == 1
  }

  predicate AreBits(u: seq<bv32>) {
    forall i :: 0 <= i < |u| ==> IsBit(u[i])
  }

  lemma BitIsLow(u: bv32)
    requires IsBit(u)
    ensures Low(u) == u
  {
  }

  lemma BitsApart(c: bv32, d: bv32, u: bv32, v: bv32)
    requires IsBit(u) && IsBit(v)
    ensures Half(Xor(Xor(c, u), Xor(d, v))) == Half(Xor(c, d))
    ensures c == d && Low(Xor(Xor(c, u), Xor(d, v))) == 0 ==> u == v
  {
    hide Xor, Low, Half, IsBit;
    BitIsLow(u);
    BitIsLow(v);
    HalfXor(Xor(c, u), Xor(d, v));
    HalfXor(c, u);
    HalfXor(d, v);
    HalfXor(c, d);
    XorComm(c, u);
    XorComm(d, v);
    XorTwice(u, v, c);
    LowsXor(u, v);
  }

  // The step before: registers that differ only below the bit n after it, n < 32,
  // differed only below the bit n + 1 before it.
  lemma StepBack(c: bv32, d: bv32, u: bv32, v: bv32, n: nat)
    requires n < 32 && IsBit(u) && IsBit(v)
    requires Halves(Xor(Shift(Xor(c, u)), Shift(Xor(d, v))), n) == 0
    ensures Halves(Xor(c, d), n + 1) == 0
    ensures c == d ==> u == v
  {
    hide Shift, Xor, Half, Low, IsBit;
    var e := Xor(Xor(c, u), Xor(d, v));
    ShiftXor(Xor(c, u), Xor(d, v));
    HighestOf(Shift(e), n);
    HighestClear(e);
    BitsApart(c, d, u, v);
    assert Halves(Xor(c, d), n + 1) == Halves(Half(Xor(c, d)), n);
  }

  // Registers that meet after n bits, n <= 32, differed only in the n low bits.
  lemma {:induction false} Meeting(c: bv32, d: bv32, u: seq<bv32>, v: seq<bv32>)
    requires |u| == |v| <= 32 && AreBits(u) && AreBits(v) && Divided(c, u) == Divided(d, v)
    ensures Halves(Xor(c, d), |u|) == 0
    decreases |u|
  {
    hide Shift, Xor, Half, IsBit;
    if u == [] {
      XorSelf(c);
    } else {
      Meeting(Shift(Xor(c, u[0])), Shift(Xor(d, v[0])), u[1..], v[1..]);
      StepBack(c, d, u[0], v[0], |u| - 1);
    }
  }

  lemma XorSelf(c: bv32)
    ensures Xor(c, c) == 0
  {
  }

  // So 32 bits, or fewer, can be told from the register they lead to.
  lemma {:induction false} FewBitsKeep(c: bv32, u: seq<bv32>, v: seq<bv32>)
    requires |u| == |v| <= 32 && AreBits(u) && AreBits(v) && Divided(c, u) == Divided(c, v)
    ensures u == v
    decreases |u|
  {
    hide Shift, Xor, IsBit;
    if u != [] {
      Meeting(Shift(Xor(c, u[0])), Shift(Xor(c, v[0])), u[1..], v[1..]);
      StepBack(c, c, u[0], v[0], |u| - 1);
      FewBitsKeep(Shift(Xor(c, u[0])), u[1..], v[1..]);
      assert u == [u[0]] + u[1..] && v == [v[0]] + v[1..];
    }
  }

  lemma LowIsBit(x: bv32)
    ensures IsBit(Low(x))
  {
    LowIs(x);
  }

  lemma {:induction false} BitsAreBits(x: bv32, n: nat)
    ensures AreBits(Bits(x, n)) && |Bits(x, n)| == n
    decreases n
  {
    hide Low, Half, IsBit;
    if n > 0 {
      LowIsBit(x);
      BitsAreBits(Half(x), n - 1);
    }
  }

  lemma {:induction false} AllAreBits(buf: seq<bv8>)
    ensures AreBits(AllBits(buf)) && |AllBits(buf)| == 8 * |buf|
  {
    hide Bits, IsBit;
    if buf != [] {
      BitsAreBits(Wide(buf[0]), 8);
      AllAreBits(buf[1..]);
    }
  }

  lemma {:induction false} BitsTell(s: seq<bv8>, t: seq<bv8>)
    requires |s| == |t| && AllBits(s) == AllBits(t)
    ensures s == t
  {
    hide Bits, IsBit, Crc;
    if s != [] {
      BitsAreBits(Wide(s[0]), 8);
      BitsAreBits(Wide(t[0]), 8);
      assert AllBits(s)[..8] == Bits(Wide(s[0]), 8) && AllBits(t)[..8] == Bits(Wide(t[0]), 8);
      assert AllBits(s)[8..] == AllBits(s[1..]) && AllBits(t)[8..] == AllBits(t[1..]);
      ByteTells(s[0], t[0]);
      BitsTell(s[1..], t[1..]);
      assert s == [s[0]] + s[1..] && t == [t[0]] + t[1..];
    }
  }

  lemma ByteTells(x: bv8, y: bv8)
    requires Bits(Wide(x), 8) == Bits(Wide(y), 8)
    ensures x == y
  {
    hide Bits, Crc, Divided, Invert;
    assert AllBits([x]) == Bits(Wide(x), 8) && AllBits([y]) == Bits(Wide(y), 8);
    assert Crc(0, [x]) == Crc(0, [y]) by { SameBitsSameCrc(0, [x], [y]); }
    assert [] + [x] + [] == [x] && [] + [y] + [] == [y];
    if x != y { DamageShows(0, [], x, y, []); }
  }

  lemma SameBitsSameCrc(c: bv32, s: seq<bv8>, t: seq<bv8>)
    requires AllBits(s) == AllBits(t)
    ensures Crc(c, s) == Crc(c, t)
  {
    hide Divided, AllBits, Invert;
  }

  // Two messages of one length that differ only within 32 bits in a row.
  ghost predicate Burst(s: seq<bv8>, t: seq<bv8>, i: nat, n: nat) {
    && |s| == |t| && n <= 32 && i + n <= |AllBits(s)| && |AllBits(t)| == |AllBits(s)|
    && AllBits(s)[..i] == AllBits(t)[..i] && AllBits(s)[i + n..] == AllBits(t)[i + n..]
  }

  // Damage within 32 bits in a row never goes unnoticed.
  lemma BurstShows(c: bv32, s: seq<bv8>, t: seq<bv8>, i: nat, n: nat)
    requires s != t && Burst(s, t, i, n)
    ensures Crc(c, s) != Crc(c, t)
  {
    hide AllBits, Divided, Invert, IsBit;
    var a, b := AllBits(s), AllBits(t);
    var u, v := a[i..i + n], b[i..i + n];
    AllAreBits(s);
    AllAreBits(t);
    if Crc(c, s) == Crc(c, t) {
      InvertTwice(Divided(Invert(c), a));
      InvertTwice(Divided(Invert(c), b));
      InThree(Invert(c), a, i, n);
      InThree(Invert(c), b, i, n);
      var d := Divided(Invert(c), a[..i]);
      DividedKeeps(Divided(d, u), Divided(d, v), a[i + n..]);
      FewBitsKeep(d, u, v);
      assert a == a[..i] + u + a[i + n..] && b == b[..i] + v + b[i + n..];
      BitsTell(s, t);
    }
  }

  lemma InThree(c: bv32, a: seq<bv32>, i: nat, n: nat)
    requires i + n <= |a|
    ensures Divided(c, a) == Divided(Divided(Divided(c, a[..i]), a[i..i + n]), a[i + n..])
  {
    hide Divided;
    assert a == a[..i] + a[i..i + n] + a[i + n..];
    DividedAppend(c, a[..i] + a[i..i + n], a[i + n..]);
    DividedAppend(c, a[..i], a[i..i + n]);
  }

  // 33 bits in a row can go unnoticed: these two differ by the polynomial itself.
  lemma LongerBurst()
    ensures Crc(0, [0, 0, 0, 0, 0]) == Crc(0, [0x41, 0x06, 0x71, 0xDB, 0x01])
  {
    hide ByBytes, Divided, AllBits, Shift8;
    var s: seq<bv8>, t: seq<bv8> := [0, 0, 0, 0, 0], [0x41, 0x06, 0x71, 0xDB, 0x01];
    FiveBytes(0xFFFFFFFF, s);
    FiveBytes(0xFFFFFFFF, t);
    BytesDivide(0xFFFFFFFF, s);
    BytesDivide(0xFFFFFFFF, t);
    FiveZeros();
    FivePoly();
  }

  function Step(c: bv32, x: bv8): bv32 {
    Shift8(Xor(c, Wide(x)))
  }

  lemma FiveZeros()
    ensures Step(Step(Step(Step(Step(0xFFFFFFFF, 0), 0), 0), 0), 0) == 0x39dd08e2
  {
    assert Step(0xffffffff, 0x00) == 0x2dfd1072;
    assert Step(0x2dfd1072, 0x00) == 0xbe26ed00;
    assert Step(0xbe26ed00, 0x00) == 0x00be26ed;
    assert Step(0x00be26ed, 0x00) == 0xdebb20e3;
    assert Step(0xdebb20e3, 0x00) == 0x39dd08e2;
  }

  lemma FivePoly()
    ensures Step(Step(Step(Step(Step(0xFFFFFFFF, 0x41), 0x06), 0x71), 0xDB), 0x01) == 0x39dd08e2
  {
    assert Step(0xffffffff, 0x41) == 0x2c266174;
    assert Step(0x2c266174, 0x06) == 0xbe273671;
    assert Step(0xbe273671, 0x71) == 0x00be2736;
    assert Step(0x00be2736, 0xdb) == 0xdebb20e2;
    assert Step(0xdebb20e2, 0x01) == 0x39dd08e2;
  }

  lemma FiveBytes(c: bv32, s: seq<bv8>)
    requires |s| == 5
    ensures ByBytes(c, s) == Step(Step(Step(Step(Step(c, s[0]), s[1]), s[2]), s[3]), s[4])
  {
    hide Shift8, Shifts, Xor, Wide, Step;
    StepOf(c, s);
    StepOf(Step(c, s[0]), s[1..]);
    StepOf(Step(Step(c, s[0]), s[1]), s[2..]);
    StepOf(Step(Step(Step(c, s[0]), s[1]), s[2]), s[3..]);
    StepOf(Step(Step(Step(Step(c, s[0]), s[1]), s[2]), s[3]), s[4..]);
    assert s[1..][1..] == s[2..] && s[2..][1..] == s[3..] && s[3..][1..] == s[4..] && s[4..][1..] == [];
  }

  lemma StepOf(c: bv32, s: seq<bv8>)
    requires s != []
    ensures ByBytes(c, s) == ByBytes(Step(c, s[0]), s[1..])
  {
    hide Shift8, Shifts, Xor, Wide;
    EightShifts(Xor(c, Wide(s[0])));
  }
}
