/** The table-driven CRC-16/XMODEM and the hash slot of a key. */
module Crc16 {

  /** A byte, in a 16-bit word. */
  type Octet = b: bv16 | b < 256 witness 0

  /** The lookup table, sixteen entries a row. */
  const CRC16_TAB: seq<seq<bv16>> :=
    [[0x0000, 0x1021, 0x2042, 0x3063, 0x4084, 0x50a5, 0x60c6, 0x70e7,
      0x8108, 0x9129, 0xa14a, 0xb16b, 0xc18c, 0xd1ad, 0xe1ce, 0xf1ef],
     [0x1231, 0x0210, 0x3273, 0x2252, 0x52b5, 0x4294, 0x72f7, 0x62d6,
      0x9339, 0x8318, 0xb37b, 0xa35a, 0xd3bd, 0xc39c, 0xf3ff, 0xe3de],
     [0x2462, 0x3443, 0x0420, 0x1401, 0x64e6, 0x74c7, 0x44a4, 0x5485,
      0xa56a, 0xb54b, 0x8528, 0x9509, 0xe5ee, 0xf5cf, 0xc5ac, 0xd58d],
     [0x3653, 0x2672, 0x1611, 0x0630, 0x76d7, 0x66f6, 0x5695, 0x46b4,
      0xb75b, 0xa77a, 0x9719, 0x8738, 0xf7df, 0xe7fe, 0xd79d, 0xc7bc],
     [0x48c4, 0x58e5, 0x6886, 0x78a7, 0x0840, 0x1861, 0x2802, 0x3823,
      0xc9cc, 0xd9ed, 0xe98e, 0xf9af, 0x8948, 0x9969, 0xa90a, 0xb92b],
     [0x5af5, 0x4ad4, 0x7ab7, 0x6a96, 0x1a71, 0x0a50, 0x3a33, 0x2a12,
      0xdbfd, 0xcbdc, 0xfbbf, 0xeb9e, 0x9b79, 0x8b58, 0xbb3b, 0xab1a],
     [0x6ca6, 0x7c87, 0x4ce4, 0x5cc5, 0x2c22, 0x3c03, 0x0c60, 0x1c41,
      0xedae, 0xfd8f, 0xcdec, 0xddcd, 0xad2a, 0xbd0b, 0x8d68, 0x9d49],
     [0x7e97, 0x6eb6, 0x5ed5, 0x4ef4, 0x3e13, 0x2e32, 0x1e51, 0x0e70,
      0xff9f, 0xefbe, 0xdfdd, 0xcffc, 0xbf1b, 0xaf3a, 0x9f59, 0x8f78],
     [0x9188, 0x81a9, 0xb1ca, 0xa1eb, 0xd10c, 0xc12d, 0xf14e, 0xe16f,
      0x1080, 0x00a1, 0x30c2, 0x20e3, 0x5004, 0x4025, 0x7046, 0x6067],
     [0x83b9, 0x9398, 0xa3fb, 0xb3da, 0xc33d, 0xd31c, 0xe37f, 0xf35e,
      0x02b1, 0x1290, 0x22f3, 0x32d2, 0x4235, 0x5214, 0x6277, 0x7256],
     [0xb5ea, 0xa5cb, 0x95a8, 0x8589, 0xf56e, 0xe54f, 0xd52c, 0xc50d,
      0x34e2, 0x24c3, 0x14a0, 0x0481, 0x7466, 0x6447, 0x5424, 0x4405],
     [0xa7db, 0xb7fa, 0x8799, 0x97b8, 0xe75f, 0xf77e, 0xc71d, 0xd73c,
      0x26d3, 0x36f2, 0x0691, 0x16b0, 0x6657, 0x7676, 0x4615, 0x5634],
     [0xd94c, 0xc96d, 0xf90e, 0xe92f, 0x99c8, 0x89e9, 0xb98a, 0xa9ab,
      0x5844, 0x4865, 0x7806, 0x6827, 0x18c0, 0x08e1, 0x3882, 0x28a3],
     [0xcb7d, 0xdb5c, 0xeb3f, 0xfb1e, 0x8bf9, 0x9bd8, 0xabbb, 0xbb9a,
      0x4a75, 0x5a54, 0x6a37, 0x7a16, 0x0af1, 0x1ad0, 0x2ab3, 0x3a92],
     [0xfd2e, 0xed0f, 0xdd6c, 0xcd4d, 0xbdaa, 0xad8b, 0x9de8, 0x8dc9,
      0x7c26, 0x6c07, 0x5c64, 0x4c45, 0x3ca2, 0x2c83, 0x1ce0, 0x0cc1],
     [0xef1f, 0xff3e, 0xcf5d, 0xdf7c, 0xaf9b, 0xbfba, 0x8fd9, 0x9ff8,
      0x6e17, 0x7e36, 0x4e55, 0x5e74, 0x2e93, 0x3eb2, 0x0ed1, 0x1ef0]]

  lemma TableShape()
    ensures |CRC16_TAB| == 16 && forall r :: 0 <= r < 16 ==> |CRC16_TAB[r]| == 16
  {
  }

  lemma IndexFits(i: bv16)
    requires i < 256
    ensures 0 <= (i >> 4) as int < 16 && 0 <= (i & 15) as int < 16
  {
  }

  function Entry(i: bv16): bv16
    requires i < 256
  {
    TableShape();
    IndexFits(i);
    CRC16_TAB[(i >> 4) as int][(i & 15) as int]
  }

  /** One bit of the division by x^16 + x^12 + x^5 + 1. */
  function DivideBit(crc: bv16): bv16 {
    if crc & 0x8000 != 0 then (crc << 1) ^ 0x1021 else crc << 1
  }

  function DivideByte(crc: bv16): bv16 {
    DivideBit(DivideBit(DivideBit(DivideBit(DivideBit(DivideBit(DivideBit(DivideBit(crc))))))))
  }

  /** A byte entering at the top of the register. */
  function Enter(crc: bv16, b: Octet): bv16 {
    crc ^ (b << 8)
  }

  /** The bit-serial CRC: each byte enters at the top and is divided out bit by bit. */
  function Serial(data: seq<Octet>): bv16 {
    if data == [] then 0
    else DivideByte(Enter(Serial(data[..|data| - 1]), data[|data| - 1]))
  }

  lemma LowerHalf(i: bv16)
    requires i < 128
    ensures Entry(i) == DivideByte(i << 8)
  {
  }

  lemma UpperHalf(i: bv16)
    requires 128 <= i < 256
    ensures Entry(i) == DivideByte(i << 8)
  {
  }

  /** Every table entry is the remainder of its index, divided bit by bit. */
  lemma EntryIsDivision(i: bv16)
    requires i < 256
    ensures Entry(i) == DivideByte(i << 8)
  {
    if i < 128 {
      LowerHalf(i);
    } else {
      UpperHalf(i);
    }
  }

  /** The table index: the byte combined with the register's top byte. */
  function Index(crc: bv16, b: Octet): (i: bv16)
    ensures i < 256
  {
    ((crc >> 8) ^ b) & 0xFF
  }

  /** One byte of the table-driven loop. */
  function NextCrc(crc: bv16, b: Octet): bv16 {
    (crc << 8) ^ Entry(Index(crc, b))
  }

  /** Division distributes over the two bytes of the register. */
  lemma WordStep(crc: bv16, b: bv16, i: bv16, e: bv16)
    requires b < 256 && i == ((crc >> 8) ^ b) & 0xFF && e == crc ^ (b << 8)
    ensures (crc << 8) ^ DivideByte(i << 8) == DivideByte(e)
  {
  }

  lemma TableStep(crc: bv16, b: Octet)
    ensures (crc << 8) ^ DivideByte(Index(crc, b) << 8) == DivideByte(Enter(crc, b))
  {
    hide DivideByte;
    WordStep(crc, b, Index(crc, b), Enter(crc, b));
  }

  lemma NextDivides(crc: bv16, b: Octet)
    ensures NextCrc(crc, b) == DivideByte(Enter(crc, b))
  {
    hide CRC16_TAB, DivideByte, Entry, Index, Enter;
    EntryIsDivision(Index(crc, b));
    TableStep(crc, b);
  }

  lemma {:induction false} NextIsSerial(data: seq<Octet>, b: Octet)
    ensures NextCrc(Serial(data), b) == Serial(data + [b])
  {
    hide CRC16_TAB, DivideByte, Enter, NextCrc, Serial;
    NextDivides(Serial(data), b);
    SerialSnoc(data, b);
  }

  lemma {:induction false} SerialSnoc(data: seq<Octet>, b: Octet)
    ensures Serial(data + [b]) == DivideByte(Enter(Serial(data), b))
  {
    hide CRC16_TAB, DivideByte, Enter;
    assert (data + [b])[..|data|] == data;
  }

  /** The table-driven loop computes the bit-serial CRC. */
  method Crc16(buf: seq<Octet>) returns (crc: bv16)
    ensures crc == Serial(buf)
  {
    hide CRC16_TAB, DivideByte, Entry, NextCrc;
    crc := 0;
    var counter := 0;
    while counter < |buf|
      invariant 0 <= counter <= |buf| && crc == Serial(buf[..counter])
    {
      NextIsSerial(buf[..counter], buf[counter]);
      assert buf[..counter] + [buf[counter]] == buf[..counter + 1];
      crc := NextCrc(crc, buf[counter]);
      counter := counter + 1;
    }
    assert buf[..counter] == buf;
  }

  /** The value that identifies this CRC among others: that of the digits 1 to 9. */
  lemma CheckValue()
    ensures Serial([0x31, 0x32, 0x33, 0x34, 0x35, 0x36, 0x37, 0x38, 0x39]) == 0x31C3
  {
    hide CRC16_TAB, DivideByte, Enter, Serial;
    var digits: seq<Octet> := [0x31, 0x32, 0x33, 0x34, 0x35, 0x36, 0x37, 0x38, 0x39];
    Nothing();
    assert digits[..0] == [];
    Divisions();
    Digit(digits, 0, 0x0000, 0x31, 0x2672);
    Digit(digits, 1, 0x2672, 0x32, 0x20B5);
    Digit(digits, 2, 0x20B5, 0x33, 0x9752);
    Digit(digits, 3, 0x9752, 0x34, 0xD789);
    Digit(digits, 4, 0xD789, 0x35, 0x546C);
    Digit(digits, 5, 0x546C, 0x36, 0x20E4);
    Digit(digits, 6, 0x20E4, 0x37, 0x86D6);
    Digit(digits, 7, 0x86D6, 0x38, 0x9015);
    Digit(digits, 8, 0x9015, 0x39, 0x31C3);
    assert digits[..9] == digits;
  }

  lemma Nothing()
    ensures Serial([]) == 0
  {
  }

  lemma Divisions()
    ensures DivideByte(Enter(0x0000, 0x31)) == 0x2672 && DivideByte(Enter(0x2672, 0x32)) == 0x20B5 && DivideByte(Enter(0x20B5, 0x33)) == 0x9752
    ensures DivideByte(Enter(0x9752, 0x34)) == 0xD789 && DivideByte(Enter(0xD789, 0x35)) == 0x546C && DivideByte(Enter(0x546C, 0x36)) == 0x20E4
    ensures DivideByte(Enter(0x20E4, 0x37)) == 0x86D6 && DivideByte(Enter(0x86D6, 0x38)) == 0x9015 && DivideByte(Enter(0x9015, 0x39)) == 0x31C3
  {
    hide CRC16_TAB;
  }

  lemma Digit(digits: seq<Octet>, k: nat, crc: bv16, digit: Octet, next: bv16)
    requires k < |digits| && digits[k] == digit && Serial(digits[..k]) == crc && DivideByte(Enter(crc, digit)) == next
    ensures Serial(digits[..k + 1]) == next
  {
    hide CRC16_TAB, DivideByte, Enter, Serial;
    assert digits[..k + 1] == digits[..k] + [digits[k]];
    SerialSnoc(digits[..k], digits[k]);
  }

  function HighByte(c: bv16): Octet {
    c >> 8
  }

  function LowByte(c: bv16): Octet {
    c & 0xFF
  }

  /** A message followed by its own CRC leaves no remainder. */
  lemma {:induction false} SelfChecking(data: seq<Octet>)
    ensures Serial(data + [HighByte(Serial(data)), LowByte(Serial(data))]) == 0
  {
    hide CRC16_TAB, DivideByte, Enter, Serial, HighByte, LowByte;
    var c := Serial(data);
    assert data + [HighByte(c), LowByte(c)] == (data + [HighByte(c)]) + [LowByte(c)];
    SerialSnoc(data, HighByte(c));
    SerialSnoc(data + [HighByte(c)], LowByte(c));
    Residue(c);
  }

  lemma Residue(c: bv16)
    ensures DivideByte(Enter(DivideByte(Enter(c, HighByte(c))), LowByte(c))) == 0
  {
  }

  const OPEN: Octet := 0x7B
  const CLOSE: Octet := 0x7D

  /** The first position of `c` at or after `from`, or the length. */
  function Find(s: seq<Octet>, c: Octet, from: nat): (i: nat)
    requires from <= |s|
    ensures from <= i <= |s| && (i < |s| ==> s[i] == c) && forall j :: from <= j < i ==> s[j] != c
    decreases |s| - from
  {
    if from < |s| && s[from] != c then Find(s, c, from + 1) else from
  }

  /** The part of a key that is hashed: what stands between the first brace and the next closing one, if anything. */
  function HashTag(key: seq<Octet>): seq<Octet> {
    var s := Find(key, OPEN, 0);
    if s == |key| then key
    else
      var e := Find(key, CLOSE, s + 1);
      if e == |key| || e == s + 1 then key else key[s + 1..e]
  }

  /** A checksum's slot. */
  function Slot(crc: bv16): (slot: bv16)
    ensures slot < 16384
  {
    crc & 0x3FFF
  }

  /** The slot is the checksum modulo 16384. */
  lemma SlotIsRemainder(crc: bv16)
    ensures Slot(crc) == crc % 16384
  {
  }

  method FindByte(s: seq<Octet>, c: Octet, from: nat) returns (i: nat)
    requires from <= |s|
    ensures i == Find(s, c, from)
  {
    i := from;
    while i < |s| && s[i] != c
      invariant from <= i <= |s| && Find(s, c, i) == Find(s, c, from)
    {
      i := i + 1;
    }
  }

  /** The slot of a key is the CRC of its hash tag modulo 16384. */
  method KeyHashSlot(key: seq<Octet>) returns (slot: bv16)
    ensures slot == Slot(Serial(HashTag(key))) < 16384
  {
    hide CRC16_TAB, Serial, Find, Slot;
    var s := FindByte(key, OPEN, 0);
    var hashed := key;
    if s < |key| {
      var e := FindByte(key, CLOSE, s + 1);
      if e < |key| && e != s + 1 {
        hashed := key[s + 1..e];
      }
    }
    var crc := Crc16(hashed);
    slot := Slot(crc);
  }

  lemma {:induction false} FindIs(s: seq<Octet>, c: Octet, from: nat, i: nat)
    requires from <= i < |s| && s[i] == c && forall j :: from <= j < i ==> s[j] != c
    ensures Find(s, c, from) == i
    decreases i - from
  {
    if from < i {
      FindIs(s, c, from + 1, i);
    }
  }

  /** Keys that share a non-empty first {tag} are hashed by that tag alone, so they share a slot. */
  lemma TagDecides(before: seq<Octet>, tag: seq<Octet>, after: seq<Octet>)
    requires OPEN !in before && CLOSE !in tag && tag != []
    ensures HashTag(before + [OPEN] + tag + [CLOSE] + after) == tag
  {
    var key := before + [OPEN] + tag + [CLOSE] + after;
    var s, e := |before|, |before| + 1 + |tag|;
    assert forall j :: 0 <= j < s ==> key[j] == before[j];
    assert forall j :: s + 1 <= j < e ==> key[j] == tag[j - s - 1];
    FindIs(key, OPEN, 0, s);
    FindIs(key, CLOSE, s + 1, e);
    assert key[s + 1..e] == tag;
  }

  /** A key is hashed whole exactly when its first opening brace, if any, has no closing one after it, or one right after it. */
  lemma WholeKey(key: seq<Octet>)
    ensures HashTag(key) == key <==>
      forall s :: 0 <= s < |key| && key[s] == OPEN && OPEN !in key[..s] ==>
        CLOSE !in key[s + 1..] || key[s + 1] == CLOSE
  {
    var s := Find(key, OPEN, 0);
    assert forall j :: 0 <= j < s ==> key[..s][j] != OPEN;
    assert forall t :: s < t <= |key| ==> key[..t][s] == key[s];
    if s < |key| {
      var e := Find(key, CLOSE, s + 1);
      assert e < |key| ==> key[s + 1..][e - s - 1] == CLOSE;
      assert e < |key| && e != s + 1 ==> |HashTag(key)| < |key|;
    }
  }
}
