/** Bytes, control codes and fixed-width fields of the UART link. */
module Wire {

  type byte = x: int | 0 <= x < 0x100

  /** The link checksum. Its algorithm is not part of this model: every theorem holds for
      every function from byte strings to bytes. */
  type Checksum = seq<byte> -> byte

  /** A CPU command: its two bytes. */
  datatype Command = Command(first: byte, second: byte)

  const STX: byte := 0x02
  const ETX: byte := 0x03
  const ENQ: byte := 0x05
  const ACK: byte := 0x06
  const NAK: byte := 0x15
  const EXT_LEN: byte := 0xfe

  const CMD_LENGTH := 3
  const EXT_LEN_LENGTH := 3
  const FRAME_NUMBER_LENGTH := 2
  const TOTAL_FRAMES_LENGTH := 2
  const FRAME_FOOTER_LENGTH := 2

  const MIN_FRAME_LENGTH := 5
  const MAX_FRAME_LENGTH := 253
  const MAX_ACTUAL_DATA_LENGTH := 1024
  const MAX_EXTENDED_LENGTH := 1032
  const MAX_FRAMES := 65535

  /** Wrap-around of `uint32_t` arithmetic. */
  function U32(x: int): nat {
    x % 0x1_0000_0000
  }

  /** Bitwise or. */
  function Or(a: nat, b: nat): nat {
    if a == 0 && b == 0 then 0
    else 2 * Or(a / 2, b / 2) + (if a % 2 == 1 || b % 2 == 1 then 1 else 0)
  }

  lemma OrZero(a: nat)
    ensures Or(a, 0) == a
  {
  }

  lemma OrTwo(a: nat)
    ensures Or(a, 2) == if a / 2 % 2 == 1 then a else a + 2
  {
    OrZero(a / 4);
    assert Or(a / 2, 1) == 2 * Or(a / 2 / 2, 0) + 1;
  }

  lemma OrThree(a: nat)
    ensures Or(a, 3) == a - a % 4 + 3
  {
    OrZero(a / 4);
    assert Or(a / 2, 1) == 2 * Or(a / 2 / 2, 0) + 1;
  }

  /** Codebit of a frame that others follow, and of the last frame of a divided message. */
  function MoreFollow(c: byte): byte {
    OrTwo(c);
    Or(c, 0x02)
  }

  function LastOne(c: byte): byte {
    OrThree(c);
    Or(c, 0x03)
  }

  /** What the marks are: bit 1 says that the message is divided, and bit 0 with it that this is the end. */
  lemma MarkBits(c: byte)
    ensures MoreFollow(c) / 4 == c / 4 && MoreFollow(c) / 2 % 2 == 1 && MoreFollow(c) % 2 == c % 2
    ensures LastOne(c) / 4 == c / 4 && LastOne(c) / 2 % 2 == 1 && LastOne(c) % 2 == 1
  {
    OrTwo(c);
    OrThree(c);
  }

  /** Marking accumulates over the frames of a message: only the flags of the last mark show. */
  lemma MarksAccumulate(c: byte)
    ensures MoreFollow(MoreFollow(c)) == MoreFollow(c)
    ensures LastOne(MoreFollow(c)) == LastOne(c)
  {
    OrTwo(c);
    OrTwo(MoreFollow(c));
    OrThree(c);
    OrThree(MoreFollow(c));
  }

  /** Big-endian fields; wider values lose their high bits. */
  function Bytes24(n: nat): (s: seq<byte>)
    ensures |s| == 3
  {
    [n / 0x1_0000 % 0x100, n / 0x100 % 0x100, n % 0x100]
  }

  function Bytes16(n: nat): (s: seq<byte>)
    ensures |s| == 2
  {
    [n / 0x100 % 0x100, n % 0x100]
  }

  function Num24(s: seq<byte>): (n: nat)
    requires |s| == 3
    ensures n < 0x100_0000
  {
    var hi: nat, mid: nat := s[0], s[1];
    hi * 0x1_0000 + mid * 0x100 + s[2]
  }

  function Num16(s: seq<byte>): (n: nat)
    requires |s| == 2
    ensures n < 0x1_0000
  {
    var hi: nat := s[0];
    hi * 0x100 + s[1]
  }

  /** The number that a string of bytes stands for, most significant byte first. */
  function BigEndian(s: seq<byte>): nat {
    if s == [] then 0 else 0x100 * BigEndian(s[..|s| - 1]) + s[|s| - 1]
  }

  lemma FieldsAreBigEndian(s: seq<byte>)
    ensures |s| == 3 ==> BigEndian(s) == Num24(s)
    ensures |s| == 2 ==> BigEndian(s) == Num16(s)
  {
    if |s| == 3 {
      assert s[..2][..1] == s[..1] && s[..1][..0] == [];
      assert BigEndian(s[..1]) == s[0] && BigEndian(s[..2]) == 0x100 * BigEndian(s[..1]) + s[1];
    } else if |s| == 2 {
      assert s[..1][..0] == [];
      assert BigEndian(s[..1]) == s[0];
    }
  }

  lemma FieldsRoundTrip(n: nat)
    ensures Num24(Bytes24(n)) == n % 0x100_0000
    ensures Num16(Bytes16(n)) == n % 0x1_0000
  {
    LowHalf(n);
    LowHalf(n / 0x100);
    HighPart(n);
  }

  lemma LowHalf(n: nat)
    ensures n % 0x1_0000 == n / 0x100 % 0x100 * 0x100 + n % 0x100
    ensures n / 0x1_0000 == n / 0x100 / 0x100
  {
  }

  lemma HighPart(n: nat)
    ensures n % 0x100_0000 == n / 0x100 % 0x1_0000 * 0x100 + n % 0x100
  {
  }

  datatype Option<+T> = None | Some(value: T)

  /** An order in which a loop over a set may visit it. */
  ghost predicate Visits<T(!new)>(order: seq<T>, elements: set<T>) {
    && (forall x :: x in order <==> x in elements)
    && (forall i, j :: 0 <= i < j < |order| ==> order[i] != order[j])
  }
}
