/**
 The packet scrambling of novintools.c. The bytes after the report id are exchanged in XOR-ed groups of three, keyed
 by the four bytes of the token's serial number.
 */
module PacketScrambler {
  import opened Common

  // ---- Exclusive or ----

  /** Bit by bit, least significant bit last. */
  function XorBits(a: nat, b: nat): nat {
    if a == 0 then b else if b == 0 then a else 2 * XorBits(a / 2, b / 2) + (a + b) % 2
  }

  function Pow2(k: nat): nat {
    if k == 0 then 1 else 2 * Pow2(k - 1)
  }

  lemma {:induction false} XorBelow(a: nat, b: nat, k: nat)
    requires a < Pow2(k) && b < Pow2(k)
    ensures XorBits(a, b) < Pow2(k)
    decreases k
  {
    if a != 0 && b != 0 { XorBelow(a / 2, b / 2, k - 1); }
  }

  function Xor(a: Byte, b: Byte): Byte {
    XorBelow(a, b, 8);
    XorBits(a, b)
  }

  /** The halves of an exclusive or. */
  lemma XorUnfolds(a: nat, b: nat)
    ensures XorBits(a, b) / 2 == XorBits(a / 2, b / 2) && XorBits(a, b) % 2 == (a + b) % 2
  {
    assert XorBits(0, b / 2) == b / 2;
  }

  lemma {:induction false} XorCommutes(a: nat, b: nat)
    ensures XorBits(a, b) == XorBits(b, a)
  {
    if a != 0 && b != 0 { XorCommutes(a / 2, b / 2); }
  }

  lemma ParityAssociates(a: nat, b: nat, c: nat, ab: nat, bc: nat)
    requires ab % 2 == (a + b) % 2 && bc % 2 == (b + c) % 2
    ensures (ab + c) % 2 == (a + bc) % 2
  {
  }

  lemma SameHalves(x: nat, y: nat)
    requires x / 2 == y / 2 && x % 2 == y % 2
    ensures x == y
  {
  }

  lemma {:induction false} XorAssociates(a: nat, b: nat, c: nat)
    ensures XorBits(XorBits(a, b), c) == XorBits(a, XorBits(b, c))
    decreases a
  {
    if a != 0 && b != 0 && c != 0 {
      var ab, bc := XorBits(a, b), XorBits(b, c);
      var l, r := XorBits(ab, c), XorBits(a, bc);
      assert l / 2 == r / 2 by {
        XorAssociates(a / 2, b / 2, c / 2);
        XorUnfolds(a, b);
        XorUnfolds(b, c);
        XorUnfolds(ab, c);
        XorUnfolds(a, bc);
      }
      assert l % 2 == r % 2 by {
        XorUnfolds(a, b);
        XorUnfolds(b, c);
        XorUnfolds(ab, c);
        XorUnfolds(a, bc);
        ParityAssociates(a, b, c, ab, bc);
      }
      SameHalves(l, r);
    }
  }

  lemma {:induction false} XorSelf(a: nat)
    ensures XorBits(a, a) == 0
  {
    if a != 0 { XorSelf(a / 2); }
  }

  lemma XorCancels(a: Byte, b: Byte)
    ensures Xor(Xor(a, b), b) == a && Xor(b, Xor(a, b)) == a && Xor(Xor(b, a), b) == a && Xor(a, Xor(a, b)) == b
  {
    XorAssociates(a, b, b);
    XorAssociates(a, a, b);
    XorSelf(a);
    XorSelf(b);
    XorCommutes(a, b);
    XorCommutes(b, XorBits(a, b));
  }

  /** Bit `k` of a number. */
  function Bit(a: nat, k: nat): nat
    decreases k
  {
    if k == 0 then a % 2 else Bit(a / 2, k - 1)
  }

  /** A bit of an exclusive or is set if and only if it is set in one of the two and not in the other. */
  lemma {:induction false} XorBit(a: nat, b: nat, k: nat)
    ensures Bit(XorBits(a, b), k) == 1 <==> Bit(a, k) != Bit(b, k)
    decreases k
  {
    XorUnfolds(a, b);
    if k > 0 { XorBit(a / 2, b / 2, k - 1); }
  }

  /** A number with these halves is the complement of `a` among the numbers below `p + p`. */
  lemma ComplementHalves(a: nat, p: nat, x: nat)
    requires a < p + p && x / 2 == p - 1 - a / 2 && x % 2 == (a + (p + p - 1)) % 2
    ensures x == p + p - 1 - a
  {
    SameHalves(x, p + p - 1 - a);
  }

  lemma {:induction false} XorOnes(a: nat, k: nat)
    requires a < Pow2(k)
    ensures XorBits(a, Pow2(k) - 1) == Pow2(k) - 1 - a
    decreases k
  {
    if k > 0 {
      var p := Pow2(k - 1);
      assert Pow2(k) == p + p;
      XorOnes(a / 2, k - 1);
      XorUnfolds(a, p + p - 1);
      assert (p + p - 1) / 2 == p - 1;
      ComplementHalves(a, p, XorBits(a, p + p - 1));
    }
  }

  lemma Complement(b: Byte)
    ensures Xor(b, 0xFF) == 255 - b
  {
    assert Pow2(8) == 256;
    XorOnes(b, 8);
  }

  // ---- The key schedule ----

  type TableIndex = n: nat | n < 64

  type Serial = s: seq<Byte> | |s| == 4 witness [0, 0, 0, 0]

  /** The table `SecretIndex`. */
  function SecretIndex(n: TableIndex): int {
    match n
    case 0 => 1 case 1 => 3 case 2 => 1 case 3 => 6 case 4 => 2 case 5 => 3 case 6 => 4 case 7 => 4
    case 8 => 5 case 9 => 6 case 10 => 7 case 11 => 8 case 12 => 9 case 13 => 8 case 14 => 7 case 15 => 7
    case 16 => 6 case 17 => 5 case 18 => 4 case 19 => 3 case 20 => 2 case 21 => 1 case 22 => 0 case 23 => 1
    case 24 => 2 case 25 => 3 case 26 => 4 case 27 => 5 case 28 => 6 case 29 => 7 case 30 => 8 case 31 => 9
    case 32 => 7 case 33 => 9 case 34 => 1 case 35 => 11 case 36 => 2 case 37 => 3 case 38 => 4 case 39 => 11
    case 40 => 5 case 41 => 6 case 42 => 7 case 43 => 8 case 44 => 9 case 45 => 0 case 46 => 1 case 47 => 11
    case 48 => 2 case 49 => 3 case 50 => 4 case 51 => 5 case 52 => 6 case 53 => 7 case 54 => 8 case 55 => 9
    case 56 => 0 case 57 => 1 case 58 => 2 case 59 => 3 case 60 => 4 case 61 => 5 case 62 => 6 case _ => 14
  }

  /** The number of groups in the longest packet, and in a reply. */
  const GROUPS: nat := 12
  const REPLY_GROUPS: nat := 5

  type GroupIndex = i: nat | i < GROUPS

  /** The byte of the serial that keys group `i`. */
  function KeyIndex(i: GroupIndex): int {
    match i
    case 0 => (SecretIndex(0) - 1) * 2 + 1 - 1
    case 1 => (SecretIndex(1) - 2) * 2 + 1 - 2
    case 2 => (SecretIndex(3) - 3) * 2 + 1 - 4
    case 3 => (SecretIndex(7) - 4) * 2 + 1 - 1
    case 4 => (SecretIndex(15) - 5) * 2 + 1 - 3
    case 5 => (SecretIndex(31) - 6) * 2 + 1 - 4
    case 6 => (SecretIndex(32) - 7) * 2 + 1 - 1
    case 7 => (SecretIndex(33) - 8) * 2 + 1 - 2
    case 8 => (SecretIndex(35) - 9) * 2 + 1 - 3
    case 9 => (SecretIndex(39) - 10) * 2 + 1 - 2
    case 10 => (SecretIndex(47) - 11) * 2 + 1 - 1
    case _ => (SecretIndex(63) - 12) * 2 + 1 - 3
  }

  /** Every index the scrambler computes is one of a four-byte serial; the unsigned arithmetic never goes below zero. */
  lemma KeyIndexInSerial(i: GroupIndex)
    ensures 0 <= KeyIndex(i) < 4
  {
  }

  /** What the serial contributes: two header masks in each direction and one mask for each group. */
  datatype Masks = Masks(request0: Byte, request1: Byte, reply0: Byte, reply1: Byte, groups: seq<Byte>)

  type Key = m: Masks | |m.groups| == GROUPS witness Masks(0, 0, 0, 0, [0, 0, 0, 0, 0, 0, 0, 0, 0, 0, 0, 0])

  function KeyOf(serial: Serial): Key {
    Masks(Xor(Xor(serial[2], serial[3]), 0xFF), Xor(serial[0], serial[1]),
          Xor(Xor(serial[0], serial[2]), 0xFF), Xor(Xor(serial[1], serial[3]), 0xFF),
          seq(GROUPS, i requires 0 <= i < GROUPS => KeyIndexInSerial(i); Xor(serial[KeyIndex(i)], 0xFF)))
  }

  lemma GroupMask(serial: Serial, i: nat)
    requires i < 12
    ensures KeyOf(serial).groups[i] == 255 - serial[[0, 1, 3, 0, 2, 3, 0, 1, 2, 1, 0, 2][i]]
    ensures i < 5 ==> [0, 1, 3, 0, 2, 3, 0, 1, 2, 1, 0, 2][i] == [0, 1, 3, 0, 2][i]
  {
    KeyIndexInSerial(i);
    Complement(serial[KeyIndex(i)]);
    assert KeyIndex(i) == [0, 1, 3, 0, 2, 3, 0, 1, 2, 1, 0, 2][i];
  }

  /** What the arithmetic on the table comes to: the masks of the groups and of the header bytes. */
  lemma KeyMasks(serial: Serial)
    ensures var key := KeyOf(serial);
            && (forall i :: 0 <= i < 12 ==> key.groups[i] == 255 - serial[[0, 1, 3, 0, 2, 3, 0, 1, 2, 1, 0, 2][i]])
            && key.request0 == 255 - Xor(serial[2], serial[3]) && key.request1 == Xor(serial[0], serial[1])
            && key.reply0 == 255 - Xor(serial[0], serial[2]) && key.reply1 == 255 - Xor(serial[1], serial[3])
  {
    var key := KeyOf(serial);
    forall i | 0 <= i < 12 ensures key.groups[i] == 255 - serial[[0, 1, 3, 0, 2, 3, 0, 1, 2, 1, 0, 2][i]] {
      GroupMask(serial, i);
    }
    Complement(Xor(serial[2], serial[3]));
    Complement(Xor(serial[0], serial[2]));
    Complement(Xor(serial[1], serial[3]));
  }

  // ---- What the scrambler computes ----

  /** The lengths that consist of the two header bytes and whole groups. */
  predicate Grouped(n: nat) {
    n >= 2 && (n - 2) % 3 == 0 && (n - 2) / 3 <= GROUPS
  }

  type Payload = b: seq<Byte> | Grouped(|b|) witness [0, 0]

  function ScrambledByte(b: Payload, key: Key, k: nat): Byte
    requires k < |b|
  {
    if k == 0 then Xor(b[0], key.request0)
    else if k == 1 then Xor(b[1], key.request1)
    else if (k - 2) % 3 == 2 then Xor(b[k], key.groups[(k - 2) / 3])
    else Xor(b[k], b[k + 1])
  }

  /** What `_encrypt_packet` makes of a payload. */
  function Scramble(b: Payload, key: Key): (r: Payload)
    ensures |r| == |b| && forall k :: 0 <= k < |b| ==> r[k] == ScrambledByte(b, key, k)
  {
    seq(|b|, k requires 0 <= k < |b| => ScrambledByte(b, key, k))
  }

  /** A byte of a group, recovered from the end of the group backwards. */
  function GroupByte(b: Payload, key: Key, k: nat): Byte
    requires 2 <= k < |b|
    decreases |b| - k
  {
    if (k - 2) % 3 == 2 then Xor(b[k], key.groups[(k - 2) / 3])
    else Xor(b[k], GroupByte(b, key, k + 1))
  }

  function Unmask(b: Payload, key: Key, mask0: Byte, mask1: Byte): (r: Payload)
    ensures |r| == |b| && r[0] == Xor(b[0], mask0) && r[1] == Xor(b[1], mask1)
    ensures forall k :: 2 <= k < |b| ==> r[k] == GroupByte(b, key, k)
  {
    [Xor(b[0], mask0), Xor(b[1], mask1)] + seq(|b| - 2, k requires 0 <= k < |b| - 2 => GroupByte(b, key, k + 2))
  }

  /** The token's side of a request. */
  function Unscramble(b: Payload, key: Key): Payload {
    Unmask(b, key, key.request0, key.request1)
  }

  /** What `_decrypt_packet` makes of a reply: the groups are undone, the header bytes have masks of their own. */
  function Decrypt(b: Payload, key: Key): Payload {
    Unmask(b, key, key.reply0, key.reply1)
  }

  lemma {:induction false} GroupByteOfScrambled(b: Payload, key: Key, k: nat)
    requires 2 <= k < |b|
    ensures GroupByte(Scramble(b, key), key, k) == b[k]
    decreases |b| - k
  {
    if (k - 2) % 3 == 2 {
      XorCancels(b[k], key.groups[(k - 2) / 3]);
    } else {
      GroupByteOfScrambled(b, key, k + 1);
      XorCancels(b[k], b[k + 1]);
    }
  }

  /** The token recovers every payload, whatever the serial. */
  lemma UnscrambleScramble(b: Payload, key: Key)
    ensures Unscramble(Scramble(b, key), key) == b
  {
    XorCancels(b[0], key.request0);
    XorCancels(b[1], key.request1);
    forall k | 2 <= k < |b| ensures Unscramble(Scramble(b, key), key)[k] == b[k] {
      GroupByteOfScrambled(b, key, k);
    }
  }

  lemma ScrambledGroupByte(b: Payload, key: Key, k: nat)
    requires 2 <= k < |b|
    ensures ScrambledByte(Unscramble(b, key), key, k) == b[k]
  {
    var u := Unscramble(b, key);
    if (k - 2) % 3 == 2 {
      XorCancels(b[k], key.groups[(k - 2) / 3]);
    } else {
      XorCancels(b[k], u[k + 1]);
    }
  }

  /** Every buffer is the scrambling of some payload, so the scrambler is a bijection. */
  lemma ScrambleUnscramble(b: Payload, key: Key)
    ensures Scramble(Unscramble(b, key), key) == b
  {
    XorCancels(b[0], key.request0);
    XorCancels(b[1], key.request1);
    forall k | 2 <= k < |b| ensures Scramble(Unscramble(b, key), key)[k] == b[k] {
      ScrambledGroupByte(b, key, k);
    }
  }

  /** How the token scrambles a reply: like a request, with header masks of its own. */
  function ReplyKey(key: Key): Key {
    key.(request0 := key.reply0, request1 := key.reply1)
  }

  lemma {:induction false} GroupByteOfReply(b: Payload, key: Key, k: nat)
    requires 2 <= k < |b|
    ensures GroupByte(b, ReplyKey(key), k) == GroupByte(b, key, k)
    decreases |b| - k
  {
    if (k - 2) % 3 != 2 { GroupByteOfReply(b, key, k + 1); }
  }

  /** `_decrypt_packet` recovers every reply. */
  lemma DecryptReply(b: Payload, key: Key)
    ensures Decrypt(Scramble(b, ReplyKey(key)), key) == b
  {
    var sent := Scramble(b, ReplyKey(key));
    UnscrambleScramble(b, ReplyKey(key));
    forall k | 2 <= k < |b| ensures Decrypt(sent, key)[k] == b[k] {
      GroupByteOfReply(sent, key, k);
      GroupByteOfScrambled(b, ReplyKey(key), k);
    }
  }

  /** Cutting a packet at a group boundary, as every report length does, commutes with scrambling it. */
  lemma ScrambleTruncates(b: Payload, key: Key, n: nat)
    requires Grouped(n) && n <= |b|
    ensures Scramble(b, key)[..n] == Scramble(b[..n], key)
  {
    forall k | 0 <= k < n ensures ScrambledByte(b, key, k) == ScrambledByte(b[..n], key, k) {
    }
  }

  /** `ReportLength`, by report id; the first byte of a report is its id. */
  const REPORT_LENGTH: seq<nat> := [0, 3, 18, 27, 39]

  lemma ReportLengthsAreGrouped(id: nat)
    requires 1 <= id <= 4
    ensures 1 <= REPORT_LENGTH[id] <= 39 && Grouped(REPORT_LENGTH[id] - 1)
    ensures REPORT_LENGTH[id] - 1 == 2 + 3 * match id case 1 => 0 case 2 => 5 case 3 => 8 case _ => 12
  {
    assert id == 1 || id == 2 || id == 3 || id == 4;
  }

  lemma DecryptsGroups(b: Payload, key: Key)
    ensures var d := Decrypt(Scramble(b, key), key);
            && d[0] == Xor(Xor(b[0], key.request0), key.reply0)
            && d[1] == Xor(Xor(b[1], key.request1), key.reply1)
            && d[2..] == b[2..]
  {
    forall k | 2 <= k < |b| ensures Decrypt(Scramble(b, key), key)[k] == b[k] {
      GroupByteOfScrambled(b, key, k);
    }
  }

  /** A byte that occurs twice in a sum drops out. */
  lemma XorCollapses(x: Byte, y: Byte, z: Byte)
    ensures Xor(Xor(x, y), Xor(y, z)) == Xor(x, z)
  {
    XorAssociates(x, y, XorBits(y, z));
    XorAssociates(y, y, z);
    XorSelf(y);
  }

  lemma HeaderMask0(b: Byte, serial: Serial)
    ensures Xor(Xor(b, KeyOf(serial).request0), KeyOf(serial).reply0) == Xor(b, Xor(serial[0], serial[3]))
  {
    var low, high := Xor(serial[2], serial[3]), Xor(serial[0], serial[2]);
    XorAssociates(b, KeyOf(serial).request0, KeyOf(serial).reply0);
    XorCommutes(high, 0xFF);
    XorCollapses(low, 0xFF, high);
    XorCommutes(low, high);
    XorCollapses(serial[0], serial[2], serial[3]);
  }

  lemma HeaderMask1(b: Byte, serial: Serial)
    ensures Xor(Xor(b, KeyOf(serial).request1), KeyOf(serial).reply1) == Xor(b, Xor(Xor(serial[0], serial[3]), 0xFF))
  {
    var low, high := Xor(serial[0], serial[1]), Xor(serial[1], serial[3]);
    XorAssociates(b, low, KeyOf(serial).reply1);
    XorAssociates(low, high, 0xFF);
    XorCollapses(serial[0], serial[1], serial[3]);
  }

  /**
   The two directions do not undo each other: decrypting an encrypted packet restores all of the groups, but leaves
   the header bytes masked with the first and the last byte of the serial.
   */
  lemma DecryptAfterEncrypt(b: Payload, serial: Serial)
    ensures Decrypt(Scramble(b, KeyOf(serial)), KeyOf(serial))
            == [Xor(b[0], Xor(serial[0], serial[3])), Xor(b[1], Xor(Xor(serial[0], serial[3]), 0xFF))] + b[2..]
  {
    var d := Decrypt(Scramble(b, KeyOf(serial)), KeyOf(serial));
    DecryptsGroups(b, KeyOf(serial));
    assert d == [d[0], d[1]] + d[2..];
    HeaderMask0(b[0], serial);
    HeaderMask1(b[1], serial);
  }

  // ---- Byte by byte ----

  /** The two header bytes have masks of the whole serial; in a group, each byte masks the one before it. */
  ghost predicate Encrypted(b: seq<Byte>, r: seq<Byte>, serial: Serial)
    requires |b| == |r| == 38
  {
    && r[0] == Xor(b[0], 255 - Xor(serial[2], serial[3]))
    && r[1] == Xor(b[1], Xor(serial[0], serial[1]))
    && forall i :: 0 <= i < 12 ==>
         && r[3 * i + 2] == Xor(b[3 * i + 2], b[3 * i + 3])
         && r[3 * i + 3] == Xor(b[3 * i + 3], b[3 * i + 4])
         && r[3 * i + 4] == Xor(b[3 * i + 4], 255 - serial[[0, 1, 3, 0, 2, 3, 0, 1, 2, 1, 0, 2][i]])
  }

  /** The other way round, from the end of each group, with masks of their own for the header bytes. */
  ghost predicate Decrypted(b: seq<Byte>, r: seq<Byte>, serial: Serial)
    requires |b| == |r| == 17
  {
    && r[0] == Xor(b[0], 255 - Xor(serial[0], serial[2]))
    && r[1] == Xor(b[1], 255 - Xor(serial[1], serial[3]))
    && forall i :: 0 <= i < 5 ==>
         && r[3 * i + 4] == Xor(b[3 * i + 4], 255 - serial[[0, 1, 3, 0, 2][i]])
         && r[3 * i + 3] == Xor(b[3 * i + 3], r[3 * i + 4])
         && r[3 * i + 2] == Xor(b[3 * i + 2], r[3 * i + 3])
  }

  lemma EncryptedBytes(b: Payload, serial: Serial)
    requires |b| == 38
    ensures Encrypted(b, Scramble(b, KeyOf(serial)), serial)
  {
    KeyMasks(serial);
    var key := KeyOf(serial);
    forall i | 0 <= i < 12
      ensures ScrambledByte(b, key, 3 * i + 2) == Xor(b[3 * i + 2], b[3 * i + 3])
      ensures ScrambledByte(b, key, 3 * i + 3) == Xor(b[3 * i + 3], b[3 * i + 4])
      ensures ScrambledByte(b, key, 3 * i + 4)
              == Xor(b[3 * i + 4], 255 - serial[[0, 1, 3, 0, 2, 3, 0, 1, 2, 1, 0, 2][i]])
    {
      GroupPositions(i);
      GroupMask(serial, i);
    }
  }

  lemma DecryptedGroup(b: Payload, serial: Serial, i: nat, r: seq<Byte>)
    requires |b| == 17 && i < 5 && r == Decrypt(b, KeyOf(serial))
    ensures r[3 * i + 4] == Xor(b[3 * i + 4], 255 - serial[[0, 1, 3, 0, 2][i]])
    ensures r[3 * i + 3] == Xor(b[3 * i + 3], r[3 * i + 4]) && r[3 * i + 2] == Xor(b[3 * i + 2], r[3 * i + 3])
  {
    GroupUnfolds(b, KeyOf(serial), i);
    GroupMask(serial, i);
  }

  lemma DecryptedBytes(b: Payload, serial: Serial)
    requires |b| == 17
    ensures Decrypted(b, Decrypt(b, KeyOf(serial)), serial)
  {
    var r := Decrypt(b, KeyOf(serial));
    KeyMasks(serial);
    forall i | 0 <= i < 5
      ensures r[3 * i + 4] == Xor(b[3 * i + 4], 255 - serial[[0, 1, 3, 0, 2][i]])
      ensures r[3 * i + 3] == Xor(b[3 * i + 3], r[3 * i + 4]) && r[3 * i + 2] == Xor(b[3 * i + 2], r[3 * i + 3])
    {
      DecryptedGroup(b, serial, i, r);
    }
  }

  // ---- The buffers, changed in place ----

  lemma GroupPositions(i: nat)
    ensures (3 * i) / 3 == i && (3 * i) % 3 == 0
    ensures (3 * i + 1) / 3 == i && (3 * i + 1) % 3 == 1
    ensures (3 * i + 2) / 3 == i && (3 * i + 2) % 3 == 2
  {
  }

  /** The two header bytes. */
  function Header(b: seq<Byte>, at: nat, mask0: Byte, mask1: Byte): seq<Byte>
    requires at + 1 < |b|
  {
    b[at := Xor(b[at], mask0)][at + 1 := Xor(b[at + 1], mask1)]
  }

  /** One group on its way out, and `n` of them one after the other. */
  function GroupOut(b: seq<Byte>, k: nat, mask: Byte): seq<Byte>
    requires k + 2 < |b|
  {
    b[k := Xor(b[k], b[k + 1])][k + 1 := Xor(b[k + 1], b[k + 2])][k + 2 := Xor(b[k + 2], mask)]
  }

  function GroupsOut(b: seq<Byte>, at: nat, key: Key, n: nat): (r: seq<Byte>)
    requires n <= GROUPS && at + 2 + 3 * n <= |b|
    ensures |r| == |b|
    decreases n, |b|
  {
    if n == 0 then b
    else
      var i := n - 1;
      GroupOut(GroupsOut(b, at, key, i), at + 3 * i + 2, key.groups[i])
  }

  /** One group on its way in, and `n` of them. */
  function GroupIn(b: seq<Byte>, k: nat, mask: Byte): seq<Byte>
    requires k + 2 < |b|
  {
    var last := Xor(b[k + 2], mask);
    var middle := Xor(b[k + 1], last);
    b[k + 2 := last][k + 1 := middle][k := Xor(b[k], middle)]
  }

  function GroupsIn(b: seq<Byte>, at: nat, key: Key, n: nat): (r: seq<Byte>)
    requires n <= GROUPS && at + 2 + 3 * n <= |b|
    ensures |r| == |b|
    decreases n, |b|
  {
    if n == 0 then b
    else
      var i := n - 1;
      GroupIn(GroupsIn(b, at, key, i), at + 3 * i + 2, key.groups[i])
  }

  /** `_encrypt_packet`, in place on the 38 bytes from `at` on. */
  method EncryptPacket(buff: array<Byte>, at: nat, serial: Serial)
    requires at + 38 <= buff.Length
    modifies buff
    ensures var was := old(buff[..]);
            buff[..] == was[..at] + Scramble(was[at..at + 38], KeyOf(serial)) + was[at + 38..]
    ensures Encrypted(old(buff[at..at + 38]), buff[at..at + 38], serial)
  {
    var key := KeyOf(serial);
    ghost var was := buff[..];
    MaskHeader(buff, at, key.request0, key.request1);
    ScrambleGroups(buff, at, key);
    OutIsScramble(was, at, key);
    EncryptedBytes(was[at..at + 38], serial);
    assert buff[at..at + 38] == Scramble(was[at..at + 38], key);
  }

  method MaskHeader(buff: array<Byte>, at: nat, mask0: Byte, mask1: Byte)
    requires at + 1 < buff.Length
    modifies buff
    ensures buff[..] == Header(old(buff[..]), at, mask0, mask1)
  {
    buff[at] := Xor(buff[at], mask0);
    buff[at + 1] := Xor(buff[at + 1], mask1);
  }

  /** The loop over the groups of the longest packet. */
  method ScrambleGroups(buff: array<Byte>, at: nat, key: Key)
    requires at + 38 <= buff.Length
    modifies buff
    ensures buff[..] == GroupsOut(old(buff[..]), at, key, 12)
  {
    var i := 0;
    while i < 12
      invariant 0 <= i <= 12 && buff[..] == GroupsOut(old(buff[..]), at, key, i)
    {
      var k := at + (i + 1) * 3 - 1;
      ScrambleGroup(buff, k, key.groups[i]);
      i := i + 1;
    }
  }

  method ScrambleGroup(buff: array<Byte>, k: nat, tmp: Byte)
    requires k + 2 < buff.Length
    modifies buff
    ensures buff[..] == GroupOut(old(buff[..]), k, tmp)
  {
    buff[k] := Xor(buff[k], buff[k + 1]);
    buff[k + 1] := Xor(buff[k + 1], buff[k + 2]);
    buff[k + 2] := Xor(buff[k + 2], tmp);
  }

  /** The groups leave everything outside them alone. */
  lemma {:induction false} GroupsOutOutside(b: seq<Byte>, at: nat, key: Key, n: nat, j: nat)
    requires n <= GROUPS && at + 2 + 3 * n <= |b| && j < |b| && !(at + 2 <= j < at + 2 + 3 * n)
    ensures GroupsOut(b, at, key, n)[j] == b[j]
  {
    if n > 0 { GroupsOutOutside(b, at, key, n - 1, j); }
  }

  /** What the first `n` groups make of byte `k` of group `i`. */
  lemma {:induction false} GroupsOutAt(b: seq<Byte>, at: nat, key: Key, n: nat, i: nat, k: nat)
    requires i < n <= GROUPS && at + 2 + 3 * n <= |b| && k < 3
    ensures GroupsOut(b, at, key, n)[at + 3 * i + 2 + k]
            == Xor(b[at + 3 * i + 2 + k], if k == 2 then key.groups[i] else b[at + 3 * i + 2 + k + 1])
  {
    if i == n - 1 {
      GroupsOutOutside(b, at, key, i, at + 3 * i + 2);
      GroupsOutOutside(b, at, key, i, at + 3 * i + 3);
      GroupsOutOutside(b, at, key, i, at + 3 * i + 4);
      assert k == 0 || k == 1 || k == 2;
    } else {
      GroupsOutAt(b, at, key, n - 1, i, k);
    }
  }

  lemma OutIsScramble(was: seq<Byte>, at: nat, key: Key)
    requires at + 38 <= |was|
    ensures GroupsOut(Header(was, at, key.request0, key.request1), at, key, 12)
            == was[..at] + Scramble(was[at..at + 38], key) + was[at + 38..]
  {
    var start := Header(was, at, key.request0, key.request1);
    var r, s := GroupsOut(start, at, key, 12), was[..at] + Scramble(was[at..at + 38], key) + was[at + 38..];
    forall j | 0 <= j < |was| ensures r[j] == s[j] {
      if at + 2 <= j < at + 38 {
        GroupsOutAt(start, at, key, 12, (j - at - 2) / 3, (j - at - 2) % 3);
      } else {
        GroupsOutOutside(start, at, key, 12, j);
      }
      if at <= j < at + 38 { assert s[j] == ScrambledByte(was[at..at + 38], key, j - at); }
    }
  }

  /** `_decrypt_packet`, in place on the 17 bytes from `at` on. */
  method DecryptPacket(buff: array<Byte>, at: nat, serial: Serial)
    requires at + 17 <= buff.Length
    modifies buff
    ensures var was := old(buff[..]);
            buff[..] == was[..at] + Decrypt(was[at..at + 17], KeyOf(serial)) + was[at + 17..]
    ensures Decrypted(old(buff[at..at + 17]), buff[at..at + 17], serial)
  {
    var key := KeyOf(serial);
    ghost var was := buff[..];
    MaskHeader(buff, at, key.reply0, key.reply1);
    UnscrambleGroups(buff, at, key);
    InIsDecrypt(was, at, key);
    DecryptedBytes(was[at..at + 17], serial);
    assert buff[at..at + 17] == Decrypt(was[at..at + 17], key);
  }

  /** The loop over the groups of a reply. */
  method UnscrambleGroups(buff: array<Byte>, at: nat, key: Key)
    requires at + 17 <= buff.Length
    modifies buff
    ensures buff[..] == GroupsIn(old(buff[..]), at, key, 5)
  {
    var i := 0;
    while i < 5
      invariant 0 <= i <= 5 && buff[..] == GroupsIn(old(buff[..]), at, key, i)
    {
      var k := at + (i + 1) * 3 - 1;
      UnscrambleGroup(buff, k, key.groups[i]);
      i := i + 1;
    }
  }

  method UnscrambleGroup(buff: array<Byte>, k: nat, tmp: Byte)
    requires k + 2 < buff.Length
    modifies buff
    ensures buff[..] == GroupIn(old(buff[..]), k, tmp)
  {
    buff[k + 2] := Xor(buff[k + 2], tmp);
    buff[k + 1] := Xor(buff[k + 1], buff[k + 2]);
    buff[k] := Xor(buff[k], buff[k + 1]);
  }

  lemma GroupUnfolds(b: Payload, key: Key, i: nat)
    requires 2 + 3 * i + 2 < |b|
    ensures var k := 2 + 3 * i;
            && GroupByte(b, key, k + 2) == Xor(b[k + 2], key.groups[i])
            && GroupByte(b, key, k + 1) == Xor(b[k + 1], GroupByte(b, key, k + 2))
            && GroupByte(b, key, k) == Xor(b[k], GroupByte(b, key, k + 1))
  {
    GroupPositions(i);
  }

  /** The groups leave everything outside them alone. */
  lemma {:induction false} GroupsInOutside(b: seq<Byte>, at: nat, key: Key, n: nat, j: nat)
    requires n <= REPLY_GROUPS && at + 17 <= |b| && j < |b| && !(at + 2 <= j < at + 2 + 3 * n)
    ensures GroupsIn(b, at, key, n)[j] == b[j]
  {
    if n > 0 { GroupsInOutside(b, at, key, n - 1, j); }
  }

  /** One group, undone from its end. */
  lemma GroupInIsDecrypt(before: seq<Byte>, at: nat, key: Key, i: nat, c: seq<Byte>)
    requires i < REPLY_GROUPS && at + 17 <= |before| && |c| == 17
    requires before[at + 3 * i + 2..at + 3 * i + 5] == c[3 * i + 2..3 * i + 5]
    ensures GroupIn(before, at + 3 * i + 2, key.groups[i])[at + 3 * i + 2..at + 3 * i + 5]
            == [GroupByte(c, key, 3 * i + 2), GroupByte(c, key, 3 * i + 3), GroupByte(c, key, 3 * i + 4)]
  {
    var b, k, m := before[at + 3 * i + 2..at + 3 * i + 5], at + 3 * i + 2, 3 * i + 2;
    assert b[0] == before[k] && b[1] == before[k + 1] && b[2] == before[k + 2];
    assert b[0] == c[m] && b[1] == c[m + 1] && b[2] == c[m + 2];
    GroupUnfolds(c, key, i);
  }

  /** The group behind the first `i`, whose bytes those have left alone. */
  lemma NextGroupIn(b: seq<Byte>, at: nat, key: Key, i: nat, c: seq<Byte>)
    requires i < REPLY_GROUPS && at + 17 <= |b| && c == b[at..at + 17]
    ensures GroupsIn(b, at, key, i + 1)[at + 3 * i + 2..at + 3 * i + 5]
            == [GroupByte(c, key, 3 * i + 2), GroupByte(c, key, 3 * i + 3), GroupByte(c, key, 3 * i + 4)]
  {
    var before := GroupsIn(b, at, key, i);
    GroupsInBeyond(b, at, key, i, at + 3 * i + 2, at + 3 * i + 5);
    SliceOfSlice(b, at, at + 17, 3 * i + 2, 3, at + 3 * i + 2);
    GroupInIsDecrypt(before, at, key, i, c);
    assert GroupsIn(b, at, key, i + 1) == GroupIn(before, at + 3 * i + 2, key.groups[i]);
  }

  lemma SliceOfSlice(b: seq<Byte>, from: nat, to: nat, start: nat, n: nat, there: nat)
    requires from <= to <= |b| && start + n <= to - from && there == from + start
    ensures b[from..to][start..start + n] == b[there..there + n]
  {
    var s, t := b[from..to][start..start + n], b[there..there + n];
    forall j | 0 <= j < n ensures s[j] == t[j] {
      assert s[j] == b[from..to][start + j] == b[from + (start + j)] == b[there + j] == t[j];
    }
  }

  lemma GroupsInBeyond(b: seq<Byte>, at: nat, key: Key, n: nat, lo: nat, hi: nat)
    requires n < REPLY_GROUPS && at + 17 <= |b| && at + 2 + 3 * n <= lo <= hi <= |b|
    ensures GroupsIn(b, at, key, n)[lo..hi] == b[lo..hi]
  {
    forall j | lo <= j < hi ensures GroupsIn(b, at, key, n)[j] == b[j] { GroupsInOutside(b, at, key, n, j); }
  }

  /** What the first `n` groups make of the 17 bytes from `at` on. */
  lemma {:induction false} GroupsInAt(b: seq<Byte>, at: nat, key: Key, n: nat, j: nat, c: seq<Byte>)
    requires n <= REPLY_GROUPS && at + 17 <= |b| && c == b[at..at + 17] && 2 <= j < 2 + 3 * n
    ensures GroupsIn(b, at, key, n)[at + j] == GroupByte(c, key, j)
  {
    var i := n - 1;
    if 3 * i + 2 <= j {
      NextGroupIn(b, at, key, i, c);
      var last := GroupsIn(b, at, key, n)[at + 3 * i + 2..at + 3 * i + 5];
      assert GroupsIn(b, at, key, n)[at + j] == last[j - 3 * i - 2];
    } else {
      GroupsInAt(b, at, key, i, j, c);
    }
  }

  /** The header bytes play no part in the groups. */
  lemma {:induction false} GroupByteFromTwo(b: Payload, c: Payload, key: Key, k: nat)
    requires |c| == |b| && 2 <= k < |b| && b[2..] == c[2..]
    ensures GroupByte(b, key, k) == GroupByte(c, key, k)
    decreases |b| - k
  {
    assert b[k] == b[2..][k - 2] && c[k] == c[2..][k - 2];
    if (k - 2) % 3 != 2 { GroupByteFromTwo(b, c, key, k + 1); }
  }

  lemma InIsDecryptAt(was: seq<Byte>, at: nat, key: Key, j: nat)
    requires at + 17 <= |was| && 2 <= j < 17
    ensures var start := Header(was, at, key.reply0, key.reply1);
            GroupsIn(start, at, key, 5)[at + j] == GroupByte(was[at..at + 17], key, j)
  {
    var start, c := Header(was, at, key.reply0, key.reply1), was[at..at + 17];
    GroupsInAt(start, at, key, 5, j, start[at..at + 17]);
    assert start[at..at + 17][2..] == c[2..];
    GroupByteFromTwo(start[at..at + 17], c, key, j);
  }

  lemma InIsDecrypt(was: seq<Byte>, at: nat, key: Key)
    requires at + 17 <= |was|
    ensures GroupsIn(Header(was, at, key.reply0, key.reply1), at, key, 5)
            == was[..at] + Decrypt(was[at..at + 17], key) + was[at + 17..]
  {
    var start, c := Header(was, at, key.reply0, key.reply1), was[at..at + 17];
    var r, s := GroupsIn(start, at, key, 5), was[..at] + Decrypt(c, key) + was[at + 17..];
    forall j | 0 <= j < |was| ensures r[j] == s[j] {
      if at + 2 <= j < at + 17 {
        InIsDecryptAt(was, at, key, j - at);
        assert s[j] == Decrypt(c, key)[j - at];
      } else {
        GroupsInOutside(start, at, key, 5, j);
      }
    }
  }
}
