/** The key fetches of novintools.c as they run: on a packet buffer and a scratch buffer that are changed in place. */
module TokenPorts {
  import opened Common
  import opened PacketScrambler
  import opened KeyTransfer

  method ReceiveReport(result: array<Byte>, at: nat, report: seq<Byte>)
    requires InBounds(at, result.Length) && |report| <= 18 && at < result.Length && result[at] == REPLY_REPORT
    modifies result
    ensures at + 20 <= result.Length
    ensures var was := old(result[..]); result[..] == was[..at] + Received(report, was[at..at + 18]) + was[at + 18..]
  {
    InBoundsAt(at, result.Length);
    ghost var was := result[..];
    ghost var frame := Received(report, was[at..at + 18]);
    ghost var now := was[..at] + frame + was[at + 18..];
    forall j | 0 <= j < |report| { result[at + j] := report[j]; }
    forall k | 0 <= k < result.Length ensures result[k] == now[k] {
      if at <= k < at + 18 { assert now[k] == frame[k - at]; }
    }
  }

  /** `memmove` of 18 bytes, from two places up. */
  method MoveDown(result: array<Byte>, at: nat)
    requires InBounds(at, result.Length)
    modifies result
    ensures at + 20 <= result.Length
    ensures var was := old(result[..]); result[..] == was[..at] + was[at + 2..at + 20] + was[at + 18..]
  {
    InBoundsAt(at, result.Length);
    forall j | 0 <= j < 18 { result[at + j] := result[at + 2 + j]; }
  }

  /** `memcpy` of a whole key. */
  method CopyKey(target: array<Byte>, source: array<Byte>)
    requires target.Length == KEY_LENGTH && source.Length >= SCRATCH_LENGTH && target != source
    modifies target
    ensures target[..] == source[..KEY_LENGTH]
  {
    forall j | 0 <= j < 128 { target[j] := source[j]; }
  }

  lemma ReplyArrives(was: Scratch, at: nat, frame: seq<Byte>, r1: Scratch)
    requires at <= 112 && |frame| == 18 && |r1| == |was| && r1 == was[..at] + frame + was[at + 18..]
    ensures r1[at + 1..at + 1 + 17] == frame[1..]
  {
  }

  /** The buffer with the reply in it, with the reply decrypted, and after the move. */
  lemma ReplyMoves(was: Scratch, at: nat, frame: seq<Byte>, r1: Scratch, r2: Scratch, plain: seq<Byte>)
    requires at <= 112 && |frame| == 18 && |plain| == 17 && |r1| == |r2| == |was|
    requires r1 == was[..at] + frame + was[at + 18..]
    requires r2 == r1[..at + 1] + plain + r1[at + 18..]
    ensures r2[at + 1] == plain[0]
    ensures r2[..at] + r2[at + 2..at + 20] + r2[at + 18..] == Moved(was, at, plain)
  {
    assert r2[..at] == was[..at];
    assert r2[at + 18..] == was[at + 18..];
    assert r2[at + 2..at + 20] == plain[1..] + was[at + 18..at + 20];
  }

  /** A token behind its feature reports: what it answers is settled from outside. */
  class TokenPort {
    const token: Token
    const replies: seq<ReplyOrFailure>
    var turn: nat
    var received: seq<seq<Byte>>

    constructor (token: Token, replies: seq<ReplyOrFailure>)
      ensures this.token == token && this.replies == replies && turn == 0 && received == []
    {
      this.token, this.replies := token, replies;
      turn, received := 0, [];
    }

    ghost function State(result: array<Byte>, packet: array<Byte>): Wire
      requires result.Length >= SCRATCH_LENGTH && packet.Length == 128
      reads this, result, packet
    {
      Wire(result[..], packet[..], received, turn)
    }

    method SendPacket(result: array<Byte>, at: nat, packet: array<Byte>, packetId: nat) returns (res: int)
      requires result.Length >= SCRATCH_LENGTH && packet.Length == 128 && result != packet
      requires 1 <= packetId <= 4 && at <= 112
      modifies this, result, packet
      ensures Answer(res, State(result, packet)) == Send(token, packetId, at, old(State(result, packet)), replies)
    {
      var e := ExchangeAt(replies, turn);
      turn := turn + 1;
      if e.NoDevice? { return -DEVICE_NOT_FOUND; }
      if !token.selected { return -NOT_SELECTED; }
      ScramblePacket(packet);
      if e.NotSent? { return -IO_ERROR; }
      ReportLengthsAreGrouped(packetId);
      received := received + [packet[..REPORT_LENGTH[packetId]]];
      result[at] := REPLY_REPORT;
      if e.NoReply? { return -IO_ERROR; }
      res := ReceiveReply(result, at, e.report);
    }

    method ScramblePacket(packet: array<Byte>)
      requires packet.Length == 128
      modifies packet
      ensures packet[..] == Scrambled(old(packet[..]), token.serial)
    {
      EncryptPacket(packet, 1, token.serial);
    }

    /** The reply is received, decrypted and moved down over its two header bytes. */
    method ReceiveReply(result: array<Byte>, at: nat, report: seq<Byte>) returns (res: int)
      requires result.Length >= SCRATCH_LENGTH && at <= 112 && |report| <= 18 && result[at] == REPLY_REPORT
      modifies result
      ensures var plain := Plain(token, Frame(report, old(result[..]), at));
              res == ResultCode(plain[0]) && result[..] == Moved(old(result[..]), at, plain)
    {
      ghost var was: Scratch := result[..];
      ghost var frame := Frame(report, was, at);
      InBoundsAt(at, result.Length);
      ReceiveReport(result, at, report);
      ghost var r1: Scratch := result[..];
      ReplyArrives(was, at, frame, r1);
      DecryptPacket(result, at + 1, token.serial);
      ghost var r2: Scratch := result[..];
      ReplyMoves(was, at, frame, r1, r2, Plain(token, frame));
      var status := result[at + 1];
      res := if status == 128 then 0 else -(status as int);
      MoveDown(result, at);
    }

    /** One round of the outer loop: the eight chunks of a key. */
    method FetchChunks(result: array<Byte>, packet: array<Byte>, keyType: Byte, pwd: Option<Password>)
        returns (res: int)
      requires result.Length >= SCRATCH_LENGTH && packet.Length == 128 && result != packet
      modifies this, result, packet
      ensures Answer(res, State(result, packet)) == Fetch(token, keyType, pwd, old(State(result, packet)), 0, replies)
    {
      ghost var before := State(result, packet);
      var index := 0;
      while index < 8
        invariant index <= 8
        invariant Fetch(token, keyType, pwd, before, 0, replies)
                  == Fetch(token, keyType, pwd, State(result, packet), index, replies)
      {
        Prepare(packet, keyType, index, pwd);
        res := SendPacket(result, 16 * index, packet, KEY_REPORT);
        if res != 0 { return; }
        index := index + 1;
      }
      res := 0;
    }

    method Prepare(packet: array<Byte>, keyType: Byte, index: Byte, pwd: Option<Password>)
      requires packet.Length == 128
      modifies packet
      ensures packet[..] == Prepared(old(packet[..]), keyType, index, pwd)
    {
      packet[0] := KEY_REPORT;
      packet[1] := GET_RSA_KEY;
      if pwd.Some? {
        forall j | 0 <= j < 16 { packet[2 + j] := pwd.value[j]; }
      }
      packet[2 + 16] := keyType;
      packet[3 + 16] := index;
    }

    /**
     Both key fetches: the key type of the first round, and the exponent in the second. The scratch buffer is
     allocated here, with a length of the caller's choice.
     */
    method FetchKey(keyType: Byte, pwd: Option<Password>, key: array<Byte>, exponent: array<Byte>, length: nat)
        returns (res: int, ghost start: Wire)
      requires key.Length == KEY_LENGTH && exponent.Length == KEY_LENGTH && key != exponent && length >= SCRATCH_LENGTH
      modifies this, key, exponent
      ensures start.turn == old(turn) && start.received == old(received)
      ensures var k := GetKey(token, keyType, pwd, start, replies);
              && res == k.res && turn == k.wire.turn && received == k.wire.received
              && key[..] == (if k.key.Some? then k.key.value else old(key[..]))
              && exponent[..] == if k.exponent.Some? then k.exponent.value else old(exponent[..])
    {
      var packet, result := new Byte[128], new Byte[length];
      start := State(result, packet);
      res := FetchChunks(result, packet, keyType, pwd);
      if res != 0 { return -res, start; }
      CopyKey(key, result);
      res := FetchChunks(result, packet, KT_EXPONENT, pwd);
      if res != 0 { return -res, start; }
      CopyKey(exponent, result);
    }

    /** A transfer from `turn` on, which returned `res`, left these keys where others were, and sent these requests. */
    ghost predicate Transferred(turn: nat, keyType: Byte, pwd: Option<Password>, scratch: Scratch, res: int,
                                key: seq<Byte>, oldKey: seq<Byte>, exponent: seq<Byte>, oldExponent: seq<Byte>,
                                keys: seq<seq<Byte>>, exponents: seq<seq<Byte>>) {
      && RequestsInOrder(token, keys, keyType, 0, pwd)
      && RequestsInOrder(token, exponents, KT_EXPONENT, 0, pwd)
      && (res == 0 ==> |keys| == CHUNKS && |exponents| == CHUNKS)
      && (exponents != [] ==> |keys| == CHUNKS)
      && exists k: KeyAnswer :: Exact(token, replies, turn, scratch, k)
           && res == k.res
           && key == (if k.key.Some? then k.key.value else oldKey)
           && exponent == if k.exponent.Some? then k.exponent.value else oldExponent
    }

    /**
     The requests carry what the packet buffer held in place of a password. When all replies are whole, the answer is
     the same for every content of the scratch buffer, by `WholeTransfer`.
     */
    method GetPublicKey(key: array<Byte>, exponent: array<Byte>, length: nat)
        returns (res: int, ghost scratch: Scratch, ghost keys: seq<seq<Byte>>, ghost exponents: seq<seq<Byte>>)
      requires key.Length == KEY_LENGTH && exponent.Length == KEY_LENGTH && key != exponent && length >= SCRATCH_LENGTH
      modifies this, key, exponent
      ensures received == old(received) + keys + exponents
      ensures Transferred(old(turn), KT_PUBLIC, None, scratch, res,
                          key[..], old(key[..]), exponent[..], old(exponent[..]), keys, exponents)
    {
      ghost var start;
      res, start := FetchKey(KT_PUBLIC, None, key, exponent, length);
      scratch := start.result;
      KeyTransferIsExact(token, KT_PUBLIC, None, start, replies);
      keys, exponents := KeyRequestsAreRecovered(token, KT_PUBLIC, None, start, replies);
    }

    method GetPrivateKey(key: array<Byte>, exponent: array<Byte>, pwd: Password, length: nat)
        returns (res: int, ghost scratch: Scratch, ghost keys: seq<seq<Byte>>, ghost exponents: seq<seq<Byte>>)
      requires key.Length == KEY_LENGTH && exponent.Length == KEY_LENGTH && key != exponent && length >= SCRATCH_LENGTH
      modifies this, key, exponent
      ensures received == old(received) + keys + exponents
      ensures Transferred(old(turn), KT_PRIVATE, Some(pwd), scratch, res,
                          key[..], old(key[..]), exponent[..], old(exponent[..]), keys, exponents)
    {
      ghost var start;
      res, start := FetchKey(KT_PRIVATE, Some(pwd), key, exponent, length);
      scratch := start.result;
      KeyTransferIsExact(token, KT_PRIVATE, Some(pwd), start, replies);
      keys, exponents := KeyRequestsAreRecovered(token, KT_PRIVATE, Some(pwd), start, replies);
    }
  }
}
