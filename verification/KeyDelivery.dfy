/**
 What a key transfer brings, byte by byte (novintools.c): the keys that the token put into its replies, or the code of
 the first exchange that failed; and what the token is asked for.
 */
module KeyDelivery {
  import opened Common
  import opened PacketScrambler
  import opened KeyTransfer

  /** A token's whole reply to one request: behind its first byte, the scrambling of a status and a chunk. */
  ghost predicate Carries(serial: Serial, e: Exchange, status: Byte, chunk: seq<Byte>) {
    && e.Reply? && |e.report| == 18 && |chunk| == 16
    && Decrypted(e.report[1..], [status] + chunk, serial)
  }

  lemma DecryptedIsUnique(b: seq<Byte>, r: seq<Byte>, s: seq<Byte>, serial: Serial)
    requires |b| == |r| == |s| == 17 && Decrypted(b, r, serial) && Decrypted(b, s, serial)
    ensures r == s
  {
    forall j | 0 <= j < 17 ensures r[j] == s[j] {
      if j >= 2 {
        var i := (j - 2) / 3;
        assert j == 3 * i + 2 || j == 3 * i + 3 || j == 3 * i + 4;
      }
    }
  }

  lemma OutcomeOfCarried(token: Token, e: ReplyOrFailure, status: Byte, chunk: seq<Byte>, window: Window)
    requires token.selected && Carries(token.serial, e, status, chunk)
    ensures OutcomeOf(token, e, window) == if status == 0 || status == 128 then Chunk(chunk) else Fails(status)
  {
    var plain := Decrypt(e.report[1..], KeyOf(token.serial));
    assert Received(e.report, window) == e.report;
    DecryptedBytes(e.report[1..], token.serial);
    DecryptedIsUnique(e.report[1..], plain, [status] + chunk, token.serial);
    assert ([status] + chunk)[1..] == chunk;
  }

  /** Exchange `t` has this outcome, whatever the scratch buffer holds. */
  ghost predicate Expected(token: Token, replies: seq<ReplyOrFailure>, t: nat, o: Outcome) {
    forall window: Window :: OutcomeOf(token, ExchangeAt(replies, t), window) == o
  }

  lemma NextOutcome(token: Token, replies: seq<ReplyOrFailure>, turn: nat, start: Scratch, index: ChunkIndex,
                    o: Outcome)
    requires Expected(token, replies, turn, o)
    ensures Outcomes(token, replies, turn, start, index) == [o] + Outcomes(token, replies, turn + 1, start, index + 1)
  {
    OutcomeThenRest(token, replies, turn, start, index);
  }

  lemma {:induction false} OutcomesAre(token: Token, replies: seq<ReplyOrFailure>, turn: nat, start: Scratch,
                                       index: Progress, expected: seq<Outcome>) returns (outcomes: seq<Outcome>)
    requires index + |expected| <= CHUNKS
    requires forall i :: 0 <= i < |expected| ==> Expected(token, replies, turn + i, expected[i])
    ensures outcomes == Outcomes(token, replies, turn, start, index) && |expected| <= |outcomes|
    ensures forall i :: 0 <= i < |expected| ==> outcomes[i] == expected[i]
    decreases |expected|
  {
    if expected == [] {
      outcomes := Outcomes(token, replies, turn, start, index);
    } else {
      ExpectedRest(token, replies, turn, expected);
      var rest := OutcomesAre(token, replies, turn + 1, start, index + 1, expected[1..]);
      NextOutcome(token, replies, turn, start, index, expected[0]);
      outcomes := [expected[0]] + rest;
    }
  }

  lemma ExpectedRest(token: Token, replies: seq<ReplyOrFailure>, turn: nat, expected: seq<Outcome>)
    requires expected != []
    requires forall i :: 0 <= i < |expected| ==> Expected(token, replies, turn + i, expected[i])
    ensures Expected(token, replies, turn, expected[0])
    ensures forall i :: 0 <= i < |expected| - 1 ==> Expected(token, replies, turn + 1 + i, expected[1..][i])
  {
    assert Expected(token, replies, turn + 0, expected[0]);
    forall i | 0 <= i < |expected| - 1 ensures Expected(token, replies, turn + 1 + i, expected[1..][i]) {
      assert Expected(token, replies, turn + (i + 1), expected[i + 1]);
    }
  }

  lemma {:induction false} KeyByteAt(outcomes: seq<Outcome>, i: nat, j: nat)
    requires AllChunks(outcomes) && (forall k :: 0 <= k < |outcomes| ==> |outcomes[k].bytes| == 16)
    requires i < |outcomes| && j < 16
    ensures |KeyBytes(outcomes)| == 16 * |outcomes| && KeyBytes(outcomes)[16 * i + j] == outcomes[i].bytes[j]
  {
    KeyLength(outcomes);
    if i > 0 { KeyByteAt(outcomes[1..], i - 1, j); }
  }

  // ---- One key ----

  /** From `turn` on, eight exchanges bring these chunks with a status that passes. */
  ghost predicate Bring(token: Token, replies: seq<ReplyOrFailure>, turn: nat, statuses: seq<Byte>,
                        chunks: seq<seq<Byte>>) {
    && |statuses| == |chunks| == 8
    && forall i :: 0 <= i < 8 ==>
         (statuses[i] == 0 || statuses[i] == 128) && |chunks[i]| == 16
         && Carries(token.serial, ExchangeAt(replies, turn + i), statuses[i], chunks[i])
  }

  ghost predicate IsKey(key: seq<Byte>, chunks: seq<seq<Byte>>) {
    && |key| == 128 && |chunks| == 8
    && forall i, j :: 0 <= i < 8 && 0 <= j < 16 && |chunks[i]| == 16 ==> key[16 * i + j] == chunks[i][j]
  }

  lemma BroughtKey(token: Token, replies: seq<ReplyOrFailure>, turn: nat, start: Scratch, statuses: seq<Byte>,
                   chunks: seq<seq<Byte>>) returns (outcomes: seq<Outcome>)
    requires token.selected && Bring(token, replies, turn, statuses, chunks)
    ensures outcomes == Outcomes(token, replies, turn, start, 0) && AllChunks(outcomes)
    ensures IsKey(KeyBytes(outcomes), chunks)
  {
    var expected := seq(8, i requires 0 <= i < 8 => Chunk(chunks[i]));
    forall i | 0 <= i < 8 ensures Expected(token, replies, turn + i, expected[i]) {
      CarriedIsExpected(token, replies, turn + i, statuses[i], chunks[i]);
    }
    outcomes := OutcomesAre(token, replies, turn, start, 0, expected);
    KeyLength(outcomes);
    forall i, j | 0 <= i < 8 && 0 <= j < 16 ensures KeyBytes(outcomes)[16 * i + j] == chunks[i][j] {
      KeyByteAt(outcomes, i, j);
    }
  }

  lemma CarriedIsExpected(token: Token, replies: seq<ReplyOrFailure>, t: nat, status: Byte, chunk: seq<Byte>)
    requires token.selected && (status == 0 || status == 128)
    requires Carries(token.serial, ExchangeAt(replies, t), status, chunk)
    ensures Expected(token, replies, t, Chunk(chunk))
  {
    forall window: Window ensures OutcomeOf(token, ExchangeAt(replies, t), window) == Chunk(chunk) {
      OutcomeOfCarried(token, ExchangeAt(replies, t), status, chunk, window);
    }
  }

  /**
   Sixteen whole replies with a status that passes: the transfer succeeds, the key is the first eight chunks, byte by
   byte, and the exponent the other eight, whatever the two buffers held.
   */
  lemma TransferDelivers(token: Token, keyType: Byte, pwd: Option<Password>, w: Wire, replies: seq<ReplyOrFailure>,
                         statuses: seq<Byte>, chunks: seq<seq<Byte>>, moreStatuses: seq<Byte>, more: seq<seq<Byte>>)
    requires token.selected
    requires Bring(token, replies, w.turn, statuses, chunks) && Bring(token, replies, w.turn + 8, moreStatuses, more)
    ensures var k := GetKey(token, keyType, pwd, w, replies);
            && k.res == 0 && k.key.Some? && IsKey(k.key.value, chunks)
            && k.exponent.Some? && IsKey(k.exponent.value, more)
  {
    KeyTransferIsExact(token, keyType, pwd, w, replies);
    var first := BroughtKey(token, replies, w.turn, w.result, statuses, chunks);
    var between := Between(token, replies, w.turn, w.result);
    var second := BroughtKey(token, replies, w.turn + 8, between, moreStatuses, more);
  }

  // ---- Failures ----

  /** The code of a failure: no device, an input or output error, or the token's own status. */
  ghost predicate FailsWith(token: Token, e: Exchange, code: int) {
    || (e.NoDevice? && code == 1)
    || (!e.NoDevice? && !token.selected && code == 132)
    || (token.selected && (e.NotSent? || e.NoReply?) && code == 3)
    || (token.selected && code != 0 && code != 128
        && exists status: Byte, chunk :: code == status && Carries(token.serial, e, status, chunk))
  }

  lemma OutcomeOfFailure(token: Token, e: ReplyOrFailure, code: int, window: Window)
    requires FailsWith(token, e, code)
    ensures OutcomeOf(token, e, window) == Fails(code)
  {
    if token.selected && e.Reply? {
      var status: Byte, chunk :| code == status && Carries(token.serial, e, status, chunk);
      OutcomeOfCarried(token, e, status, chunk, window);
    }
  }

  ghost predicate Passes(token: Token, replies: seq<ReplyOrFailure>, turn: nat) {
    && token.selected
    && exists status: Byte, chunk ::
         (status == 0 || status == 128) && Carries(token.serial, ExchangeAt(replies, turn), status, chunk)
  }

  /** The first `n` exchanges from `turn` on pass, and the one behind them fails. */
  ghost predicate FailsAfter(token: Token, replies: seq<ReplyOrFailure>, turn: nat, n: nat, code: int) {
    && (forall t :: turn <= t < turn + n ==> Passes(token, replies, t))
    && FailsWith(token, ExchangeAt(replies, turn + n), code)
  }

  /** The chunks of exchanges that pass. */
  lemma {:induction false} PassingChunks(token: Token, replies: seq<ReplyOrFailure>, turn: nat, n: nat)
      returns (expected: seq<Outcome>)
    requires forall t :: turn <= t < turn + n ==> Passes(token, replies, t)
    ensures |expected| == n && AllChunks(expected)
    ensures forall i :: 0 <= i < n ==> Expected(token, replies, turn + i, expected[i])
    decreases n
  {
    expected := [];
    if n > 0 {
      var first := PassingChunks(token, replies, turn, n - 1);
      var last := PassingChunk(token, replies, turn + n - 1);
      expected := first + [last];
    }
  }

  lemma PassingChunk(token: Token, replies: seq<ReplyOrFailure>, t: nat) returns (o: Outcome)
    requires Passes(token, replies, t)
    ensures o.Chunk? && Expected(token, replies, t, o)
  {
    var status: Byte, chunk :|
      (status == 0 || status == 128) && Carries(token.serial, ExchangeAt(replies, t), status, chunk);
    CarriedIsExpected(token, replies, t, status, chunk);
    o := Chunk(chunk);
  }

  lemma FailureIsExpected(token: Token, replies: seq<ReplyOrFailure>, t: nat, code: int)
    requires FailsWith(token, ExchangeAt(replies, t), code)
    ensures Expected(token, replies, t, Fails(code))
  {
    forall window: Window ensures OutcomeOf(token, ExchangeAt(replies, t), window) == Fails(code) {
      OutcomeOfFailure(token, ExchangeAt(replies, t), code, window);
    }
  }

  lemma FailedKey(token: Token, replies: seq<ReplyOrFailure>, turn: nat, start: Scratch, n: nat, code: int)
      returns (outcomes: seq<Outcome>)
    requires n < 8 && FailsAfter(token, replies, turn, n, code)
    ensures outcomes == Outcomes(token, replies, turn, start, 0) && !AllChunks(outcomes)
    ensures outcomes[FirstFailure(outcomes)] == Fails(code)
  {
    var chunks := PassingChunks(token, replies, turn, n);
    FailureIsExpected(token, replies, turn + n, code);
    var expected := chunks + [Fails(code)];
    outcomes := OutcomesAre(token, replies, turn, start, 0, expected);
    assert outcomes[n] == expected[n] == Fails(code);
    assert forall i :: 0 <= i < n ==> outcomes[i] == expected[i] == chunks[i];
    FirstFailureIs(outcomes, n);
  }

  lemma FirstFailureIs(outcomes: seq<Outcome>, n: nat)
    requires n < |outcomes| && outcomes[n].Fails? && forall i :: 0 <= i < n ==> outcomes[i].Chunk?
    ensures !AllChunks(outcomes) && FirstFailure(outcomes) == n
  {
    assert !AllChunks(outcomes);
  }

  /** When all exchanges of the first key pass, there is a first key. */
  lemma PassedKey(token: Token, replies: seq<ReplyOrFailure>, turn: nat, start: Scratch)
    requires forall t :: turn <= t < turn + 8 ==> Passes(token, replies, t)
    ensures AllChunks(Outcomes(token, replies, turn, start, 0))
  {
    var expected := PassingChunks(token, replies, turn, 8);
    var outcomes := OutcomesAre(token, replies, turn, start, 0, expected);
  }

  /**
   The first exchange that fails decides: 1 without a device, 132 for a token that is not selected, 3 for a failing
   transfer, and otherwise the status in the reply, always as a positive code. The exponent is not written then, and
   the key only if the failure comes behind it.
   */
  lemma TransferFails(token: Token, keyType: Byte, pwd: Option<Password>, w: Wire, replies: seq<ReplyOrFailure>,
                      n: nat, code: int)
    requires n < 16 && FailsAfter(token, replies, w.turn, n, code)
    ensures var k := GetKey(token, keyType, pwd, w, replies);
            k.res == code && k.exponent == None && (k.key.Some? <==> n >= 8)
  {
    KeyTransferIsExact(token, keyType, pwd, w, replies);
    if n < 8 {
      var first := FailedKey(token, replies, w.turn, w.result, n, code);
    } else {
      PassedKey(token, replies, w.turn, w.result);
      var between := Between(token, replies, w.turn, w.result);
      assert w.turn + n == w.turn + 8 + (n - 8);
      var second := FailedKey(token, replies, w.turn + 8, between, n - 8, code);
    }
  }

  // ---- Requests ----

  /**
   A request is a report of 27 bytes: its id 3 in the open, and scrambled behind it the opcode 0x38, sixteen bytes of
   password, the kind of the key (1 for the private one, 2 for the public one, 3 for the exponent) and the index.
   */
  lemma RequestBytes(token: Token, packet: Packet, keyType: Byte, index: Byte, pwd: Option<Password>, b: seq<Byte>)
    requires |b| == 38
    requires Encrypted(b, Scrambled(Prepared(packet, keyType, index, pwd), token.serial)[1..39], token.serial)
    ensures Scrambled(Prepared(packet, keyType, index, pwd), token.serial)[0] == 3
    ensures b[0] == 0x38 && b[17] == keyType && b[18] == index && (pwd.Some? ==> b[1..17] == pwd.value)
    ensures KT_PRIVATE == 1 && KT_PUBLIC == 2 && KT_EXPONENT == 3
  {
    var p := Prepared(packet, keyType, index, pwd);
    EncryptedBytes(p[1..39], token.serial);
    EncryptedIsUnique(b, p[1..39], Scrambled(p, token.serial)[1..39], token.serial);
    PreparedBytes(packet, keyType, index, pwd);
    assert p[1..39][1..17] == p[2..18];
  }

  lemma PreparedBytes(packet: Packet, keyType: Byte, index: Byte, pwd: Option<Password>)
    ensures var p := Prepared(packet, keyType, index, pwd);
            p[0] == 3 && p[1] == 0x38 && p[18] == keyType && p[19] == index && (pwd.Some? ==> p[2..18] == pwd.value)
  {
    var p := Prepared(packet, keyType, index, pwd);
    var words := if pwd.Some? then pwd.value else packet[2..18];
    assert p == [KEY_REPORT, GET_RSA_KEY] + (words + ([keyType, index] + packet[20..]));
  }

  lemma {:induction false} GroupIsUnique(a: seq<Byte>, b: seq<Byte>, r: seq<Byte>, serial: Serial, i: nat)
    requires |a| == |b| == |r| == 38 && Encrypted(a, r, serial) && Encrypted(b, r, serial) && i < 12
    ensures a[3 * i + 2] == b[3 * i + 2] && a[3 * i + 3] == b[3 * i + 3] && a[3 * i + 4] == b[3 * i + 4]
  {
    var mask: Byte := 255 - serial[[0, 1, 3, 0, 2, 3, 0, 1, 2, 1, 0, 2][i]];
    XorCancels(a[3 * i + 4], mask);
    XorCancels(b[3 * i + 4], mask);
    XorCancels(a[3 * i + 3], a[3 * i + 4]);
    XorCancels(b[3 * i + 3], b[3 * i + 4]);
    XorCancels(a[3 * i + 2], a[3 * i + 3]);
    XorCancels(b[3 * i + 2], b[3 * i + 3]);
  }

  lemma EncryptedIsUnique(a: seq<Byte>, b: seq<Byte>, r: seq<Byte>, serial: Serial)
    requires |a| == |b| == |r| == 38 && Encrypted(a, r, serial) && Encrypted(b, r, serial)
    ensures a == b
  {
    XorCancels(a[0], 255 - Xor(serial[2], serial[3]));
    XorCancels(b[0], 255 - Xor(serial[2], serial[3]));
    XorCancels(a[1], Xor(serial[0], serial[1]));
    XorCancels(b[1], Xor(serial[0], serial[1]));
    forall j | 2 <= j < 38 ensures a[j] == b[j] {
      var i := (j - 2) / 3;
      GroupIsUnique(a, b, r, serial, i);
      assert j == 3 * i + 2 || j == 3 * i + 3 || j == 3 * i + 4;
    }
  }
}
