/**
 Reading an RSA key from the token (novintools.c): sixteen requests are built and scrambled in one packet buffer, and
 the replies are decrypted and pushed together in a scratch buffer, 16 bytes each, with overlapping moves.
 */
module KeyTransfer {
  import opened Common
  import opened PacketScrambler

  const DEVICE_NOT_FOUND: int := 1
  const IO_ERROR: int := 3
  const NOT_SELECTED: int := 132

  const REPLY_REPORT: Byte := 2
  const KEY_REPORT: Byte := 3
  const GET_RSA_KEY: Byte := 0x38

  const KT_PRIVATE: Byte := 1
  const KT_PUBLIC: Byte := 2
  const KT_EXPONENT: Byte := 3

  const CHUNKS: nat := 8
  const KEY_LENGTH: nat := 128
  const SCRATCH_LENGTH: nat := 132

  /** What one packet meets: no device to open, a failing transfer in either direction, or the bytes of a reply. */
  datatype Exchange = NoDevice | NotSent | NoReply | Reply(report: seq<Byte>)

  /** A reply is never longer than the report length that was asked for; it may be shorter. */
  type ReplyOrFailure = e: Exchange | e.Reply? ==> |e.report| <= 18 witness NoDevice

  datatype Token = Token(serial: Serial, selected: bool)

  type Password = p: seq<Byte> | |p| == 16 witness [0, 0, 0, 0, 0, 0, 0, 0, 0, 0, 0, 0, 0, 0, 0, 0]

  /** Where in the scratch buffer a reply can be received; what is there; and a reply that is decrypted. */
  type Position = at: nat | at <= 112
  type Window = w: seq<Byte> | |w| == 18 witness seq(18, _ => 0)
  type Plaintext = p: seq<Byte> | |p| == 17 witness seq(17, _ => 0)
  type Report = r: seq<Byte> | |r| <= 18
  type ReportId = id: nat | 1 <= id <= 4 witness 1
  type ChunkIndex = i: nat | i < CHUNKS
  type Progress = i: nat | i <= CHUNKS

  type Packet = p: seq<Byte> | |p| == 128 witness seq(128, _ => 0)
  /** The scratch buffer is as long as the caller makes it, but the last chunk needs 132 bytes of it. */
  type Scratch = r: seq<Byte> | |r| >= SCRATCH_LENGTH witness seq(SCRATCH_LENGTH, _ => 0)

  /** The two buffers, the reports that the token has received, and the number of exchanges so far. */
  datatype Wire = Wire(result: Scratch, packet: Packet, received: seq<seq<Byte>>, turn: nat)

  datatype Answer = Answer(res: int, wire: Wire)

  function ExchangeAt(replies: seq<ReplyOrFailure>, turn: nat): ReplyOrFailure {
    if turn < |replies| then replies[turn] else NoDevice
  }

  // ---- One packet ----

  function Scrambled(packet: Packet, serial: Serial): Packet {
    packet[..1] + Scramble(packet[1..39], KeyOf(serial)) + packet[39..]
  }

  /** What is in a window of 18 bytes after a reply has been received over it. */
  function Received(report: Report, window: Window): Window {
    report + ([REPLY_REPORT] + window[1..])[|report|..]
  }

  function Frame(report: Report, result: Scratch, at: Position): Window {
    Received(report, result[at..at + 18])
  }

  /** The decrypted reply: its status, and then the 16 bytes of a chunk. */
  function Plain(token: Token, frame: Window): Plaintext {
    Decrypt(frame[1..], KeyOf(token.serial))
  }

  function ResultCode(status: Byte): int {
    if status == 128 then 0 else -(status as int)
  }

  /** The scratch buffer after a reply: the chunk, two bytes from beyond the reply, and the old bytes. */
  function Moved(result: Scratch, at: Position, plain: Plaintext): (moved: Scratch)
    ensures |moved| == |result|
  {
    result[..at] + plain[1..] + result[at + 18..at + 20] + result[at + 18..]
  }

  /** `_send_packet`, with the reply placed at `at`. */
  function Send(token: Token, packetId: ReportId, at: Position, w: Wire, replies: seq<ReplyOrFailure>): (a: Answer)
    ensures |a.wire.result| == |w.result|
  {
    var e, t := ExchangeAt(replies, w.turn), w.(turn := w.turn + 1);
    if e.NoDevice? then Answer(-DEVICE_NOT_FOUND, t)
    else if !token.selected then Answer(-NOT_SELECTED, t)
    else
      var packet := Scrambled(w.packet, token.serial);
      if e.NotSent? then Answer(-IO_ERROR, t.(packet := packet))
      else
        ReportLengthsAreGrouped(packetId);
        var sent := t.(packet := packet, received := w.received + [packet[..REPORT_LENGTH[packetId]]]);
        if e.NoReply? then Answer(-IO_ERROR, sent.(result := w.result[at := REPLY_REPORT]))
        else
          var plain := Plain(token, Frame(e.report, w.result, at));
          Answer(ResultCode(plain[0]), sent.(result := Moved(w.result, at, plain)))
  }

  // ---- One key ----

  /** The packet with a request written over it. Without a password, the old bytes stay in its place. */
  function Prepared(packet: Packet, keyType: Byte, index: Byte, pwd: Option<Password>): Packet {
    [KEY_REPORT, GET_RSA_KEY] + (if pwd.Some? then pwd.value else packet[2..18]) + [keyType, index] + packet[20..]
  }

  /** The chunks from `index` on. */
  function Fetch(token: Token, keyType: Byte, pwd: Option<Password>, w: Wire, index: Progress,
                 replies: seq<ReplyOrFailure>): Answer
    decreases CHUNKS - index, |replies|
  {
    if index == CHUNKS then Answer(0, w)
    else
      var a := Send(token, KEY_REPORT, 16 * index, w.(packet := Prepared(w.packet, keyType, index, pwd)), replies);
      if a.res != 0 then a else Fetch(token, keyType, pwd, a.wire, index + 1, replies)
  }

  /** What the caller gets: a result code, and the two buffers where they were written. */
  datatype KeyAnswer = KeyAnswer(res: int, key: Option<seq<Byte>>, exponent: Option<seq<Byte>>, wire: Wire)

  function GetKey(token: Token, keyType: Byte, pwd: Option<Password>, w: Wire,
                  replies: seq<ReplyOrFailure>): KeyAnswer {
    var a := Fetch(token, keyType, pwd, w, 0, replies);
    if a.res != 0 then KeyAnswer(-a.res, None, None, a.wire)
    else
      var b := Fetch(token, KT_EXPONENT, pwd, a.wire, 0, replies);
      var key := Some(a.wire.result[..KEY_LENGTH]);
      if b.res != 0 then KeyAnswer(-b.res, key, None, b.wire)
      else KeyAnswer(0, key, Some(b.wire.result[..KEY_LENGTH]), b.wire)
  }

  // ---- What the token sees ----

  /** What the token makes of a report: opcode, password, key type and index. */
  ghost predicate Recovers(token: Token, report: seq<Byte>, keyType: Byte, index: Byte, pwd: Option<Password>) {
    && |report| == 27 && report[0] == KEY_REPORT
    && IsRequest(Unscramble(report[1..], KeyOf(token.serial)), keyType, index, pwd)
  }

  ghost predicate IsRequest(request: seq<Byte>, keyType: Byte, index: Byte, pwd: Option<Password>) {
    && |request| == 26 && request[0] == GET_RSA_KEY && request[17] == keyType && request[18] == index
    && (pwd.Some? ==> request[1..17] == pwd.value)
  }

  lemma PreparedIsRequest(packet: Packet, keyType: Byte, index: Byte, pwd: Option<Password>)
    ensures var p := Prepared(packet, keyType, index, pwd);
            p[0] == KEY_REPORT && IsRequest(p[1..27], keyType, index, pwd)
  {
    var p := Prepared(packet, keyType, index, pwd);
    var words := if pwd.Some? then pwd.value else packet[2..18];
    assert p == [KEY_REPORT, GET_RSA_KEY] + (words + ([keyType, index] + packet[20..]));
    assert p[2..18] == words && p[18] == keyType && p[19] == index;
    assert p[1..27][0] == p[1] && p[1..27][17] == p[18] && p[1..27][18] == p[19] && p[1..27][1..17] == p[2..18];
  }

  /** The 27 bytes that are sent are the scrambling of the packet's own first bytes. */
  lemma ReportIsScrambled(packet: Packet, serial: Serial)
    ensures Scrambled(packet, serial)[..27] == packet[..1] + Scramble(packet[1..27], KeyOf(serial))
  {
    ScrambleTruncates(packet[1..39], KeyOf(serial), 26);
    assert packet[1..39][..26] == packet[1..27];
    assert Scrambled(packet, serial)[..27] == packet[..1] + Scramble(packet[1..39], KeyOf(serial))[..26];
  }

  /** Whatever the packet buffer held before, the token recovers the request from the 27 bytes it is sent. */
  lemma RequestRecovered(token: Token, packet: Packet, keyType: Byte, index: Byte, pwd: Option<Password>)
    ensures Recovers(token, Scrambled(Prepared(packet, keyType, index, pwd), token.serial)[..27], keyType, index, pwd)
  {
    var p, key := Prepared(packet, keyType, index, pwd), KeyOf(token.serial);
    PreparedIsRequest(packet, keyType, index, pwd);
    ReportIsScrambled(p, token.serial);
    assert (p[..1] + Scramble(p[1..27], key))[1..] == Scramble(p[1..27], key);
    UnscrambleScramble(p[1..27], key);
  }

  // ---- What the caller gets ----

  /** What one exchange means for the caller. */
  datatype Outcome = Chunk(bytes: seq<Byte>) | Fails(code: int)

  /**
   The outcome of an exchange whose reply, if there is one, is received over `window`. The token means 128 by success,
   but 0 passes as well.
   */
  ghost function OutcomeOf(token: Token, e: ReplyOrFailure, window: Window): (o: Outcome)
    ensures o.Chunk? ==> |o.bytes| == 16
    ensures o.Fails? ==> o.code > 0
  {
    if e.NoDevice? then Fails(DEVICE_NOT_FOUND)
    else if !token.selected then Fails(NOT_SELECTED)
    else if !e.Reply? then Fails(IO_ERROR)
    else
      var plain := Plain(token, Received(e.report, window));
      if plain[0] in {0, 128} then Chunk(plain[1..]) else Fails(plain[0])
  }

  /**
   What the scratch buffer holds from chunk `index` on, when `start` was in it at first and the chunks before are in
   place: the last move has left two bytes that were there twice.
   */
  function Tail(start: Scratch, index: Progress): (tail: seq<Byte>)
    ensures |tail| == |start| - 16 * index
  {
    if index == 0 then start else start[16 * index + 2..16 * index + 4] + start[16 * index + 2..]
  }

  /** The outcomes of the chunks from `index` on. */
  ghost function Outcomes(token: Token, replies: seq<ReplyOrFailure>, turn: nat, start: Scratch, index: Progress)
      : (outcomes: seq<Outcome>)
    ensures |outcomes| == CHUNKS - index
    ensures forall o :: o in outcomes ==> if o.Chunk? then |o.bytes| == 16 else o.code > 0
    decreases CHUNKS - index, |replies|
  {
    if index == CHUNKS then []
    else
      [OutcomeOf(token, ExchangeAt(replies, turn), Tail(start, index)[..18])]
      + Outcomes(token, replies, turn + 1, start, index + 1)
  }

  ghost predicate AllChunks(outcomes: seq<Outcome>) {
    forall i :: 0 <= i < |outcomes| ==> outcomes[i].Chunk?
  }

  /** The chunks, one after the other. */
  ghost function KeyBytes(outcomes: seq<Outcome>): seq<Byte>
    requires AllChunks(outcomes)
  {
    if outcomes == [] then [] else outcomes[0].bytes + KeyBytes(outcomes[1..])
  }

  /** The first outcome that is not a chunk. */
  ghost function FirstFailure(outcomes: seq<Outcome>): (k: nat)
    requires !AllChunks(outcomes)
    ensures k < |outcomes| && outcomes[k].Fails? && forall i :: 0 <= i < k ==> outcomes[i].Chunk?
  {
    if outcomes[0].Fails? then 0 else 1 + FirstFailure(outcomes[1..])
  }

  /**
   The answer to a series of exchanges: the chunks between `before` and `after`, or the first error and no more turns.
   */
  ghost predicate Lands(before: seq<Byte>, after: seq<Byte>, turn: nat, outcomes: seq<Outcome>, a: Answer) {
    if AllChunks(outcomes) then
      a.res == 0 && a.wire.turn == turn + |outcomes| && a.wire.result == before + KeyBytes(outcomes) + after
    else
      var k := FirstFailure(outcomes);
      a.res != 0 && a.res == -outcomes[k].code && a.wire.turn == turn + k + 1
  }

  /** One exchange, at the end of what has landed so far. */
  ghost predicate ChunkLands(start: Scratch, index: ChunkIndex, w: Wire, o: Outcome, a: Answer) {
    && a.wire.turn == w.turn + 1
    && match o
       case Chunk(bytes) =>
         |bytes| == 16 && a.res == 0 && a.wire.result == w.result[..16 * index] + bytes + Tail(start, index + 1)
       case Fails(code) => a.res != 0 && a.res == -code
  }

  /** The move takes the next two bytes along, and they stay where they were as well. */
  lemma MovedTail(result: Scratch, start: Scratch, index: nat, plain: seq<Byte>)
    requires index < CHUNKS && |plain| == 17 && |result| == |start| && result[16 * index..] == Tail(start, index)
    ensures Moved(result, 16 * index, plain) == result[..16 * index] + plain[1..] + Tail(start, index + 1)
  {
    var at := 16 * index;
    assert result[at + 18..] == result[at..][18..] == Tail(start, index)[18..];
    assert Tail(start, index)[18..] == start[at + 18..];
    assert result[at + 18..at + 20] == result[at + 18..][..2] == start[at + 18..][..2];
  }

  lemma SendLands(token: Token, start: Scratch, index: nat, w: Wire, replies: seq<ReplyOrFailure>)
    requires index < CHUNKS && |w.result| == |start| && w.result[16 * index..] == Tail(start, index)
    ensures ChunkLands(start, index, w, OutcomeOf(token, ExchangeAt(replies, w.turn), Tail(start, index)[..18]),
                       Send(token, KEY_REPORT, 16 * index, w, replies))
  {
    var e, at := ExchangeAt(replies, w.turn), 16 * index;
    if token.selected && e.Reply? {
      assert w.result[at..at + 18] == w.result[at..][..18];
      MovedTail(w.result, start, index, Plain(token, Frame(e.report, w.result, at)));
    }
  }

  /** A chunk, and then the ones behind it, the first of which covers the two stale bytes. */
  lemma ChunkThenChunks(before: seq<Byte>, after: seq<Byte>, turn: nat, outcomes: seq<Outcome>, middle: seq<Byte>,
                        b: Answer)
    requires outcomes != [] && outcomes[0].Chunk? && middle == before + outcomes[0].bytes
    requires Lands(middle, after, turn + 1, outcomes[1..], b)
    ensures Lands(before, after, turn, outcomes, b)
  {
    var rest := outcomes[1..];
    if AllChunks(rest) {
      assert AllChunks(outcomes);
      assert middle + KeyBytes(rest) + after == before + KeyBytes(outcomes) + after;
    } else {
      assert !AllChunks(outcomes) by { var i := FirstFailure(rest); assert outcomes[i + 1].Fails?; }
      assert FirstFailure(outcomes) == 1 + FirstFailure(rest);
    }
  }

  lemma FailureEnds(before: seq<Byte>, after: seq<Byte>, turn: nat, outcomes: seq<Outcome>, a: Answer)
    requires outcomes != [] && outcomes[0].Fails? && a.res != 0 && a.res == -outcomes[0].code && a.wire.turn == turn + 1
    ensures Lands(before, after, turn, outcomes, a)
  {
    assert !AllChunks(outcomes);
  }

  lemma SendFirst(token: Token, keyType: Byte, pwd: Option<Password>, start: Scratch, w: Wire, index: nat,
                  replies: seq<ReplyOrFailure>, outcomes: seq<Outcome>) returns (a: Answer)
    requires index < CHUNKS && |w.result| == |start| && w.result[16 * index..] == Tail(start, index)
    requires outcomes == Outcomes(token, replies, w.turn, start, index)
    ensures ChunkLands(start, index, w, outcomes[0], a)
    ensures outcomes[1..] == Outcomes(token, replies, w.turn + 1, start, index + 1)
    ensures Fetch(token, keyType, pwd, w, index, replies)
            == if a.res != 0 then a else Fetch(token, keyType, pwd, a.wire, index + 1, replies)
  {
    var prepared := w.(packet := Prepared(w.packet, keyType, index, pwd));
    a := Send(token, KEY_REPORT, 16 * index, prepared, replies);
    SendLands(token, start, index, prepared, replies);
  }

  lemma NextTail(start: Scratch, index: nat, w: Wire, o: Outcome, a: Answer)
    requires index < CHUNKS && |w.result| == |start| && o.Chunk? && ChunkLands(start, index, w, o, a)
    ensures |a.wire.result| == |start| && a.wire.result[16 * (index + 1)..] == Tail(start, index + 1)
    ensures a.wire.result[..16 * (index + 1)] == w.result[..16 * index] + o.bytes
  {
  }

  lemma NothingLands(start: Scratch, w: Wire)
    requires |w.result| == |start| && w.result[16 * CHUNKS..] == Tail(start, CHUNKS)
    ensures Lands(w.result[..16 * CHUNKS], Tail(start, CHUNKS), w.turn, [], Answer(0, w))
  {
    assert w.result == w.result[..16 * CHUNKS] + [] + w.result[16 * CHUNKS..];
  }

  lemma {:induction false} FetchLands(token: Token, keyType: Byte, pwd: Option<Password>, start: Scratch, w: Wire,
                                      index: nat, replies: seq<ReplyOrFailure>, outcomes: seq<Outcome>)
      returns (b: Answer)
    requires index <= CHUNKS && |w.result| == |start| && w.result[16 * index..] == Tail(start, index)
    requires outcomes == Outcomes(token, replies, w.turn, start, index)
    ensures b == Fetch(token, keyType, pwd, w, index, replies)
    ensures Lands(w.result[..16 * index], Tail(start, CHUNKS), w.turn, outcomes, b)
    decreases CHUNKS - index
  {
    if index == CHUNKS {
      b := Answer(0, w);
      NothingLands(start, w);
    } else {
      var a := SendFirst(token, keyType, pwd, start, w, index, replies, outcomes);
      b := a;
      if outcomes[0].Chunk? {
        NextTail(start, index, w, outcomes[0], a);
        b := FetchLands(token, keyType, pwd, start, a.wire, index + 1, replies, outcomes[1..]);
        ChunkThenChunks(w.result[..16 * index], Tail(start, CHUNKS), w.turn, outcomes,
                        a.wire.result[..16 * (index + 1)], b);
      } else {
        FailureEnds(w.result[..16 * index], Tail(start, CHUNKS), w.turn, outcomes, a);
      }
    }
  }

  // ---- The requests of a fetch ----

  /** Every report is the request for the next chunk. */
  ghost predicate RequestsInOrder(token: Token, reports: seq<seq<Byte>>, keyType: Byte, index: nat,
                                  pwd: Option<Password>) {
    && index + |reports| <= CHUNKS
    && forall i :: 0 <= i < |reports| ==> Recovers(token, reports[i], keyType, index + i, pwd)
  }

  lemma NextRequest(token: Token, first: seq<Byte>, rest: seq<seq<Byte>>, keyType: Byte, index: nat,
                    pwd: Option<Password>)
    requires index < CHUNKS && Recovers(token, first, keyType, index, pwd)
    requires RequestsInOrder(token, rest, keyType, index + 1, pwd)
    ensures RequestsInOrder(token, [first] + rest, keyType, index, pwd)
  {
    var all := [first] + rest;
    forall i | 0 <= i < |all| ensures Recovers(token, all[i], keyType, index + i, pwd) {
      if i > 0 { assert all[i] == rest[i - 1] && index + i == index + 1 + (i - 1); }
    }
  }

  /** One exchange adds at most one report, which is the request; a good one adds it for certain. */
  lemma SendReports(token: Token, keyType: Byte, pwd: Option<Password>, w: Wire, index: ChunkIndex,
                    replies: seq<ReplyOrFailure>)
      returns (a: Answer, sent: seq<seq<Byte>>)
    ensures a.wire.received == w.received + sent && RequestsInOrder(token, sent, keyType, index, pwd)
    ensures |sent| <= 1 && (a.res == 0 ==> |sent| == 1)
    ensures Fetch(token, keyType, pwd, w, index, replies)
            == if a.res != 0 then a else Fetch(token, keyType, pwd, a.wire, index + 1, replies)
  {
    var prepared := w.(packet := Prepared(w.packet, keyType, index, pwd));
    a := Send(token, KEY_REPORT, 16 * index, prepared, replies);
    if a.wire.received == w.received {
      sent := [];
      assert w.received + [] == w.received;
    } else {
      RequestRecovered(token, w.packet, keyType, index, pwd);
      sent := [Scrambled(prepared.packet, token.serial)[..27]];
    }
  }

  lemma ReportThenRest(token: Token, first: seq<seq<Byte>>, rest: seq<seq<Byte>>, keyType: Byte, index: nat,
                       pwd: Option<Password>)
    requires |first| == 1 && index < CHUNKS && RequestsInOrder(token, first, keyType, index, pwd)
    requires RequestsInOrder(token, rest, keyType, index + 1, pwd)
    ensures RequestsInOrder(token, first + rest, keyType, index, pwd)
  {
    assert Recovers(token, first[0], keyType, index + 0, pwd);
    NextRequest(token, first[0], rest, keyType, index, pwd);
    assert [first[0]] + rest == first + rest;
  }

  lemma JoinReports(before: seq<seq<Byte>>, first: seq<seq<Byte>>, rest: seq<seq<Byte>>)
    ensures before + first + rest == before + (first + rest) && before + [] == before
  {
  }

  /** The requests of a fetch, whatever the token answers. */
  lemma {:induction false} FetchRequests(token: Token, keyType: Byte, pwd: Option<Password>, w: Wire, index: Progress,
                                         replies: seq<ReplyOrFailure>) returns (b: Answer, sent: seq<seq<Byte>>)
    ensures b == Fetch(token, keyType, pwd, w, index, replies)
    ensures b.wire.received == w.received + sent && RequestsInOrder(token, sent, keyType, index, pwd)
    ensures b.res == 0 ==> index + |sent| == CHUNKS
    decreases CHUNKS - index
  {
    if index == CHUNKS {
      b, sent := Answer(0, w), [];
      JoinReports(w.received, [], []);
    } else {
      b, sent := SendReports(token, keyType, pwd, w, index, replies);
      if b.res == 0 {
        var middle, first, rest := b.wire, sent, [];
        b, rest := FetchRequests(token, keyType, pwd, middle, index + 1, replies);
        ReportThenRest(token, first, rest, keyType, index, pwd);
        JoinReports(w.received, first, rest);
        sent := first + rest;
      }
    }
  }

  // ---- Both keys ----

  lemma WholeKey(w: Wire, outcomes: seq<Outcome>, a: Answer)
    requires |outcomes| == CHUNKS
    requires forall o :: o in outcomes ==> if o.Chunk? then |o.bytes| == 16 else o.code > 0
    requires Lands([], Tail(w.result, CHUNKS), w.turn, outcomes, a)
    ensures if AllChunks(outcomes) then
              && a.res == 0 && a.wire.turn == w.turn + CHUNKS && |KeyBytes(outcomes)| == KEY_LENGTH
              && a.wire.result == KeyBytes(outcomes) + Tail(w.result, CHUNKS)
              && a.wire.result[..KEY_LENGTH] == KeyBytes(outcomes)
            else
              a.res == -outcomes[FirstFailure(outcomes)].code < 0
  {
    if AllChunks(outcomes) {
      KeyLength(outcomes);
      assert [] + KeyBytes(outcomes) == KeyBytes(outcomes);
    } else {
      assert outcomes[FirstFailure(outcomes)] in outcomes;
    }
  }

  lemma {:induction false} KeyLength(outcomes: seq<Outcome>)
    requires AllChunks(outcomes) && forall i :: 0 <= i < |outcomes| ==> |outcomes[i].bytes| == 16
    ensures |KeyBytes(outcomes)| == 16 * |outcomes|
  {
    if outcomes != [] { KeyLength(outcomes[1..]); }
  }

  /** The scratch buffer between the two keys: the first key, and what is left of the old bytes. */
  ghost function Between(token: Token, replies: seq<ReplyOrFailure>, turn: nat, scratch: Scratch): (between: Scratch)
    requires AllChunks(Outcomes(token, replies, turn, scratch, 0))
    ensures |between| == |scratch|
  {
    KeyLength(Outcomes(token, replies, turn, scratch, 0));
    KeyBytes(Outcomes(token, replies, turn, scratch, 0)) + Tail(scratch, CHUNKS)
  }

  /** What the caller gets from a transfer that began at `turn` with `scratch` in the scratch buffer. */
  ghost predicate Exact(token: Token, replies: seq<ReplyOrFailure>, turn: nat, scratch: Scratch, k: KeyAnswer) {
    var first := Outcomes(token, replies, turn, scratch, 0);
    if !AllChunks(first) then
      k.res == first[FirstFailure(first)].code > 0 && k.key == None && k.exponent == None
    else
      var second := Outcomes(token, replies, turn + CHUNKS, Between(token, replies, turn, scratch), 0);
      && k.key == Some(KeyBytes(first))
      && if AllChunks(second) then k.res == 0 && k.exponent == Some(KeyBytes(second))
         else k.res == second[FirstFailure(second)].code > 0 && k.exponent == None
  }

  /**
   Key transfer is exact. It succeeds if and only if all sixteen exchanges deliver their chunks, and then the two keys
   are the chunks in the order of their indices; otherwise the error is that of the first exchange that does not, it
   is positive, and no exponent is written. Where a reply is cut short, its chunk has the bytes that the scratch
   buffer held there.
   */
  lemma KeyTransferIsExact(token: Token, keyType: Byte, pwd: Option<Password>, w: Wire, replies: seq<ReplyOrFailure>)
    ensures Exact(token, replies, w.turn, w.result, GetKey(token, keyType, pwd, w, replies))
  {
    var first := Outcomes(token, replies, w.turn, w.result, 0);
    assert w.result[0..] == w.result && w.result[..0] == [];
    var a := FetchLands(token, keyType, pwd, w.result, w, 0, replies, first);
    WholeKey(w, first, a);
    if a.res == 0 {
      var second := Outcomes(token, replies, a.wire.turn, a.wire.result, 0);
      assert a.wire.result[0..] == a.wire.result && a.wire.result[..0] == [];
      var b := FetchLands(token, KT_EXPONENT, pwd, a.wire.result, a.wire, 0, replies, second);
      WholeKey(a.wire, second, b);
    }
  }

  // ---- Whole replies ----

  ghost predicate Whole(e: Exchange) {
    e.Reply? ==> |e.report| == 18
  }

  ghost predicate AllWhole(replies: seq<ReplyOrFailure>, turn: nat, n: nat) {
    forall i :: turn <= i < turn + n ==> Whole(ExchangeAt(replies, i))
  }

  /** The scratch buffer plays no part in the outcomes of whole replies. */
  lemma {:induction false} WholeOutcomes(token: Token, replies: seq<ReplyOrFailure>, turn: nat, s: Scratch, t: Scratch,
                                         index: Progress) returns (outcomes: seq<Outcome>)
    requires AllWhole(replies, turn, CHUNKS - index)
    ensures outcomes == Outcomes(token, replies, turn, s, index) == Outcomes(token, replies, turn, t, index)
    decreases CHUNKS - index
  {
    outcomes := [];
    if index < CHUNKS {
      var rest := WholeOutcomes(token, replies, turn + 1, s, t, index + 1);
      var o := WholeThenRest(token, replies, turn, s, t, index);
      outcomes := [o] + rest;
    }
  }

  lemma WholeThenRest(token: Token, replies: seq<ReplyOrFailure>, turn: nat, s: Scratch, t: Scratch, index: ChunkIndex)
      returns (o: Outcome)
    requires Whole(ExchangeAt(replies, turn))
    ensures Outcomes(token, replies, turn, s, index) == [o] + Outcomes(token, replies, turn + 1, s, index + 1)
    ensures Outcomes(token, replies, turn, t, index) == [o] + Outcomes(token, replies, turn + 1, t, index + 1)
  {
    o := WholeOutcome(token, ExchangeAt(replies, turn), Tail(s, index)[..18], Tail(t, index)[..18]);
    OutcomeThenRest(token, replies, turn, s, index);
    OutcomeThenRest(token, replies, turn, t, index);
  }

  lemma OutcomeThenRest(token: Token, replies: seq<ReplyOrFailure>, turn: nat, start: Scratch, index: ChunkIndex)
    ensures Outcomes(token, replies, turn, start, index)
            == [OutcomeOf(token, ExchangeAt(replies, turn), Tail(start, index)[..18])]
               + Outcomes(token, replies, turn + 1, start, index + 1)
  {
  }

  lemma WholeOutcome(token: Token, e: ReplyOrFailure, window: Window, other: Window) returns (o: Outcome)
    requires Whole(e)
    ensures o == OutcomeOf(token, e, window) == OutcomeOf(token, e, other)
  {
    o := OutcomeOf(token, e, window);
    if e.Reply? { assert Received(e.report, window) == e.report == Received(e.report, other); }
  }

  /** And so the answer to whole replies is the same for every content of the scratch buffer. */
  lemma WholeTransfer(token: Token, replies: seq<ReplyOrFailure>, turn: nat, s: Scratch, t: Scratch, k: KeyAnswer)
    requires AllWhole(replies, turn, CHUNKS) && AllWhole(replies, turn + CHUNKS, CHUNKS)
    ensures Exact(token, replies, turn, s, k) <==> Exact(token, replies, turn, t, k)
  {
    var first := WholeOutcomes(token, replies, turn, s, t, 0);
    if AllChunks(first) {
      var second := WholeOutcomes(token, replies, turn + CHUNKS, Between(token, replies, turn, s),
                                  Between(token, replies, turn, t), 0);
    }
  }

  /** The caller gets the status and the chunk that the token put into its reply. */
  lemma ReplyRecovered(token: Token, status: Byte, chunk: seq<Byte>, window: Window)
    requires |chunk| == 16 && token.selected
    ensures var reply := Reply([REPLY_REPORT] + Scramble([status] + chunk, ReplyKey(KeyOf(token.serial))));
            OutcomeOf(token, reply, window) == if status in {0, 128} then Chunk(chunk) else Fails(status)
  {
    var plain := [status] + chunk;
    var report := [REPLY_REPORT] + Scramble(plain, ReplyKey(KeyOf(token.serial)));
    assert report[1..] == Scramble(plain, ReplyKey(KeyOf(token.serial)));
    assert Received(report, window) == report;
    DecryptReply(plain, KeyOf(token.serial));
    assert plain[0] == status && plain[1..] == chunk;
  }

  /**
   All requests of a transfer, in order: whatever the token answers and however often the packet buffer has been
   scrambled already, the token recovers opcode, password, key type and index from each.
   */
  lemma KeyRequestsAreRecovered(token: Token, keyType: Byte, pwd: Option<Password>, w: Wire,
                                replies: seq<ReplyOrFailure>)
      returns (keys: seq<seq<Byte>>, exponents: seq<seq<Byte>>)
    ensures GetKey(token, keyType, pwd, w, replies).wire.received == w.received + keys + exponents
    ensures RequestsInOrder(token, keys, keyType, 0, pwd) && RequestsInOrder(token, exponents, KT_EXPONENT, 0, pwd)
    ensures var k := GetKey(token, keyType, pwd, w, replies);
            (if k.key.Some? then |keys| == CHUNKS else exponents == []) && (k.res == 0 ==> |exponents| == CHUNKS)
  {
    var a, b;
    a, keys := FetchRequests(token, keyType, pwd, w, 0, replies);
    exponents := [];
    if a.res == 0 {
      b, exponents := FetchRequests(token, KT_EXPONENT, pwd, a.wire, 0, replies);
    } else {
      assert w.received + keys + [] == w.received + keys;
    }
  }

  // ---- Replies that are cut short ----

  /** The status that a reply at `at` has, and the 16 bytes that it leaves there. */
  function StatusAt(token: Token, report: Report, result: Scratch, at: Position): Byte
  {
    Plain(token, Frame(report, result, at))[0]
  }

  function ChunkAt(token: Token, report: Report, result: Scratch, at: Position): (chunk: seq<Byte>)
    ensures |chunk| == 16
  {
    Plain(token, Frame(report, result, at))[1..]
  }

  lemma LastByteOfChunk(token: Token, report: Report, result: Scratch, at: Position)
    requires |report| < 18
    ensures ChunkAt(token, report, result, at)[15] == Xor(result[at + 17], KeyOf(token.serial).groups[4])
  {
    var frame := Frame(report, result, at);
    assert frame[17] == result[at + 17];
    assert Plain(token, frame)[16] == GroupByte(frame[1..], KeyOf(token.serial), 16);
  }

  /** The status comes from the second byte, wherever that comes from. */
  lemma StatusOfReply(token: Token, report: Report, result: Scratch, at: Position)
    ensures StatusAt(token, report, result, at)
            == Xor(if |report| >= 2 then report[1] else result[at + 1], KeyOf(token.serial).reply0)
  {
    var frame := Frame(report, result, at);
    assert frame[1..][0] == frame[1] == if |report| >= 2 then report[1] else result[at + 1];
  }

  /**
   Nothing looks at the number of bytes that a reply has. Its chunk is determined by the reply if and only if the
   reply is whole; otherwise old bytes of the scratch buffer are part of it.
   */
  lemma ChunkDeterminedIffWhole(token: Token, report: Report, at: Position)
    ensures (forall r1: Scratch, r2: Scratch :: ChunkAt(token, report, r1, at) == ChunkAt(token, report, r2, at))
            <==> |report| == 18
  {
    if |report| < 18 {
      var r1: Scratch, r2: Scratch := seq(SCRATCH_LENGTH, _ => 0), seq(SCRATCH_LENGTH, _ => 1);
      var mask := KeyOf(token.serial).groups[4];
      LastByteOfChunk(token, report, r1, at);
      LastByteOfChunk(token, report, r2, at);
      XorCancels(0, mask);
      XorCancels(1, mask);
      assert ChunkAt(token, report, r1, at)[15] != ChunkAt(token, report, r2, at)[15];
    } else {
      forall r1: Scratch, r2: Scratch ensures ChunkAt(token, report, r1, at) == ChunkAt(token, report, r2, at) {
        assert Frame(report, r1, at) == report && Frame(report, r2, at) == report;
      }
    }
  }

  /** And its status is if and only if the reply has two bytes: an empty one is judged by an old byte alone. */
  lemma StatusDeterminedIff(token: Token, report: Report, at: Position)
    ensures (forall r1: Scratch, r2: Scratch :: StatusAt(token, report, r1, at) == StatusAt(token, report, r2, at))
            <==> |report| >= 2
  {
    if |report| < 2 {
      var r1: Scratch, r2: Scratch := seq(SCRATCH_LENGTH, _ => 0), seq(SCRATCH_LENGTH, _ => 1);
      StatusOfReply(token, report, r1, at);
      StatusOfReply(token, report, r2, at);
      XorCancels(0, KeyOf(token.serial).reply0);
      XorCancels(1, KeyOf(token.serial).reply0);
      assert StatusAt(token, report, r1, at) != StatusAt(token, report, r2, at);
    } else {
      forall r1: Scratch, r2: Scratch ensures StatusAt(token, report, r1, at) == StatusAt(token, report, r2, at) {
        StatusOfReply(token, report, r1, at);
        StatusOfReply(token, report, r2, at);
      }
    }
  }

  /** A reply of any length is taken on that status, with that chunk. */
  lemma ShortReplyAccepted(token: Token, report: Report, at: Position, w: Wire, replies: seq<ReplyOrFailure>)
    requires token.selected && ExchangeAt(replies, w.turn) == Reply(report)
    ensures Send(token, KEY_REPORT, at, w, replies).res
            == ResultCode(Xor(if |report| >= 2 then report[1] else w.result[at + 1], KeyOf(token.serial).reply0))
    ensures Send(token, KEY_REPORT, at, w, replies).wire.result[at..at + 16] == ChunkAt(token, report, w.result, at)
  {
    StatusOfReply(token, report, w.result, at);
    MovedChunk(w.result, at, Plain(token, Frame(report, w.result, at)));
  }

  lemma MovedChunk(result: Scratch, at: Position, plain: Plaintext)
    ensures Moved(result, at, plain)[at..at + 16] == plain[1..]
  {
    var moved := Moved(result, at, plain);
    assert moved == result[..at] + (plain[1..] + (result[at + 18..at + 20] + result[at + 18..]));
  }

  // ---- The length of the scratch buffer ----

  /** The places that a reply received at `at` is written to, and those that moving it down reads. */
  predicate Touches(at: nat, k: nat) {
    var length := REPORT_LENGTH[REPLY_REPORT];
    at <= k < at + length || at + 2 <= k < at + 2 + length
  }

  /** A reply can be received at `at`, decrypted and moved down in a buffer of this length. */
  ghost predicate InBounds(at: nat, length: nat) {
    forall k: nat :: Touches(at, k) ==> k < length
  }

  lemma InBoundsAt(at: nat, length: nat)
    ensures InBounds(at, length) <==> at + 20 <= length
  {
    assert Touches(at, at + 19);
  }

  /** A fetch stays inside its scratch buffer if and only if that has at least 132 bytes; the code allocates 128. */
  lemma InBoundsIff(length: nat)
    ensures (forall index: nat :: index < CHUNKS ==> InBounds(16 * index, length)) <==> length >= SCRATCH_LENGTH
  {
    forall index: nat | index < CHUNKS ensures InBounds(16 * index, length) <==> 16 * index + 20 <= length {
      InBoundsAt(16 * index, length);
    }
    if length < SCRATCH_LENGTH { assert !InBounds(16 * (CHUNKS - 1), length); }
  }
}
