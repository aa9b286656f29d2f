/**
 The scan of a HID report descriptor for the device's Usage Page and Usage (hid-libusb.c, `get_bytes` and `get_usage`),
 against the items of sections 6.2.2.2 and 6.2.2.3 of the HID specification, version 1.11.
 */
module HidDescriptor {
  import opened Common

  const USAGE_PAGE: nat := 0x04
  const USAGE: nat := 0x08

  // ---- Items ----

  /** An item as the scan sees it: the upper six bits of its key, and its value. */
  datatype Item = Item(command: nat, value: nat)

  function LittleEndian(data: seq<Byte>): nat {
    if data == [] then 0 else data[0] + 256 * LittleEndian(data[1..])
  }

  function Pow256(k: nat): nat {
    if k == 0 then 1 else 256 * Pow256(k - 1)
  }

  /** The value of some bytes: each byte is the digit to the base 256 of its place, from the lowest on. */
  lemma {:induction false} LittleEndianDigit(data: seq<Byte>, k: nat)
    requires k < |data|
    ensures LittleEndian(data) < Pow256(|data|) && Pow256(k) > 0
    ensures LittleEndian(data) / Pow256(k) % 256 == data[k]
  {
    LittleEndianBelow(data);
    if k > 0 {
      LittleEndianDigit(data[1..], k - 1);
      ShiftedDigit(LittleEndian(data), data[0], LittleEndian(data[1..]), Pow256(k - 1));
    }
  }

  lemma ShiftedDigit(n: nat, low: Byte, high: nat, p: nat)
    requires n == low + 256 * high && p > 0
    ensures n / (256 * p) == high / p
  {
    var q, r := high / p, high % p;
    assert high == q * p + r;
    assert n == q * (256 * p) + (256 * r + low);
    assert 0 <= 256 * r + low < 256 * p;
    QuotientIs(n, 256 * p, q, 256 * r + low);
  }

  lemma QuotientIs(n: nat, d: nat, q: nat, r: nat)
    requires n == q * d + r && r < d
    ensures n / d == q
  {
    var q', r' := n / d, n % d;
    assert n == q' * d + r' && r' < d;
    if q' > q { NextMultiple(q, q', d); }
    if q' < q { NextMultiple(q', q, d); }
  }

  lemma {:induction false} NextMultiple(a: nat, b: nat, d: nat)
    requires a < b
    ensures a * d + d <= b * d
    decreases b
  {
    assert b * d == (b - 1) * d + d;
    if a + 1 < b { NextMultiple(a, b - 1, d); }
  }

  lemma {:induction false} LittleEndianBelow(data: seq<Byte>)
    ensures LittleEndian(data) < Pow256(|data|)
  {
    if data != [] { LittleEndianBelow(data[1..]); }
  }

  /** Who reads the descriptor: the scan, or somebody who follows the specification. */
  datatype Reader = Scan | Standard

  /** Section 6.2.2.3 has one key for long items; the scan takes every key with the same upper four bits for one. */
  predicate IsLong(who: Reader, key: Byte) {
    match who
    case Scan => key >= 0xF0
    case Standard => key == 0xFE
  }

  /** The length of the data behind the key of a short item. */
  function ShortLength(key: Byte): nat {
    if key % 4 == 3 then 4 else key % 4
  }

  /** How much data an item claims to have. A long item says so in its second byte, if it has one. */
  function DataLength(who: Reader, d: seq<Byte>, i: nat): nat
    requires i < |d|
  {
    if IsLong(who, d[i]) then (if i + 1 < |d| then d[i + 1] else 0)
    else ShortLength(d[i])
  }

  function NextItem(who: Reader, d: seq<Byte>, i: nat): (next: nat)
    requires i < |d|
    ensures next > i
  {
    i + DataLength(who, d, i) + if IsLong(who, d[i]) then 3 else 1
  }

  /**
   The value is the data, little end first; an item that is cut off by the end has the value 0, and so do long items.
   */
  function ItemAt(who: Reader, d: seq<Byte>, i: nat): Item
    requires i < |d|
  {
    var n := DataLength(who, d, i);
    Item(d[i] - d[i] % 4,
         if IsLong(who, d[i]) || i + 1 + n > |d| then 0 else LittleEndian(d[i + 1..i + 1 + n]))
  }

  /** The items from `i` on. */
  function Items(who: Reader, d: seq<Byte>, i: nat): seq<Item>
    decreases |d| - i
  {
    if i >= |d| then [] else [ItemAt(who, d, i)] + Items(who, d, NextItem(who, d, i))
  }

  // ---- Descriptors made of whole items ----

  datatype Written = Short(command: nat, data: seq<Byte>) | Long(key: Byte, tag: Byte, data: seq<Byte>)

  /** A short item must not look like a long one. */
  predicate WellFormed(who: Reader, w: Written) {
    match w
    case Short(command, data) =>
      command % 4 == 0 && command < 0x100 && |data| in {0, 1, 2, 4} && !IsLong(who, ShortKey(command, |data|))
    case Long(key, _, data) => IsLong(who, key) && |data| < 256
  }

  function ShortKey(command: nat, length: nat): Byte
    requires command % 4 == 0 && command < 0x100 && length in {0, 1, 2, 4}
  {
    command + if length == 4 then 3 else length
  }

  function Bytes(who: Reader, w: Written): seq<Byte>
    requires WellFormed(who, w)
  {
    match w
    case Short(command, data) => [ShortKey(command, |data|)] + data
    case Long(key, tag, data) => [key, |data|, tag] + data
  }

  function Descriptor(who: Reader, ws: seq<Written>): seq<Byte>
    requires forall w :: w in ws ==> WellFormed(who, w)
  {
    if ws == [] then [] else Bytes(who, ws[0]) + Descriptor(who, ws[1..])
  }

  function Meaning(w: Written): Item {
    match w
    case Short(command, data) => Item(command, LittleEndian(data))
    case Long(key, _, _) => Item(key - key % 4, 0)
  }

  function Meanings(ws: seq<Written>): seq<Item> {
    if ws == [] then [] else [Meaning(ws[0])] + Meanings(ws[1..])
  }

  lemma FirstItem(who: Reader, w: Written, rest: seq<Byte>)
    requires WellFormed(who, w)
    ensures var d := Bytes(who, w) + rest; NextItem(who, d, 0) == |Bytes(who, w)| && ItemAt(who, d, 0) == Meaning(w)
  {
    var d := Bytes(who, w) + rest;
    if w.Short? {
      assert DataLength(who, d, 0) == |w.data|;
      assert d[1..1 + |w.data|] == w.data;
    } else {
      assert d[0] == w.key && d[1] == |w.data|;
    }
  }

  lemma ItemInSuffix(who: Reader, d: seq<Byte>, k: nat, suffix: seq<Byte>, i: nat)
    requires k <= |d| && suffix == d[k..] && i < |suffix|
    ensures ItemAt(who, d, k + i) == ItemAt(who, suffix, i) && NextItem(who, d, k + i) == k + NextItem(who, suffix, i)
  {
    var n := DataLength(who, suffix, i);
    assert n == DataLength(who, d, k + i);
    if i + 1 + n <= |suffix| { assert d[k + i + 1..k + i + 1 + n] == suffix[i + 1..i + 1 + n]; }
  }

  lemma {:induction false} ItemsInSuffix(who: Reader, d: seq<Byte>, k: nat, suffix: seq<Byte>, i: nat)
      returns (items: seq<Item>)
    requires k <= |d| && suffix == d[k..]
    ensures items == Items(who, d, k + i) == Items(who, suffix, i)
    decreases |suffix| - i
  {
    items := [];
    if i < |suffix| {
      ItemInSuffix(who, d, k, suffix, i);
      var rest := ItemsInSuffix(who, d, k, suffix, NextItem(who, suffix, i));
      items := [ItemAt(who, suffix, i)] + rest;
    }
  }

  lemma FirstThenRest(who: Reader, w: Written, rest: seq<Byte>, items: seq<Item>)
    requires WellFormed(who, w) && items == Items(who, rest, 0)
    ensures Items(who, Bytes(who, w) + rest, 0) == [Meaning(w)] + items
  {
    var d, first := Bytes(who, w) + rest, |Bytes(who, w)|;
    FirstItem(who, w, rest);
    assert d[first..] == rest;
    var later := ItemsInSuffix(who, d, first, rest, 0);
    assert d != [];
  }

  /** Both readers read back every descriptor that is made of whole items of theirs. */
  lemma {:induction false} ItemsOfDescriptor(who: Reader, ws: seq<Written>)
    requires forall w :: w in ws ==> WellFormed(who, w)
    ensures Items(who, Descriptor(who, ws), 0) == Meanings(ws)
  {
    if ws != [] {
      ItemsOfDescriptor(who, ws[1..]);
      FirstThenRest(who, ws[0], Descriptor(who, ws[1..]), Meanings(ws[1..]));
    }
  }

  // ---- What the scan looks for ----

  ghost predicate Has(items: seq<Item>, command: nat) {
    exists i :: 0 <= i < |items| && items[i].command == command
  }

  /** The most recent value of a command, in the sixteen bits of the result. */
  function Latest(items: seq<Item>, command: nat, otherwise: nat): nat {
    if items == [] then otherwise
    else if items[|items| - 1].command == command then items[|items| - 1].value % 0x1_0000
    else Latest(items[..|items| - 1], command, otherwise)
  }

  /** `Latest` is the value of the last item with the command. */
  lemma {:induction false} LatestIsLast(items: seq<Item>, command: nat, otherwise: nat)
    ensures !Has(items, command) ==> Latest(items, command, otherwise) == otherwise
    ensures forall i :: 0 <= i < |items| && items[i].command == command && !Has(items[i + 1..], command)
              ==> Latest(items, command, otherwise) == items[i].value % 0x1_0000
  {
    if items != [] {
      var n := |items| - 1;
      LatestIsLast(items[..n], command, otherwise);
      if items[n].command != command {
        assert Has(items[..n], command) ==> Has(items, command);
      }
      forall i | 0 <= i < |items| && items[i].command == command && !Has(items[i + 1..], command)
        ensures Latest(items, command, otherwise) == items[i].value % 0x1_0000
      {
        if i < n {
          assert items[i + 1..][n - i - 1] == items[n];
          assert items[..n][i + 1..] == items[i + 1..][..n - i - 1];
        }
      }
    }
  }

  /** The item at `k` is the first that completes the pair. */
  ghost predicate Completes(items: seq<Item>, k: nat) {
    && k < |items|
    && Has(items[..k + 1], USAGE_PAGE) && Has(items[..k + 1], USAGE)
    && !(Has(items[..k], USAGE_PAGE) && Has(items[..k], USAGE))
  }

  lemma HasOneMore(seen: seq<Item>, item: Item, command: nat)
    ensures Has(seen + [item], command) <==> Has(seen, command) || item.command == command
    ensures forall otherwise ::
      Latest(seen + [item], command, otherwise)
      == if item.command == command then item.value % 0x1_0000 else Latest(seen, command, otherwise)
  {
    var more := seen + [item];
    if Has(seen, command) {
      var i :| 0 <= i < |seen| && seen[i].command == command;
      assert more[i] == seen[i];
    }
    assert more[|seen|] == item && more[..|seen|] == seen;
  }

  /**
   The answer that the items give: success if and only if both kinds occur, and then with the most recent value of
   each at the item that first completes the pair; otherwise with the value of the one that has been met, if any.
   */
  ghost predicate Answers(items: seq<Item>, page0: nat, usage0: nat, res: int, page: nat, usage: nat) {
    if Has(items, USAGE_PAGE) && Has(items, USAGE) then
      && res == 0
      && exists k :: Completes(items, k) && page == Latest(items[..k + 1], USAGE_PAGE, page0)
                                         && usage == Latest(items[..k + 1], USAGE, usage0)
    else
      res == -1 && page == Latest(items, USAGE_PAGE, page0) && usage == Latest(items, USAGE, usage0)
  }

  // ---- Where the scan departs from the specification ----

  /** Both readers go on at the same place, or both are done. */
  ghost predicate StepAgrees(d: seq<Byte>, i: nat)
    requires i < |d|
  {
    var scan, standard := NextItem(Scan, d, i), NextItem(Standard, d, i);
    scan == standard || (scan >= |d| && standard >= |d|)
  }

  /**
   The exact condition at one item: its key is long for neither or for both, or it is the last byte, or the byte behind
   it makes the long item just as long as the short one, or the descriptor ends within both.
   */
  lemma StepAgreesIff(d: seq<Byte>, i: nat)
    requires i < |d|
    ensures StepAgrees(d, i)
            <==> || d[i] < 0xF0
                 || d[i] == 0xFE
                 || i + 1 == |d|
                 || (d[i] % 4 == 3 && d[i + 1] == 2)
                 || (d[i] % 4 == 2 && d[i + 1] == 0)
                 || (|d| <= i + 1 + ShortLength(d[i]) && |d| <= i + 3 + d[i + 1])
  {
    if i + 1 < |d| && d[i] >= 0xF0 && d[i] != 0xFE {
      assert NextItem(Scan, d, i) == i + d[i + 1] + 3;
      assert NextItem(Standard, d, i) == i + 1 + ShortLength(d[i]);
    }
  }

  /**
   They agree at every item that the scan comes to before it has its answer; `page` and `usage` say what it has met.
   */
  ghost predicate Agree(d: seq<Byte>, i: nat, page: bool, usage: bool)
    decreases |d| - i
  {
    if i >= |d| then true
    else
      var command := ItemAt(Scan, d, i).command;
      var page', usage' := page || command == USAGE_PAGE, usage || command == USAGE;
      (page' && usage') || (StepAgrees(d, i) && Agree(d, NextItem(Scan, d, i), page', usage'))
  }

  /** The same commands, and the same values of Usage Pages and Usages. */
  ghost predicate Alike(a: seq<Item>, b: seq<Item>) {
    && |a| == |b|
    && forall i :: 0 <= i < |a| ==>
         a[i].command == b[i].command && (a[i].command in {USAGE_PAGE, USAGE} ==> a[i].value == b[i].value)
  }

  /** What has been met, and what these items have, is the whole pair. */
  ghost predicate Both(page: bool, usage: bool, items: seq<Item>) {
    (page || Has(items, USAGE_PAGE)) && (usage || Has(items, USAGE))
  }

  /** The first items are alike, up to the ones that complete the pair or up to the end of both. */
  ghost predicate AlikeSoFar(a: seq<Item>, b: seq<Item>, n: nat, page: bool, usage: bool) {
    && n <= |a| && n <= |b| && Alike(a[..n], b[..n])
    && ((n == |a| && n == |b|) || Both(page, usage, a[..n]))
  }

  lemma OneMoreAlike(a: seq<Item>, b: seq<Item>, n: nat, page: bool, usage: bool, x: Item, y: Item)
    requires AlikeSoFar(a, b, n, page || x.command == USAGE_PAGE, usage || x.command == USAGE)
    requires x.command == y.command && (x.command in {USAGE_PAGE, USAGE} ==> x.value == y.value)
    ensures AlikeSoFar([x] + a, [y] + b, n + 1, page, usage)
  {
    assert ([x] + a)[..n + 1] == [x] + a[..n] && ([y] + b)[..n + 1] == [y] + b[..n];
    HasOneBefore(x, a[..n], USAGE_PAGE);
    HasOneBefore(x, a[..n], USAGE);
  }

  lemma HasOneBefore(x: Item, items: seq<Item>, command: nat)
    ensures Has([x] + items, command) <==> x.command == command || Has(items, command)
  {
    if x.command == command { assert ([x] + items)[0].command == command; }
    if i :| 0 <= i < |items| && items[i].command == command { assert ([x] + items)[i + 1].command == command; }
  }

  lemma {:induction false} AgreeingItemsAlike(d: seq<Byte>, i: nat, page: bool, usage: bool)
      returns (scan: seq<Item>, standard: seq<Item>, n: nat)
    requires Agree(d, i, page, usage)
    ensures scan == Items(Scan, d, i) && standard == Items(Standard, d, i)
    ensures AlikeSoFar(scan, standard, n, page, usage)
    decreases |d| - i
  {
    scan, standard, n := [], [], 0;
    if i < |d| {
      var x, y := ItemAt(Scan, d, i), ItemAt(Standard, d, i);
      var page', usage' := page || x.command == USAGE_PAGE, usage || x.command == USAGE;
      var a, b := Items(Scan, d, NextItem(Scan, d, i)), Items(Standard, d, NextItem(Standard, d, i));
      if !(page' && usage') && NextItem(Scan, d, i) == NextItem(Standard, d, i) {
        a, b, n := AgreeingItemsAlike(d, NextItem(Scan, d, i), page', usage');
      }
      OneMoreAlike(a, b, n, page, usage, x, y);
      scan, standard, n := [x] + a, [y] + b, n + 1;
    }
  }

  lemma AlikeHas(a: seq<Item>, b: seq<Item>, command: nat)
    requires Alike(a, b)
    ensures Has(a, command) <==> Has(b, command)
  {
    if i :| 0 <= i < |a| && a[i].command == command { assert b[i].command == command; }
    if i :| 0 <= i < |b| && b[i].command == command { assert a[i].command == command; }
  }

  lemma {:induction false} AlikeLatest(a: seq<Item>, b: seq<Item>, command: nat, otherwise: nat)
    requires Alike(a, b) && command in {USAGE_PAGE, USAGE}
    ensures Latest(a, command, otherwise) == Latest(b, command, otherwise)
  {
    if a != [] { AlikeLatest(a[..|a| - 1], b[..|b| - 1], command, otherwise); }
  }

  lemma HasInLonger(items: seq<Item>, m: nat, n: nat, command: nat)
    requires m <= n <= |items|
    ensures Has(items[..m], command) ==> Has(items[..n], command)
  {
    if j :| 0 <= j < m && items[..m][j].command == command { assert items[..n][j].command == command; }
  }

  /** The item that first completes the pair is among the first `n`, if they have the pair. */
  lemma CompletesBefore(items: seq<Item>, k: nat, n: nat)
    requires Completes(items, k) && n <= |items| && Both(false, false, items[..n])
    ensures k < n
  {
    if n <= k {
      HasInLonger(items, n, k, USAGE_PAGE);
      HasInLonger(items, n, k, USAGE);
    }
  }

  lemma AlikeCompletes(a: seq<Item>, b: seq<Item>, n: nat, k: nat)
    requires n <= |a| && n <= |b| && Alike(a[..n], b[..n]) && k < n && Completes(a, k)
    ensures Completes(b, k) && Has(b, USAGE_PAGE) && Has(b, USAGE) && Alike(a[..k + 1], b[..k + 1])
  {
    assert forall m :: 0 <= m <= n ==> a[..n][..m] == a[..m] && b[..n][..m] == b[..m];
    assert Alike(a[..k], b[..k]) && Alike(a[..k + 1], b[..k + 1]);
    AlikeHas(a[..k], b[..k], USAGE_PAGE);
    AlikeHas(a[..k], b[..k], USAGE);
    AlikeHas(a[..k + 1], b[..k + 1], USAGE_PAGE);
    AlikeHas(a[..k + 1], b[..k + 1], USAGE);
    assert b[..|b|] == b;
    HasInLonger(b, k + 1, |b|, USAGE_PAGE);
    HasInLonger(b, k + 1, |b|, USAGE);
  }

  lemma AlikeAnswers(a: seq<Item>, b: seq<Item>, n: nat, page0: nat, usage0: nat, res: int, page: nat, usage: nat)
    requires AlikeSoFar(a, b, n, false, false) && Answers(a, page0, usage0, res, page, usage)
    ensures Answers(b, page0, usage0, res, page, usage)
  {
    assert a[..|a|] == a && b[..|b|] == b;
    if res == 0 {
      var k: nat :| Completes(a, k) && page == Latest(a[..k + 1], USAGE_PAGE, page0)
                               && usage == Latest(a[..k + 1], USAGE, usage0);
      if n < |a| { CompletesBefore(a, k, n); }
      AlikeCompletes(a, b, n, k);
      AlikeLatest(a[..k + 1], b[..k + 1], USAGE_PAGE, page0);
      AlikeLatest(a[..k + 1], b[..k + 1], USAGE, usage0);
    } else {
      HasInLonger(a, n, |a|, USAGE_PAGE);
      HasInLonger(a, n, |a|, USAGE);
      AlikeHas(a, b, USAGE_PAGE);
      AlikeHas(a, b, USAGE);
      AlikeLatest(a, b, USAGE_PAGE, page0);
      AlikeLatest(a, b, USAGE, usage0);
    }
  }

  /** On every descriptor on which they agree, the answer of the scan is the one that the specification gives. */
  lemma AnswerIsStandard(d: seq<Byte>, page0: nat, usage0: nat, res: int, page: nat, usage: nat)
    requires Agree(d, 0, false, false) && Answers(Items(Scan, d, 0), page0, usage0, res, page, usage)
    ensures Answers(Items(Standard, d, 0), page0, usage0, res, page, usage)
  {
    var scan, standard, n := AgreeingItemsAlike(d, 0, false, false);
    AlikeAnswers(scan, standard, n, page0, usage0, res, page, usage);
  }

  /**
   A descriptor on which they do not: a reserved short item without data, and then a Usage Page and a Usage. The scan
   takes it for a long item that goes beyond the end.
   */
  lemma ReservedItemHidesUsage()
    ensures var d := [0xF0, 0x05, 0x01, 0x09, 0x06];
            && Items(Scan, d, 0) == [Item(0xF0, 0)] && Answers(Items(Scan, d, 0), 0, 0, -1, 0, 0)
            && Items(Standard, d, 0) == [Item(0xF0, 0), Item(USAGE_PAGE, 1), Item(USAGE, 6)]
            && Answers(Items(Standard, d, 0), 0, 0, 0, 1, 6)
  {
    var d: seq<Byte> := [0xF0, 0x05, 0x01, 0x09, 0x06];
    var scan, standard := [Item(0xF0, 0)], [Item(0xF0, 0), Item(USAGE_PAGE, 1), Item(USAGE, 6)];
    assert NextItem(Scan, d, 0) == 8;
    assert NextItem(Standard, d, 0) == 1 && NextItem(Standard, d, 1) == 3 && NextItem(Standard, d, 3) == 5;
    assert d[1..1] == [] && d[2..3] == [1] && d[4..5] == [6];
    assert Items(Standard, d, 5) == [] && Items(Standard, d, 3) == [Item(USAGE, 6)];
    assert Items(Standard, d, 1) == [Item(USAGE_PAGE, 1), Item(USAGE, 6)];
    assert scan[..0] == [] && standard[1].command == USAGE_PAGE && standard[2].command == USAGE;
    assert standard[..3] == standard && standard[..2] == [Item(0xF0, 0), Item(USAGE_PAGE, 1)];
    assert Completes(standard, 2);
    assert !Has(scan, USAGE_PAGE) && Latest(scan, USAGE_PAGE, 0) == 0 && Latest(scan, USAGE, 0) == 0;
    assert Latest(standard[..2], USAGE_PAGE, 0) == 1;
    assert Latest(standard[..3], USAGE_PAGE, 0) == 1 && Latest(standard[..3], USAGE, 0) == 6;
  }

  // ---- The scan ----

  /** `get_bytes`: the data behind the key at `cur`, or 0 when it does not fit into the descriptor. */
  function GetBytes(d: seq<Byte>, n: nat, cur: nat): (r: nat)
    ensures n in {0, 1, 2, 4} ==> r == if cur + 1 + n > |d| then 0 else LittleEndian(d[cur + 1..cur + 1 + n])
  {
    if cur + n >= |d| then 0
    else
      LittleEndianUnfolds(d[cur + 1..cur + 1 + n]);
      if n == 0 then 0
      else if n == 1 then d[cur + 1]
      else if n == 2 then 256 * (d[cur + 2] as int) + d[cur + 1]
      else if n == 4 then 
        0x0100_0000 * (d[cur + 4] as int) + 0x0001_0000 * (d[cur + 3] as int) + 0x0000_0100 * (d[cur + 2] as int)
        + d[cur + 1]
      else 0
  }

  lemma LittleEndianUnfolds(data: seq<Byte>)
    ensures |data| == 1 ==> LittleEndian(data) == data[0]
    ensures |data| == 2 ==> LittleEndian(data) == 256 * (data[1] as int) + data[0]
    ensures |data| == 4 ==>
      LittleEndian(data)
      == 0x0100_0000 * (data[3] as int) + 0x0001_0000 * (data[2] as int) + 0x0000_0100 * (data[1] as int) + data[0]
  {
    if |data| == 4 {
      LittleEndianUnfolds(data[2..]);
      assert LittleEndian(data[1..]) == data[1] + 256 * LittleEndian(data[2..]);
    }
  }

  /** `get_usage`: the answer of the scan's items, which is that of the standard's items wherever the two agree. */
  method GetUsage(d: seq<Byte>, page0: nat, usage0: nat) returns (res: int, page: nat, usage: nat)
    ensures Answers(Items(Scan, d, 0), page0, usage0, res, page, usage)
    ensures Agree(d, 0, false, false) ==> Answers(Items(Standard, d, 0), page0, usage0, res, page, usage)
  {
    page, usage := page0, usage0;
    var i, pageFound, usageFound := 0, false, false;
    ghost var items, seen := Items(Scan, d, 0), [];
    while i < |d|
      invariant items == seen + Items(Scan, d, i)
      invariant pageFound == Has(seen, USAGE_PAGE) && usageFound == Has(seen, USAGE) && !(pageFound && usageFound)
      invariant page == Latest(seen, USAGE_PAGE, page0) && usage == Latest(seen, USAGE, usage0)
      decreases |d| - i
    {
      var command, dataLength, keySize := ReadKey(d, i);
      ghost var item := ItemAt(Scan, d, i);
      if command == USAGE_PAGE {
        page := ReadValue(d, dataLength, i);
        pageFound := true;
      }
      if command == USAGE {
        usage := ReadValue(d, dataLength, i);
        usageFound := true;
      }
      SeesNext(items, seen, item, Items(Scan, d, NextItem(Scan, d, i)), page0, usage0);
      if pageFound && usageFound {
        res := 0;
        if Agree(d, 0, false, false) { AnswerIsStandard(d, page0, usage0, res, page, usage); }
        return;
      }
      seen := seen + [item];
      i := i + dataLength + keySize;
    }
    assert items == seen;
    res := -1;
    if Agree(d, 0, false, false) { AnswerIsStandard(d, page0, usage0, res, page, usage); }
  }

  lemma PairFound(items: seq<Item>, seen: seq<Item>, item: Item)
    requires |seen| < |items| && items[..|seen|] == seen && items[..|seen| + 1] == seen + [item]
    requires Has(seen + [item], USAGE_PAGE) && Has(seen + [item], USAGE) && !(Has(seen, USAGE_PAGE) && Has(seen, USAGE))
    ensures Completes(items, |seen|) && Has(items, USAGE_PAGE) && Has(items, USAGE)
  {
    assert items[..|items|] == items;
    HasInLonger(items, |seen| + 1, |items|, USAGE_PAGE);
    HasInLonger(items, |seen| + 1, |items|, USAGE);
  }

  /** The key of the item at `i`: its command, the length of its data and its own. */
  method ReadKey(d: seq<Byte>, i: nat) returns (command: nat, dataLength: nat, keySize: nat)
    requires i < |d|
    ensures command == ItemAt(Scan, d, i).command && dataLength == DataLength(Scan, d, i)
    ensures i + dataLength + keySize == NextItem(Scan, d, i)
  {
    var key := d[i];
    command := key - key % 4;
    if key >= 0xF0 {
      dataLength := if i + 1 < |d| then d[i + 1] else 0;
      keySize := 3;
    } else {
      dataLength := if key % 4 == 3 then 4 else key % 4;
      keySize := 1;
    }
  }

  /** The value of the item at `i`, cut to sixteen bits. */
  method ReadValue(d: seq<Byte>, dataLength: nat, i: nat) returns (value: nat)
    requires i < |d| && dataLength == DataLength(Scan, d, i) && ItemAt(Scan, d, i).command in {USAGE_PAGE, USAGE}
    ensures value == ItemAt(Scan, d, i).value % 0x1_0000
  {
    value := GetBytes(d, dataLength, i) % 0x1_0000;
  }

  /** One item more has been seen. */
  lemma SeesNext(items: seq<Item>, seen: seq<Item>, item: Item, rest: seq<Item>, page0: nat, usage0: nat)
    requires items == seen + ([item] + rest)
    ensures var more := seen + [item];
            && items == more + rest && |seen| < |items| && items[..|seen| + 1] == more
            && Has(more, USAGE_PAGE) == (Has(seen, USAGE_PAGE) || item.command == USAGE_PAGE)
            && Has(more, USAGE) == (Has(seen, USAGE) || item.command == USAGE)
            && Latest(more, USAGE_PAGE, page0)
               == (if item.command == USAGE_PAGE then item.value % 0x1_0000 else Latest(seen, USAGE_PAGE, page0))
            && Latest(more, USAGE, usage0)
               == (if item.command == USAGE then item.value % 0x1_0000 else Latest(seen, USAGE, usage0))
            && (Both(false, false, more) && !Both(false, false, seen) ==>
                  Completes(items, |seen|) && Both(false, false, items))
  {
    assert items[..|seen|] == seen && items[..|seen| + 1] == seen + [item];
    HasOneMore(seen, item, USAGE_PAGE);
    HasOneMore(seen, item, USAGE);
    if Both(false, false, seen + [item]) && !Both(false, false, seen) { PairFound(items, seen, item); }
  }
}
