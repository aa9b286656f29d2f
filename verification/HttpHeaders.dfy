/** Reading HTTP headers out of a block of text (SimpleStreamHelper.cpp, `parse_http_headers`). */
module HttpHeaders {

  datatype Header = Header(name: string, value: string)

  predicate IsBreak(c: char) {
    c == '\r' || c == '\n'
  }

  predicate IsSpace(c: char) {
    IsBreak(c) || c == ' ' || c == '\t' || c as int == 11 || c as int == 12
  }

  // ---- The library's functions ----

  function Split(text: string): (lines: seq<string>)
    ensures lines != []
  {
    if text == [] then [[]]
    else
      var rest := Split(text[1..]);
      if IsBreak(text[0]) then [[]] + rest else [[text[0]] + rest[0]] + rest[1..]
  }

  function TrimLeft(s: string): string {
    if s != [] && IsSpace(s[0]) then TrimLeft(s[1..]) else s
  }

  function TrimRight(s: string): string {
    if s == [] then []
    else
      var rest := TrimRight(s[1..]);
      if rest == [] && IsSpace(s[0]) then [] else [s[0]] + rest
  }

  function Trim(s: string): string {
    TrimRight(TrimLeft(s))
  }

  /** The first position of `c`, or the length. */
  function Find(s: string, c: char): (loc: nat)
    ensures loc <= |s| && c !in s[..loc] && (loc < |s| ==> s[loc] == c)
  {
    if s == [] || s[0] == c then 0 else 1 + Find(s[1..], c)
  }

  // ---- The parser ----

  /** What one line adds: nothing when it is blank or has no colon. */
  function Entry(untrimmed: string): seq<Header> {
    var line := Trim(untrimmed);
    var loc := Find(line, ':');
    if line == [] || loc == |line| then [] else [Header(Trim(line[..loc]), Trim(line[loc + 1..]))]
  }

  function Entries(lines: seq<string>): seq<Header> {
    if lines == [] then [] else Entry(lines[0]) + Entries(lines[1..])
  }

  /** The headers in the order of their insertion into the multimap. */
  method ParseHttpHeaders(headers: string) returns (res: seq<Header>)
    ensures res == Entries(Split(headers))
  {
    var lines := Split(headers);
    res := [];
    var it := 0;
    while it < |lines|
      invariant it <= |lines| && res + Entries(lines[it..]) == Entries(lines)
    {
      EntriesFrom(lines, it);
      JoinEntries(res, Entry(lines[it]), Entries(lines[it + 1..]));
      res := InsertLine(res, lines[it]);
      it := it + 1;
    }
    assert res + [] == res;
  }

  method InsertLine(headers: seq<Header>, untrimmed: string) returns (res: seq<Header>)
    ensures res == headers + Entry(untrimmed)
  {
    var line := Trim(untrimmed);
    if line == [] { return headers; }
    var loc := Find(line, ':');
    if loc == |line| { return headers; }
    res := headers + [Header(Trim(line[..loc]), Trim(line[loc + 1..]))];
  }

  lemma EntriesFrom(lines: seq<string>, i: nat)
    requires i < |lines|
    ensures Entries(lines[i..]) == Entry(lines[i]) + Entries(lines[i + 1..])
  {
    assert lines[i..][1..] == lines[i + 1..];
  }

  lemma JoinEntries(a: seq<Header>, b: seq<Header>, c: seq<Header>)
    ensures a + (b + c) == a + b + c
  {
  }

  // ---- Trimming ----

  predicate AllSpace(s: string) {
    forall c :: c in s ==> IsSpace(c)
  }

  /** Trimming takes all white space, which is these six characters, from both ends and nothing else. */
  lemma TrimMeans(s: string) returns (left: string, right: string)
    ensures s == left + Trim(s) + right && forall c :: c in left + right ==> c as int in {9, 10, 11, 12, 13, 32}
    ensures Trim(s) != [] ==>
      Trim(s)[0] as int !in {9, 10, 11, 12, 13, 32} && Trim(s)[|Trim(s)| - 1] as int !in {9, 10, 11, 12, 13, 32}
  {
    left := TrimsLeft(s);
    right := TrimsRight(TrimLeft(s));
  }

  lemma {:induction false} TrimsLeft(s: string) returns (left: string)
    ensures s == left + TrimLeft(s) && AllSpace(left) && (TrimLeft(s) != [] ==> !IsSpace(TrimLeft(s)[0]))
  {
    left := [];
    if s != [] && IsSpace(s[0]) {
      left := TrimsLeft(s[1..]);
      left := [s[0]] + left;
    }
  }

  lemma {:induction false} TrimsRight(s: string) returns (right: string)
    ensures var t := TrimRight(s);
            s == t + right && AllSpace(right) && (t != [] ==> t[0] == s[0] && !IsSpace(t[|t| - 1]))
  {
    right := [];
    if s != [] {
      right := TrimsRight(s[1..]);
      if TrimRight(s[1..]) == [] && IsSpace(s[0]) { right := [s[0]] + right; }
    }
  }

  lemma {:induction false} TrimLeftStops(a: string, b: string)
    ensures TrimLeft(a + [':'] + b) == TrimLeft(a) + [':'] + b
  {
    if a != [] && IsSpace(a[0]) {
      assert (a + [':'] + b)[1..] == a[1..] + [':'] + b;
      TrimLeftStops(a[1..], b);
    }
  }

  lemma {:induction false} TrimRightStops(a: string, b: string)
    ensures TrimRight(a + [':'] + b) == a + [':'] + TrimRight(b)
  {
    if a == [] {
      assert ([':'] + b)[1..] == b && a + [':'] + b == [':'] + b;
    } else {
      assert (a + [':'] + b)[1..] == a[1..] + [':'] + b;
      TrimRightStops(a[1..], b);
    }
  }

  lemma {:induction false} TrimLeftTwice(s: string)
    ensures TrimLeft(TrimLeft(s)) == TrimLeft(s)
  {
    if s != [] && IsSpace(s[0]) { TrimLeftTwice(s[1..]); }
  }

  lemma {:induction false} TrimRightTwice(s: string)
    ensures TrimRight(TrimRight(s)) == TrimRight(s)
  {
    if s != [] { TrimRightTwice(s[1..]); }
  }

  lemma {:induction false} TrimsCommute(s: string)
    ensures TrimLeft(TrimRight(s)) == TrimRight(TrimLeft(s))
  {
    if s != [] { TrimsCommute(s[1..]); }
  }

  lemma {:induction false} FindFirst(a: string, b: string)
    requires ':' !in a
    ensures Find(a + [':'] + b, ':') == |a|
  {
    if a != [] {
      assert (a + [':'] + b)[1..] == a[1..] + [':'] + b;
      FindFirst(a[1..], b);
    }
  }

  /**
   For every line with a colon: the name is what is before the first one, trimmed, and the value what is behind it.
   */
  lemma EntryOfLine(before: string, after: string)
    requires ':' !in before
    ensures Entry(before + [':'] + after) == [Header(Trim(before), Trim(after))]
  {
    var name, value := TrimLeft(before), TrimRight(after);
    TrimLeftStops(before, after);
    TrimRightStops(name, after);
    var line := name + [':'] + value;
    assert Trim(before + [':'] + after) == line;
    var left := TrimsLeft(before);
    var loc := Find(line, ':');
    FindFirst(name, value);
    assert line[..loc] == name && line[loc + 1..] == value;
    TrimLeftTwice(before);
    TrimsCommute(after);
    TrimRightTwice(TrimLeft(after));
  }

  lemma EntryWithoutColon(line: string)
    requires ':' !in line
    ensures Entry(line) == []
  {
    var left, right := TrimMeans(line);
    assert forall c :: c in Trim(line) ==> c in left + Trim(line) + right;
  }

  // ---- Print and parse ----

  /** A line: a header, with a colon between its two parts, or anything without a colon. */
  datatype Line = HeaderLine(before: string, after: string) | OtherLine(text: string)

  predicate NoBreak(s: string) {
    forall c :: c in s ==> !IsBreak(c)
  }

  predicate AllBreaks(s: string) {
    forall c :: c in s ==> IsBreak(c)
  }

  predicate WellFormed(line: Line) {
    match line
    case HeaderLine(before, after) => NoBreak(before) && ':' !in before && NoBreak(after)
    case OtherLine(text) => NoBreak(text) && ':' !in text
  }

  function Text(line: Line): string {
    match line
    case HeaderLine(before, after) => before + [':'] + after
    case OtherLine(text) => text
  }

  function Meaning(line: Line): seq<Header> {
    match line
    case HeaderLine(before, after) => [Header(Trim(before), Trim(after))]
    case OtherLine(_) => []
  }

  function Meanings(lines: seq<Line>): seq<Header> {
    if lines == [] then [] else Meaning(lines[0]) + Meanings(lines[1..])
  }

  /** The lines, each with the line ends behind it. */
  function Printed(lines: seq<Line>, breaks: seq<string>): string
    requires |breaks| == |lines|
  {
    if lines == [] then [] else Text(lines[0]) + breaks[0] + Printed(lines[1..], breaks[1..])
  }

  lemma {:induction false} SplitLine(line: string)
    requires NoBreak(line)
    ensures Split(line) == [line]
  {
    if line != [] {
      SplitLine(line[1..]);
      assert [line[0]] + line[1..] == line;
    }
  }

  lemma {:induction false} SplitAtBreak(line: string, b: char, rest: string)
    requires NoBreak(line) && IsBreak(b)
    ensures Split(line + [b] + rest) == [line] + Split(rest)
  {
    var text := line + [b] + rest;
    if line == [] {
      assert text == [b] + rest && text[1..] == rest;
    } else {
      assert text[1..] == line[1..] + [b] + rest;
      SplitAtBreak(line[1..], b, rest);
      assert [line[0]] + line[1..] == line;
    }
  }

  lemma {:induction false} EntriesAfterBreaks(breaks: string, rest: string)
    requires AllBreaks(breaks)
    ensures Entries(Split(breaks + rest)) == Entries(Split(rest))
  {
    if breaks == [] {
      assert breaks + rest == rest;
    } else {
      SplitAtBreak([], breaks[0], breaks[1..] + rest);
      assert breaks + rest == [] + [breaks[0]] + (breaks[1..] + rest);
      EntriesAfterBreaks(breaks[1..], rest);
      EntriesAfterLine([], Split(breaks[1..] + rest));
      EntryWithoutColon([]);
    }
  }

  lemma EntriesAfterLine(line: string, lines: seq<string>)
    ensures Entries([line] + lines) == Entry(line) + Entries(lines)
  {
    assert ([line] + lines)[1..] == lines;
  }

  lemma LineIsItsEntry(line: Line)
    requires WellFormed(line)
    ensures NoBreak(Text(line)) && Entry(Text(line)) == Meaning(line)
  {
    match line
    case HeaderLine(before, after) => EntryOfLine(before, after);
    case OtherLine(text) => EntryWithoutColon(text);
  }

  /**
   Parsing what was printed: for all header lines, with lines without a colon in between, with any runs of CR and LF
   in front, between the lines (at least one character there) and at the end, the parser gives exactly the headers, in
   order.
   */
  lemma {:induction false} ParsePrinted(lead: string, lines: seq<Line>, breaks: seq<string>)
    requires |breaks| == |lines| && forall c :: c in lead ==> c in "\r\n"
    requires forall i :: 0 <= i < |lines| ==> WellFormed(lines[i]) && forall c :: c in breaks[i] ==> c in "\r\n"
    requires forall i :: 0 <= i < |lines| - 1 ==> breaks[i] != []
    ensures Entries(Split(lead + Printed(lines, breaks))) == Meanings(lines)
    decreases |lines|
  {
    EntriesAfterBreaks(lead, Printed(lines, breaks));
    if lines == [] {
      assert Entries([[]]) == Entry([]) + Entries([[]][1..]);
      EntryWithoutColon([]);
    } else {
      LineIsItsEntry(lines[0]);
      if breaks[0] == [] {
        LastLine(lines, breaks);
      } else {
        ParsePrinted(breaks[0][1..], lines[1..], breaks[1..]);
        FirstLine(lines, breaks);
      }
    }
  }

  lemma LastLine(lines: seq<Line>, breaks: seq<string>)
    requires |lines| == |breaks| == 1 && breaks[0] == [] && NoBreak(Text(lines[0]))
    ensures Entries(Split(Printed(lines, breaks))) == Entry(Text(lines[0])) && Meanings(lines) == Meaning(lines[0])
  {
    assert Printed(lines, breaks) == Text(lines[0]);
    SplitLine(Text(lines[0]));
    EntriesAfterLine(Text(lines[0]), []);
    assert [Text(lines[0])] + [] == [Text(lines[0])];
  }

  lemma Regroup(first: string, breaks: string, rest: string)
    requires breaks != []
    ensures first + breaks + rest == first + [breaks[0]] + (breaks[1..] + rest)
  {
    assert breaks == [breaks[0]] + breaks[1..];
  }

  lemma FirstLine(lines: seq<Line>, breaks: seq<string>)
    requires |lines| == |breaks| > 0 && breaks[0] != [] && AllBreaks(breaks[0]) && NoBreak(Text(lines[0]))
    ensures Entries(Split(Printed(lines, breaks)))
            == Entry(Text(lines[0])) + Entries(Split(breaks[0][1..] + Printed(lines[1..], breaks[1..])))
  {
    var first, rest := Text(lines[0]), breaks[0][1..] + Printed(lines[1..], breaks[1..]);
    Regroup(first, breaks[0], Printed(lines[1..], breaks[1..]));
    SplitAtBreak(first, breaks[0][0], rest);
    EntriesAfterLine(first, Split(rest));
  }

  predicate Trimmed(s: string) {
    s == [] || (!IsSpace(s[0]) && !IsSpace(s[|s| - 1]))
  }

  lemma {:induction false} TrimRightOfTrimmed(s: string)
    requires s == [] || !IsSpace(s[|s| - 1])
    ensures TrimRight(s) == s
  {
    if s != [] { TrimRightOfTrimmed(s[1..]); }
  }

  function NameValue(h: Header): Line {
    HeaderLine(h.name, [' '] + h.value)
  }

  /** In particular, "name: value" lines give back their pairs. */
  lemma {:induction false} RoundTrip(headers: seq<Header>, breaks: seq<string>)
    requires |breaks| == |headers|
    requires forall i :: 0 <= i < |headers| ==>
      && Trimmed(headers[i].name) && (forall c :: c in headers[i].name ==> c !in "\r\n:")
      && Trimmed(headers[i].value) && (forall c :: c in headers[i].value ==> c !in "\r\n")
      && breaks[i] != [] && forall c :: c in breaks[i] ==> c in "\r\n"
    ensures var lines := seq(|headers|, i requires 0 <= i < |headers| => NameValue(headers[i]));
            Entries(Split(Printed(lines, breaks))) == headers
  {
    var lines := seq(|headers|, i requires 0 <= i < |headers| => NameValue(headers[i]));
    forall i | 0 <= i < |lines| ensures WellFormed(lines[i]) && Meaning(lines[i]) == [headers[i]] {
      MeaningOfNameValue(headers[i]);
    }
    ParsePrinted([], lines, breaks);
    assert [] + Printed(lines, breaks) == Printed(lines, breaks);
    MeaningsOf(lines, headers);
  }

  lemma MeaningOfNameValue(h: Header)
    requires Trimmed(h.name) && Trimmed(h.value) && NoBreak(h.name) && NoBreak(h.value) && ':' !in h.name
    ensures WellFormed(NameValue(h)) && Meaning(NameValue(h)) == [h]
  {
    TrimRightOfTrimmed(h.name);
    TrimRightOfTrimmed(h.value);
    assert ([' '] + h.value)[1..] == h.value;
    assert TrimLeft([' '] + h.value) == TrimLeft(h.value) == h.value;
  }

  lemma {:induction false} MeaningsOf(lines: seq<Line>, headers: seq<Header>)
    requires |lines| == |headers| && forall i :: 0 <= i < |lines| ==> Meaning(lines[i]) == [headers[i]]
    ensures Meanings(lines) == headers
  {
    if lines != [] {
      MeaningsOf(lines[1..], headers[1..]);
      assert headers == [headers[0]] + headers[1..];
    }
  }
}
