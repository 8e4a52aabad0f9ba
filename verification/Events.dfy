// Incremental consumption of the event log (client_harness_template/starterkit_events.py).
module Events {
  import opened Wrappers
  import Sorting

  type Bytes = seq<bv8>

  const NEWLINE: bv8 := 10

  // What one raw line means: nothing but white space, an error, an event without a
  // topic, or an event.
  datatype Line = Blank | Broken | OffTopic | Lifecycle(topic: nat, body: string)

  datatype Event = Event(topic: nat, body: string, lineNumber: nat, byteOffset: nat)

  datatype Cursor = Cursor(lineNumber: nat, byteOffset: nat)

  datatype Outcome = Delivered(events: seq<Event>, cursor: Cursor) | Truncated | BadLine(lineNumber: nat)

  // Where the line starting at i ends, its newline included.
  function LineEnd(log: Bytes, i: nat): (end: nat)
    requires i < |log|
    ensures i < end <= |log|
    ensures forall k :: i <= k < end - 1 ==> log[k] != NEWLINE
    ensures end < |log| ==> log[end - 1] == NEWLINE
    decreases |log| - i
  {
    if log[i] == NEWLINE || i + 1 == |log| then i + 1 else LineEnd(log, i + 1)
  }

  predicate Wanted(topics: Option<set<nat>>, topic: nat) {
    topics.Some? ==> topic in topics.value
  }

  // The events of one line, with the number of the line and the offset behind it.
  function LineEvents(line: Line, number: nat, end: nat, topics: Option<set<nat>>): seq<Event> {
    if line.Lifecycle? && Wanted(topics, line.topic) then [Event(line.topic, line.body, number, end)] else []
  }

  function Prepend(events: seq<Event>, o: Outcome): Outcome {
    if o.Delivered? then Delivered(events + o.events, o.cursor) else o
  }

  // Everything from a cursor to the end of the log.
  function Rest(log: Bytes, c: Cursor, topics: Option<set<nat>>, parse: Bytes -> Line): Outcome
    requires c.byteOffset <= |log|
    decreases |log| - c.byteOffset
  {
    if c.byteOffset == |log| then Delivered([], c)
    else
      var end := LineEnd(log, c.byteOffset);
      var line := parse(log[c.byteOffset..end]);
      if line.Broken? then BadLine(c.lineNumber + 1)
      else
        Prepend(LineEvents(line, c.lineNumber + 1, end, topics),
                Rest(log, Cursor(c.lineNumber + 1, end), topics, parse))
  }

  function Consume(log: Bytes, c: Cursor, topics: Option<set<nat>>, parse: Bytes -> Line): Outcome {
    if c.byteOffset > |log| then Truncated else Rest(log, c, topics, parse)
  }

  method ReadLine(log: Bytes, offset: nat) returns (end: nat)
    requires offset < |log|
    ensures end == LineEnd(log, offset)
  {
    end := offset;
    while log[end] != NEWLINE && end + 1 < |log|
      invariant offset <= end < |log|
      invariant LineEnd(log, offset) == LineEnd(log, end)
      decreases |log| - end
    {
      end := end + 1;
    }
    end := end + 1;
  }

  // The events read so far and the place reached: what is left gives the rest.
  ghost predicate ReadTo(log: Bytes, from: Cursor, topics: Option<set<nat>>, parse: Bytes -> Line,
                         events: seq<Event>, now: Cursor)
    requires from.byteOffset <= |log|
  {
    now.byteOffset <= |log| && Rest(log, from, topics, parse) == Prepend(events, Rest(log, now, topics, parse))
  }

  lemma ReadNothing(log: Bytes, from: Cursor, topics: Option<set<nat>>, parse: Bytes -> Line)
    requires from.byteOffset <= |log|
    ensures ReadTo(log, from, topics, parse, [], from)
  {
    NothingToPrepend(Rest(log, from, topics, parse));
    hide Rest, Prepend;
  }

  lemma ReadOneMore(log: Bytes, from: Cursor, topics: Option<set<nat>>, parse: Bytes -> Line, events: seq<Event>, now: Cursor)
    requires from.byteOffset <= |log| && ReadTo(log, from, topics, parse, events, now) && now.byteOffset < |log|
    ensures var end := LineEnd(log, now.byteOffset);
            var line, next := parse(log[now.byteOffset..end]), Cursor(now.lineNumber + 1, end);
            if line.Broken? then Rest(log, from, topics, parse) == BadLine(now.lineNumber + 1)
            else ReadTo(log, from, topics, parse, events + LineEvents(line, now.lineNumber + 1, end, topics), next)
  {
    var end := LineEnd(log, now.byteOffset);
    var line, next := parse(log[now.byteOffset..end]), Cursor(now.lineNumber + 1, end);
    RestStep(log, now, topics, parse);
    hide Rest, LineEvents, LineEnd, Prepend;
    if line.Broken? {
      PrependError(events, now.lineNumber + 1);
    } else {
      PrependTwice(events, LineEvents(line, now.lineNumber + 1, end, topics), Rest(log, next, topics, parse));
    }
  }

  lemma ReadEverything(log: Bytes, from: Cursor, topics: Option<set<nat>>, parse: Bytes -> Line, events: seq<Event>, now: Cursor)
    requires from.byteOffset <= |log| && ReadTo(log, from, topics, parse, events, now) && now.byteOffset >= |log|
    ensures Rest(log, from, topics, parse) == Delivered(events, now)
  {
    RestEnds(log, now, topics, parse, events);
    hide Rest, Prepend;
  }

  lemma ConsumeIs(log: Bytes, c: Cursor, topics: Option<set<nat>>, parse: Bytes -> Line)
    ensures Consume(log, c, topics, parse) == if c.byteOffset > |log| then Truncated else Rest(log, c, topics, parse)
  {
    hide Rest;
  }

  // consume_starter_events
  method ConsumeStarterEvents(log: Bytes, cursor: Cursor, topics: Option<set<nat>>, parse: Bytes -> Line)
    returns (outcome: Outcome)
    ensures outcome == Consume(log, cursor, topics, parse)
  {
    hide *;
    ConsumeIs(log, cursor, topics, parse);
    if cursor.byteOffset > |log| { return Truncated; }
    var events: seq<Event> := [];
    var lineNumber, nextOffset := cursor.lineNumber, cursor.byteOffset;
    ReadNothing(log, cursor, topics, parse);
    while nextOffset < |log|
      invariant nextOffset <= |log|
      invariant ReadTo(log, cursor, topics, parse, events, Cursor(lineNumber, nextOffset))
      decreases |log| - nextOffset
    {
      ReadOneMore(log, cursor, topics, parse, events, Cursor(lineNumber, nextOffset));
      var start := nextOffset;
      nextOffset := ReadLine(log, start);
      lineNumber := lineNumber + 1;
      var line := parse(log[start..nextOffset]);
      if line.Broken? { return BadLine(lineNumber); }
      events := events + LineEvents(line, lineNumber, nextOffset, topics);
    }
    ReadEverything(log, cursor, topics, parse, events, Cursor(lineNumber, nextOffset));
    outcome := Delivered(events, Cursor(lineNumber, nextOffset));
  }

  lemma RestEnds(log: Bytes, c: Cursor, topics: Option<set<nat>>, parse: Bytes -> Line, events: seq<Event>)
    requires c.byteOffset == |log|
    ensures Prepend(events, Rest(log, c, topics, parse)) == Delivered(events, c)
  {
  }

  lemma PrependError(events: seq<Event>, lineNumber: nat)
    ensures Prepend(events, BadLine(lineNumber)) == BadLine(lineNumber)
  {
  }

  lemma RestStep(log: Bytes, c: Cursor, topics: Option<set<nat>>, parse: Bytes -> Line)
    requires c.byteOffset < |log|
    ensures var end := LineEnd(log, c.byteOffset);
            var line := parse(log[c.byteOffset..end]);
            Rest(log, c, topics, parse)
            == if line.Broken? then BadLine(c.lineNumber + 1)
               else Prepend(LineEvents(line, c.lineNumber + 1, end, topics),
                            Rest(log, Cursor(c.lineNumber + 1, end), topics, parse))
  {
    hide Prepend, LineEvents;
  }

  lemma PrependTwice(a: seq<Event>, b: seq<Event>, o: Outcome)
    ensures Prepend(a, Prepend(b, o)) == Prepend(a + b, o)
  {
  }

  // ---- reading in pieces --------------------------------------------------------------------

  // A place between two lines.
  predicate Between(log: Bytes, cut: nat) {
    cut <= |log| && (cut == 0 || cut == |log| || log[cut - 1] == NEWLINE)
  }

  lemma {:induction false} LineEndsInPiece(log: Bytes, cut: nat, i: nat)
    requires i < cut && Between(log, cut)
    ensures LineEnd(log[..cut], i) == LineEnd(log, i)
    decreases cut - i
  {
    if !(log[i] == NEWLINE || i + 1 == cut) { LineEndsInPiece(log, cut, i + 1); }
  }

  // Main result: reading up to a line end and going on from the returned cursor
  // gives the same events, line numbers, offsets and errors as reading at once.
  lemma {:induction false} TwoPieces(log: Bytes, cut: nat, c: Cursor, topics: Option<set<nat>>, parse: Bytes -> Line)
    requires Between(log, cut) && c.byteOffset <= cut
    ensures var first := Rest(log[..cut], c, topics, parse);
            && (first.Delivered? ==>
                  first.cursor.byteOffset == cut
                  && Rest(log, c, topics, parse) == Prepend(first.events, Rest(log, first.cursor, topics, parse)))
            && (!first.Delivered? ==> Rest(log, c, topics, parse) == first)
    decreases cut - c.byteOffset
  {
    if c.byteOffset < cut {
      LineEndsInPiece(log, cut, c.byteOffset);
      var end := LineEnd(log, c.byteOffset);
      assert log[..cut][c.byteOffset..end] == log[c.byteOffset..end];
      var next := Cursor(c.lineNumber + 1, end);
      var line := parse(log[c.byteOffset..end]);
      if !line.Broken? {
        TwoPieces(log, cut, next, topics, parse);
        PieceStep(log, cut, c, topics, parse);
      }
    } else {
      NothingToPrepend(Rest(log, c, topics, parse));
    }
  }

  lemma NothingToPrepend(o: Outcome)
    ensures Prepend([], o) == o
  {
  }

  lemma PieceStep(log: Bytes, cut: nat, c: Cursor, topics: Option<set<nat>>, parse: Bytes -> Line)
    requires Between(log, cut) && c.byteOffset < cut
    requires LineEnd(log[..cut], c.byteOffset) == LineEnd(log, c.byteOffset)
    requires !parse(log[c.byteOffset..LineEnd(log, c.byteOffset)]).Broken?
    requires var next := Cursor(c.lineNumber + 1, LineEnd(log, c.byteOffset));
             var first := Rest(log[..cut], next, topics, parse);
             && (first.Delivered? ==>
                   first.cursor.byteOffset == cut
                   && Rest(log, next, topics, parse) == Prepend(first.events, Rest(log, first.cursor, topics, parse)))
             && (!first.Delivered? ==> Rest(log, next, topics, parse) == first)
    ensures var first := Rest(log[..cut], c, topics, parse);
            && (first.Delivered? ==>
                  first.cursor.byteOffset == cut
                  && Rest(log, c, topics, parse) == Prepend(first.events, Rest(log, first.cursor, topics, parse)))
            && (!first.Delivered? ==> Rest(log, c, topics, parse) == first)
  {
    var end := LineEnd(log, c.byteOffset);
    assert log[..cut][c.byteOffset..end] == log[c.byteOffset..end];
    hide Rest, LineEvents, LineEnd, Between;
    RestStep(log, c, topics, parse);
    RestStep(log[..cut], c, topics, parse);
    var next := Cursor(c.lineNumber + 1, end);
    var here := LineEvents(parse(log[c.byteOffset..end]), c.lineNumber + 1, end, topics);
    var first := Rest(log[..cut], next, topics, parse);
    if first.Delivered? { PrependTwice(here, first.events, Rest(log, first.cursor, topics, parse)); }
  }

  // A consumer that polls a growing log: each poll sees the log up to a cut.
  function Polls(log: Bytes, cuts: seq<nat>, c: Cursor, topics: Option<set<nat>>, parse: Bytes -> Line): Outcome
    requires forall i :: 0 <= i < |cuts| ==> cuts[i] <= |log|
    decreases |cuts|
  {
    if cuts == [] then Delivered([], c)
    else
      var first := Consume(log[..cuts[0]], c, topics, parse);
      if first.Delivered? then Prepend(first.events, Polls(log, cuts[1..], first.cursor, topics, parse)) else first
  }

  predicate GrowingCuts(log: Bytes, cuts: seq<nat>, from: nat) {
    && (forall i :: 0 <= i < |cuts| ==> Between(log, cuts[i]) && from <= cuts[i])
    && (forall i, j :: 0 <= i < j < |cuts| ==> cuts[i] <= cuts[j])
  }

  // Main result: any number of polls cut at line ends, the last at the end of the
  // log, delivers what one pass delivers.
  lemma {:induction false} PollingIsOnePass(log: Bytes, cuts: seq<nat>, c: Cursor, topics: Option<set<nat>>, parse: Bytes -> Line)
    requires GrowingCuts(log, cuts, c.byteOffset) && cuts != [] && cuts[|cuts| - 1] == |log|
    ensures Polls(log, cuts, c, topics, parse) == Consume(log, c, topics, parse)
    decreases |cuts|
  {
    TwoPieces(log, cuts[0], c, topics, parse);
    if |cuts| == 1 {
      OnlyPoll(log, cuts, c, topics, parse);
    } else {
      var first := Consume(log[..cuts[0]], c, topics, parse);
      LaterCuts(log, cuts, c.byteOffset);
      hide Rest, Between, LineEnd, Prepend, GrowingCuts;
      if first.Delivered? { PollingIsOnePass(log, cuts[1..], first.cursor, topics, parse); }
    }
  }

  lemma LaterCuts(log: Bytes, cuts: seq<nat>, from: nat)
    requires GrowingCuts(log, cuts, from) && |cuts| > 1
    ensures GrowingCuts(log, cuts[1..], cuts[0]) && cuts[1..][|cuts[1..]| - 1] == cuts[|cuts| - 1]
  {
  }

  lemma OnlyPoll(log: Bytes, cuts: seq<nat>, c: Cursor, topics: Option<set<nat>>, parse: Bytes -> Line)
    requires |cuts| == 1 && cuts[0] == |log|
    ensures Polls(log, cuts, c, topics, parse) == Consume(log, c, topics, parse)
  {
    assert log[..cuts[0]] == log;
    assert cuts[1..] == [];
  }

  // ---- the topic filter ----------------------------------------------------------------------

  function Filtered(events: seq<Event>, topics: Option<set<nat>>): seq<Event> {
    if events == [] then []
    else (if Wanted(topics, events[0].topic) then [events[0]] else []) + Filtered(events[1..], topics)
  }

  lemma {:induction false} FilteredConcat(a: seq<Event>, b: seq<Event>, topics: Option<set<nat>>)
    ensures Filtered(a + b, topics) == Filtered(a, topics) + Filtered(b, topics)
  {
    hide Wanted;
    if a == [] {
      assert a + b == b;
    } else {
      FilteredConcat(a[1..], b, topics);
      assert (a + b)[0] == a[0] && (a + b)[1..] == a[1..] + b;
      var here := if Wanted(topics, a[0].topic) then [a[0]] else [];
      assert Filtered(a + b, topics) == here + Filtered(a[1..] + b, topics);
      assert Filtered(a, topics) == here + Filtered(a[1..], topics);
      hide Filtered;
      Sorting.Associative(here, Filtered(a[1..], topics), Filtered(b, topics));
    }
  }

  // Main result: a topic filter only drops events; numbers, offsets and the cursor
  // are those of an unfiltered pass.
  lemma {:induction false} FilterOnlyDrops(log: Bytes, c: Cursor, topics: Option<set<nat>>, parse: Bytes -> Line)
    requires c.byteOffset <= |log|
    ensures var all := Rest(log, c, None, parse);
            Rest(log, c, topics, parse)
            == if all.Delivered? then Delivered(Filtered(all.events, topics), all.cursor) else all
    decreases |log| - c.byteOffset
  {
    if c.byteOffset < |log| {
      var end := LineEnd(log, c.byteOffset);
      var line := parse(log[c.byteOffset..end]);
      RestStep(log, c, topics, parse);
      RestStep(log, c, None, parse);
      hide Rest, LineEnd;
      if !line.Broken? {
        FilterOnlyDrops(log, Cursor(c.lineNumber + 1, end), topics, parse);
        var rest := Rest(log, Cursor(c.lineNumber + 1, end), None, parse);
        if rest.Delivered? {
          FilteredConcat(LineEvents(line, c.lineNumber + 1, end, None), rest.events, topics);
        }
      }
    }
  }

  // ---- a cut inside a line -----------------------------------------------------------------------

  function Lines(log: Bytes, from: nat): nat
    requires from <= |log|
    decreases |log| - from
  {
    if from == |log| then 0 else 1 + Lines(log, LineEnd(log, from))
  }

  lemma {:induction false} CursorCountsLines(log: Bytes, c: Cursor, topics: Option<set<nat>>, parse: Bytes -> Line)
    requires c.byteOffset <= |log| && Rest(log, c, topics, parse).Delivered?
    ensures Rest(log, c, topics, parse).cursor == Cursor(c.lineNumber + Lines(log, c.byteOffset), |log|)
    decreases |log| - c.byteOffset
  {
    if c.byteOffset < |log| {
      CursorCountsLines(log, Cursor(c.lineNumber + 1, LineEnd(log, c.byteOffset)), topics, parse);
    }
  }

  lemma {:induction false} InnerCutAddsALine(log: Bytes, cut: nat, from: nat)
    requires from <= cut <= |log|
    requires from < cut ==> !Between(log, cut)
    ensures Lines(log[..cut], from) + Lines(log, cut) == Lines(log, from) + if from < cut then 1 else 0
    decreases cut - from
  {
    if from < cut {
      InnerLine(log, cut, from);
      var end := LineEnd(log, from);
      if end < cut { InnerCutAddsALine(log, cut, end); }
    }
  }

  lemma {:induction false} InnerLine(log: Bytes, cut: nat, i: nat)
    requires i < cut < |log| && log[cut - 1] != NEWLINE
    ensures var end := LineEnd(log, i);
            && end != cut
            && LineEnd(log[..cut], i) == (if end < cut then end else cut)
            && (end > cut ==> LineEnd(log, cut) == end)
    decreases cut - i
  {
    if log[i] != NEWLINE {
      if i + 1 < cut { InnerLine(log, cut, i + 1); }
    }
  }

  // Where the line starts that the cut goes through, counting lines from `from`.
  function LineStart(log: Bytes, from: nat, cut: nat): (start: nat)
    requires from < cut <= |log|
    ensures from <= start < cut
    decreases cut - from
  {
    if LineEnd(log, from) < cut then LineStart(log, LineEnd(log, from), cut) else from
  }

  // Whether a log can be read does not depend on the line number to start with.
  lemma {:induction false} AnyNumber(log: Bytes, offset: nat, n: nat, m: nat, topics: Option<set<nat>>, parse: Bytes -> Line)
    requires offset <= |log|
    ensures Rest(log, Cursor(n, offset), topics, parse).Delivered? <==> Rest(log, Cursor(m, offset), topics, parse).Delivered?
    decreases |log| - offset
  {
    if offset < |log| {
      RestStep(log, Cursor(n, offset), topics, parse);
      RestStep(log, Cursor(m, offset), topics, parse);
      hide Rest, LineEvents;
      AnyNumber(log, LineEnd(log, offset), n + 1, m + 1, topics, parse);
    }
  }

  // On a readable log, the piece before an inner cut can be read exactly if the
  // truncated line parses, and the piece after it exactly if the remainder does.
  lemma {:induction false} InnerCutReads(log: Bytes, cut: nat, c: Cursor, topics: Option<set<nat>>, parse: Bytes -> Line, n: nat)
    requires c.byteOffset < cut <= |log| && !Between(log, cut) && Rest(log, c, topics, parse).Delivered?
    ensures Rest(log[..cut], c, topics, parse).Delivered? <==> !parse(log[LineStart(log, c.byteOffset, cut)..cut]).Broken?
    ensures Rest(log, Cursor(n, cut), topics, parse).Delivered? <==> !parse(log[cut..LineEnd(log, cut)]).Broken?
    decreases cut - c.byteOffset
  {
    InnerLine(log, cut, c.byteOffset);
    var end, piece := LineEnd(log, c.byteOffset), log[..cut];
    DeliveredStep(log, c, topics, parse);
    DeliveredStep(piece, c, topics, parse);
    hide Rest, Between, LineEnd;
    if end < cut {
      assert piece[c.byteOffset..end] == log[c.byteOffset..end];
      InnerCutReads(log, cut, Cursor(c.lineNumber + 1, end), topics, parse, n);
    } else {
      assert piece[c.byteOffset..cut] == log[c.byteOffset..cut];
      DeliveredStep(log, Cursor(n, cut), topics, parse);
      AnyNumber(log, end, c.lineNumber + 1, n + 1, topics, parse);
      NothingLeft(piece, Cursor(c.lineNumber + 1, cut), topics, parse);
    }
  }

  lemma NothingLeft(log: Bytes, c: Cursor, topics: Option<set<nat>>, parse: Bytes -> Line)
    requires c.byteOffset == |log|
    ensures Rest(log, c, topics, parse).Delivered?
  {
  }

  lemma DeliveredStep(log: Bytes, c: Cursor, topics: Option<set<nat>>, parse: Bytes -> Line)
    requires c.byteOffset < |log|
    ensures var end := LineEnd(log, c.byteOffset);
            Rest(log, c, topics, parse).Delivered? <==>
            !parse(log[c.byteOffset..end]).Broken? && Rest(log, Cursor(c.lineNumber + 1, end), topics, parse).Delivered?
  {
    RestStep(log, c, topics, parse);
    hide Rest, LineEvents, LineEnd;
  }

  // Where a reader goes on: from the cursor it was given, or, after an error, from
  // where it was.
  function GoesOnFrom(first: Outcome, c: Cursor): Cursor {
    if first.Delivered? then first.cursor else c
  }

  // Main result: on a log that one pass can read, reading up to a cut and going on
  // ends with the line count of one pass exactly when the cut is between two lines
  // or the truncated line does not parse. Otherwise the second reading raises if the
  // remainder of the line does not parse, and counts one line more if it does.
  lemma LineNumbersKeptIffCutAtLineEnd(log: Bytes, cut: nat, c: Cursor, topics: Option<set<nat>>, parse: Bytes -> Line)
    requires c.byteOffset < cut <= |log| && Rest(log, c, topics, parse).Delivered?
    ensures var truncated := parse(log[LineStart(log, c.byteOffset, cut)..cut]);
            var from := GoesOnFrom(Rest(log[..cut], c, topics, parse), c);
            && from.byteOffset <= |log|
            && var second, all := Rest(log, from, topics, parse), Rest(log, c, topics, parse);
            && (second.Delivered? && second.cursor.lineNumber == all.cursor.lineNumber
                <==> Between(log, cut) || truncated.Broken?)
            && (!Between(log, cut) && !truncated.Broken? ==>
                  if parse(log[cut..LineEnd(log, cut)]).Broken? then !second.Delivered?
                  else second.Delivered? && second.cursor == Cursor(all.cursor.lineNumber + 1, |log|))
  {
    var first := Rest(log[..cut], c, topics, parse);
    CursorCountsLines(log, c, topics, parse);
    if Between(log, cut) {
      TwoPieces(log, cut, c, topics, parse);
      BetweenIsRead(log, cut, c, topics, parse);
      CursorCountsLines(log[..cut], c, topics, parse);
    } else {
      if first.Delivered? {
        CursorCountsLines(log[..cut], c, topics, parse);
        InnerCutAddsALine(log, cut, c.byteOffset);
        if Rest(log, first.cursor, topics, parse).Delivered? { CursorCountsLines(log, first.cursor, topics, parse); }
      }
      InnerCutReads(log, cut, c, topics, parse, GoesOnFrom(first, c).lineNumber);
    }
  }

  lemma BetweenIsRead(log: Bytes, cut: nat, c: Cursor, topics: Option<set<nat>>, parse: Bytes -> Line)
    requires c.byteOffset <= cut && Between(log, cut) && Rest(log, c, topics, parse).Delivered?
    ensures Rest(log[..cut], c, topics, parse).Delivered?
  {
    TwoPieces(log, cut, c, topics, parse);
  }

  // Such a cut exists: just before the newline, where the truncated line parses and
  // what is left of it is blank.
  lemma CutBeforeNewlineCountsTwice()
    ensures var log, parse := [65, NEWLINE], (line: Bytes) => if line == [NEWLINE] then Blank else OffTopic;
            var first := Rest(log[..1], Cursor(0, 0), None, parse);
            && Rest(log, Cursor(0, 0), None, parse) == Delivered([], Cursor(1, 2))
            && first == Delivered([], Cursor(1, 1))
            && Rest(log, first.cursor, None, parse) == Delivered([], Cursor(2, 2))
  {
    var log: Bytes, parse := [65, NEWLINE], (line: Bytes) => if line == [NEWLINE] then Blank else OffTopic;
    var piece := log[..1];
    assert piece == [65] && LineEnd(piece, 0) == 1;
    assert LineEnd(log, 0) == 2 by { assert LineEnd(log, 1) == 2; }
    assert log[0..2][0] == 65;
    assert log[1..2] == [NEWLINE];
    RestStep(log, Cursor(0, 0), None, parse);
    RestStep(piece, Cursor(0, 0), None, parse);
    RestStep(log, Cursor(1, 1), None, parse);
  }

  // ---- which events --------------------------------------------------------------------------

  // A line of the log from `from` on, and the event it stands for: the line's number is
  // one more than the newlines before it, and its offset is the end of the line.
  ghost predicate LineAt(log: Bytes, from: nat, start: nat) {
    from <= start < |log| && (start == from || log[start - 1] == NEWLINE)
  }

  ghost predicate EventOfLine(log: Bytes, c: Cursor, topics: Option<set<nat>>, parse: Bytes -> Line, start: nat, e: Event) {
    && LineAt(log, c.byteOffset, start)
    && e.byteOffset == LineEnd(log, start)
    && e.lineNumber == c.lineNumber + Newlines(log[c.byteOffset..start]) + 1
    && parse(log[start..e.byteOffset]) == Lifecycle(e.topic, e.body)
    && (topics == None || e.topic in topics.value)
  }

  function Newlines(s: Bytes): nat {
    if s == [] then 0 else Newlines(s[..|s| - 1]) + if s[|s| - 1] == NEWLINE then 1 else 0
  }

  lemma {:induction false} NewlinesConcat(a: Bytes, b: Bytes)
    ensures Newlines(a + b) == Newlines(a) + Newlines(b)
  {
    if b == [] {
      assert a + b == a;
    } else {
      var n := |b| - 1;
      NewlinesConcat(a, b[..n]);
      assert (a + b)[..|a + b| - 1] == a + b[..n];
    }
  }

  lemma {:induction false} NoNewline(s: Bytes)
    requires forall k :: 0 <= k < |s| ==> s[k] != NEWLINE
    ensures Newlines(s) == 0
  {
    if s != [] { NoNewline(s[..|s| - 1]); }
  }

  lemma NewlinesAdd(log: Bytes, from: nat, start: nat)
    requires from < |log| && LineEnd(log, from) <= start <= |log| && LineEnd(log, from) < |log|
    ensures Newlines(log[from..start]) == 1 + Newlines(log[LineEnd(log, from)..start])
  {
    var end := LineEnd(log, from);
    assert log[from..start] == log[from..end - 1] + ([NEWLINE] + log[end..start]);
    NoNewline(log[from..end - 1]);
    NewlinesConcat(log[from..end - 1], [NEWLINE] + log[end..start]);
    NewlinesConcat([NEWLINE], log[end..start]);
    assert [NEWLINE][..0] == [];
    assert Newlines([NEWLINE]) == 1;
  }

  // Lines after the first, seen from its end.
  lemma LaterLine(log: Bytes, c: Cursor, topics: Option<set<nat>>, parse: Bytes -> Line, start: nat, e: Event)
    requires c.byteOffset < |log| && start != c.byteOffset
    ensures EventOfLine(log, c, topics, parse, start, e) <==>
            EventOfLine(log, Cursor(c.lineNumber + 1, LineEnd(log, c.byteOffset)), topics, parse, start, e)
  {
    LinesSplit(log, c.byteOffset);
    var end := LineEnd(log, c.byteOffset);
    if LineAt(log, end, start) { NewlinesAdd(log, c.byteOffset, start); }
    hide LineAt, LineEnd, Newlines;
  }

  lemma FirstLine(log: Bytes, c: Cursor, topics: Option<set<nat>>, parse: Bytes -> Line, e: Event)
    requires c.byteOffset < |log|
    ensures EventOfLine(log, c, topics, parse, c.byteOffset, e) <==>
            e in LineEvents(parse(log[c.byteOffset..LineEnd(log, c.byteOffset)]), c.lineNumber + 1, LineEnd(log, c.byteOffset), topics)
  {
    assert log[c.byteOffset..c.byteOffset] == [];
  }

  // Main result: a reading delivers exactly the events of the lines it passes whose
  // topic is wanted, each with the number and the end offset of its line.
  lemma {:induction false} DeliveredExactly(log: Bytes, c: Cursor, topics: Option<set<nat>>, parse: Bytes -> Line, e: Event)
    requires c.byteOffset <= |log| && Rest(log, c, topics, parse).Delivered?
    ensures e in Rest(log, c, topics, parse).events <==> exists start: nat :: EventOfLine(log, c, topics, parse, start, e)
    decreases |log| - c.byteOffset
  {
    if c.byteOffset < |log| {
      var end := LineEnd(log, c.byteOffset);
      var next := Cursor(c.lineNumber + 1, end);
      RestStep(log, c, topics, parse);
      FirstLine(log, c, topics, parse, e);
      hide Rest, LineEvents, EventOfLine;
      DeliveredExactly(log, next, topics, parse, e);
      if start: nat :| EventOfLine(log, c, topics, parse, start, e) {
        if start != c.byteOffset { LaterLine(log, c, topics, parse, start, e); }
      }
      if start: nat :| EventOfLine(log, next, topics, parse, start, e) {
        NotTheFirst(log, next, topics, parse, start, e);
        LaterLine(log, c, topics, parse, start, e);
      }
    }
  }

  lemma NotTheFirst(log: Bytes, c: Cursor, topics: Option<set<nat>>, parse: Bytes -> Line, start: nat, e: Event)
    requires EventOfLine(log, c, topics, parse, start, e)
    ensures start >= c.byteOffset
  {
  }

  // They come in the order of their lines.
  lemma {:induction false} DeliveredInOrder(log: Bytes, c: Cursor, topics: Option<set<nat>>, parse: Bytes -> Line)
    requires c.byteOffset <= |log| && Rest(log, c, topics, parse).Delivered?
    ensures var events := Rest(log, c, topics, parse).events;
            && (forall i :: 0 <= i < |events| ==> events[i].byteOffset > c.byteOffset)
            && forall i, j :: 0 <= i < j < |events| ==> events[i].byteOffset < events[j].byteOffset
    decreases |log| - c.byteOffset
  {
    if c.byteOffset < |log| {
      DeliveredInOrder(log, Cursor(c.lineNumber + 1, LineEnd(log, c.byteOffset)), topics, parse);
    }
  }

  // Where a reading fails.
  ghost predicate FailsAt(log: Bytes, c: Cursor, topics: Option<set<nat>>, parse: Bytes -> Line, start: nat)
    requires c.byteOffset <= |log|
  {
    && FirstBroken(log, c, parse, start) && c.byteOffset <= start <= |log|
    && Rest(log, c, topics, parse) == BadLine(c.lineNumber + Newlines(log[c.byteOffset..start]) + 1)
  }

  ghost predicate AllParse(log: Bytes, from: nat, parse: Bytes -> Line) {
    forall start: nat :: LineAt(log, from, start) ==> !parse(log[start..LineEnd(log, start)]).Broken?
  }

  // Main result: a reading delivers exactly if every line parses, and fails at the
  // first that does not, with its number.
  lemma {:induction false} FailsAtTheFirstBrokenLine(log: Bytes, c: Cursor, topics: Option<set<nat>>, parse: Bytes -> Line)
    returns (start: nat)
    requires c.byteOffset <= |log|
    ensures Rest(log, c, topics, parse).Delivered? <==> AllParse(log, c.byteOffset, parse)
    ensures !Rest(log, c, topics, parse).Delivered? ==> FailsAt(log, c, topics, parse, start)
    decreases |log| - c.byteOffset
  {
    start := c.byteOffset;
    if c.byteOffset < |log| {
      var next := Cursor(c.lineNumber + 1, LineEnd(log, c.byteOffset));
      RestStep(log, c, topics, parse);
      LinesSplit(log, c.byteOffset);
      hide Rest, LineEvents, LineEnd, LineAt, Newlines, FailsAt;
      if parse(log[c.byteOffset..next.byteOffset]).Broken? {
        FailsHere(log, c, topics, parse);
      } else {
        start := FailsAtTheFirstBrokenLine(log, next, topics, parse);
        if !Rest(log, next, topics, parse).Delivered? { FailsLater(log, c, topics, parse, start); }
      }
    }
  }

  lemma FailsHere(log: Bytes, c: Cursor, topics: Option<set<nat>>, parse: Bytes -> Line)
    requires c.byteOffset < |log| && parse(log[c.byteOffset..LineEnd(log, c.byteOffset)]).Broken?
    ensures FailsAt(log, c, topics, parse, c.byteOffset)
  {
    RestStep(log, c, topics, parse);
    assert log[c.byteOffset..c.byteOffset] == [];
    hide Rest, LineEvents;
  }

  lemma FailsLater(log: Bytes, c: Cursor, topics: Option<set<nat>>, parse: Bytes -> Line, start: nat)
    requires c.byteOffset < |log| && !parse(log[c.byteOffset..LineEnd(log, c.byteOffset)]).Broken?
    requires FailsAt(log, Cursor(c.lineNumber + 1, LineEnd(log, c.byteOffset)), topics, parse, start)
    ensures FailsAt(log, c, topics, parse, start)
  {
    RestStep(log, c, topics, parse);
    LinesSplit(log, c.byteOffset);
    assert start < |log|;
    NewlinesAdd(log, c.byteOffset, start);
    hide Rest, LineEvents, LineEnd, LineAt, Newlines;
  }

  ghost predicate FirstBroken(log: Bytes, c: Cursor, parse: Bytes -> Line, start: nat) {
    && LineAt(log, c.byteOffset, start) && parse(log[start..LineEnd(log, start)]).Broken?
    && forall s: nat :: LineAt(log, c.byteOffset, s) && s < start ==> !parse(log[s..LineEnd(log, s)]).Broken?
  }

  lemma LinesSplit(log: Bytes, from: nat)
    requires from < |log|
    ensures LineAt(log, from, from)
    ensures forall start: nat :: LineAt(log, from, start) <==> start == from || LineAt(log, LineEnd(log, from), start)
  {
    var end := LineEnd(log, from);
    forall start: nat | LineAt(log, from, start) && start != from ensures start >= end {}
  }
}
