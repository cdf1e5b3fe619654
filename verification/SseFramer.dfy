/** The Server-Sent Events framer: a byte-at-a-time machine fed in arbitrary chunks, and the
    declarative parse of the whole stream that it refines. */
module Sse {
  import opened Bytes
  import opened Basics

  const LF: byte := 10
  const CR: byte := 13
  const COLON: byte := 58
  const SPACE: byte := 32
  const DATA: seq<byte> := [100, 97, 116, 97, 58]
  const DONE: seq<byte> := [91, 68, 79, 78, 69, 93]
  const MAX_LINE := 1024 * 1024

  datatype Cause = Client | Deadline | HedgeLoss | Draining

  datatype Event = Token(payload: seq<byte>) | Done | TooLong | Cancelled(bytesSeen: nat, cause: Cause)

  // ----- one line

  function StripCr(line: seq<byte>): seq<byte> {
    if line != [] && line[|line| - 1] == CR then line[..|line| - 1] else line
  }

  predicate Blank(line: seq<byte>) {
    line == [] || line == [CR]
  }

  /** The payload a `data:` line contributes; comments and other fields contribute none. */
  function DataOf(raw: seq<byte>): Option<seq<byte>> {
    var line := StripCr(raw);
    if line != [] && line[0] == COLON then None
    else if DATA <= line then
      var rest := line[5..];
      Some(if rest != [] && rest[0] == SPACE then rest[1..] else rest)
    else None
  }

  function ProcessLine(raw: seq<byte>, current: seq<byte>): seq<byte> {
    match DataOf(raw)
    case None => current
    case Some(p) => if current != [] then current + [LF] + p else p
  }

  // ----- the machine

  datatype Phase = Reading | Finished | Failed | Stopped

  datatype Framer = Framer(line: seq<byte>, current: seq<byte>, bytesSeen: nat, phase: Phase)

  const FRESH := Framer([], [], 0, Reading)

  function StepByte(f: Framer, b: byte): (Framer, seq<Event>) {
    if b == LF then
      var cur := ProcessLine(f.line, f.current);
      if Blank(f.line) && cur != [] then
        if cur == DONE then (Framer([], [], f.bytesSeen, Finished), [Done])
        else (Framer([], [], f.bytesSeen + |cur|, f.phase), [Token(cur)])
      else (Framer([], cur, f.bytesSeen, f.phase), [])
    else
      var line := f.line + [b];
      if |line| > MAX_LINE then (f.(line := line, phase := Failed), [TooLong])
      else (f.(line := line), [])
  }

  /** Feed bytes until they run out or the framer stops reading. */
  function FeedBytes(f: Framer, bytes: seq<byte>): (Framer, seq<Event>)
    decreases |bytes|
  {
    if bytes == [] || !f.phase.Reading? then (f, [])
    else
      var (g, es) := StepByte(f, bytes[0]);
      var (h, more) := FeedBytes(g, bytes[1..]);
      (h, es + more)
  }

  function FeedAll(f: Framer, chunks: seq<seq<byte>>): (Framer, seq<Event>)
    decreases |chunks|
  {
    if chunks == [] then (f, [])
    else
      var (g, es) := FeedBytes(f, chunks[0]);
      var (h, more) := FeedAll(g, chunks[1..]);
      (h, es + more)
  }

  function Concat(chunks: seq<seq<byte>>): seq<byte> {
    if chunks == [] then [] else chunks[0] + Concat(chunks[1..])
  }

  /** Feeding two pieces is feeding their concatenation. */
  lemma {:induction false} FeedTwice(f: Framer, a: seq<byte>, b: seq<byte>)
    ensures var (g, es) := FeedBytes(f, a);
            var (h, more) := FeedBytes(g, b);
            FeedBytes(f, a + b) == (h, es + more)
    decreases |a|
  {
    hide StepByte;
    if a == [] {
      assert a + b == b;
      assert [] + FeedBytes(f, b).1 == FeedBytes(f, b).1;
    } else if f.phase.Reading? {
      var (g, es) := StepByte(f, a[0]);
      FeedTwice(g, a[1..], b);
      assert (a + b)[0] == a[0] && (a + b)[1..] == a[1..] + b;
      var (h, more) := FeedBytes(g, a[1..]);
      Associative(es, more, FeedBytes(h, b).1);
    } else {
      assert [] + FeedBytes(f, b).1 == [];
    }
  }

  /** How a stream is chopped into feeds does not matter. */
  lemma {:induction false} ChoppingIsInvisible(f: Framer, chunks: seq<seq<byte>>)
    ensures FeedAll(f, chunks) == FeedBytes(f, Concat(chunks))
    decreases |chunks|
  {
    hide FeedBytes;
    if chunks == [] {
      FeedNothing(f);
    } else {
      FeedTwice(f, chunks[0], Concat(chunks[1..]));
      ChoppingIsInvisible(FeedBytes(f, chunks[0]).0, chunks[1..]);
    }
  }

  lemma {:induction false} FeedNothing(f: Framer)
    ensures FeedBytes(f, []) == (f, [])
  {
  }

  // ----- the declarative parse

  /** Length of the first line of `s`, up to its LF or to the end. */
  function LineLength(s: seq<byte>): (i: nat)
    ensures i <= |s|
    ensures i < |s| ==> s[i] == LF
    ensures forall k :: 0 <= k < i ==> s[k] != LF
  {
    if s == [] || s[0] == LF then 0 else 1 + LineLength(s[1..])
  }

  /** The complete lines of `s`, without their LF. */
  function Lines(s: seq<byte>): (ls: seq<seq<byte>>)
    decreases |s|
  {
    var i := LineLength(s);
    if i == |s| then [] else [s[..i]] + Lines(s[i + 1..])
  }

  /** What follows the last LF. */
  function Tail(s: seq<byte>): seq<byte>
    decreases |s|
  {
    var i := LineLength(s);
    if i == |s| then s else Tail(s[i + 1..])
  }

  /** The lines before the first one over the ceiling. */
  function Readable(lines: seq<seq<byte>>): seq<seq<byte>> {
    if lines == [] || |lines[0]| > MAX_LINE then [] else [lines[0]] + Readable(lines[1..])
  }

  /** Runs of lines closed by a blank line; `open` is the run not yet closed. */
  function Groups(open: seq<seq<byte>>, lines: seq<seq<byte>>): seq<seq<seq<byte>>>
    decreases lines
  {
    if lines == [] then []
    else if Blank(lines[0]) then [open] + Groups([], lines[1..])
    else Groups(open + [lines[0]], lines[1..])
  }

  function Payloads(group: seq<seq<byte>>): (ps: seq<seq<byte>>) {
    if group == [] then []
    else
      var init, last := group[..|group| - 1], group[|group| - 1];
      match DataOf(last)
      case None => Payloads(init)
      case Some(p) => Payloads(init) + [p]
  }

  predicate LeadingEmpty(ps: seq<seq<byte>>) {
    ps != [] && ps[0] == []
  }

  function DropLeadingEmpty(ps: seq<seq<byte>>): seq<seq<byte>> {
    if ps != [] && ps[0] == [] then DropLeadingEmpty(ps[1..]) else ps
  }

  /** Payloads separated by LF, as the standard joins a group's data lines. */
  function Join(ps: seq<seq<byte>>): seq<byte> {
    if ps == [] then []
    else if |ps| == 1 then ps[0]
    else Join(ps[..|ps| - 1]) + [LF] + ps[|ps| - 1]
  }

  function GroupPayload(group: seq<seq<byte>>): seq<byte> {
    Join(DropLeadingEmpty(Payloads(group)))
  }

  /** One event for each group with a payload, up to and including the sentinel. */
  function GroupEvents(groups: seq<seq<seq<byte>>>): seq<Event> {
    if groups == [] then []
    else
      var p := GroupPayload(groups[0]);
      if p == [] then GroupEvents(groups[1..])
      else if p == DONE then [Done]
      else [Token(p)] + GroupEvents(groups[1..])
  }

  predicate EndsDone(es: seq<Event>) {
    es != [] && es[|es| - 1] == Done
  }

  /** The stream has a line over the ceiling, complete or not. */
  predicate Broken(s: seq<byte>) {
    |Readable(Lines(s))| < |Lines(s)| || |Tail(s)| > MAX_LINE
  }

  /** An error follows if a line was too long and the sentinel did not come first. */
  function Ended(es: seq<Event>, broken: bool): seq<Event> {
    if broken && !EndsDone(es) then es + [TooLong] else es
  }

  /** The events of the rest of a stream, given the run of lines not yet closed. */
  function ParseFrom(open: seq<seq<byte>>, s: seq<byte>): seq<Event> {
    Ended(GroupEvents(Groups(open, Readable(Lines(s)))), Broken(s))
  }

  /** The events of a whole stream. */
  function ParseStream(s: seq<byte>): seq<Event> {
    ParseFrom([], s)
  }

  // ----- the machine against its lines

  /** What the machine emits for text `s` when its current event is `cur`. */
  function LineEvents(cur: seq<byte>, s: seq<byte>): seq<Event>
    decreases |s|
  {
    var i := LineLength(s);
    if i > MAX_LINE then [TooLong]
    else if i == |s| then []
    else
      var next := ProcessLine(s[..i], cur);
      if Blank(s[..i]) && next != [] then
        if next == DONE then [Done] else [Token(next)] + LineEvents([], s[i + 1..])
      else LineEvents(next, s[i + 1..])
  }

  lemma {:induction false} LineLengthOf(l: seq<byte>, s: seq<byte>)
    requires LF !in l
    ensures LineLength(l + s) == |l| + LineLength(s)
  {
    if l == [] {
      assert l + s == s;
    } else {
      LineLengthOf(l[1..], s);
      assert (l + s)[1..] == l[1..] + s;
    }
  }

  /** The text so far is a line that its LF ends. */
  lemma {:induction false} LineEventsAtEnd(cur: seq<byte>, line: seq<byte>, s: seq<byte>)
    requires LF !in line && |line| <= MAX_LINE && s != [] && s[0] == LF
    ensures var next := ProcessLine(line, cur);
            LineEvents(cur, line + s) ==
              if Blank(line) && next != [] then
                if next == DONE then [Done] else [Token(next)] + LineEvents([], s[1..])
              else LineEvents(next, s[1..])
  {
    hide ProcessLine, Blank, LineLength;
    LineLengthOf(line, s);
    NoLength(s);
    var text := line + s;
    assert text[..|line|] == line && text[|line| + 1..] == s[1..];
  }

  /** The text so far is the start of a line. */
  lemma {:induction false} LineEventsUnended(cur: seq<byte>, line: seq<byte>)
    requires LF !in line && |line| <= MAX_LINE
    ensures LineEvents(cur, line) == []
  {
    hide ProcessLine, LineLength;
    LineLengthOf(line, []);
    NoLength([]);
    assert line + [] == line;
  }

  lemma {:induction false} LineEventsTooLong(cur: seq<byte>, line: seq<byte>, s: seq<byte>)
    requires LF !in line && |line| > MAX_LINE
    ensures LineEvents(cur, line + s) == [TooLong]
  {
    hide ProcessLine, LineLength;
    LineLengthOf(line, s);
  }

  lemma {:induction false} NoLength(s: seq<byte>)
    requires s == [] || s[0] == LF
    ensures LineLength(s) == 0
  {
  }

  /** One byte at a time. */
  lemma {:induction false} FeedCons(f: Framer, s: seq<byte>)
    requires f.phase.Reading? && s != []
    ensures var (g, es) := StepByte(f, s[0]); FeedBytes(f, s).1 == es + FeedBytes(g, s[1..]).1
  {
    hide StepByte;
  }

  lemma {:induction false} FeedStopped(f: Framer, s: seq<byte>)
    requires !f.phase.Reading? || s == []
    ensures FeedBytes(f, s).1 == []
  {
  }

  lemma {:induction false} FeedIsLineEvents(f: Framer, s: seq<byte>)
    requires f.phase.Reading? && LF !in f.line && |f.line| <= MAX_LINE
    ensures FeedBytes(f, s).1 == LineEvents(f.current, f.line + s)
    decreases |s|
  {
    hide ProcessLine, Blank, FeedBytes, LineEvents;
    if s == [] {
      FeedStopped(f, s);
      LineEventsUnended(f.current, f.line);
      assert f.line + s == f.line;
    } else {
      var (g, es) := StepByte(f, s[0]);
      FeedCons(f, s);
      if s[0] == LF {
        LineEventsAtEnd(f.current, f.line, s);
        assert [] + s[1..] == s[1..];
      } else {
        assert f.line + s == (f.line + [s[0]]) + s[1..];
      }
      if g.phase.Reading? {
        FeedIsLineEvents(g, s[1..]);
      } else {
        FeedStopped(g, s[1..]);
        if s[0] != LF {
          LineEventsTooLong(f.current, g.line, s[1..]);
        }
      }
    }
  }

  // ----- lines against groups

  lemma {:induction false} DropSnoc(ps: seq<seq<byte>>, p: seq<byte>)
    ensures DropLeadingEmpty(ps + [p]) ==
            if DropLeadingEmpty(ps) == [] then (if p == [] then [] else [p]) else DropLeadingEmpty(ps) + [p]
  {
    if ps == [] {
      assert ps + [p] == [p];
      assert [p][1..] == [];
    } else if ps[0] == [] {
      assert (ps + [p])[1..] == ps[1..] + [p];
      DropSnoc(ps[1..], p);
    }
  }

  lemma {:induction false} JoinEmpty(ps: seq<seq<byte>>)
    ensures Join(DropLeadingEmpty(ps)) == [] <==> DropLeadingEmpty(ps) == []
  {
    DropHead(ps);
    var ds := DropLeadingEmpty(ps);
    if |ds| > 1 {
      assert |Join(ds)| > 0;
    }
  }

  lemma {:induction false} DropHead(ps: seq<seq<byte>>)
    ensures DropLeadingEmpty(ps) != [] ==> DropLeadingEmpty(ps)[0] != []
  {
    if ps != [] && ps[0] == [] {
      DropHead(ps[1..]);
    }
  }

  /** Adding a line to a group changes its payload as the machine's `process_line` does. */
  lemma {:induction false} GroupSnoc(group: seq<seq<byte>>, line: seq<byte>)
    ensures GroupPayload(group + [line]) == ProcessLine(line, GroupPayload(group))
  {
    hide DataOf;
    assert (group + [line])[..|group|] == group;
    match DataOf(line)
    case None =>
    case Some(p) =>
      var ps := Payloads(group);
      DropSnoc(ps, p);
      JoinEmpty(ps);
      var ds := DropLeadingEmpty(ps);
      if ds != [] {
        assert (ds + [p])[..|ds|] == ds;
      }
  }

  lemma {:induction false} BlankAddsNothing(line: seq<byte>, cur: seq<byte>)
    requires Blank(line)
    ensures ProcessLine(line, cur) == cur
  {
  }

  /** The first line, its LF found within the ceiling, is split off. */
  lemma {:induction false} FirstLine(s: seq<byte>)
    requires LineLength(s) < |s| && LineLength(s) <= MAX_LINE
    ensures var i := LineLength(s);
            && Readable(Lines(s)) == [s[..i]] + Readable(Lines(s[i + 1..]))
            && (Broken(s) <==> Broken(s[i + 1..]))
  {
    hide LineLength;
    var i := LineLength(s);
    assert Lines(s) == [s[..i]] + Lines(s[i + 1..]);
    assert Lines(s)[1..] == Lines(s[i + 1..]);
  }

  lemma {:induction false} GroupsCons(open: seq<seq<byte>>, l: seq<byte>, lines: seq<seq<byte>>)
    ensures Groups(open, [l] + lines) == if Blank(l) then [open] + Groups([], lines) else Groups(open + [l], lines)
  {
    assert ([l] + lines)[1..] == lines;
  }

  lemma {:induction false} GroupEventsCons(g: seq<seq<byte>>, gs: seq<seq<seq<byte>>>)
    ensures var p := GroupPayload(g);
            GroupEvents([g] + gs) == if p == [] then GroupEvents(gs)
                                     else if p == DONE then [Done]
                                     else [Token(p)] + GroupEvents(gs)
  {
    hide GroupPayload;
    assert ([g] + gs)[1..] == gs;
  }

  lemma {:induction false} EndedCons(e: Event, es: seq<Event>, broken: bool)
    requires e != Done
    ensures Ended([e] + es, broken) == [e] + Ended(es, broken)
  {
    DoneAfter(e, es);
    hide EndsDone;
    Associative([e], es, [TooLong]);
  }

  lemma {:induction false} DoneAfter(e: Event, es: seq<Event>)
    requires e != Done
    ensures EndsDone([e] + es) <==> EndsDone(es)
  {
    if es != [] {
      assert ([e] + es)[|es|] == es[|es| - 1];
    }
  }

  lemma {:induction false} EndedDone(broken: bool)
    ensures Ended([Done], broken) == [Done]
  {
  }

  lemma {:induction false} ParseLine(open: seq<seq<byte>>, s: seq<byte>)
    requires LineLength(s) < |s| && LineLength(s) <= MAX_LINE
    ensures var i := LineLength(s);
            var l, r := s[..i], s[i + 1..];
            var p := GroupPayload(open);
            ParseFrom(open, s) == if !Blank(l) then ParseFrom(open + [l], r)
                                  else if p == [] then ParseFrom([], r)
                                  else if p == DONE then [Done]
                                  else [Token(p)] + ParseFrom([], r)
  {
    hide GroupPayload, Blank, Broken, Ended, Groups, GroupEvents, Readable, Lines;
    var i := LineLength(s);
    var l, r := s[..i], s[i + 1..];
    var good, p := Readable(Lines(r)), GroupPayload(open);
    FirstLine(s);
    GroupsCons(open, l, good);
    GroupEventsCons(open, Groups([], good));
    EndedCons(Token(p), GroupEvents(Groups([], good)), Broken(r));
    EndedDone(Broken(r));
  }

  /** A line over the ceiling, or none complete, ends the parse. */
  lemma {:induction false} ParseEnd(open: seq<seq<byte>>, s: seq<byte>)
    requires LineLength(s) == |s| || LineLength(s) > MAX_LINE
    ensures ParseFrom(open, s) == if LineLength(s) > MAX_LINE then [TooLong] else []
  {
    hide LineLength, GroupPayload;
    if LineLength(s) < |s| {
      assert Lines(s)[0] == s[..LineLength(s)];
    }
    assert Readable(Lines(s)) == [];
  }

  lemma {:induction false} LinesAreGroups(open: seq<seq<byte>>, s: seq<byte>)
    ensures LineEvents(GroupPayload(open), s) == ParseFrom(open, s)
    decreases |s|
  {
    hide GroupPayload, ParseFrom, ProcessLine, Blank;
    var i := LineLength(s);
    if i == |s| || i > MAX_LINE {
      ParseEnd(open, s);
    } else {
      var l, r := s[..i], s[i + 1..];
      ParseLine(open, s);
      EmptyGroup();
      LinesAreGroups([], r);
      if Blank(l) {
        BlankAddsNothing(l, GroupPayload(open));
      } else {
        GroupSnoc(open, l);
        LinesAreGroups(open + [l], r);
      }
    }
  }

  lemma {:induction false} EmptyGroup()
    ensures GroupPayload([]) == []
  {
  }

  /** The streaming refinement: for every byte string and every way of chopping it into
      feeds, the events are those of the declarative parse of the whole string. */
  lemma {:induction false} StreamingRefinement(chunks: seq<seq<byte>>)
    ensures FeedAll(FRESH, chunks).1 == ParseStream(Concat(chunks))
  {
    hide FeedAll, FeedBytes, LineEvents, GroupPayload, ParseFrom;
    ChoppingIsInvisible(FRESH, chunks);
    var s := Concat(chunks);
    FeedIsLineEvents(FRESH, s);
    assert FRESH.line + s == s;
    EmptyGroup();
    LinesAreGroups([], s);
  }

  function TokenBytes(es: seq<Event>): nat {
    if es == [] then 0
    else TokenBytes(es[..|es| - 1]) + (if es[|es| - 1].Token? then |es[|es| - 1].payload| else 0)
  }

  lemma {:induction false} TokenBytesAppend(a: seq<Event>, b: seq<Event>)
    ensures TokenBytes(a + b) == TokenBytes(a) + TokenBytes(b)
  {
    if b == [] {
      assert a + b == a;
    } else {
      TokenBytesAppend(a, b[..|b| - 1]);
      assert (a + b)[..|a + b| - 1] == a + b[..|b| - 1];
    }
  }

  /** `bytes_seen` is the total length of the tokens emitted. */
  lemma {:induction false} BytesSeenCounts(f: Framer, bytes: seq<byte>)
    ensures FeedBytes(f, bytes).0.bytesSeen == f.bytesSeen + TokenBytes(FeedBytes(f, bytes).1)
    decreases |bytes|
  {
    hide ProcessLine;
    if bytes != [] && f.phase.Reading? {
      var (g, es) := StepByte(f, bytes[0]);
      BytesSeenCounts(g, bytes[1..]);
      TokenBytesAppend(es, FeedBytes(g, bytes[1..]).1);
      assert es != [] ==> es[..0] == [];
    }
  }

  // ----- against section 9.2.6 of the HTML standard

  /** Where the first colon of a line is; its length if there is none. */
  function ColonAt(line: seq<byte>): (i: nat)
    ensures i <= |line| && (i < |line| ==> line[i] == 58) && forall k :: 0 <= k < i ==> line[k] != 58
  {
    if line == [] || line[0] == 58 then 0 else 1 + ColonAt(line[1..])
  }

  /** The name and the value of a field: what stands before the first colon, and what stands after
      it less one leading space. A line without a colon is a name with an empty value. */
  function FieldName(line: seq<byte>): seq<byte> {
    line[..ColonAt(line)]
  }

  function FieldValue(line: seq<byte>): seq<byte> {
    if ColonAt(line) == |line| then []
    else
      var rest := line[ColonAt(line) + 1..];
      if rest != [] && rest[0] == 32 then rest[1..] else rest
  }

  /** The bytes of `data`. */
  const DATA_NAME: seq<byte> := [100, 97, 116, 97]

  /** The value a line gives the standard's data field, if that is the field it names. */
  function StandardData(raw: seq<byte>): Option<seq<byte>> {
    var line := StripCr(raw);
    if FieldName(line) == DATA_NAME then Some(FieldValue(line)) else None
  }

  /** A line that is the field name alone, which the standard reads as an empty value. */
  predicate NameOnly(raw: seq<byte>) {
    StripCr(raw) == DATA_NAME
  }

  lemma {:induction false} ColonIsFirst(line: seq<byte>, i: nat)
    requires i <= |line| && (forall k :: 0 <= k < i ==> line[k] != 58) && (i < |line| ==> line[i] == 58)
    ensures ColonAt(line) == i
  {
    hide ColonAt;
  }

  /** The framer reads every line but a bare name as the standard does. */
  lemma {:induction false} DataAsStandardIff(raw: seq<byte>)
    ensures DataOf(raw) == StandardData(raw) <==> !NameOnly(raw)
    ensures NameOnly(raw) ==> DataOf(raw) == None && StandardData(raw) == Some([])
  {
    hide StripCr, FieldName, FieldValue;
    DataField(StripCr(raw));
  }

  lemma {:induction false} DataField(line: seq<byte>)
    ensures FieldName(line) == DATA_NAME <==> line == DATA_NAME || DATA <= line
    ensures line == DATA_NAME ==> FieldValue(line) == []
    ensures DATA <= line ==>
              FieldValue(line) == (if |line| > 5 && line[5] == 32 then line[6..] else line[5..])
  {
    hide ColonAt;
    if line == DATA_NAME {
      ColonIsFirst(line, 4);
    } else if DATA <= line {
      ColonIsFirst(line, 4);
      assert line[..4] == DATA_NAME;
      if |line| > 5 {
        assert line[5..][1..] == line[6..];
      }
    } else if ColonAt(line) == 4 && line[..4] == DATA_NAME && |line| > 4 {
      StartsWithData(line);
    }
  }

  lemma {:induction false} StartsWithData(line: seq<byte>)
    requires |line| > 4 && line[..4] == DATA_NAME && line[4] == 58
    ensures DATA <= line
  {
    assert line[..5] == line[..4] + [line[4]];
  }

  /** What a line contributes: `data:` and the payload, with one space dropped; a comment, any other
      field and a line without a colon contribute nothing. */
  lemma {:induction false} DataLines(p: seq<byte>)
    requires 10 !in p && 13 !in p
    ensures DataOf([100, 97, 116, 97, 58, 32] + p) == Some(p)
    ensures (p == [] || p[0] != 32) ==> DataOf([100, 97, 116, 97, 58] + p) == Some(p)
    ensures DataOf([58] + p) == None
    ensures !([100, 97, 116, 97, 58] <= p) ==> DataOf(p) == None
  {
    var spaced, plain := [100, 97, 116, 97, 58, 32] + p, [100, 97, 116, 97, 58] + p;
    KeepsCr(spaced);
    KeepsCr(plain);
    KeepsCr([58] + p);
    KeepsCr(p);
    assert spaced[..5] == DATA && spaced[5..] == [32] + p && ([32] + p)[1..] == p;
    assert plain[..5] == DATA && plain[5..] == p;
  }

  lemma {:induction false} KeepsCr(line: seq<byte>)
    requires 13 !in line
    ensures StripCr(line) == line
  {
  }

  function StandardPayloads(group: seq<seq<byte>>): (ps: seq<seq<byte>>) {
    if group == [] then []
    else
      var before, last := group[..|group| - 1], group[|group| - 1];
      match StandardData(last)
      case None => StandardPayloads(before)
      case Some(p) => StandardPayloads(before) + [p]
  }

  /** The event the standard dispatches at the blank line that closes a group: none without a
      data field, otherwise the values joined, even if that is empty. */
  function StandardEvent(group: seq<seq<byte>>): Option<seq<byte>> {
    var ps := StandardPayloads(group);
    if ps == [] then None else Some(Join(ps))
  }

  /** The event the framer dispatches there, the sentinel taken as its text. */
  function FramerEvent(group: seq<seq<byte>>): Option<seq<byte>> {
    var es := GroupEvents([group]);
    if es == [] then None
    else match es[0]
      case Token(p) => Some(p)
      case _ => Some(DONE)
  }

  /** Exactly when a group is dispatched as section 9.2.6 of the WHATWG HTML standard has it:
      it has no data field, or none of its data lines lacks the colon and the first has a
      value. */
  lemma {:induction false} DispatchesAsStandardIff(group: seq<seq<byte>>)
    ensures FramerEvent(group) == StandardEvent(group) <==>
            || StandardPayloads(group) == []
            || ((forall l <- group :: !NameOnly(l)) && !LeadingEmpty(Payloads(group)))
  {
    hide Join, DataOf, StandardData, NameOnly;
    var ps, sp := Payloads(group), StandardPayloads(group);
    var ds := DropLeadingEmpty(ps);
    FramerDispatches(group);
    PayloadsShorter(group);
    DropWeight(ps);
    JoinLength(ds);
    JoinLength(sp);
    JoinEmpty(ps);
    if (forall l <- group :: !NameOnly(l)) && !LeadingEmpty(ps) && sp != [] {
      SamePayloads(group);
      assert ps[0] != [];
    }
    if FramerEvent(group) == StandardEvent(group) && sp != [] {
      assert JoinedLength(ds) == JoinedLength(sp);
    }
  }

  /** A lone empty data line: an event for the standard, none for the framer. */
  lemma {:induction false} EmptyEventIsDropped()
    ensures FramerEvent([DATA]) == None && StandardEvent([DATA]) == Some([])
  {
    hide GroupPayload;
    assert [DATA][..0] == [] && DATA[5..] == [];
    assert DataOf(DATA) == Some([]);
    assert Payloads([DATA]) == [[]];
    assert StandardPayloads([DATA]) == [[]];
    FramerDispatches([DATA]);
    EmptyPayload([DATA]);
  }

  lemma {:induction false} EmptyPayload(group: seq<seq<byte>>)
    requires Payloads(group) == [[]]
    ensures GroupPayload(group) == []
  {
    var ps := Payloads(group);
    assert ps[1..] == [];
    assert DropLeadingEmpty(ps) == DropLeadingEmpty(ps[1..]);
  }

  lemma {:induction false} FramerDispatches(group: seq<seq<byte>>)
    ensures FramerEvent(group) == if GroupPayload(group) == [] then None else Some(GroupPayload(group))
  {
    hide GroupPayload;
    GroupEventsCons(group, []);
    assert [group] + [] == [group];
  }

  /** The framer sees the standard's values but for those without a colon. */
  lemma {:induction false} PayloadsShorter(group: seq<seq<byte>>)
    ensures JoinedLength(Payloads(group)) <= JoinedLength(StandardPayloads(group))
    ensures JoinedLength(Payloads(group)) == JoinedLength(StandardPayloads(group)) <==>
            forall l <- group :: !NameOnly(l)
  {
    hide DataOf, NameOnly, StandardData;
    if group != [] {
      var before, last := group[..|group| - 1], group[|group| - 1];
      PayloadsShorter(before);
      assert group == before + [last];
      DataAsStandardIff(last);
      if StandardData(last).Some? {
        JoinedSnoc(StandardPayloads(before), StandardData(last).value);
      }
      if DataOf(last).Some? {
        JoinedSnoc(Payloads(before), DataOf(last).value);
      }
    }
  }

  lemma {:induction false} SamePayloads(group: seq<seq<byte>>)
    requires forall l <- group :: !NameOnly(l)
    ensures Payloads(group) == StandardPayloads(group)
  {
    hide DataOf, NameOnly, StandardData;
    if group != [] {
      SamePayloads(group[..|group| - 1]);
      DataAsStandardIff(group[|group| - 1]);
    }
  }

  /** Dropping leading empty values shortens the joined text unless there is none to drop. */
  lemma {:induction false} DropWeight(ps: seq<seq<byte>>)
    ensures JoinedLength(DropLeadingEmpty(ps)) <= JoinedLength(ps)
    ensures JoinedLength(DropLeadingEmpty(ps)) == JoinedLength(ps) <==> !LeadingEmpty(ps)
  {
    if ps != [] && ps[0] == [] {
      DropWeight(ps[1..]);
    }
  }

  function JoinedLength(ps: seq<seq<byte>>): nat {
    if ps == [] then 0 else JoinedLength(ps[1..]) + |ps[0]| + 1
  }

  lemma {:induction false} JoinLength(ps: seq<seq<byte>>)
    ensures ps != [] ==> |Join(ps)| + 1 == JoinedLength(ps)
    ensures ps == [] ==> Join(ps) == []
  {
    if |ps| == 1 {
      assert ps[1..] == [];
    } else if |ps| > 1 {
      JoinLength(ps[..|ps| - 1]);
      JoinedSnoc(ps[..|ps| - 1], ps[|ps| - 1]);
      assert ps == ps[..|ps| - 1] + [ps[|ps| - 1]];
    }
  }

  lemma {:induction false} JoinedSnoc(ps: seq<seq<byte>>, p: seq<byte>)
    ensures JoinedLength(ps + [p]) == JoinedLength(ps) + |p| + 1
  {
    if ps == [] {
      assert ps + [p] == [p];
    } else {
      JoinedSnoc(ps[1..], p);
      assert (ps + [p])[1..] == ps[1..] + [p];
    }
  }

  /** The standard's lines: ended by CR LF, by LF or by CR alone; `line` is the text since the
      last end. */
  function StandardLines(line: seq<byte>, s: seq<byte>): (ls: seq<seq<byte>>)
    decreases |s|
  {
    if s == [] then []
    else if s[0] == LF then [line] + StandardLines([], s[1..])
    else if s[0] == CR then [line] + StandardLines([], if BareCr(s) then s[1..] else s[2..])
    else StandardLines(line + [s[0]], s[1..])
  }

  /** `s` begins with a CR that no LF follows. */
  predicate BareCr(s: seq<byte>) {
    s != [] && s[0] == CR && !(|s| > 1 && s[1] == LF)
  }

  function Stripped(lines: seq<seq<byte>>): (r: seq<seq<byte>>)
    ensures |r| == |lines|
  {
    if lines == [] then [] else [StripCr(lines[0])] + Stripped(lines[1..])
  }

  function BareCrs(s: seq<byte>): nat {
    if s == [] then 0 else BareCrs(s[1..]) + (if BareCr(s) then 1 else 0)
  }

  function Lfs(s: seq<byte>): nat {
    if s == [] then 0 else Lfs(s[1..]) + (if s[0] == LF then 1 else 0)
  }

  lemma {:induction false} StandardCount(line: seq<byte>, s: seq<byte>)
    ensures |StandardLines(line, s)| == Lfs(s) + BareCrs(s)
    decreases |s|
  {
    if s != [] {
      if s[0] == CR && !BareCr(s) {
        assert s[1..][1..] == s[2..];
        StandardCount([], s[2..]);
      } else {
        StandardCount(if s[0] == LF || s[0] == CR then [] else line + [s[0]], s[1..]);
      }
    }
  }

  lemma {:induction false} LinesAfter(line: seq<byte>, s: seq<byte>)
    requires LF !in line
    ensures Lines(line + s) == if s == [] then []
                               else if s[0] == LF then [line] + Lines(s[1..])
                               else Lines((line + [s[0]]) + s[1..])
  {
    hide LineLength;
    LineLengthOf(line, s);
    if s == [] {
      assert line + s == line;
      LineLengthOf(line, []);
      assert line + [] == line;
    } else if s[0] == LF {
      NoLength(s);
      assert (line + s)[..|line|] == line && (line + s)[|line| + 1..] == s[1..];
    } else {
      assert line + s == (line + [s[0]]) + s[1..];
    }
  }

  lemma {:induction false} LineCount(line: seq<byte>, s: seq<byte>)
    requires LF !in line
    ensures |Lines(line + s)| == Lfs(s)
    decreases |s|
  {
    hide Lines;
    LinesAfter(line, s);
    if s != [] {
      if s[0] == LF {
        LineCount([], s[1..]);
        assert [] + s[1..] == s[1..];
      } else {
        LineCount(line + [s[0]], s[1..]);
      }
    }
  }

  lemma {:induction false} SameLines(line: seq<byte>, s: seq<byte>)
    requires LF !in line && CR !in line && BareCrs(s) == 0
    ensures StandardLines(line, s) == Stripped(Lines(line + s))
    decreases |s|
  {
    hide Lines;
    LinesAfter(line, s);
    if s != [] {
      var rest := s[1..];
      if s[0] == LF {
        assert [] + rest == rest;
        SameLines([], rest);
        StrippedCons(line, Lines(rest));
      } else if s[0] == CR {
        LinesAfter(line + [CR], rest);
        assert rest[1..] == s[2..] && [] + s[2..] == s[2..];
        SameLines([], s[2..]);
        StrippedCons(line + [CR], Lines(s[2..]));
        assert (line + [CR])[..|line|] == line;
      } else {
        SameLines(line + [s[0]], rest);
      }
    }
  }

  lemma {:induction false} StrippedCons(l: seq<byte>, ls: seq<seq<byte>>)
    ensures Stripped([l] + ls) == [StripCr(l)] + Stripped(ls)
  {
    hide StripCr;
    assert ([l] + ls)[1..] == ls;
  }

  /** Splitting on LF and stripping one CR gives the standard's lines if and only if every CR is
      followed by an LF. */
  lemma {:induction false} LinesAsStandardIff(s: seq<byte>)
    ensures StandardLines([], s) == Stripped(Lines(s)) <==> BareCrs(s) == 0
  {
    hide Lines, StandardLines, Stripped, BareCrs, Lfs;
    assert [] + s == s;
    StandardCount([], s);
    LineCount([], s);
    if BareCrs(s) == 0 {
      SameLines([], s);
    }
  }

  // ----- whole streams

  /** The payloads of the events the framer emits. */
  function Emitted(es: seq<Event>): seq<seq<byte>> {
    if es == [] then []
    else (match es[0]
          case Token(p) => [p]
          case Done => [DONE]
          case _ => []) + Emitted(es[1..])
  }

  /** The payloads of the events the standard dispatches for these groups. */
  function StandardEvents(groups: seq<seq<seq<byte>>>): seq<seq<byte>> {
    if groups == [] then []
    else (match StandardEvent(groups[0])
          case None => []
          case Some(p) => [p]) + StandardEvents(groups[1..])
  }

  /** The payloads up to and including the first sentinel. */
  function UpToDone(ps: seq<seq<byte>>): seq<seq<byte>> {
    if ps == [] then [] else if ps[0] == DONE then [DONE] else [ps[0]] + UpToDone(ps[1..])
  }

  lemma {:induction false} GroupsAgree(groups: seq<seq<seq<byte>>>)
    requires forall g <- groups :: FramerEvent(g) == StandardEvent(g)
    ensures Emitted(GroupEvents(groups)) == UpToDone(StandardEvents(groups))
  {
    hide GroupPayload, StandardEvent, FramerEvent;
    if groups != [] {
      var g, rest := groups[0], groups[1..];
      assert groups == [g] + rest;
      GroupsAgree(rest);
      FramerDispatches(g);
      GroupEventsCons(g, rest);
      StandardEventsCons(g, rest);
      var p := GroupPayload(g);
      if p == [] {
        assert StandardEvents(groups) == [] + StandardEvents(rest) == StandardEvents(rest);
      } else if p == DONE {
        assert [Done][1..] == [];
        assert Emitted([Done]) == [DONE] + Emitted([]);
        assert ([p] + StandardEvents(rest))[0] == DONE;
      } else {
        assert ([Token(p)] + GroupEvents(rest))[1..] == GroupEvents(rest);
        assert ([p] + StandardEvents(rest))[1..] == StandardEvents(rest);
      }
    }
  }

  /** No CR but perhaps the last byte. */
  predicate Clean(line: seq<byte>) {
    CR !in StripCr(line)
  }

  lemma {:induction false} CleanLine(l: seq<byte>)
    requires Clean(l)
    ensures Blank(StripCr(l)) <==> Blank(l)
    ensures StandardData(StripCr(l)) == StandardData(l)
  {
    assert StripCr(StripCr(l)) == StripCr(l);
  }

  lemma {:induction false} StrippedSnoc(ls: seq<seq<byte>>, l: seq<byte>)
    ensures Stripped(ls + [l]) == Stripped(ls) + [StripCr(l)]
  {
    hide StripCr;
    if ls == [] {
      assert ls + [l] == [l] && [l][1..] == [];
    } else {
      StrippedSnoc(ls[1..], l);
      assert (ls + [l])[1..] == ls[1..] + [l];
    }
  }

  lemma {:induction false} CleanGroup(g: seq<seq<byte>>)
    requires forall l <- g :: Clean(l)
    ensures StandardPayloads(Stripped(g)) == StandardPayloads(g)
  {
    hide StripCr, StandardData;
    if g != [] {
      var before, last := g[..|g| - 1], g[|g| - 1];
      assert g == before + [last];
      CleanGroup(before);
      CleanLine(last);
      StrippedSnoc(before, last);
      var sg := Stripped(g);
      assert sg[..|sg| - 1] == Stripped(before) && sg[|sg| - 1] == StripCr(last);
    }
  }

  lemma {:induction false} GroupsStripped(open: seq<seq<byte>>, ls: seq<seq<byte>>)
    requires (forall l <- open :: Clean(l)) && forall l <- ls :: Clean(l)
    ensures StandardEvents(Groups(Stripped(open), Stripped(ls))) == StandardEvents(Groups(open, ls))
    decreases |ls|
  {
    hide StripCr, Blank, Clean, StandardPayloads;
    if ls != [] {
      var l, rest := ls[0], ls[1..];
      assert ls == [l] + rest;
      CleanLine(l);
      StrippedCons(l, rest);
      GroupsCons(open, l, rest);
      GroupsCons(Stripped(open), StripCr(l), Stripped(rest));
      if Blank(l) {
        GroupsStripped([], rest);
        CleanGroup(open);
        StandardEventsCons(open, Groups([], rest));
        StandardEventsCons(Stripped(open), Groups([], Stripped(rest)));
      } else {
        StrippedSnoc(open, l);
        GroupsStripped(open + [l], rest);
      }
    }
  }

  lemma {:induction false} StandardEventsCons(g: seq<seq<byte>>, gs: seq<seq<seq<byte>>>)
    ensures StandardEvents([g] + gs) == (match StandardEvent(g)
                                         case None => []
                                         case Some(p) => [p]) + StandardEvents(gs)
  {
    hide StandardEvent;
    assert ([g] + gs)[1..] == gs;
  }

  lemma {:induction false} StandardLinesHaveNoCr(line: seq<byte>, s: seq<byte>)
    requires CR !in line
    ensures forall l <- StandardLines(line, s) :: CR !in l
    decreases |s|
  {
    if s != [] {
      if s[0] == CR {
        StandardLinesHaveNoCr([], if BareCr(s) then s[1..] else s[2..]);
      } else {
        StandardLinesHaveNoCr(if s[0] == LF then [] else line + [s[0]], s[1..]);
      }
    }
  }

  lemma {:induction false} StrippedAt(ls: seq<seq<byte>>, i: nat)
    requires i < |ls|
    ensures Stripped(ls)[i] == StripCr(ls[i])
  {
    hide StripCr;
    if i > 0 {
      StrippedAt(ls[1..], i - 1);
    }
  }

  lemma {:induction false} CleanLines(s: seq<byte>)
    requires BareCrs(s) == 0
    ensures forall l <- Lines(s) :: Clean(l)
  {
    hide Lines, StandardLines, Stripped, StripCr;
    LinesAsStandardIff(s);
    StandardLinesHaveNoCr([], s);
    forall l | l in Lines(s)
      ensures Clean(l)
    {
      var i :| 0 <= i < |Lines(s)| && Lines(s)[i] == l;
      StrippedAt(Lines(s), i);
      assert Stripped(Lines(s))[i] in StandardLines([], s);
    }
  }

  lemma {:induction false} AllReadable(ls: seq<seq<byte>>)
    requires |Readable(ls)| >= |ls|
    ensures Readable(ls) == ls
  {
    if ls != [] {
      AllReadable(ls[1..]);
      assert ls == [ls[0]] + ls[1..];
    }
  }

  /** Data lines are joined by a line feed, as the standard joins them. */
  lemma {:induction false} JoinedByLineFeed(ps: seq<seq<byte>>, p: seq<byte>)
    ensures Join([]) == [] && Join(ps + [p]) == if ps == [] then p else Join(ps) + [10] + p
  {
    assert ps != [] ==> (ps + [p])[..|ps|] == ps;
  }

  /** The end of a completion stream, however it is chopped: `data: [DONE]` and a blank line. */
  lemma {:induction false} SentinelEndsStream(chunks: seq<seq<byte>>)
    requires Concat(chunks) == [100, 97, 116, 97, 58, 32, 91, 68, 79, 78, 69, 93, 10, 10]
    ensures FeedAll(FRESH, chunks).1 == [Done]
  {
    hide FeedAll, ParseFrom;
    var line := [100, 97, 116, 97, 58, 32, 91, 68, 79, 78, 69, 93];
    assert Concat(chunks) == line + [10, 10];
    StreamingRefinement(chunks);
    SentinelLine(line);
    ClosedByBlank(line);
  }

  lemma {:induction false} SentinelLine(line: seq<byte>)
    requires line == [100, 97, 116, 97, 58, 32, 91, 68, 79, 78, 69, 93]
    ensures GroupPayload([line]) == [91, 68, 79, 78, 69, 93]
  {
    hide DataOf, GroupPayload;
    var done: seq<byte> := [91, 68, 79, 78, 69, 93];
    assert line == [100, 97, 116, 97, 58, 32] + done;
    DataLines(done);
    GroupSnoc([], line);
    EmptyGroup();
    assert [] + [line] == [line];
  }

  /** A line and a blank line are one group. */
  lemma {:induction false} ClosedByBlank(line: seq<byte>)
    requires LF !in line && |line| <= MAX_LINE && !Blank(line)
    ensures var p := GroupPayload([line]);
            ParseStream(line + [10, 10]) == if p == [] then []
                                            else if p == [91, 68, 79, 78, 69, 93] then [Done]
                                            else [Token(p)]
  {
    hide GroupPayload, ParseFrom;
    var s := line + [10, 10];
    LineLengthOf(line, [10, 10]);
    NoLength([10, 10]);
    assert s[..|line|] == line && s[|line| + 1..] == [10];
    ParseLine([], s);
    NoLength([10]);
    ParseLine([line], [10]);
    NoLength([]);
    ParseEnd([], []);
    assert [10][..0] == [] && [10][1..] == [] && [] + [line] == [line];
  }

  /** A line without an end is an error exactly when it exceeds 1 MiB. */
  lemma {:induction false} LongLineFails(chunks: seq<seq<byte>>)
    requires 10 !in Concat(chunks)
    ensures FeedAll(FRESH, chunks).1 == if |Concat(chunks)| > 1_048_576 then [TooLong] else []
  {
    hide FeedAll, ParseFrom;
    var s := Concat(chunks);
    StreamingRefinement(chunks);
    LineLengthOf(s, []);
    NoLength([]);
    assert s + [] == s;
    ParseEnd([], s);
  }

  /** A whole stream, in any chopping: with no bare CR, no line over the ceiling and every group
      dispatched as the standard does, the payloads are those of the standard up to the
      sentinel. */
  lemma {:induction false} StreamAsStandard(chunks: seq<seq<byte>>)
    requires var s := Concat(chunks);
             && BareCrs(s) == 0 && !Broken(s)
             && forall g <- Groups([], Lines(s)) :: FramerEvent(g) == StandardEvent(g)
    ensures Emitted(FeedAll(FRESH, chunks).1) ==
            UpToDone(StandardEvents(Groups([], StandardLines([], Concat(chunks)))))
  {
    hide FeedAll, Lines, Readable, Groups, GroupEvents, Emitted, UpToDone, StandardEvents, StandardLines;
    hide FramerEvent, StandardEvent, BareCrs, Clean;
    var s := Concat(chunks);
    StreamingRefinement(chunks);
    AllReadable(Lines(s));
    GroupsAgree(Groups([], Lines(s)));
    LinesAsStandardIff(s);
    CleanLines(s);
    GroupsStripped([], Lines(s));
  }

  // ----- the framer as it runs

  /** Events under construction: tokens are ranges of the per-feed output buffer. */
  datatype Emit = Range(from: nat, to: nat) | EmitDone | EmitError

  predicate InBuffer(emit: seq<Emit>, buffer: seq<byte>) {
    forall i :: 0 <= i < |emit| ==> emit[i].Range? ==> emit[i].from <= emit[i].to <= |buffer|
  }

  function Resolve(emit: seq<Emit>, buffer: seq<byte>): (es: seq<Event>)
    requires InBuffer(emit, buffer)
    ensures |es| == |emit|
  {
    seq(|emit|, i requires 0 <= i < |emit| =>
      match emit[i]
      case Range(a, b) => Token(buffer[a..b])
      case EmitDone => Done
      case EmitError => TooLong)
  }

  /** Growing the buffer does not disturb tokens already placed in it. */
  lemma {:induction false} ResolveGrown(emit: seq<Emit>, buffer: seq<byte>, more: seq<byte>)
    requires InBuffer(emit, buffer)
    ensures InBuffer(emit, buffer + more) && Resolve(emit, buffer + more) == Resolve(emit, buffer)
  {
    forall i | 0 <= i < |emit| && emit[i].Range?
      ensures (buffer + more)[emit[i].from..emit[i].to] == buffer[emit[i].from..emit[i].to]
    {
    }
  }

  class SseFramer {
    var lineBuf: seq<byte>
    var currentEvent: seq<byte>
    var outputBuffer: seq<byte>
    var bytesSeen: nat
    var phase: Phase

    ghost function View(): Framer
      reads this
    {
      Framer(lineBuf, currentEvent, bytesSeen, phase)
    }

    constructor ()
      ensures View() == FRESH == Framer([], [], 0, Reading)
    {
      lineBuf, currentEvent, outputBuffer, bytesSeen, phase := [], [], [], 0, Reading;
    }

    method Reset()
      modifies this
      ensures View() == FRESH == Framer([], [], 0, Reading)
    {
      lineBuf, currentEvent, outputBuffer := [], [], [];
      bytesSeen := 0;
      phase := Reading;
    }

    /** The body of the byte loop. */
    method TakeByte(b: byte, emit: seq<Emit>) returns (emit': seq<Emit>)
      requires phase.Reading? && InBuffer(emit, outputBuffer)
      modifies this
      ensures InBuffer(emit', outputBuffer)
      ensures var (g, es) := StepByte(old(View()), b);
              View() == g && Resolve(emit', outputBuffer) == Resolve(emit, old(outputBuffer)) + es
    {
      emit' := emit;
      if b == LF {
        currentEvent := ProcessLine(lineBuf, currentEvent);
        var lineWasBlank := lineBuf == [] || (|lineBuf| == 1 && lineBuf[0] == CR);
        lineBuf := [];
        if lineWasBlank && currentEvent != [] {
          if currentEvent == DONE {
            emit' := emit + [EmitDone];
            currentEvent := [];
            phase := Finished;
          } else {
            var start := |outputBuffer|;
            ResolveGrown(emit, outputBuffer, currentEvent);
            outputBuffer := outputBuffer + currentEvent;
            var end := |outputBuffer|;
            bytesSeen := bytesSeen + (end - start);
            emit' := emit + [Range(start, end)];
            assert outputBuffer[start..end] == currentEvent;
            currentEvent := [];
          }
        }
      } else {
        lineBuf := lineBuf + [b];
        if |lineBuf| > MAX_LINE {
          emit' := emit + [EmitError];
          phase := Failed;
        }
      }
    }

    /** `cancelled` is what the cancellation driver reports when the feed begins. */
    method Feed(bytes: seq<byte>, cancelled: Option<Cause>) returns (events: seq<Event>)
      modifies this
      ensures cancelled.None? ==> (View(), events) == FeedBytes(old(View()), bytes)
      ensures cancelled.Some? && old(phase).Reading? ==>
                events == [Cancelled(old(bytesSeen), cancelled.value)]
                && View() == old(View()).(phase := Stopped)
      ensures !old(phase).Reading? ==> events == [] && View() == old(View())
    {
      hide StepByte;
      outputBuffer := [];
      if !phase.Reading? {
        return [];
      }
      if cancelled.Some? {
        phase := Stopped;
        return [Cancelled(bytesSeen, cancelled.value)];
      }
      var emit: seq<Emit> := [];
      var i := 0;
      assert bytes[0..] == bytes;
      assert Resolve(emit, outputBuffer) + FeedBytes(View(), bytes).1 == FeedBytes(View(), bytes).1;
      while i < |bytes| && phase.Reading?
        invariant i <= |bytes|
        invariant InBuffer(emit, outputBuffer)
        invariant var (h, more) := FeedBytes(View(), bytes[i..]);
                  FeedBytes(old(View()), bytes) == (h, Resolve(emit, outputBuffer) + more)
        decreases |bytes| - i
      {
        ghost var f, done := View(), Resolve(emit, outputBuffer);
        emit := TakeByte(bytes[i], emit);
        assert bytes[i..][1..] == bytes[i + 1..];
        Associative(done, StepByte(f, bytes[i]).1, FeedBytes(View(), bytes[i + 1..]).1);
        i := i + 1;
      }
      events := Resolve(emit, outputBuffer);
      assert events + [] == events;
    }
  }
}
