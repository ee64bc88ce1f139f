/** packages/session-store: export of a session to JSON lines (jsonl/encoder.ts,
    writer/jsonl-file-writer.ts) and import (jsonl/decoder.ts). */
module Jsonl {
  import opened Basics
  import opened SessionEvents

  /** A parsed line. `kind` is its type, if that is a string; `toolResult` says whether its first
      content block is a tool result; `rest` is everything else. */
  datatype Entry = Entry(kind: Option<string>, sidechain: bool, sessionId: Option<string>, cwd: Option<string>,
                         timestamp: Option<string>, snapshotTimestamp: Option<string>, toolResult: bool, rest: string)

  /** What JSON.parse makes of a text: it throws, or yields null, or a value with fields (one that is no
      object has none of them, so no kind). */
  datatype Json = Invalid | Null | Obj(entry: Entry)

  /** The text form of JSON and of dates. */
  datatype Codec = Codec(show: Entry -> string, parse: string -> Json, date: string -> Option<int>)

  // ---- Lines ----

  /** The characters String.prototype.trim removes. */
  predicate IsSpace(c: char) {
    c in " \t\n\r\U{B}\U{C}\U{A0}\U{FEFF}\U{1680}\U{2028}\U{2029}\U{202F}\U{205F}\U{3000}" ||
        '\U{2000}' <= c <= '\U{200A}'
  }

  predicate Blank(line: string) { forall i :: 0 <= i < |line| ==> IsSpace(line[i]) }

  /** What the round trip needs of the text form: it can be read back, takes one line and is not blank. */
  ghost predicate Lawful(c: Codec) {
    forall e :: c.parse(c.show(e)) == Obj(e) && '\n' !in c.show(e) && !Blank(c.show(e))
  }

  /** `content.split('\n')` */
  function Split(content: string): seq<string> {
    if content == "" then [""]
    else
      var rest := Split(content[1..]);
      if content[0] == '\n' then [""] + rest else [[content[0]] + rest[0]] + rest[1..]
  }

  function NonBlank(lines: seq<string>): seq<string> {
    if lines == [] then []
    else NonBlank(lines[..|lines| - 1]) + (if Blank(lines[|lines| - 1]) then [] else [lines[|lines| - 1]])
  }

  function ParseLines(content: string): seq<string> { NonBlank(Split(content)) }

  /** Each line followed by a newline, as the writer joins them. */
  function Join(lines: seq<string>): string {
    if lines == [] then "" else lines[0] + "\n" + Join(lines[1..])
  }

  lemma {:induction false} SplitLine(line: string, rest: string)
    requires '\n' !in line
    ensures Split(line + "\n" + rest) == [line] + Split(rest)
    decreases |line|
  {
    var text := line + "\n" + rest;
    if line == "" {
      assert text[1..] == rest;
    } else {
      assert text[1..] == line[1..] + "\n" + rest;
      SplitLine(line[1..], rest);
      assert line == [line[0]] + line[1..];
    }
  }

  lemma {:induction false} SplitJoin(lines: seq<string>)
    requires forall l :: l in lines ==> '\n' !in l
    ensures Split(Join(lines)) == lines + [""]
  {
    if lines != [] {
      assert lines[0] in lines;
      SplitLine(lines[0], Join(lines[1..]));
      SplitJoin(lines[1..]);
      assert lines == [lines[0]] + lines[1..];
    }
  }

  /** What `split` cuts at the newlines, put together again. */
  function Unsplit(pieces: seq<string>): string
    requires pieces != []
  {
    if |pieces| == 1 then pieces[0] else pieces[0] + "\n" + Unsplit(pieces[1..])
  }

  /** Any text is cut at all its newlines and nowhere else. */
  lemma {:induction false} SplitKeepsText(content: string)
    ensures Unsplit(Split(content)) == content && forall piece :: piece in Split(content) ==> '\n' !in piece
  {
    if content != "" {
      var rest := Split(content[1..]);
      SplitKeepsText(content[1..]);
      assert content == [content[0]] + content[1..];
      assert rest == [rest[0]] + rest[1..];
      if content[0] == '\n' {
        assert ([""] + rest)[1..] == rest;
      } else {
        assert ([[content[0]] + rest[0]] + rest[1..])[1..] == rest[1..];
      }
    }
  }

  lemma NonBlankAppend(lines: seq<string>, line: string)
    ensures NonBlank(lines + [line])
            == if forall i :: 0 <= i < |line| ==> IsSpace(line[i]) then NonBlank(lines) else NonBlank(lines) + [line]
  {
    assert (lines + [line])[..|lines|] == lines;
    assert NonBlank(lines) + [] == NonBlank(lines);
  }

  /** Of the pieces exactly the blank ones are left out. */
  lemma {:induction false} NonBlankHas(lines: seq<string>, l: string)
    ensures l in NonBlank(lines) <==> l in lines && exists i :: 0 <= i < |l| && !IsSpace(l[i])
    decreases |lines|
  {
    if lines != [] {
      var n := |lines| - 1;
      assert lines == lines[..n] + [lines[n]];
      NonBlankHas(lines[..n], l);
      NonBlankAppend(lines[..n], lines[n]);
    }
  }

  lemma {:induction false} NonBlankAll(lines: seq<string>)
    requires forall i :: 0 <= i < |lines| ==> !Blank(lines[i])
    ensures NonBlank(lines) == lines
    decreases |lines|
  {
    if lines != [] {
      var n := |lines| - 1;
      NonBlankAll(lines[..n]);
      assert lines == lines[..n] + [lines[n]];
    }
  }

  /** Splitting an exported text gives back exactly the exported lines. */
  lemma JoinThenParseLines(lines: seq<string>)
    requires forall l :: l in lines ==> '\n' !in l && !Blank(l)
    ensures ParseLines(Join(lines)) == lines
  {
    SplitJoin(lines);
    forall i | 0 <= i < |lines| ensures !Blank(lines[i]) { assert lines[i] in lines; }
    NonBlankButLast(lines);
  }

  /** The empty piece after the last newline is filtered out. */
  lemma NonBlankButLast(lines: seq<string>)
    requires forall i :: 0 <= i < |lines| ==> !Blank(lines[i])
    ensures NonBlank(lines + [""]) == lines
  {
    NonBlankAll(lines);
    var more := lines + [""];
    assert more[..|more| - 1] == lines && more[|more| - 1] == "";
    assert Blank("");
  }

  // ---- Export ----

  const SKIP_TYPES := {"stream_event", "control_request", "control_response"}

  datatype Context = Context(sessionId: string, cwd: string)

  datatype Encoded = Throws | Skipped | Line(text: string)

  /** The filters of `encodeEvent`, on the parsed entry. */
  predicate Encodable(direction: Direction, e: Entry) {
    && e.kind.Some? && e.kind.value !in SKIP_TYPES
    && !(direction.Out? && e.kind.value == "user" && !e.toolResult)
  }

  function Enrich(e: Entry, ctx: Context): Entry {
    e.(sessionId := Some(ctx.sessionId), cwd := if ctx.cwd != "" then Some(ctx.cwd) else e.cwd)
  }

  /** A text `null` parses, and reading its type throws outside the try. */
  function EncodeEvent(c: Codec, event: RawEvent, ctx: Option<Context>): Encoded {
    if event.direction.ErrorOut? then Skipped
    else
      match c.parse(event.raw)
      case Invalid => Skipped
      case Null => Throws
      case Obj(e) =>
        if !Encodable(event.direction, e) then Skipped
        else if ctx.None? then Line(event.raw)
        else Line(c.show(Enrich(e, ctx.value)))
  }

  /** `encode` of the file writer; None when an event throws. */
  function Encode(c: Codec, events: seq<RawEvent>, ctx: Context): Option<string> {
    if events == [] then Some("")
    else
      var first, rest := EncodeEvent(c, events[0], Some(ctx)), Encode(c, events[1..], ctx);
      if first.Throws? || rest.None? then None
      else Some((if first.Line? && first.text != "" then first.text + "\n" else "") + rest.value)
  }

  /** The entries of an export: those encodable, enriched, in order. */
  function Exported(c: Codec, events: seq<RawEvent>, ctx: Context): seq<Entry> {
    if events == [] then []
    else
      var j := c.parse(events[0].raw);
      (if !events[0].direction.ErrorOut? && j.Obj? && Encodable(events[0].direction, j.entry)
       then [Enrich(j.entry, ctx)] else [])
      + Exported(c, events[1..], ctx)
  }

  function Print(c: Codec, entries: seq<Entry>): seq<string> {
    seq(|entries|, i requires 0 <= i < |entries| => c.show(entries[i]))
  }

  /** The writer fails exactly on an event whose text is `null`. */
  lemma {:induction false} EncodeFailsIff(c: Codec, events: seq<RawEvent>, ctx: Context)
    ensures Encode(c, events, ctx).None? <==> exists e :: e in events && !e.direction.ErrorOut? && c.parse(e.raw).Null?
  {
    if events != [] {
      EncodeFailsIff(c, events[1..], ctx);
      assert events == [events[0]] + events[1..];
    }
  }

  /** Otherwise its output is the exported entries, one a line. */
  lemma {:induction false} EncodeJoinsExported(c: Codec, events: seq<RawEvent>, ctx: Context)
    requires Lawful(c) && Encode(c, events, ctx).Some?
    ensures Encode(c, events, ctx).value == Join(Print(c, Exported(c, events, ctx)))
  {
    if events != [] {
      EncodeJoinsExported(c, events[1..], ctx);
      var j, rest := c.parse(events[0].raw), Exported(c, events[1..], ctx);
      if !events[0].direction.ErrorOut? && j.Obj? && Encodable(events[0].direction, j.entry) {
        JoinFirst(c, Enrich(j.entry, ctx), rest);
      } else {
        assert [] + rest == rest;
      }
    }
  }

  lemma JoinFirst(c: Codec, e: Entry, rest: seq<Entry>)
    requires Lawful(c)
    ensures c.show(e) != "" && Join(Print(c, [e] + rest)) == c.show(e) + "\n" + Join(Print(c, rest))
  {
    assert !Blank(c.show(e));
    assert Print(c, [e] + rest)[1..] == Print(c, rest) && Print(c, [e] + rest)[0] == c.show(e);
  }

  lemma {:induction false} ExportedHaveId(c: Codec, events: seq<RawEvent>, ctx: Context)
    ensures forall e :: e in Exported(c, events, ctx) ==> e.kind.Some? && e.sessionId == Some(ctx.sessionId)
  {
    if events != [] { ExportedHaveId(c, events[1..], ctx); }
  }

  // ---- Import ----

  function ParseLine(c: Codec, line: string): Option<Entry> {
    if Blank(line) then None
    else
      match c.parse(line)
      case Obj(e) => if e.kind.None? || e.sidechain then None else Some(e)
      case _ => None
  }

  /** The lines that count, with their entries. */
  function Parsed(c: Codec, lines: seq<string>): seq<(string, Entry)> {
    if lines == [] then []
    else
      var n := |lines| - 1;
      var e := ParseLine(c, lines[n]);
      Parsed(c, lines[..n]) + (if e.Some? then [(lines[n], e.value)] else [])
  }

  function ParseDate(c: Codec, s: Option<string>): Option<int> { if s.None? then None else c.date(s.value) }

  /** The entry's own time, else its snapshot's. */
  function Own(c: Codec, e: Entry): Option<int> {
    var t := ParseDate(c, e.timestamp);
    if t.Some? then t else ParseDate(c, e.snapshotTimestamp)
  }

  /** The last positive time among decoded events, or 0. */
  function LastPositive(events: seq<RawEvent>): int {
    if events == [] then 0
    else if events[|events| - 1].timestamp > 0 then events[|events| - 1].timestamp
    else LastPositive(events[..|events| - 1])
  }

  function TimeOf(c: Codec, e: Entry, last: int, now: int): int {
    var t := Own(c, e);
    if t.Some? then t.value else if last != 0 then last else now
  }

  /** `clock(i)` is the wall clock while event i is decoded. */
  function Decode(c: Codec, parsed: seq<(string, Entry)>, fallback: string, clock: nat -> int): seq<RawEvent> {
    if parsed == [] then []
    else
      var n := |parsed| - 1;
      var before := Decode(c, parsed[..n], fallback, clock);
      var (line, e) := parsed[n];
      before + [RawEvent(TimeOf(c, e, LastPositive(before), clock(n)),
                         if e.sessionId.Some? then e.sessionId.value else fallback, Out, line)]
  }

  /** A line that holds an entry outside a sidechain. */
  predicate Counts(c: Codec, line: string) {
    && !Blank(line) && c.parse(line).Obj?
    && c.parse(line).entry.kind.Some? && !c.parse(line).entry.sidechain
  }

  /** The entry's time if it can be read, else its snapshot's, else the last positive one, else the clock's. */
  predicate TimeChosen(c: Codec, e: Entry, last: int, now: int, t: int) {
    if e.timestamp.Some? && c.date(e.timestamp.value).Some? then t == c.date(e.timestamp.value).value
    else if e.snapshotTimestamp.Some? && c.date(e.snapshotTimestamp.value).Some?
    then t == c.date(e.snapshotTimestamp.value).value
    else t == if last == 0 then now else last
  }

  /** An import sees exactly the lines that count, each with its entry, in order. */
  lemma {:induction false} ParsedLinesCount(c: Codec, lines: seq<string>, line: string)
    ensures Parsed(c, []) == []
    ensures Parsed(c, lines + [line])
            == Parsed(c, lines) + (if Counts(c, line) then [(line, c.parse(line).entry)] else [])
    ensures forall p :: p in Parsed(c, lines) <==> p.0 in lines && Counts(c, p.0) && c.parse(p.0) == Obj(p.1)
    decreases |lines|
  {
    assert (lines + [line])[..|lines|] == lines;
    if lines != [] {
      var n := |lines| - 1;
      ParsedLinesCount(c, lines[..n], lines[n]);
      assert lines == lines[..n] + [lines[n]];
    }
  }

  class JsonlDecoder {
    var lastTimestamp: int
    const fallbackSessionId: string

    constructor (fallbackSessionId: string)
      ensures lastTimestamp == 0 && this.fallbackSessionId == fallbackSessionId
    {
      this.lastTimestamp, this.fallbackSessionId := 0, fallbackSessionId;
    }

    /** `readLine`, for a line already parsed or not. */
    method ReadLine(c: Codec, line: string, parsed: Option<Entry>, now: int) returns (e: Option<RawEvent>)
      modifies this
      ensures e.Some? <==> parsed.Some? || Counts(c, line)
      ensures e.Some? ==>
                var entry := if parsed.Some? then parsed.value else c.parse(line).entry;
                && TimeChosen(c, entry, old(lastTimestamp), now, e.value.timestamp)
                && e.value.timestamp == TimeOf(c, entry, old(lastTimestamp), now)
                && e.value.sessionId == (if entry.sessionId.Some? then entry.sessionId.value else fallbackSessionId)
                && e.value.direction == Out && e.value.raw == line
      ensures lastTimestamp == if e.Some? && e.value.timestamp > 0 then e.value.timestamp else old(lastTimestamp)
    {
      var entry := if parsed.Some? then parsed else ParseLine(c, line);
      if entry.None? { return None; }
      var sessionId := if entry.value.sessionId.Some? then entry.value.sessionId.value else fallbackSessionId;
      var fallback := if lastTimestamp != 0 then lastTimestamp else now;
      var own := Own(c, entry.value);
      var timestamp := if own.Some? then own.value else fallback;
      if timestamp > 0 { lastTimestamp := timestamp; }
      return Some(RawEvent(timestamp, sessionId, Out, line));
    }
  }

  datatype SessionRecord = SessionRecord(id: string, channelId: string, cwd: string, projectRoot: string,
      createdAt: string)

  predicate HasSessionFields(e: Entry) { e.sessionId.Some? && e.cwd.Some? && e.timestamp.Some? }

  /** The record comes from the first entry that has all three fields. */
  function FirstRecord(parsed: seq<(string, Entry)>): Option<SessionRecord> {
    if parsed == [] then None
    else
      var n := |parsed| - 1;
      var before, e := FirstRecord(parsed[..n]), parsed[n].1;
      if before.Some? || !HasSessionFields(e) then before
      else Some(BuildSessionRecord(e))
  }

  function BuildSessionRecord(e: Entry): SessionRecord
    requires HasSessionFields(e)
  {
    SessionRecord(e.sessionId.value, e.sessionId.value, e.cwd.value, e.cwd.value, e.timestamp.value)
  }

  /** `now` is the text of the current time. */
  function DefaultRecord(id: string, now: string): SessionRecord { SessionRecord(id, id, "", "", now) }

  /** Session id, directory and time are all there. */
  predicate Full(e: Entry) { e.sessionId != None && e.cwd != None && e.timestamp != None }

  predicate FirstFull(parsed: seq<(string, Entry)>, k: nat)
    requires k < |parsed|
  {
    Full(parsed[k].1) && forall m :: 0 <= m < k ==> !Full(parsed[m].1)
  }

  /** The record is that of the first entry with a session id, a directory and a time, or empty. */
  ghost predicate RecordOf(parsed: seq<(string, Entry)>, id: string, now: string, r: SessionRecord) {
    && (forall k :: 0 <= k < |parsed| && FirstFull(parsed, k) ==>
          var e := parsed[k].1;
          && e.sessionId == Some(r.id) && r.channelId == r.id
          && e.cwd == Some(r.cwd) && r.projectRoot == r.cwd && e.timestamp == Some(r.createdAt))
    && ((forall k :: 0 <= k < |parsed| ==> !Full(parsed[k].1)) ==> r == SessionRecord(id, id, "", "", now))
  }

  lemma FirstRecordIs(parsed: seq<(string, Entry)>, id: string, now: string)
    ensures var first := FirstRecord(parsed);
      RecordOf(parsed, id, now, if first.Some? then first.value else DefaultRecord(id, now))
  {
    if forall k :: 0 <= k < |parsed| ==> !Full(parsed[k].1) { NoneFull(parsed); }
    forall k | 0 <= k < |parsed| && FirstFull(parsed, k)
      ensures FirstRecord(parsed) == Some(BuildSessionRecord(parsed[k].1))
    {
      FirstRecordAt(parsed, k);
    }
  }

  lemma {:induction false} NoneFull(parsed: seq<(string, Entry)>)
    requires forall k :: 0 <= k < |parsed| ==> !Full(parsed[k].1)
    ensures FirstRecord(parsed).None?
    decreases |parsed|
  {
    if parsed != [] { NoneFull(parsed[..|parsed| - 1]); }
  }

  lemma {:induction false} FirstRecordAt(parsed: seq<(string, Entry)>, k: nat)
    requires k < |parsed| && FirstFull(parsed, k)
    ensures FirstRecord(parsed) == Some(BuildSessionRecord(parsed[k].1))
    decreases |parsed|
  {
    var n := |parsed| - 1;
    if k == n { NoneFull(parsed[..n]); } else { FirstRecordAt(parsed[..n], k); }
  }

  method DecodeSession(c: Codec, lines: seq<string>, sessionId: string, clock: nat -> int, now: string)
    returns (events: seq<RawEvent>, record: SessionRecord)
    ensures events == Decode(c, Parsed(c, lines), sessionId, clock)
    ensures record == var first := FirstRecord(Parsed(c, lines));
                      if first.Some? then first.value else DefaultRecord(sessionId, now)
  {
    var decoder := new JsonlDecoder(sessionId);
    var found: Option<SessionRecord> := None;
    events := [];
    for i := 0 to |lines|
      invariant events == Decode(c, Parsed(c, lines[..i]), sessionId, clock)
      invariant found == FirstRecord(Parsed(c, lines[..i]))
      invariant |events| == |Parsed(c, lines[..i])|
      invariant decoder.lastTimestamp == LastPositive(events)
      invariant fresh(decoder)
    {
      assert lines[..i + 1][..i] == lines[..i];
      ghost var before := Parsed(c, lines[..i]);
      var entry := ParseLine(c, lines[i]);
      if entry.None? {
        assert before + [] == before;
        continue;
      }
      ghost var after := before + [(lines[i], entry.value)];
      assert after[..|before|] == before && Parsed(c, lines[..i + 1]) == after;
      if found.None? && HasSessionFields(entry.value) { found := Some(BuildSessionRecord(entry.value)); }
      var read := decoder.ReadLine(c, lines[i], entry, clock(|events|));
      var e := read.value;
      assert (events + [e])[..|events|] == events;
      assert after[|before|] == (lines[i], entry.value);
      assert Decode(c, after, sessionId, clock) == events + [e];
      events := events + [e];
    }
    assert lines[..|lines|] == lines;
    record := if found.Some? then found.value else DefaultRecord(sessionId, now);
  }

  /** `e` stands for a line and its entry: same text, the entry's session id, and the entry's own
      time, else its snapshot's, else the last positive one of the events before, else the clock. */
  predicate StandsFor(c: Codec, e: RawEvent, line: string, entry: Entry, before: seq<RawEvent>, now: int) {
    && e.raw == line && e.direction == Out
    && (entry.sessionId.Some? ==> e.sessionId == entry.sessionId.value)
    && (if Own(c, entry).Some? then e.timestamp == Own(c, entry).value
        else if LastPositive(before) != 0 then e.timestamp == LastPositive(before)
        else e.timestamp == now)
  }

  ghost predicate AllStandFor(c: Codec, events: seq<RawEvent>, parsed: seq<(string, Entry)>, clock: nat -> int)
    requires |events| == |parsed|
  {
    forall i :: 0 <= i < |events| ==> StandsFor(c, events[i], parsed[i].0, parsed[i].1, events[..i], clock(i))
  }

  lemma OneMoreStandsFor(c: Codec, events: seq<RawEvent>, e: RawEvent, parsed: seq<(string, Entry)>,
                         p: (string, Entry), clock: nat -> int)
    requires |events| == |parsed| && AllStandFor(c, events, parsed, clock)
    requires StandsFor(c, e, p.0, p.1, events, clock(|events|))
    ensures AllStandFor(c, events + [e], parsed + [p], clock)
  {
    var more, parsed' := events + [e], parsed + [p];
    forall i | 0 <= i < |more| ensures StandsFor(c, more[i], parsed'[i].0, parsed'[i].1, more[..i], clock(i)) {
      assert more[..i] == events[..i];
      assert events[..|events|] == events;
    }
  }

  /** Decoding keeps order and text, one event a line that counts. */
  lemma {:induction false} DecodeShape(c: Codec, parsed: seq<(string, Entry)>, fallback: string, clock: nat -> int)
    ensures |Decode(c, parsed, fallback, clock)| == |parsed|
    ensures AllStandFor(c, Decode(c, parsed, fallback, clock), parsed, clock)
    decreases |parsed|
  {
    if parsed != [] {
      var n := |parsed| - 1;
      DecodeShape(c, parsed[..n], fallback, clock);
      var before, events := Decode(c, parsed[..n], fallback, clock), Decode(c, parsed, fallback, clock);
      OneMoreStandsFor(c, before, events[n], parsed[..n], parsed[n], clock);
      assert events == before + [events[n]] && parsed == parsed[..n] + [parsed[n]];
    }
  }

  // ---- There and back ----

  function NotSidechain(entries: seq<Entry>): seq<Entry> {
    if entries == [] then []
    else NotSidechain(entries[..|entries| - 1]) +
         (if entries[|entries| - 1].sidechain then [] else [entries[|entries| - 1]])
  }

  function WithText(c: Codec, entries: seq<Entry>): seq<(string, Entry)> {
    seq(|entries|, i requires 0 <= i < |entries| => (c.show(entries[i]), entries[i]))
  }

  lemma {:induction false} ParsedOfPrinted(c: Codec, entries: seq<Entry>)
    requires Lawful(c) && forall e :: e in entries ==> e.kind.Some?
    ensures Parsed(c, Print(c, entries)) == WithText(c, NotSidechain(entries))
    decreases |entries|
  {
    if entries != [] {
      var n := |entries| - 1;
      assert Print(c, entries)[..n] == Print(c, entries[..n]);
      ParsedOfPrinted(c, entries[..n]);
      assert entries[n] in entries;
      assert c.parse(c.show(entries[n])) == Obj(entries[n]);
    }
  }

  /** What an import sees of an exported text. */
  lemma ExportedLines(c: Codec, events: seq<RawEvent>, ctx: Context)
    requires Lawful(c) && Encode(c, events, ctx).Some?
    ensures ParseLines(Encode(c, events, ctx).value) == Print(c, Exported(c, events, ctx))
    ensures Parsed(c, ParseLines(Encode(c, events, ctx).value)) == WithText(c, NotSidechain(Exported(c, events, ctx)))
    ensures forall e :: e in NotSidechain(Exported(c, events, ctx)) ==> e.sessionId == Some(ctx.sessionId)
  {
    var exported := Exported(c, events, ctx);
    EncodeJoinsExported(c, events, ctx);
    ExportedHaveId(c, events, ctx);
    assert forall l :: l in Print(c, exported) ==> '\n' !in l && !Blank(l);
    JoinThenParseLines(Print(c, exported));
    ParsedOfPrinted(c, exported);
    KeptAreExported(exported);
  }

  /** One event for each entry, in order, under the session id, with the entry's text and time. */
  ghost predicate ComesBack(c: Codec, kept: seq<Entry>, back: seq<RawEvent>, sessionId: string, clock: nat -> int) {
    && |back| == |kept|
    && forall i :: 0 <= i < |back| ==>
         back[i].sessionId == sessionId && StandsFor(c, back[i], c.show(kept[i]), kept[i], back[..i], clock(i))
  }

  lemma PrintedComesBack(c: Codec, kept: seq<Entry>, sessionId: string, fallback: string, clock: nat -> int)
    requires forall e :: e in kept ==> e.sessionId == Some(sessionId)
    ensures ComesBack(c, kept, Decode(c, WithText(c, kept), fallback, clock), sessionId, clock)
  {
    var texts := WithText(c, kept);
    var back := Decode(c, texts, fallback, clock);
    DecodeShape(c, texts, fallback, clock);
    forall i | 0 <= i < |kept|
      ensures back[i].sessionId == sessionId && StandsFor(c, back[i], c.show(kept[i]), kept[i], back[..i], clock(i))
    {
      assert texts[i] == (c.show(kept[i]), kept[i]) && kept[i] in kept;
      assert StandsFor(c, back[i], texts[i].0, texts[i].1, back[..i], clock(i));
    }
  }

  lemma {:induction false} KeptAreExported(entries: seq<Entry>)
    ensures forall e :: e in NotSidechain(entries) <==> e in entries && !e.sidechain
    decreases |entries|
  {
    if entries != [] {
      KeptAreExported(entries[..|entries| - 1]);
      assert entries == entries[..|entries| - 1] + [entries[|entries| - 1]];
    }
  }

  // ---- What comes back of the events exported ----

  /** An event goes into an export unless it is an error line, is no JSON with a type, is of one of the three
      types of the stream's own, or is a user entry the CLI wrote that is no tool result. */
  predicate Exports(c: Codec, event: RawEvent) {
    && (event.direction == In || event.direction == Out)
    && c.parse(event.raw).Obj? && c.parse(event.raw).entry.kind.Some?
    && var e := c.parse(event.raw).entry;
       && e.kind.value != "stream_event" && e.kind.value != "control_request" && e.kind.value != "control_response"
       && (event.direction == In || e.kind.value != "user" || e.toolResult)
  }

  /** The same entry in the context's session, and in its directory if the context names one. */
  predicate Relabelled(e: Entry, after: Entry, ctx: Context) {
    && after.sessionId == Some(ctx.sessionId)
    && after.cwd == (if ctx.cwd == "" then e.cwd else Some(ctx.cwd))
    && after.kind == e.kind && after.sidechain == e.sidechain && after.toolResult == e.toolResult
    && after.timestamp == e.timestamp && after.snapshotTimestamp == e.snapshotTimestamp && after.rest == e.rest
  }

  /** Which events `encodeEvent` makes a line of, and which line. */
  lemma EncodesIff(c: Codec, event: RawEvent, ctx: Option<Context>)
    requires Lawful(c)
    ensures var line := EncodeEvent(c, event, ctx);
      && (line.Throws? <==> event.direction != ErrorOut && c.parse(event.raw) == Null)
      && (line.Line? <==> Exports(c, event))
      && (line.Line? && ctx.None? ==> line.text == event.raw)
      && (line.Line? && ctx.Some? ==>
            && c.parse(line.text).Obj?
            && Relabelled(c.parse(event.raw).entry, c.parse(line.text).entry, ctx.value))
  {
    if Exports(c, event) && ctx.Some? {
      assert c.parse(c.show(Enrich(c.parse(event.raw).entry, ctx.value))).Obj?;
    }
  }

  /** The events an import gets back: those exported that are in no sidechain. */
  function Returning(c: Codec, events: seq<RawEvent>): seq<RawEvent> {
    if events == [] then []
    else
      (if Exports(c, events[0]) && !c.parse(events[0].raw).entry.sidechain then [events[0]] else [])
      + Returning(c, events[1..])
  }

  lemma {:induction false} NotSidechainCons(e: Entry, rest: seq<Entry>)
    ensures NotSidechain([e] + rest) == (if e.sidechain then [] else [e]) + NotSidechain(rest)
    decreases |rest|
  {
    var all := [e] + rest;
    if rest == [] {
      assert all[..0] == [];
    } else {
      var n := |rest| - 1;
      assert all[..|all| - 1] == [e] + rest[..n];
      NotSidechainCons(e, rest[..n]);
    }
  }

  /** The entries kept are those of the events that return, relabelled, one by one. */
  ghost predicate AllRelabelled(c: Codec, events: seq<RawEvent>, kept: seq<Entry>, ctx: Context) {
    && |kept| == |events|
    && forall i :: 0 <= i < |kept| ==>
         c.parse(events[i].raw).Obj? && Relabelled(c.parse(events[i].raw).entry, kept[i], ctx)
  }

  lemma OneMoreRelabelled(c: Codec, first: RawEvent, events: seq<RawEvent>, e: Entry, kept: seq<Entry>, ctx: Context)
    requires AllRelabelled(c, events, kept, ctx)
    requires c.parse(first.raw).Obj? && Relabelled(c.parse(first.raw).entry, e, ctx)
    ensures AllRelabelled(c, [first] + events, [e] + kept, ctx)
  {}

  lemma ReturningCons(c: Codec, first: RawEvent, rest: seq<RawEvent>)
    ensures Returning(c, [first] + rest)
            == if Exports(c, first) && !c.parse(first.raw).entry.sidechain then [first] + Returning(c, rest)
               else Returning(c, rest)
  {
    assert ([first] + rest)[1..] == rest;
    assert [] + Returning(c, rest) == Returning(c, rest);
  }

  lemma ExportedFirst(c: Codec, first: RawEvent, rest: seq<RawEvent>, ctx: Context)
    ensures Exported(c, [first] + rest, ctx)
            == (if Exports(c, first) then [Enrich(c.parse(first.raw).entry, ctx)] else []) + Exported(c, rest, ctx)
  {
    assert ([first] + rest)[1..] == rest;
  }

  lemma ExportedCons(c: Codec, first: RawEvent, rest: seq<RawEvent>, ctx: Context)
    ensures NotSidechain(Exported(c, [first] + rest, ctx))
            == if Exports(c, first) && !c.parse(first.raw).entry.sidechain
               then [Enrich(c.parse(first.raw).entry, ctx)] + NotSidechain(Exported(c, rest, ctx))
               else NotSidechain(Exported(c, rest, ctx))
  {
    var after := Exported(c, rest, ctx);
    ExportedFirst(c, first, rest, ctx);
    if Exports(c, first) {
      var e := Enrich(c.parse(first.raw).entry, ctx);
      assert e.sidechain == c.parse(first.raw).entry.sidechain;
      NotSidechainCons(e, after);
      assert [] + NotSidechain(after) == NotSidechain(after);
    } else {
      assert [] + after == after;
    }
  }

  lemma {:induction false} KeptAreReturning(c: Codec, events: seq<RawEvent>, ctx: Context)
    ensures AllRelabelled(c, Returning(c, events), NotSidechain(Exported(c, events, ctx)), ctx)
  {
    if events != [] {
      var first, rest := events[0], events[1..];
      assert events == [first] + rest;
      KeptAreReturning(c, rest, ctx);
      ReturningCons(c, first, rest);
      ExportedCons(c, first, rest, ctx);
      if Exports(c, first) && !c.parse(first.raw).entry.sidechain {
        OneMoreRelabelled(c, first, Returning(c, rest), Enrich(c.parse(first.raw).entry, ctx),
                          NotSidechain(Exported(c, rest, ctx)), ctx);
      }
    }
  }

  /** The time of event i is that of the entry, else of its snapshot, else that of the nearest event before it
      with a positive time, else the clock's. */
  ghost predicate TimeKept(c: Codec, e: Entry, back: seq<RawEvent>, i: nat, clock: nat -> int)
    requires i < |back|
  {
    var t := back[i].timestamp;
    if e.timestamp.Some? && c.date(e.timestamp.value).Some? then t == c.date(e.timestamp.value).value
    else if e.snapshotTimestamp.Some? && c.date(e.snapshotTimestamp.value).Some?
    then t == c.date(e.snapshotTimestamp.value).value
    else
      && (forall k :: 0 <= k < i && NearestPositive(back, k, i) ==> t == back[k].timestamp)
      && ((forall k :: 0 <= k < i ==> back[k].timestamp <= 0) ==> t == clock(i))
  }

  predicate NearestPositive(back: seq<RawEvent>, k: nat, i: nat)
    requires k < i <= |back|
  {
    back[k].timestamp > 0 && forall m :: k < m < i ==> back[m].timestamp <= 0
  }

  lemma {:induction false} LastPositiveIs(back: seq<RawEvent>, i: nat)
    requires i <= |back|
    ensures forall k :: 0 <= k < i && NearestPositive(back, k, i) ==> LastPositive(back[..i]) == back[k].timestamp
    ensures (forall k :: 0 <= k < i ==> back[k].timestamp <= 0) ==> LastPositive(back[..i]) == 0
  {
    if i > 0 {
      LastPositiveIs(back, i - 1);
      assert back[..i][..i - 1] == back[..i - 1];
      forall k | 0 <= k < i - 1 && NearestPositive(back, k, i) ensures NearestPositive(back, k, i - 1) {}
    }
  }

  /** Export then import: one event for every event that returns, in order, in the context's session, with the
      entry that was exported but for session and directory, and with its time. */
  ghost predicate RoundTrip(c: Codec, events: seq<RawEvent>, back: seq<RawEvent>, ctx: Context, clock: nat -> int) {
    && |back| == |events|
    && forall i :: 0 <= i < |back| ==>
         && c.parse(events[i].raw).Obj? && c.parse(back[i].raw).Obj?
         && Relabelled(c.parse(events[i].raw).entry, c.parse(back[i].raw).entry, ctx)
         && back[i].sessionId == ctx.sessionId && back[i].direction == Out
         && TimeKept(c, c.parse(events[i].raw).entry, back, i, clock)
  }

  lemma StandingForKeepsTime(c: Codec, back: seq<RawEvent>, i: nat, line: string, e: Entry, clock: nat -> int)
    requires i < |back| && StandsFor(c, back[i], line, e, back[..i], clock(i))
    ensures TimeKept(c, e, back, i, clock)
  {
    LastPositiveIs(back, i);
  }

  lemma OneReturns(c: Codec, entry: Entry, after: Entry, back: seq<RawEvent>, i: nat, ctx: Context, clock: nat -> int)
    requires Lawful(c) && Relabelled(entry, after, ctx)
    requires i < |back| && StandsFor(c, back[i], c.show(after), after, back[..i], clock(i))
    ensures back[i].direction == Out && c.parse(back[i].raw) == Obj(after) && TimeKept(c, entry, back, i, clock)
  {
    StandingForKeepsTime(c, back, i, c.show(after), after, clock);
  }

  lemma ComingBackIsRoundTrip(c: Codec, events: seq<RawEvent>, kept: seq<Entry>, back: seq<RawEvent>, ctx: Context,
                              clock: nat -> int)
    requires Lawful(c) && AllRelabelled(c, events, kept, ctx) && ComesBack(c, kept, back, ctx.sessionId, clock)
    ensures RoundTrip(c, events, back, ctx, clock)
  {
    forall i | 0 <= i < |back|
      ensures c.parse(back[i].raw) == Obj(kept[i]) && back[i].direction == Out
      ensures TimeKept(c, c.parse(events[i].raw).entry, back, i, clock)
    {
      OneReturns(c, c.parse(events[i].raw).entry, kept[i], back, i, ctx, clock);
    }
  }

  lemma ExportThenImport(c: Codec, events: seq<RawEvent>, ctx: Context, fallback: string, clock: nat -> int)
    requires Lawful(c) && Encode(c, events, ctx).Some?
    ensures RoundTrip(c, Returning(c, events),
                      Decode(c, Parsed(c, ParseLines(Encode(c, events, ctx).value)), fallback, clock), ctx, clock)
  {
    var kept := NotSidechain(Exported(c, events, ctx));
    var back := Decode(c, Parsed(c, ParseLines(Encode(c, events, ctx).value)), fallback, clock);
    ExportedLines(c, events, ctx);
    PrintedComesBack(c, kept, ctx.sessionId, fallback, clock);
    KeptAreReturning(c, events, ctx);
    ComingBackIsRoundTrip(c, Returning(c, events), kept, back, ctx, clock);
  }
}
