/** One text form that meets the assumptions of the JSONL round trip, so they are not empty. It is no JSON:
    an entry is a list of fields with commas, backslashes and newlines escaped. */
module JsonlText {
  import opened Basics
  import opened Jsonl

  function EscapeChar(c: char): string {
    match c
    case '\\' => "\\\\"
    case ',' => "\\c"
    case '\n' => "\\n"
    case _ => [c]
  }

  function Escape(s: string): string {
    if s == "" then "" else EscapeChar(s[0]) + Escape(s[1..])
  }

  function Write(fields: seq<string>): string {
    if fields == [] then "" else Escape(fields[0]) + "," + Write(fields[1..])
  }

  function Unescape(c: char): char { if c == 'c' then ',' else if c == 'n' then '\n' else c }

  /** `field` is what has been read of the current field. */
  function Fields(text: string, field: string): seq<string>
    decreases |text|
  {
    if text == "" then []
    else if text[0] == '\\' && |text| >= 2 then Fields(text[2..], field + [Unescape(text[1])])
    else if text[0] == ',' then [field] + Fields(text[1..], "")
    else Fields(text[1..], field + [text[0]])
  }

  lemma {:induction false} EscapeNoNewline(s: string)
    ensures '\n' !in Escape(s)
  {
    if s != "" { EscapeNoNewline(s[1..]); }
  }

  /** One more character of the field, whatever it is. */
  lemma ReadChar(c: char, rest: string, field: string)
    ensures Fields(EscapeChar(c) + rest, field) == Fields(rest, field + [c])
  {
    var text := EscapeChar(c) + rest;
    if c in "\\,\n" {
      assert text[2..] == rest;
    } else {
      assert text[1..] == rest;
    }
  }

  /** `tail` starts with the comma that ends the field. */
  lemma {:induction false} ReadField(s: string, tail: string, field: string)
    requires tail != "" && tail[0] == ','
    ensures Fields(Escape(s) + tail, field) == [field + s] + Fields(tail[1..], "")
    decreases |s|
  {
    if s == "" {
      assert "" + tail == tail && field + s == field;
    } else {
      var c, more := s[0], Escape(s[1..]);
      ReadChar(c, more + tail, field);
      ReadField(s[1..], tail, field + [c]);
      assert (EscapeChar(c) + more) + tail == EscapeChar(c) + (more + tail);
      assert field + [c] + s[1..] == field + s;
    }
  }

  lemma {:induction false} ReadAll(fields: seq<string>)
    ensures Fields(Write(fields), "") == fields && '\n' !in Write(fields)
    ensures fields != [] ==> ',' in Write(fields)
  {
    if fields != [] {
      var tail := "," + Write(fields[1..]);
      assert tail[1..] == Write(fields[1..]);
      EscapeNoNewline(fields[0]);
      ReadField(fields[0], tail, "");
      assert Write(fields) == Escape(fields[0]) + tail;
      ReadAll(fields[1..]);
      assert "" + fields[0] == fields[0];
      assert Write(fields)[|Escape(fields[0])|] == ',';
    }
  }

  function FromOption(o: Option<string>): string { if o.None? then "" else "+" + o.value }

  function ToOption(s: string): Option<string> { if s == "" then None else Some(s[1..]) }

  function Flag(b: bool): string { if b then "1" else "" }

  function ToFields(e: Entry): seq<string> {
    [FromOption(e.kind), Flag(e.sidechain), FromOption(e.sessionId), FromOption(e.cwd), FromOption(e.timestamp),
     FromOption(e.snapshotTimestamp), Flag(e.toolResult), e.rest]
  }

  function Show(e: Entry): string { Write(ToFields(e)) }

  function Parse(text: string): Json {
    var f := Fields(text, "");
    if |f| != 8 then Invalid
    else Obj(Entry(ToOption(f[0]), f[1] != "", ToOption(f[2]), ToOption(f[3]), ToOption(f[4]), ToOption(f[5]),
        f[6] != "", f[7]))
  }

  lemma OptionThereAndBack(o: Option<string>)
    ensures ToOption(FromOption(o)) == o
  {
    if o.Some? { assert ("+" + o.value)[1..] == o.value; }
  }

  lemma ShowIsLawful(date: string -> Option<int>)
    ensures Lawful(Codec(Show, Parse, date))
  {
    forall e ensures Parse(Show(e)) == Obj(e) && '\n' !in Show(e) && !Blank(Show(e)) {
      ReadAll(ToFields(e));
      OptionThereAndBack(e.kind);
      OptionThereAndBack(e.sessionId);
      OptionThereAndBack(e.cwd);
      OptionThereAndBack(e.timestamp);
      OptionThereAndBack(e.snapshotTimestamp);
      var i :| 0 <= i < |Show(e)| && Show(e)[i] == ',';
      assert !IsSpace(Show(e)[i]);
    }
  }
}
