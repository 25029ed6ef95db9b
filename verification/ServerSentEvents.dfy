/** Server-sent events: the writer of the server and the incremental reader of the page
    (sections 9.2.5 and 9.2.6 of the WHATWG HTML Living Standard). */
module ServerSentEvents {
  import opened Wrappers

  /** What a caller sends. */
  datatype Sent = Sent(name: string, data: string)

  /** What the reader yields. */
  datatype Event = Event(kind: string, data: string)

  // ---- lines

  /** Split a text at its line feeds. */
  function Lines(s: string): (lines: seq<string>)
    ensures lines != []
    ensures forall l :: l in lines ==> '\n' !in l
  {
    if s == "" then [""]
    else if s[0] == '\n' then [""] + Lines(s[1..])
    else
      var rest := Lines(s[1..]);
      [[s[0]] + rest[0]] + rest[1..]
  }

  function Join(lines: seq<string>): string {
    if lines == [] then ""
    else if |lines| == 1 then lines[0]
    else lines[0] + "\n" + Join(lines[1..])
  }

  lemma {:induction false} JoinLines(s: string)
    ensures Join(Lines(s)) == s
  {
    if s != "" {
      JoinLines(s[1..]);
      var rest := Lines(s[1..]);
      if s[0] == '\n' {
        assert Lines(s)[1..] == rest;
      } else {
        assert Lines(s)[1..] == rest[1..];
      }
    }
  }

  lemma {:induction false} LinesPrepend(l: string, s: string)
    requires '\n' !in l
    ensures Lines(l + "\n" + s) == [l] + Lines(s)
    ensures Lines(l) == [l]
  {
    if l == "" {
      assert l + "\n" + s == "\n" + s;
    } else {
      LinesPrepend(l[1..], s);
      assert (l + "\n" + s)[1..] == l[1..] + "\n" + s;
      assert l == [l[0]] + l[1..];
    }
  }

  lemma {:induction false} LinesJoin(lines: seq<string>)
    requires lines != [] && forall l :: l in lines ==> '\n' !in l
    ensures Lines(Join(lines)) == lines
  {
    LinesPrepend(lines[0], Join(lines[1..]));
    if |lines| > 1 {
      LinesJoin(lines[1..]);
    } else {
      assert lines == [lines[0]];
    }
  }

  // ---- line breaks

  /** strings.ReplaceAll(s, CRLF, LF) */
  function ReplaceCrLf(s: string): string {
    if s == "" then ""
    else if |s| >= 2 && s[0] == '\r' && s[1] == '\n' then "\n" + ReplaceCrLf(s[2..])
    else [s[0]] + ReplaceCrLf(s[1..])
  }

  /** strings.ReplaceAll(s, CR, LF) */
  function ReplaceCr(s: string): string {
    if s == "" then "" else [if s[0] == '\r' then '\n' else s[0]] + ReplaceCr(s[1..])
  }

  function Normalized(s: string): string {
    ReplaceCr(ReplaceCrLf(s))
  }

  lemma {:induction false} ReplacesEveryCr(s: string)
    ensures '\r' !in ReplaceCr(s)
  {
    if s != "" {
      ReplacesEveryCr(s[1..]);
    }
  }

  lemma NormalizedHasNoCr(s: string)
    ensures '\r' !in Normalized(s)
  {
    ReplacesEveryCr(ReplaceCrLf(s));
  }

  lemma {:induction false} ReplaceCrJoins(a: string, b: string)
    ensures ReplaceCr(a + b) == ReplaceCr(a) + ReplaceCr(b)
  {
    if a == "" {
      assert a + b == b;
    } else {
      assert (a + b)[1..] == a[1..] + b;
      ReplaceCrJoins(a[1..], b);
    }
  }

  /** CRLF is replaced apart from what stands around it, unless a CR and an LF meet. */
  lemma {:induction false} ReplaceCrLfJoins(a: string, b: string)
    requires !(a != "" && a[|a| - 1] == '\r' && b != "" && b[0] == '\n')
    ensures ReplaceCrLf(a + b) == ReplaceCrLf(a) + ReplaceCrLf(b)
    decreases |a|
  {
    if a == "" {
      assert a + b == b;
    } else if |a| >= 2 && a[0] == '\r' && a[1] == '\n' {
      CrLfFirst(a[2..]);
      CrLfFirst(a[2..] + b);
      Front(a, b, "\r\n");
      ReplaceCrLfJoins(a[2..], b);
      Associate("\n", ReplaceCrLf(a[2..]), ReplaceCrLf(b));
    } else {
      CharFirst(a[0], a[1..]);
      CharFirst(a[0], a[1..] + b);
      Front(a, b, [a[0]]);
      ReplaceCrLfJoins(a[1..], b);
      Associate([a[0]], ReplaceCrLf(a[1..]), ReplaceCrLf(b));
    }
  }

  lemma Front(a: string, b: string, front: string)
    requires front <= a
    ensures a == front + a[|front|..]
    ensures a + b == front + (a[|front|..] + b)
  {
  }

  lemma CrLfFirst(s: string)
    ensures ReplaceCrLf("\r\n" + s) == "\n" + ReplaceCrLf(s)
  {
    assert ("\r\n" + s)[2..] == s;
  }

  lemma CharFirst(c: char, s: string)
    requires !(c == '\r' && s != "" && s[0] == '\n')
    ensures ReplaceCrLf([c] + s) == [c] + ReplaceCrLf(s)
  {
    assert ([c] + s)[1..] == s;
  }

  /** Each kind of line break becomes one LF, and the text around it does not change. */
  lemma LineBreaksBecomeLf(a: string, b: string)
    ensures Normalized(a + "\r\n" + b) == Normalized(a) + "\n" + Normalized(b)
    ensures (a != "" && a[|a| - 1] == '\r') || Normalized(a + "\n" + b) == Normalized(a) + "\n" + Normalized(b)
    ensures (b != "" && b[0] == '\n') || Normalized(a + "\r" + b) == Normalized(a) + "\n" + Normalized(b)
  {
    assert "\r\n"[2..] == "";
    assert Normalized("\r\n") == "\n" && Normalized("\n") == "\n" && Normalized("\r") == "\n";
    assert Normalized("\r\n") == Normalized("\n") == Normalized("\r") == "\n";
    BreakBetween(a, "\r\n", b);
    if !(a != "" && a[|a| - 1] == '\r') {
      BreakBetween(a, "\n", b);
    }
    if !(b != "" && b[0] == '\n') {
      BreakBetween(a, "\r", b);
    }
  }

  lemma NormalizedJoins(a: string, b: string)
    requires !(a != "" && a[|a| - 1] == '\r' && b != "" && b[0] == '\n')
    ensures Normalized(a + b) == Normalized(a) + Normalized(b)
  {
    ReplaceCrLfJoins(a, b);
    ReplaceCrJoins(ReplaceCrLf(a), ReplaceCrLf(b));
  }

  lemma BreakBetween(a: string, eol: string, b: string)
    requires eol != ""
    requires !(a != "" && a[|a| - 1] == '\r' && eol[0] == '\n')
    requires !(eol[|eol| - 1] == '\r' && b != "" && b[0] == '\n')
    ensures Normalized(a + eol + b) == Normalized(a) + Normalized(eol) + Normalized(b)
  {
    LastOfBoth(a, eol);
    NormalizedJoins(a, eol);
    NormalizedJoins(a + eol, b);
  }

  lemma LastOfBoth(a: string, b: string)
    requires b != ""
    ensures (a + b)[|a + b| - 1] == b[|b| - 1]
  {
  }

  /** A text without CR is sent as it is. */
  lemma {:induction false} NormalizedKeepsLf(s: string)
    requires '\r' !in s
    ensures Normalized(s) == s
  {
    if s != "" {
      NormalizedKeepsLf(s[1..]);
    }
  }

  // ---- writing

  function DataFields(lines: seq<string>): string {
    if lines == [] then "" else "data: " + lines[0] + "\n" + DataFields(lines[1..])
  }

  predicate Accepted(s: Sent) {
    '\r' !in s.name && '\n' !in s.name
  }

  function Text(s: Sent): string {
    (if s.name == "" then "" else "event: " + s.name + "\n") + DataFields(Lines(Normalized(s.data))) + "\n"
  }

  function TextOf(sent: seq<Sent>): string {
    if sent == [] then "" else Text(sent[0]) + TextOf(sent[1..])
  }

  lemma {:induction false} TextGrows(sent: seq<Sent>, s: Sent)
    ensures TextOf(sent + [s]) == TextOf(sent) + Text(s)
  {
    if sent == [] {
      assert ([] + [s])[1..] == [];
    } else {
      assert (sent + [s])[1..] == sent[1..] + [s];
      TextGrows(sent[1..], s);
    }
  }

  class EventStream {
    /** What the response received, and the accepted calls. */
    var written: string
    ghost var sent: seq<Sent>

    ghost predicate Valid()
      reads this
    {
      written == TextOf(sent) && forall s :: s in sent ==> Accepted(s)
    }

    constructor ()
      ensures Valid() && sent == []
    {
      written := "";
      sent := [];
    }

    /** Send: an event name with a line break is an error, and nothing is written. */
    method Send(s: Sent) returns (ok: bool)
      requires Valid()
      modifies this
      ensures Valid()
      ensures ok <==> Accepted(s)
      ensures ok <==> '\r' !in s.name && '\n' !in s.name
      ensures sent == if ok then old(sent) + [s] else old(sent)
      ensures written == if ok then old(written) + Text(s) else old(written)
    {
      if '\r' in s.name || '\n' in s.name {
        return false;
      }
      var b := "";
      if s.name != "" {
        b := b + ("event: " + s.name + "\n");
      }
      var lines := Lines(Normalized(s.data));
      ghost var head := b;
      for i := 0 to |lines|
        invariant b + DataFields(lines[i..]) == head + DataFields(lines)
      {
        assert lines[i..][0] == lines[i] && lines[i..][1..] == lines[i + 1..];
        var field := "data: " + lines[i] + "\n";
        assert b + (field + DataFields(lines[i + 1..])) == b + field + DataFields(lines[i + 1..]);
        b := b + field;
      }
      assert b == head + DataFields(lines) by {
        assert DataFields(lines[|lines|..]) == "";
      }
      b := b + "\n";
      assert b == Text(s);
      TextGrows(sent, s);
      written := written + b;
      sent := sent + [s];
      ok := true;
    }
  }

  // ---- reading

  /** The first empty line: buffer.indexOf of two line feeds. */
  function BreakAt(s: string): (r: Option<nat>)
    ensures r.Some? ==> r.value + 1 < |s|
  {
    if |s| < 2 then None
    else if s[0] == '\n' && s[1] == '\n' then Some(0)
    else
      match BreakAt(s[1..])
      case None => None
      case Some(k) => Some(k + 1)
  }

  predicate EmptyLine(s: string, k: nat) {
    k + 1 < |s| && s[k] == '\n' && s[k + 1] == '\n'
  }

  lemma {:induction false} BreakIsFirst(s: string)
    ensures BreakAt(s).Some? ==> EmptyLine(s, BreakAt(s).value)
    ensures forall k: nat :: EmptyLine(s, k) ==> BreakAt(s).Some? && BreakAt(s).value <= k
  {
    if |s| >= 2 && !(s[0] == '\n' && s[1] == '\n') {
      BreakIsFirst(s[1..]);
      forall k: nat | EmptyLine(s, k) ensures BreakAt(s).Some? && BreakAt(s).value <= k {
        assert EmptyLine(s[1..], k - 1);
      }
    }
  }

  lemma BreakIs(s: string, k: nat)
    requires EmptyLine(s, k) && forall i: nat :: EmptyLine(s, i) ==> k <= i
    ensures BreakAt(s) == Some(k)
  {
    BreakIsFirst(s);
  }

  datatype Blocks = Blocks(done: seq<string>, rest: string)

  function BlocksOf(s: string): Blocks
    decreases |s|
  {
    match BreakAt(s)
    case None => Blocks([], s)
    case Some(k) =>
      var more := BlocksOf(s[k + 2..]);
      Blocks([s[..k]] + more.done, more.rest)
  }

  /** The first colon of a line. */
  function ColonAt(line: string): (r: Option<nat>)
    ensures r.Some? ==> r.value < |line|
  {
    if line == "" then None
    else if line[0] == ':' then Some(0)
    else
      match ColonAt(line[1..])
      case None => None
      case Some(k) => Some(k + 1)
  }

  function FieldOf(line: string): string {
    match ColonAt(line) case None => line case Some(k) => line[..k]
  }

  function ValueOf(line: string): string {
    match ColonAt(line)
    case None => ""
    case Some(k) =>
      var value := line[k + 1..];
      if value != "" && value[0] == ' ' then value[1..] else value
  }

  /** The type and the data after more lines of a block. */
  function ParseLines(kind: string, data: seq<string>, lines: seq<string>): Event
    decreases |lines|
  {
    if lines == [] then
      Event(kind, Join(data))
    else if FieldOf(lines[0]) == "event" then
      ParseLines(ValueOf(lines[0]), data, lines[1..])
    else if FieldOf(lines[0]) == "data" then
      ParseLines(kind, data + [ValueOf(lines[0])], lines[1..])
    else
      ParseLines(kind, data, lines[1..])
  }

  function Parsed(block: string): Event {
    ParseLines("message", [], Lines(block))
  }

  /** parseEvent */
  method ParseEvent(block: string) returns (event: Event)
    ensures event == Parsed(block)
  {
    var kind := "message";
    var data: seq<string> := [];
    var lines := Lines(block);
    for i := 0 to |lines|
      invariant ParseLines(kind, data, lines[i..]) == Parsed(block)
    {
      var line := lines[i];
      assert lines[i..][0] == line && lines[i..][1..] == lines[i + 1..];
      var colon := ColonAt(line);
      var field := if colon == None then line else line[..colon.value];
      var value := if colon == None then "" else line[colon.value + 1..];
      if value != "" && value[0] == ' ' {
        value := value[1..];
      }
      if field == "event" {
        kind := value;
      } else if field == "data" {
        data := data + [value];
      }
    }
    event := Event(kind, Join(data));
  }

  function ParsedAll(blocks: seq<string>): seq<Event> {
    seq(|blocks|, i requires 0 <= i < |blocks| => Parsed(blocks[i]))
  }

  function Concat(chunks: seq<string>): string {
    if chunks == [] then "" else Concat(chunks[..|chunks| - 1]) + chunks[|chunks| - 1]
  }

  lemma ConcatNext(chunks: seq<string>, i: nat)
    requires i < |chunks|
    ensures Concat(chunks[..i + 1]) == Concat(chunks[..i]) + chunks[i]
  {
    assert chunks[..i + 1][..i] == chunks[..i];
  }

  /** What readEvents yields: the blocks of the whole text, parsed. */
  function Yields(chunks: seq<string>): seq<Event> {
    ParsedAll(BlocksOf(Concat(chunks)).done)
  }

  /** These events and the buffer are what the text so far comes to. */
  ghost predicate Reads(events: seq<Event>, buffer: string, text: string) {
    && BlocksOf(buffer).rest == BlocksOf(text).rest
    && events + ParsedAll(BlocksOf(buffer).done) == ParsedAll(BlocksOf(text).done)
  }

  /** readEvents over the chunks of the body: the events it yields depend only on the text. */
  method ReadEvents(chunks: seq<string>) returns (events: seq<Event>)
    ensures events == Yields(chunks)
  {
    events := [];
    var buffer := "";
    ghost var text := "";
    ReadsNothing();
    for i := 0 to |chunks|
      invariant text == Concat(chunks[..i])
      invariant BreakAt(buffer) == None && Reads(events, buffer, text)
    {
      ConcatNext(chunks, i);
      ChunkArrives(events, buffer, text, chunks[i]);
      text := text + chunks[i];
      buffer := buffer + chunks[i];
      var end := BreakAt(buffer);
      while end.Some?
        invariant end == BreakAt(buffer) && Reads(events, buffer, text)
        decreases |buffer|
      {
        var event := ParseEvent(buffer[..end.value]);
        NextBlock(events, buffer, text);
        events := events + [event];
        buffer := buffer[end.value + 2..];
        end := BreakAt(buffer);
      }
    }
    assert chunks[..|chunks|] == chunks;
    NoBlock(events, buffer, text);
  }

  lemma ReadsNothing()
    ensures BreakAt("") == None && Reads([], "", "")
  {
  }

  lemma ParsedJoins(a: seq<string>, b: seq<string>)
    ensures ParsedAll(a + b) == ParsedAll(a) + ParsedAll(b)
  {
  }

  lemma ParsedFirst(block: string, blocks: seq<string>)
    ensures ParsedAll([block] + blocks) == [Parsed(block)] + ParsedAll(blocks)
  {
  }

  lemma NoBlock(events: seq<Event>, buffer: string, text: string)
    requires BreakAt(buffer) == None && Reads(events, buffer, text)
    ensures buffer == BlocksOf(text).rest && events == ParsedAll(BlocksOf(text).done)
  {
  }

  lemma ChunkArrives(events: seq<Event>, buffer: string, text: string, chunk: string)
    requires BreakAt(buffer) == None && Reads(events, buffer, text)
    ensures Reads(events, buffer + chunk, text + chunk)
  {
    NoBlock(events, buffer, text);
    BlocksGrow(text, chunk);
    ParsedJoins(BlocksOf(text).done, BlocksOf(buffer + chunk).done);
  }

  lemma NextBlock(events: seq<Event>, buffer: string, text: string)
    requires BreakAt(buffer).Some? && Reads(events, buffer, text)
    ensures var k := BreakAt(buffer).value; Reads(events + [Parsed(buffer[..k])], buffer[k + 2..], text)
  {
    var k := BreakAt(buffer).value;
    var block, more := buffer[..k], BlocksOf(buffer[k + 2..]).done;
    BlocksUnfold(buffer, k);
    ParsedFirst(block, more);
    Associate(events, [Parsed(block)], ParsedAll(more));
  }

  lemma Associate<T>(a: seq<T>, b: seq<T>, c: seq<T>)
    ensures a + (b + c) == a + b + c
  {
  }

  lemma BlocksUnfold(s: string, k: nat)
    requires BreakAt(s) == Some(k)
    ensures BlocksOf(s).done == [s[..k]] + BlocksOf(s[k + 2..]).done
    ensures BlocksOf(s).rest == BlocksOf(s[k + 2..]).rest
  {
  }

  lemma BreakStays(s: string, t: string)
    requires BreakAt(s).Some?
    ensures BreakAt(s + t) == BreakAt(s)
  {
    var k := BreakAt(s).value;
    BreakIsFirst(s);
    forall i: nat | EmptyLine(s + t, i) ensures k <= i {
      if i < k {
        assert EmptyLine(s, i);
      }
    }
    BreakIs(s + t, k);
  }

  /** More text adds blocks at the end and takes none away. */
  lemma {:induction false} BlocksGrow(s: string, t: string)
    ensures BlocksOf(s + t).done == BlocksOf(s).done + BlocksOf(BlocksOf(s).rest + t).done
    ensures BlocksOf(s + t).rest == BlocksOf(BlocksOf(s).rest + t).rest
    decreases |s|
  {
    if BreakAt(s) == None {
      NothingBefore(BlocksOf(s + t).done);
    } else {
      BlocksGrowAfter(s, t, BreakAt(s).value);
      BlocksGrow(s[BreakAt(s).value + 2..], t);
      Associate([s[..BreakAt(s).value]], BlocksOf(s[BreakAt(s).value + 2..]).done, BlocksOf(BlocksOf(s).rest + t).done);
    }
  }

  lemma NothingBefore<T>(a: seq<T>)
    ensures [] + a == a
  {
  }

  lemma BlocksGrowAfter(s: string, t: string, k: nat)
    requires BreakAt(s) == Some(k)
    ensures BlocksOf(s).done == [s[..k]] + BlocksOf(s[k + 2..]).done
    ensures BlocksOf(s).rest == BlocksOf(s[k + 2..]).rest
    ensures BlocksOf(s + t).done == [s[..k]] + BlocksOf(s[k + 2..] + t).done
    ensures BlocksOf(s + t).rest == BlocksOf(s[k + 2..] + t).rest
  {
    BreakStays(s, t);
    assert (s + t)[k + 2..] == s[k + 2..] + t;
    assert (s + t)[..k] == s[..k];
    BlocksUnfold(s, k);
    BlocksUnfold(s + t, k);
  }

  // ---- what is sent arrives

  /** What the page should receive for an accepted call of Send. */
  function Received(s: Sent): Event {
    Event(if s.name == "" then "message" else s.name, Normalized(s.data))
  }

  function ReceivedAll(sent: seq<Sent>): seq<Event> {
    seq(|sent|, i requires 0 <= i < |sent| => Received(sent[i]))
  }

  function DataLines(lines: seq<string>): seq<string> {
    if lines == [] then [] else ["data: " + lines[0]] + DataLines(lines[1..])
  }

  function Fields(s: Sent): seq<string> {
    (if s.name == "" then [] else ["event: " + s.name]) + DataLines(Lines(Normalized(s.data)))
  }

  ghost predicate Solid(fields: seq<string>) {
    fields != [] && forall f :: f in fields ==> f != "" && f[0] != '\n' && '\n' !in f
  }

  lemma {:induction false} DataLinesAre(lines: seq<string>)
    requires forall l :: l in lines ==> '\n' !in l
    ensures |DataLines(lines)| == |lines|
    ensures forall f :: f in DataLines(lines) ==> f != "" && f[0] != '\n' && '\n' !in f
  {
    if lines != [] {
      assert lines[0] in lines && forall l :: l in lines[1..] ==> l in lines;
      DataLinesAre(lines[1..]);
      var f := "data: " + lines[0];
      assert f[0] == 'd' && '\n' !in "data: ";
    }
  }

  lemma FieldsAreSolid(s: Sent)
    requires Accepted(s)
    ensures Solid(Fields(s))
  {
    DataLinesAre(Lines(Normalized(s.data)));
    if s.name != "" {
      var f := "event: " + s.name;
      assert f[0] == 'e' && '\n' !in "event: ";
    }
  }

  /** Each field ends with a line feed, so the fields of a block end with two. */
  lemma {:induction false} DataFieldsEnd(lines: seq<string>)
    requires lines != []
    ensures DataFields(lines) == Join(DataLines(lines)) + "\n"
  {
    if |lines| > 1 {
      DataFieldsEnd(lines[1..]);
      assert DataLines(lines)[1..] == DataLines(lines[1..]);
    } else {
      assert DataFields(lines[1..]) == "" && DataLines(lines) == ["data: " + lines[0]];
    }
  }

  lemma TextIsBlock(s: Sent)
    ensures Text(s) == Join(Fields(s)) + "\n\n"
  {
    var lines := Lines(Normalized(s.data));
    var rest := DataLines(lines);
    DataFieldsEnd(lines);
    assert rest != [];
    if s.name == "" {
      assert Fields(s) == rest;
    } else {
      assert Fields(s)[1..] == rest && Fields(s)[0] == "event: " + s.name;
    }
  }

  /** The text on the wire: an event line for a name, a data line for each line of the data, and an
      empty line. */
  lemma WireFormat(s: Sent)
    ensures Text(s) == Join((if s.name == "" then [] else ["event: " + s.name]) + DataLines(Lines(Normalized(s.data)))) + "\n\n"
    ensures Join(Lines(Normalized(s.data))) == Normalized(s.data)
    ensures forall l :: l in Lines(Normalized(s.data)) ==> '\n' !in l && '\r' !in l
    ensures |DataLines(Lines(Normalized(s.data)))| == |Lines(Normalized(s.data))|
    ensures forall i :: 0 <= i < |Lines(Normalized(s.data))| ==>
      DataLines(Lines(Normalized(s.data)))[i] == "data: " + Lines(Normalized(s.data))[i]
  {
    TextIsBlock(s);
    JoinLines(Normalized(s.data));
    NormalizedHasNoCr(s.data);
    LinesHaveNoCr(Normalized(s.data));
    DataLinesEach(Lines(Normalized(s.data)));
  }

  lemma {:induction false} DataLinesEach(lines: seq<string>)
    ensures |DataLines(lines)| == |lines|
    ensures forall i :: 0 <= i < |lines| ==> DataLines(lines)[i] == "data: " + lines[i]
  {
    if lines != [] {
      DataLinesEach(lines[1..]);
    }
  }

  lemma {:induction false} LinesHaveNoCr(s: string)
    requires '\r' !in s
    ensures forall l :: l in Lines(s) ==> '\r' !in l
  {
    if s != "" {
      LinesHaveNoCr(s[1..]);
    }
  }

  // ---- where a block ends

  lemma {:induction false} BreakSkips(l: string, r: string, k: nat)
    requires l != "" && '\n' !in l && r != "" && r[0] != '\n' && BreakAt(r) == Some(k)
    ensures BreakAt(l + "\n" + r) == Some(|l| + 1 + k)
  {
    var s := l + "\n" + r;
    if |l| == 1 {
      assert s[1..] == "\n" + r;
      assert ("\n" + r)[1..] == r;
    } else {
      assert s[1..] == l[1..] + "\n" + r;
      BreakSkips(l[1..], r, k);
    }
  }

  lemma {:induction false} BreakEnds(l: string, t: string)
    requires l != "" && '\n' !in l
    ensures BreakAt(l + "\n\n" + t) == Some(|l|)
  {
    var s := l + "\n\n" + t;
    if |l| == 1 {
      assert s[1..] == "\n\n" + t;
    } else {
      assert s[1..] == l[1..] + "\n\n" + t;
      BreakEnds(l[1..], t);
    }
  }

  lemma Regroup(f: string, j: string, t: string)
    ensures f + "\n" + j + "\n\n" + t == f + "\n" + (j + "\n\n" + t)
  {
  }

  lemma {:induction false} BlockEnds(fields: seq<string>, t: string)
    requires Solid(fields)
    ensures Join(fields) != "" && Join(fields)[0] != '\n'
    ensures BreakAt(Join(fields) + "\n\n" + t) == Some(|Join(fields)|)
  {
    var f, rest := fields[0], fields[1..];
    assert f in fields;
    if rest == [] {
      BreakEnds(f, t);
    } else {
      assert forall g :: g in rest ==> g in fields;
      BlockEnds(rest, t);
      BreakSkips(f, Join(rest) + "\n\n" + t, |Join(rest)|);
      Regroup(f, Join(rest), t);
    }
  }

  lemma TextAddsBlock(s: Sent, t: string)
    requires Accepted(s)
    ensures BlocksOf(Text(s) + t).done == [Join(Fields(s))] + BlocksOf(t).done
    ensures BlocksOf(Text(s) + t).rest == BlocksOf(t).rest
  {
    var block := Join(Fields(s));
    TextIsBlock(s);
    FieldsAreSolid(s);
    BlockEnds(Fields(s), t);
    assert Text(s) + t == block + "\n\n" + t;
    assert (Text(s) + t)[|block| + 2..] == t && (Text(s) + t)[..|block|] == block;
    BlocksUnfold(Text(s) + t, |block|);
  }

  // ---- what a block says

  lemma {:induction false} ColonIs(name: string, v: string)
    requires ':' !in name
    ensures ColonAt(name + ":" + v) == Some(|name|)
  {
    if name == "" {
      assert name + ":" + v == ":" + v;
    } else {
      assert (name + ":" + v)[1..] == name[1..] + ":" + v;
      ColonIs(name[1..], v);
    }
  }

  lemma FieldIs(name: string, v: string)
    requires ':' !in name
    ensures FieldOf(name + ": " + v) == name && ValueOf(name + ": " + v) == v
  {
    var line := name + ": " + v;
    assert line == name + ":" + (" " + v);
    ColonIs(name, " " + v);
    assert line[..|name|] == name && line[|name| + 1..] == " " + v;
    assert (" " + v)[1..] == v;
  }

  /** A line is a field up to its first colon; its value loses one leading space; a line without a
      colon is a field without a value. */
  lemma LineIs(name: string, v: string)
    requires ':' !in name
    ensures FieldOf(name + ":" + v) == name
    ensures ValueOf(name + ":" + v) == if v != "" && v[0] == ' ' then v[1..] else v
    ensures FieldOf(name) == name && ValueOf(name) == ""
  {
    ColonIs(name, v);
    NoColon(name);
    var line := name + ":" + v;
    assert line[..|name|] == name && line[|name| + 1..] == v;
  }

  lemma {:induction false} NoColon(name: string)
    requires ':' !in name
    ensures ColonAt(name) == None
  {
    if name != "" {
      NoColon(name[1..]);
    }
  }

  /** The last event line names the event, each data line adds a line, and other lines, comments
      among them, say nothing. */
  lemma LineSays(kind: string, data: seq<string>, line: string, rest: seq<string>)
    ensures ParseLines(kind, data, [line] + rest) ==
            if FieldOf(line) == "event" then ParseLines(ValueOf(line), data, rest)
            else if FieldOf(line) == "data" then ParseLines(kind, data + [ValueOf(line)], rest)
            else ParseLines(kind, data, rest)
  {
    assert ([line] + rest)[1..] == rest;
  }

  lemma {:induction false} DataLinesSay(kind: string, data: seq<string>, lines: seq<string>)
    ensures ParseLines(kind, data, DataLines(lines)) == Event(kind, Join(data + lines))
    decreases |lines|
  {
    if lines == [] {
      assert data + lines == data;
    } else {
      FieldIs("data", lines[0]);
      assert "data" + ": " + lines[0] == "data: " + lines[0];
      assert DataLines(lines)[1..] == DataLines(lines[1..]);
      DataLinesSay(kind, data + [lines[0]], lines[1..]);
      assert data + [lines[0]] + lines[1..] == data + lines;
    }
  }

  lemma DataSays(kind: string, text: string)
    ensures ParseLines(kind, [], DataLines(Lines(text))) == Event(kind, text)
  {
    DataLinesSay(kind, [], Lines(text));
    JoinLines(text);
    NothingBefore(Lines(text));
  }

  lemma EventLineSays(name: string, rest: seq<string>)
    ensures ParseLines("message", [], ["event: " + name] + rest) == ParseLines(name, [], rest)
  {
    FieldIs("event", name);
    assert "event" + ": " + name == "event: " + name;
    assert (["event: " + name] + rest)[1..] == rest;
  }

  lemma BlockSays(s: Sent)
    requires Accepted(s)
    ensures Parsed(Join(Fields(s))) == Received(s)
  {
    var text := Normalized(s.data);
    FieldsAreSolid(s);
    LinesJoin(Fields(s));
    if s.name == "" {
      NothingBefore(DataLines(Lines(text)));
      DataSays("message", text);
    } else {
      EventLineSays(s.name, DataLines(Lines(text)));
      DataSays(s.name, text);
    }
  }

  lemma {:induction false} TextSays(sent: seq<Sent>)
    requires forall s :: s in sent ==> Accepted(s)
    ensures ParsedAll(BlocksOf(TextOf(sent)).done) == ReceivedAll(sent)
    ensures BlocksOf(TextOf(sent)).rest == ""
  {
    if sent != [] {
      assert sent[0] in sent && forall s :: s in sent[1..] ==> s in sent;
      TextSays(sent[1..]);
      TextAddsBlock(sent[0], TextOf(sent[1..]));
      FirstSays(sent[0], BlocksOf(TextOf(sent[1..])).done);
      ReceivedUnfold(sent);
    }
  }

  lemma ReceivedUnfold(sent: seq<Sent>)
    requires sent != []
    ensures ReceivedAll(sent) == [Received(sent[0])] + ReceivedAll(sent[1..])
  {
  }

  lemma FirstSays(s: Sent, blocks: seq<string>)
    requires Accepted(s)
    ensures ParsedAll([Join(Fields(s))] + blocks) == [Received(s)] + ParsedAll(blocks)
  {
    BlockSays(s);
    ParsedFirst(Join(Fields(s)), blocks);
  }

  /** Round trip: however the text of accepted calls is cut into chunks, the reader yields
      each event, once, in order. */
  lemma RoundTrip(sent: seq<Sent>, chunks: seq<string>)
    requires forall s :: s in sent ==> Accepted(s)
    requires Concat(chunks) == TextOf(sent)
    ensures Yields(chunks) == ReceivedAll(sent)
  {
    TextSays(sent);
  }

  /** A stream that is cut anywhere yields a prefix of the events, and no part of one. */
  lemma CutStreamYieldsPrefix(sent: seq<Sent>, chunks: seq<string>, lost: string)
    requires forall s :: s in sent ==> Accepted(s)
    requires Concat(chunks) + lost == TextOf(sent)
    ensures Yields(chunks) <= ReceivedAll(sent)
    ensures Yields(chunks) == ReceivedAll(sent)[..|Yields(chunks)|]
  {
    TextSays(sent);
    BlocksGrow(Concat(chunks), lost);
    ParsedJoins(BlocksOf(Concat(chunks)).done, BlocksOf(BlocksOf(Concat(chunks)).rest + lost).done);
  }
}
