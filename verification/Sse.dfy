/**
 The audit event stream: the frames the server prints and the client's
 incremental reader.  JSON text is opaque apart from being one line in braces.
 */
module Sse {
  import opened Basics

  // ----- Server: frame printing -----

  /** An audit event already rendered as JSON, or one of the two housekeeping frames. */
  datatype Frame = Connected(clientId: string) | Heartbeat(ts: string) | AuditEvent(json: string)

  function Name(f: Frame): string {
    match f
    case Connected(_) => "connected"
    case Heartbeat(_) => "heartbeat"
    case AuditEvent(_) => "audit_event"
  }

  function Payload(f: Frame): string {
    match f
    case Connected(id) => "{\"client_id\":\"" + id + "\"}"
    case Heartbeat(ts) => "{\"ts\":\"" + ts + "\"}"
    case AuditEvent(json) => json
  }

  function Body(f: Frame): string {
    "event: " + Name(f) + "\n" + ("data: " + Payload(f))
  }

  function Printed(frames: seq<Frame>): string {
    if frames == [] then "" else Body(frames[0]) + "\n\n" + Printed(frames[1..])
  }

  /** What one wait of the generator ends in. */
  datatype Wait = Dequeued(json: string) | TimedOut(ts: string) | Disconnected

  function FrameFor(w: Wait): Frame
    requires !w.Disconnected?
  {
    if w.Dequeued? then AuditEvent(w.json) else Heartbeat(w.ts)
  }

  /** The frames sent up to the first disconnect. */
  function Sent(waits: seq<Wait>): seq<Frame> {
    if waits == [] || waits[0].Disconnected? then [] else [FrameFor(waits[0])] + Sent(waits[1..])
  }

  /** The generator: one connected frame, then one frame per wait until the client is gone. */
  method EventGenerator(clientId: string, waits: seq<Wait>) returns (out: string)
    ensures out == Printed([Connected(clientId)] + Sent(waits))
  {
    out := SendAfter(Connected(clientId), waits);
  }

  lemma SentNext(all: seq<Frame>, waits: seq<Wait>, n: nat, frames: seq<Frame>)
    requires n < |waits| && frames + Sent(waits[n..]) == all
    ensures if waits[n].Disconnected? then frames == all else frames + [FrameFor(waits[n])] + Sent(waits[n + 1..]) == all
  {
    assert waits[n..][0] == waits[n] && waits[n..][1..] == waits[n + 1..];
  }

  method SendAfter(first: Frame, waits: seq<Wait>) returns (out: string)
    ensures out == Printed([first] + Sent(waits))
  {
    ghost var all, frames := [first] + Sent(waits), [first];
    out := Body(first) + "\n\n";
    PrintedSnoc([], first);
    assert [] + frames == frames;
    for n := 0 to |waits|
      invariant out == Printed(frames)
      invariant frames + Sent(waits[n..]) == all
    {
      SentNext(all, waits, n, frames);
      if waits[n].Disconnected? {
        return;
      }
      var f := FrameFor(waits[n]);
      PrintedSnoc(frames, f);
      frames := frames + [f];
      out := out + (Body(f) + "\n\n");
    }
    assert frames == all;
  }

  lemma {:induction false} PrintedSnoc(frames: seq<Frame>, f: Frame)
    ensures Printed(frames + [f]) == Printed(frames) + (Body(f) + "\n\n")
  {
    if frames == [] {
      assert [] + [f] == [f] && [f][1..] == [];
      assert Printed([f]) == Body(f) + "\n\n" + "";
    } else {
      assert (frames + [f])[1..] == frames[1..] + [f];
      PrintedSnoc(frames[1..], f);
    }
  }

  // ----- Client: splitting -----

  predicate Breaks(s: string) {
    |s| >= 2 && s[0] == '\n' && s[1] == '\n'
  }

  /** A part that grows at the front. */
  function Grown(c: char, parts: seq<string>): seq<string>
    requires parts != []
  {
    [[c] + parts[0]] + parts[1..]
  }

  /** s.split("\n\n") */
  function SplitFrames(s: string): (parts: seq<string>)
    ensures parts != []
    decreases |s|
  {
    if s == "" then [""]
    else if Breaks(s) then [""] + SplitFrames(s[2..])
    else Grown(s[0], SplitFrames(s[1..]))
  }

  /** s.split("\n") */
  function SplitLines(s: string): (lines: seq<string>)
    ensures lines != []
    decreases |s|
  {
    if s == "" then [""]
    else if s[0] == '\n' then [""] + SplitLines(s[1..])
    else Grown(s[0], SplitLines(s[1..]))
  }

  function Init(parts: seq<string>): seq<string>
    requires parts != []
  {
    parts[..|parts| - 1]
  }

  function Last(parts: seq<string>): string
    requires parts != []
  {
    parts[|parts| - 1]
  }

  lemma {:induction false} SinglePart(s: string)
    ensures |SplitFrames(s)| == 1 ==> SplitFrames(s) == [s]
    decreases |s|
  {
    if s != "" && !Breaks(s) {
      SinglePart(s[1..]);
      assert s == [s[0]] + s[1..];
    }
  }

  /** Splitting can resume from the unfinished last part when more text arrives. */
  lemma {:induction false} SplitResumes(a: string, b: string)
    ensures SplitFrames(a + b) == Init(SplitFrames(a)) + SplitFrames(Last(SplitFrames(a)) + b)
    decreases |a|
  {
    if a == "" {
      assert a + b == b && Last(SplitFrames(a)) + b == b && Init(SplitFrames(a)) == [];
    } else if Breaks(a) {
      assert (a + b)[2..] == a[2..] + b;
      SplitResumes(a[2..], b);
    } else if |SplitFrames(a)| == 1 {
      SinglePart(a);
    } else {
      var tail := SplitFrames(a[1..]);
      assert (a + b)[1..] == a[1..] + b && (a + b)[0] == a[0];
      SplitResumes(a[1..], b);
    }
  }

  // ----- Client: one part -----

  predicate IsJsSpace(c: char) {
    || c == ' ' || '\t' <= c <= '\r' || c == '\U{a0}' || c == '\U{1680}' || '\U{2000}' <= c <= '\U{200a}'
    || c == '\U{2028}' || c == '\U{2029}' || c == '\U{202f}' || c == '\U{205f}' || c == '\U{3000}' || c == '\U{feff}'
  }

  function TrimStart(s: string): string {
    if s != "" && IsJsSpace(s[0]) then TrimStart(s[1..]) else s
  }

  function TrimEnd(s: string): string {
    if s != "" && IsJsSpace(s[|s| - 1]) then TrimEnd(s[..|s| - 1]) else s
  }

  function Trim(s: string): string {
    TrimEnd(TrimStart(s))
  }

  /** The trimmed rest of the first line that starts with `prefix`. */
  function Field(lines: seq<string>, prefix: string): Option<string> {
    if lines == [] then None
    else if prefix <= lines[0] then Some(Trim(lines[0][|prefix|..]))
    else Field(lines[1..], prefix)
  }

  /** What the reader makes of one complete part. */
  function EventIn<E>(part: string, parse: string -> Option<E>): seq<E> {
    var lines := SplitLines(part);
    var data := Field(lines, "data:");
    if Field(lines, "event:") == Some("audit_event") && data.Some? && data.value != "" && parse(data.value).Some?
    then [parse(data.value).value]
    else []
  }

  function FlatMap<E>(parts: seq<string>, f: string -> seq<E>): seq<E> {
    if parts == [] then [] else FlatMap(parts[..|parts| - 1], f) + f(parts[|parts| - 1])
  }

  lemma {:induction false} FlatMapConcat<E>(a: seq<string>, b: seq<string>, f: string -> seq<E>)
    ensures FlatMap(a + b, f) == FlatMap(a, f) + FlatMap(b, f)
  {
    if b == [] {
      assert a + b == a;
    } else {
      FlatMapConcat(a, b[..|b| - 1], f);
      assert (a + b)[..|a + b| - 1] == a + b[..|b| - 1];
    }
  }

  /** What the reader makes of a list of complete parts. */
  function EventsIn<E>(parts: seq<string>, parse: string -> Option<E>): seq<E> {
    FlatMap(parts, part => EventIn(part, parse))
  }

  lemma EventsInConcat<E>(a: seq<string>, b: seq<string>, parse: string -> Option<E>)
    ensures EventsIn(a + b, parse) == EventsIn(a, parse) + EventsIn(b, parse)
  {
    FlatMapConcat(a, b, part => EventIn(part, parse));
  }

  function Concat(chunks: seq<string>): string {
    if chunks == [] then "" else Concat(chunks[..|chunks| - 1]) + chunks[|chunks| - 1]
  }

  /** The inner loop over complete parts. */
  method DeliverParts<E>(parts: seq<string>, parse: string -> Option<E>) returns (delivered: seq<E>)
    ensures delivered == EventsIn(parts, parse)
  {
    delivered := [];
    for m := 0 to |parts|
      invariant delivered == EventsIn(parts[..m], parse)
    {
      assert parts[..m + 1][..m] == parts[..m];
      var lines := SplitLines(parts[m]);
      var eventLine, dataLine := Field(lines, "event:"), Field(lines, "data:");
      if eventLine == Some("audit_event") && dataLine.Some? && dataLine.value != "" {
        var parsed := parse(dataLine.value);
        if parsed.Some? {
          delivered := delivered + [parsed.value];
        }
      }
    }
    assert parts[..|parts|] == parts;
  }

  /** What one more chunk completes, and what is left in the buffer. */
  lemma ChunkCompletes<E>(before: string, chunk: string, parse: string -> Option<E>)
    ensures var parts, whole := SplitFrames(Last(SplitFrames(before)) + chunk), SplitFrames(before + chunk);
      && Last(parts) == Last(whole)
      && EventsIn(Init(whole), parse) == EventsIn(Init(SplitFrames(before)), parse) + EventsIn(Init(parts), parse)
  {
    var earlier, parts := Init(SplitFrames(before)), SplitFrames(Last(SplitFrames(before)) + chunk);
    SplitResumes(before, chunk);
    assert Init(earlier + parts) == earlier + Init(parts);
    EventsInConcat(earlier, Init(parts), parse);
  }

  /** The read loop: its result depends on the text received, not on how it was cut. */
  method StreamAuditEvents<E>(chunks: seq<string>, parse: string -> Option<E>) returns (delivered: seq<E>)
    ensures delivered == EventsIn(Init(SplitFrames(Concat(chunks))), parse)
  {
    var buf := "";
    delivered := [];
    for n := 0 to |chunks|
      invariant buf == Last(SplitFrames(Concat(chunks[..n])))
      invariant delivered == EventsIn(Init(SplitFrames(Concat(chunks[..n]))), parse)
    {
      assert chunks[..n + 1][..n] == chunks[..n];
      ChunkCompletes(Concat(chunks[..n]), chunks[n], parse);
      buf := buf + chunks[n];
      var parts := SplitFrames(buf);
      buf := Last(parts);
      var events := DeliverParts(Init(parts), parse);
      delivered := delivered + events;
    }
    assert chunks[..|chunks|] == chunks;
  }

  // ----- Printer and reader -----

  /** Text the printer puts between line ends. */
  predicate OneLine(s: string) {
    forall n :: 0 <= n < |s| ==> s[n] != '\n'
  }

  /** What json.dumps gives for an object: one line in braces. */
  predicate JsonObject(json: string) {
    |json| >= 2 && json[0] == '{' && json[|json| - 1] == '}' && OneLine(json)
  }

  predicate Printable(f: Frame) {
    match f
    case Connected(id) => OneLine(id)
    case Heartbeat(ts) => OneLine(ts)
    case AuditEvent(json) => JsonObject(json)
  }

  lemma PayloadIsObject(f: Frame)
    requires Printable(f)
    ensures JsonObject(Payload(f))
  {
  }

  /** One line, a line end, another non-empty line and a blank line split off as one part. */
  lemma {:induction false} SplitBody(head: string, data: string, rest: string)
    requires OneLine(head) && OneLine(data) && data != ""
    ensures SplitFrames(head + "\n" + data + "\n\n" + rest) == [head + "\n" + data] + SplitFrames(rest)
    decreases |head|
  {
    var s := head + "\n" + data + "\n\n" + rest;
    if head == "" {
      SplitLine(data, rest);
      assert s[0] == '\n' && s[1] == data[0] && s[1..] == data + "\n\n" + rest;
      assert head + "\n" + data == ['\n'] + data;
    } else {
      SplitBody(head[1..], data, rest);
      assert s[0] == head[0] && s[1..] == head[1..] + "\n" + data + "\n\n" + rest;
      assert head + "\n" + data == [head[0]] + (head[1..] + "\n" + data);
    }
  }

  lemma {:induction false} SplitLine(data: string, rest: string)
    requires OneLine(data)
    ensures SplitFrames(data + "\n\n" + rest) == [data] + SplitFrames(rest)
    decreases |data|
  {
    var s := data + "\n\n" + rest;
    if data == "" {
      assert Breaks(s) && s[2..] == rest;
    } else {
      SplitLine(data[1..], rest);
      assert s[0] == data[0] && s[1..] == data[1..] + "\n\n" + rest;
      assert data == [data[0]] + data[1..];
    }
  }

  lemma {:induction false} SplitTwoLines(head: string, data: string)
    requires OneLine(head) && OneLine(data)
    ensures SplitLines(head + "\n" + data) == [head, data]
    decreases |head|
  {
    var s := head + "\n" + data;
    if head == "" {
      assert s[1..] == data;
      SplitOneLine(data);
    } else {
      assert s[0] == head[0] && s[1..] == head[1..] + "\n" + data;
      SplitTwoLines(head[1..], data);
      assert head == [head[0]] + head[1..];
    }
  }

  lemma {:induction false} SplitOneLine(data: string)
    requires OneLine(data)
    ensures SplitLines(data) == [data]
    decreases |data|
  {
    if data != "" {
      SplitOneLine(data[1..]);
      assert data == [data[0]] + data[1..];
    }
  }

  lemma TrimSpaced(s: string)
    requires s != "" && !IsJsSpace(s[0]) && !IsJsSpace(s[|s| - 1])
    ensures Trim(" " + s) == s
  {
    assert (" " + s)[1..] == s && (" " + s)[0] == ' ';
    assert TrimStart(s) == s && TrimStart(" " + s) == TrimStart(s);
  }

  function Events<E>(frames: seq<Frame>, parse: string -> Option<E>): seq<E> {
    if frames == [] then []
    else
      (if frames[0].AuditEvent? && parse(frames[0].json).Some? then [parse(frames[0].json).value] else []) +
      Events(frames[1..], parse)
  }

  lemma NameField(f: Frame)
    ensures Trim(" " + Name(f)) == Name(f) && OneLine(Name(f))
    ensures Name(f) == "audit_event" <==> f.AuditEvent?
  {
    TrimSpaced(Name(f));
    assert f.Connected? ==> Name(f)[0] == 'c';
    assert f.Heartbeat? ==> Name(f)[0] == 'h';
    assert f.AuditEvent? ==> Name(f)[0] == 'a';
  }

  lemma BodyFields(f: Frame)
    requires Printable(f)
    ensures Field(SplitLines(Body(f)), "event:") == Some(Name(f))
    ensures Field(SplitLines(Body(f)), "data:") == Some(Payload(f))
  {
    var head, data := "event:" + (" " + Name(f)), "data:" + (" " + Payload(f));
    NameField(f);
    PayloadIsObject(f);
    assert head == "event: " + Name(f) && data == "data: " + Payload(f);
    SplitTwoLines(head, data);
    assert [head] + [data] == [head, data];
    assert head[0] == 'e' && "data:"[0] == 'd';
    assert [data] + [] == [data];
    TrimSpaced(Payload(f));
  }

  lemma EventInBody<E>(f: Frame, parse: string -> Option<E>)
    requires Printable(f)
    ensures EventIn(Body(f), parse) == Events([f], parse)
  {
    BodyFields(f);
    NameField(f);
    PayloadIsObject(f);
  }

  /** The first frame of a printed stream is its first complete part. */
  lemma FirstFrameSplits(frames: seq<Frame>, partial: string)
    requires frames != [] && Printable(frames[0])
    ensures var parts := SplitFrames(Printed(frames[1..]) + partial);
      && SplitFrames(Printed(frames) + partial) == [Body(frames[0])] + parts
      && Init(SplitFrames(Printed(frames) + partial)) == [Body(frames[0])] + Init(parts)
  {
    var f, rest := frames[0], Printed(frames[1..]) + partial;
    NameField(f);
    PayloadIsObject(f);
    SplitBody("event: " + Name(f), "data: " + Payload(f), rest);
    assert Body(f) == "event: " + Name(f) + "\n" + ("data: " + Payload(f));
    PrintedFirst(frames, partial);
    var parts := SplitFrames(rest);
    assert [Body(f)] + parts != [];
  }

  lemma PrintedFirst(frames: seq<Frame>, partial: string)
    requires frames != []
    ensures Printed(frames) + partial ==
      "event: " + Name(frames[0]) + "\n" + ("data: " + Payload(frames[0])) + "\n\n" + (Printed(frames[1..]) + partial)
  {
  }

  lemma FirstEvent<E>(f: Frame, frames: seq<Frame>, parts: seq<string>, parse: string -> Option<E>)
    requires Printable(f) && EventsIn(parts, parse) == Events(frames, parse)
    ensures EventsIn([Body(f)] + parts, parse) == Events([f] + frames, parse)
  {
    EventsInConcat([Body(f)], parts, parse);
    EventInBody(f, parse);
    OnePart(Body(f), parse);
  }

  lemma OnePart<E>(part: string, parse: string -> Option<E>)
    ensures EventsIn([part], parse) == EventIn(part, parse)
  {
    FlatMapOne(part, p => EventIn(p, parse));
  }

  lemma FlatMapOne<E>(part: string, f: string -> seq<E>)
    ensures FlatMap([part], f) == f(part)
  {
    assert [part][..0] == [];
    assert FlatMap([], f) == [];
  }

  /**
   However the printed stream is cut, and wherever it ends, the reader delivers
   the audit events of the frames that arrived whole, in order, and nothing else.
   */
  lemma {:induction false} PrintedIsDelivered<E>(frames: seq<Frame>, partial: string, parse: string -> Option<E>)
    requires forall n :: 0 <= n < |frames| ==> Printable(frames[n])
    requires SplitFrames(partial) == [partial]
    ensures EventsIn(Init(SplitFrames(Printed(frames) + partial)), parse) == Events(frames, parse)
    decreases |frames|
  {
    if frames == [] {
      assert Printed(frames) + partial == partial;
    } else {
      var parts := SplitFrames(Printed(frames[1..]) + partial);
      PrintedIsDelivered(frames[1..], partial, parse);
      FirstFrameSplits(frames, partial);
      FirstEvent(frames[0], frames[1..], Init(parts), parse);
      assert [frames[0]] + frames[1..] == frames;
    }
  }

  /** A frame that has not arrived whole is one unfinished part. */
  lemma PartialFrameWaits(f: Frame, n: nat)
    requires Printable(f) && n < |Body(f)| + 2
    ensures var partial := (Body(f) + "\n\n")[..n]; SplitFrames(partial) == [partial]
  {
    var head, data := "event: " + Name(f), "data: " + Payload(f);
    NameField(f);
    PayloadIsObject(f);
    var partial := (Body(f) + "\n\n")[..n];
    assert Body(f) == head + "\n" + data;
    forall j | 0 <= j < |partial| - 1 && partial[j] == '\n'
      ensures partial[j + 1] != '\n'
    {
      assert j == |head|;
      assert partial[j + 1] == data[0] == 'd';
    }
    NoBreakOnePart(partial);
  }

  lemma {:induction false} NoBreakOnePart(s: string)
    requires forall j :: 0 <= j < |s| - 1 && s[j] == '\n' ==> s[j + 1] != '\n'
    ensures SplitFrames(s) == [s]
    decreases |s|
  {
    if s != "" {
      forall j | 0 <= j < |s[1..]| - 1 && s[1..][j] == '\n'
        ensures s[1..][j + 1] != '\n'
      {
        assert s[j + 1] == '\n';
      }
      NoBreakOnePart(s[1..]);
      assert s == [s[0]] + s[1..];
    }
  }

  lemma CutText(text: string, rest: string, s: string)
    requires s <= text + rest
    ensures if |s| < |text| then s == text[..|s|] else s == text + s[|text|..] && s[|text|..] <= rest
  {
  }

  lemma PrintedCons(frames: seq<Frame>, m: nat, partial: string)
    requires m < |frames|
    ensures Printed(frames[..m + 1]) + partial == Body(frames[0]) + "\n\n" + (Printed(frames[1..][..m]) + partial)
  {
    assert frames[..m + 1][1..] == frames[1..][..m] && frames[..m + 1][0] == frames[0];
  }

  /** Where a cut of the printed stream falls: after m whole frames, inside the next one or at the end. */
  lemma {:induction false} CutPoint(frames: seq<Frame>, s: string) returns (m: nat, partial: string)
    requires forall n :: 0 <= n < |frames| ==> Printable(frames[n])
    requires s <= Printed(frames)
    ensures m <= |frames| && s == Printed(frames[..m]) + partial && SplitFrames(partial) == [partial]
    ensures m < |frames| ==> |partial| < |Body(frames[m])| + 2
    decreases |frames|
  {
    if frames == [] {
      return 0, "";
    }
    var text := Body(frames[0]) + "\n\n";
    CutText(text, Printed(frames[1..]), s);
    if |s| < |text| {
      PartialFrameWaits(frames[0], |s|);
      assert Printed(frames[..0]) + s == s;
      return 0, s;
    }
    var m', p := CutPoint(frames[1..], s[|text|..]);
    PrintedCons(frames, m', p);
    return m' + 1, p;
  }

  /**
   The round trip: cut the printed stream anywhere and into any chunks, and the
   reader's result is the audit events of exactly the frames that arrived whole.
   */
  lemma AnyCutDelivers<E>(frames: seq<Frame>, chunks: seq<string>, parse: string -> Option<E>) returns (m: nat)
    requires forall n :: 0 <= n < |frames| ==> Printable(frames[n])
    requires Concat(chunks) <= Printed(frames)
    ensures m <= |frames| && |Printed(frames[..m])| <= |Concat(chunks)|
    ensures m < |frames| ==> |Concat(chunks)| < |Printed(frames[..m])| + |Body(frames[m])| + 2
    ensures EventsIn(Init(SplitFrames(Concat(chunks))), parse) == Events(frames[..m], parse)
  {
    var partial;
    m, partial := CutPoint(frames, Concat(chunks));
    PrintedIsDelivered(frames[..m], partial, parse);
  }

  // ----- From the queue to the reader -----

  lemma WireText(f: Frame, head: string, before: string, text: string, after: string)
    requires "event: " + Name(f) + "\n" + "data: " == head && Payload(f) == before + text + after
    ensures Printed([f]) == head + before + text + after + "\n\n"
  {
    assert [f][1..] == [];
    assert Body(f) == "event: " + Name(f) + "\n" + "data: " + Payload(f);
  }

  /** What the frames look like on the wire. */
  lemma ConnectedOnTheWire(id: string)
    ensures Printed([Connected(id)]) == "event: connected\ndata: " + "{\"client_id\":\"" + id + "\"}" + "\n\n"
  {
    WireText(Connected(id), "event: connected\ndata: ", "{\"client_id\":\"", id, "\"}");
  }

  lemma HeartbeatOnTheWire(ts: string)
    ensures Printed([Heartbeat(ts)]) == "event: heartbeat\ndata: " + "{\"ts\":\"" + ts + "\"}" + "\n\n"
  {
    WireText(Heartbeat(ts), "event: heartbeat\ndata: ", "{\"ts\":\"", ts, "\"}");
  }

  lemma EventOnTheWire(json: string)
    ensures Printed([AuditEvent(json)]) == "event: audit_event\ndata: " + json + "\n\n"
  {
    var f, head := AuditEvent(json), "event: audit_event\ndata: ";
    assert "" + json + "" == json && head + "" == head;
    assert "event: " + Name(f) + "\n" + "data: " == head;
    WireText(f, head, "", json, "");
  }

  /** The events taken from the queue before the client was gone. */
  function Dequeues(waits: seq<Wait>): seq<string> {
    if waits == [] || waits[0].Disconnected? then []
    else (if waits[0].Dequeued? then [waits[0].json] else []) + Dequeues(waits[1..])
  }

  function ParsedAll<E>(jsons: seq<string>, parse: string -> Option<E>): seq<E> {
    if jsons == [] then []
    else (if parse(jsons[0]).Some? then [parse(jsons[0]).value] else []) + ParsedAll(jsons[1..], parse)
  }

  lemma {:induction false} SentEvents<E>(waits: seq<Wait>, parse: string -> Option<E>)
    ensures Events(Sent(waits), parse) == ParsedAll(Dequeues(waits), parse)
  {
    if waits != [] && !waits[0].Disconnected? {
      SentEvents(waits[1..], parse);
      assert Sent(waits)[1..] == Sent(waits[1..]);
      assert waits[0].Dequeued? ==> Dequeues(waits)[1..] == Dequeues(waits[1..]);
      assert waits[0].TimedOut? ==> Dequeues(waits) == Dequeues(waits[1..]);
    }
  }

  /** End to end: the reader of a whole stream delivers what was dequeued before the disconnect, and nothing else. */
  lemma StreamDelivers<E>(id: string, waits: seq<Wait>, chunks: seq<string>, parse: string -> Option<E>)
    requires OneLine(id) && forall n :: 0 <= n < |waits| && !waits[n].Disconnected? ==> Printable(FrameFor(waits[n]))
    requires Concat(chunks) == Printed([Connected(id)] + Sent(waits))
    ensures EventsIn(Init(SplitFrames(Concat(chunks))), parse) == ParsedAll(Dequeues(waits), parse)
  {
    var frames := [Connected(id)] + Sent(waits);
    SentPrintable(waits);
    assert SplitFrames("") == [""];
    PrintedIsDelivered(frames, "", parse);
    assert Printed(frames) + "" == Printed(frames) && frames[1..] == Sent(waits);
    SentEvents(waits, parse);
  }

  lemma {:induction false} SentPrintable(waits: seq<Wait>)
    requires forall n :: 0 <= n < |waits| && !waits[n].Disconnected? ==> Printable(FrameFor(waits[n]))
    ensures forall n :: 0 <= n < |Sent(waits)| ==> Printable(Sent(waits)[n])
  {
    if waits != [] && !waits[0].Disconnected? {
      assert forall n :: 0 <= n < |waits[1..]| ==> waits[1..][n] == waits[n + 1];
      SentPrintable(waits[1..]);
    }
  }
}
