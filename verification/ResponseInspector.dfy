/**
 The outcome inspector of a response. It is fed the response in whatever chunks are written, keeps a
 partial line between them, and stops after a bounded prefix. Space trimming and the decision whether
 a JSON-RPC payload reports a tool error are parameters.
 */
module ResponseInspector {
  import opened Basics

  const MAX_INSPECTED: nat := 262144
  const NEWLINE: Byte := 10
  /** "data:" */
  const DATA: seq<Byte> := [100, 97, 116, 97, 58]

  datatype Library = Library(trim: seq<Byte> -> seq<Byte>, reports: seq<Byte> -> bool) {
    /** Trimming leaves nothing of nothing. */
    predicate Valid() {
      trim([]) == []
    }
  }

  // ---------- what the verdict should be ----------

  /** The part of a response that is looked at. */
  function Prefix(response: seq<Byte>): seq<Byte> {
    if |response| <= MAX_INSPECTED then response else response[..MAX_INSPECTED]
  }

  /** Positions a and b delimit a line of the text. */
  predicate IsLine(text: seq<Byte>, a: int, b: int) {
    && 0 <= a <= b <= |text|
    && (a == 0 || text[a - 1] == NEWLINE)
    && (b == |text| || text[b] == NEWLINE)
    && (forall i :: a <= i < b ==> text[i] != NEWLINE)
  }

  /** A `data:` line whose payload reports an error. */
  predicate LineReports(lib: Library, line: seq<Byte>) {
    var trimmed := lib.trim(line);
    && |trimmed| >= |DATA| && trimmed[..|DATA|] == DATA
    && var payload := lib.trim(trimmed[|DATA|..]);
       payload != [] && lib.reports(payload)
  }

  ghost predicate SomeLineReports(lib: Library, text: seq<Byte>) {
    exists a, b :: IsLine(text, a, b) && LineReports(lib, text[a..b])
  }

  /** Some line of the prefix reports an error, or the prefix as a whole does. */
  ghost predicate ReportsError(lib: Library, response: seq<Byte>) {
    SomeLineReports(lib, Prefix(response)) || lib.reports(lib.trim(Prefix(response)))
  }

  // ---------- what the inspector has after some text ----------

  /** The unfinished line. */
  function Buffer(text: seq<Byte>): seq<Byte> {
    if text == [] then []
    else
      var last := text[|text| - 1];
      if last == NEWLINE then [] else Buffer(text[..|text| - 1]) + [last]
  }

  /** Some finished line reports an error. */
  predicate Latched(lib: Library, text: seq<Byte>) {
    text != [] && (Latched(lib, text[..|text| - 1])
                   || (text[|text| - 1] == NEWLINE && LineReports(lib, Buffer(text[..|text| - 1]))))
  }

  /** The unfinished line is the last line. */
  lemma {:induction false} BufferIsLastLine(text: seq<Byte>)
    ensures |Buffer(text)| <= |text| && IsLine(text, |text| - |Buffer(text)|, |text|)
    ensures text[|text| - |Buffer(text)|..] == Buffer(text)
  {
    if text != [] {
      var before, last := text[..|text| - 1], text[|text| - 1];
      BufferIsLastLine(before);
      assert text == before + [last];
      if last != NEWLINE {
        LineGrows(before, last, |before| - |Buffer(before)|);
        assert Buffer(text) == Buffer(before) + [last];
      } else {
        assert Buffer(text) == [];
      }
    }
  }

  /** The last line of a text goes on with the next byte that is not a newline. */
  lemma LineGrows(before: seq<Byte>, last: Byte, a: int)
    requires IsLine(before, a, |before|) && last != NEWLINE
    ensures IsLine(before + [last], a, |before| + 1) && (before + [last])[a..] == before[a..] + [last]
  {
    var text := before + [last];
    assert a > 0 ==> text[a - 1] == before[a - 1];
    assert forall i :: a <= i < |before| ==> text[i] == before[i];
  }

  /** A line that ends at the end of the text is the unfinished one. */
  lemma LastLineIsBuffer(text: seq<Byte>, a: int)
    requires IsLine(text, a, |text|)
    ensures text[a..] == Buffer(text)
  {
    BufferIsLastLine(text);
    var c := |text| - |Buffer(text)|;
    assert a == c;
  }

  /** Finished lines of a text are lines of the text with one more byte, and the other way round. */
  lemma LineOfLonger(before: seq<Byte>, last: Byte, a: int, b: int)
    requires b < |before|
    ensures IsLine(before, a, b) <==> IsLine(before + [last], a, b)
    ensures 0 <= a <= b ==> (before + [last])[a..b] == before[a..b]
  {
    var text := before + [last];
    assert forall i :: 0 <= i < |before| ==> text[i] == before[i];
    if 0 <= a <= b {
      assert text[a..b] == before[a..b];
    }
  }

  ghost predicate FinishedLineReports(lib: Library, text: seq<Byte>) {
    exists a, b :: IsLine(text, a, b) && b < |text| && LineReports(lib, text[a..b])
  }

  lemma {:induction false} LatchedIsFinishedLine(lib: Library, text: seq<Byte>)
    ensures Latched(lib, text) <==> FinishedLineReports(lib, text)
  {
    if text != [] {
      var before, last := text[..|text| - 1], text[|text| - 1];
      assert text == before + [last];
      LatchedIsFinishedLine(lib, before);
      if Latched(lib, text) {
        LatchedHasLine(lib, before, last);
      }
      if FinishedLineReports(lib, text) {
        var a, b :| IsLine(text, a, b) && b < |text| && LineReports(lib, text[a..b]);
        LineLatches(lib, before, last, a, b);
      }
    }
  }

  lemma LatchedHasLine(lib: Library, before: seq<Byte>, last: Byte)
    requires Latched(lib, before) <==> FinishedLineReports(lib, before)
    requires Latched(lib, before) || (last == NEWLINE && LineReports(lib, Buffer(before)))
    ensures FinishedLineReports(lib, before + [last])
  {
    var text := before + [last];
    if Latched(lib, before) {
      var a, b :| IsLine(before, a, b) && b < |before| && LineReports(lib, before[a..b]);
      LineOfLonger(before, last, a, b);
      assert IsLine(text, a, b) && LineReports(lib, text[a..b]);
    } else {
      BufferIsLastLine(before);
      var a := |before| - |Buffer(before)|;
      assert text[a..|before|] == before[a..];
      assert a > 0 ==> text[a - 1] == before[a - 1];
      assert IsLine(text, a, |before|) && LineReports(lib, text[a..|before|]);
    }
  }

  lemma LineLatches(lib: Library, before: seq<Byte>, last: Byte, a: int, b: int)
    requires Latched(lib, before) <==> FinishedLineReports(lib, before)
    requires IsLine(before + [last], a, b) && b <= |before| && LineReports(lib, (before + [last])[a..b])
    ensures Latched(lib, before) || (last == NEWLINE && LineReports(lib, Buffer(before)))
  {
    var text := before + [last];
    if b < |before| {
      LineOfLonger(before, last, a, b);
      assert IsLine(before, a, b) && LineReports(lib, before[a..b]);
    } else {
      assert text[a..b] == before[a..];
      assert a > 0 ==> text[a - 1] == before[a - 1];
      assert IsLine(before, a, |before|);
      LastLineIsBuffer(before, a);
    }
  }

  /** What is latched once the unfinished line, if there is any of it, has been looked at too. */
  predicate LatchedInAll(lib: Library, text: seq<Byte>) {
    Latched(lib, text) || (Buffer(text) != [] && LineReports(lib, Buffer(text)))
  }

  lemma LatchedComesFromLine(lib: Library, text: seq<Byte>)
    requires LatchedInAll(lib, text)
    ensures SomeLineReports(lib, text)
  {
    if Latched(lib, text) {
      LatchedIsFinishedLine(lib, text);
    } else {
      BufferIsLastLine(text);
      var a := |text| - |Buffer(text)|;
      assert text[a..|text|] == text[a..];
      assert IsLine(text, a, |text|) && LineReports(lib, text[a..|text|]);
    }
  }

  lemma LineIsLatched(lib: Library, text: seq<Byte>, a: int, b: int)
    requires lib.Valid() && IsLine(text, a, b) && LineReports(lib, text[a..b])
    ensures LatchedInAll(lib, text)
  {
    if b < |text| {
      LatchedIsFinishedLine(lib, text);
    } else {
      LastLineIsBuffer(text, a);
      assert text[a..b] == text[a..];
      NothingReportsNothing(lib);
    }
  }

  lemma NothingReportsNothing(lib: Library)
    requires lib.Valid()
    ensures !LineReports(lib, [])
  {
  }

  /** Looking at every finished line, and at the unfinished one if there is any of it, covers every line. */
  lemma AllLinesInspected(lib: Library, text: seq<Byte>)
    requires lib.Valid()
    ensures LatchedInAll(lib, text) <==> SomeLineReports(lib, text)
  {
    if LatchedInAll(lib, text) {
      LatchedComesFromLine(lib, text);
    }
    if SomeLineReports(lib, text) {
      var a, b :| IsLine(text, a, b) && LineReports(lib, text[a..b]);
      LineIsLatched(lib, text, a, b);
    }
  }

  /** The bytes of an ASCII text. */
  function Ascii(s: string): seq<int> {
    seq(|s|, i requires 0 <= i < |s| => s[i] as int)
  }

  /** A line is `data:` and a payload, around which there may be space; the payload is not empty and reports an error. */
  ghost predicate ErrorLine(lib: Library, line: seq<Byte>) {
    exists payload: seq<Byte> :: lib.trim(line) == Ascii("data:") + payload && lib.trim(payload) != [] && lib.reports(lib.trim(payload))
  }

  lemma DataIsAscii()
    ensures DATA == Ascii("data:")
  {
    assert |"data:"| == 5 && "data:"[0] == 'd' && "data:"[1] == 'a' && "data:"[2] == 't' && "data:"[3] == 'a' && "data:"[4] == ':';
    assert Ascii("data:") == [100, 97, 116, 97, 58];
  }

  lemma ErrorLineIff(lib: Library, line: seq<Byte>)
    ensures LineReports(lib, line) <==> ErrorLine(lib, line)
  {
    DataIsAscii();
    var trimmed := lib.trim(line);
    if LineReports(lib, line) {
      assert trimmed == Ascii("data:") + trimmed[|DATA|..];
    }
    if payload: seq<Byte> :| trimmed == Ascii("data:") + payload && lib.trim(payload) != [] && lib.reports(lib.trim(payload)) {
      assert trimmed[|DATA|..] == payload && trimmed[..|DATA|] == DATA;
    }
  }

  ghost predicate HasErrorLine(lib: Library, text: seq<Byte>) {
    exists a, b :: IsLine(text, a, b) && ErrorLine(lib, text[a..b])
  }

  /** The first 256 KiB have a line that reports an error, or report one as a whole. */
  ghost predicate ErrorIn(lib: Library, response: seq<Byte>) {
    var text := if |response| <= 256 * 1024 then response else response[..256 * 1024];
    HasErrorLine(lib, text) || lib.reports(lib.trim(text))
  }

  lemma ErrorInIff(lib: Library, response: seq<Byte>)
    ensures ReportsError(lib, response) <==> ErrorIn(lib, response)
  {
    SomeLineIff(lib, Prefix(response));
  }

  lemma SomeLineIff(lib: Library, text: seq<Byte>)
    ensures SomeLineReports(lib, text) <==> HasErrorLine(lib, text)
  {
    if SomeLineReports(lib, text) {
      var a, b :| IsLine(text, a, b) && LineReports(lib, text[a..b]);
      ErrorLineIff(lib, text[a..b]);
      assert IsLine(text, a, b) && ErrorLine(lib, text[a..b]);
    }
    if HasErrorLine(lib, text) {
      var a, b :| IsLine(text, a, b) && ErrorLine(lib, text[a..b]);
      ErrorLineIff(lib, text[a..b]);
      assert IsLine(text, a, b) && LineReports(lib, text[a..b]);
    }
  }

  lemma OneMore(before: seq<Byte>, body: seq<Byte>, i: nat)
    requires i < |body|
    ensures var text := before + body[..i + 1];
            text != [] && text[..|text| - 1] == before + body[..i] && text[|text| - 1] == body[i]
  {
    assert body[..i + 1] == body[..i] + [body[i]];
    assert before + body[..i + 1] == (before + body[..i]) + [body[i]];
  }

  // ---------- the object ----------

  class Inspector {
    const lib: Library
    var inspectedBytes: nat
    var jsonCapture: seq<Byte>
    var sseLineBuffer: seq<Byte>
    var latchedError: bool
    var finalized: bool
    /** Everything written before the verdict was asked for. */
    ghost var written: seq<Byte>

    ghost predicate Valid()
      reads this
    {
      && lib.Valid()
      && jsonCapture == Prefix(written) && inspectedBytes == |jsonCapture|
      && sseLineBuffer == Buffer(jsonCapture)
      && (!finalized ==> latchedError == Latched(lib, jsonCapture))
      && (finalized ==> latchedError == ReportsError(lib, written))
    }

    constructor (library: Library)
      requires library.Valid()
      ensures Valid() && lib == library && written == [] && !finalized
    {
      lib := library;
      inspectedBytes, jsonCapture, sseLineBuffer, latchedError, finalized := 0, [], [], false, false;
      written := [];
    }

    method InspectSSELine(line: seq<Byte>)
      modifies this`latchedError
      ensures latchedError == (old(latchedError) || LineReports(lib, line))
    {
      if latchedError {
        return;
      }
      var trimmed := lib.trim(line);
      if |trimmed| < |DATA| || trimmed[..|DATA|] != DATA {
        return;
      }
      var payload := lib.trim(trimmed[|DATA|..]);
      if |payload| > 0 && lib.reports(payload) {
        latchedError := true;
      }
    }

    /** The byte loop: `before` is what was looked at already. */
    method ScanLines(ghost before: seq<Byte>, body: seq<Byte>)
      requires sseLineBuffer == Buffer(before) && latchedError == Latched(lib, before)
      modifies this`sseLineBuffer, this`latchedError
      ensures sseLineBuffer == Buffer(before + body) && latchedError == Latched(lib, before + body)
    {
      var i := 0;
      assert before + body[..0] == before;
      while i < |body|
        invariant 0 <= i <= |body|
        invariant sseLineBuffer == Buffer(before + body[..i])
        invariant latchedError == Latched(lib, before + body[..i])
      {
        OneMore(before, body, i);
        if body[i] == NEWLINE {
          InspectSSELine(sseLineBuffer);
          sseLineBuffer := [];
        } else {
          sseLineBuffer := sseLineBuffer + [body[i]];
        }
        i := i + 1;
      }
      assert body[..i] == body;
    }

    /** One more chunk of the response. */
    method Inspect(body: seq<Byte>)
      requires Valid()
      modifies this
      ensures Valid() && finalized == old(finalized)
      ensures written == if finalized then old(written) else old(written) + body
    {
      if finalized {
        return;
      }
      var remaining := MAX_INSPECTED - inspectedBytes;
      var taken := if |body| > remaining then body[..remaining] else body;
      ScanLines(jsonCapture, taken);
      inspectedBytes := inspectedBytes + |taken|;
      jsonCapture := jsonCapture + taken;
      written := written + body;
      assert jsonCapture == Prefix(written);
    }

    method Finalize()
      requires Valid()
      modifies this
      ensures Valid() && finalized && written == old(written)
    {
      if finalized {
        return;
      }
      AllLinesInspected(lib, jsonCapture);
      finalized := true;
      if |sseLineBuffer| > 0 {
        InspectSSELine(sseLineBuffer);
      }
      if !latchedError && lib.reports(lib.trim(jsonCapture)) {
        latchedError := true;
      }
    }

    /** The verdict on everything written before it was first asked for. */
    method ToolError() returns (r: bool)
      requires Valid()
      modifies this
      ensures Valid() && finalized && written == old(written)
      ensures r == ReportsError(lib, written)
    {
      Finalize();
      r := latchedError;
    }
  }

  function Concat(chunks: seq<seq<Byte>>): seq<Byte> {
    if chunks == [] then [] else Concat(chunks[..|chunks| - 1]) + chunks[|chunks| - 1]
  }

  /** However a response is split into writes, the verdict is the one on its first 256 KiB. */
  method InspectResponse(lib: Library, chunks: seq<seq<Byte>>) returns (r: bool)
    requires lib.Valid()
    ensures r == ReportsError(lib, Concat(chunks))
    ensures r <==> ErrorIn(lib, Concat(chunks))
  {
    ErrorInIff(lib, Concat(chunks));
    var inspector := new Inspector(lib);
    var i := 0;
    while i < |chunks|
      invariant 0 <= i <= |chunks|
      invariant inspector.Valid() && !inspector.finalized && inspector.written == Concat(chunks[..i])
    {
      assert chunks[..i + 1][..i] == chunks[..i];
      inspector.Inspect(chunks[i]);
      i := i + 1;
    }
    assert chunks[..i] == chunks;
    r := inspector.ToolError();
  }
}
