/** The encrypted diagnostic log: one authenticated envelope a line. */
module EncryptedLog {
  import opened Wrappers
  import opened Base64

  const NONCE_BYTES := 12
  const TAG_BYTES := 16
  const PREFIX := "MLLOG1 "

  /** AES-GCM under the log key: `seal` gives ciphertext and tag, `open` undoes it or refuses. */
  datatype Aead = Aead(seal: (seq<Byte>, string) -> seq<Byte>, open: (seq<Byte>, seq<Byte>) -> Option<string>)

  ghost predicate Faithful(aead: Aead) {
    forall nonce: seq<Byte>, text: string ::
      |aead.seal(nonce, text)| >= TAG_BYTES && aead.open(nonce, aead.seal(nonce, text)) == Some(text)
  }

  datatype LogError = MissingPrefix | NotBase64 | TooShort | NotAuthentic | EmptyRecord | SinkClosed

  function EncryptLogRecord(text: string, aead: Aead, nonce: seq<Byte>): string {
    PREFIX + Encode(nonce + aead.seal(nonce, text)) + "\n"
  }

  function StripLineEnd(s: string): string {
    if s != "" && (s[|s| - 1] == '\n' || s[|s| - 1] == '\r') then StripLineEnd(s[..|s| - 1]) else s
  }

  function DecryptLogRecord(envelope: string, aead: Aead): Result<string, LogError> {
    var line := StripLineEnd(envelope);
    if !(PREFIX <= line) then Err(MissingPrefix)
    else if !Shape(line[|PREFIX|..]) then Err(NotBase64)
    else
      var payload := Decode(line[|PREFIX|..]);
      if |payload| < NONCE_BYTES + TAG_BYTES then Err(TooShort)
      else match aead.open(payload[..NONCE_BYTES], payload[NONCE_BYTES..])
           case Some(text) => Ok(text)
           case None => Err(NotAuthentic)
  }

  /** bytes.splitlines(): a line ends at \n, \r or \r\n, and the last end starts no new line. */
  function SplitLines(s: string, line: string): (lines: seq<string>)
    decreases |s|
  {
    if s == "" then if line == "" then [] else [line]
    else if s[0] == '\r' && |s| > 1 && s[1] == '\n' then [line] + SplitLines(s[2..], "")
    else if s[0] == '\r' || s[0] == '\n' then [line] + SplitLines(s[1..], "")
    else SplitLines(s[1..], line + [s[0]])
  }

  /** The records of the lines, or the first error. */
  function Records(lines: seq<string>, aead: Aead): Result<seq<string>, LogError> {
    if lines == [] then Ok([])
    else if lines[0] == "" then Err(EmptyRecord)
    else match DecryptLogRecord(lines[0], aead)
         case Err(e) => Err(e)
         case Ok(text) =>
           match Records(lines[1..], aead)
           case Err(e) => Err(e)
           case Ok(rest) => Ok([text] + rest)
  }

  ghost predicate Plain(line: string) {
    forall i :: 0 <= i < |line| ==> line[i] != '\n' && line[i] != '\r'
  }

  lemma {:induction false} RecordRoundTrip(text: string, aead: Aead, nonce: seq<Byte>)
    requires Faithful(aead) && |nonce| == NONCE_BYTES
    ensures DecryptLogRecord(EncryptLogRecord(text, aead, nonce), aead) == Ok(text)
    ensures DecryptLogRecord(PREFIX + Encode(nonce + aead.seal(nonce, text)), aead) == Ok(text)
  {
    var payload := nonce + aead.seal(nonce, text);
    DecodeEncode(payload);
    var line := PREFIX + Encode(payload);
    StripsOneEnd(payload);
    assert line[|PREFIX|..] == Encode(payload);
    assert payload[..NONCE_BYTES] == nonce && payload[NONCE_BYTES..] == aead.seal(nonce, text);
  }

  lemma {:induction false} StripsOneEnd(payload: seq<Byte>)
    ensures StripLineEnd(PREFIX + Encode(payload)) == PREFIX + Encode(payload)
    ensures StripLineEnd(PREFIX + Encode(payload) + "\n") == PREFIX + Encode(payload)
  {
    var line := PREFIX + Encode(payload);
    LineIsPlain(payload);
    assert line[|line| - 1] != '\n';
    assert (line + "\n")[..|line|] == line;
  }

  lemma {:induction false} LineIsPlain(payload: seq<Byte>)
    ensures Plain(PREFIX + Encode(payload))
  {
    hide Encode, Decode, Shape, Value;
    DecodeEncode(payload);
    var encoded := Encode(payload);
    ShapeHasNoSpace(encoded);
    assert PREFIX == ['M', 'L', 'L', 'O', 'G', '1', ' '];
    var line := PREFIX + encoded;
    forall i | 0 <= i < |line|
      ensures line[i] != '\n' && line[i] != '\r'
    {
      assert i >= 7 ==> line[i] == encoded[i - 7];
    }
  }

  lemma {:induction false} SplitLineOff(line: string, before: string, rest: string)
    requires Plain(line)
    ensures SplitLines(line + "\n" + rest, before) == [before + line] + SplitLines(rest, "")
    decreases |line|
  {
    var s := line + "\n" + rest;
    if line == "" {
      assert s[1..] == rest && before + line == before;
    } else {
      SplitLineOff(line[1..], before + [line[0]], rest);
      assert s[1..] == line[1..] + "\n" + rest;
      assert before + [line[0]] + line[1..] == before + line;
    }
  }

  /** Whole lines of a file, then more. */
  ghost predicate WholeLines(s: string) {
    forall rest: string :: SplitLines(s + rest, "") == SplitLines(s, "") + SplitLines(rest, "")
  }

  lemma {:induction false} EmptyFileIsWhole()
    ensures WholeLines("") && SplitLines("", "") == []
  {
    forall rest: string
      ensures SplitLines("" + rest, "") == SplitLines("", "") + SplitLines(rest, "")
    {
      assert "" + rest == rest;
    }
  }

  lemma {:induction false} RecordsAppend(lines: seq<string>, line: string, aead: Aead, text: string)
    requires Records(lines, aead).Ok? && line != "" && DecryptLogRecord(line, aead) == Ok(text)
    ensures Records(lines + [line], aead) == Ok(Records(lines, aead).value + [text])
  {
    var longer := lines + [line];
    if lines != [] {
      assert longer[0] == lines[0] && longer[1..] == lines[1..] + [line];
      RecordsAppend(lines[1..], line, aead, text);
      var rest := Records(lines[1..], aead).value;
      var first := Records(lines, aead).value[0];
      assert [first] + (rest + [text]) == ([first] + rest) + [text];
    } else {
      assert longer[1..] == [] && longer[0] == line;
      assert [text] + Records([], aead).value == Records([], aead).value + [text];
    }
  }

  lemma {:induction false} AppendRecord(file: string, text: string, aead: Aead, nonce: seq<Byte>)
    requires Faithful(aead) && |nonce| == NONCE_BYTES && WholeLines(file) && Records(SplitLines(file, ""), aead).Ok?
    ensures var longer := file + EncryptLogRecord(text, aead, nonce);
            && WholeLines(longer)
            && Records(SplitLines(longer, ""), aead) == Ok(Records(SplitLines(file, ""), aead).value + [text])
  {
    hide Records, DecryptLogRecord, EncryptLogRecord, SplitLines;
    var payload := nonce + aead.seal(nonce, text);
    var line := PREFIX + Encode(payload);
    LineIsPlain(payload);
    AppendLine(file, line);
    RecordRoundTrip(text, aead, nonce);
    RecordsAppend(SplitLines(file, ""), line, aead, text);
    EnvelopeIsLine(text, aead, nonce);
  }

  lemma {:induction false} EnvelopeIsLine(text: string, aead: Aead, nonce: seq<Byte>)
    ensures EncryptLogRecord(text, aead, nonce) == PREFIX + Encode(nonce + aead.seal(nonce, text)) + "\n"
  {
  }

  lemma {:induction false} AppendLine(file: string, line: string)
    requires WholeLines(file) && Plain(line)
    ensures WholeLines(file + (line + "\n")) && SplitLines(file + (line + "\n"), "") == SplitLines(file, "") + [line]
  {
    hide SplitLines;
    var longer := file + (line + "\n");
    SplitLineOff(line, "", "");
    EmptyFileIsWhole();
    assert line + "\n" + "" == line + "\n" && "" + line == line;
    assert SplitLines(longer, "") == SplitLines(file, "") + [line];
    forall rest: string
      ensures SplitLines(longer + rest, "") == SplitLines(longer, "") + SplitLines(rest, "")
    {
      assert "" + line == line;
      SplitLineOff(line, "", rest);
      assert longer + rest == file + (line + "\n" + rest);
    }
  }

  /** A log whose lines are all there and that this key can read. */
  ghost predicate Readable(file: string, aead: Aead) {
    WholeLines(file) && Records(SplitLines(file, ""), aead).Ok?
  }

  /** The file opened for appending; `draws` are the nonces the system will give. */
  class LogSink {
    const aead: Aead
    ghost const start: string
    var file: string
    var closed: bool
    var draws: seq<seq<Byte>>
    ghost var written: seq<string>

    ghost predicate Valid()
      reads this
    {
      && Faithful(aead) && (forall k :: 0 <= k < |draws| ==> |draws[k]| == NONCE_BYTES)
      && start <= file
      && (Readable(start, aead) ==> ReadsAs(Records(SplitLines(start, ""), aead).value + written))
    }

    ghost predicate ReadsAs(texts: seq<string>)
      reads this
    {
      WholeLines(file) && Records(SplitLines(file, ""), aead) == Ok(texts)
    }

    /** Opened on whatever is in the file. */
    constructor (aead: Aead, draws: seq<seq<Byte>>, file: string)
      requires Faithful(aead) && forall k :: 0 <= k < |draws| ==> |draws[k]| == NONCE_BYTES
      ensures Valid() && !closed && this.file == start == file && this.aead == aead && this.draws == draws
      ensures written == []
    {
      this.aead, this.draws, start := aead, draws, file;
      this.file, closed, written := file, false, [];
      new;
      if Readable(start, aead) {
        var before := Records(SplitLines(start, ""), aead).value;
        assert before + [] == before;
      }
    }

    /** What was in a readable file and whatever has been written reads back line by line, whatever the
        messages hold; what was there before stays in any case. */
    method Write(message: string) returns (problem: Option<LogError>)
      requires Valid() && draws != []
      modifies this
      ensures Valid()
      ensures problem == if old(closed) then Some(SinkClosed) else None
      ensures written == old(written) + (if old(closed) then [] else [message])
      ensures old(file) <= file && (old(closed) ==> file == old(file))
      ensures closed == old(closed)
    {
      if closed { return Some(SinkClosed); }
      hide SplitLines, Records, WholeLines, Faithful, EncryptLogRecord;
      if Readable(start, aead) {
        AppendRecord(file, message, aead, draws[0]);
        var before := Records(SplitLines(start, ""), aead).value;
        assert before + (written + [message]) == before + written + [message];
      }
      file := file + EncryptLogRecord(message, aead, draws[0]);
      draws := draws[1..];
      written := written + [message];
      return None;
    }

    method Close()
      requires Valid()
      modifies this
      ensures Valid() && closed && file == old(file) && written == old(written)
    {
      closed := true;
    }
  }

  method DecryptLogRecords(file: string, aead: Aead) returns (r: Result<seq<string>, LogError>)
    ensures r == Records(SplitLines(file, ""), aead)
  {
    var lines := SplitLines(file, "");
    var records: seq<string> := [];
    assert lines[0..] == lines && forall more: seq<string> :: [] + more == more;
    for i := 0 to |lines|
      invariant Records(lines, aead) == Onto(records, Records(lines[i..], aead))
    {
      assert lines[i..][1..] == lines[i + 1..];
      if lines[i] == "" { return Err(EmptyRecord); }
      var record := DecryptLogRecord(lines[i], aead);
      if record.Err? { return Err(record.error); }
      OntoNext(records, record.value, Records(lines[i + 1..], aead));
      records := records + [record.value];
    }
    assert records + [] == records;
    return Ok(records);
  }

  ghost function Onto(records: seq<string>, rest: Result<seq<string>, LogError>): Result<seq<string>, LogError> {
    match rest case Ok(more) => Ok(records + more) case Err(e) => Err(e)
  }

  lemma {:induction false} OntoNext(records: seq<string>, text: string, rest: Result<seq<string>, LogError>)
    ensures Onto(records, Onto([text], rest)) == Onto(records + [text], rest)
  {
    if rest.Ok? {
      assert records + ([text] + rest.value) == records + [text] + rest.value;
    }
  }

  // ---------- lines and records that are refused ----------

  /** splitlines(): a line ends at a line feed, a carriage return, or the two together; the last may have no end. */
  lemma {:induction false} LineEnds(line: string, end: string, rest: string)
    requires Plain(line) && end in {"\n", "\r", "\r\n"} && (end == "\r" ==> rest == "" || rest[0] != '\n')
    ensures SplitLines(line + end + rest, "") == [line] + SplitLines(rest, "")
    ensures SplitLines(line, "") == if line == "" then [] else [line]
  {
    LineEndsAfter(line, end, rest, "");
    assert "" + line == line;
  }

  lemma {:induction false} LineEndsAfter(line: string, end: string, rest: string, before: string)
    requires Plain(line) && end in {"\n", "\r", "\r\n"} && (end == "\r" ==> rest == "" || rest[0] != '\n')
    ensures SplitLines(line + end + rest, before) == [before + line] + SplitLines(rest, "")
    ensures SplitLines(line, before) == if before + line == "" then [] else [before + line]
    decreases |line|
  {
    var s := line + end + rest;
    if line == "" {
      assert before + line == before && s == end + rest && s[|end|..] == rest;
      if end == "\r\n" {
        assert s[0] == '\r' && s[1] == '\n' && s[2..] == rest;
      }
    } else {
      LineEndsAfter(line[1..], end, rest, before + [line[0]]);
      assert s[1..] == line[1..] + end + rest && before + [line[0]] + line[1..] == before + line;
    }
  }

  /** Any number of line ends after a record are dropped. */
  lemma {:induction false} EndsAreDropped(line: string, ends: string, aead: Aead)
    requires forall i :: 0 <= i < |ends| ==> ends[i] in {'\n', '\r'}
    ensures DecryptLogRecord(line + ends, aead) == DecryptLogRecord(line, aead)
  {
    DropEnds(line, ends);
    hide DecryptLogRecord;
    assert StripLineEnd(line + ends) == StripLineEnd(line);
    SameRecord(line + ends, line, aead);
  }

  lemma {:induction false} SameRecord(a: string, b: string, aead: Aead)
    requires StripLineEnd(a) == StripLineEnd(b)
    ensures DecryptLogRecord(a, aead) == DecryptLogRecord(b, aead)
  {
  }

  lemma {:induction false} DropEnds(line: string, ends: string)
    requires forall i :: 0 <= i < |ends| ==> ends[i] in {'\n', '\r'}
    ensures StripLineEnd(line + ends) == StripLineEnd(line)
  {
    if ends == "" {
      assert line + ends == line;
    } else {
      assert (line + ends)[..|line + ends| - 1] == line + ends[..|ends| - 1];
      DropEnds(line, ends[..|ends| - 1]);
    }
  }

  /** A record is opened exactly if it has room for nonce and tag and the key fits; what is refused, and why. */
  lemma {:induction false} OpensExactly(payload: seq<Byte>, aead: Aead)
    ensures DecryptLogRecord("MLLOG1 " + Encode(payload), aead) ==
      if |payload| < 28 then Err(TooShort)
      else match aead.open(payload[..12], payload[12..]) case Some(text) => Ok(text) case None => Err(NotAuthentic)
  {
    DecodeEncode(payload);
    StripsOneEnd(payload);
    assert (PREFIX + Encode(payload))[|PREFIX|..] == Encode(payload);
  }

  /** A line that begins otherwise is no record, and neither is one that goes on in no Base64. */
  lemma {:induction false} OthersAreRefused(line: string, aead: Aead)
    requires line == "" || line[|line| - 1] !in {'\n', '\r'}
    ensures !("MLLOG1 " <= line) ==> DecryptLogRecord(line, aead) == Err(MissingPrefix)
    ensures "MLLOG1 " <= line && !Shape(line[7..]) ==> DecryptLogRecord(line, aead) == Err(NotBase64)
  {
  }
}
