/** How the HTTPS listener passes bodies on: requests by length, responses in chunks. */
module BodyRelay {
  import opened Wrappers

  /** A stream of octets, written as characters. */
  type Octets = seq<char>

  const CHUNK_BYTES := 64 * 1024

  // ---------- chunked framing, section 7.1 of RFC 9112 ----------

  function HexDigit(n: nat): char
    requires n < 16
  {
    if n < 10 then '0' + n as char else 'A' + (n - 10) as char
  }

  function DigitValue(c: char): Option<nat> {
    if '0' <= c <= '9' then Some((c - '0') as int)
    else if 'A' <= c <= 'F' then Some((c - 'A') as int + 10)
    else if 'a' <= c <= 'f' then Some((c - 'a') as int + 10)
    else None
  }

  /** f'{n:X}' */
  function Hex(n: nat): (s: Octets)
    ensures s != []
  {
    if n < 16 then [HexDigit(n)] else Hex(n / 16) + [HexDigit(n % 16)]
  }

  /** chunk-size: the digits at the start, and what follows them. */
  function ReadHex(s: Octets, value: nat): (nat, Octets) {
    if s != [] && DigitValue(s[0]).Some? then ReadHex(s[1..], value * 16 + DigitValue(s[0]).value) else (value, s)
  }

  const CRLF: Octets := ['\r', '\n']

  /** A chunked body without extensions or trailers: its content, and the octets after it. */
  function ReadChunked(s: Octets): (r: Option<(Octets, Octets)>)
    ensures r.Some? ==> |r.value.1| < |s|
    decreases |s|
  {
    if s == [] || DigitValue(s[0]).None? then None
    else
      ReadHexShrinks(s, 0);
      var (size, rest) := ReadHex(s, 0);
      if !(CRLF <= rest) then None
      else if size == 0 then if CRLF <= rest[2..] then Some(([], rest[4..])) else None
      else if |rest| < size + 4 || rest[size + 2..size + 4] != CRLF then None
      else match ReadChunked(rest[size + 4..])
           case None => None
           case Some((later, after)) => Some((rest[2..size + 2] + later, after))
  }

  lemma {:induction false} ReadHexShrinks(s: Octets, value: nat)
    ensures |ReadHex(s, value).1| <= |s|
    ensures s != [] && DigitValue(s[0]).Some? ==> |ReadHex(s, value).1| < |s|
    decreases |s|
  {
    if s != [] && DigitValue(s[0]).Some? {
      ReadHexShrinks(s[1..], value * 16 + DigitValue(s[0]).value);
    }
  }

  function Chunk(data: Octets): Octets {
    Hex(|data|) + CRLF + data + CRLF
  }

  const LAST_CHUNK: Octets := ['0', '\r', '\n', '\r', '\n']

  function Chunks(parts: seq<Octets>): Octets {
    if parts == [] then [] else Chunk(parts[0]) + Chunks(parts[1..])
  }

  function Joined(parts: seq<Octets>): Octets {
    if parts == [] then [] else parts[0] + Joined(parts[1..])
  }

  lemma {:induction false} HexReads(n: nat, rest: Octets)
    requires rest == [] || DigitValue(rest[0]).None?
    ensures ReadHex(Hex(n) + rest, 0) == (n, rest) && DigitValue(Hex(n)[0]).Some?
  {
    var scale := HexPrefix(n, 0, rest);
  }

  /** Reading goes through the digits of a number and on. */
  lemma {:induction false} HexPrefix(n: nat, value: nat, rest: Octets) returns (scale: nat)
    ensures ReadHex(Hex(n) + rest, value) == ReadHex(rest, value * scale + n)
    ensures scale > 0 && DigitValue(Hex(n)[0]).Some?
    decreases n
  {
    if n < 16 {
      scale := 16;
      assert (Hex(n) + rest)[1..] == rest;
    } else {
      var digit := [HexDigit(n % 16)] + rest;
      scale := HexPrefix(n / 16, value, digit);
      assert Hex(n) + rest == Hex(n / 16) + digit;
      assert digit[1..] == rest;
      var upper := value * scale + n / 16;
      assert upper * 16 + n % 16 == value * (scale * 16) + n;
      scale := scale * 16;
    }
  }

  /** One chunk is read back as its data, whatever follows. */
  lemma {:induction false} ChunkReads(data: Octets, rest: Octets)
    requires data != []
    ensures ReadChunked(Chunk(data) + rest) ==
      match ReadChunked(rest) case None => None case Some((later, after)) => Some((data + later, after))
  {
    var s := Chunk(data) + rest;
    var tail := CRLF + data + CRLF + rest;
    assert s == Hex(|data|) + tail;
    assert tail[0] == '\r';
    HexReads(|data|, tail);
    assert s[0] == Hex(|data|)[0];
    assert ReadHex(s, 0) == (|data|, tail);
    assert CRLF <= tail && tail[|data| + 2..|data| + 4] == CRLF && tail[2..|data| + 2] == data &&
        tail[|data| + 4..] == rest;
  }

  /** The relayed response is a complete chunked body: it ends itself and leaves what follows alone. */
  lemma {:induction false} RelayDecodes(parts: seq<Octets>, rest: Octets)
    requires forall i :: 0 <= i < |parts| ==> parts[i] != []
    ensures ReadChunked(Chunks(parts) + LAST_CHUNK + rest) == Some((Joined(parts), rest))
  {
    if parts == [] {
      LastReads(rest);
      assert Chunks(parts) + LAST_CHUNK + rest == LAST_CHUNK + rest;
    } else {
      var more := Chunks(parts[1..]) + LAST_CHUNK + rest;
      RelayDecodes(parts[1..], rest);
      ChunkReads(parts[0], more);
      assert Chunks(parts) + LAST_CHUNK + rest == Chunk(parts[0]) + more;
    }
  }

  lemma {:induction false} LastReads(rest: Octets)
    ensures ReadChunked(LAST_CHUNK + rest) == Some(([], rest))
  {
    var s := LAST_CHUNK + rest;
    assert s[0] == '0' && s[1] == '\r';
    assert ReadHex(s, 0) == ReadHex(s[1..], 0);
    assert ReadHex(s[1..], 0) == (0, s[1..]);
    assert s[1..][2..] == s[3..] && s[1..][4..] == rest;
    assert s[1..3] == CRLF && s[3..5] == CRLF;
  }

  predicate AllDigits(s: Octets) {
    forall i :: 0 <= i < |s| ==> DigitValue(s[i]).Some?
  }

  lemma {:induction false} HexIsDigits(n: nat)
    ensures AllDigits(Hex(n))
  {
    if n >= 16 {
      HexIsDigits(n / 16);
    }
  }

  lemma {:induction false} DigitsReadOut(s: Octets, value: nat)
    requires AllDigits(s)
    ensures ReadHex(s, value).1 == []
    decreases |s|
  {
    if s != [] {
      DigitsReadOut(s[1..], value * 16 + DigitValue(s[0]).value);
    }
  }

  /** A chunk cut anywhere inside cannot be read. */
  lemma {:induction false} PartOfChunk(data: Octets, k: nat)
    requires data != [] && k < |Chunk(data)|
    ensures ReadChunked(Chunk(data)[..k]) == None
  {
    var digits := Hex(|data|);
    HexIsDigits(|data|);
    if k <= |digits| {
      assert Chunk(data)[..k] == digits[..k];
      DigitsReadOut(digits[..k], 0);
    } else {
      var tail := (CRLF + data + CRLF)[..k - |digits|];
      assert Chunk(data)[..k] == digits + tail && tail[0] == '\r';
      HexReads(|data|, tail);
      assert (digits + tail)[0] == digits[0];
    }
  }

  lemma {:induction false} PartOfLast(k: nat)
    requires k < |LAST_CHUNK|
    ensures ReadChunked(LAST_CHUNK[..k]) == None
  {
    var s := LAST_CHUNK[..k];
    if k > 0 {
      assert s[0] == '0' && s[1..] == LAST_CHUNK[1..k];
      assert k > 1 ==> s[1..][0] == '\r';
      assert ReadHex(s, 0) == ReadHex(s[1..], 0) == (0, s[1..]);
    }
  }

  /** A relayed body cut short, between chunks or inside one, is no complete body: a reader cannot take
      it for one. */
  lemma {:induction false} CutShortIsIncomplete(parts: seq<Octets>, k: nat)
    requires (forall i :: 0 <= i < |parts| ==> parts[i] != []) && k < |Chunks(parts) + LAST_CHUNK|
    ensures ReadChunked((Chunks(parts) + LAST_CHUNK)[..k]) == None
  {
    hide ReadChunked, Chunk;
    if parts == [] {
      assert Chunks(parts) + LAST_CHUNK == LAST_CHUNK;
      PartOfLast(k);
    } else {
      var first, more := Chunk(parts[0]), Chunks(parts[1..]) + LAST_CHUNK;
      assert Chunks(parts) + LAST_CHUNK == first + more;
      if k < |first| {
        assert (first + more)[..k] == first[..k];
        PartOfChunk(parts[0], k);
      } else {
        assert (first + more)[..k] == first + more[..k - |first|];
        CutShortIsIncomplete(parts[1..], k - |first|);
        ChunkReads(parts[0], more[..k - |first|]);
      }
    }
  }

  lemma {:induction false} BetweenChunks(parts: seq<Octets>)
    requires forall i :: 0 <= i < |parts| ==> parts[i] != []
    ensures ReadChunked(Chunks(parts)) == None
  {
    hide ReadChunked, Chunks;
    CutShortIsIncomplete(parts, |Chunks(parts)|);
    assert (Chunks(parts) + LAST_CHUNK)[..|Chunks(parts)|] == Chunks(parts);
  }

  // ---------- the response ----------

  datatype RelayError = DeadlineExceeded | IncompleteResponse | IncompleteRequest

  /**
   `parts` are the results of read1 before the empty one, `left` the length the upstream still owes
   then, and the deadline passes before read number `deadline`.
   */
  method RelayResponseBody(parts: seq<Octets>, left: Option<nat>, deadline: nat)
    returns (sent: Octets, problem: Option<RelayError>)
    requires forall i :: 0 <= i < |parts| ==> parts[i] != []
    ensures problem.None? <==> deadline > |parts| && (left.Some? ==> left.value == 0)
    ensures problem.None? ==> forall rest :: ReadChunked(sent + rest) == Some((Joined(parts), rest))
    ensures problem.Some? ==> ReadChunked(sent) == None
  {
    sent := [];
    var i := 0;
    while i < |parts|
      invariant 0 <= i <= |parts| && i <= deadline && sent == Chunks(parts[..i])
    {
      if i >= deadline {
        BetweenChunks(parts[..i]);
        return sent, Some(DeadlineExceeded);
      }
      ChunksAppend(parts[..i], parts[i]);
      assert parts[..i + 1] == parts[..i] + [parts[i]];
      sent := sent + (Hex(|parts[i]|) + CRLF + parts[i] + CRLF);
      i := i + 1;
    }
    assert parts[..|parts|] == parts;
    if i >= deadline {
      BetweenChunks(parts);
      return sent, Some(DeadlineExceeded);
    }
    if left.Some? && left.value != 0 {
      BetweenChunks(parts);
      return sent, Some(IncompleteResponse);
    }
    forall rest
      ensures ReadChunked(sent + LAST_CHUNK + rest) == Some((Joined(parts), rest))
    {
      RelayDecodes(parts, rest);
    }
    return sent + LAST_CHUNK, None;
  }

  lemma {:induction false} ChunksAppend(parts: seq<Octets>, data: Octets)
    ensures Chunks(parts + [data]) == Chunks(parts) + Chunk(data)
  {
    if parts == [] {
      assert Chunks([data]) == Chunk(data) + Chunks([]);
    } else {
      ChunksAppend(parts[1..], data);
      assert (parts + [data])[1..] == parts[1..] + [data];
    }
  }

  // ---------- the request ----------

  /** The client's side of the connection; `sizes` is how much each read happens to give. */
  class Source {
    var left: Octets
    var sizes: seq<nat>
    ghost var turns: nat

    constructor (left: Octets, sizes: seq<nat>)
      ensures this.left == left && this.sizes == sizes && turns == 0
    {
      this.left, this.sizes, turns := left, sizes, 0;
    }

    /** Up to `limit` octets, none only at the end of the stream. */
    method Read(limit: nat) returns (data: Octets)
      requires limit > 0
      modifies this
      ensures old(left) == data + left && |data| <= limit && (data == [] <==> old(left) == [])
      ensures turns == old(turns) + 1
    {
      turns := turns + 1;
      var most := if limit < |left| then limit else |left|;
      var n := most;
      if sizes != [] {
        n := if most == 0 then 0 else 1 + sizes[0] % most;
        sizes := sizes[1..];
      }
      data := left[..n];
      left := left[n..];
    }
  }

  /**
   The upstream gets exactly the declared length, or the exchange fails: because the client sent
   less, or because the deadline passed, which it does before read number `deadline`.
   */
  method ExchangeBody(source: Source, contentLength: nat, deadline: nat)
    returns (sent: Octets, problem: Option<RelayError>)
    modifies source
    ensures old(source.left) == sent + source.left && |sent| <= contentLength
    ensures source.turns <= old(source.turns) + deadline
    ensures problem.None? <==> |sent| == contentLength
    ensures problem == Some(IncompleteRequest) ==> source.left == []
    ensures problem.Some? && problem != Some(IncompleteRequest) ==>
      problem == Some(DeadlineExceeded) && source.turns == old(source.turns) + deadline
    ensures contentLength <= deadline ==> (problem.None? <==> contentLength <= |old(source.left)|)
  {
    sent := [];
    var remaining := contentLength;
    var turns := 0;
    while remaining > 0
      invariant remaining >= 0 && |sent| + remaining == contentLength && old(source.left) == sent + source.left
      invariant source.turns == old(source.turns) + turns && turns <= deadline && turns <= |sent|
    {
      if turns >= deadline { return sent, Some(DeadlineExceeded); }
      var data := source.Read(if CHUNK_BYTES < remaining then CHUNK_BYTES else remaining);
      if data == [] { return sent, Some(IncompleteRequest); }
      sent := sent + data;
      remaining := remaining - |data|;
      turns := turns + 1;
    }
    return sent, None;
  }

  // ---------- the size of a chunk ----------

  /** The last digit of a chunk size counts ones, the digits before it sixteens. */
  lemma {:induction false} HexIsBaseSixteen(high: nat, low: nat)
    requires low < 16
    ensures Hex(high * 16 + low) == (if high == 0 then [] else Hex(high)) + ["0123456789ABCDEF"[low]]
    ensures DigitValue("0123456789ABCDEF"[low]) == DigitValue("0123456789abcdef"[low]) == Some(low)
  {
    assert (high * 16 + low) / 16 == high && (high * 16 + low) % 16 == low;
  }

  /** A chunk whose data is not followed by a line end, or whose size is not, is no chunk. */
  lemma {:induction false} WrongFrameIsRefused(data: Octets, rest: Octets)
    requires data != []
    ensures !(CRLF <= rest) ==> ReadChunked(Hex(|data|) + CRLF + data + rest) == None
    ensures !(CRLF <= rest) && (rest == [] || DigitValue(rest[0]).None?) ==> ReadChunked(Hex(|data|) + rest) == None
  {
    var s, tail := Hex(|data|) + CRLF + data + rest, CRLF + data + rest;
    assert s == Hex(|data|) + tail && tail[0] == '\r';
    HexReads(|data|, tail);
    assert s[0] == Hex(|data|)[0] && CRLF <= tail;
    assert |rest| >= 2 ==> tail[|data| + 2..|data| + 4] == rest[..2];
    if rest == [] || DigitValue(rest[0]).None? {
      HexReads(|data|, rest);
      assert (Hex(|data|) + rest)[0] == Hex(|data|)[0];
    }
  }
}
