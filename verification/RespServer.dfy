/**
 The RESP connection: a reader over the incoming bytes and a writer of replies, each with
 scratch buffers that are reused from call to call and whose old contents are arbitrary.
 */
module RespServer {
  import opened Bytes
  import opened Numbers
  import opened InlineArgs
  import opened Multibulk

  /** Expand: at least `n` elements, new ones zero. */
  function Expand<T>(s: seq<T>, n: nat, zero: T): seq<T> {
    if n > |s| then s + seq(n - |s|, i => zero) else s
  }

  /** Overwrite `buf` with `chunk` from `p` on: Go's copy into a slice. */
  function Copy(buf: Str, p: nat, chunk: Str): (r: Str)
    requires p + |chunk| <= |buf|
    ensures |r| == |buf|
  {
    seq(|buf|, i requires 0 <= i < |buf| => if p <= i < p + |chunk| then chunk[i - p] else buf[i])
  }

  // ----- arguments as slices of one buffer

  /** The argument lies before `p` in the buffer, where its bounds say. */
  predicate SliceAt(buf: Str, at: nat, len: nat, arg: Str, p: nat) {
    at + len <= p <= |buf| && |arg| == len && At(buf, at, arg)
  }

  /** The arguments lie in the first `p` bytes of the buffer where the bounds say. */
  ghost predicate Slices(buf: Str, bounds: seq<nat>, args: seq<Str>, p: nat) {
    && |bounds| >= 2 * |args| && p <= |buf|
    && forall j :: 0 <= j < |args| ==> SliceAt(buf, bounds[2 * j], bounds[2 * j + 1], args[j], p)
  }

  /** A new argument at `p` leaves the earlier ones alone, whatever lies behind `p`. */
  lemma {:induction false} SlicesGrow(buf: Str, bounds: seq<nat>, args: seq<Str>, p: nat, buf': Str,
          bounds': seq<nat>, arg: Str)
    requires Slices(buf, bounds, args, p)
    requires p + |arg| <= |buf'| && (forall k :: 0 <= k < p ==> buf'[k] == buf[k]) && At(buf', p, arg)
    requires |bounds'| >= 2 * |args| + 2 && forall k :: 0 <= k < 2 * |args| ==> bounds'[k] == bounds[k]
    requires bounds'[2 * |args|] == p && bounds'[2 * |args| + 1] == |arg|
    ensures Slices(buf', bounds', args + [arg], p + |arg|)
  {
    hide At;
    var all := args + [arg];
    forall j | 0 <= j < |all| ensures SliceAt(buf', bounds'[2 * j], bounds'[2 * j + 1], all[j], p + |arg|) {
      if j < |args| {
        assert SliceAt(buf, bounds[2 * j], bounds[2 * j + 1], args[j], p);
        AtKept(buf, buf', bounds[2 * j], args[j], p);
      }
    }
  }

  // ----- lines

  /** bufio.Reader.ReadSlice('\n'): up to the newline, or a full buffer, or what is left. */
  method ReadSlice(s: Str, i: nat, size: nat) returns (j: nat, e: Option<Error>)
    requires size > 0 && i <= |s|
    ensures
      var k := FindLF(s, i);
      if k < |s| && k - i < size then e == None && j == k + 1
      else if |s| - i >= size then e == Some(BufferFull) && j == i + size && k == FindLF(s, j)
      else e == Some(Eof) && j == |s|
  {
    j := i;
    while j < |s| && j < i + size && s[j] != LF
      invariant i <= j <= |s| && j <= i + size
      invariant FindLF(s, i) == FindLF(s, j)
    {
      j := j + 1;
    }
    if j == i + size {
      e := Some(BufferFull);
    } else if j == |s| {
      e := Some(Eof);
    } else {
      j := j + 1;
      e := None;
    }
  }

  /** collectFragmentsSize: a line of at most maxLen bytes put together from buffer-sized fragments. */
  method CollectFragmentsSize(s: Str, i: nat, size: nat, maxLen: nat) returns (full: Str, j: nat, err: Option<Error>)
    requires size > 0 && i <= |s|
    ensures i <= j <= |s|
    ensures
      var k := FindLF(s, i);
      if k < |s| && k - i < maxLen then err == None && j == k + 1 && full == Sub(s, i, j)
      else err == Some(if |s| - i <= maxLen then Eof else BufferFull)
  {
    hide Sub;
    full, j := [], i;
    assert Sub(s, i, i) == [] by { assert |Sub(s, i, i)| == 0; }
    while true
      invariant i <= j <= |s| && j - i <= maxLen && full == Sub(s, i, j)
      invariant FindLF(s, i) == FindLF(s, j)
      decreases |s| - j
    {
      var from := j;
      var e;
      j, e := ReadSlice(s, from, size);
      var frag := Sub(s, from, j);
      SubSum(s, i, from, j);
      full := full + frag;
      if |full| > maxLen { return full, j, Some(BufferFull); }
      if e != Some(BufferFull) { return full, j, e; }
    }
  }

  /** readShortLine. */
  method ReadLine(s: Str, i: nat, size: nat) returns (line: Str, j: nat, err: Option<Error>)
    requires size > 0 && i <= |s|
    ensures i <= j <= |s|
    ensures
      var want := ReadShortLine(s, i, size);
      if want.NoLine? then err == Some(want.error)
      else err == None && line == Sub(s, i, want.stop) && j == want.at
  {
    hide Sub;
    line, j, err := CollectFragmentsSize(s, i, size, size);
    if err != None { return; }
    var l := |line|;
    if l > 1 {
      SubIndex(s, i, j, l - 2);
      SubTake(s, i, j, l - 2);
    }
    SubTake(s, i, j, l - 1);
    if l > 1 && line[l - 2] == CR {
      line := line[..l - 2];
    } else {
      line := line[..l - 1];
    }
  }

  // ----- inline commands

  /** The quote state that the flags `indq` and `insq` stand for. */
  function QuoteOf(indq: bool, insq: bool): Quote {
    if indq then Double else if insq then Single else Bare
  }

  /** The branches of the inner loop of readArgs, on the byte just read and the bytes peeked at. */
  method Classify(s: Str, i: nat, indq: bool, insq: bool) returns (r: Round)
    requires i < |s|
    ensures r == NextRound(s, i, QuoteOf(indq, insq))
  {
    var c := s[i];
    if indq {
      if c == LF { return Unbalanced; }
      if c == BS {
        if i + 3 < |s| && s[i + 1] == LOWER_X {
          var i0, i1 := HexDigitToInt(s[i + 2]), HexDigitToInt(s[i + 3]);
          HexAgrees(s[i + 2]);
          HexAgrees(s[i + 3]);
          if i0 >= 0 && i1 >= 0 { return Emit(16 * i0 + i1, 4); }
        }
        if i + 1 < |s| { return Emit(Unescape(s[i + 1]), 2); }
      }
      if c == DQ {
        if i + 1 < |s| && SpaceClass(s[i + 1]) == 0 { return Unbalanced; }
        return Close;
      }
      return Emit(c, 1);
    }
    if insq {
      if c == LF { return Unbalanced; }
      if c == BS && i + 1 < |s| && s[i + 1] == SQ { return Emit(SQ, 2); }
      if c == SQ {
        if i + 1 < |s| && SpaceClass(s[i + 1]) == 0 { return Unbalanced; }
        return Close;
      }
      return Emit(c, 1);
    }
    if c == DQ { return Enter(Double); }
    if c == SQ { return Enter(Single); }
    if SpaceClass(c) == 1 || SpaceClass(c) == 2 { return Stop; }
    return Emit(c, 1);
  }

  /** The inner loop of readArgs: one argument for the buffer, which already holds `used` bytes. */
  method ScanArgument(s: Str, i: nat, used: nat, lim: Limits) returns (tok: Str, j: nat, e: Option<Error>)
    requires i <= |s| && used <= lim.buffer
    ensures
      var want := ScanToken(s, i, Bare, [], lim.buffer - used);
      if want.Failed? then e == Some(want.error) else e == None && tok == want.tok && j == want.at
  {
    hide NextRound;
    tok, j, e := [], i, None;
    var indq, insq := false, false;
    ghost var want := ScanToken(s, i, Bare, [], lim.buffer - used);
    while j < |s|
      invariant j <= |s| && used + |tok| <= lim.buffer
      invariant want == ScanToken(s, j, QuoteOf(indq, insq), tok, lim.buffer - used - |tok|)
      decreases |s| - j
    {
      var r := Classify(s, j, indq, insq);
      match r {
        case Unbalanced => return tok, j, Some(UnbalancedQuotes);
        case Stop => return;
        case Close =>
          j := j + 1;
          return;
        case Enter(q) =>
          indq, insq := q.Double?, q.Single?;
          j := j + 1;
        case Emit(c, k) =>
          if used + |tok| + 1 > lim.buffer { return tok, j, Some(BufferFull); }
          tok := tok + [c];
          j := j + k;
      }
    }
  }

  method SkipLeading(s: Str, i: nat) returns (j: nat)
    requires i <= |s|
    ensures j == SkipSpaces(s, i)
  {
    j := i;
    while j < |s| && (SpaceClass(s[j]) == 1 || SpaceClass(s[j]) == 3)
      invariant j <= |s| && SkipSpaces(s, i) == SkipSpaces(s, j)
    {
      j := j + 1;
    }
  }

  lemma {:induction false} TokenFits(s: Str, i: nat, args: seq<Str>, tok: Str, at: nat, lim: Limits)
    requires i < |s| && SpaceClass(s[i]) == 0 && Total(args) <= lim.buffer
    requires ScanToken(s, i, Bare, [], lim.buffer - Total(args)) == Token(tok, at)
    ensures Total(args + [tok]) == Total(args) + |tok| <= lim.buffer && i < at <= |s|
  {
    TotalSnoc(args, tok);
  }

  /** One round of the outer loop of readArgs. */
  lemma {:induction false} TokenConsumed(s: Str, i: nat, args: seq<Str>, tok: Str, at: nat, lim: Limits)
    requires i <= |s| && Total(args) <= lim.buffer
    requires var j := SkipSpaces(s, i);
             && j < |s| && s[j] != LF
             && ScanToken(s, j, Bare, [], lim.buffer - Total(args)) == Token(tok, at)
    ensures Total(args + [tok]) == Total(args) + |tok| <= lim.buffer && i < at <= |s|
    ensures ReadArgs(s, i, args, lim) ==
      if |tok| > lim.bulk then Err(InvalidBulkLength)
      else if |args| + 1 > lim.args then Err(InvalidMultiBulkLength)
      else ReadArgs(s, at, args + [tok], lim)
  {
    hide ScanToken;
    TokenFits(s, SkipSpaces(s, i), args, tok, at, lim);
  }

  /** The outer loop of readArgs: arguments back to back in the buffer, with their bounds. */
  method ReadInline(s: Str, i: nat, lim: Limits)
    returns (j: nat, buffer: Str, bounds: seq<nat>, e: Option<Error>, ghost args: seq<Str>)
    requires i <= |s|
    ensures j <= |s|
    ensures
      var want := ReadArgs(s, i, [], lim);
      if want.Err? then e == Some(want.error)
      else
        && e == None && args == want.args && j == want.at
        && |bounds| == 2 * |args| && Slices(buffer, bounds, args, |buffer|)
  {
    hide ScanToken, SkipSpaces, SliceAt;
    j, buffer, bounds, args := i, [], [], [];
    var argc := 0;
    while true
      invariant j <= |s| && argc == |args| && |bounds| == 2 * argc && |buffer| == Total(args) <= lim.buffer
      invariant Slices(buffer, bounds, args, |buffer|)
      invariant ReadArgs(s, i, [], lim) == ReadArgs(s, j, args, lim)
      decreases |s| - j
    {
      ghost var before := j;
      j := SkipLeading(s, j);
      if j == |s| { return j, buffer, bounds, Some(Eof), args; }
      if s[j] == LF { return j + 1, buffer, bounds, None, args; }
      var tok, at;
      tok, at, e := ScanArgument(s, j, |buffer|, lim);
      if e != None { return; }
      TokenConsumed(s, before, args, tok, at, lim);
      j := at;
      var size := |tok|;
      if size > lim.bulk { return j, buffer, bounds, Some(InvalidBulkLength), args; }
      argc := argc + 1;
      if argc > lim.args { return j, buffer, bounds, Some(InvalidMultiBulkLength), args; }
      buffer, bounds := AppendArgument(buffer, bounds, tok, args);
      args := args + [tok];
    }
  }

  /** The argument and its bounds are appended to the buffers. */
  method AppendArgument(buffer: Str, bounds: seq<nat>, tok: Str, ghost args: seq<Str>)
    returns (buffer': Str, bounds': seq<nat>)
    requires |bounds| == 2 * |args| && Slices(buffer, bounds, args, |buffer|)
    ensures |buffer'| == |buffer| + |tok| && |bounds'| == |bounds| + 2
    ensures Slices(buffer', bounds', args + [tok], |buffer'|)
  {
    buffer' := buffer + tok;
    bounds' := bounds + [|buffer|, |tok|];
    AtPointwise(buffer', |buffer|, tok);
    SlicesGrow(buffer, bounds, args, |buffer|, buffer', bounds', tok);
  }

  // ----- multibulk commands

  /** A chunk without the two bytes that are read after the body. */
  function BodyOf(chunk: Str): Str
    requires |chunk| >= 2
  {
    chunk[..|chunk| - 2]
  }

  /** The body of the bulk loop of next up to the bytes that io.ReadFull delivers. */
  method ReadOneBulk(s: Str, i: nat, used: nat, lim: Limits, size: nat)
    returns (chunk: Str, j: nat, e: Option<Error>)
    requires size > 0 && i <= |s|
    ensures j <= |s|
    ensures
      var want := ReadBulk(s, i, used, lim, size);
      if want.NoBody? then e == Some(want.error)
      else
        && e == None && j == want.from + want.len + 2 && |chunk| == want.len + 2
        && BodyOf(chunk) == Sub(s, want.from, want.from + want.len)
  {
    hide Sub, ReadShortLine;
    var line, at;
    chunk := [];
    line, at, e := ReadLine(s, i, size);
    j := at;
    if e != None { return; }
    ghost var stop := ReadShortLine(s, i, size).stop;
    if |line| > 0 { SubTail(s, i, stop); }
    if |line| == 0 || line[0] != DOLLAR { return chunk, j, Some(ExpectedString); }
    var l := ParseUInt32(line[1..]);
    if l == None || l.value > lim.bulk { return chunk, j, Some(InvalidBulkLength); }
    var len := l.value;
    if used + len + 2 > lim.buffer { return chunk, j, Some(BufferFull); }
    if |s| - at < len + 2 { return chunk, j, Some(Eof); }
    j := at + len + 2;
    chunk := Sub(s, at, j);
    SubTake(s, at, j, len);
  }

  /**
   The bulk loop of next. Every body is read with its two trailing bytes into the buffer at
   `p`, and the next body is read over those two bytes; whatever the buffers held before.
   */
  method ReadMultibulk(s: Str, i: nat, n: nat, staleBuffer: Str, staleBounds: seq<nat>, lim: Limits, size: nat)
    returns (j: nat, buffer: Str, bounds: seq<nat>, e: Option<Error>, ghost args: seq<Str>)
    requires size > 0 && i <= |s| && |staleBounds| >= 2 * n
    ensures j <= |s|
    ensures
      var want := ReadBulks(s, i, n, [], lim, size);
      if want.Err? then e == Some(want.error)
      else e == None && args == want.args && j == want.at && Slices(buffer, bounds, args, Total(args))
  {
    hide ReadBulk, SliceAt, Sub;
    j, buffer, bounds, e, args := i, staleBuffer, staleBounds, None, [];
    var p := 0;
    for k := 0 to n
      invariant j <= |s| && e == None && |args| == k && |bounds| >= 2 * n && p == Total(args)
      invariant Slices(buffer, bounds, args, p)
      invariant ReadBulks(s, i, n, [], lim, size) == ReadBulks(s, j, n - k, args, lim, size)
    {
      var chunk;
      chunk, j, e := ReadOneBulk(s, j, p, lim, size);
      if e != None { return; }
      buffer, bounds := StoreBulk(buffer, bounds, k, p, chunk, args);
      TotalSnoc(args, BodyOf(chunk));
      args := args + [BodyOf(chunk)];
      p := p + (|chunk| - 2);
    }
  }

  /** io.ReadFull into the expanded buffer at `p`, and the bounds of the body without its line ending. */
  method StoreBulk(buffer: Str, bounds: seq<nat>, i: nat, p: nat, chunk: Str, ghost args: seq<Str>)
    returns (buffer': Str, bounds': seq<nat>)
    requires i == |args| && |chunk| >= 2 && Slices(buffer, bounds, args, p) && |bounds| >= 2 * |args| + 2
    ensures |bounds'| == |bounds|
    ensures Slices(buffer', bounds', args + [BodyOf(chunk)], p + |chunk| - 2)
  {
    hide SliceAt, At;
    var wide := Expand(buffer, p + |chunk|, 0);
    buffer' := Copy(wide, p, chunk);
    bounds' := bounds[2 * i := p][2 * i + 1 := |chunk| - 2];
    AtPointwise(buffer', p, BodyOf(chunk));
    SlicesGrow(buffer, bounds, args, p, buffer', bounds', BodyOf(chunk));
  }

  // ----- writing

  /** SanitizeSimpleString: line breaks become spaces. */
  function Sanitized(b: Str): (r: Str)
    ensures |r| == |b| && forall i :: 0 <= i < |r| ==> r[i] != CR && r[i] != LF
  {
    seq(|b|, i requires 0 <= i < |b| => if b[i] == CR || b[i] == LF then SP else b[i])
  }

  /** Digits, and so every header the writers send, pass through unchanged. */
  lemma {:induction false} SanitizedDigits(b: Str)
    requires Digits(b)
    ensures Sanitized(b) == b
  {
    forall i | 0 <= i < |b| ensures Sanitized(b)[i] == b[i] {
      assert IsDigit(b[i]);
    }
  }

  /** The caller's own bytes are rewritten. */
  method SanitizeSimpleString(buf: array<byte>)
    modifies buf
    ensures buf[..] == Sanitized(old(buf[..]))
  {
    hide Sanitized;
    ghost var was := buf[..];
    for i := 0 to buf.Length
      invariant forall j :: 0 <= j < i ==> buf[j] == Sanitized(was)[j]
      invariant forall j :: i <= j < buf.Length ==> buf[j] == was[j]
    {
      SanitizedAt(was, i);
      if buf[i] == CR || buf[i] == LF { buf[i] := SP; }
    }
  }

  lemma {:induction false} SanitizedAt(b: Str, i: nat)
    requires i < |b|
    ensures Sanitized(b)[i] == if b[i] == CR || b[i] == LF then SP else b[i]
  {
  }

  /** The wire form of a typed reply with an optional body. */
  function Frame(c: byte, head: Str, body: Option<Str>): Str {
    [c] + Sanitized(head) + CRLF + (match body case None => [] case Some(b) => b + CRLF)
  }

  /** A status line and a bulk reply, byte for byte: "+O K" for "O", a break and "K"; "$2", then "hi". */
  lemma {:induction false} FrameIs()
    ensures Frame(43, [79, 13, 75], None) == [43, 79, 32, 75, 13, 10]
    ensures Frame(36, [50], Some([104, 105])) == [36, 50, 13, 10, 104, 105, 13, 10]
  {
    assert Sanitized([79, 13, 75]) == [79, 32, 75] && Sanitized([50]) == [50];
  }

  /** Writing at the end of the part already written. */
  lemma {:induction false} CopyAtEnd(buf: Str, p: nat, chunk: Str, done: Str)
    requires p + |chunk| <= |buf| && p == |done| && buf[..p] == done
    ensures Copy(buf, p, chunk)[..p + |chunk|] == done + chunk
  {
    var r := Copy(buf, p, chunk);
    forall k | 0 <= k < p + |chunk| ensures r[k] == (done + chunk)[k] {
      if k < p { assert buf[..p][k] == done[k]; }
    }
  }

  /** writeWithType's copies into the reused reply buffer, whatever it held before. */
  method FillReply(stale: Str, typeByte: byte, head: array<byte>, body: Option<Str>) returns (replyBuf: Str, p: nat)
    modifies head
    ensures head[..] == Sanitized(old(head[..]))
    ensures p <= |replyBuf| && replyBuf[..p] == Frame(typeByte, old(head[..]), body)
  {
    hide Copy, Sanitized;
    ghost var was := head[..];
    var replySize := 1 + head.Length + |CRLF| + (if body == None then 0 else |body.value| + |CRLF|);
    replyBuf := Expand(stale, replySize, 0);
    CopyAtEnd(replyBuf, 0, [typeByte], []);
    replyBuf := Copy(replyBuf, 0, [typeByte]);
    p := 1;
    ghost var done := [typeByte];
    if head.Length > 0 {
      SanitizeSimpleString(head);
      CopyAtEnd(replyBuf, p, head[..], done);
      replyBuf := Copy(replyBuf, p, head[..]);
      p := p + head.Length;
    }
    done := done + Sanitized(was);
    CopyAtEnd(replyBuf, p, CRLF, done);
    replyBuf := Copy(replyBuf, p, CRLF);
    p := p + |CRLF|;
    done := done + CRLF;
    if body != None {
      CopyAtEnd(replyBuf, p, body.value, done);
      replyBuf := Copy(replyBuf, p, body.value);
      p := p + |body.value|;
      CopyAtEnd(replyBuf, p, CRLF, done + body.value);
      replyBuf := Copy(replyBuf, p, CRLF);
      p := p + |CRLF|;
      assert (done + body.value) + CRLF == done + (body.value + CRLF);
    }
  }

  lemma {:induction false} FrameIsHeader(c: byte, n: nat, b: Str)
    ensures Frame(c, Dec(n), None) == Header(c, n)
    ensures Frame(c, Dec(n), Some(b)) == Header(c, n) + (b + CRLF)
  {
    hide Sanitized, Dec;
    DecVal(n);
    SanitizedDigits(Dec(n));
  }

  /** The outgoing side of a connection that accepts `room` more bytes before it fails. */
  datatype Wire = Wire(out: Str, room: nat, failed: bool)

  /** After a failure nothing more is accepted; the write that fails leaves a beginning of its bytes behind. */
  function Send(w: Wire, b: Str): Wire {
    if w.failed then w
    else if |b| <= w.room then Wire(w.out + b, w.room - |b|, false)
    else Wire(w.out + b[..w.room], 0, true)
  }

  /** Several writes, each after the other and none after a failure, are one write of all the bytes. */
  lemma {:induction false} SendTwice(w: Wire, a: Str, b: Str)
    ensures Send(Send(w, a), b) == Send(w, a + b)
  {
    if !w.failed {
      if |a + b| <= w.room {
        assert w.out + a + b == w.out + (a + b);
      } else if |a| <= w.room {
        assert w.out + a + b[..w.room - |a|] == w.out + (a + b)[..w.room];
      } else {
        assert a[..w.room] == (a + b)[..w.room];
      }
    }
  }

  lemma {:induction false} SendFailed(w: Wire, b: Str)
    requires w.failed
    ensures Send(w, b) == w
  {
  }

  lemma {:induction false} SendNothing(w: Wire)
    ensures Send(w, []) == w
  {
    assert w.out + [] == w.out;
  }

  // ----- the connection

  datatype Reply = Args(args: seq<Str>) | Error(error: Error)

  class Server {
    var input: Str            // the bytes of the connection
    var pos: nat              // how many of them have been consumed
    var rerr: Option<Error>
    var argsBuffer: Str
    var argsBounds: seq<nat>
    var argsRefs: seq<Str>
    var writeBuf: Str
    var out: Str              // everything the double buffer has accepted so far
    var room: nat             // how many more bytes it accepts before it fails
    var werr: bool            // a write has failed
    const lim: Limits
    const size: nat           // the size of the bufio.Reader's buffer

    ghost predicate Valid()
      reads this
    {
      pos <= |input| && size > 0
    }

    constructor (input: Str, room: nat, lim: Limits, size: nat)
      requires size > 0
      ensures Valid() && this.input == input && pos == 0 && rerr == None
      ensures out == [] && this.room == room && !werr
      ensures this.lim == lim && this.size == size
    {
      this.input, pos, rerr, out, writeBuf := input, 0, None, [], [];
      argsBuffer, argsBounds, argsRefs := [], [], [];
      this.room, werr := room, false;
      this.lim, this.size := lim, size;
    }

    /** The argument slices are looked up in the buffer; stale references behind them stay. */
    method FillRefs(n: nat, ghost args: seq<Str>, ghost p: nat)
      requires n == |args| && Slices(argsBuffer, argsBounds, args, p)
      modifies this`argsRefs
      ensures argsRefs == args + (if n <= |old(argsRefs)| then old(argsRefs)[n..] else [])
    {
      hide At, Sub;
      argsRefs := Expand(argsRefs, n, []);
      ghost var wide := argsRefs;
      for i := 0 to n
        invariant |argsRefs| == |wide| && forall k :: 0 <= k < i ==> argsRefs[k] == args[k]
        invariant forall k :: n <= k < |wide| ==> argsRefs[k] == wide[k]
      {
        assert SliceAt(argsBuffer, argsBounds[2 * i], argsBounds[2 * i + 1], args[i], p);
        SubAt(argsBuffer, argsBounds[2 * i], args[i]);
        argsRefs := argsRefs[i := Sub(argsBuffer, argsBounds[i * 2], argsBounds[i * 2] + argsBounds[i * 2 + 1])];
      }
    }

    /** readArgs: the scratch buffers start empty and keep the arguments of this command. */
    method ReadArgs() returns (r: Reply)
      requires Valid()
      modifies this`pos, this`argsBuffer, this`argsBounds, this`argsRefs
      ensures Valid()
      ensures match InlineArgs.ReadArgs(input, old(pos), [], lim)
              case Ok(args, at) => r == Args(args) && pos == at
              case Err(e) => r == Error(e)
    {
      hide InlineArgs.ReadArgs, SliceAt;
      var e;
      ghost var args;
      pos, argsBuffer, argsBounds, e, args := ReadInline(input, pos, lim);
      if e != None { return Error(e.value); }
      var argc := |argsBounds| / 2;
      FillRefs(argc, args, |argsBuffer|);
      return Args(argsRefs[..argc]);
    }

    /** next: a multibulk or an inline command. */
    method ReadCommand() returns (r: Reply)
      requires Valid()
      modifies this`pos, this`argsBuffer, this`argsBounds, this`argsRefs
      ensures Valid()
      ensures match Multibulk.ReadCommand(input, old(pos), lim, size)
              case Ok(args, at) => r == Args(args) && pos == at
              case Err(e) => r == Error(e)
    {
      hide InlineArgs.ReadArgs, SliceAt, ReadShortLine, Sub, ReadBulks;
      if pos == |input| { return Error(Eof); }
      if input[pos] != STAR {
        r := ReadArgs();
        return;
      }
      var line, e;
      ghost var from := pos;
      line, pos, e := ReadLine(input, pos, size);
      if e != None { return Error(e.value); }
      if |line| <= 1 { return Args([]); }
      SubTail(input, from, ReadShortLine(input, from, size).stop);
      var n32 := ParseInt32(line[1..]);
      if n32 == None || n32.value > lim.args { return Error(InvalidMultiBulkLength); }
      if n32.value <= 0 { return Args([]); }
      r := ReadElements(n32.value);
    }

    /** The rest of next, once the number of bulk strings is known. */
    method ReadElements(n: nat) returns (r: Reply)
      requires Valid()
      modifies this`pos, this`argsBuffer, this`argsBounds, this`argsRefs
      ensures Valid()
      ensures match ReadBulks(input, old(pos), n, [], lim, size)
              case Ok(args, at) => r == Args(args) && pos == at
              case Err(e) => r == Error(e)
    {
      hide ReadBulks, SliceAt;
      var e;
      ghost var args;
      argsBounds := Expand(argsBounds, 2 * n, 0);
      pos, argsBuffer, argsBounds, e, args := ReadMultibulk(input, pos, n, argsBuffer, argsBounds, lim, size);
      if e != None { return Error(e.value); }
      FillRefs(n, args, Total(args));
      return Args(argsRefs[..n]);
    }

    /** Next: skips empty commands; the first error is returned again by every later call. */
    method Next() returns (r: Reply)
      requires Valid()
      modifies this`pos, this`rerr, this`argsBuffer, this`argsBounds, this`argsRefs
      ensures Valid()
      ensures old(rerr).Some? ==> r == Error(old(rerr).value) && rerr == old(rerr) && pos == old(pos)
      ensures old(rerr).None? ==>
        match NextCommand(input, old(pos), lim, size)
        case Ok(args, at) => r == Args(args) && pos == at && rerr == None
        case Err(e) => r == Error(e) && rerr == Some(e)
    {
      hide Multibulk.ReadCommand;
      if rerr != None { return Error(rerr.value); }
      while true
        invariant Valid() && rerr == None
        invariant NextCommand(input, old(pos), lim, size) == NextCommand(input, pos, lim, size)
        decreases |input| - pos
      {
        r := ReadCommand();
        if r.Error? {
          rerr := Some(r.error);
          return;
        }
        if |r.args| > 0 { return; }
      }
    }

    /** What the connection has accepted, will accept, and whether a write has failed. */
    ghost function Sent(): Wire
      reads this`out, this`room, this`werr
    {
      Wire(out, room, werr)
    }

    /** write: the first error is kept and returned again by every later call. */
    method Write(b: Str) returns (failed: bool)
      modifies this`out, this`room, this`werr
      ensures Sent() == Send(old(Sent()), b) && failed == werr
    {
      if werr { return true; }
      if |b| == 0 { return false; }
      if |b| <= room {
        out, room := out + b, room - |b|;
      } else {
        out, room, werr := out + b[..room], 0, true;
      }
      return werr;
    }

    method WriteWithType(typeByte: byte, head: array<byte>, body: Option<Str>) returns (failed: bool)
      modifies this`writeBuf, this`out, this`room, this`werr, head
      ensures Sent() == Send(old(Sent()), Frame(typeByte, old(head[..]), body)) && failed == werr
      ensures head[..] == Sanitized(old(head[..]))
    {
      var p;
      writeBuf, p := FillReply(writeBuf, typeByte, head, body);
      failed := Write(writeBuf[..p]);
    }

    /** A header whose text is a decimal number in a buffer of its own. */
    method WriteNumbered(typeByte: byte, n: nat, body: Option<Str>) returns (failed: bool)
      modifies this`writeBuf, this`out, this`room, this`werr
      ensures Sent() == Send(old(Sent()), Frame(typeByte, Dec(n), body)) && failed == werr
    {
      hide Frame, Dec, Send;
      var d := Dec(n);
      var head := new byte[|d|](i requires 0 <= i < |d| => d[i]);
      assert head[..] == d;
      failed := WriteWithType(typeByte, head, body);
    }

    /** WriteBytes: a bulk string; a nil slice is written as an empty one. */
    method WriteBytes(v: Option<Str>) returns (failed: bool)
      modifies this`writeBuf, this`out, this`room, this`werr
      ensures Sent() == Send(old(Sent()), Bulk(match v case None => [] case Some(b) => b)) && failed == werr
    {
      hide Frame, Header, Dec, Send;
      var b: Str := match v case None => [] case Some(b) => b;
      FrameIsHeader(DOLLAR, |b|, b);
      failed := WriteNumbered(DOLLAR, |b|, Some(b));
    }

    /**
     WriteArrayBytes and WriteArrayString: the array header and one bulk string per element, up
     to the first error.
     */
    method WriteArrayBytes(v: seq<Str>) returns (failed: bool)
      modifies this`writeBuf, this`out, this`room, this`werr
      ensures Sent() == Send(old(Sent()), Array(v)) && failed == werr
    {
      hide Frame, Header, Bulk, Dec, Send;
      FrameIsHeader(STAR, |v|, []);
      failed := WriteNumbered(STAR, |v|, None);
      SendTwice(old(Sent()), Header(STAR, |v|), Bulks(v, 0));
      if failed {
        SendFailed(Sent(), Bulks(v, 0));
        return;
      }
      for i := 0 to |v|
        invariant Send(Sent(), Bulks(v, i)) == Send(old(Sent()), Array(v))
      {
        SendTwice(Sent(), Bulk(v[i]), Bulks(v, i + 1));
        failed := WriteBytes(Some(v[i]));
        if failed {
          SendFailed(Sent(), Bulks(v, i + 1));
          return;
        }
      }
      SendNothing(Sent());
      failed := werr;
    }
  }

  /** writeClusterCommand: the coordinator's own encoder appends to one buffer. */
  method ClusterCommand(args: seq<Str>) returns (buf: Str)
    ensures buf == Array(args)
  {
    hide Dec;
    buf := [STAR] + Dec(|args|) + CRLF;
    for i := 0 to |args|
      invariant buf + Bulks(args, i) == Array(args)
    {
      ghost var before := buf;
      buf := buf + ([DOLLAR] + Dec(|args[i]|) + CRLF);
      buf := buf + args[i] + CRLF;
      assert buf == before + Bulk(args[i]);
      assert buf + Bulks(args, i + 1) == before + (Bulk(args[i]) + Bulks(args, i + 1));
    }
    assert buf == buf + Bulks(args, |args|);
  }
}
