/**
 Commands as RESP arrays of bulk strings: what the reader makes of the bytes it is given
 (`next`, `Next`), what the writers produce, and that the first undoes the second.
 The layout is that of the sections "Arrays" and "Bulk strings" of the Redis serialization
 protocol specification.
 */
module Multibulk {
  import opened Bytes
  import opened Numbers
  import opened InlineArgs

  const STAR: byte := 42
  const DOLLAR: byte := 36

  // ----- the reader

  /** Position of the first newline from `i` on, or the end of `s`. */
  function FindLF(s: Str, i: nat): (k: nat)
    requires i <= |s|
    ensures i <= k <= |s| && (k < |s| ==> s[k] == LF)
    decreases |s| - i
  {
    if i == |s| || s[i] == LF then i else FindLF(s, i + 1)
  }

  /** A line: its text ends at `stop`, and the next line starts at `at`. */
  datatype Line = Line(stop: nat, at: nat) | NoLine(error: Error)

  /** readShortLine: at most `size` bytes; a carriage return before the newline belongs to the ending. */
  function ReadShortLine(s: Str, i: nat, size: nat): (r: Line)
    requires i <= |s|
    ensures r.Line? ==> i <= r.stop < r.at <= |s|
  {
    var k := FindLF(s, i);
    if k < |s| && k - i < size then Line(if k > i && s[k - 1] == CR then k - 1 else k, k + 1)
    else if |s| - i <= size then NoLine(Eof)
    else NoLine(BufferFull)
  }

  /** A bulk string whose body of `len` bytes starts at `from`; two more bytes are read and not looked at. */
  datatype BulkScan = Body(from: nat, len: nat) | NoBody(error: Error)

  /** One round of the bulk loop of next, when the arguments so far take `used` bytes. */
  function ReadBulk(s: Str, i: nat, used: nat, lim: Limits, size: nat): (r: BulkScan)
    requires i <= |s|
    ensures r.Body? ==> i < r.from && r.from + r.len + 2 <= |s| && used + r.len + 2 <= lim.buffer
  {
    match ReadShortLine(s, i, size)
    case NoLine(e) => NoBody(e)
    case Line(stop, at) =>
      if stop == i || s[i] != DOLLAR then NoBody(ExpectedString)
      else match UInt32Of(Sub(s, i + 1, stop))
        case None => NoBody(InvalidBulkLength)
        case Some(l) =>
          if l > lim.bulk then NoBody(InvalidBulkLength)
          else if used + l + 2 > lim.buffer then NoBody(BufferFull)
          else if |s| - at < l + 2 then NoBody(Eof)
          else Body(at, l)
  }

  /** The bulk loop of next: `n` bulk strings are still to come. */
  function ReadBulks(s: Str, i: nat, n: nat, args: seq<Str>, lim: Limits, size: nat): (r: Command)
    requires i <= |s|
    ensures r.Ok? ==> i <= r.at <= |s| && |r.args| == |args| + n
    decreases n
  {
    if n == 0 then Ok(args, i)
    else match ReadBulk(s, i, Total(args), lim, size)
      case NoBody(e) => Err(e)
      case Body(from, len) =>
        ReadBulks(s, from + len + 2, n - 1, args + [Sub(s, from, from + len)], lim, size)
  }

  /** next: one command, or no arguments where the input holds an empty one. */
  function ReadCommand(s: Str, i: nat, lim: Limits, size: nat): (r: Command)
    requires i <= |s|
    ensures r.Ok? ==> i < r.at <= |s|
  {
    if i == |s| then Err(Eof)
    else if s[i] != STAR then ReadArgs(s, i, [], lim)
    else match ReadShortLine(s, i, size)
      case NoLine(e) => Err(e)
      case Line(stop, at) =>
        if stop - i <= 1 then Ok([], at)
        else match Int32Read(Sub(s, i + 1, stop))
          case None => Err(InvalidMultiBulkLength)
          case Some(n) =>
            if n > lim.args then Err(InvalidMultiBulkLength)
            else if n <= 0 then Ok([], at)
            else ReadBulks(s, at, n, [], lim, size)
  }

  /** Next: the first command that has arguments. */
  function NextCommand(s: Str, i: nat, lim: Limits, size: nat): (r: Command)
    requires i <= |s|
    ensures r.Ok? ==> i < r.at <= |s| && |r.args| > 0
    decreases |s| - i
  {
    var r := ReadCommand(s, i, lim, size);
    if r.Err? || |r.args| > 0 then r else NextCommand(s, r.at, lim, size)
  }

  // ----- the writers

  /** A type byte, a decimal number and the line ending. */
  function Header(c: byte, n: nat): Str {
    [c] + Dec(n) + CRLF
  }

  function Bulk(a: Str): Str {
    Header(DOLLAR, |a|) + (a + CRLF)
  }

  /** The bulk strings from the i-th argument on. */
  function Bulks(args: seq<Str>, i: nat): Str
    requires i <= |args|
    decreases |args| - i
  {
    if i == |args| then [] else Bulk(args[i]) + Bulks(args, i + 1)
  }

  function Array(args: seq<Str>): Str {
    Header(STAR, |args|) + Bulks(args, 0)
  }

  // ----- reading back what was written

  lemma {:induction false} FindLFSkips(s: Str, i: nat, k: nat)
    requires i <= k <= |s| && forall j :: i <= j < k ==> s[j] != LF
    ensures FindLF(s, i) == FindLF(s, k)
    decreases k - i
  {
    if i < k { FindLFSkips(s, i + 1, k); }
  }

  lemma {:induction false} LineRead(s: Str, i: nat, l: Str, size: nat)
    requires NoLF(l) && At(s, i, l) && At(s, i + |l|, CRLF)
    ensures if |l| + 2 <= size then ReadShortLine(s, i, size) == Line(i + |l|, i + |l| + 2)
            else ReadShortLine(s, i, size).NoLine?
  {
    var k := i + |l| + 1;
    AtIndex(s, i + |l|, CRLF, 0);
    AtIndex(s, i + |l|, CRLF, 1);
    forall j | i <= j < k ensures s[j] != LF {
      if j < k - 1 { AtIndex(s, i, l, j - i); }
    }
    FindLFSkips(s, i, k);
  }

  /** A written header line is read back whole, or refused when the reader's buffer is too small for it. */
  lemma {:induction false} HeaderLine(s: Str, i: nat, c: byte, n: nat, size: nat)
    requires c != LF && At(s, i, Header(c, n))
    ensures
      var stop := i + 1 + |Dec(n)|;
      && i + |Header(c, n)| <= |s| && s[i] == c && Sub(s, i + 1, stop) == Dec(n)
      && (if |Header(c, n)| <= size then ReadShortLine(s, i, size) == Line(stop, i + |Header(c, n)|)
          else ReadShortLine(s, i, size).NoLine?)
  {
    hide ReadShortLine, Dec, Val, At, Sub;
    DecVal(n);
    var text := [c] + Dec(n);
    AtSum(s, i, text, CRLF);
    AtSum(s, i, [c], Dec(n));
    SubAt(s, i + 1, Dec(n));
    AtIndex(s, i, [c], 0);
    NoLFInDigits(c, Dec(n));
    AtWithin(s, i + |text|, CRLF);
    LineRead(s, i, text, size);
  }

  /** Thirteen bytes hold every header of a 32-bit number. */
  lemma {:induction false} HeaderFits(c: byte, n: nat)
    requires n <= MaxUint32
    ensures |Header(c, n)| <= 13
  {
    Pow10Table();
    DecLength(n, 10);
  }

  lemma {:induction false} NoLFInDigits(c: byte, d: Str)
    requires c != LF && Digits(d)
    ensures NoLF([c] + d)
  {
    var text := [c] + d;
    forall k | 0 <= k < |text| ensures text[k] != LF {
      if k > 0 { assert text[k] == d[k - 1] && IsDigit(d[k - 1]); }
    }
  }

  /** What the reader's limits admit. */
  predicate Fits(args: seq<Str>, lim: Limits) {
    && |args| <= lim.args
    && Total(args) + 2 <= lim.buffer
    && forall i :: 0 <= i < |args| ==> |args[i]| <= lim.bulk
  }

  /** Counts and lengths that the reader's 32-bit parsers can represent. */
  predicate Representable(args: seq<Str>) {
    |args| <= MaxInt32 && forall i :: 0 <= i < |args| ==> |args[i]| <= MaxUint32
  }

  /** One round of the bulk loop on a written bulk string. */
  lemma {:induction false} BulkStep(s: Str, i: nat, a: Str, used: nat, lim: Limits, size: nat)
    requires size >= 13 && At(s, i, Bulk(a))
    ensures
      var from := i + |Header(DOLLAR, |a|)|;
      && from + |a| + 2 == i + |Bulk(a)| <= |s|
      && Sub(s, from, from + |a|) == a
      && var r := ReadBulk(s, i, used, lim, size);
         if |a| > MaxUint32 then r.NoBody?
         else r == (if |a| > lim.bulk then NoBody(InvalidBulkLength)
                    else if used + |a| + 2 > lim.buffer then NoBody(BufferFull)
                    else Body(from, |a|))
  {
    hide ReadShortLine, At, Sub, Dec;
    var h := Header(DOLLAR, |a|);
    AtSum(s, i, h, a + CRLF);
    AtSum(s, i + |h|, a, CRLF);
    SubAt(s, i + |h|, a);
    AtWithin(s, i + |h| + |a|, CRLF);
    HeaderLine(s, i, DOLLAR, |a|, size);
    if |a| <= MaxUint32 {
      HeaderFits(DOLLAR, |a|);
      UInt32OfDec(|a|);
    } else {
      DecVal(|a|);
    }
  }

  /** The first `k` arguments can be read; the bulk loop checks this as it goes along. */
  predicate FitsUpTo(args: seq<Str>, k: nat, lim: Limits)
    requires k <= |args|
  {
    && (k > 0 ==> TotalOf(args, k) + 2 <= lim.buffer)
    && forall i :: 0 <= i < k ==> |args[i]| <= lim.bulk && |args[i]| <= MaxUint32
  }

  lemma {:induction false} FitsGrows(args: seq<Str>, k: nat, lim: Limits)
    requires k < |args| && FitsUpTo(args, k, lim)
    ensures FitsUpTo(args, k + 1, lim) <==>
              |args[k]| <= lim.bulk && |args[k]| <= MaxUint32 && TotalOf(args, k) + |args[k]| + 2 <= lim.buffer
    ensures FitsUpTo(args, |args|, lim) ==> FitsUpTo(args, k + 1, lim)
  {
    TotalOfGrows(args, k + 1, |args|);
  }

  /** The error of the first argument from the k-th on that goes over a limit. */
  function BulkRefusal(args: seq<Str>, k: nat, lim: Limits): Error
    requires k <= |args|
    decreases |args| - k
  {
    if k == |args| then Eof
    else if |args[k]| > lim.bulk then InvalidBulkLength
    else if TotalOf(args, k) + |args[k]| + 2 > lim.buffer then BufferFull
    else BulkRefusal(args, k + 1, lim)
  }

  /** The error of a command that does not fit: its number of arguments comes first. */
  function Refusal(args: seq<Str>, lim: Limits): Error {
    if |args| > lim.args then InvalidMultiBulkLength else BulkRefusal(args, 0, lim)
  }

  /** The bulk loop reads back written arguments exactly when they fit. */
  lemma {:induction false} BulksRead(s: Str, i: nat, args: seq<Str>, k: nat, lim: Limits, size: nat)
    requires size >= 13 && k <= |args| && FitsUpTo(args, k, lim)
    requires At(s, i, Bulks(args, k))
    ensures
      i <= |s| && var r := ReadBulks(s, i, |args| - k, args[..k], lim, size);
      if FitsUpTo(args, |args|, lim) then r == Ok(args, i + |Bulks(args, k)|)
      else r.Err? && (Representable(args) ==> r == Err(BulkRefusal(args, k, lim)))
    decreases |args| - k
  {
    hide ReadBulk, Bulk, At;
    AtWithin(s, i, Bulks(args, k));
    TotalOfSame(args, args[..k], k);
    if k == |args| {
      assert args[..k] == args;
    } else {
      AtSum(s, i, Bulk(args[k]), Bulks(args, k + 1));
      BulkStep(s, i, args[k], TotalOf(args, k), lim, size);
      FitsGrows(args, k, lim);
      if FitsUpTo(args, k + 1, lim) {
        assert args[..k] + [args[k]] == args[..k + 1];
        BulksRead(s, i + |Bulk(args[k])|, args, k + 1, lim, size);
      }
    }
  }

  /** Bytes that stand for themselves in an inline argument. */
  predicate Plain(c: byte) {
    SpaceClass(c) == 0 && c != DQ && c != SQ
  }

  lemma {:induction false} PlainToken(s: Str, i: nat, k: nat, cur: Str, room: nat)
    requires i <= k < |s| && s[k] == CR && forall j :: i <= j < k ==> Plain(s[j])
    ensures var r := ScanToken(s, i, Bare, cur, room); r.Token? ==> r.at == k
    decreases k - i
  {
    if i < k && room > 0 { PlainToken(s, i + 1, k, cur + [s[i]], room - 1); }
  }

  /** A plain word on a line of its own is one inline argument. */
  lemma {:induction false} PlainLine(s: Str, i: nat, k: nat, lim: Limits)
    requires i < k < k + 1 < |s| && s[k] == CR && s[k + 1] == LF && forall j :: i <= j < k ==> Plain(s[j])
    ensures var r := ReadArgs(s, i, [], lim); r.Ok? ==> |r.args| == 1
  {
    PlainToken(s, i, k, [], lim.buffer);
    assert Plain(s[i]);
    var y := ScanToken(s, i, Bare, [], lim.buffer);
    if y.Token? && |y.tok| <= lim.bulk && lim.args > 0 {
      TotalSnoc([], y.tok);
      assert [] + [y.tok] == [y.tok];
      assert SkipSpaces(s, k) == k + 1;
    }
  }

  /** A header where a command should start is taken for an inline command of one word. */
  lemma {:induction false} HeaderAsInline(s: Str, i: nat, n: nat, lim: Limits, size: nat)
    requires At(s, i, Header(DOLLAR, n))
    ensures i <= |s| && var r := NextCommand(s, i, lim, size); r.Ok? ==> |r.args| == 1
  {
    hide At, Dec, Sub, ReadArgs, ReadShortLine;
    HeaderLine(s, i, DOLLAR, n, size);
    DecVal(n);
    var d := Dec(n);
    AtSum(s, i, [DOLLAR] + d, CRLF);
    var k := i + 1 + |d|;
    AtIndex(s, k, CRLF, 0);
    AtIndex(s, k, CRLF, 1);
    forall j | i <= j < k ensures Plain(s[j]) {
      AtIndex(s, i, [DOLLAR] + d, j - i);
      if j > i { assert s[j] == d[j - i - 1] && IsDigit(d[j - i - 1]); }
    }
    PlainLine(s, i, k, lim);
  }

  /** A count beyond 32 bits is refused, or taken for another number of arguments. */
  lemma {:induction false} LongCount(s: Str, i: nat, args: seq<Str>, lim: Limits, size: nat)
    requires |args| > MaxInt32 && At(s, i, Array(args))
    ensures i <= |s| && var r := NextCommand(s, i, lim, size); r.Ok? ==> |r.args| != |args|
  {
    hide ReadShortLine, ReadBulks, Header, At, Sub, Dec, ReadArgs, Bulk;
    var h := Header(STAR, |args|);
    AtSum(s, i, h, Bulks(args, 0));
    HeaderLine(s, i, STAR, |args|, size);
    DecVal(|args|);
    AtSum(s, i + |h|, Bulk(args[0]), Bulks(args, 1));
    assert At(s, i + |h|, Header(DOLLAR, |args[0]|)) by { FirstHeader(s, i + |h|, args[0]); }
    HeaderAsInline(s, i + |h|, |args[0]|, lim, size);
  }

  lemma {:induction false} FirstHeader(s: Str, i: nat, a: Str)
    requires At(s, i, Bulk(a))
    ensures At(s, i, Header(DOLLAR, |a|))
  {
    AtSum(s, i, Header(DOLLAR, |a|), a + CRLF);
  }

  /**
   Wherever a written command stands in the input, it is read back unchanged and exactly its
   bytes are consumed, precisely when it is within the reader's limits and its counts within
   32 bits. A command of representable size beyond the limits is an error; a count beyond 32
   bits is an error or, where it wraps, a command with another number of arguments. Thirteen
   bytes hold the longest header; the smallest reader has sixteen.
   */
  lemma {:induction false} ArrayRoundTrip(s: Str, i: nat, args: seq<Str>, lim: Limits, size: nat)
    requires |args| > 0 && size >= 13 && At(s, i, Array(args))
    ensures
      i <= |s| && var r := NextCommand(s, i, lim, size);
      && (r == Ok(args, i + |Array(args)|) <==> Fits(args, lim) && Representable(args))
      && (!Fits(args, lim) || !Representable(args) ==>
            r.Err? || (|args| > MaxInt32 && |r.args| != |args|))
      && (!Fits(args, lim) && Representable(args) ==> r == Err(Refusal(args, lim)))
  {
    hide ReadShortLine, ReadBulks, Header, At, Sub, Dec;
    if |args| > MaxInt32 {
      LongCount(s, i, args, lim, size);
    } else {
      AtSum(s, i, Header(STAR, |args|), Bulks(args, 0));
      HeaderLine(s, i, STAR, |args|, size);
      HeaderFits(STAR, |args|);
      Int32ReadDec(|args|);
      if |args| <= lim.args {
        BulksRead(s, i + |Header(STAR, |args|)|, args, 0, lim, size);
        assert args[..0] == [];
      }
    }
  }

  /** The commands from the k-th on, one after the other. */
  function Arrays(commands: seq<seq<Str>>, k: nat): Str
    requires k <= |commands|
    decreases |commands| - k
  {
    if k == |commands| then [] else Array(commands[k]) + Arrays(commands, k + 1)
  }

  datatype Commands = Commands(list: seq<seq<Str>>, at: nat) | BadInput(error: Error)

  /** `n` successive calls of Next, after `list` has been read. */
  function NextCommands(s: Str, i: nat, n: nat, list: seq<seq<Str>>, lim: Limits, size: nat): Commands
    requires i <= |s|
    decreases n
  {
    if n == 0 then Commands(list, i)
    else match NextCommand(s, i, lim, size)
      case Err(e) => BadInput(e)
      case Ok(args, at) => NextCommands(s, at, n - 1, list + [args], lim, size)
  }

  predicate Readable(args: seq<Str>, lim: Limits) {
    Fits(args, lim) && Representable(args)
  }

  lemma {:induction false} NextCommandsExtend(s: Str, i: nat, n: nat, list: seq<seq<Str>>, lim: Limits, size: nat)
    requires i <= |s|
    ensures var r := NextCommands(s, i, n, list, lim, size); r.Commands? ==> list <= r.list
    decreases n
  {
    hide NextCommand;
    if n > 0 {
      var r := NextCommand(s, i, lim, size);
      if r.Ok? { NextCommandsExtend(s, r.at, n - 1, list + [r.args], lim, size); }
    }
  }

  lemma {:induction false} PipelineFrom(s: Str, i: nat, commands: seq<seq<Str>>, k: nat, lim: Limits, size: nat)
    requires size >= 13 && k <= |commands| && At(s, i, Arrays(commands, k))
    requires forall j :: 0 <= j < |commands| ==> |commands[j]| > 0
    ensures i <= |s|
    ensures NextCommands(s, i, |commands| - k, commands[..k], lim, size)
              == Commands(commands, i + |Arrays(commands, k)|)
            <==> forall j :: k <= j < |commands| ==> Readable(commands[j], lim)
    decreases |commands| - k
  {
    hide NextCommand, Array, Fits, Representable, At;
    AtWithin(s, i, Arrays(commands, k));
    if k == |commands| {
      assert commands[..k] == commands;
    } else {
      AtSum(s, i, Array(commands[k]), Arrays(commands, k + 1));
      ArrayRoundTrip(s, i, commands[k], lim, size);
      var r := NextCommand(s, i, lim, size);
      if Readable(commands[k], lim) {
        assert commands[..k] + [commands[k]] == commands[..k + 1];
        PipelineFrom(s, i + |Array(commands[k])|, commands, k + 1, lim, size);
      } else if r.Ok? {
        NextCommandsExtend(s, r.at, |commands| - k - 1, commands[..k] + [r.args], lim, size);
        assert (commands[..k] + [r.args])[k] != commands[k];
      }
    }
  }

  /** A pipeline of commands comes back in order, byte for byte, exactly when every one of them can be read. */
  lemma {:induction false} PipelineRoundTrip(s: Str, i: nat, commands: seq<seq<Str>>, lim: Limits, size: nat)
    requires size >= 13 && At(s, i, Arrays(commands, 0))
    requires forall j :: 0 <= j < |commands| ==> |commands[j]| > 0
    ensures i <= |s|
    ensures NextCommands(s, i, |commands|, [], lim, size) == Commands(commands, i + |Arrays(commands, 0)|)
            <==> forall j :: 0 <= j < |commands| ==> Readable(commands[j], lim)
  {
    PipelineFrom(s, i, commands, 0, lim, size);
    assert commands[..0] == [];
  }

  // ----- the two bytes after a body

  /** The positions the bulk loop steps over without a look at them. */
  function Endings(s: Str, i: nat, n: nat, args: seq<Str>, lim: Limits, size: nat): set<nat>
    requires i <= |s|
    decreases n
  {
    if n == 0 then {}
    else match ReadBulk(s, i, Total(args), lim, size)
      case NoBody(_) => {}
      case Body(from, len) =>
        {from + len, from + len + 1} +
        Endings(s, from + len + 2, n - 1, args + [Sub(s, from, from + len)], lim, size)
  }

  /** Those of a whole command: none for an inline command or a bad header. */
  function CommandEndings(s: Str, i: nat, lim: Limits, size: nat): set<nat>
    requires i <= |s|
  {
    if i == |s| || s[i] != STAR then {}
    else match ReadShortLine(s, i, size)
      case NoLine(_) => {}
      case Line(stop, at) =>
        var n := Int32Read(Sub(s, i + 1, if stop > i then stop else i + 1));
        if stop - i <= 1 || n.None? || n.value > lim.args || n.value <= 0 then {}
        else Endings(s, at, n.value, [], lim, size)
  }

  lemma {:induction false} EndingsAbove(s: Str, i: nat, n: nat, args: seq<Str>, lim: Limits, size: nat)
    requires i <= |s|
    ensures forall p :: p in Endings(s, i, n, args, lim, size) ==> p >= i
    decreases n
  {
    hide ReadBulk;
    if n > 0 {
      var r := ReadBulk(s, i, Total(args), lim, size);
      if r.Body? { EndingsAbove(s, r.from + r.len + 2, n - 1, args + [Sub(s, r.from, r.from + r.len)], lim, size); }
    }
  }

  lemma {:induction false} FindLFSame(s: Str, t: Str, i: nat)
    requires i <= |s| == |t| && forall p :: i <= p <= FindLF(s, i) && p < |s| ==> s[p] == t[p]
    ensures FindLF(t, i) == FindLF(s, i)
    decreases |s| - i
  {
    if i < |s| && s[i] != LF { FindLFSame(s, t, i + 1); }
  }

  lemma {:induction false} LineSame(s: Str, t: Str, i: nat, size: nat)
    requires i <= |s| == |t|
    requires var r := ReadShortLine(s, i, size);
             forall p :: i <= p < (if r.Line? then r.at else |s|) ==> s[p] == t[p]
    ensures ReadShortLine(t, i, size) == ReadShortLine(s, i, size)
  {
    FindLFSame(s, t, i);
  }

  /** A round of the loop depends only on the header line and on how much input there is. */
  lemma {:induction false} BulkSame(s: Str, t: Str, i: nat, used: nat, lim: Limits, size: nat)
    requires i <= |s| == |t|
    requires var r := ReadBulk(s, i, used, lim, size);
             forall p :: i <= p < (if r.Body? then r.from else |s|) ==> s[p] == t[p]
    ensures ReadBulk(t, i, used, lim, size) == ReadBulk(s, i, used, lim, size)
  {
    hide ReadShortLine;
    LineSame(s, t, i, size);
    var r := ReadShortLine(s, i, size);
    if r.Line? && r.stop > i { SubSame(s, t, i + 1, r.stop); }
  }

  predicate SameBut(s: Str, t: Str, i: nat, gone: set<nat>) {
    |s| == |t| && forall p :: i <= p < |s| && p !in gone ==> s[p] == t[p]
  }

  /** Where the bytes of a body and of what follows it may differ. */
  lemma {:induction false} SameButParts(s: Str, t: Str, i: nat, to: nat, rest: set<nat>)
    requires i <= to && to + 2 <= |s| && SameBut(s, t, i, {to, to + 1} + rest) && forall p :: p in rest ==> p >= to + 2
    ensures SameBut(s, t, to + 2, rest) && forall p :: i <= p < to ==> s[p] == t[p]
  {
    var all := {to, to + 1} + rest;
    forall p | to + 2 <= p < |s| && p !in rest ensures s[p] == t[p] { assert p !in all; }
    forall p | i <= p < to ensures s[p] == t[p] { assert p !in all; }
  }

  lemma {:induction false} BulksSame(s: Str, t: Str, i: nat, n: nat, args: seq<Str>, lim: Limits, size: nat)
    requires i <= |s| && SameBut(s, t, i, Endings(s, i, n, args, lim, size))
    ensures |s| == |t| && ReadBulks(t, i, n, args, lim, size) == ReadBulks(s, i, n, args, lim, size)
    decreases n
  {
    hide ReadBulk, Sub, Total;
    if n > 0 {
      var r := ReadBulk(s, i, Total(args), lim, size);
      if r.Body? {
        hide SameBut;
        var from, to := r.from, r.from + r.len;
        var args' := args + [Sub(s, from, to)];
        EndingsAbove(s, to + 2, n - 1, args', lim, size);
        SameButParts(s, t, i, to, Endings(s, to + 2, n - 1, args', lim, size));
        SubSame(s, t, from, to);
        BulksSame(s, t, to + 2, n - 1, args', lim, size);
      }
      BulkSame(s, t, i, Total(args), lim, size);
    }
  }

  /** Two inputs that differ only in the bytes after bodies hold the same command for the reader, or the same error. */
  lemma {:induction false} EndingsAreIgnored(s: Str, t: Str, i: nat, lim: Limits, size: nat)
    requires i <= |s| == |t|
    requires forall p :: 0 <= p < |s| && p !in CommandEndings(s, i, lim, size) ==> s[p] == t[p]
    ensures ReadCommand(t, i, lim, size) == ReadCommand(s, i, lim, size)
  {
    hide ReadShortLine, ReadBulks, Endings, Int32Read, ReadArgs;
    if CommandEndings(s, i, lim, size) == {} {
      assert s == t;
    } else {
      var r := ReadShortLine(s, i, size);
      var n := Int32Read(Sub(s, i + 1, r.stop)).value;
      EndingsAbove(s, r.at, n, [], lim, size);
      LineSame(s, t, i, size);
      SubSame(s, t, i + 1, r.stop);
      BulksSame(s, t, r.at, n, [], lim, size);
    }
  }

  /**
   The bytes read for one bulk string are those a writer produces exactly when the header is
   canonical and the ending CRLF.
   */
  lemma {:induction false} BulkBytesIff(s: Str, i: nat, used: nat, lim: Limits, size: nat)
    requires i <= |s| && size >= 13 && ReadBulk(s, i, used, lim, size).Body?
    ensures
      var r := ReadBulk(s, i, used, lim, size);
      var end := r.from + r.len;
      Sub(s, i, end + 2) == Bulk(Sub(s, r.from, end)) <==>
        At(s, i, Header(DOLLAR, r.len)) && s[end] == CR && s[end + 1] == LF
  {
    hide ReadShortLine, At, Sub, Dec;
    var r := ReadBulk(s, i, used, lim, size);
    var end := r.from + r.len;
    var h, a := Header(DOLLAR, r.len), Sub(s, r.from, end);
    AtSub(s, i, end + 2);
    AtSub(s, r.from, end);
    if Sub(s, i, end + 2) == Bulk(a) {
      AtSum(s, i, h, a + CRLF);
      AtSum(s, i + |h|, a, CRLF);
      AtIndex(s, end, CRLF, 0);
      AtIndex(s, end, CRLF, 1);
    }
    if At(s, i, h) && s[end] == CR && s[end + 1] == LF {
      HeaderLine(s, i, DOLLAR, r.len, size);
      LengthFits(s, i, used, lim, size);
      HeaderFits(DOLLAR, r.len);
      AtPointwise(s, end, CRLF);
      AtJoin(s, r.from, a, CRLF);
      AtJoin(s, i, h, a + CRLF);
      SubAt(s, i, Bulk(a));
    }
  }

  /** Every header from here on is canonical and every ending CRLF. */
  predicate Canonical(s: Str, i: nat, n: nat, args: seq<Str>, lim: Limits, size: nat)
    requires i <= |s|
    decreases n
  {
    if n == 0 then true
    else match ReadBulk(s, i, Total(args), lim, size)
      case NoBody(_) => false
      case Body(from, len) =>
        && At(s, i, Header(DOLLAR, len)) && s[from + len] == CR && s[from + len + 1] == LF
        && Canonical(s, from + len + 2, n - 1, args + [Sub(s, from, from + len)], lim, size)
  }

  lemma {:induction false} ReadBulksExtend(s: Str, i: nat, n: nat, args: seq<Str>, lim: Limits, size: nat)
    requires i <= |s|
    ensures var r := ReadBulks(s, i, n, args, lim, size); r.Ok? ==> args <= r.args
    decreases n
  {
    hide ReadBulk;
    if n > 0 {
      var r := ReadBulk(s, i, Total(args), lim, size);
      if r.Body? { ReadBulksExtend(s, r.from + r.len + 2, n - 1, args + [Sub(s, r.from, r.from + r.len)], lim, size); }
    }
  }

  lemma {:induction false} BulksBytesIff(s: Str, i: nat, n: nat, args: seq<Str>, lim: Limits, size: nat)
    requires i <= |s| && size >= 13 && ReadBulks(s, i, n, args, lim, size).Ok?
    ensures
      var r := ReadBulks(s, i, n, args, lim, size);
      Sub(s, i, r.at) == Bulks(r.args, |args|) <==> Canonical(s, i, n, args, lim, size)
    decreases n
  {
    hide ReadBulk, At, Sub, Bulk, Header;
    if n > 0 {
      var r := ReadBulks(s, i, n, args, lim, size);
      var b := ReadBulk(s, i, Total(args), lim, size);
      var a, next := Sub(s, b.from, b.from + b.len), b.from + b.len + 2;
      ReadBulksExtend(s, next, n - 1, args + [a], lim, size);
      assert r.args[|args|] == (args + [a])[|args|];
      BulkBytesIff(s, i, Total(args), lim, size);
      BulksBytesIff(s, next, n - 1, args + [a], lim, size);
      SubSum(s, i, next, r.at);
      if Sub(s, i, r.at) == Bulks(r.args, |args|) {
        FirstBulkThere(s, i, Total(args), lim, size, r.at, Bulks(r.args, |args| + 1));
      }
    }
  }

  lemma {:induction false} FirstBulkThere(s: Str, i: nat, used: nat, lim: Limits, size: nat, at: nat, rest: Str)
    requires i <= |s| && size >= 13 && ReadBulk(s, i, used, lim, size).Body?
    requires
      var b := ReadBulk(s, i, used, lim, size);
      b.from + b.len + 2 <= at <= |s| && Sub(s, i, at) == Bulk(Sub(s, b.from, b.from + b.len)) + rest
    ensures
      var b := ReadBulk(s, i, used, lim, size);
      var next := b.from + b.len + 2;
      Sub(s, i, next) == Bulk(Sub(s, b.from, b.from + b.len)) && Sub(s, next, at) == rest
  {
    hide ReadBulk, At, Sub, Bulk, Header;
    var b := ReadBulk(s, i, used, lim, size);
    var a := Sub(s, b.from, b.from + b.len);
    AtSub(s, i, at);
    AtSum(s, i, Bulk(a), rest);
    BulkStep(s, i, a, used, lim, size);
    LengthFits(s, i, used, lim, size);
    SubAt(s, i, Bulk(a));
    SubAt(s, i + |Bulk(a)|, rest);
  }

  /**
   A command read from an array is, byte for byte, what a writer produces for it exactly when
   all its headers are canonical and both bytes after every body are CR and LF.
   */
  lemma {:induction false} CommandBytesIff(s: Str, i: nat, lim: Limits, size: nat)
    requires i < |s| && size >= 13 && s[i] == STAR
    requires var r := ReadCommand(s, i, lim, size); r.Ok? && |r.args| > 0
    ensures
      var r := ReadCommand(s, i, lim, size);
      var h := Header(STAR, |r.args|);
      Sub(s, i, r.at) == Array(r.args) <==> At(s, i, h) && Canonical(s, i + |h|, |r.args|, [], lim, size)
  {
    hide ReadShortLine, ReadBulks, At, Sub, Dec, Bulks, Canonical, ReadArgs, Int32Read;
    var r := ReadCommand(s, i, lim, size);
    var h := Header(STAR, |r.args|);
    AtSub(s, i, r.at);
    if Sub(s, i, r.at) == Array(r.args) { AtSum(s, i, h, Bulks(r.args, 0)); }
    if At(s, i, h) {
      HeaderLine(s, i, STAR, |r.args|, size);
      CountFits(s, i, lim, size);
      HeaderFits(STAR, |r.args|);
      BulksBytesIff(s, i + |h|, |r.args|, [], lim, size);
      SubAt(s, i, h);
      SubSum(s, i, i + |h|, r.at);
      assert Array(r.args)[|h|..] == Bulks(r.args, 0);
      assert (h + Sub(s, i + |h|, r.at))[|h|..] == Sub(s, i + |h|, r.at);
    }
  }

  lemma {:induction false} CountFits(s: Str, i: nat, lim: Limits, size: nat)
    requires i < |s| && s[i] == STAR
    ensures var r := ReadCommand(s, i, lim, size); r.Ok? ==> |r.args| <= MaxInt32
  {
    hide ReadShortLine, ReadBulks, Sub, Int32Read;
    var l := ReadShortLine(s, i, size);
    if l.Line? && l.stop - i > 1 { Int32ReadFits(Sub(s, i + 1, l.stop)); }
  }

  lemma {:induction false} LengthFits(s: Str, i: nat, used: nat, lim: Limits, size: nat)
    requires i <= |s| && ReadBulk(s, i, used, lim, size).Body?
    ensures ReadBulk(s, i, used, lim, size).len <= MaxUint32
  {
  }

  /** "*1\r\n$1\r\naXY" is the command "a". */
  lemma {:induction false} AnyEndingIsAccepted(lim: Limits, size: nat)
    requires lim.args >= 1 && lim.bulk >= 1 && lim.buffer >= 3 && size >= 13
    ensures ReadCommand([42, 49, 13, 10, 36, 49, 13, 10, 97, 88, 89], 0, lim, size) == Ok([[97]], 11)
  {
    var s: Str := [42, 49, 13, 10, 36, 49, 13, 10, 97, 88, 89];
    assert Dec(1) == [49];
    AtPointwise(s, 0, Header(STAR, 1));
    AtPointwise(s, 4, Header(DOLLAR, 1));
    HeaderLine(s, 0, STAR, 1, size);
    HeaderLine(s, 4, DOLLAR, 1, size);
    Int32ReadDec(1);
    UInt32OfDec(1);
    assert ReadBulk(s, 4, 0, lim, size) == Body(8, 1);
    assert Sub(s, 8, 9) == [97];
    assert ReadBulks(s, 4, 1, [], lim, size) == Ok([[97]], 11);
  }

  /** GET of the key "k": "*2\r\n$3\r\nGET\r\n$1\r\nk\r\n". */
  lemma {:induction false} GetOnTheWire()
    ensures Array([[71, 69, 84], [107]]) ==
            [42, 50, 13, 10, 36, 51, 13, 10, 71, 69, 84, 13, 10, 36, 49, 13, 10, 107, 13, 10]
  {
    var args: seq<Str> := [[71, 69, 84], [107]];
    assert Dec(1) == [49] && Dec(2) == [50] && Dec(3) == [51];
    assert Bulks(args, 2) == [];
    assert Bulks(args, 1) == Bulk([107]) + [];
    assert Bulk([107]) == [36, 49, 13, 10, 107, 13, 10];
    assert Bulk([71, 69, 84]) == [36, 51, 13, 10, 71, 69, 84, 13, 10];
  }
}
