/**
 Inline commands: the streaming tokenizer of the RESP reader (`readArgs`) and the line-based
 reference tokenizer it is compared against (`sdssplitargs`), as functions of a byte string
 and a position in it, and the exact relation between the two. The format is that of the
 section "Inline commands" of the Redis serialization protocol specification.
 */
module InlineArgs {
  import opened Bytes

  const TAB: byte := 9
  const VT: byte := 11
  const FF: byte := 12
  const SP: byte := 32
  const NUL: byte := 0
  const DQ: byte := 34
  const SQ: byte := 39
  const BS: byte := 92
  const LOWER_X: byte := 120

  datatype Error =
    | Eof | UnbalancedQuotes | BufferFull
    | InvalidBulkLength | InvalidMultiBulkLength | ExpectedString

  /** maxMultiBulkLength, maxBulkLength and maxBufferSize. */
  datatype Limits = Limits(args: nat, bulk: nat, buffer: nat)

  datatype Quote = Bare | Double | Single

  /** readArgsSpaceChars: 2 is the newline, 3 separates arguments but does not end one. */
  function SpaceClass(c: byte): nat {
    if c == SP || c == CR || c == TAB || c == NUL then 1
    else if c == LF then 2
    else if c == VT || c == FF then 3
    else 0
  }

  /** hexDigitToInt: `c |= 'x' - 'X'` sets bit 5. */
  function HexDigitToInt(c: byte): int {
    if 48 <= c <= 57 then c as int - 48
    else
      var low: int := if c as int / 32 % 2 == 0 then c as int + 32 else c as int;
      if 97 <= low <= 102 then 10 + (low - 97) else -1
  }

  predicate IsHexDigit(c: byte) {
    48 <= c <= 57 || 97 <= c <= 102 || 65 <= c <= 70
  }

  lemma {:induction false} HexAgrees(c: byte)
    ensures HexDigitToInt(c) >= 0 <==> IsHexDigit(c)
    ensures HexDigitToInt(c) <= 15
  {
  }

  function HexByte(hi: byte, lo: byte): byte
    requires IsHexDigit(hi) && IsHexDigit(lo)
  {
    16 * HexDigitToInt(hi) + HexDigitToInt(lo)
  }

  function Unescape(c: byte): byte {
    if c == 110 then LF        // 'n'
    else if c == 114 then CR   // 'r'
    else if c == 116 then TAB  // 't'
    else if c == 98 then 8     // 'b'
    else if c == 97 then 7     // 'a'
    else c
  }

  /** A \xHH escape stands at `i`, before `end`. */
  predicate HexEscape(s: Str, i: nat, end: nat)
    requires end <= |s|
  {
    && i + 4 <= end && s[i] == BS && s[i + 1] == LOWER_X
    && IsHexDigit(s[i + 2]) && IsHexDigit(s[i + 3])
  }

  // ----- the streaming tokenizer

  /** One round of a token loop: what it makes of the next byte and how many bytes it reads. */
  datatype Round = Unbalanced | Emit(c: byte, k: nat) | Enter(q: Quote) | Close | Stop

  /** A closing quote must be followed by a separator or by nothing. */
  function CloseQuote(s: Str, i: nat, end: nat): Round
    requires i < end <= |s|
  {
    if i + 1 < end && SpaceClass(s[i + 1]) == 0 then Unbalanced else Close
  }

  /** The inner loop of readArgs. A newline inside quotes is an error. */
  function NextRound(s: Str, i: nat, q: Quote): (r: Round)
    requires i < |s|
    ensures r.Emit? ==> 1 <= r.k && i + r.k <= |s|
    ensures r.Stop? ==> SpaceClass(s[i]) > 0
  {
    match q
    case Double =>
      if s[i] == LF then Unbalanced
      else if HexEscape(s, i, |s|) then Emit(HexByte(s[i + 2], s[i + 3]), 4)
      else if s[i] == BS && i + 1 < |s| then Emit(Unescape(s[i + 1]), 2)
      else if s[i] == DQ then CloseQuote(s, i, |s|)
      else Emit(s[i], 1)
    case Single =>
      if s[i] == LF then Unbalanced
      else if s[i] == BS && i + 1 < |s| && s[i + 1] == SQ then Emit(SQ, 2)
      else if s[i] == SQ then CloseQuote(s, i, |s|)
      else Emit(s[i], 1)
    case Bare =>
      if s[i] == DQ then Enter(Double)
      else if s[i] == SQ then Enter(Single)
      else if SpaceClass(s[i]) == 1 || SpaceClass(s[i]) == 2 then Stop
      else Emit(s[i], 1)
  }

  datatype Scan = Token(tok: Str, at: nat) | Failed(error: Error)

  /**
   Read the rest of an argument of which `cur` is already buffered, when `room` more bytes
   fit in the buffer. At the end of the input the loop is left; readArgs then reports Eof.
   */
  function ScanToken(s: Str, i: nat, q: Quote, cur: Str, room: nat): (r: Scan)
    requires i <= |s|
    ensures r.Token? ==> i <= r.at <= |s| && |cur| <= |r.tok| <= |cur| + room
    ensures r.Token? && i < |s| && SpaceClass(s[i]) == 0 ==> i < r.at
    decreases |s| - i
  {
    if i == |s| then Token(cur, i)
    else match NextRound(s, i, q)
      case Unbalanced => Failed(UnbalancedQuotes)
      case Emit(c, k) => if room == 0 then Failed(BufferFull) else ScanToken(s, i + k, q, cur + [c], room - 1)
      case Enter(q') => ScanToken(s, i + 1, q', cur, room)
      case Close => Token(cur, i + 1)
      case Stop => Token(cur, i)
  }

  function SkipSpaces(s: Str, i: nat): (r: nat)
    requires i <= |s|
    ensures i <= r <= |s|
    ensures r < |s| ==> SpaceClass(s[r]) == 0 || s[r] == LF
    decreases |s| - i
  {
    if i < |s| && (SpaceClass(s[i]) == 1 || SpaceClass(s[i]) == 3) then SkipSpaces(s, i + 1) else i
  }

  /** The bytes taken by the first `n` arguments, which lie back to back in the buffer. */
  function TotalOf(args: seq<Str>, n: nat): nat
    requires n <= |args|
  {
    if n == 0 then 0 else TotalOf(args, n - 1) + |args[n - 1]|
  }

  function Total(args: seq<Str>): nat {
    TotalOf(args, |args|)
  }

  lemma {:induction false} TotalOfSame(a: seq<Str>, b: seq<Str>, n: nat)
    requires n <= |a| && n <= |b| && forall i :: 0 <= i < n ==> a[i] == b[i]
    ensures TotalOf(a, n) == TotalOf(b, n)
  {
    if n > 0 { TotalOfSame(a, b, n - 1); }
  }

  lemma {:induction false} TotalSnoc(args: seq<Str>, tok: Str)
    ensures Total(args + [tok]) == Total(args) + |tok|
  {
    TotalOfSame(args, args + [tok], |args|);
  }

  datatype Command = Ok(args: seq<Str>, at: nat) | Err(error: Error)

  /** readArgs from a point where `args` have been read already. */
  function ReadArgs(s: Str, i: nat, args: seq<Str>, lim: Limits): (r: Command)
    requires i <= |s| && Total(args) <= lim.buffer
    ensures r.Ok? ==> i < r.at <= |s|
    decreases |s| - i
  {
    var j := SkipSpaces(s, i);
    if j == |s| then Err(Eof)
    else if s[j] == LF then Ok(args, j + 1)
    else match ScanToken(s, j, Bare, [], lim.buffer - Total(args))
      case Failed(e) => Err(e)
      case Token(tok, at) =>
        if |tok| > lim.bulk then Err(InvalidBulkLength)
        else if |args| + 1 > lim.args then Err(InvalidMultiBulkLength)
        else
          TotalSnoc(args, tok);
          ReadArgs(s, at, args + [tok], lim)
  }

  // ----- the line-based reference tokenizer: the line is s[..end]

  datatype LineScan = LineToken(tok: Str, at: nat) | LineError

  /** The token loop of sdssplitargs. */
  function LineRound(s: Str, i: nat, end: nat, q: Quote): (r: Round)
    requires i < end <= |s|
    ensures r.Emit? ==> 1 <= r.k && i + r.k <= end
  {
    match q
    case Double =>
      if HexEscape(s, i, end) then Emit(HexByte(s[i + 2], s[i + 3]), 4)
      else if s[i] == BS && i + 1 < end then Emit(Unescape(s[i + 1]), 2)
      else if s[i] == DQ then CloseQuote(s, i, end)
      else Emit(s[i], 1)
    case Single =>
      if s[i] == BS && i + 1 < end && s[i + 1] == SQ then Emit(SQ, 2)
      else if s[i] == SQ then CloseQuote(s, i, end)
      else Emit(s[i], 1)
    case Bare =>
      if s[i] == SP || s[i] == LF || s[i] == CR || s[i] == TAB || s[i] == NUL then Stop
      else if s[i] == DQ then Enter(Double)
      else if s[i] == SQ then Enter(Single)
      else Emit(s[i], 1)
  }

  function SplitToken(s: Str, i: nat, end: nat, q: Quote, cur: Str): (r: LineScan)
    requires i <= end <= |s|
    ensures r.LineToken? ==> i <= r.at <= end && |cur| <= |r.tok| <= |cur| + (r.at - i)
    ensures r.LineToken? && i < end ==> i < r.at
    decreases end - i
  {
    if i == end then (if q.Bare? then LineToken(cur, i) else LineError)
    else match LineRound(s, i, end, q)
      case Unbalanced => LineError
      case Emit(c, k) => SplitToken(s, i + k, end, q, cur + [c])
      case Enter(q') => SplitToken(s, i + 1, end, q', cur)
      case Close => LineToken(cur, i + 1)
      case Stop => LineToken(cur, i + 1)
  }

  function SkipBlanks(s: Str, i: nat, end: nat): (r: nat)
    requires i <= end <= |s|
    ensures i <= r <= end
    ensures r < end ==> SpaceClass(s[r]) == 0
    decreases end - i
  {
    if i < end && SpaceClass(s[i]) > 0 then SkipBlanks(s, i + 1, end) else i
  }

  function SplitArgs(s: Str, i: nat, end: nat, args: seq<Str>): Option<seq<Str>>
    requires i <= end <= |s|
    decreases end - i
  {
    var j := SkipBlanks(s, i, end);
    if j == end then Some(args)
    else match SplitToken(s, j, end, Bare, [])
      case LineError => None
      case LineToken(tok, at) => SplitArgs(s, at, end, args + [tok])
  }

  /** sdssplitargs itself: `p` moves over the line, `current` and `vector` grow. */
  method Sdssplitargs(line: Str) returns (r: Option<seq<Str>>)
    ensures r == SplitArgs(line, 0, |line|, [])
  {
    var p := 0;
    var vector: seq<Str> := [];
    while true
      invariant 0 <= p <= |line|
      invariant SplitArgs(line, 0, |line|, []) == SplitArgs(line, p, |line|, vector)
      decreases |line| - p
    {
      ghost var entry := p;
      while p < |line| && SpaceClass(line[p]) > 0
        invariant entry <= p <= |line|
        invariant SkipBlanks(line, entry, |line|) == SkipBlanks(line, p, |line|)
      {
        p := p + 1;
      }
      if p == |line| { return Some(vector); }
      var current, ok;
      p, current, ok := SplitOneToken(line, p);
      if !ok { return None; }
      vector := vector + [current];
    }
  }

  /** The token loop of sdssplitargs, with its `inq` and `insq` flags. */
  method SplitOneToken(line: Str, from: nat) returns (p: nat, current: Str, ok: bool)
    requires from < |line|
    ensures p <= |line|
    ensures var want := SplitToken(line, from, |line|, Bare, []);
            if ok then want == LineToken(current, p) else want.LineError?
  {
    p, current := from, [];
    var inq, insq, done := false, false, false;
    ghost var want := SplitToken(line, from, |line|, Bare, []);
    while !done
      invariant p <= |line| && !(inq && insq)
      invariant !done ==>
        want == SplitToken(line, p, |line|, if inq then Double else if insq then Single else Bare, current)
      invariant done ==> want == LineToken(current, p)
      decreases !done, |line| - p
    {
      if inq {
        if p >= |line| { return p, current, false; }
        if line[p] == BS && p + 3 < |line| && line[p + 1] == LOWER_X
           && IsHexDigit(line[p + 2]) && IsHexDigit(line[p + 3]) {
          HexAgrees(line[p + 2]);
          HexAgrees(line[p + 3]);
          current := current + [HexDigitToInt(line[p + 2]) * 16 + HexDigitToInt(line[p + 3])];
          p := p + 3;
        } else if line[p] == BS && p + 1 < |line| {
          p := p + 1;
          current := current + [Unescape(line[p])];
        } else if line[p] == DQ {
          if p + 1 < |line| && SpaceClass(line[p + 1]) == 0 { return p, current, false; }
          done := true;
        } else {
          current := current + [line[p]];
        }
      } else if insq {
        if p >= |line| { return p, current, false; }
        if line[p] == BS && p + 1 < |line| && line[p + 1] == SQ {
          p := p + 1;
          current := current + [SQ];
        } else if line[p] == SQ {
          if p + 1 < |line| && SpaceClass(line[p + 1]) == 0 { return p, current, false; }
          done := true;
        } else {
          current := current + [line[p]];
        }
      } else {
        if p >= |line| { break; }
        if line[p] == SP || line[p] == LF || line[p] == CR || line[p] == TAB || line[p] == NUL {
          done := true;
        } else if line[p] == DQ {
          inq := true;
        } else if line[p] == SQ {
          insq := true;
        } else {
          current := current + [line[p]];
        }
      }
      if p < |line| { p := p + 1; }
    }
    ok := true;
  }

  // ----- where the two can differ

  /** Tokenizing s[i..end] ends inside double quotes at a backslash just before `end`. */
  predicate DanglingToken(s: Str, i: nat, end: nat, q: Quote)
    requires i <= end <= |s|
    decreases end - i
  {
    && i < end
    && ((q.Double? && s[i] == BS && i + 1 == end) ||
        match LineRound(s, i, end, q)
        case Emit(_, k) => DanglingToken(s, i + k, end, q)
        case Enter(q') => DanglingToken(s, i + 1, end, q')
        case _ => false)
  }

  predicate DanglingEscape(s: Str, i: nat, end: nat)
    requires i <= end <= |s|
    decreases end - i
  {
    var j := SkipBlanks(s, i, end);
    && j < end
    && (DanglingToken(s, j, end, Bare) ||
        (var r := SplitToken(s, j, end, Bare, []); r.LineToken? && DanglingEscape(s, r.at, end)))
  }

  /** A line without newline bytes stands at the front of `s`, followed by a newline at `end`. */
  ghost predicate LineAt(s: Str, end: nat) {
    end < |s| && s[end] == LF && forall k :: 0 <= k < end ==> s[k] != LF
  }

  /** The arguments respect every limit of the reader. */
  predicate Within(args: seq<Str>, lim: Limits) {
    && |args| <= lim.args
    && Total(args) <= lim.buffer
    && forall i :: 0 <= i < |args| ==> |args[i]| <= lim.bulk
  }

  // ----- the relation between the two tokenizers

  /** What ScanToken does on a line and its newline, given what SplitToken does on the line. */
  ghost predicate TokenRelated(s: Str, end: nat, a: LineScan, b: Scan, cap: nat, dangling: bool)
    requires end < |s|
  {
    match a
    case LineToken(tok, at) =>
      if |tok| <= cap then
        b.Token? && b.tok == tok && at <= |s| && b.at <= |s| && SkipSpaces(s, b.at) == SkipSpaces(s, at)
      else b.Failed?
    case LineError =>
      && (!dangling ==> b.Failed?)
      && (|s| == end + 1 ==> b.Failed? || b.at == |s|)
  }

  lemma {:induction false} RoundsAgree(s: Str, i: nat, end: nat, q: Quote)
    requires LineAt(s, end) && i < end
    ensures if q.Double? && s[i] == BS && i + 1 == end
            then NextRound(s, i, q) == Emit(LF, 2) && LineRound(s, i, end, q) == Emit(BS, 1)
            else NextRound(s, i, q) == LineRound(s, i, end, q)
    ensures LineRound(s, i, end, q).Stop? ==> SkipSpaces(s, i) == SkipSpaces(s, i + 1)
  {
    assert s[i] != LF;
    assert HexEscape(s, i, |s|) == HexEscape(s, i, end);
  }

  lemma {:induction false} RoundAtNewline(s: Str, end: nat, q: Quote)
    requires LineAt(s, end)
    ensures NextRound(s, end, q) == if q.Bare? then Stop else Unbalanced
  {
  }

  /** A backslash just before the newline, inside double quotes, takes the newline with it. */
  lemma {:induction false} NewlineEscaped(s: Str, i: nat, end: nat, cur: Str, room: nat)
    requires LineAt(s, end) && i + 1 == end && s[i] == BS
    ensures SplitToken(s, i, end, Double, cur).LineError? && DanglingToken(s, i, end, Double)
    ensures var b := ScanToken(s, i, Double, cur, room);
            if room == 0 then b.Failed? else b == ScanToken(s, end + 1, Double, cur + [LF], room - 1)
  {
    hide NextRound, LineRound;
    RoundsAgree(s, i, end, Double);
    assert SplitToken(s, end, end, Double, cur + [BS]).LineError?;
  }

  /** Both scans from a point on, related. */
  ghost predicate RelatedFrom(s: Str, i: nat, end: nat, q: Quote, cur: Str, room: nat)
    requires i <= end < |s|
  {
    TokenRelated(s, end, SplitToken(s, i, end, q, cur), ScanToken(s, i, q, cur, room),
                 |cur| + room, DanglingToken(s, i, end, q))
  }

  lemma {:induction false} RelatedAtEmit(s: Str, i: nat, end: nat, q: Quote, cur: Str, room: nat, c: byte, k: nat)
    requires i < end < |s| && !(q.Double? && s[i] == BS && i + 1 == end) && k > 0 && i + k <= end
    requires LineRound(s, i, end, q) == NextRound(s, i, q) == Emit(c, k)
    requires room > 0 ==> RelatedFrom(s, i + k, end, q, cur + [c], room - 1)
    ensures RelatedFrom(s, i, end, q, cur, room)
  {
    hide NextRound, LineRound, SkipSpaces, SpaceClass;
  }

  lemma {:induction false} RelatedAtEnter(s: Str, i: nat, end: nat, q: Quote, cur: Str, room: nat, q': Quote)
    requires i < end < |s| && !(q.Double? && s[i] == BS && i + 1 == end)
    requires LineRound(s, i, end, q) == NextRound(s, i, q) == Enter(q')
    requires RelatedFrom(s, i + 1, end, q', cur, room)
    ensures RelatedFrom(s, i, end, q, cur, room)
  {
    hide NextRound, LineRound, SkipSpaces, SpaceClass;
  }

  lemma {:induction false} RelatedAtLast(s: Str, i: nat, end: nat, q: Quote, cur: Str, room: nat)
    requires i < end < |s| && !(q.Double? && s[i] == BS && i + 1 == end)
    requires LineRound(s, i, end, q) == NextRound(s, i, q)
    requires
      var r := NextRound(s, i, q);
      r.Unbalanced? || r.Close? || (r.Stop? && SkipSpaces(s, i) == SkipSpaces(s, i + 1))
    ensures RelatedFrom(s, i, end, q, cur, room)
  {
    hide NextRound, LineRound, SkipSpaces, SpaceClass;
  }

  lemma {:induction false} RelatedAtEnd(s: Str, end: nat, q: Quote, cur: Str, room: nat)
    requires LineAt(s, end)
    ensures RelatedFrom(s, end, end, q, cur, room)
  {
    hide NextRound, LineRound, SkipSpaces, SpaceClass;
    RoundAtNewline(s, end, q);
  }

  lemma {:induction false} RelatedAtBackslash(s: Str, i: nat, end: nat, cur: Str, room: nat)
    requires LineAt(s, end) && i + 1 == end && s[i] == BS
    ensures RelatedFrom(s, i, end, Double, cur, room)
  {
    hide NextRound, LineRound, SkipSpaces, SpaceClass;
    NewlineEscaped(s, i, end, cur, room);
  }

  lemma {:induction false} TokenAgrees(s: Str, i: nat, end: nat, q: Quote, cur: Str, room: nat)
    requires LineAt(s, end) && i <= end
    ensures RelatedFrom(s, i, end, q, cur, room)
    decreases end - i
  {
    hide NextRound, LineRound, SkipSpaces, SpaceClass, RelatedFrom;
    if i == end {
      RelatedAtEnd(s, end, q, cur, room);
    } else if q.Double? && s[i] == BS && i + 1 == end {
      RelatedAtBackslash(s, i, end, cur, room);
    } else {
      RoundsAgree(s, i, end, q);
      match LineRound(s, i, end, q) {
        case Emit(c, k) =>
          if room > 0 { TokenAgrees(s, i + k, end, q, cur + [c], room - 1); }
          RelatedAtEmit(s, i, end, q, cur, room, c, k);
        case Enter(q') =>
          TokenAgrees(s, i + 1, end, q', cur, room);
          RelatedAtEnter(s, i, end, q, cur, room, q');
        case _ => RelatedAtLast(s, i, end, q, cur, room);
      }
    }
  }

  lemma {:induction false} SkipAgrees(s: Str, i: nat, end: nat)
    requires LineAt(s, end) && i <= end
    ensures SkipSpaces(s, i) == SkipBlanks(s, i, end)
    decreases end - i
  {
    if i < end {
      assert s[i] != LF;
      if SpaceClass(s[i]) > 0 { SkipAgrees(s, i + 1, end); }
    }
  }

  lemma {:induction false} SplitExtends(s: Str, i: nat, end: nat, args: seq<Str>)
    requires i <= end <= |s|
    ensures var r := SplitArgs(s, i, end, args);
            r.Some? ==> |args| <= |r.value| && forall k :: 0 <= k < |args| ==> args[k] == r.value[k]
    decreases end - i
  {
    var j := SkipBlanks(s, i, end);
    if j < end {
      var r := SplitToken(s, j, end, Bare, []);
      if r.LineToken? {
        var next := args + [r.tok];
        SplitExtends(s, r.at, end, next);
        assert forall k :: 0 <= k < |args| ==> next[k] == args[k];
      }
    }
  }

  lemma {:induction false} TotalOfGrows(args: seq<Str>, m: nat, n: nat)
    requires m <= n <= |args|
    ensures TotalOf(args, m) <= TotalOf(args, n)
    decreases n
  {
    if m < n { TotalOfGrows(args, m, n - 1); }
  }

  /** Arguments that break a limit cannot be completed to ones that respect it. */
  lemma {:induction false} NotWithin(args: seq<Str>, r: Option<seq<Str>>, lim: Limits)
    requires !Within(args, lim)
    requires r.Some? ==> |args| <= |r.value| && forall k :: 0 <= k < |args| ==> args[k] == r.value[k]
    ensures r.Some? ==> !Within(r.value, lim)
  {
    if r.Some? {
      TotalOfSame(args, r.value, |args|);
      TotalOfGrows(r.value, |args|, |r.value|);
      if k: nat :| k < |args| && |args[k]| > lim.bulk {
        assert |r.value[k]| > lim.bulk;
      }
    }
  }

  /** What readArgs makes of a line and what follows, given what sdssplitargs makes of the line. */
  ghost predicate Agrees(want: Option<seq<Str>>, got: Command, end: nat, lim: Limits) {
    if want.Some? && Within(want.value, lim) then got == Ok(want.value, end + 1) else got.Err?
  }

  lemma {:induction false} ReadAgreesFrom(s: Str, i: nat, end: nat, args: seq<Str>, lim: Limits)
    requires LineAt(s, end) && i <= end && Within(args, lim)
    requires |s| == end + 1 || !DanglingEscape(s, i, end)
    ensures Agrees(SplitArgs(s, i, end, args), ReadArgs(s, i, args, lim), end, lim)
    decreases end - i, 1
  {
    SkipAgrees(s, i, end);
    var j := SkipBlanks(s, i, end);
    if j < end {
      assert s[j] != LF;
      var room := lim.buffer - Total(args);
      TokenAgrees(s, j, end, Bare, [], room);
      var x := SplitToken(s, j, end, Bare, []);
      var y := ScanToken(s, j, Bare, [], room);
      if x.LineToken? {
        NextArgument(s, x, y, end, args, lim);
      } else if y.Token? {
        TotalSnoc(args, y.tok);
        assert SkipSpaces(s, y.at) == |s|;
      }
    }
  }

  /** The part of the outer loops after one argument has been scanned on both sides. */
  lemma {:induction false} NextArgument(s: Str, x: LineScan, y: Scan, end: nat, args: seq<Str>, lim: Limits)
    requires LineAt(s, end) && Within(args, lim)
    requires x.LineToken? && x.at <= end && TokenRelated(s, end, x, y, lim.buffer - Total(args), false)
    requires |s| == end + 1 || !DanglingEscape(s, x.at, end)
    ensures y.Token? ==> Total(args + [y.tok]) == Total(args) + |y.tok|
    ensures
      Agrees(SplitArgs(s, x.at, end, args + [x.tok]),
             if y.Failed? then Err(y.error)
             else if |y.tok| > lim.bulk then Err(InvalidBulkLength)
             else if |args| + 1 > lim.args then Err(InvalidMultiBulkLength)
             else ReadArgs(s, y.at, args + [y.tok], lim),
             end, lim)
    decreases end - x.at, 2
  {
    var next := args + [x.tok];
    TotalSnoc(args, x.tok);
    SplitExtends(s, x.at, end, next);
    assert next[|args|] == x.tok;
    if y.Failed? || |x.tok| > lim.bulk || |args| + 1 > lim.args {
      NotWithin(next, SplitArgs(s, x.at, end, next), lim);
    } else {
      ReadAgreesFrom(s, x.at, end, next, lim);
    }
  }

  /** The reference tokenizer looks only at the line. */
  lemma {:induction false} SplitTokenOfLine(l: Str, s: Str, i: nat, q: Quote, cur: Str)
    requires i <= |l| <= |s| && forall k :: 0 <= k < |l| ==> s[k] == l[k]
    ensures SplitToken(s, i, |l|, q, cur) == SplitToken(l, i, |l|, q, cur)
    ensures DanglingToken(s, i, |l|, q) == DanglingToken(l, i, |l|, q)
    decreases |l| - i
  {
    if i < |l| {
      assert LineRound(s, i, |l|, q) == LineRound(l, i, |l|, q);
      match LineRound(l, i, |l|, q) {
        case Emit(c, k) => SplitTokenOfLine(l, s, i + k, q, cur + [c]);
        case Enter(q') => SplitTokenOfLine(l, s, i + 1, q', cur);
        case _ =>
      }
    }
  }

  lemma {:induction false} SkipBlanksOfLine(l: Str, s: Str, i: nat)
    requires i <= |l| <= |s| && forall k :: 0 <= k < |l| ==> s[k] == l[k]
    ensures SkipBlanks(s, i, |l|) == SkipBlanks(l, i, |l|)
    decreases |l| - i
  {
    if i < |l| && SpaceClass(l[i]) > 0 { SkipBlanksOfLine(l, s, i + 1); }
  }

  lemma {:induction false} SplitArgsOfLine(l: Str, s: Str, i: nat, args: seq<Str>)
    requires i <= |l| <= |s| && forall k :: 0 <= k < |l| ==> s[k] == l[k]
    ensures SplitArgs(s, i, |l|, args) == SplitArgs(l, i, |l|, args)
    ensures DanglingEscape(s, i, |l|) == DanglingEscape(l, i, |l|)
    decreases |l| - i
  {
    SkipBlanksOfLine(l, s, i);
    var j := SkipBlanks(l, i, |l|);
    if j < |l| {
      SplitTokenOfLine(l, s, j, Bare, []);
      var r := SplitToken(l, j, |l|, Bare, []);
      if r.LineToken? { SplitArgsOfLine(l, s, r.at, args + [r.tok]); }
    }
  }

  predicate NoLF(l: Str) {
    forall k :: 0 <= k < |l| ==> l[k] != LF
  }

  lemma {:induction false} LineInFront(l: Str, tail: Str)
    requires NoLF(l)
    ensures var s := l + [LF] + tail; LineAt(s, |l|) && forall k :: 0 <= k < |l| ==> s[k] == l[k]
  {
    var s := l + [LF] + tail;
    assert s[|l|] == LF;
    assert forall k :: 0 <= k < |l| ==> s[k] == l[k];
  }

  /**
   readArgs on a line without newline bytes, its newline and any further input returns the
   reference tokenizer's arguments and consumes exactly the line when those arguments are
   within the limits, and fails otherwise; unless the line ends in a backslash inside double
   quotes and more input follows.
   */
  lemma {:induction false} ReadAgreesWithSplit(l: Str, tail: Str, lim: Limits)
    requires NoLF(l) && (|tail| == 0 || !DanglingEscape(l, 0, |l|))
    ensures Agrees(SplitArgs(l, 0, |l|, []), ReadArgs(l + [LF] + tail, 0, [], lim), |l|, lim)
  {
    var s := l + [LF] + tail;
    LineInFront(l, tail);
    SplitArgsOfLine(l, s, 0, []);
    ReadAgreesFrom(s, 0, |l|, [], lim);
  }

  lemma {:induction false} QuoteCloses(s: Str, i: nat, cur: Str, room: nat)
    requires i + 1 < |s| && s[i] == DQ && s[i + 1] == LF
    ensures ScanToken(s, i, Double, cur, room) == Token(cur, i + 1)
  {
    assert NextRound(s, i, Double) == Close;
  }

  /** After a dangling escape, a quote and a newline complete the argument. */
  lemma {:induction false} DanglingTokenContinues(s: Str, i: nat, end: nat, q: Quote, cur: Str, room: nat)
    requires LineAt(s, end) && |s| == end + 3 && s[end + 1] == DQ && s[end + 2] == LF
    requires i <= end && DanglingToken(s, i, end, q) && room >= end - i
    ensures SplitToken(s, i, end, q, cur).LineError?
    ensures var b := ScanToken(s, i, q, cur, room);
            b.Token? && b.at == end + 2 && |b.tok| <= |cur| + (end - i)
    decreases end - i
  {
    hide LineRound, NextRound;
    if q.Double? && s[i] == BS && i + 1 == end {
      NewlineEscaped(s, i, end, cur, room);
      QuoteCloses(s, end + 1, cur + [LF], room - 1);
    } else {
      RoundsAgree(s, i, end, q);
      match LineRound(s, i, end, q) {
        case Emit(c, k) => DanglingTokenContinues(s, i + k, end, q, cur + [c], room - 1);
        case Enter(q') => DanglingTokenContinues(s, i + 1, end, q', cur, room);
        case _ =>
      }
    }
  }

  /** Limits that `n` more bytes of input cannot reach after `args` have been read. */
  predicate Roomy(lim: Limits, args: seq<Str>, n: nat) {
    lim.args >= |args| + n && lim.bulk >= n && lim.buffer >= Total(args) + n
  }

  lemma {:induction false} DanglingReads(s: Str, i: nat, end: nat, args: seq<Str>, lim: Limits)
    requires LineAt(s, end) && |s| == end + 3 && s[end + 1] == DQ && s[end + 2] == LF
    requires i <= end && DanglingEscape(s, i, end) && Roomy(lim, args, end - i)
    ensures SplitArgs(s, i, end, args).None? && ReadArgs(s, i, args, lim).Ok?
    decreases end - i
  {
    SkipAgrees(s, i, end);
    var j := SkipBlanks(s, i, end);
    assert s[j] != LF;
    var room := lim.buffer - Total(args);
    var y := ScanToken(s, j, Bare, [], room);
    if DanglingToken(s, j, end, Bare) {
      DanglingTokenContinues(s, j, end, Bare, [], room);
      TotalSnoc(args, y.tok);
      assert ReadArgs(s, end + 2, args + [y.tok], lim).Ok?;
    } else {
      var x := SplitToken(s, j, end, Bare, []);
      TokenAgrees(s, j, end, Bare, [], room);
      TotalSnoc(args, x.tok);
      DanglingReads(s, x.at, end, args + [x.tok], lim);
      assert ReadArgs(s, y.at, args + [x.tok], lim) == ReadArgs(s, x.at, args + [x.tok], lim);
    }
  }

  /**
   The two tokenizers agree on a line whatever follows it exactly when the line does not end
   in a backslash inside double quotes.
   */
  lemma {:induction false} AgreesForEveryTailIff(l: Str, lim: Limits)
    requires NoLF(l) && Roomy(lim, [], |l|)
    ensures (forall tail: Str :: Agrees(SplitArgs(l, 0, |l|, []), ReadArgs(l + [LF] + tail, 0, [], lim), |l|, lim))
            <==> !DanglingEscape(l, 0, |l|)
  {
    if DanglingEscape(l, 0, |l|) {
      var s := l + [LF] + [DQ, LF];
      LineInFront(l, [DQ, LF]);
      SplitArgsOfLine(l, s, 0, []);
      DanglingReads(s, 0, |l|, [], lim);
      assert !Agrees(SplitArgs(l, 0, |l|, []), ReadArgs(l + [LF] + [DQ, LF], 0, [], lim), |l|, lim);
    } else {
      forall tail: Str ensures Agrees(SplitArgs(l, 0, |l|, []), ReadArgs(l + [LF] + tail, 0, [], lim), |l|, lim) {
        ReadAgreesWithSplit(l, tail, lim);
      }
    }
  }

  /**
   Such a line: a double quote and a backslash. When a quote and another newline follow, the
   reader takes the first newline as the argument, and the reference tokenizer has no answer.
   */
  lemma {:induction false} DanglingEscapeTellsApart(lim: Limits)
    requires lim.args > 0 && lim.bulk > 0 && lim.buffer > 0
    ensures DanglingEscape([DQ, BS], 0, 2) && SplitArgs([DQ, BS], 0, 2, []) == None
    ensures ReadArgs([DQ, BS] + [LF] + [DQ, LF], 0, [], lim) == Ok([[LF]], 5)
  {
    var s := [DQ, BS] + [LF] + [DQ, LF];
    var room := lim.buffer;
    assert ScanToken(s, 3, Double, [LF], room - 1) == Token([LF], 4);
    assert NextRound(s, 1, Double) == Emit(LF, 2) && NextRound(s, 0, Bare) == Enter(Double);
    assert ScanToken(s, 1, Double, [], room) == Token([LF], 4);
    assert ScanToken(s, 0, Bare, [], room) == Token([LF], 4);
    TotalSnoc([], [LF]);
    assert [] + [[LF]] == [[LF]] && Total([]) == 0;
    assert ReadArgs(s, 4, [[LF]], lim) == Ok([[LF]], 5);
  }

  lemma {:induction false} TokenUnbalanced(s: Str, i: nat, end: nat, q: Quote, cur: Str, room: nat)
    requires LineAt(s, end) && i <= end && !DanglingToken(s, i, end, q) && room >= end - i
    requires SplitToken(s, i, end, q, cur).LineError?
    ensures ScanToken(s, i, q, cur, room) == Failed(UnbalancedQuotes)
    decreases end - i
  {
    hide LineRound, NextRound;
    if i == end {
      RoundAtNewline(s, end, q);
    } else {
      RoundsAgree(s, i, end, q);
      match LineRound(s, i, end, q) {
        case Emit(c, k) => TokenUnbalanced(s, i + k, end, q, cur + [c], room - 1);
        case Enter(q') => TokenUnbalanced(s, i + 1, end, q', cur, room);
        case _ =>
      }
    }
  }

  /** Where the reference tokenizer has no answer, the reader's error is that of unbalanced quotes. */
  lemma {:induction false} UnbalancedIsReported(s: Str, i: nat, end: nat, args: seq<Str>, lim: Limits)
    requires LineAt(s, end) && i <= end && !DanglingEscape(s, i, end) && Roomy(lim, args, end - i)
    requires SplitArgs(s, i, end, args).None?
    ensures ReadArgs(s, i, args, lim) == Err(UnbalancedQuotes)
    decreases end - i
  {
    hide LineRound, NextRound;
    SkipAgrees(s, i, end);
    var j := SkipBlanks(s, i, end);
    assert s[j] != LF;
    var room := lim.buffer - Total(args);
    var x, y := SplitToken(s, j, end, Bare, []), ScanToken(s, j, Bare, [], room);
    if x.LineError? {
      TokenUnbalanced(s, j, end, Bare, [], room);
    } else {
      TokenAgrees(s, j, end, Bare, [], room);
      TotalSnoc(args, x.tok);
      UnbalancedIsReported(s, x.at, end, args + [x.tok], lim);
      assert ReadArgs(s, y.at, args + [x.tok], lim) == ReadArgs(s, x.at, args + [x.tok], lim);
    }
  }
}
