/**
 Writing inline commands so that they are read back: arguments bare, in single quotes or in
 double quotes with escapes, any separators between them. All bytes are literal, so this
 says what the quotes, the escapes and the separators of the tokenizer mean.
 */
module InlineQuoting {
  import opened Bytes
  import opened InlineArgs

  // ----- how an argument may be written

  datatype Word = Plain(text: Str) | InSingle(text: Str) | InDouble(text: Str, upper: bool)

  /** A hexadecimal digit, in either case. */
  function HexDigit(d: nat, upper: bool): byte
    requires d < 16
  {
    if d < 10 then 48 + d else if upper then 55 + d else 87 + d
  }

  /** One byte between double quotes. */
  function Escaped(c: byte, upper: bool): (r: Str)
    ensures |r| > 0
  {
    if c == 10 then [92, 110]                                      // \n
    else if c == 13 then [92, 114]                                 // \r
    else if c == 9 then [92, 116]                                  // \t
    else if c == 8 then [92, 98]                                   // \b
    else if c == 7 then [92, 97]                                   // \a
    else if c == 34 || c == 92 then [92, c]                        // \" and \\
    else if 32 <= c < 127 then [c]
    else [92, 120, HexDigit(c / 16, upper), HexDigit(c % 16, upper)]             // \xHH
  }

  /** One byte between single quotes. */
  function Guarded(c: byte): (r: Str)
    ensures |r| > 0
  {
    if c == 39 then [92, 39] else [c]
  }

  /** The bytes of `a` from the k-th on and the closing quote. */
  function DoubleFrom(a: Str, upper: bool, k: nat): Str
    requires k <= |a|
    decreases |a| - k
  {
    if k == |a| then [34] else Escaped(a[k], upper) + DoubleFrom(a, upper, k + 1)
  }

  function SingleFrom(a: Str, k: nat): Str
    requires k <= |a|
    decreases |a| - k
  {
    if k == |a| then [39] else Guarded(a[k]) + SingleFrom(a, k + 1)
  }

  function Written(w: Word): Str {
    match w
    case Plain(a) => a
    case InSingle(a) => [39] + SingleFrom(a, 0)
    case InDouble(a, upper) => [34] + DoubleFrom(a, upper, 0)
  }

  /** NUL, tab, vertical tab, form feed, carriage return, space. */
  predicate Separator(c: byte) {
    c == 0 || c == 9 || c == 11 || c == 12 || c == 13 || c == 32
  }

  /** The separators that also end a bare word. */
  predicate Breaks(c: byte) {
    c == 0 || c == 9 || c == 13 || c == 32
  }

  predicate PlainByte(c: byte) {
    !Separator(c) && c != 10 && c != 34 && c != 39
  }

  /**
   Double quotes hold anything. Single quotes hold no newline and no backslash at the end. A
   bare word is not empty and holds no separator, newline or quote.
   */
  predicate Writable(w: Word) {
    match w
    case Plain(a) => |a| > 0 && forall k :: 0 <= k < |a| ==> PlainByte(a[k])
    case InSingle(a) => (|a| > 0 ==> a[|a| - 1] != 92) && forall k :: 0 <= k < |a| ==> a[k] != 10
    case InDouble(_, _) => true
  }

  predicate Gap(g: Str) {
    forall k :: 0 <= k < |g| ==> Separator(g[k])
  }

  /** What may stand between two words. */
  predicate Parts(w: Word, g: Str) {
    Gap(g) && |g| > 0 && (w.Plain? ==> Breaks(g[0]))
  }

  /** What may stand between the last word and the newline. */
  predicate Trails(w: Word, g: Str) {
    Gap(g) && (w.Plain? && |g| > 0 ==> Breaks(g[0]))
  }

  /** `gaps[k]` stands before the k-th word, the last gap before the newline. */
  predicate LineOk(words: seq<Word>, gaps: seq<Str>) {
    && |gaps| == |words| + 1 && Gap(gaps[0])
    && (forall k :: 0 <= k < |words| ==> Writable(words[k]))
    && (forall k :: 0 < k < |words| ==> Parts(words[k - 1], gaps[k]))
    && (|words| > 0 ==> Trails(words[|words| - 1], gaps[|words|]))
  }

  /** The line from the gap before the k-th word on. */
  function LineFrom(words: seq<Word>, gaps: seq<Str>, k: nat): Str
    requires k <= |words| && |gaps| == |words| + 1
    decreases |words| - k
  {
    if k == |words| then gaps[k] + [10] else gaps[k] + (Written(words[k]) + LineFrom(words, gaps, k + 1))
  }

  function Texts(words: seq<Word>, k: nat): (r: seq<Str>)
    requires k <= |words|
    ensures |r| == k
  {
    seq(k, i requires 0 <= i < k => words[i].text)
  }

  // ----- one word

  lemma {:induction false} HexOf(c: byte, upper: bool)
    ensures IsHexDigit(HexDigit(c / 16, upper)) && IsHexDigit(HexDigit(c % 16, upper))
    ensures HexByte(HexDigit(c / 16, upper), HexDigit(c % 16, upper)) == c
  {
    HexDigitOf(c / 16, upper);
    HexDigitOf(c % 16, upper);
  }

  lemma {:induction false} HexDigitOf(d: nat, upper: bool)
    requires d < 16
    ensures IsHexDigit(HexDigit(d, upper)) && HexDigitToInt(HexDigit(d, upper)) == d
  {
  }

  /** One round of the loop takes one byte as it was written. */
  lemma {:induction false} EscapedRound(s: Str, p: nat, c: byte, upper: bool)
    requires At(s, p, Escaped(c, upper))
    ensures p + |Escaped(c, upper)| <= |s| && NextRound(s, p, Double) == Emit(c, |Escaped(c, upper)|)
  {
    hide At, HexByte;
    var e := Escaped(c, upper);
    AtWithin(s, p, e);
    AtIndex(s, p, e, 0);
    if |e| > 1 { AtIndex(s, p, e, 1); }
    if |e| > 2 {
      AtIndex(s, p, e, 2);
      AtIndex(s, p, e, 3);
      HexOf(c, upper);
    }
  }

  lemma {:induction false} GuardedRound(s: Str, p: nat, c: byte)
    requires At(s, p, Guarded(c)) && c != 10 && (c == 92 ==> p + 1 < |s| && s[p + 1] != 39)
    ensures p + |Guarded(c)| <= |s| && NextRound(s, p, Single) == Emit(c, |Guarded(c)|)
  {
    hide At;
    var e := Guarded(c);
    AtWithin(s, p, e);
    AtIndex(s, p, e, 0);
    if |e| > 1 { AtIndex(s, p, e, 1); }
  }

  /** The whole argument, when there is room for the bytes from the k-th on. */
  function Scanned(a: Str, k: nat, room: nat, at: nat): Scan
    requires k <= |a|
  {
    if |a| - k <= room then Token(a, at) else Failed(BufferFull)
  }

  lemma {:induction false} DoubleScan(s: Str, p: nat, a: Str, upper: bool, k: nat, room: nat)
    requires k <= |a| && At(s, p, DoubleFrom(a, upper, k))
    requires p + |DoubleFrom(a, upper, k)| < |s| && SpaceClass(s[p + |DoubleFrom(a, upper, k)|]) > 0
    ensures ScanToken(s, p, Double, a[..k], room) == Scanned(a, k, room, p + |DoubleFrom(a, upper, k)|)
    decreases |a| - k
  {
    hide At, NextRound, SpaceClass, Escaped;
    AtWithin(s, p, DoubleFrom(a, upper, k));
    if k == |a| {
      AtIndex(s, p, [34], 0);
      QuoteEnds(s, p, Double);
      assert a[..k] == a;
    } else {
      AtSum(s, p, Escaped(a[k], upper), DoubleFrom(a, upper, k + 1));
      EscapedRound(s, p, a[k], upper);
      assert a[..k] + [a[k]] == a[..k + 1];
      if room > 0 { DoubleScan(s, p + |Escaped(a[k], upper)|, a, upper, k + 1, room - 1); }
    }
  }

  lemma {:induction false} QuoteEnds(s: Str, p: nat, q: Quote)
    requires p + 1 < |s| && SpaceClass(s[p + 1]) > 0
    requires (q.Double? && s[p] == 34) || (q.Single? && s[p] == 39)
    ensures NextRound(s, p, q) == Close
  {
  }

  lemma {:induction false} LoneBackslash()
    ensures Guarded(92) == [92]
  {
  }

  lemma {:induction false} SingleStarts(a: Str, k: nat)
    requires k < |a| && a[|a| - 1] != 92
    ensures a[k] == 92 ==> k + 1 < |a| && SingleFrom(a, k + 1)[0] != 39
  {
  }

  lemma {:induction false} SingleScan(s: Str, p: nat, a: Str, k: nat, room: nat)
    requires k <= |a| && At(s, p, SingleFrom(a, k)) && Writable(InSingle(a))
    requires p + |SingleFrom(a, k)| < |s| && SpaceClass(s[p + |SingleFrom(a, k)|]) > 0
    ensures ScanToken(s, p, Single, a[..k], room) == Scanned(a, k, room, p + |SingleFrom(a, k)|)
    decreases |a| - k
  {
    hide At, NextRound, SpaceClass, Guarded;
    AtWithin(s, p, SingleFrom(a, k));
    if k == |a| {
      AtIndex(s, p, [39], 0);
      QuoteEnds(s, p, Single);
      assert a[..k] == a;
    } else {
      AtSum(s, p, Guarded(a[k]), SingleFrom(a, k + 1));
      if a[k] == 92 {
        SingleStarts(a, k);
        LoneBackslash();
        AtIndex(s, p + 1, SingleFrom(a, k + 1), 0);
      }
      GuardedRound(s, p, a[k]);
      assert a[..k] + [a[k]] == a[..k + 1];
      if room > 0 { SingleScan(s, p + |Guarded(a[k])|, a, k + 1, room - 1); }
    }
  }

  lemma {:induction false} PlainScan(s: Str, p: nat, a: Str, k: nat, room: nat)
    requires k <= |a| && p + |a| < |s| && Writable(Plain(a)) && At(s, p, a)
    requires Breaks(s[p + |a|]) || s[p + |a|] == 10
    ensures ScanToken(s, p + k, Bare, a[..k], room) == Scanned(a, k, room, p + |a|)
    decreases |a| - k
  {
    hide At;
    if k == |a| {
      assert a[..k] == a;
    } else {
      AtIndex(s, p, a, k);
      assert PlainByte(a[k]);
      assert a[..k] + [a[k]] == a[..k + 1];
      if room > 0 { PlainScan(s, p, a, k + 1, room - 1); }
    }
  }

  /** What follows a word as it must: a separator that parts it from the rest, or the newline. */
  predicate Followed(s: Str, p: nat, w: Word) {
    p < |s| && (s[p] == 10 || (Separator(s[p]) && (w.Plain? ==> Breaks(s[p]))))
  }

  /** A written word is read back as its text, wherever it stands, when there is room for it. */
  lemma {:induction false} WordScan(s: Str, p: nat, w: Word, room: nat)
    requires Writable(w) && At(s, p, Written(w)) && Followed(s, p + |Written(w)|, w)
    ensures p < |s| && SpaceClass(s[p]) == 0
    ensures ScanToken(s, p, Bare, [], room) == Scanned(w.text, 0, room, p + |Written(w)|)
  {
    hide At, ScanToken, SingleFrom, DoubleFrom, NextRound, Scanned, Writable;
    assert w.text[..0] == [];
    match w
    case Plain(a) =>
      PlainStarts(s, p, a);
      PlainScan(s, p, a, 0, room);
    case InSingle(a) =>
      Quoted(s, p, 39, SingleFrom(a, 0));
      OpensQuote(s, p, Single, room);
      SingleScan(s, p + 1, a, 0, room);
    case InDouble(a, upper) =>
      Quoted(s, p, 34, DoubleFrom(a, upper, 0));
      OpensQuote(s, p, Double, room);
      DoubleScan(s, p + 1, a, upper, 0, room);
  }

  lemma {:induction false} PlainStarts(s: Str, p: nat, a: Str)
    requires Writable(Plain(a)) && At(s, p, a)
    ensures p < |s| && p + |a| <= |s| && SpaceClass(s[p]) == 0
  {
    AtIndex(s, p, a, 0);
    assert PlainByte(a[0]);
  }

  lemma {:induction false} Quoted(s: Str, p: nat, q: byte, rest: Str)
    requires At(s, p, [q] + rest)
    ensures p < |s| && s[p] == q && At(s, p + 1, rest)
  {
    AtSum(s, p, [q], rest);
    AtIndex(s, p, [q], 0);
  }

  lemma {:induction false} OpensQuote(s: Str, p: nat, q: Quote, room: nat)
    requires p < |s| && ((q.Double? && s[p] == 34) || (q.Single? && s[p] == 39))
    ensures SpaceClass(s[p]) == 0 && ScanToken(s, p, Bare, [], room) == ScanToken(s, p + 1, q, [], room)
  {
  }

  // ----- the line

  lemma {:induction false} GapSkipped(s: Str, p: nat, g: Str, k: nat)
    requires Gap(g) && At(s, p, g) && k <= |g|
    ensures p + |g| <= |s| && SkipSpaces(s, p + k) == SkipSpaces(s, p + |g|)
    decreases |g| - k
  {
    hide At;
    AtWithin(s, p, g);
    if k < |g| {
      AtIndex(s, p, g, k);
      GapSkipped(s, p, g, k + 1);
    }
  }

  lemma {:induction false} LineStarts(words: seq<Word>, gaps: seq<Str>, k: nat)
    requires LineOk(words, gaps) && 0 < k <= |words|
    ensures
      var l := LineFrom(words, gaps, k);
      |l| > 0 && (l[0] == 10 || (Separator(l[0]) && (words[k - 1].Plain? ==> Breaks(l[0]))))
  {
    if k < |words| { assert Parts(words[k - 1], gaps[k]); } else { assert Trails(words[k - 1], gaps[k]); }
  }

  /**
   What the reader answers: the first argument that goes over a limit decides, by the buffer,
   by its own length or by the number of arguments; without one, all of them.
   */
  function Answer(texts: seq<Str>, k: nat, lim: Limits, at: nat): Command
    requires k <= |texts|
    decreases |texts| - k
  {
    if k == |texts| then Ok(texts, at)
    else if TotalOf(texts, k + 1) > lim.buffer then Err(BufferFull)
    else if |texts[k]| > lim.bulk then Err(InvalidBulkLength)
    else if k + 1 > lim.args then Err(InvalidMultiBulkLength)
    else Answer(texts, k + 1, lim, at)
  }

  lemma {:induction false} LineReadFrom(s: Str, p: nat, words: seq<Word>, gaps: seq<Str>, k: nat, lim: Limits)
    requires LineOk(words, gaps) && k <= |words| && At(s, p, LineFrom(words, gaps, k))
    requires Total(Texts(words, k)) <= lim.buffer
    ensures p <= |s| && ReadArgs(s, p, Texts(words, k), lim) ==
            Answer(Texts(words, |words|), k, lim, p + |LineFrom(words, gaps, k)|)
    decreases |words| - k
  {
    hide At, ScanToken, Written, SkipSpaces, Parts, Trails, Total, TotalOf;
    var g, l := gaps[k], LineFrom(words, gaps, k);
    AtWithin(s, p, l);
    assert Gap(g) by { GapAt(words, gaps, k); }
    var rest := if k == |words| then [10] else Written(words[k]) + LineFrom(words, gaps, k + 1);
    AtSum(s, p, g, rest);
    GapSkipped(s, p, g, 0);
    var q := p + |g|;
    if k == |words| {
      AtIndex(s, q, [10], 0);
      NothingSkipped(s, q);
    } else {
      var w := words[k];
      AtSum(s, q, Written(w), LineFrom(words, gaps, k + 1));
      LineStarts(words, gaps, k + 1);
      AtIndex(s, q + |Written(w)|, LineFrom(words, gaps, k + 1), 0);
      TextTotals(words, k);
      WordScan(s, q, w, lim.buffer - Total(Texts(words, k)));
      NothingSkipped(s, q);
      assert Texts(words, k) + [w.text] == Texts(words, k + 1);
      if Total(Texts(words, k + 1)) <= lim.buffer {
        LineReadFrom(s, q + |Written(w)|, words, gaps, k + 1, lim);
      }
    }
  }

  lemma {:induction false} GapAt(words: seq<Word>, gaps: seq<Str>, k: nat)
    requires LineOk(words, gaps) && k <= |words|
    ensures Gap(gaps[k])
  {
    if 0 < k < |words| { assert Parts(words[k - 1], gaps[k]); }
  }

  lemma {:induction false} NothingSkipped(s: Str, q: nat)
    requires q < |s| && (SpaceClass(s[q]) == 0 || s[q] == 10)
    ensures SkipSpaces(s, q) == q
  {
  }

  lemma {:induction false} TextTotals(words: seq<Word>, k: nat)
    requires k < |words|
    ensures Total(Texts(words, k)) + |words[k].text| == Total(Texts(words, k + 1))
    ensures Total(Texts(words, k + 1)) == TotalOf(Texts(words, |words|), k + 1)
  {
    var all := Texts(words, |words|);
    TotalOfSame(all, Texts(words, k), k);
    TotalOfSame(all, Texts(words, k + 1), k + 1);
  }

  lemma {:induction false} AnswerWithin(texts: seq<Str>, k: nat, lim: Limits, at: nat)
    requires k <= |texts| && Within(texts, lim)
    ensures Answer(texts, k, lim, at) == Ok(texts, at)
    decreases |texts| - k
  {
    if k < |texts| {
      TotalOfGrows(texts, k + 1, |texts|);
      AnswerWithin(texts, k + 1, lim, at);
    }
  }

  /**
   Any arguments, each written in one of the three ways and set apart by any separators, are
   read back unchanged and exactly the line is consumed, wherever it stands and whatever
   follows, when they are within the limits; otherwise the error is that of the first argument
   that goes over one.
   */
  lemma {:induction false} QuotingRoundTrip(s: Str, p: nat, words: seq<Word>, gaps: seq<Str>, lim: Limits)
    requires LineOk(words, gaps) && At(s, p, LineFrom(words, gaps, 0))
    ensures
      var texts, end := Texts(words, |words|), p + |LineFrom(words, gaps, 0)|;
      && p <= |s| && ReadArgs(s, p, [], lim) == Answer(texts, 0, lim, end)
      && (Within(texts, lim) ==> ReadArgs(s, p, [], lim) == Ok(texts, end))
  {
    hide At, ReadArgs, LineFrom, Answer, Within, Writable, Parts, Trails, Gap;
    var texts, end := Texts(words, |words|), p + |LineFrom(words, gaps, 0)|;
    assert Texts(words, 0) == [];
    LineReadFrom(s, p, words, gaps, 0, lim);
    if Within(texts, lim) { AnswerWithin(texts, 0, lim, end); }
  }
}
