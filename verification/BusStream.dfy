/**
 The cluster bus as a stream of bytes: the loop that cuts it into messages by their announced
 length, what it hands over, and when it comes to an orderly end.
 */
module BusStream {
  import opened Bytes
  import opened BusCodec

  const PREFIX: nat := 8

  /** The loop returns, or fails: on a length below its own prefix, or on a message that was refused. */
  datatype End = Stopped | Fails

  datatype Delivery = Delivery(msgs: seq<Msg>, end: End)

  /** A signature stands at `i`, with the length after it. */
  predicate HeaderAt(s: Str, i: nat) {
    i + PREFIX <= |s| && Sub(s, i, i + 4) == SIGNATURE
  }

  /** clusterReadLoop from position `i` of the stream on, after `msgs`; the error of the decoder is not looked at. */
  function ReadFrom(s: Str, i: nat, msgs: seq<Msg>): Delivery
    requires i <= |s|
    decreases |s| - i
  {
    if !HeaderAt(s, i) then Delivery(msgs, Stopped)
    else
      var len := U32At(s, i + 4);
      if len < PREFIX then Delivery(msgs, Fails)
      else if i + len > |s| then Delivery(msgs, Stopped)
      else match Decode(Sub(s, i, i + len))
        case None => Delivery(msgs, Fails)
        case Some(m) => ReadFrom(s, i + len, msgs + [m])
  }

  method ReadLoop(s: Str) returns (msgs: seq<Msg>, end: End)
    ensures Delivery(msgs, end) == ReadFrom(s, 0, [])
  {
    hide Decode, Sub, U32At;
    msgs := [];
    var i := 0;
    while true
      invariant i <= |s| && ReadFrom(s, i, msgs) == ReadFrom(s, 0, [])
      decreases |s| - i
    {
      if i + PREFIX > |s| || Sub(s, i, i + 4) != SIGNATURE { return msgs, Stopped; }
      var totLen := U32At(s, i + 4);
      if totLen < PREFIX { return msgs, Fails; }
      if i + totLen > |s| { return msgs, Stopped; }
      var msg := Deserialize(Sub(s, i, i + totLen));
      if msg.None? { return msgs, Fails; }
      msgs := msgs + [msg.value];
      i := i + totLen;
    }
  }

  // ----- the framing alone

  predicate FrameAt(s: Str, i: nat) {
    HeaderAt(s, i) && PREFIX <= U32At(s, i + 4) && i + U32At(s, i + 4) <= |s|
  }

  /** The buffers the lengths cut the stream into, whatever is in them. */
  function Frames(s: Str, i: nat): seq<Str>
    requires i <= |s|
    decreases |s| - i
  {
    if FrameAt(s, i) then [Sub(s, i, i + U32At(s, i + 4))] + Frames(s, i + U32At(s, i + 4)) else []
  }

  /** Where the last of them ends. */
  function FramesEnd(s: Str, i: nat): (p: nat)
    requires i <= |s|
    ensures p <= |s| && !FrameAt(s, p)
    decreases |s| - i
  {
    if FrameAt(s, i) then FramesEnd(s, i + U32At(s, i + 4)) else i
  }

  /** A header that announces less than itself. */
  predicate TooShortAt(s: Str, p: nat) {
    HeaderAt(s, p) && U32At(s, p + 4) < PREFIX
  }

  function FirstRefused(frames: seq<Str>): (k: nat)
    ensures k <= |frames| && (forall j :: 0 <= j < k ==> Accepted(frames[j])) && (k < |frames| ==> !Accepted(frames[k]))
  {
    if |frames| == 0 || !Accepted(frames[0]) then 0 else 1 + FirstRefused(frames[1..])
  }

  function Decoded(frames: seq<Str>, k: nat): seq<Msg>
    requires k <= |frames| && forall j :: 0 <= j < k ==> Accepted(frames[j])
  {
    seq(k, j requires 0 <= j < k => Decode(frames[j]).value)
  }

  /** Every stream: the loop hands over the frames up to the first one the decoder refuses. */
  lemma {:induction false} HandsOver(s: Str, i: nat, msgs: seq<Msg>)
    requires i <= |s|
    ensures
      var frames := Frames(s, i);
      var k := FirstRefused(frames);
      ReadFrom(s, i, msgs) ==
        Delivery(msgs + Decoded(frames, k), if k < |frames| || TooShortAt(s, FramesEnd(s, i)) then Fails else Stopped)
    decreases |s| - i
  {
    hide Accepted, Sub, U32At, HeadAt, WordsAt, EntriesAt;
    var frames := Frames(s, i);
    if FrameAt(s, i) {
      var len := U32At(s, i + 4);
      var b := Sub(s, i, i + len);
      assert frames[0] == b && frames[1..] == Frames(s, i + len);
      if Accepted(b) {
        var m := Decode(b).value;
        HandsOver(s, i + len, msgs + [m]);
        var k := FirstRefused(frames[1..]);
        DecodedCons(frames, k);
        assert msgs + [m] + Decoded(frames[1..], k) == msgs + ([m] + Decoded(frames[1..], k));
      }
    }
    assert msgs + [] == msgs;
  }

  lemma {:induction false} DecodedCons(frames: seq<Str>, k: nat)
    requires |frames| > 0 && k <= |frames| - 1 && Accepted(frames[0]) &&
      forall j :: 0 <= j < k ==> Accepted(frames[1..][j])
    ensures forall j :: 0 <= j < k + 1 ==> Accepted(frames[j])
    ensures Decoded(frames, k + 1) == [Decode(frames[0]).value] + Decoded(frames[1..], k)
  {
    hide Accepted, Decode;
    forall j | 0 <= j < k + 1 ensures Accepted(frames[j]) {
      if j > 0 { assert frames[1..][j - 1] == frames[j]; }
    }
  }

  /**
   The loop comes to an orderly end exactly when every framed buffer is accepted and no header
   announces less than itself.
   */
  lemma {:induction false} EndsOrderlyIff(s: Str)
    ensures ReadFrom(s, 0, []).end == Stopped <==>
              (forall j :: 0 <= j < |Frames(s, 0)| ==> Accepted(Frames(s, 0)[j])) && !TooShortAt(s, FramesEnd(s, 0))
  {
    hide Accepted, ReadFrom, Frames, FramesEnd, TooShortAt;
    HandsOver(s, 0, []);
  }

  /** A header with nothing behind it, although its length is right: too short for a message. */
  lemma {:induction false} BareHeaderFails()
    ensures ReadFrom(SIGNATURE + [0, 0, 0, 8], 0, []) == Delivery([], Fails)
  {
    var s: Str := SIGNATURE + [0, 0, 0, 8];
    SubIsSlice(s, 0, 4);
    SubIsSlice(s, 4, 8);
    assert s[4..8] == BigEndian(8, 4);
    Widths();
    NumberBigEndian(8, 4);
    assert U32At(s, 4) == 8;
  }

  // ----- streams that were written

  /** The messages from the k-th on, one encoding after the other. */
  function Stream(ms: seq<Msg>, k: nat): Str
    requires k <= |ms|
    decreases |ms| - k
  {
    if k == |ms| then [] else Wire(ms[k]) + Stream(ms, k + 1)
  }

  /** What writing a message needs: the right signature and length. */
  predicate Sendable(m: Msg) {
    m.sig == SIGNATURE && Encode(m).Some?
  }

  lemma {:induction false} WireIsAccepted(m: Msg)
    requires Sendable(m)
    ensures Accepted(Wire(m)) && Decode(Wire(m)) == Some(Normal(m))
  {
    hide Wire, Normal, Accepted, HeadAt, WordsAt, EntriesAt;
    DecodeEncode(m);
  }

  lemma {:induction false} WireFramed(s: Str, i: nat, m: Msg)
    requires Sendable(m) && At(s, i, Wire(m))
    ensures i + |Wire(m)| <= |s| && |Wire(m)| >= HEADER_SIZE && HeaderAt(s, i)
    ensures U32At(s, i + 4) == |Wire(m)| && Sub(s, i, i + |Wire(m)|) == Wire(m)
  {
    hide Wire, At, Sub, Number, Normal;
    WireIsAccepted(m);
    var b := Wire(m);
    SubAt(s, i, b);
    SubOfSub(s, i, |b|, 0, 4);
    SubOfSub(s, i, |b|, 4, 8);
  }

  lemma {:induction false} SubOfSub(s: Str, i: nat, n: nat, a: nat, b: nat)
    requires i + n <= |s| && a <= b <= n
    ensures Sub(Sub(s, i, i + n), a, b) == Sub(s, i + a, i + b)
  {
    hide Sub;
    SubIsSlice(s, i, i + n);
    SubIsSlice(s, i + a, i + b);
    SubIsSlice(s[i..i + n], a, b);
    var x, y := s[i..i + n][a..b], s[i + a..i + b];
    forall k | 0 <= k < b - a ensures x[k] == y[k] { assert s[i..i + n][a + k] == s[i + (a + k)]; }
    assert x == y;
  }

  function Normals(ms: seq<Msg>, k: nat): seq<Msg>
    requires k <= |ms|
  {
    seq(k, j requires 0 <= j < k => Normal(ms[j]))
  }

  lemma {:induction false} StreamFrom(s: Str, i: nat, ms: seq<Msg>, k: nat)
    requires k <= |ms| && (forall j :: 0 <= j < |ms| ==> Sendable(ms[j])) && At(s, i, Stream(ms, k))
    ensures i + |Stream(ms, k)| <= |s|
    ensures ReadFrom(s, i, Normals(ms, k)) == ReadFrom(s, i + |Stream(ms, k)|, Normals(ms, |ms|))
    decreases |ms| - k
  {
    hide Wire, At, Sub, U32At, Normal, Accepted, Decode, Sendable;
    AtWithin(s, i, Stream(ms, k));
    if k < |ms| {
      assert Sendable(ms[k]);
      AtSum(s, i, Wire(ms[k]), Stream(ms, k + 1));
      WireFramed(s, i, ms[k]);
      WireIsAccepted(ms[k]);
      assert Normals(ms, k) + [Normal(ms[k])] == Normals(ms, k + 1);
      StreamFrom(s, i + |Wire(ms[k])|, ms, k + 1);
    }
  }

  /**
   A stream of messages that were written, cut off anywhere inside a further header: the loop
   hands over exactly their normal forms, in order, and stops.
   */
  lemma {:induction false} StreamRoundTrip(ms: seq<Msg>, tail: Str)
    requires (forall j :: 0 <= j < |ms| ==> Sendable(ms[j])) && |tail| < PREFIX
    ensures ReadFrom(Stream(ms, 0) + tail, 0, []) == Delivery(Normals(ms, |ms|), Stopped)
  {
    hide Sendable, Normal, Decode, Sub, U32At;
    var s := Stream(ms, 0) + tail;
    AtPointwise(s, 0, Stream(ms, 0));
    assert Normals(ms, 0) == [];
    StreamFrom(s, 0, ms, 0);
  }

  /** They come back unchanged exactly when all of them are canonical. */
  lemma {:induction false} StreamUnchangedIff(ms: seq<Msg>)
    requires forall j :: 0 <= j < |ms| ==> Sendable(ms[j])
    ensures ReadFrom(Stream(ms, 0), 0, []) == Delivery(ms, Stopped) <==>
              forall j :: 0 <= j < |ms| ==> Canonical(ms[j])
  {
    hide Sendable, Normal, Canonical, ReadFrom, Stream;
    StreamRoundTrip(ms, []);
    assert Stream(ms, 0) + [] == Stream(ms, 0);
    forall j | 0 <= j < |ms| ensures Normal(ms[j]) == ms[j] <==> Canonical(ms[j]) {
      assert Sendable(ms[j]);
      NormalIff(ms[j]);
    }
    if forall j :: 0 <= j < |ms| ==> Canonical(ms[j]) {
      assert Normals(ms, |ms|) == ms;
    } else {
      var j :| 0 <= j < |ms| && !Canonical(ms[j]);
      assert Normals(ms, |ms|)[j] != ms[j];
    }
  }

  lemma {:induction false} NormalIff(m: Msg)
    requires Sendable(m)
    ensures Normal(m) == m <==> Canonical(m)
  {
    hide Wire, Normal, Canonical, Decode;
    DecodeEncode(m);
    RoundTripIff(m);
  }
}
