/** The binary form of cluster bus messages: a fixed header, a slot bitmap and gossip entries. */
module BusCodec {
  import opened Bytes
  import opened Bitmap

  type u16 = x: int | 0 <= x < 0x1_0000
  type u32 = x: int | 0 <= x < 0x1_0000_0000

  const SIGNATURE: Str := [82, 67, 109, 98]  // "RCmb"
  const NAME_SIZE: nat := 40
  const HEADER_SIZE: nat := 2106
  const GOSSIP_SIZE: nat := 54
  const SLOTS_AT: nat := 58

  datatype Entry = Entry(name: Str, pingSent: u32, pongReceived: u32, port: u16, cport: u16, flags: u16)

  datatype Head = Head(kind: u16, port: u16, sender: Str, cport: u16, flags: u16, state: int)

  /** [4]byte. */
  type Sig = s: Str | |s| == 4 witness SIGNATURE

  datatype Msg = Msg(sig: Sig, totLen: u32, count: u16, head: Head, slots: Words, gossip: seq<Entry>)

  // ----- big-endian numbers

  function Pow256(k: nat): (p: nat)
    ensures p > 0
  {
    if k == 0 then 1 else 256 * Pow256(k - 1)
  }

  function BigEndian(n: nat, k: nat): (r: Str)
    ensures |r| == k
  {
    if k == 0 then [] else BigEndian(n / 256, k - 1) + [n % 256]
  }

  function Number(s: Str): (n: nat)
    ensures n < Pow256(|s|)
  {
    if |s| == 0 then 0 else Number(s[..|s| - 1]) * 256 + s[|s| - 1] as int
  }

  lemma {:induction false} NumberBigEndian(n: nat, k: nat)
    requires n < Pow256(k)
    ensures Number(BigEndian(n, k)) == n
  {
    if k > 0 {
      NumberBigEndian(n / 256, k - 1);
      assert BigEndian(n, k)[..k - 1] == BigEndian(n / 256, k - 1);
    }
  }

  lemma {:induction false} BigEndianNumber(s: Str)
    ensures BigEndian(Number(s), |s|) == s
  {
    if |s| > 0 {
      BigEndianNumber(s[..|s| - 1]);
      assert s == s[..|s| - 1] + [s[|s| - 1]];
    }
  }

  lemma {:induction false} Widths()
    ensures Pow256(2) == 0x1_0000 && Pow256(4) == 0x1_0000_0000 && Pow256(8) == Pow2(64)
  {
    assert Pow256(1) == 256 && Pow256(0) == 1;
    assert Pow256(3) == 256 * Pow256(2);
    assert Pow256(5) == 256 * Pow256(4);
    assert Pow256(6) == 256 * Pow256(5);
    assert Pow256(7) == 256 * Pow256(6);
    Doubling(8);
  }

  lemma {:induction false} Doubling(k: nat)
    ensures Pow256(k) == Pow2(8 * k)
  {
    if k > 0 {
      Doubling(k - 1);
      var p := 8 * k;
      assert Pow2(p) == 2 * Pow2(p - 1) && Pow2(p - 1) == 2 * Pow2(p - 2) && Pow2(p - 2) == 2 * Pow2(p - 3);
      assert Pow2(p - 3) == 2 * Pow2(p - 4) && Pow2(p - 4) == 2 * Pow2(p - 5) && Pow2(p - 5) == 2 * Pow2(p - 6);
      assert Pow2(p - 6) == 2 * Pow2(p - 7) && Pow2(p - 7) == 2 * Pow2(p - 8);
    }
  }

  // ----- names

  /** A 40-byte field: longer names are cut, shorter ones filled up with NUL bytes. */
  function Field(name: Str): (r: Str)
    ensures |r| == NAME_SIZE
  {
    seq(NAME_SIZE, i requires 0 <= i < NAME_SIZE => if i < |name| then name[i] else 0)
  }

  /** bytes.TrimRight with the NUL byte. */
  function Trim(s: Str): (r: Str)
    ensures |r| <= |s| && r == s[..|r|]
    ensures |r| > 0 ==> r[|r| - 1] != 0
    ensures forall i :: |r| <= i < |s| ==> s[i] == 0
  {
    if |s| == 0 || s[|s| - 1] != 0 then s
    else
      var r := Trim(s[..|s| - 1]);
      assert s[..|s| - 1][..|r|] == s[..|r|];
      r
  }

  /** Names that the field holds without loss. */
  predicate Clean(name: Str) {
    |name| <= NAME_SIZE && (|name| > 0 ==> name[|name| - 1] != 0)
  }

  lemma {:induction false} TrimUnique(s: Str, n: nat)
    requires n <= |s| && (n > 0 ==> s[n - 1] != 0) && forall i :: n <= i < |s| ==> s[i] == 0
    ensures Trim(s) == s[..n]
  {
    if n < |s| {
      TrimUnique(s[..|s| - 1], n);
      assert s[..|s| - 1][..n] == s[..n];
    }
  }

  /** A name comes back from its field exactly when it is clean. */
  lemma {:induction false} NameRoundTrip(name: Str)
    ensures Trim(Field(name)) == name <==> Clean(name)
  {
    if Clean(name) {
      TrimUnique(Field(name), |name|);
      assert Field(name)[..|name|] == name;
    }
  }

  /** A field comes back from the name it holds. */
  lemma {:induction false} FieldRoundTrip(s: Str)
    requires |s| == NAME_SIZE
    ensures Field(Trim(s)) == s && Clean(Trim(s))
  {
    var r := Trim(s);
    forall i | 0 <= i < NAME_SIZE ensures Field(r)[i] == s[i] {
      if i < |r| { assert r[i] == s[..|r|][i]; }
    }
  }

  /** Temporary names have 41 bytes ("temp_" and a 36-byte identifier) and do not survive. */
  lemma {:induction false} TemporaryNamesAreCut(name: Str)
    requires |name| == 41
    ensures Trim(Field(name)) != name
  {
  }

  // ----- encoding

  function TailBytes(h: Head): (r: Str)
    ensures |r| == 6
  {
    BigEndian(h.cport, 2) + (BigEndian(h.flags, 2) + BigEndian(h.state % 0x1_0000, 2))
  }

  function HeadBytes(sig: Sig, totLen: u32, h: Head): (r: Str)
    ensures |r| == SLOTS_AT
  {
    sig + (BigEndian(totLen, 4) + (BigEndian(h.kind, 2) + (BigEndian(h.port, 2) + (Field(h.sender) + TailBytes(h)))))
  }

  function WordsBytes(ws: Words, n: nat): (r: Str)
    requires n <= WORDS
    ensures |r| == 8 * n
  {
    if n == 0 then [] else WordsBytes(ws, n - 1) + BigEndian(ws[n - 1], 8)
  }

  function EntryBytes(e: Entry): (r: Str)
    ensures |r| == GOSSIP_SIZE
  {
    Field(e.name) + (BigEndian(e.pingSent, 4) + (BigEndian(e.pongReceived, 4)
      + (BigEndian(e.port, 2) + (BigEndian(e.cport, 2) + BigEndian(e.flags, 2)))))
  }

  function GossipBytes(es: seq<Entry>, n: nat): (r: Str)
    requires n <= |es|
    ensures |r| == GOSSIP_SIZE * n
  {
    if n == 0 then [] else GossipBytes(es, n - 1) + EntryBytes(es[n - 1])
  }

  function Wire(m: Msg): (r: Str)
    ensures |r| == HEADER_SIZE + GOSSIP_SIZE * |m.gossip|
  {
    HeadBytes(m.sig, m.totLen, m.head) + (WordsBytes(m.slots, WORDS) + GossipBytes(m.gossip, |m.gossip|))
  }

  /** serializeClusterMsg: nothing when the announced length is not the actual one. */
  function Encode(m: Msg): Option<Str> {
    if |Wire(m)| == m.totLen then Some(Wire(m)) else None
  }

  // ----- decoding

  function U16At(b: Str, p: nat): u16
    requires p + 2 <= |b|
  {
    Widths();
    Number(Sub(b, p, p + 2))
  }

  function U32At(b: Str, p: nat): u32
    requires p + 4 <= |b|
  {
    Widths();
    Number(Sub(b, p, p + 4))
  }

  function NameAt(b: Str, p: nat): Str
    requires p + NAME_SIZE <= |b|
  {
    Trim(Sub(b, p, p + NAME_SIZE))
  }

  function HeadAt(b: Str): Head
    requires |b| >= HEADER_SIZE
  {
    Head(U16At(b, 8), U16At(b, 10), NameAt(b, 12), U16At(b, 52), U16At(b, 54), U16At(b, 56))
  }

  function WordAt(b: Str, i: nat): (w: nat)
    requires |b| >= HEADER_SIZE && i < WORDS
    ensures IsWord(w)
  {
    Widths();
    Number(Sub(b, SLOTS_AT + 8 * i, SLOTS_AT + 8 * i + 8))
  }

  function WordsAt(b: Str): Words
    requires |b| >= HEADER_SIZE
  {
    seq(WORDS, i requires 0 <= i < WORDS => WordAt(b, i))
  }

  function EntryAt(b: Str, p: nat): Entry
    requires p + GOSSIP_SIZE <= |b|
  {
    Entry(NameAt(b, p), U32At(b, p + 40), U32At(b, p + 44), U16At(b, p + 48), U16At(b, p + 50), U16At(b, p + 52))
  }

  function EntriesAt(b: Str, n: nat): (r: seq<Entry>)
    requires HEADER_SIZE + GOSSIP_SIZE * n <= |b|
    ensures |r| == n
  {
    if n == 0 then [] else EntriesAt(b, n - 1) + [EntryAt(b, HEADER_SIZE + GOSSIP_SIZE * (n - 1))]
  }

  predicate Accepted(b: Str) {
    && |b| >= HEADER_SIZE && Sub(b, 0, 4) == SIGNATURE && U32At(b, 4) == |b|
    && (|b| - HEADER_SIZE) % GOSSIP_SIZE == 0
  }

  /** deserializeClusterMsg. */
  function Decode(b: Str): Option<Msg> {
    if !Accepted(b) then None
    else
      var n := (|b| - HEADER_SIZE) / GOSSIP_SIZE;
      Some(Msg(Sub(b, 0, 4), U32At(b, 4), n % 0x1_0000, HeadAt(b), WordsAt(b), EntriesAt(b, n)))
  }

  // ----- where everything stands

  lemma {:induction false} TwoBytes(b: Str, p: nat)
    requires p + 2 <= |b|
    ensures U16At(b, p) == 256 * b[p] as int + b[p + 1] as int
  {
    SubIsSlice(b, p, p + 2);
    var s := b[p..p + 2];
    assert s[..1] == [b[p]] && [b[p]][..0] == [];
    assert Number([]) == 0 && Number([b[p]]) == b[p] as int;
    assert Number(s) == 256 * Number(s[..1]) + s[1] as int;
  }

  lemma {:induction false} FourBytes(b: Str, p: nat)
    requires p + 4 <= |b|
    ensures U32At(b, p) == 256 * (256 * (256 * b[p] as int + b[p + 1] as int) + b[p + 2] as int) + b[p + 3] as int
  {
    SubIsSlice(b, p, p + 4);
    var s := b[p..p + 4];
    assert s[..3] == b[p..p + 3] && s[..3][..2] == b[p..p + 2] && b[p..p + 2][..1] == [b[p]] && [b[p]][..0] == [];
    assert Number([]) == 0 && Number([b[p]]) == b[p] as int;
    assert Number(b[p..p + 2]) == 256 * b[p] as int + b[p + 1] as int;
    assert Number(b[p..p + 3]) == 256 * Number(b[p..p + 2]) + b[p + 2] as int;
  }

  /** A name field: the name and NUL bytes up to forty. */
  lemma {:induction false} NameBytes(b: Str, p: nat, i: nat)
    requires p + 40 <= |b| && i < 40
    ensures |NameAt(b, p)| <= 40 && b[p + i] == if i < |NameAt(b, p)| then NameAt(b, p)[i] else 0
  {
    SubIsSlice(b, p, p + 40);
    assert b[p..p + 40][i] == b[p + i];
  }

  /** The bit of value 2 to the n in a big-endian number. */
  lemma {:induction false} BitOfNumber(s: Str, n: nat)
    requires n < 8 * |s|
    ensures Bit(Number(s), n) <==> Bit(s[|s| - 1 - n / 8], n % 8)
  {
    var t, last := s[..|s| - 1], s[|s| - 1];
    assert Pow2(8) == 256 by { Doubling(1); assert Pow256(0) == 1; }
    BitOfSum(Number(t), last, 8, n);
    if n >= 8 {
      BitOfNumber(t, n - 8);
      assert t[|t| - 1 - (n - 8) / 8] == s[|s| - 1 - n / 8];
    }
  }

  /**
   The wire format, offset by offset: what is read from an accepted buffer. The bitmap starts
   at byte 58, in words of eight bytes, the most significant first.
   */
  lemma {:induction false} Layout(b: Str, slot: nat)
    requires Accepted(b) && slot < 16384
    ensures b[0] == 82 && b[1] == 67 && b[2] == 109 && b[3] == 98
    ensures
      var m := Decode(b).value;
      && m.totLen == U32At(b, 4)
      && m.head.kind == 256 * b[8] as int + b[9] as int && m.head.port == 256 * b[10] as int + b[11] as int
      && m.head.sender == NameAt(b, 12)
      && m.head.cport == 256 * b[52] as int + b[53] as int && m.head.flags == 256 * b[54] as int + b[55] as int
      && m.head.state == 256 * b[56] as int + b[57] as int
      && |m.gossip| == (|b| - 2106) / 54
      && (Has(m.slots, slot) <==> Bit(b[58 + 8 * (slot / 64) + (7 - slot % 64 / 8)], slot % 8))
  {
    hide NameAt, EntriesAt, Number, Bit, Has, WordsAt, U32At, U16At, Sub;
    TwoBytes(b, 8);
    TwoBytes(b, 10);
    TwoBytes(b, 52);
    TwoBytes(b, 54);
    TwoBytes(b, 56);
    SubIsSlice(b, 0, 4);
    assert b[0..4][0] == b[0] && b[0..4][1] == b[1] && b[0..4][2] == b[2] && b[0..4][3] == b[3];
    SlotAt(b, slot);
  }

  lemma {:induction false} SlotAt(b: Str, slot: nat)
    requires |b| >= HEADER_SIZE && slot < 16384
    ensures Has(WordsAt(b), slot) <==> Bit(b[58 + 8 * (slot / 64) + (7 - slot % 64 / 8)], slot % 8)
  {
    hide Bit, Number;
    var w, n := slot / 64, slot % 64;
    var p := 58 + 8 * w;
    SubIsSlice(b, p, p + 8);
    BitOfNumber(b[p..p + 8], n);
    assert b[p..p + 8][7 - n / 8] == b[p + (7 - n / 8)];
    assert n % 8 == slot % 8;
  }

  /** A gossip entry takes 54 bytes: name, the two times, the two ports, the flags. */
  lemma {:induction false} EntryLayout(b: Str, i: nat)
    requires Accepted(b) && i < (|b| - 2106) / 54
    ensures
      var e, p := Decode(b).value.gossip[i], 2106 + 54 * i;
      && p + 54 <= |b| && e.name == NameAt(b, p) && e.pingSent == U32At(b, p + 40) && e.pongReceived == U32At(b, p + 44)
      && e.port == 256 * b[p + 48] as int + b[p + 49] as int && e.cport == 256 * b[p + 50] as int + b[p + 51] as int
      && e.flags == 256 * b[p + 52] as int + b[p + 53] as int
  {
    hide NameAt, U32At, U16At, WordsAt, HeadAt;
    var n, p := (|b| - 2106) / 54, 2106 + 54 * i;
    EntryOf(b, n, i);
    TwoBytes(b, p + 48);
    TwoBytes(b, p + 50);
    TwoBytes(b, p + 52);
  }

  lemma {:induction false} EntryOf(b: Str, n: nat, i: nat)
    requires HEADER_SIZE + GOSSIP_SIZE * n <= |b| && i < n
    ensures EntriesAt(b, n)[i] == EntryAt(b, 2106 + 54 * i)
  {
    hide EntryAt;
    if i < n - 1 { EntryOf(b, n - 1, i); }
  }

  // ----- decode after encode

  lemma {:induction false} U16Read(b: Str, p: nat, n: u16)
    requires At(b, p, BigEndian(n, 2))
    ensures p + 2 <= |b| && U16At(b, p) == n
  {
    hide BigEndian, Number, Sub, At;
    Widths();
    SubAt(b, p, BigEndian(n, 2));
    NumberBigEndian(n, 2);
  }

  lemma {:induction false} U32Read(b: Str, p: nat, n: u32)
    requires At(b, p, BigEndian(n, 4))
    ensures p + 4 <= |b| && U32At(b, p) == n
  {
    hide BigEndian, Number, Sub, At;
    Widths();
    SubAt(b, p, BigEndian(n, 4));
    NumberBigEndian(n, 4);
  }

  lemma {:induction false} NameRead(b: Str, p: nat, name: Str)
    requires At(b, p, Field(name))
    ensures p + NAME_SIZE <= |b| && NameAt(b, p) == Trim(Field(name))
  {
    hide Field, Trim, Sub, At;
    SubAt(b, p, Field(name));
  }

  /** What is left of a header or an entry after a trip over the wire. */
  function NormalHead(h: Head): Head {
    h.(sender := Trim(Field(h.sender)), state := h.state % 0x1_0000)
  }

  function NormalEntry(e: Entry): Entry {
    e.(name := Trim(Field(e.name)))
  }

  lemma {:induction false} TailRead(b: Str, p: nat, h: Head)
    requires At(b, p, TailBytes(h))
    ensures p + 6 <= |b| && U16At(b, p) == h.cport && U16At(b, p + 2) == h.flags &&
      U16At(b, p + 4) == h.state % 0x1_0000
  {
    hide BigEndian, At, U16At;
    AtSum(b, p, BigEndian(h.cport, 2), BigEndian(h.flags, 2) + BigEndian(h.state % 0x1_0000, 2));
    AtSum(b, p + 2, BigEndian(h.flags, 2), BigEndian(h.state % 0x1_0000, 2));
    U16Read(b, p, h.cport);
    U16Read(b, p + 2, h.flags);
    U16Read(b, p + 4, h.state % 0x1_0000);
  }

  lemma {:induction false} HeadRead(b: Str, sig: Sig, totLen: u32, h: Head)
    requires |b| >= HEADER_SIZE && At(b, 0, HeadBytes(sig, totLen, h))
    ensures Sub(b, 0, 4) == sig && U32At(b, 4) == totLen && HeadAt(b) == NormalHead(h)
  {
    hide BigEndian, At, U16At, U32At, NameAt, Field, TailBytes, Sub, Trim;
    var t4 := Field(h.sender) + TailBytes(h);
    var t3 := BigEndian(h.port, 2) + t4;
    var t2 := BigEndian(h.kind, 2) + t3;
    var t1 := BigEndian(totLen, 4) + t2;
    AtSum(b, 0, sig, t1);
    SubAt(b, 0, sig);
    AtSum(b, 4, BigEndian(totLen, 4), t2);
    U32Read(b, 4, totLen);
    AtSum(b, 8, BigEndian(h.kind, 2), t3);
    U16Read(b, 8, h.kind);
    AtSum(b, 10, BigEndian(h.port, 2), t4);
    U16Read(b, 10, h.port);
    AtSum(b, 12, Field(h.sender), TailBytes(h));
    NameRead(b, 12, h.sender);
    TailRead(b, 52, h);
  }

  lemma {:induction false} WordsRead(b: Str, ws: Words, n: nat, i: nat)
    requires |b| >= HEADER_SIZE && n <= WORDS && At(b, SLOTS_AT, WordsBytes(ws, n)) && i < n
    ensures WordAt(b, i) == ws[i]
  {
    hide BigEndian, At, Number, Sub;
    AtSum(b, SLOTS_AT, WordsBytes(ws, n - 1), BigEndian(ws[n - 1], 8));
    if i < n - 1 {
      WordsRead(b, ws, n - 1, i);
    } else {
      SubAt(b, SLOTS_AT + 8 * i, BigEndian(ws[i], 8));
      Widths();
      NumberBigEndian(ws[i], 8);
    }
  }

  lemma {:induction false} EntryRead(b: Str, p: nat, e: Entry)
    requires At(b, p, EntryBytes(e))
    ensures p + GOSSIP_SIZE <= |b| && EntryAt(b, p) == NormalEntry(e)
  {
    hide BigEndian, At, U16At, U32At, NameAt, Field, Trim;
    var t4 := BigEndian(e.cport, 2) + BigEndian(e.flags, 2);
    var t3 := BigEndian(e.port, 2) + t4;
    var t2 := BigEndian(e.pongReceived, 4) + t3;
    var t1 := BigEndian(e.pingSent, 4) + t2;
    AtSum(b, p, Field(e.name), t1);
    NameRead(b, p, e.name);
    AtSum(b, p + 40, BigEndian(e.pingSent, 4), t2);
    U32Read(b, p + 40, e.pingSent);
    AtSum(b, p + 44, BigEndian(e.pongReceived, 4), t3);
    U32Read(b, p + 44, e.pongReceived);
    AtSum(b, p + 48, BigEndian(e.port, 2), t4);
    U16Read(b, p + 48, e.port);
    AtSum(b, p + 50, BigEndian(e.cport, 2), BigEndian(e.flags, 2));
    U16Read(b, p + 50, e.cport);
    U16Read(b, p + 52, e.flags);
  }

  function NormalGossip(es: seq<Entry>, n: nat): (r: seq<Entry>)
    requires n <= |es|
    ensures |r| == n
  {
    if n == 0 then [] else NormalGossip(es, n - 1) + [NormalEntry(es[n - 1])]
  }

  lemma {:induction false} EntriesRead(b: Str, es: seq<Entry>, n: nat)
    requires n <= |es| && HEADER_SIZE + GOSSIP_SIZE * n <= |b| && At(b, HEADER_SIZE, GossipBytes(es, n))
    ensures EntriesAt(b, n) == NormalGossip(es, n)
  {
    hide At, EntryAt, EntryBytes, NormalEntry;
    if n > 0 {
      AtSum(b, HEADER_SIZE, GossipBytes(es, n - 1), EntryBytes(es[n - 1]));
      EntriesRead(b, es, n - 1);
      EntryRead(b, HEADER_SIZE + GOSSIP_SIZE * (n - 1), es[n - 1]);
    }
  }

  /** What is left of a message after a trip over the wire. */
  function Normal(m: Msg): Msg {
    m.(count := |m.gossip| % 0x1_0000, head := NormalHead(m.head), gossip := NormalGossip(m.gossip, |m.gossip|))
  }

  /** A message with the right signature and length decodes to its normal form. */
  lemma {:induction false} DecodeEncode(m: Msg)
    requires Encode(m).Some? && m.sig == SIGNATURE
    ensures Decode(Encode(m).value) == Some(Normal(m))
  {
    hide At, HeadBytes, WordsBytes, GossipBytes, HeadAt, WordAt, EntriesAt, NormalHead, NormalGossip, Sub, U32At;
    var b := Wire(m);
    var h, w, g := HeadBytes(m.sig, m.totLen, m.head), WordsBytes(m.slots, WORDS), GossipBytes(m.gossip, |m.gossip|);
    AtWhole(b);
    AtSum(b, 0, h, w + g);
    AtSum(b, SLOTS_AT, w, g);
    HeadRead(b, m.sig, m.totLen, m.head);
    forall i | 0 <= i < WORDS ensures WordAt(b, i) == m.slots[i] { WordsRead(b, m.slots, WORDS, i); }
    assert WordsAt(b) == m.slots;
    EntriesRead(b, m.gossip, |m.gossip|);
  }

  lemma {:induction false} AtWhole(b: Str)
    ensures At(b, 0, b)
  {
    AtPointwise(b, 0, b);
  }

  predicate CleanEntries(es: seq<Entry>, n: nat)
    requires n <= |es|
  {
    forall i :: 0 <= i < n ==> Clean(es[i].name)
  }

  /** Names of at most 40 bytes without trailing NULs, a 16-bit state, and the count of the entries. */
  predicate Canonical(m: Msg) {
    && Clean(m.head.sender) && 0 <= m.head.state < 0x1_0000
    && m.count == |m.gossip| % 0x1_0000 && CleanEntries(m.gossip, |m.gossip|)
  }

  lemma {:induction false} GossipNormalIff(es: seq<Entry>, n: nat)
    requires n <= |es|
    ensures NormalGossip(es, n) == es[..n] <==> CleanEntries(es, n)
  {
    hide Clean, Trim, Field;
    if n > 0 {
      GossipNormalIff(es, n - 1);
      NameRoundTrip(es[n - 1].name);
      assert es[..n] == es[..n - 1] + [es[n - 1]];
      var r := NormalGossip(es, n);
      assert r[..n - 1] == NormalGossip(es, n - 1) && r[n - 1] == NormalEntry(es[n - 1]);
      assert es[..n][..n - 1] == es[..n - 1] && es[..n][n - 1] == es[n - 1];
    }
  }

  /** A message comes back unchanged exactly when it is canonical. */
  lemma {:induction false} RoundTripIff(m: Msg)
    requires Encode(m).Some? && m.sig == SIGNATURE
    ensures Decode(Encode(m).value) == Some(m) <==> Canonical(m)
  {
    hide Decode, Encode, Clean, Trim, Field, NormalGossip, CleanEntries;
    DecodeEncode(m);
    NameRoundTrip(m.head.sender);
    GossipNormalIff(m.gossip, |m.gossip|);
    assert m.gossip[..|m.gossip|] == m.gossip;
  }

  /** With any other signature, the other side refuses the message. */
  lemma {:induction false} WrongSignatureIsRefused(m: Msg)
    requires Encode(m).Some? && m.sig != SIGNATURE
    ensures Decode(Encode(m).value) == None
  {
    hide At, HeadBytes, WordsBytes, GossipBytes, HeadAt, Sub, U32At;
    var b := Wire(m);
    AtWhole(b);
    AtSum(b, 0, HeadBytes(m.sig, m.totLen, m.head), WordsBytes(m.slots, WORDS) + GossipBytes(m.gossip, |m.gossip|));
    HeadRead(b, m.sig, m.totLen, m.head);
  }

  // ----- encode after decode

  lemma {:induction false} U16Written(b: Str, p: nat)
    requires p + 2 <= |b|
    ensures BigEndian(U16At(b, p), 2) == Sub(b, p, p + 2)
  {
    hide BigEndian, Number, Sub;
    BigEndianNumber(Sub(b, p, p + 2));
  }

  lemma {:induction false} U32Written(b: Str, p: nat)
    requires p + 4 <= |b|
    ensures BigEndian(U32At(b, p), 4) == Sub(b, p, p + 4)
  {
    hide BigEndian, Number, Sub;
    BigEndianNumber(Sub(b, p, p + 4));
  }

  lemma {:induction false} NameWritten(b: Str, p: nat)
    requires p + NAME_SIZE <= |b|
    ensures Field(NameAt(b, p)) == Sub(b, p, p + NAME_SIZE)
  {
    hide Field, Trim, Sub;
    FieldRoundTrip(Sub(b, p, p + NAME_SIZE));
  }

  lemma {:induction false} TailWritten(b: Str)
    requires |b| >= HEADER_SIZE
    ensures TailBytes(HeadAt(b)) == Sub(b, 52, SLOTS_AT)
  {
    hide BigEndian, U16At, NameAt, Sub;
    U16Written(b, 52);
    U16Written(b, 54);
    U16Written(b, 56);
    SubSum(b, 54, 56, 58);
    SubSum(b, 52, 54, 58);
  }

  lemma {:induction false} HeadWritten(b: Str)
    requires |b| >= HEADER_SIZE
    ensures HeadBytes(Sub(b, 0, 4), U32At(b, 4), HeadAt(b)) == Sub(b, 0, SLOTS_AT)
  {
    hide BigEndian, U16At, U32At, NameAt, Sub, Field, TailBytes;
    TailWritten(b);
    NameWritten(b, 12);
    SubSum(b, 12, 52, 58);
    U16Written(b, 10);
    SubSum(b, 10, 12, 58);
    U16Written(b, 8);
    SubSum(b, 8, 10, 58);
    U32Written(b, 4);
    SubSum(b, 4, 8, 58);
    SubSum(b, 0, 4, 58);
  }

  lemma {:induction false} WordsWritten(b: Str, n: nat)
    requires |b| >= HEADER_SIZE && n <= WORDS
    ensures WordsBytes(WordsAt(b), n) == Sub(b, SLOTS_AT, SLOTS_AT + 8 * n)
  {
    hide BigEndian, Number, Sub;
    if n == 0 {
      assert |Sub(b, SLOTS_AT, SLOTS_AT)| == 0;
    } else {
      WordsWritten(b, n - 1);
      var p := SLOTS_AT + 8 * (n - 1);
      BigEndianNumber(Sub(b, p, p + 8));
      SubSum(b, SLOTS_AT, p, p + 8);
    }
  }

  lemma {:induction false} EntryWritten(b: Str, p: nat)
    requires p + GOSSIP_SIZE <= |b|
    ensures EntryBytes(EntryAt(b, p)) == Sub(b, p, p + GOSSIP_SIZE)
  {
    hide BigEndian, U16At, U32At, NameAt, Sub, Field;
    U16Written(b, p + 52);
    U16Written(b, p + 50);
    SubSum(b, p + 50, p + 52, p + 54);
    U16Written(b, p + 48);
    SubSum(b, p + 48, p + 50, p + 54);
    U32Written(b, p + 44);
    SubSum(b, p + 44, p + 48, p + 54);
    U32Written(b, p + 40);
    SubSum(b, p + 40, p + 44, p + 54);
    NameWritten(b, p);
    SubSum(b, p, p + 40, p + 54);
  }

  lemma {:induction false} EntriesWritten(b: Str, n: nat, m: nat)
    requires n <= m && HEADER_SIZE + GOSSIP_SIZE * m <= |b|
    ensures GossipBytes(EntriesAt(b, m), n) == Sub(b, HEADER_SIZE, HEADER_SIZE + GOSSIP_SIZE * n)
  {
    hide EntryBytes, EntryAt, Sub;
    if n == 0 {
      assert |Sub(b, HEADER_SIZE, HEADER_SIZE)| == 0;
    } else {
      var p := HEADER_SIZE + GOSSIP_SIZE * (n - 1);
      EntriesWritten(b, n - 1, m);
      EntriesIndex(b, m, n - 1);
      EntryWritten(b, p);
      SubSum(b, HEADER_SIZE, p, p + GOSSIP_SIZE);
    }
  }

  lemma {:induction false} EntriesIndex(b: Str, m: nat, i: nat)
    requires i < m && HEADER_SIZE + GOSSIP_SIZE * m <= |b|
    ensures EntriesAt(b, m)[i] == EntryAt(b, HEADER_SIZE + GOSSIP_SIZE * i)
  {
    hide EntryAt;
    if i < m - 1 { EntriesIndex(b, m - 1, i); }
  }

  /** Every buffer that is accepted is rebuilt byte for byte from what was read. */
  lemma {:induction false} EncodeDecode(b: Str)
    requires Decode(b).Some?
    ensures Encode(Decode(b).value) == Some(b) && Canonical(Decode(b).value)
  {
    hide HeadBytes, WordsBytes, GossipBytes, HeadAt, WordsAt, EntriesAt, Sub, U32At, CleanEntries, Clean;
    var m := Decode(b).value;
    var n := |m.gossip|;
    HeadWritten(b);
    WordsWritten(b, WORDS);
    EntriesWritten(b, n, n);
    SubSum(b, SLOTS_AT, HEADER_SIZE, |b|);
    SubSum(b, 0, SLOTS_AT, |b|);
    SubIsSlice(b, 0, |b|);
    assert b[0..|b|] == b;
    HeadIsClean(b);
    EntriesAreClean(b, n, n);
  }

  lemma {:induction false} HeadIsClean(b: Str)
    requires |b| >= HEADER_SIZE
    ensures Clean(HeadAt(b).sender) && 0 <= HeadAt(b).state < 0x1_0000
  {
    hide Sub, U16At, Clean, Trim;
    FieldRoundTrip(Sub(b, 12, 52));
  }

  lemma {:induction false} EntriesAreClean(b: Str, n: nat, m: nat)
    requires n <= m && HEADER_SIZE + GOSSIP_SIZE * m <= |b|
    ensures CleanEntries(EntriesAt(b, m), n)
  {
    hide Sub, U16At, U32At, Clean, Trim, EntriesAt;
    if n > 0 {
      EntriesAreClean(b, n - 1, m);
      EntriesIndex(b, m, n - 1);
      var p := HEADER_SIZE + GOSSIP_SIZE * (n - 1);
      FieldRoundTrip(Sub(b, p, p + 40));
    }
  }

  // ----- the loops over words and entries

  /** serializeClusterMsg: the buffer grows field by field, word by word and entry by entry. */
  method Serialize(m: Msg) returns (r: Option<Str>)
    ensures r == Encode(m)
  {
    hide BigEndian, Field;
    var buf: Str := m.sig;
    buf := buf + BigEndian(m.totLen, 4);
    buf := buf + BigEndian(m.head.kind, 2);
    buf := buf + BigEndian(m.head.port, 2);
    buf := buf + Field(m.head.sender);
    buf := buf + BigEndian(m.head.cport, 2);
    buf := buf + BigEndian(m.head.flags, 2);
    buf := buf + BigEndian(m.head.state % 0x1_0000, 2);
    ghost var head := HeadBytes(m.sig, m.totLen, m.head);
    assert buf == head;
    buf := AppendWords(buf, m.slots);
    buf := AppendGossip(buf, m.gossip);
    assert buf == Wire(m);
    if |buf| != m.totLen { return None; }
    return Some(buf);
  }

  method AppendWords(buf: Str, ws: Words) returns (r: Str)
    ensures r == buf + WordsBytes(ws, WORDS)
  {
    hide BigEndian;
    r := buf;
    for i := 0 to WORDS
      invariant r == buf + WordsBytes(ws, i)
    {
      r := r + BigEndian(ws[i], 8);
    }
  }

  method AppendGossip(buf: Str, gossip: seq<Entry>) returns (r: Str)
    ensures r == buf + GossipBytes(gossip, |gossip|)
  {
    hide BigEndian, Field;
    r := buf;
    for i := 0 to |gossip|
      invariant r == buf + GossipBytes(gossip, i)
    {
      ghost var before := r;
      var e := gossip[i];
      r := r + Field(e.name);
      r := r + BigEndian(e.pingSent, 4);
      r := r + BigEndian(e.pongReceived, 4);
      r := r + BigEndian(e.port, 2);
      r := r + BigEndian(e.cport, 2);
      r := r + BigEndian(e.flags, 2);
      assert r == before + EntryBytes(e);
    }
  }

  /** deserializeClusterMsg: `offset` moves through the buffer. */
  method Deserialize(buf: Str) returns (r: Option<Msg>)
    ensures r == Decode(buf)
  {
    hide Sub, U16At, U32At, NameAt, WordAt, EntryAt;
    if |buf| < HEADER_SIZE { return None; }
    var offset := 0;
    var sig := Sub(buf, offset, offset + 4);
    offset := offset + 4;
    if sig != SIGNATURE { return None; }
    var totLen := U32At(buf, offset);
    offset := offset + 4;
    if totLen != |buf| { return None; }
    var kind := U16At(buf, offset);
    offset := offset + 2;
    var port := U16At(buf, offset);
    offset := offset + 2;
    var sender := NameAt(buf, offset);
    offset := offset + 40;
    var cport := U16At(buf, offset);
    offset := offset + 2;
    var flags := U16At(buf, offset);
    offset := offset + 2;
    var state := U16At(buf, offset);
    offset := offset + 2;
    var slots;
    slots, offset := ReadWords(buf, offset);
    var remaining := |buf| - offset;
    if remaining % GOSSIP_SIZE != 0 { return None; }
    var gossipCount := remaining / GOSSIP_SIZE;
    var gossip := ReadGossip(buf, offset, gossipCount);
    return Some(Msg(sig, totLen, gossipCount % 0x1_0000, Head(kind, port, sender, cport, flags, state), slots, gossip));
  }

  method ReadWords(buf: Str, offset: nat) returns (ws: Words, end: nat)
    requires |buf| >= HEADER_SIZE && offset == SLOTS_AT
    ensures ws == WordsAt(buf) && end == HEADER_SIZE
  {
    hide Sub, Number;
    var words: seq<nat> := [];
    end := offset;
    for i := 0 to WORDS
      invariant end == SLOTS_AT + 8 * i && |words| == i
      invariant forall k :: 0 <= k < i ==> words[k] == WordAt(buf, k)
    {
      Widths();
      words := words + [Number(Sub(buf, end, end + 8))];
      end := end + 8;
    }
    assert words == WordsAt(buf);
    ws := words;
  }

  method ReadGossip(buf: Str, offset: nat, count: nat) returns (gossip: seq<Entry>)
    requires offset == HEADER_SIZE && HEADER_SIZE + GOSSIP_SIZE * count <= |buf|
    ensures gossip == EntriesAt(buf, count)
  {
    hide U16At, U32At, NameAt;
    var at := offset;
    gossip := [];
    for i := 0 to count
      invariant at == HEADER_SIZE + GOSSIP_SIZE * i && gossip == EntriesAt(buf, i)
    {
      var name := NameAt(buf, at);
      at := at + 40;
      var pingSent := U32At(buf, at);
      at := at + 4;
      var pongReceived := U32At(buf, at);
      at := at + 4;
      var port := U16At(buf, at);
      at := at + 2;
      var cport := U16At(buf, at);
      at := at + 2;
      var flags := U16At(buf, at);
      at := at + 2;
      gossip := gossip + [Entry(name, pingSent, pongReceived, port, cport, flags)];
    }
  }

  // ----- PING and PONG

  predicate DistinctNames(es: seq<Entry>) {
    forall i, j :: 0 <= i < j < |es| ==> es[i].name != es[j].name
  }

  /** The entry describes a known node other than this one and the one the message goes to. */
  predicate Describes(e: Entry, nodes: seq<Entry>, self: nat, link: nat) {
    exists k: nat :: k < |nodes| && k != self && k != link && e == nodes[k]
  }

  lemma {:induction false} DescribesNode(nodes: seq<Entry>, k: nat, self: nat, link: nat)
    requires k < |nodes| && k != self && k != link
    ensures Describes(nodes[k], nodes, self, link)
  {
  }

  /** The entries that the first `turns` draws select: known nodes but the two, each name at its first draw. */
  function Selected(nodes: seq<Entry>, self: nat, link: nat, draw: nat -> nat, turns: nat): seq<Entry>
    requires forall i :: draw(i) < |nodes|
  {
    if turns == 0 then []
    else
      var before, k := Selected(nodes, self, link, draw, turns - 1), draw(turns - 1);
      if k == self || k == link || Listed(before, nodes[k].name) then before else before + [nodes[k]]
  }

  predicate Listed(es: seq<Entry>, name: Str) {
    exists i :: 0 <= i < |es| && es[i].name == name
  }

  lemma {:induction false} ListedMore(es: seq<Entry>, e: Entry)
    ensures forall name :: Listed(es + [e], name) <==> Listed(es, name) || name == e.name
    ensures DistinctNames(es) && !Listed(es, e.name) ==> DistinctNames(es + [e])
  {
    var r := es + [e];
    forall name ensures Listed(r, name) <==> Listed(es, name) || name == e.name {
      if Listed(es, name) {
        var i :| 0 <= i < |es| && es[i].name == name;
        assert r[i].name == name;
      }
      assert r[|es|] == e;
    }
  }

  lemma {:induction false} NoneSelected(nodes: seq<Entry>, self: nat, link: nat, draw: nat -> nat)
    requires |nodes| > 0 ==> forall i :: draw(i) < |nodes|
    ensures |nodes| > 0 ==> Selected(nodes, self, link, draw, 0) == []
    ensures DistinctNames([]) && forall name :: !Listed([], name)
  {
  }

  lemma {:induction false} SelectedMore(nodes: seq<Entry>, self: nat, link: nat, draw: nat -> nat, turns: nat)
    requires forall i :: draw(i) < |nodes|
    ensures
      var before, k := Selected(nodes, self, link, draw, turns), draw(turns);
      Selected(nodes, self, link, draw, turns + 1) ==
        if k == self || k == link || Listed(before, nodes[k].name) then before else before + [nodes[k]]
  {
  }

  /**
   clusterSendPing: entries for up to max(3, a tenth) of the known nodes, drawn at random
   (`draw(i)` is the i-th draw), never for this node or the one the message goes to, and
   never two of the same name. Whatever is drawn, the announced length is the actual one,
   as long as that fits its 32 bits.
   */
  method BuildPing(head: Head, slots: Words, nodes: seq<Entry>, self: nat, link: nat, draw: nat -> nat)
    returns (m: Msg, turns: nat)
    requires |nodes| > 0 ==> forall i :: draw(i) < |nodes|
    ensures m.gossip == if |nodes| == 0 then [] else Selected(nodes, self, link, draw, turns)
    ensures
      var wanted := if |nodes| / 10 < 3 then 3 else |nodes| / 10;
      turns <= 3 * wanted && (|m.gossip| == wanted || |m.gossip| + 1 >= |nodes| || turns == 3 * wanted)
    ensures Encode(m).Some? <==> HEADER_SIZE + GOSSIP_SIZE * |m.gossip| < 0x1_0000_0000
    ensures m.sig == SIGNATURE && m.head == head && m.slots == slots && m.count == |m.gossip| % 0x1_0000
    ensures |m.gossip| == 0 || |m.gossip| < |nodes|
    ensures |m.gossip| <= if |nodes| / 10 < 3 then 3 else |nodes| / 10
    ensures DistinctNames(m.gossip)
    ensures forall i :: 0 <= i < |m.gossip| ==> Describes(m.gossip[i], nodes, self, link)
  {
    hide Describes, DistinctNames, Listed, Selected;
    var freshNodes := |nodes| - 1;
    var wanted := |nodes| / 10;
    if wanted < 3 { wanted := 3; }
    var gossip: seq<Entry> := [];
    NoneSelected(nodes, self, link, draw);
    var maxIterations := wanted * 3;
    var selected: set<Str> := {};
    turns := 0;
    while freshNodes > 0 && |gossip| < wanted && maxIterations > 0
      invariant |gossip| + freshNodes == |nodes| - 1 && |gossip| <= wanted && (|gossip| == 0 || freshNodes >= 0)
      invariant turns + maxIterations == wanted * 3 && maxIterations >= 0
      invariant |nodes| > 0 ==> gossip == Selected(nodes, self, link, draw, turns)
      invariant DistinctNames(gossip) && forall name :: name in selected <==> Listed(gossip, name)
      invariant forall i :: 0 <= i < |gossip| ==> Describes(gossip[i], nodes, self, link)
      decreases maxIterations
    {
      maxIterations := maxIterations - 1;
      var cur := draw(turns);
      SelectedMore(nodes, self, link, draw, turns);
      turns := turns + 1;
      if cur != self && cur != link && nodes[cur].name !in selected {
        DescribesNode(nodes, cur, self, link);
        ListedMore(gossip, nodes[cur]);
        selected := selected + {nodes[cur].name};
        gossip := gossip + [nodes[cur]];
        freshNodes := freshNodes - 1;
      }
    }
    m := Msg(SIGNATURE, (HEADER_SIZE + GOSSIP_SIZE * |gossip|) % 0x1_0000_0000, |gossip| % 0x1_0000, head, slots,
      gossip);
  }
}
