/** WebSocket frames (connector/browser/cdp/websocket.go, connector/http/graphql/subscription.go). */
module WebSocket {
  import opened Wrappers
  import opened Sequences
  import opened Arithmetic
  import opened Bytes

  const OP_TEXT: byte := 0x1
  const OP_CLOSE: byte := 0x8
  const OP_PING: byte := 0x9
  const OP_PONG: byte := 0xA

  type Mask = m: Bytes | |m| == 4 witness [0, 0, 0, 0]

  // ---- Exclusive or -----------------------------------------------------

  function Xor(a: nat, b: nat): nat {
    if a == 0 && b == 0 then 0 else 2 * Xor(a / 2, b / 2) + (a % 2 + b % 2) % 2
  }

  lemma {:induction false} XorBounded(a: nat, b: nat, n: nat)
    requires a < Pow(2, n) && b < Pow(2, n)
    ensures Xor(a, b) < Pow(2, n)
    decreases n
  {
    if n > 0 && (a != 0 || b != 0) {
      XorBounded(a / 2, b / 2, n - 1);
    }
  }

  lemma XorBits(x: nat, l: nat, y: nat, m: nat)
    requires l < 2 && m < 2
    ensures Xor(2 * x + l, 2 * y + m) == 2 * Xor(x, y) + (l + m) % 2
  {
    assert (2 * x + l) / 2 == x && (2 * x + l) % 2 == l;
    assert (2 * y + m) / 2 == y && (2 * y + m) % 2 == m;
  }

  lemma BitUndoes(l: nat, m: nat)
    requires l < 2 && m < 2
    ensures ((l + m) % 2 + m) % 2 == l
  {
  }

  lemma {:induction false} XorUndoes(a: nat, b: nat)
    ensures Xor(Xor(a, b), b) == a
    decreases a + b
  {
    if a != 0 || b != 0 {
      hide Xor;
      var x, l, y, m := a / 2, a % 2, b / 2, b % 2;
      assert a == 2 * x + l && b == 2 * y + m;
      XorUndoes(x, y);
      XorBits(x, l, y, m);
      XorBits(Xor(x, y), (l + m) % 2, y, m);
      BitUndoes(l, m);
      assert Xor(Xor(a, b), b) == a;
    }
  }

  function XorByte(a: byte, b: byte): byte {
    assert Pow(2, 8) == 256 by { assert Pow(2, 4) == 16; }
    XorBounded(a, b, 8);
    Xor(a, b)
  }

  /** payload[i] ^ mask[i%4], for every i. */
  function Masked(p: Bytes, mask: Mask): (q: Bytes)
    ensures |q| == |p|
  {
    seq(|p|, i requires 0 <= i < |p| => XorByte(p[i], mask[i % 4]))
  }

  lemma UnmaskMask(p: Bytes, mask: Mask)
    ensures Masked(Masked(p, mask), mask) == p
  {
    forall i | 0 <= i < |p| ensures Masked(Masked(p, mask), mask)[i] == p[i] {
      XorUndoes(p[i], mask[i % 4]);
    }
  }

  // ---- Frames as bytes --------------------------------------------------

  /** `0x80 | byte(x)`. */
  function Or80(x: nat): byte {
    if x % 256 >= 128 then x % 256 else x % 256 + 128
  }

  /** The second byte and the extended length; `bit` is 0x80 for a masked frame and 0 otherwise. */
  function LengthBytes(n: nat, bit: byte): Bytes
    requires bit == 0 || bit == 128
  {
    if n <= 125 then [bit + n]
    else if n <= 65535 then [bit + 126] + BigEndian(2, n)
    else [bit + 127] + BigEndian(8, n)
  }

  /** A final frame. Client frames carry a mask; server frames do not. */
  function FrameBytes(opcode: byte, p: Bytes, mask: Option<Mask>): Bytes {
    match mask
    case Some(m) => [Or80(opcode)] + (LengthBytes(|p|, 128) + (m + Masked(p, m)))
    case None => [Or80(opcode)] + (LengthBytes(|p|, 0) + ([] + p))
  }

  datatype Frame = Frame(opcode: byte, payload: Bytes, next: nat)

  /** The decoded length field and the position after it. */
  function LengthAt(s: Bytes, i: nat): Option<(nat, nat)>
    requires i < |s|
  {
    var n := s[i] % 128;
    if n == 126 then
      if i + 3 > |s| then None else Some((BigEndianValue(s[i + 1..i + 3]), i + 3))
    else if n == 127 then
      if i + 9 > |s| then None else Some((BigEndianValue(s[i + 1..i + 9]), i + 9))
    else Some((n, i + 1))
  }

  /** readFrame at position `i`; None stands for any read error. */
  function FrameAt(s: Bytes, i: nat): (f: Option<Frame>)
    requires i <= |s|
    ensures f.Some? ==> i + 2 <= f.value.next <= |s|
  {
    if i + 2 > |s| then None
    else
      match LengthAt(s, i + 1)
      case None => None
      case Some((length, h)) =>
        if s[i + 1] >= 128 then
          if h + 4 + length > |s| then None
          else Some(Frame(s[i] % 16, Masked(s[h + 4..h + 4 + length], s[h..h + 4]), h + 4 + length))
        else if h + length > |s| then None
        else Some(Frame(s[i] % 16, s[h..h + length], h + length))
  }

  /** The extended forms of the length field: a marker, then `w` bytes. */
  lemma ExtendedReads(s: Bytes, i: nat, tag: byte, w: nat, n: nat)
    requires (tag % 128 == 126 && w == 2) || (tag % 128 == 127 && w == 8)
    requires n < Pow(256, w) && At(s, i, [tag] + BigEndian(w, n))
    ensures i < |s| && s[i] == tag && LengthAt(s, i) == Some((n, i + 1 + w))
  {
    hide At;
    hide BigEndian;
    hide BigEndianValue;
    hide Pow;
    AtSplit(s, i, [tag], BigEndian(w, n));
    AtIndex(s, i, [tag], 0);
    AtSlice(s, i + 1, BigEndian(w, n));
    BigEndianReads(w, n);
  }

  lemma LengthReads(s: Bytes, i: nat, n: nat, bit: byte)
    requires (bit == 0 || bit == 128) && n < 0x1_0000_0000_0000_0000
    requires At(s, i, LengthBytes(n, bit))
    ensures i < |s| && (s[i] >= 128 <==> bit == 128)
    ensures LengthAt(s, i) == Some((n, i + |LengthBytes(n, bit)|))
  {
    hide At;
    hide BigEndian;
    hide BigEndianValue;
    hide Pow;
    Limits();
    if n <= 125 {
      AtIndex(s, i, LengthBytes(n, bit), 0);
    } else if n <= 65535 {
      hide LengthAt;
      ExtendedReads(s, i, bit + 126, 2, n);
    } else {
      hide LengthAt;
      ExtendedReads(s, i, bit + 127, 8, n);
    }
  }

  function MaskBytes(mask: Option<Mask>): Bytes {
    match mask case Some(m) => m case None => []
  }

  function MaskedBy(p: Bytes, mask: Option<Mask>): Bytes {
    match mask case Some(m) => Masked(p, m) case None => p
  }

  lemma FrameParts(s: Bytes, i: nat, opcode: byte, p: Bytes, mask: Option<Mask>)
    requires |p| < 0x8000_0000_0000_0000
    requires At(s, i, FrameBytes(opcode, p, mask))
    ensures i + 1 < |s| && s[i] == Or80(opcode) && (s[i + 1] >= 128 <==> mask.Some?)
    ensures var h := i + |FrameBytes(opcode, p, mask)| - |p| - |MaskBytes(mask)|;
            && LengthAt(s, i + 1) == Some((|p|, h))
            && At(s, h, MaskBytes(mask)) && At(s, h + |MaskBytes(mask)|, MaskedBy(p, mask))
  {
    hide At;
    hide LengthAt;
    var bit := if mask.Some? then 128 else 0;
    var m, q, first, len := MaskBytes(mask), MaskedBy(p, mask), [Or80(opcode)], LengthBytes(|p|, bit);
    assert FrameBytes(opcode, p, mask) == first + (len + (m + q)) && |q| == |p|;
    FourParts(s, i, first, len, m, q);
    AtIndex(s, i, first, 0);
    LengthReads(s, i + 1, |p|, bit);
  }

  lemma FourParts(s: Bytes, i: nat, a: Bytes, b: Bytes, c: Bytes, d: Bytes)
    requires At(s, i, a + (b + (c + d)))
    ensures At(s, i, a) && At(s, i + |a|, b) && At(s, i + |a| + |b|, c) && At(s, i + |a| + |b| + |c|, d)
  {
    hide At;
    AtSplit(s, i, a, b + (c + d));
    AtSplit(s, i + |a|, b, c + d);
    AtSplit(s, i + |a| + |b|, c, d);
  }

  /** Reading undoes writing, across all three length encodings, masked or not. */
  lemma FrameReads(s: Bytes, i: nat, opcode: byte, p: Bytes, mask: Option<Mask>)
    requires opcode < 16 && |p| < 0x8000_0000_0000_0000
    requires At(s, i, FrameBytes(opcode, p, mask))
    ensures i + |FrameBytes(opcode, p, mask)| <= |s|
    ensures FrameAt(s, i) == Some(Frame(opcode, p, i + |FrameBytes(opcode, p, mask)|))
  {
    hide At;
    hide Masked;
    hide LengthAt;
    var n := i + |FrameBytes(opcode, p, mask)| - |p|;
    FrameParts(s, i, opcode, p, mask);
    hide FrameBytes;
    AtSlice(s, n - |MaskBytes(mask)|, MaskBytes(mask));
    AtSlice(s, n, MaskedBy(p, mask));
    if mask.Some? {
      UnmaskMask(p, mask.value);
    }
  }

  /** The statement of FrameReads for a frame followed by any tail. */
  lemma FrameRoundTrip(opcode: byte, p: Bytes, mask: Option<Mask>, tail: Bytes)
    requires opcode < 16 && |p| < 0x8000_0000_0000_0000
    ensures var b := FrameBytes(opcode, p, mask);
            FrameAt(b + tail, 0) == Some(Frame(opcode, p, |b|)) && (b + tail)[|b|..] == tail
  {
    var b := FrameBytes(opcode, p, mask);
    assert At(b + tail, 0, b) by {
      assert (b + tail)[0..|b|] == b;
    }
    FrameReads(b + tail, 0, opcode, p, mask);
  }

  /** A frame cut anywhere is a read error, never a shorter message. */
  lemma CutFrameFails(opcode: byte, p: Bytes, mask: Option<Mask>, k: nat)
    requires |p| < 0x8000_0000_0000_0000
    requires k < |FrameBytes(opcode, p, mask)|
    ensures FrameAt(FrameBytes(opcode, p, mask)[..k], 0) == None
  {
    hide Masked;
    hide At;
    var b := FrameBytes(opcode, p, mask);
    var bit := if mask.Some? then 128 else 0;
    var len := LengthBytes(|p|, bit);
    AtWhole(b);
    AtIndex(b, 0, b, 1);
    assert b == [Or80(opcode)] + (len + (MaskBytes(mask) + MaskedBy(p, mask)));
    AtSplit(b, 0, [Or80(opcode)], len + (MaskBytes(mask) + MaskedBy(p, mask)));
    AtSplit(b, 1, len, MaskBytes(mask) + MaskedBy(p, mask));
    if k >= 1 + |len| {
      AtPrefix(b, k, 1, len);
      LengthReads(b[..k], 1, |p|, bit);
    } else if k > 1 {
      assert b[..k][1] == len[0];
    }
  }

  // ---- The bytes on the wire --------------------------------------------

  /** The header of RFC 6455 section 5.2: the final bit and the opcode, the mask bit with the length or the marker of
      an extended length, and the extended length with its most significant byte first. */
  lemma HeaderOnWire(opcode: byte, p: Bytes, mask: Option<Mask>)
    requires opcode < 128 && |p| < 0x8000_0000_0000_0000
    ensures var b, bit := FrameBytes(opcode, p, mask), if mask.Some? then 128 else 0;
            var h := |b| - |p| - (if mask.Some? then 4 else 0);
            && |b| >= 2 && b[0] == 128 + opcode
            && (|p| < 126 ==> h == 2 && b[1] == bit + |p|)
            && (126 <= |p| < 65536 ==> h == 4 && b[1] == bit + 126 && b[2] == |p| / 256 && b[3] == |p| % 256)
            && (65536 <= |p| ==>
                  && h == 10 && b[1] == bit + 127
                  && (forall k :: 2 <= k < 10 ==> b[k] == |p| / Pow(256, 9 - k) % 256))
  {
    hide Masked;
    hide BigEndian;
    hide Pow;
    var len := LengthBytes(|p|, if mask.Some? then 128 else 0);
    var rest := MaskBytes(mask) + MaskedBy(p, mask);
    assert FrameBytes(opcode, p, mask) == [Or80(opcode)] + (len + rest);
    if 126 <= |p| < 65536 {
      TwoBytes(|p|);
    } else if 65536 <= |p| {
      var b := [Or80(opcode)] + (len + rest);
      forall k | 2 <= k < 10 ensures b[k] == |p| / Pow(256, 9 - k) % 256 {
        BigEndianAt(8, |p|, k - 2);
      }
    }
  }

  lemma TwoBytes(n: nat)
    requires n < 65536
    ensures BigEndian(2, n) == [n / 256, n % 256]
  {
    assert BigEndian(2, n) == BigEndian(1, n / 256) + [n % 256];
    assert BigEndian(1, n / 256) == BigEndian(0, n / 256 / 256) + [n / 256 % 256];
  }

  /** RFC 6455 section 5.3: the mask stands in front of the payload, whose byte i is combined with byte i mod 4 of the
      mask. */
  lemma MaskOnWire(opcode: byte, p: Bytes, m: Mask)
    ensures var b := FrameBytes(opcode, p, Some(m));
            var h := |b| - |p|;
            && h >= 6 && b[h - 4..h] == m
            && forall i :: 0 <= i < |p| ==> b[h + i] == Xor(p[i], m[i % 4])
  {
    hide LengthBytes;
    var front := [Or80(opcode)] + LengthBytes(|p|, 128);
    assert |LengthBytes(|p|, 128)| >= 1 by {
      LengthIsWritten(|p|, 128);
    }
    assert FrameBytes(opcode, p, Some(m)) == front + m + Masked(p, m);
  }

  /** The same where the frame was appended to other output. */
  lemma MaskOnOutput(before: Bytes, after: Bytes, opcode: byte, p: Bytes, m: Mask)
    requires after == before + FrameBytes(opcode, p, Some(m))
    ensures var h := |after| - |p|;
            && h >= |before| + 6 && after[h - 4..h] == m
            && forall i :: 0 <= i < |p| ==> after[h + i] == Xor(p[i], m[i % 4])
  {
    hide FrameBytes;
    hide Xor;
    MaskOnWire(opcode, p, m);
    var b := FrameBytes(opcode, p, Some(m));
    var k, h := |b| - |p|, |after| - |p|;
    assert after[h - 4..h] == b[k - 4..k];
    forall i | 0 <= i < |p| ensures after[h + i] == Xor(p[i], m[i % 4]) {
      assert b[k + i] == Xor(p[i], m[i % 4]);
    }
  }

  lemma LengthIsWritten(n: nat, bit: byte)
    requires bit == 0 || bit == 128
    ensures |LengthBytes(n, bit)| >= 1
  {
  }

  /** An unmasked frame, as servers send it, ends in the payload itself. */
  lemma PlainOnWire(opcode: byte, p: Bytes)
    ensures var b := FrameBytes(opcode, p, None);
            |b| >= |p| + 2 && b[|b| - |p|..] == p
  {
    hide LengthBytes;
    LengthIsWritten(|p|, 0);
    var front := [Or80(opcode)] + LengthBytes(|p|, 0);
    assert FrameBytes(opcode, p, None) == front + p;
  }

  /** Where a frame's mask and payload stand. */
  lemma FrameShape(s: Bytes, i: nat)
    requires i <= |s| && FrameAt(s, i).Some?
    ensures i + 2 <= |s| && LengthAt(s, i + 1).Some?
    ensures var f := FrameAt(s, i).value;
            var (n, h) := LengthAt(s, i + 1).value;
            && f.opcode == s[i] % 16 && h >= i + 2 && |f.payload| == n
            && (s[i + 1] < 128 ==> f.next == h + n <= |s| && f.payload == s[h..h + n])
            && (s[i + 1] >= 128 ==>
                  f.next == h + 4 + n <= |s| && f.payload == Masked(s[h + 4..h + 4 + n], s[h..h + 4]))
  {
    hide BigEndianValue;
    hide Masked;
  }

  /** What is read: the payload of a frame is the last bytes of it, each combined with its byte of the four in front
      when the mask bit is set, and as it is otherwise. */
  lemma PayloadOnWire(s: Bytes, i: nat)
    requires i <= |s| && FrameAt(s, i).Some?
    ensures var f := FrameAt(s, i).value;
            var n, h := |f.payload|, f.next - |f.payload|;
            && f.opcode == s[i] % 16 && h >= i + 2
            && (s[i + 1] < 128 ==> f.payload == s[h..f.next])
            && (s[i + 1] >= 128 ==>
                  h >= i + 6 && forall k :: 0 <= k < n ==> f.payload[k] == Xor(s[h + k], s[h - 4 + k % 4]))
  {
    hide FrameAt;
    hide LengthAt;
    hide Masked;
    FrameShape(s, i);
    var f := FrameAt(s, i).value;
    var h := f.next - |f.payload|;
    if s[i + 1] >= 128 {
      var p, m := s[h..f.next], s[h - 4..h];
      forall k | 0 <= k < |p| ensures f.payload[k] == Xor(s[h + k], s[h - 4 + k % 4]) {
        MaskedAt(p, m, k);
      }
    }
  }

  lemma MaskedAt(p: Bytes, m: Mask, k: nat)
    requires k < |p|
    ensures Masked(p, m)[k] == Xor(p[k], m[k % 4])
  {
  }

  // ---- subscription.go builds its frames by hand ------------------------

  function BuildTextFrame(p: Bytes, mask: Mask): Bytes {
    var n := |p|;
    [0x81] + ((if n <= 125 then [Or80(n)]
               else if n <= 65535 then [Or80(126)] + [n / 256 % 256, n % 256]
               else [Or80(127)] + BigEndian(8, n)) + (mask + Masked(p, mask)))
  }

  function BuildPongFrame(p: Bytes, mask: Mask): Bytes {
    [0x8A] + ([Or80(|p|)] + (mask + Masked(p, mask)))
  }

  /** Both packages put the same bytes on the wire for a text message. */
  lemma TextFramesAgree(p: Bytes, mask: Mask)
    ensures BuildTextFrame(p, mask) == FrameBytes(OP_TEXT, p, Some(mask))
  {
    hide Masked;
    assert BigEndian(2, |p|) == BigEndian(1, |p| / 256) + [|p| % 256];
    assert BigEndian(1, |p| / 256) == BigEndian(0, |p| / 256 / 256) + [|p| / 256 % 256];
  }

  /** The hand-built pong is a readable frame for its payload exactly up to 125 bytes, the limit that
      section 5.5 sets for control frames. */
  lemma PongReadsIffShort(p: Bytes, mask: Mask, tail: Bytes)
    requires |p| < 0x8000_0000_0000_0000
    ensures var b := BuildPongFrame(p, mask);
            FrameAt(b + tail, 0) == Some(Frame(OP_PONG, p, |b|)) <==> |p| <= 125
  {
    var b := BuildPongFrame(p, mask);
    if |p| <= 125 {
      PongIsFrame(p, mask);
      FrameRoundTrip(OP_PONG, p, Some(mask), tail);
    } else {
      hide Masked;
      var s := b + tail;
      assert s[0] == 0x8A && s[1] == Or80(|p|);
      if FrameAt(s, 0).Some? {
        var (length, h) := LengthAt(s, 1).value;
        assert FrameAt(s, 0).value.next == h + 4 + length;
        assert |FrameAt(s, 0).value.payload| == length;
      }
    }
  }

  // ---- Messages ---------------------------------------------------------

  datatype Outcome = Text(payload: Bytes) | Broken | ClosedByServer | Unsupported(opcode: byte)

  /** What a message loop returns, where it stops, and the ping payloads it answers, in order. */
  datatype Delivery = Delivery(outcome: Outcome, end: nat, pings: seq<Bytes>)

  function After(pings: seq<Bytes>, d: Delivery): Delivery {
    d.(pings := pings + d.pings)
  }

  lemma AfterAfter(a: seq<Bytes>, b: seq<Bytes>, d: Delivery)
    ensures After(a, After(b, d)) == After(a + b, d)
    ensures After([], d) == d
  {
    assert a + (b + d.pings) == (a + b) + d.pings;
    assert [] + d.pings == d.pings;
  }

  /** `strict` is the loop of subscription.go, which refuses opcodes it does not know. */
  function MessageAt(s: Bytes, i: nat, strict: bool): Delivery
    requires i <= |s|
    decreases |s| - i
  {
    match FrameAt(s, i)
    case None => Delivery(Broken, i, [])
    case Some(Frame(opcode, payload, next)) =>
      if opcode == OP_TEXT then Delivery(Text(payload), next, [])
      else if opcode == OP_CLOSE then Delivery(ClosedByServer, next, [])
      else if strict && opcode != OP_PING && opcode != OP_PONG then Delivery(Unsupported(opcode), next, [])
      else After(if opcode == OP_PING then [payload] else [], MessageAt(s, next, strict))
  }

  datatype Sent = Sent(opcode: byte, payload: Bytes, mask: Option<Mask>)

  function SendAll(fs: seq<Sent>): Bytes {
    if fs == [] then [] else FrameBytes(fs[0].opcode, fs[0].payload, fs[0].mask) + SendAll(fs[1..])
  }

  /** Frames that end no message: pings and pongs, and in websocket.go any but text and close. */
  predicate AllSkipped(fs: seq<Sent>, strict: bool) {
    fs != [] ==>
      && (if strict then fs[0].opcode == OP_PING || fs[0].opcode == OP_PONG
          else fs[0].opcode < 16 && fs[0].opcode != OP_TEXT && fs[0].opcode != OP_CLOSE)
      && |fs[0].payload| < 0x8000_0000_0000_0000
      && AllSkipped(fs[1..], strict)
  }

  function Pings(fs: seq<Sent>): seq<Bytes> {
    if fs == [] then []
    else (if fs[0].opcode == OP_PING then [fs[0].payload] else []) + Pings(fs[1..])
  }

  /** A frame that ends a loop. */
  predicate IsLast(f: Sent, strict: bool) {
    && f.opcode < 16 && |f.payload| < 0x8000_0000_0000_0000
    && (f.opcode == OP_TEXT || f.opcode == OP_CLOSE || (strict && f.opcode != OP_PING && f.opcode != OP_PONG))
  }

  /** The frames in front of the last one are transparent and every ping among them is answered once, in order; the last
      one decides: its text, the end of the connection, or in subscription.go the opcode that is not supported. */
  lemma {:induction false} LastFrameDecides(s: Bytes, i: nat, fs: seq<Sent>, last: Sent, strict: bool)
    requires AllSkipped(fs, strict) && IsLast(last, strict)
    requires At(s, i, SendAll(fs) + FrameBytes(last.opcode, last.payload, last.mask))
    ensures var end := i + |SendAll(fs)| + |FrameBytes(last.opcode, last.payload, last.mask)|;
            && end <= |s| && i <= |s|
            && (last.opcode == OP_TEXT ==> MessageAt(s, i, strict) == Delivery(Text(last.payload), end, Pings(fs)))
            && (last.opcode == OP_CLOSE ==> MessageAt(s, i, strict) == Delivery(ClosedByServer, end, Pings(fs)))
            && (last.opcode != OP_TEXT && last.opcode != OP_CLOSE ==>
                  MessageAt(s, i, strict) == Delivery(Unsupported(last.opcode), end, Pings(fs)))
    decreases fs
  {
    hide At;
    hide FrameBytes;
    hide FrameAt;
    var b := FrameBytes(last.opcode, last.payload, last.mask);
    AtSlice(s, i, SendAll(fs) + b);
    if fs == [] {
      assert SendAll(fs) + b == b;
      FrameReads(s, i, last.opcode, last.payload, last.mask);
    } else {
      var f := FrameBytes(fs[0].opcode, fs[0].payload, fs[0].mask);
      assert SendAll(fs) + b == f + (SendAll(fs[1..]) + b);
      AtSplit(s, i, f, SendAll(fs[1..]) + b);
      FrameReads(s, i, fs[0].opcode, fs[0].payload, fs[0].mask);
      LastFrameDecides(s, i + |f|, fs[1..], last, strict);
    }
  }

  // ---- What the peer reads ----------------------------------------------

  /** The frames from position `i` on, up to the first that cannot be read. */
  function FramesFrom(s: Bytes, i: nat): seq<(byte, Bytes)>
    requires i <= |s|
    decreases |s| - i
  {
    match FrameAt(s, i)
    case None => []
    case Some(Frame(opcode, payload, next)) => [(opcode, payload)] + FramesFrom(s, next)
  }

  function Pongs(pings: seq<Bytes>): seq<(byte, Bytes)> {
    if pings == [] then [] else [(OP_PONG, pings[0])] + Pongs(pings[1..])
  }

  /** Pings within the limit of section 5.5 of RFC 6455. */
  predicate AllShort(pings: seq<Bytes>) {
    pings != [] ==> |pings[0]| <= 125 && AllShort(pings[1..])
  }

  /** The peer reads one pong for each of its pings, in their order and with their payloads. */
  lemma {:induction false} PongsAnswerPings(s: Bytes, i: nat, pings: seq<Bytes>, masks: nat -> Mask, draw: nat,
                                            strict: bool)
    requires AllShort(pings) && At(s, i, Echo(pings, masks, draw, strict))
    ensures var end := i + |Echo(pings, masks, draw, strict)|;
            end <= |s| && FramesFrom(s, i) == Pongs(pings) + FramesFrom(s, end)
    decreases pings
  {
    hide At;
    hide FrameBytes;
    hide BuildPongFrame;
    hide FrameAt;
    AtSlice(s, i, Echo(pings, masks, draw, strict));
    if pings != [] {
      var b, rest := PongBytes(pings[0], masks(draw), strict), Echo(pings[1..], masks, draw + 1, strict);
      AtSplit(s, i, b, rest);
      PongIsFrame(pings[0], masks(draw));
      FrameReads(s, i, OP_PONG, pings[0], Some(masks(draw)));
      PongsAnswerPings(s, i + |b|, pings[1..], masks, draw + 1, strict);
    }
  }

  lemma PongIsFrame(p: Bytes, mask: Mask)
    requires |p| <= 125
    ensures BuildPongFrame(p, mask) == FrameBytes(OP_PONG, p, Some(mask))
  {
  }

  // ---- The connection object --------------------------------------------

  datatype WriteError = ConnectionClosed

  class Conn {
    /** What the peer sends, what was sent to the peer, and the source of masks. */
    const input: Bytes
    const masks: nat -> Mask
    var pos: nat
    var out: Bytes
    var draws: nat
    var closed: bool

    ghost predicate Valid()
      reads this
    {
      pos <= |input|
    }

    constructor (input: Bytes, masks: nat -> Mask)
      ensures Valid() && this.input == input && this.masks == masks
      ensures pos == 0 && out == [] && draws == 0 && !closed
    {
      this.input, this.masks := input, masks;
      pos, out, draws, closed := 0, [], 0, false;
    }

    method WriteFrame(opcode: byte, payload: Bytes) returns (status: Result<(), WriteError>)
      requires Valid()
      modifies this`out, this`draws
      ensures Valid()
      ensures status == if closed then Err(ConnectionClosed) else Ok(())
      ensures draws == if closed then old(draws) else old(draws) + 1
      ensures out == if closed then old(out) else old(out) + FrameBytes(opcode, payload, Some(masks(old(draws))))
      ensures !closed ==>
                var h, m := |out| - |payload|, masks(old(draws));
                && h >= |old(out)| + 6 && out[h - 4..h] == m
                && forall i :: 0 <= i < |payload| ==> out[h + i] == Xor(payload[i], m[i % 4])
    {
      if closed {
        return Err(ConnectionClosed);
      }
      hide FrameBytes;
      hide LengthBytes;
      hide BigEndian;
      hide Masked;
      hide Xor;
      var length := |payload|;
      var frame := FrameHeader(opcode, length);
      var mask := masks(draws);
      draws := draws + 1;
      var masked := new byte[length];
      for i := 0 to length
        invariant draws == old(draws) + 1 && out == old(out)
        invariant forall k :: 0 <= k < i ==> masked[k] == XorByte(payload[k], mask[k % 4])
      {
        masked[i] := XorByte(payload[i], mask[i % 4]);
      }
      IsMasked(masked[..], payload, mask);
      out := out + frame + mask + masked[..];
      InOrder(old(out), [Or80(opcode)], LengthBytes(length, 128), mask, masked[..]);
      FrameIs(opcode, payload, mask);
      MaskOnOutput(old(out), out, opcode, payload, mask);
      return Ok(());
    }

    /** io.ReadFull on the connection. */
    method ReadFull(n: nat) returns (b: Option<Bytes>)
      requires Valid()
      modifies this`pos
      ensures Valid()
      ensures b == if old(pos) + n <= |input| then Some(input[old(pos)..old(pos) + n]) else None
      ensures pos == if old(pos) + n <= |input| then old(pos) + n else |input|
    {
      if pos + n <= |input| {
        b := Some(input[pos..pos + n]);
        pos := pos + n;
      } else {
        b, pos := None, |input|;
      }
    }

    method ReadFrame() returns (f: Option<(byte, Bytes)>)
      requires Valid()
      modifies this`pos
      ensures Valid()
      ensures match FrameAt(input, old(pos))
              case None => f == None
              case Some(frame) => f == Some((frame.opcode, frame.payload)) && pos == frame.next
    {
      hide Masked;
      hide BigEndianValue;
      ghost var i := pos;
      var header := ReadFull(2);
      if header.None? {
        return None;
      }
      var b0, b1 := header.value[0], header.value[1];
      assert b0 == input[i] && b1 == input[i + 1];
      var length := b1 % 128;
      if length == 126 {
        var ext := ReadFull(2);
        if ext.None? {
          return None;
        }
        length := BigEndianValue(ext.value);
      } else if length == 127 {
        var ext := ReadFull(8);
        if ext.None? {
          return None;
        }
        length := BigEndianValue(ext.value);
      }
      assert LengthAt(input, i + 1) == Some((length, pos));
      if b1 >= 128 {
        var mask := ReadFull(4);
        if mask.None? {
          return None;
        }
        var payload := ReadFull(length);
        if payload.None? {
          return None;
        }
        var clear := Unmask(payload.value, mask.value);
        return Some((b0 % 16, clear));
      }
      var payload := ReadFull(length);
      if payload.None? {
        return None;
      }
      return Some((b0 % 16, payload.value));
    }

    /** ReadMessage of websocket.go, or readTextFrame of subscription.go when `strict`. */
    method ReadMessage(strict: bool) returns (outcome: Outcome, ghost pings: seq<Bytes>)
      requires Valid()
      modifies this
      ensures Valid()
      ensures outcome == MessageAt(input, old(pos), strict).outcome
      ensures pings == MessageAt(input, old(pos), strict).pings
      ensures !outcome.Broken? ==> pos == MessageAt(input, old(pos), strict).end
      ensures closed == (old(closed) || (outcome.ClosedByServer? && !strict))
      ensures old(closed) && !strict ==> out == old(out)
      ensures strict || !old(closed) ==>
                out == old(out) + Echo(pings, masks, old(draws), strict) +
                       if outcome.ClosedByServer? && !strict
                       then FrameBytes(OP_CLOSE, [], Some(masks(old(draws) + |pings|))) else []
    {
      hide FrameAt;
      hide FrameBytes;
      hide PongBytes;
      hide Echo;
      pings := [];
      EchoNothing(out, masks, draws, strict);
      AfterAfter([], [], MessageAt(input, pos, strict));
      while true
        invariant Valid() && old(pos) <= pos && closed == old(closed)
        invariant MessageAt(input, old(pos), strict) == After(pings, MessageAt(input, pos, strict))
        invariant closed && !strict ==> out == old(out)
        invariant strict || !closed ==>
                    out == old(out) + Echo(pings, masks, old(draws), strict) && draws == old(draws) + |pings|
        decreases |input| - pos
      {
        var f := ReadFrame();
        if f.None? {
          assert pings + [] == pings;
          return Broken, pings;
        }
        var (opcode, payload) := f.value;
        if opcode == OP_TEXT {
          assert pings + [] == pings;
          return Text(payload), pings;
        } else if opcode == OP_CLOSE {
          assert pings + [] == pings;
          Farewell(strict);
          return ClosedByServer, pings;
        } else if opcode == OP_PING {
          Answer(payload, strict);
          EchoAppend(pings, payload, masks, old(draws), strict);
          AfterAfter(pings, [payload], MessageAt(input, pos, strict));
          pings := pings + [payload];
        } else if opcode != OP_PONG && strict {
          assert pings + [] == pings;
          return Unsupported(opcode), pings;
        } else {
          AfterAfter([], [], MessageAt(input, pos, strict));
        }
      }
    }

    /** The reply to a close frame: websocket.go answers it and marks the connection closed. */
    method Farewell(strict: bool)
      requires Valid()
      modifies this`out, this`draws, this`closed
      ensures Valid()
      ensures closed == (old(closed) || !strict)
      ensures out == old(out) + if old(closed) || strict then []
                                else FrameBytes(OP_CLOSE, [], Some(masks(old(draws))))
    {
      hide FrameBytes;
      assert out + [] == out;
      if !strict {
        var _ := WriteFrame(OP_CLOSE, []);
        closed := true;
      }
    }

    /** One pong: through writeFrame, or hand-built and written whatever the flag says. */
    method Answer(payload: Bytes, strict: bool)
      requires Valid()
      modifies this`out, this`draws
      ensures Valid()
      ensures closed && !strict ==> out == old(out)
      ensures strict || !closed ==>
                out == old(out) + PongBytes(payload, masks(old(draws)), strict) && draws == old(draws) + 1
    {
      if !strict {
        var _ := WriteFrame(OP_PONG, payload);
      } else {
        out := out + BuildPongFrame(payload, masks(draws));
        draws := draws + 1;
      }
    }
  }

  /** The first bytes of a masked frame, up to its mask. */
  method FrameHeader(opcode: byte, length: nat) returns (frame: Bytes)
    ensures frame == [Or80(opcode)] + LengthBytes(length, 128)
  {
    frame := [Or80(opcode)];
    if length <= 125 {
      frame := frame + [Or80(length)];
    } else if length <= 65535 {
      frame := frame + [Or80(126)] + BigEndian(2, length);
    } else {
      frame := frame + [Or80(127)] + BigEndian(8, length);
    }
  }

  lemma IsMasked(q: Bytes, p: Bytes, m: Mask)
    requires |q| == |p| && forall k :: 0 <= k < |p| ==> q[k] == XorByte(p[k], m[k % 4])
    ensures q == Masked(p, m)
  {
    hide XorByte;
  }

  lemma FrameIs(opcode: byte, p: Bytes, m: Mask)
    ensures FrameBytes(opcode, p, Some(m)) == [Or80(opcode)] + (LengthBytes(|p|, 128) + (m + Masked(p, m)))
  {
  }

  lemma InOrder(start: Bytes, a: Bytes, b: Bytes, c: Bytes, d: Bytes)
    ensures start + (a + b) + c + d == start + (a + (b + (c + d)))
  {
  }

  /** The in-place unmasking loop. */
  method Unmask(payload: Bytes, mask: Mask) returns (clear: Bytes)
    ensures clear == Masked(payload, mask)
    ensures |clear| == |payload| && forall i :: 0 <= i < |payload| ==> clear[i] == Xor(payload[i], mask[i % 4])
  {
    var buf := new byte[|payload|](i requires 0 <= i < |payload| => payload[i]);
    for i := 0 to buf.Length
      invariant forall k :: 0 <= k < i ==> buf[k] == XorByte(payload[k], mask[k % 4])
      invariant forall k :: i <= k < buf.Length ==> buf[k] == payload[k]
    {
      buf[i] := XorByte(buf[i], mask[i % 4]);
    }
    return buf[..];
  }

  function PongBytes(p: Bytes, mask: Mask, strict: bool): Bytes {
    if strict then BuildPongFrame(p, mask) else FrameBytes(OP_PONG, p, Some(mask))
  }

  /** The pongs that answer `pings`, with the masks drawn from `draw` on. */
  function Echo(pings: seq<Bytes>, masks: nat -> Mask, draw: nat, strict: bool): Bytes {
    if pings == [] then []
    else PongBytes(pings[0], masks(draw), strict) + Echo(pings[1..], masks, draw + 1, strict)
  }

  lemma EchoNothing(start: Bytes, masks: nat -> Mask, draw: nat, strict: bool)
    ensures start + Echo([], masks, draw, strict) == start
  {
  }

  lemma {:induction false} EchoAppend(pings: seq<Bytes>, p: Bytes, masks: nat -> Mask, draw: nat, strict: bool)
    ensures Echo(pings + [p], masks, draw, strict) ==
            Echo(pings, masks, draw, strict) + PongBytes(p, masks(draw + |pings|), strict)
    decreases pings
  {
    hide PongBytes;
    if pings == [] {
      assert pings + [p] == [p];
      assert Echo([p], masks, draw, strict) == PongBytes(p, masks(draw), strict) + Echo([], masks, draw + 1, strict);
    } else {
      EchoAppend(pings[1..], p, masks, draw + 1, strict);
      assert (pings + [p])[1..] == pings[1..] + [p] && (pings + [p])[0] == pings[0];
      var a, b := PongBytes(pings[0], masks(draw), strict), Echo(pings[1..], masks, draw + 1, strict);
      var c := PongBytes(p, masks(draw + |pings|), strict);
      assert a + (b + c) == (a + b) + c;
    }
  }
}
