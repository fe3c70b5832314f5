/** The binary frame envelope: a 20-byte big-endian header and a strict decoder. */
module Codec {
  import opened Common

  const MAGIC: Bytes := [0x52, 0x54, 0x42, 0x31]
  const HEADER_LEN: nat := 20
  const MAX_PAYLOAD_LEN: nat := 1024 * 1024

  datatype FrameKind = Output | Input

  datatype Frame = Frame(kind: FrameKind, seqNo: U64, payload: Bytes)

  datatype DecodeError =
    TruncatedHeader | BadMagic | NonZeroReserved | PayloadTooLarge | LengthMismatch | UnknownKind

  function KindByte(k: FrameKind): Byte {
    match k
    case Output => 1
    case Input => 2
  }

  function KindFromByte(b: Byte): Option<FrameKind> {
    if b == 1 then Some(Output) else if b == 2 then Some(Input) else None
  }

  // ---------- big-endian integers ----------

  function Pow256(n: nat): (p: nat)
    ensures p > 0
  {
    if n == 0 then 1 else 256 * Pow256(n - 1)
  }

  /** `to_be_bytes` at width `n`. */
  function ToBe(v: nat, n: nat): (r: Bytes)
    ensures |r| == n
  {
    if n == 0 then [] else ToBe(v / 256, n - 1) + [v % 256]
  }

  /** `from_be_bytes`. */
  function FromBe(b: Bytes): nat {
    if b == [] then 0 else FromBe(b[..|b| - 1]) * 256 + b[|b| - 1]
  }

  lemma {:induction false} FromBeBound(b: Bytes)
    ensures FromBe(b) < Pow256(|b|)
  {
    if b != [] {
      FromBeBound(b[..|b| - 1]);
    }
  }

  lemma {:induction false} FromToBe(v: nat, n: nat)
    requires v < Pow256(n)
    ensures FromBe(ToBe(v, n)) == v
  {
    if n > 0 {
      FromToBe(v / 256, n - 1);
      assert ToBe(v, n)[..n - 1] == ToBe(v / 256, n - 1);
    }
  }

  lemma {:induction false} ToFromBe(b: Bytes)
    ensures ToBe(FromBe(b), |b|) == b
  {
    if b != [] {
      var init, last := b[..|b| - 1], b[|b| - 1];
      ToFromBe(init);
      DivMod256(FromBe(init), last);
      assert b == init + [last];
    }
  }

  lemma DivMod256(q: nat, r: Byte)
    ensures (q * 256 + r) / 256 == q && (q * 256 + r) % 256 == r
  {
  }

  lemma Powers()
    ensures Pow256(0) == 1 && Pow256(1) == 0x100 && Pow256(2) == 0x1_0000 && Pow256(3) == 0x100_0000
    ensures Pow256(4) == 0x1_0000_0000 && Pow256(5) == 0x100_0000_0000 && Pow256(6) == 0x1_0000_0000_0000
    ensures Pow256(7) == 0x100_0000_0000_0000 && Pow256(8) == 0x1_0000_0000_0000_0000
  {
    assert Pow256(1) == 256 * Pow256(0);
    assert Pow256(2) == 256 * Pow256(1);
    assert Pow256(3) == 256 * Pow256(2);
    assert Pow256(4) == 256 * Pow256(3);
    assert Pow256(5) == 256 * Pow256(4);
    assert Pow256(6) == 256 * Pow256(5);
    assert Pow256(7) == 256 * Pow256(6);
    assert Pow256(8) == 256 * Pow256(7);
  }

  // ---------- the codec ----------

  function Header(kind: FrameKind, seqNo: U64, len: nat): Bytes {
    MAGIC + [KindByte(kind), 0, 0, 0] + ToBe(seqNo as nat, 8) + ToBe(len, 4)
  }

  /** The wire image of a frame. */
  function Wire(f: Frame): Bytes {
    Header(f.kind, f.seqNo, |f.payload|) + f.payload
  }

  // ---------- the format, byte by byte ----------

  /** Byte `i` of the width-`n` encoding is the digit of weight `256^(n-1-i)`. */
  lemma {:induction false} ToBeDigit(v: nat, n: nat, i: nat)
    requires i < n
    ensures ToBe(v, n)[i] == v / Pow256(n - 1 - i) % 256
  {
    if i == n - 1 {
      assert Pow256(0) == 1;
    } else {
      ToBeDigit(v / 256, n - 1, i);
      DivDiv(v, Pow256(n - 2 - i));
    }
  }

  lemma DivDiv(v: nat, p: nat)
    requires p > 0
    ensures v / 256 / p == v / (256 * p)
  {
    var q := v / 256 / p;
    var r := v / 256 - q * p;
    assert v / 256 == q * p + r && 0 <= r < p;
    assert v == 256 * (q * p + r) + v % 256;
    assert 256 * (q * p) == q * (256 * p);
    QuotientUnique(v, 256 * p, q, 256 * r + v % 256);
  }

  lemma QuotientUnique(v: nat, d: nat, q: nat, r: nat)
    requires d > 0 && v == q * d + r && r < d
    ensures v / d == q
  {
    var e := v / d;
    assert e * d <= v < e * d + d;
    assert (q - e) * d == q * d - e * d;
    SmallMultiple(q - e, d);
  }

  lemma SmallMultiple(k: int, d: int)
    requires -d < k * d < d
    ensures k == 0
  {
    assert k >= 1 ==> k * d >= d;
    assert k <= -1 ==> k * d <= -d;
  }

  /** The envelope as the protocol lays it down: "RTB1", the kind, one zero flag byte and two zero
      reserved bytes, the seq in eight and the payload length in four bytes, most significant
      first, and the payload. */
  ghost predicate IsEnvelope(buf: Bytes, kind: FrameKind, seqNo: nat, payload: Bytes) {
    && |buf| == 20 + |payload|
    && buf[0] == 0x52 && buf[1] == 0x54 && buf[2] == 0x42 && buf[3] == 0x31
    && buf[4] == (match kind case Output => 1 case Input => 2)
    && buf[5] == 0 && buf[6] == 0 && buf[7] == 0
    && buf[8] == seqNo / 0x100_0000_0000_0000 % 256 && buf[9] == seqNo / 0x1_0000_0000_0000 % 256
    && buf[10] == seqNo / 0x100_0000_0000 % 256 && buf[11] == seqNo / 0x1_0000_0000 % 256
    && buf[12] == seqNo / 0x100_0000 % 256 && buf[13] == seqNo / 0x1_0000 % 256
    && buf[14] == seqNo / 0x100 % 256 && buf[15] == seqNo % 256
    && buf[16] == |payload| / 0x100_0000 % 256 && buf[17] == |payload| / 0x1_0000 % 256
    && buf[18] == |payload| / 0x100 % 256 && buf[19] == |payload| % 256
    && buf[20..] == payload
  }

  lemma Digits4(v: nat)
    ensures var d := ToBe(v, 4);
      d[0] == v / 0x100_0000 % 256 && d[1] == v / 0x1_0000 % 256 && d[2] == v / 0x100 % 256 && d[3] == v % 256
  {
    Powers();
    ToBeDigit(v, 4, 0);
    ToBeDigit(v, 4, 1);
    ToBeDigit(v, 4, 2);
    ToBeDigit(v, 4, 3);
  }

  lemma Digits8(v: nat)
    ensures var d := ToBe(v, 8);
      && d[0] == v / 0x100_0000_0000_0000 % 256 && d[1] == v / 0x1_0000_0000_0000 % 256
      && d[2] == v / 0x100_0000_0000 % 256 && d[3] == v / 0x1_0000_0000 % 256
      && d[4] == v / 0x100_0000 % 256 && d[5] == v / 0x1_0000 % 256
      && d[6] == v / 0x100 % 256 && d[7] == v % 256
  {
    Powers();
    ToBeDigit(v, 8, 0);
    ToBeDigit(v, 8, 1);
    ToBeDigit(v, 8, 2);
    ToBeDigit(v, 8, 3);
    ToBeDigit(v, 8, 4);
    ToBeDigit(v, 8, 5);
    ToBeDigit(v, 8, 6);
    ToBeDigit(v, 8, 7);
  }

  lemma WireIsEnvelope(f: Frame)
    ensures IsEnvelope(Wire(f), f.kind, f.seqNo as nat, f.payload)
  {
    var w := Wire(f);
    WireFields(f);
    Digits8(f.seqNo as nat);
    Digits4(|f.payload|);
    assert w[0] == w[..4][0] && w[1] == w[..4][1] && w[2] == w[..4][2] && w[3] == w[..4][3];
    assert w[6] == w[6..8][0] && w[7] == w[6..8][1];
    assert forall i | 0 <= i < 8 :: w[8 + i] == w[8..16][i];
    assert forall i | 0 <= i < 4 :: w[16 + i] == w[16..20][i];
  }

  /** `encode_binary_frame`: the buffer grows by successive appends. A payload is refused exactly
      above 1 MiB, and otherwise the result is the protocol's envelope around it. */
  method EncodeFrame(kind: FrameKind, seqNo: U64, payload: Bytes) returns (r: Result<Bytes, DecodeError>)
    ensures |payload| > 1048576 <==> r == Err(PayloadTooLarge)
    ensures |payload| <= 1048576 <==> r == Ok(Wire(Frame(kind, seqNo, payload)))
    ensures r.Ok? ==> IsEnvelope(r.value, kind, seqNo as nat, payload)
  {
    WireIsEnvelope(Frame(kind, seqNo, payload));
    if |payload| > MAX_PAYLOAD_LEN {
      return Err(PayloadTooLarge);
    }
    var buf := MAGIC;
    buf := buf + [KindByte(kind)];
    buf := buf + [0];
    buf := buf + [0, 0];
    assert buf == MAGIC + [KindByte(kind), 0, 0, 0];
    buf := buf + ToBe(seqNo as nat, 8);
    buf := buf + ToBe(|payload|, 4);
    buf := buf + payload;
    r := Ok(buf);
  }

  /** `decode_binary_frame`, its checks in the source's order. */
  function DecodeFrame(buf: Bytes): Result<Frame, DecodeError> {
    if |buf| < HEADER_LEN then Err(TruncatedHeader)
    else if buf[..4] != MAGIC then Err(BadMagic)
    else if buf[5] != 0 || FromBe(buf[6..8]) != 0 then Err(NonZeroReserved)
    else
      var seqNo := FromBe(buf[8..16]);
      var len := FromBe(buf[16..20]);
      if len > MAX_PAYLOAD_LEN then Err(PayloadTooLarge)
      else if |buf| != HEADER_LEN + len then Err(LengthMismatch)
      else
        match KindFromByte(buf[4])
        case None => Err(UnknownKind)
        case Some(kind) => SeqFits(buf[8..16]); Ok(Frame(kind, seqNo as U64, buf[HEADER_LEN..]))
  }

  lemma SeqFits(b: Bytes)
    requires |b| == 8
    ensures FromBe(b) < 0x1_0000_0000_0000_0000
  {
    FromBeBound(b);
    Powers();
  }

  lemma WireFields(f: Frame)
    ensures var w := Wire(f);
      && |w| == HEADER_LEN + |f.payload|
      && w[..4] == MAGIC && w[4] == KindByte(f.kind) && w[5] == 0
      && w[6..8] == [0, 0]
      && w[8..16] == ToBe(f.seqNo as nat, 8)
      && w[16..20] == ToBe(|f.payload|, 4)
      && w[HEADER_LEN..] == f.payload
  {
  }

  lemma TwoZeros(b: Bytes)
    requires |b| == 2
    ensures FromBe(b) == 0 <==> b == [0, 0]
  {
    assert b == [b[0], b[1]];
    assert b[..1] == [b[0]] && [b[0]][..0] == [];
    assert FromBe([b[0]]) == b[0];
  }

  /** Decoding an encoded frame returns it, for every seq and every payload within the cap. */
  lemma DecodeOfWire(f: Frame)
    requires |f.payload| <= MAX_PAYLOAD_LEN
    ensures DecodeFrame(Wire(f)) == Ok(f)
  {
    WireFields(f);
    Powers();
    TwoZeros([0, 0]);
    FromToBe(f.seqNo as nat, 8);
    FromToBe(|f.payload|, 4);
  }

  /** Whatever the decoder accepts re-encodes to the identical bytes: no two buffers decode
      to the same frame, and nothing in an accepted buffer is ignored. */
  lemma WireOfDecode(buf: Bytes)
    requires DecodeFrame(buf).Ok?
    ensures Wire(DecodeFrame(buf).value) == buf
    ensures |DecodeFrame(buf).value.payload| <= MAX_PAYLOAD_LEN
  {
    var f := DecodeFrame(buf).value;
    TwoZeros(buf[6..8]);
    ToFromBe(buf[8..16]);
    ToFromBe(buf[16..20]);
    assert buf[4..8] == [buf[4], buf[5]] + buf[6..8];
    assert buf == buf[..4] + buf[4..8] + buf[8..16] + buf[16..20] + buf[20..];
  }

  /** Whatever the decoder accepts is the protocol's envelope around the frame it returns. */
  lemma AcceptedIsEnvelope(buf: Bytes)
    requires DecodeFrame(buf).Ok?
    ensures var f := DecodeFrame(buf).value;
      IsEnvelope(buf, f.kind, f.seqNo as nat, f.payload) && |f.payload| <= 1048576
  {
    WireOfDecode(buf);
    WireIsEnvelope(DecodeFrame(buf).value);
  }

  /** The declared payload length. */
  function DeclaredLen(buf: Bytes): nat
    requires |buf| >= 20
  {
    0x100_0000 * buf[16] as int + 0x1_0000 * buf[17] as int + 0x100 * buf[18] as int + buf[19]
  }

  lemma DeclaredLenIsFromBe(buf: Bytes)
    requires |buf| >= 20
    ensures FromBe(buf[16..20]) == DeclaredLen(buf)
  {
    var b := buf[16..20];
    assert b[..3][..2][..1][..0] == [];
    assert FromBe(b[..3][..2][..1]) == b[0];
    assert FromBe(b[..3][..2]) == 0x100 * b[0] as int + b[1];
    assert FromBe(b[..3]) == 0x1_0000 * b[0] as int + 0x100 * b[1] as int + b[2];
  }

  /** Which error a rejected buffer gets: that of the first check it fails, in this order. */
  lemma FirstFailedCheck(buf: Bytes)
    ensures
      if |buf| < 20 then DecodeFrame(buf) == Err(TruncatedHeader)
      else if !(buf[0] == 0x52 && buf[1] == 0x54 && buf[2] == 0x42 && buf[3] == 0x31) then
        DecodeFrame(buf) == Err(BadMagic)
      else if !(buf[5] == 0 && buf[6] == 0 && buf[7] == 0) then DecodeFrame(buf) == Err(NonZeroReserved)
      else if DeclaredLen(buf) > 1048576 then DecodeFrame(buf) == Err(PayloadTooLarge)
      else if |buf| != 20 + DeclaredLen(buf) then DecodeFrame(buf) == Err(LengthMismatch)
      else if !(buf[4] == 1 || buf[4] == 2) then DecodeFrame(buf) == Err(UnknownKind)
      else DecodeFrame(buf).Ok?
  {
    if |buf| >= 20 {
      assert buf[..4] == [buf[0], buf[1], buf[2], buf[3]];
      assert buf[6..8] == [buf[6], buf[7]];
      TwoZeros(buf[6..8]);
      DeclaredLenIsFromBe(buf);
    }
  }

  /** The decoder accepts exactly the encoder's range. */
  lemma AcceptsExactlyWires(buf: Bytes)
    ensures DecodeFrame(buf).Ok? <==> exists f: Frame :: |f.payload| <= MAX_PAYLOAD_LEN && buf == Wire(f)
  {
    if DecodeFrame(buf).Ok? {
      WireOfDecode(buf);
      var f := DecodeFrame(buf).value;
      assert buf == Wire(f);
    }
    if f: Frame :| |f.payload| <= MAX_PAYLOAD_LEN && buf == Wire(f) {
      DecodeOfWire(f);
    }
  }

  /** Any cut or any trailing byte is caught: by the header check when the header itself is
      cut, by the length check otherwise. */
  lemma ResizedWireRejected(f: Frame, cut: nat, extra: Bytes)
    requires |f.payload| <= MAX_PAYLOAD_LEN && cut < |Wire(f)| && extra != []
    ensures DecodeFrame(Wire(f)[..cut]) == Err(if cut < HEADER_LEN then TruncatedHeader else LengthMismatch)
    ensures DecodeFrame(Wire(f) + extra) == Err(LengthMismatch)
  {
    if cut >= HEADER_LEN {
      SameHeaderLengthMismatch(f, Wire(f)[..cut]);
    }
    SameHeaderLengthMismatch(f, Wire(f) + extra);
  }

  lemma SameHeaderLengthMismatch(f: Frame, buf: Bytes)
    requires |f.payload| <= MAX_PAYLOAD_LEN && HEADER_LEN <= |buf| != |Wire(f)|
    requires buf[..HEADER_LEN] == Wire(f)[..HEADER_LEN]
    ensures DecodeFrame(buf) == Err(LengthMismatch)
  {
    var w := Wire(f);
    WireFields(f);
    Powers();
    TwoZeros([0, 0]);
    FromToBe(|f.payload|, 4);
    var h := buf[..HEADER_LEN];
    assert forall i | 0 <= i < HEADER_LEN :: buf[i] == h[i] == w[i];
    assert buf[..4] == w[..4] && buf[6..8] == w[6..8] && buf[16..20] == w[16..20];
  }

  /** The flags and reserved bytes are enforced, not ignored: any wire image with them changed
      to something nonzero is rejected as such. */
  lemma NonZeroReservedRejected(f: Frame, flags: Byte, hi: Byte, lo: Byte)
    requires flags != 0 || hi != 0 || lo != 0
    ensures DecodeFrame(Wire(f)[5 := flags][6 := hi][7 := lo]) == Err(NonZeroReserved)
  {
    var w := Wire(f)[5 := flags][6 := hi][7 := lo];
    WireFields(f);
    assert w[..4] == Wire(f)[..4];
    assert w[6..8] == [hi, lo];
    TwoZeros(w[6..8]);
  }
}
