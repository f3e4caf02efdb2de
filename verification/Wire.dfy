/** The two wire formats that name a message: the 8-byte active-message header with the receive key
    built from it, and the 64-bit tag of the tag-matched path. */
module Wire {

  type u8 = x: int | 0 <= x < 0x100
  type u16 = x: int | 0 <= x < 0x1_0000

  /** `x as u16` and `x as u8`: casts from `usize` keep the low bits. */
  function AsU16(x: nat): u16 { x % 0x1_0000 }
  function AsU8(x: nat): u8 { x % 0x100 }

  datatype AmHeader = AmHeader(src: u16, step: u16, phase: u8, microChunk: u8)
  datatype RecvKey = RecvKey(src: u16, step: u16, phase: u8, microChunk: u8)

  datatype HeaderResult = Ok(header: AmHeader) | BadHeader(got: nat, expected: nat)

  const BYTES: nat := 8

  function KeyOf(h: AmHeader): RecvKey { RecvKey(h.src, h.step, h.phase, h.microChunk) }

  /** The key under which rank `src` addresses micro-chunk `m` of `step`, as the chains build it. */
  function ChainKey(src: nat, step: nat, phase: u8, m: nat): RecvKey
  {
    KeyOf(AmHeader(AsU16(src), AsU16(step), phase, AsU8(m)))
  }

  function LeBytes(x: u16): seq<u8> { [x % 0x100, x / 0x100] }
  function FromLeBytes(lo: u8, hi: u8): u16 { hi * 0x100 + lo }

  /** The eight bytes a header is sent as. */
  function Encoding(h: AmHeader): (e: seq<u8>)
    ensures |e| == BYTES && e[0] as int + 0x100 * (e[1] as int) == h.src && e[2] as int + 0x100 * (e[3] as int) == h.step
    ensures e[4] == h.phase && e[5] == h.microChunk && e[6] == e[7] == 0
  {
    LeBytes(h.src) + LeBytes(h.step) + [h.phase, h.microChunk, 0, 0]
  }

  method Encode(h: AmHeader) returns (out: array<u8>)
    ensures fresh(out) && out[..] == Encoding(h)
  {
    out := new u8[BYTES](_ => 0);
    var src, step := LeBytes(h.src), LeBytes(h.step);
    out[0], out[1] := src[0], src[1];
    out[2], out[3] := step[0], step[1];
    out[4] := h.phase;
    out[5] := h.microChunk;
  }

  /** Fails exactly on a short buffer, reads only the first six bytes otherwise. */
  function Decode(bytes: seq<u8>): HeaderResult
  {
    if |bytes| < BYTES then BadHeader(|bytes|, BYTES)
    else Ok(AmHeader(FromLeBytes(bytes[0], bytes[1]), FromLeBytes(bytes[2], bytes[3]), bytes[4], bytes[5]))
  }

  /** Round trip in both directions: every header survives the wire whatever follows it, and every
      accepted buffer starts with the encoding of what was decoded, up to the two reserved bytes. */
  lemma HeaderRoundTrip(h: AmHeader, bytes: seq<u8>, tail: seq<u8>)
    ensures Decode(Encoding(h) + tail) == Ok(h)
    ensures Decode(bytes).BadHeader? <==> |bytes| < 8
    ensures |bytes| < 8 ==> Decode(bytes) == BadHeader(|bytes|, 8)
    ensures Decode(bytes).Ok? ==> Encoding(Decode(bytes).header)[..6] == bytes[..6]
  {
    var e := Encoding(h) + tail;
    assert e[..8] == Encoding(h);
    if |bytes| >= BYTES {
      var d := Decode(bytes).header;
      assert forall i :: 0 <= i < 6 ==> Encoding(d)[i] == bytes[i];
    }
  }

  lemma EncodingInjective(a: AmHeader, b: AmHeader)
    requires Encoding(a) == Encoding(b)
    ensures a == b
  {
    HeaderRoundTrip(a, [], []);
    HeaderRoundTrip(b, [], []);
  }

  /** The cast to 16 and 8 bits loses nothing while ranks and steps fit in a `u16` and the micro-chunk
      index in a `u8`, so chain keys then identify sender, step, phase and micro-chunk. */
  lemma ChainKeyInjective(src: nat, step: nat, phase: u8, m: nat, src': nat, step': nat, phase': u8, m': nat)
    requires src < 0x1_0000 && step < 0x1_0000 && m < 0x100
    requires src' < 0x1_0000 && step' < 0x1_0000 && m' < 0x100
    ensures ChainKey(src, step, phase, m) == ChainKey(src', step', phase', m') <==>
            src == src' && step == step' && phase == phase' && m == m'
  {
  }

  // ----- 64-bit tags -----

  function EncodeTag(src: bv64, step: bv16, phase: bv8, microChunk: bv8): bv64
  {
    (src & 0xffff) | ((step as bv64) << 16) | ((phase as bv64) << 32) | ((microChunk as bv64) << 40)
  }

  /** Each field can be read back, and the upper 16 bits stay zero. */
  lemma TagFields(src: bv64, step: bv16, phase: bv8, microChunk: bv8)
    ensures var t := EncodeTag(src, step, phase, microChunk);
      && t & 0xffff == src & 0xffff
      && (t >> 16) & 0xffff == step as bv64
      && (t >> 32) & 0xff == phase as bv64
      && (t >> 40) & 0xff == microChunk as bv64
      && t >> 48 == 0
  {
  }

  lemma WidenInjective(a: bv16, b: bv16, c: bv8, d: bv8)
    ensures a as bv64 == b as bv64 ==> a == b
    ensures c as bv64 == d as bv64 ==> c == d
  {
  }

  /** Two tags agree only if all four fields do, the rank counting modulo 65536. */
  lemma TagInjective(src: bv64, step: bv16, phase: bv8, m: bv8, src': bv64, step': bv16, phase': bv8, m': bv8)
    requires EncodeTag(src, step, phase, m) == EncodeTag(src', step', phase', m')
    ensures src & 0xffff == src' & 0xffff && step == step' && phase == phase' && m == m'
  {
    TagFields(src, step, phase, m);
    TagFields(src', step', phase', m');
    assert step as bv64 == step' as bv64 && phase as bv64 == phase' as bv64 && m as bv64 == m' as bv64;
    WidenInjective(step, step', phase, phase');
    WidenInjective(step, step', m, m');
  }

  lemma ByteRange(a: bv8)
    ensures a as nat < 0x100
  {
  }

  lemma WordRange(a: bv16)
    ensures a as nat < 0x1_0000
  {
  }

  lemma SameNumbers(a: bv16, b: bv16, c: bv8, d: bv8)
    ensures a as nat == b as nat <==> a == b
    ensures c as nat == d as nat <==> c == d
  {
    assert (a as nat) as bv16 == a && (b as nat) as bv16 == b;
    assert (c as nat) as bv8 == c && (d as nat) as bv8 == d;
  }

  lemma WidenMasked(a: bv16, b: bv16)
    ensures (a as bv64) & 0xffff == (b as bv64) & 0xffff ==> a == b
  {
  }

  /** The key of a step whose fields are machine words. */
  ghost function WordKey(src: bv16, step: bv16, phase: bv8, m: bv8): RecvKey
  {
    ByteRange(phase);
    ByteRange(m);
    ChainKey(src as nat, step as nat, phase as nat, m as nat)
  }

  /** The casts keep every field. */
  lemma WordKeyFields(src: bv16, step: bv16, phase: bv8, m: bv8)
    ensures var key := WordKey(src, step, phase, m);
      key.src == src as nat && key.step == step as nat && key.phase == phase as nat && key.microChunk == m as nat
  {
    WordRange(src);
    WordRange(step);
    ByteRange(m);
    CastsKeep(src as nat, step as nat, m as nat);
  }

  lemma CastsKeep(src: nat, step: nat, m: nat)
    requires src < 0x1_0000 && step < 0x1_0000 && m < 0x100
    ensures AsU16(src) == src && AsU16(step) == step && AsU8(m) == m
  {
  }

  lemma WordKeysAgree(src: bv16, step: bv16, phase: bv8, m: bv8, src': bv16, step': bv16, phase': bv8, m': bv8)
    ensures WordKey(src, step, phase, m) == WordKey(src', step', phase', m') <==>
            src == src' && step == step' && phase == phase' && m == m'
  {
    WordKeyFields(src, step, phase, m);
    WordKeyFields(src', step', phase', m');
    SameNumbers(src, src', phase, phase');
    SameNumbers(step, step', m, m');
  }

  /** For ranks that fit in 16 bits, two tags agree exactly when the keys of the same steps do: tag matching
      and the router tell the same messages apart. */
  lemma TagsNameKeys(src: bv16, step: bv16, phase: bv8, m: bv8, src': bv16, step': bv16, phase': bv8, m': bv8)
    ensures EncodeTag(src as bv64, step, phase, m) == EncodeTag(src' as bv64, step', phase', m') <==>
            WordKey(src, step, phase, m) == WordKey(src', step', phase', m')
  {
    WordKeysAgree(src, step, phase, m, src', step', phase', m');
    if EncodeTag(src as bv64, step, phase, m) == EncodeTag(src' as bv64, step', phase', m') {
      TagInjective(src as bv64, step, phase, m, src' as bv64, step', phase', m');
      WidenMasked(src, src');
    }
  }
}
