/**
 The reader's side of a GIF image: the LZW decoder of appendix F of the GIF89a specification and
 the data sub-blocks of its section 15. It is the specification the encoder is proved against.
 */
module GifDecoder {
  import opened Wrappers
  import opened Bits

  const MAX_CODES: nat := 4096
  const MAX_WIDTH: nat := 12

  /** A string of pixels a code stands for: never empty. */
  type Pixels = s: seq<nat> | s != [] witness [0]

  function ClearCode(m: nat): nat { Pow2(m) }
  function EndCode(m: nat): nat { Pow2(m) + 1 }
  function FirstCode(m: nat): nat { Pow2(m) + 2 }

  /** What a decoder knows between two codes: the strings of the codes from FirstCode on, the string
      of the last code since the clear, the width of the next code and the pixels so far. */
  datatype Decoder = Decoder(entries: seq<Pixels>, prev: Option<Pixels>, width: nat, out: seq<nat>)

  datatype Outcome =
    | Ended(pixels: seq<nat>)      // the end code was read
    | Truncated(pixels: seq<nat>)  // the data ran out inside a code
    | Corrupt(pixels: seq<nat>)    // a code that stands for nothing

  function Fresh(m: nat, out: seq<nat>): Decoder {
    Decoder([], None, m + 1, out)
  }

  predicate Known(m: nat, entries: seq<Pixels>, code: nat) {
    code < ClearCode(m) || FirstCode(m) <= code < FirstCode(m) + |entries|
  }

  function StringOf(m: nat, entries: seq<Pixels>, code: nat): Pixels
    requires Known(m, entries, code)
  {
    if code < ClearCode(m) then [code] else entries[code - FirstCode(m)]
  }

  /** The width of the codes once codes below `next` are taken. */
  function Widened(width: nat, next: nat): nat {
    if next == Pow2(width) && width < MAX_WIDTH then width + 1 else width
  }

  /** A string read: it is put out, and the entry lagging one code behind is completed. */
  function Read(m: nat, d: Decoder, entry: Pixels, s: Pixels): Decoder {
    var entries := if FirstCode(m) + |d.entries| < MAX_CODES then d.entries + [entry] else d.entries;
    Decoder(entries, Some(s), Widened(d.width, FirstCode(m) + |entries|), d.out + s)
  }

  /** One data or clear code. */
  function Accept(m: nat, d: Decoder, code: nat): (r: Option<Decoder>)
    ensures r.Some? && d.width >= 1 ==> r.value.width >= 1
  {
    if code == ClearCode(m) then
      Some(Fresh(m, d.out))
    else if d.prev.None? then
      if code < ClearCode(m) then Some(d.(prev := Some([code]), out := d.out + [code])) else None
    else if Known(m, d.entries, code) then
      var s := StringOf(m, d.entries, code);
      Some(Read(m, d, d.prev.value + [s[0]], s))
    else if code == FirstCode(m) + |d.entries| then
      // the code is the very entry the decoder is about to complete
      var s := d.prev.value + [d.prev.value[0]];
      Some(Read(m, d, s, s))
    else
      None
  }

  function DecodeBits(m: nat, d: Decoder, bits: seq<bool>): Outcome
    requires d.width >= 1
    decreases |bits|
  {
    if |bits| < d.width then Truncated(d.out)
    else
      var code := ValueOf(bits[..d.width]);
      if code == EndCode(m) then Ended(d.out)
      else
        match Accept(m, d, code)
        case None => Corrupt(d.out)
        case Some(d') => DecodeBits(m, d', bits[d.width..])
  }

  /** The pixels of an LZW code stream. */
  function Decode(m: nat, bytes: seq<nat>): Outcome {
    DecodeBits(m, Fresh(m, []), BytesBits(bytes))
  }

  // ----- codes before they are packed

  /** The decoder after the given codes, unless one of them stands for nothing. */
  function RunCodes(m: nat, codes: seq<nat>): (r: Option<Decoder>)
    ensures r.Some? ==> r.value.width >= 1
  {
    if codes == [] then Some(Fresh(m, []))
    else
      match RunCodes(m, codes[..|codes| - 1])
      case None => None
      case Some(d) => Accept(m, d, codes[|codes| - 1])
  }

  /** Every code is a data or clear code the decoder knows and fits the width it expects. */
  predicate Readable(m: nat, codes: seq<nat>) {
    codes == [] ||
    (var init := codes[..|codes| - 1];
     && Readable(m, init)
     && RunCodes(m, init).Some?
     && codes[|codes| - 1] < Pow2(RunCodes(m, init).value.width)
     && codes[|codes| - 1] != EndCode(m)
     && RunCodes(m, codes).Some?)
  }

  /** The codes one after the other, each in exactly the width the decoder expects there. */
  function Pack(m: nat, codes: seq<nat>): seq<bool>
    requires Readable(m, codes)
  {
    if codes == [] then []
    else
      var init := codes[..|codes| - 1];
      Pack(m, init) + BitsOf(codes[|codes| - 1], RunCodes(m, init).value.width)
  }

  predicate Distinct(entries: seq<Pixels>) {
    && (forall i | 0 <= i < |entries| :: |entries[i]| >= 2)
    && (forall i, j | 0 <= i < j < |entries| :: entries[i] != entries[j])
  }

  /** No entry is made twice; the table is cleared at the start and then exactly when it is full. */
  predicate Frugal(m: nat, codes: seq<nat>)
    requires Readable(m, codes)
  {
    codes == [] ||
    (var init, last := codes[..|codes| - 1], codes[|codes| - 1];
     && Frugal(m, init)
     && Distinct(RunCodes(m, codes).value.entries)
     && (last == ClearCode(m) <==>
           init == [] || FirstCode(m) + |RunCodes(m, init).value.entries| == MAX_CODES))
  }

  /** The code stands for what comes next, and no known code stands for more of it. */
  ghost predicate LongestAt(m: nat, entries: seq<Pixels>, code: nat, rest: seq<nat>) {
    && Known(m, entries, code)
    && StringOf(m, entries, code) <= rest
    && forall k: nat | Known(m, entries, k) && StringOf(m, entries, k) <= rest ::
         |StringOf(m, entries, k)| <= |StringOf(m, entries, code)|
  }

  /** Every data code is the longest match of the image from there on, the last code and the one before
      a clear included: among the entries the decoder has once it has read that code. */
  ghost predicate Greedy(m: nat, codes: seq<nat>, image: seq<nat>)
    requires Readable(m, codes)
  {
    codes == [] ||
    (var init, last := codes[..|codes| - 1], codes[|codes| - 1];
     && Greedy(m, init, image)
     && |RunCodes(m, init).value.out| <= |image|
     && (last != ClearCode(m) ==>
           LongestAt(m, RunCodes(m, codes).value.entries, last, image[|RunCodes(m, init).value.out|..])))
  }

  /** What an encoder of the image has to emit before the end code. */
  ghost predicate Encodes(m: nat, codes: seq<nat>, image: seq<nat>) {
    && codes != [] && Readable(m, codes)
    && RunCodes(m, codes).value.out == image
    && Frugal(m, codes) && Greedy(m, codes, image)
  }

  lemma DecodeOneCode(m: nat, d: Decoder, code: nat, rest: seq<bool>)
    requires d.width >= 1 && code < Pow2(d.width) && code != EndCode(m) && Accept(m, d, code).Some?
    ensures DecodeBits(m, d, BitsOf(code, d.width) + rest) == DecodeBits(m, Accept(m, d, code).value, rest)
  {
    var bits := BitsOf(code, d.width) + rest;
    assert bits[..d.width] == BitsOf(code, d.width) && bits[d.width..] == rest;
    ValueOfBits(code, d.width);
  }

  /** Packed codes put the decoder where running the codes puts it, whatever follows them. */
  lemma {:induction false} DecodePacked(m: nat, codes: seq<nat>, rest: seq<bool>)
    requires Readable(m, codes)
    ensures RunCodes(m, codes).Some?
    ensures DecodeBits(m, Fresh(m, []), Pack(m, codes) + rest) == DecodeBits(m, RunCodes(m, codes).value, rest)
    decreases |codes|
  {
    if codes == [] {
      assert Pack(m, codes) + rest == rest;
    } else {
      var init, last := codes[..|codes| - 1], codes[|codes| - 1];
      var d := RunCodes(m, init).value;
      DecodePacked(m, init, BitsOf(last, d.width) + rest);
      assert Pack(m, codes) + rest == Pack(m, init) + (BitsOf(last, d.width) + rest);
      DecodeOneCode(m, d, last, rest);
    }
  }

  /** The end code at the expected width ends the image. One bit short it still does when a zero pad
      bit follows, since that bit reads as its missing top bit; with none the data has run out. */
  lemma DecodeEnd(m: nat, d: Decoder, endWidth: nat, pad: nat)
    requires 1 <= endWidth <= d.width <= endWidth + 1 && EndCode(m) < Pow2(endWidth)
    ensures DecodeBits(m, d, BitsOf(EndCode(m), endWidth) + Zeros(pad))
         == if d.width > endWidth && pad == 0 then Truncated(d.out) else Ended(d.out)
  {
    var bits := BitsOf(EndCode(m), endWidth) + Zeros(pad);
    if d.width <= endWidth + pad {
      var extra := d.width - endWidth;
      BitsPadded(EndCode(m), endWidth, extra);
      assert bits[..d.width] == BitsOf(EndCode(m), d.width);
      Pow2Monotone(endWidth, d.width);
      ValueOfBits(EndCode(m), d.width);
    }
  }

  // ----- data sub-blocks

  /** The data of a run of sub-blocks up to its terminator, and the bytes behind it. */
  function Unblock(bytes: seq<nat>): Option<(seq<nat>, seq<nat>)> {
    if bytes == [] then None
    else if bytes[0] == 0 then Some(([], bytes[1..]))
    else if |bytes| <= bytes[0] then None
    else
      match Unblock(bytes[bytes[0] + 1..])
      case None => None
      case Some((data, rest)) => Some((bytes[1..bytes[0] + 1] + data, rest))
  }
}
