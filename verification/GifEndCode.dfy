/**
 Images whose end code is a bit narrower than a decoder expects. Where all pairs of neighbouring pixels
 differ every string is new, so what `lzwEncode` emits is forced: the pixels one by one.
 */
module GifEndCode {
  import opened Wrappers
  import opened Bits
  import opened GifDecoder
  import opened GifEncoder

  ghost predicate NewPairs(m: nat, image: seq<nat>) {
    && 2 <= m <= 8 && FirstCode(m) + |image| < MAX_CODES
    && (forall i | 0 <= i < |image| :: image[i] < ClearCode(m))
    && forall i, j | 0 <= i < j < |image| - 1 :: image[i] != image[j] || image[i + 1] != image[j + 1]
  }

  /** The entries a decoder has after n pixels, each read from a code of its own. */
  function Pairs(image: seq<nat>, n: nat): (p: seq<Pixels>)
    requires n <= |image|
    ensures |p| == if n <= 1 then 0 else n - 1
    ensures forall i | 0 <= i < |p| :: p[i] == [image[i], image[i + 1]]
  {
    if n <= 1 then [] else Pairs(image, n - 1) + [[image[n - 2], image[n - 1]]]
  }

  function WidthAt(m: nat, n: nat): nat {
    if n <= 1 then m + 1 else Widened(WidthAt(m, n - 1), FirstCode(m) + n - 1)
  }

  function After(m: nat, image: seq<nat>, n: nat): Decoder
    requires n <= |image|
  {
    Decoder(Pairs(image, n), if n == 0 then None else Some([image[n - 1]]), WidthAt(m, n), image[..n])
  }

  /** The entry a decoder completes depends on the next pixel only. */
  lemma CompletesPair(m: nat, image: seq<nat>, n: nat, code: nat)
    requires NewPairs(m, image) && n < |image| && code != ClearCode(m)
    requires var r := Accept(m, After(m, image, n), code);
             r.Some? && Known(m, r.value.entries, code) && StringOf(m, r.value.entries, code) <= image[n..]
    ensures Accept(m, After(m, image, n), code).value.entries == Pairs(image, n + 1)
  {
    MinCodeFacts(m);
    hide Pow2;
    var d := After(m, image, n);
    if n > 0 {
      var entries := Accept(m, d, code).value.entries;
      var s := StringOf(m, entries, code);
      assert s[0] == image[n..][0] == image[n];
      if Known(m, d.entries, code) {
        assert StringOf(m, d.entries, code) == s;
      } else {
        assert s == entries[|d.entries|] == d.prev.value + [d.prev.value[0]];
      }
      assert entries == d.entries + [d.prev.value + [image[n]]];
      assert d.prev.value + [image[n]] == [image[n - 1], image[n]];
    }
  }

  /** No pair comes a second time. */
  lemma NotAgain(m: nat, image: seq<nat>, n: nat, i: nat)
    requires NewPairs(m, image) && i < n < |image|
    ensures !([image[i], image[i + 1]] <= image[n..])
  {
    var rest := image[n..];
    assert rest[0] == image[n];
    assert |rest| > 1 ==> rest[1] == image[n + 1];
  }

  lemma Next(m: nat, image: seq<nat>, n: nat, code: nat)
    requires NewPairs(m, image) && n < |image| && code != ClearCode(m)
    requires var r := Accept(m, After(m, image, n), code);
             r.Some? && LongestAt(m, r.value.entries, code, image[n..])
    ensures code == image[n] && Accept(m, After(m, image, n), code) == Some(After(m, image, n + 1))
  {
    MinCodeFacts(m);
    hide Pow2;
    CompletesPair(m, image, n, code);
    var entries, rest := Pairs(image, n + 1), image[n..];
    forall i: nat | i < |entries|
      ensures !(entries[i] <= rest)
    {
      NotAgain(m, image, n, i);
    }
    assert code < ClearCode(m) && [code] <= rest && rest[0] == image[n];
    assert image[..n] + [image[n]] == image[..n + 1];
  }

  ghost predicate Emitted(m: nat, codes: seq<nat>, image: seq<nat>) {
    && codes != [] && Readable(m, codes) && RunCodes(m, codes).Some?
    && Frugal(m, codes) && Greedy(m, codes, image)
  }

  lemma EmittedBefore(m: nat, codes: seq<nat>, image: seq<nat>)
    requires Emitted(m, codes, image) && |codes| > 1
    ensures Emitted(m, codes[..|codes| - 1], image)
  {
    hide Pow2, Accept, LongestAt;
  }

  lemma ClearFirst(m: nat, codes: seq<nat>, image: seq<nat>)
    requires Emitted(m, codes, image) && |codes| == 1
    ensures codes == [ClearCode(m)] && RunCodes(m, codes) == Some(After(m, image, 0))
  {
    hide Pow2, LongestAt;
    assert codes[..0] == [];
  }

  /** While the table has room the next code is no clear code. */
  lemma NoClear(m: nat, codes: seq<nat>, image: seq<nat>)
    requires Emitted(m, codes, image) && |codes| > 1 && RunCodes(m, codes[..|codes| - 1]).Some?
    requires FirstCode(m) + |RunCodes(m, codes[..|codes| - 1]).value.entries| < MAX_CODES
    ensures codes[|codes| - 1] != ClearCode(m)
  {
    hide Pow2, Accept, LongestAt, RunCodes;
  }

  /** What is emitted for such an image is forced. */
  lemma {:induction false} Forced(m: nat, codes: seq<nat>, image: seq<nat>)
    requires NewPairs(m, image) && Emitted(m, codes, image)
    ensures |codes| <= |image| + 1 && codes == [ClearCode(m)] + image[..|codes| - 1]
    ensures RunCodes(m, codes) == Some(After(m, image, |codes| - 1))
    decreases |codes|
  {
    assert codes != [];
    hide *;
    if |codes| == 1 {
      ClearFirst(m, codes, image);
    } else {
      var init, last, n := codes[..|codes| - 1], codes[|codes| - 1], |codes| - 2;
      EmittedBefore(m, codes, image);
      Forced(m, init, image);
      NotFull(m, image, n);
      NoClear(m, codes, image);
      SomethingNext(m, codes, image, n);
      Next(m, image, n, last);
      OneMore(codes, ClearCode(m), image, n);
    }
  }

  lemma OneMore(codes: seq<nat>, clear: nat, image: seq<nat>, n: nat)
    requires n < |image| && |codes| == n + 2 && codes[..n + 1] == [clear] + image[..n] && codes[n + 1] == image[n]
    ensures codes == [clear] + image[..n + 1]
  {
    assert codes == codes[..n + 1] + [codes[n + 1]];
    assert image[..n] + [image[n]] == image[..n + 1];
  }

  lemma NotFull(m: nat, image: seq<nat>, n: nat)
    requires NewPairs(m, image) && n <= |image|
    ensures FirstCode(m) + |After(m, image, n).entries| < MAX_CODES
  {
    hide Pow2;
  }

  /** A data code stands for something, so there is an image left for it. */
  lemma SomethingNext(m: nat, codes: seq<nat>, image: seq<nat>, n: nat)
    requires |codes| > 1 && Emitted(m, codes, image) && codes[|codes| - 1] != ClearCode(m)
    requires n <= |image| && RunCodes(m, codes[..|codes| - 1]) == Some(After(m, image, n))
    ensures n < |image|
    ensures Accept(m, After(m, image, n), codes[|codes| - 1]) == RunCodes(m, codes) && RunCodes(m, codes).Some?
    ensures LongestAt(m, RunCodes(m, codes).value.entries, codes[|codes| - 1], image[n..])
  {
    hide Pow2, Accept;
  }

  /** The bits of the clear code and of n pixels. */
  function PackedSize(m: nat, n: nat): nat {
    if n == 0 then m + 1 else PackedSize(m, n - 1) + WidthAt(m, n - 1)
  }

  lemma PackOneLess(m: nat, codes: seq<nat>)
    requires codes != [] && Readable(m, codes)
    ensures Readable(m, codes[..|codes| - 1]) && RunCodes(m, codes[..|codes| - 1]).Some?
    ensures |Pack(m, codes)| == |Pack(m, codes[..|codes| - 1])| + RunCodes(m, codes[..|codes| - 1]).value.width
  {
    hide Pow2, Accept;
  }

  lemma {:induction false} PackedSizeIs(m: nat, codes: seq<nat>, image: seq<nat>)
    requires NewPairs(m, image) && Emitted(m, codes, image)
    ensures Readable(m, codes) && |Pack(m, codes)| == PackedSize(m, |codes| - 1)
    decreases |codes|
  {
    var init := codes[..|codes| - 1];
    PackOneLess(m, codes);
    assert init == [] ==> Pack(m, init) == [] && RunCodes(m, init) == Some(Fresh(m, []));
    hide Pow2, Accept, LongestAt, NewPairs, RunCodes, Pack;
    if init != [] {
      EmittedBefore(m, codes, image);
      hide Emitted;
      Forced(m, init, image);
      PackedSizeIs(m, init, image);
    }
  }

  /** An image of such pairs: the pixels one by one, and the widths that follow. */
  lemma PixelsOneByOne(m: nat, codes: seq<nat>, image: seq<nat>)
    requires NewPairs(m, image) && image != [] && Encodes(m, codes, image) && RunCodes(m, codes).Some?
    ensures Readable(m, codes) && codes == [ClearCode(m)] + image
    ensures RunCodes(m, codes).value.width == WidthAt(m, |image|)
    ensures RunCodes(m, codes[..|codes| - 1]).Some?
    ensures RunCodes(m, codes[..|codes| - 1]).value.width == WidthAt(m, |image| - 1)
    ensures |Pack(m, codes)| == PackedSize(m, |image|)
  {
    hide Pow2, Accept, NewPairs, RunCodes, Frugal, Greedy, Pairs;
    assert Emitted(m, codes, image);
    PackedSizeIs(m, codes, image);
    Forced(m, codes, image);
    OutLength(m, codes, image);
    assert image[..|image|] == image;
    EmittedBefore(m, codes, image);
    Forced(m, codes[..|codes| - 1], image);
  }

  lemma OutLength(m: nat, codes: seq<nat>, image: seq<nat>)
    requires |codes| >= 1 && |codes| <= |image| + 1 && RunCodes(m, codes) == Some(After(m, image, |codes| - 1))
    requires RunCodes(m, codes).value.out == image
    ensures |codes| == |image| + 1
  {
  }

  // ----- two images

  lemma Widths()
    ensures WidthAt(2, 2) == 3 && WidthAt(2, 3) == 4 && WidthAt(2, 10) == 4 && WidthAt(2, 11) == 5
    ensures PackedSize(2, 3) == 12 && PackedSize(2, 11) == 44
  {
    assert Pow2(2) == 4 && Pow2(3) == 8 && Pow2(4) == 16 && FirstCode(2) == 6;
    hide Pow2, FirstCode;
    assert WidthAt(2, 0) == 3 && WidthAt(2, 1) == 3 && WidthAt(2, 2) == 3 && WidthAt(2, 3) == 4;
    assert WidthAt(2, 4) == 4 && WidthAt(2, 5) == 4 && WidthAt(2, 6) == 4 && WidthAt(2, 7) == 4;
    assert WidthAt(2, 8) == 4 && WidthAt(2, 9) == 4 && WidthAt(2, 10) == 4 && WidthAt(2, 11) == 5;
    hide WidthAt;
    assert PackedSize(2, 3) == 12;
    assert PackedSize(2, 7) == 28;
  }

  const SHORT: seq<nat> := [0, 1, 2]
  const CUT_OFF: seq<nat> := [0, 0, 1, 0, 2, 0, 3, 1, 1, 2, 1]

  lemma ShortNew()
    ensures NewPairs(2, SHORT) && |SHORT| == 3 && Effective(SHORT) == SHORT
    ensures forall i | 0 <= i < |SHORT| :: SHORT[i] < ClearCode(2)
  {
    assert Pow2(2) == 4;
  }

  lemma CutOffNew()
    ensures NewPairs(2, CUT_OFF) && |CUT_OFF| == 11 && Effective(CUT_OFF) == CUT_OFF
    ensures forall i | 0 <= i < |CUT_OFF| :: CUT_OFF[i] < ClearCode(2)
  {
    assert Pow2(2) == 4;
    hide Pow2, Effective;
    CutOffPairs();
    assert CUT_OFF != [] && Effective(CUT_OFF) == CUT_OFF by { NotEmpty(CUT_OFF); }
  }

  lemma NotEmpty(image: seq<nat>)
    requires image != []
    ensures Effective(image) == image
  {
  }

  lemma CutOffPairs()
    ensures forall i, j | 0 <= i < j < 10 :: CUT_OFF[i] != CUT_OFF[j] || CUT_OFF[i + 1] != CUT_OFF[j + 1]
  {
  }

  /** The size of the bytes gives the pad away. */
  lemma PadIs(codes: seq<nat>, out: seq<nat>, image: seq<nat>, endWidth: nat, pad: nat)
    requires NewPairs(2, image) && image != [] && Encodes(2, codes, image) && RunCodes(2, codes).Some?
    requires pad < 8 && BytesBits(out) == Pack(2, codes) + BitsOf(EndCode(2), endWidth) + Zeros(pad)
    ensures PackedSize(2, |image|) + endWidth + pad == 8 * |out|
  {
    assert Readable(2, codes);
    hide *;
    PixelsOneByOne(2, codes, image);
    assert |BytesBits(out)| == |Pack(2, codes)| + endWidth + pad;
  }

  /** The end code of this image has 3 bits where 4 are expected; a pad bit makes up for it. */
  method EndCodeOneBitShort() returns (out: seq<nat>)
    ensures Decode(2, out) == Ended(SHORT)
    ensures exists codes :: Encodes(2, codes, SHORT) && ShortBy(codes, out, 3, 4, 1)
  {
    ShortNew();
    Widths();
    hide *;
    ghost var codes, endWidth, pad;
    out, codes, endWidth, pad := LzwEncode(SHORT, 2);
    PixelsOneByOne(2, codes, SHORT);
    PadIs(codes, out, SHORT, endWidth, pad);
    assert pad == 1;
    Shown(codes, out, endWidth, 4, pad);
  }

  lemma Shown(codes: seq<nat>, out: seq<nat>, width: nat, expected: nat, pad: nat)
    requires Readable(2, codes) && RunCodes(2, codes).Some? && RunCodes(2, codes).value.width == expected
    requires BytesBits(out) == Pack(2, codes) + BitsOf(EndCode(2), width) + Zeros(pad)
    ensures ShortBy(codes, out, width, expected, pad)
  {
  }

  /** The codes, an end code of this width where another one is expected, and the pad are the bytes. */
  ghost predicate ShortBy(codes: seq<nat>, out: seq<nat>, width: nat, expected: nat, pad: nat) {
    && Readable(2, codes) && RunCodes(2, codes).Some? && RunCodes(2, codes).value.width == expected
    && BytesBits(out) == Pack(2, codes) + BitsOf(EndCode(2), width) + Zeros(pad)
  }

  /** The end code of this image has 4 bits where 5 are expected, and none is left: it is read as cut off. */
  method EndCodeCutOff() returns (out: seq<nat>)
    ensures Decode(2, out) == Truncated(CUT_OFF)
    ensures exists codes :: Encodes(2, codes, CUT_OFF) && ShortBy(codes, out, 4, 5, 0)
  {
    CutOffNew();
    Widths();
    hide *;
    ghost var codes, endWidth, pad;
    out, codes, endWidth, pad := LzwEncode(CUT_OFF, 2);
    PixelsOneByOne(2, codes, CUT_OFF);
    PadIs(codes, out, CUT_OFF, endWidth, pad);
    assert pad == 0;
    Shown(codes, out, endWidth, 5, pad);
  }
}
