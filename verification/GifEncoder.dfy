/** The GIF writer of `tooling/scan-media.ts`: the LZW compressor and its sub-blocks. */
module GifEncoder {
  import opened Wrappers
  import opened Bits
  import opened GifDecoder

  /** The bit buffer `emit` works on. */
  class BitPacker {
    var out: seq<nat>
    var buffer: int
    var bits: nat

    ghost predicate Valid()
      reads this
    {
      bits < 8 && 0 <= buffer < Pow2(bits) && AllBytes(out)
    }

    /** Everything emitted so far, the bits of the unfinished byte included. */
    ghost function Stream(): seq<bool>
      requires Valid()
      reads this
    {
      StreamOf(out, buffer, bits)
    }

    constructor ()
      ensures Valid() && Stream() == [] && out == []
    {
      out, buffer, bits := [], 0, 0;
    }

    method Emit(code: nat, codeSize: nat)
      requires Valid() && codeSize <= MAX_WIDTH && code < Pow2(codeSize)
      modifies this
      ensures Valid() && Stream() == old(Stream()) + BitsOf(code, codeSize)
    {
      hide Pow2, BitsOf, BytesBits, BitOr;
      EmitBits(out, buffer, bits, code, codeSize);
      ghost var stream := Stream() + BitsOf(code, codeSize);
      buffer := BitOr(buffer, ShiftLeft(code, bits));
      bits := bits + codeSize;
      while bits >= 8
        invariant 0 <= buffer < Pow2(bits) && AllBytes(out)
        invariant StreamOf(out, buffer, bits) == stream
      {
        SplitByte(out, buffer, bits);
        out := out + [buffer % 256];
        buffer := buffer / 256;
        bits := bits - 8;
      }
    }

    /** The last byte, its free bits left zero. */
    method Flush() returns (pad: nat)
      requires Valid()
      modifies this
      ensures pad < 8 && AllBytes(out) && BytesBits(out) == old(Stream()) + Zeros(pad)
    {
      pad := 0;
      if bits > 0 {
        pad := 8 - bits;
        LastByte(out, buffer, bits);
        out := out + [buffer % 256];
      } else {
        assert Stream() + Zeros(0) == BytesBits(out);
      }
    }
  }

  predicate AllBytes(bytes: seq<nat>) {
    forall i | 0 <= i < |bytes| :: bytes[i] < 256
  }

  function StreamOf(out: seq<nat>, buffer: nat, bits: nat): seq<bool> {
    BytesBits(out) + BitsOf(buffer, bits)
  }

  lemma ProductBelow(code: nat, n: nat, lo: nat, low: nat)
    requires code < n && lo < low
    ensures lo + code * low < low * n
  {
    assert (code + 1) * low <= n * low;
  }

  /** One `emit`: the or is a sum, the shift loses nothing, and the buffer stays below 2^20. */
  lemma EmitFits(buffer: nat, bits: nat, code: nat, codeSize: nat)
    requires bits < 8 && buffer < Pow2(bits) && codeSize <= MAX_WIDTH && code < Pow2(codeSize)
    ensures ShiftLeft(code, bits) == code * Pow2(bits) >= 0
    ensures BitOr(buffer, ShiftLeft(code, bits)) == buffer + code * Pow2(bits) < Pow2(bits + codeSize) <= 0x10_0000
  {
    hide BitOr, Pow2;
    var high := code * Pow2(bits);
    assert buffer + high < Pow2(bits + codeSize) by {
      ProductBelow(code, Pow2(codeSize), buffer, Pow2(bits));
      Pow2Add(bits, codeSize);
    }
    BufferBelow(bits, codeSize);
    assert ToInt32(high) == high;
    BitOrDisjoint(buffer, bits, code);
  }

  lemma EmitBits(out: seq<nat>, buffer: nat, bits: nat, code: nat, codeSize: nat)
    requires bits < 8 && buffer < Pow2(bits) && codeSize <= MAX_WIDTH && code < Pow2(codeSize)
    ensures ShiftLeft(code, bits) >= 0
    ensures var b := BitOr(buffer, ShiftLeft(code, bits));
            && b < Pow2(bits + codeSize)
            && StreamOf(out, b, bits + codeSize) == StreamOf(out, buffer, bits) + BitsOf(code, codeSize)
  {
    EmitFits(buffer, bits, code, codeSize);
    BitsConcat(buffer, bits, code, codeSize);
  }

  lemma BufferBelow(bits: nat, codeSize: nat)
    requires bits < 8 && codeSize <= MAX_WIDTH
    ensures Pow2(bits + codeSize) <= 0x10_0000
  {
    Pow2Values();
    Pow2Monotone(bits + codeSize, 20);
  }

  lemma PushByte(out: seq<nat>, byte: nat, rest: seq<bool>)
    ensures BytesBits(out + [byte]) + rest == BytesBits(out) + (BitsOf(byte, 8) + rest)
  {
    assert (out + [byte])[..|out|] == out;
  }

  /** A byte leaves the buffer's low end. */
  lemma SplitByte(out: seq<nat>, buffer: nat, bits: nat)
    requires bits >= 8 && buffer < Pow2(bits)
    ensures StreamOf(out + [buffer % 256], buffer / 256, bits - 8) == StreamOf(out, buffer, bits)
    ensures buffer / 256 < Pow2(bits - 8)
  {
    Pow2Values();
    hide Pow2, BitsOf, BytesBits;
    var n := bits - 8;
    assert buffer / 256 < Pow2(n) by { Pow2Add(8, n); }
    BitsConcat(buffer % 256, 8, buffer / 256, n);
    PushByte(out, buffer % 256, BitsOf(buffer / 256, n));
  }

  lemma LastByte(out: seq<nat>, buffer: nat, bits: nat)
    requires 0 < bits < 8 && buffer < Pow2(bits)
    ensures BytesBits(out + [buffer % 256]) == StreamOf(out, buffer, bits) + Zeros(8 - bits)
  {
    assert buffer % 256 == buffer by {
      Pow2Values();
      Pow2Monotone(bits, 8);
    }
    var pad := 8 - bits;
    BitsPadded(buffer, bits, pad);
    PushByte(out, buffer, []);
    assert BytesBits(out) + (BitsOf(buffer, bits + pad) + []) == BytesBits(out) + BitsOf(buffer, bits) + Zeros(pad);
  }

  // ----- the dictionary

  /** The map's key of a prefix code and the pixel behind it. */
  function Key(prefix: nat, pixel: nat): nat { prefix * 4096 + pixel }

  lemma KeyParts(prefix: nat, pixel: nat)
    requires pixel < 4096
    ensures Key(prefix, pixel) / 4096 == prefix && Key(prefix, pixel) % 4096 == pixel
  {
  }

  lemma KeyOfParts(key: nat)
    ensures Key(key / 4096, key % 4096) == key
  {
  }

  ghost predicate LookupsOk(m: nat, table: map<nat, nat>, entries: seq<Pixels>) {
    forall p: nat, x: nat | Known(m, entries, p) && x < ClearCode(m) && Key(p, x) in table ::
      var code := table[Key(p, x)];
      && FirstCode(m) <= code < FirstCode(m) + |entries|
      && entries[code - FirstCode(m)] == StringOf(m, entries, p) + [x]
  }

  ghost predicate KeysOk(m: nat, table: map<nat, nat>, entries: seq<Pixels>) {
    forall key <- table.Keys :: Known(m, entries, key / 4096) && key % 4096 < ClearCode(m)
  }

  ghost predicate ValuesOk(m: nat, table: map<nat, nat>, entries: seq<Pixels>) {
    forall code :: code in table.Values <==> FirstCode(m) <= code < FirstCode(m) + |entries|
  }

  /** The encoder's map and the strings of its codes agree; the codes are exactly those below the next. */
  ghost predicate TableOk(m: nat, table: map<nat, nat>, entries: seq<Pixels>) {
    LookupsOk(m, table, entries) && KeysOk(m, table, entries) && ValuesOk(m, table, entries)
  }

  /** Where the encoder stands next to a decoder of what it emitted: the decoder has every entry but
      the newest, whose last pixel is the first one of the prefix being built. */
  ghost predicate Synced(m: nat, entries: seq<Pixels>, codeSize: nat, prefix: nat, d: Decoder) {
    && m < codeSize <= MAX_WIDTH
    && d.width == codeSize
    && FirstCode(m) + |entries| <= Pow2(codeSize)
    && Known(m, entries, prefix)
    && (if entries == [] then d.prev.None? && d.entries == [] && codeSize == m + 1
        else
          && d.prev.Some?
          && d.entries == entries[..|entries| - 1]
          && entries[|entries| - 1] == d.prev.value + [StringOf(m, entries, prefix)[0]])
  }

  /** Right after the prefix's code the decoder has caught up, and widens exactly as the encoder does. */
  ghost predicate CaughtUp(m: nat, entries: seq<Pixels>, codeSize: nat, s: Pixels, d: Decoder) {
    d.entries == entries && d.prev == Some(s) && d.width == Widened(codeSize, FirstCode(m) + |entries|)
  }

  lemma MinCodeFacts(m: nat)
    requires 2 <= m <= 8
    ensures 4 <= ClearCode(m) <= 256 && FirstCode(m) < Pow2(m + 1) <= 512
  {
    Pow2Values();
    Pow2Monotone(2, m);
    Pow2Monotone(m, 8);
  }

  lemma WidthFacts(m: nat, codeSize: nat)
    requires m < codeSize <= MAX_WIDTH
    ensures Pow2(m + 1) <= Pow2(codeSize) <= MAX_CODES
  {
    Pow2Values();
    Pow2Monotone(m + 1, codeSize);
    Pow2Monotone(codeSize, MAX_WIDTH);
  }

  /** The prefix's code is one the decoder reads as the prefix's string, the lagging entry included. */
  lemma PrefixRead(m: nat, entries: seq<Pixels>, codeSize: nat, prefix: nat, d: Decoder)
    requires 2 <= m <= 8 && Synced(m, entries, codeSize, prefix, d)
    ensures prefix < Pow2(codeSize) && prefix != EndCode(m)
    ensures var s := StringOf(m, entries, prefix);
            var r := Accept(m, d, prefix);
            r.Some? && r.value.out == d.out + s && CaughtUp(m, entries, codeSize, s, r.value)
  {
    MinCodeFacts(m);
    WidthFacts(m, codeSize);
    if entries != [] {
      var newest := |entries| - 1;
      assert d.entries + [entries[newest]] == entries;
    }
  }

  /** The codes so far with one more the decoder reads. */
  lemma PackOneMore(m: nat, codes: seq<nat>, code: nat)
    requires Readable(m, codes) && RunCodes(m, codes).Some?
    requires code < Pow2(RunCodes(m, codes).value.width) && code != EndCode(m)
    requires Accept(m, RunCodes(m, codes).value, code).Some?
    ensures Readable(m, codes + [code])
    ensures RunCodes(m, codes + [code]) == Accept(m, RunCodes(m, codes).value, code)
    ensures Pack(m, codes + [code]) == Pack(m, codes) + BitsOf(code, RunCodes(m, codes).value.width)
  {
    assert (codes + [code])[..|codes|] == codes;
  }

  lemma StringOfInjective(m: nat, entries: seq<Pixels>, p: nat, q: nat)
    requires Distinct(entries) && Known(m, entries, p) && Known(m, entries, q)
    requires StringOf(m, entries, p) == StringOf(m, entries, q)
    ensures p == q
  {
  }

  /** A key the map does not have is a string no entry has. */
  lemma NotFoundIsNew(m: nat, table: map<nat, nat>, entries: seq<Pixels>, prefix: nat, pixel: nat)
    requires 2 <= m <= 8 && TableOk(m, table, entries) && Distinct(entries)
    requires Known(m, entries, prefix) && pixel < ClearCode(m) && Key(prefix, pixel) !in table
    ensures Distinct(entries + [StringOf(m, entries, prefix) + [pixel]])
  {
    hide Pow2, FirstCode, ClearCode, Key;
    var s := StringOf(m, entries, prefix);
    forall i | 0 <= i < |entries|
      ensures entries[i] != s + [pixel]
    {
      assert FirstCode(m) + i in table.Values;
      var key :| key in table && table[key] == FirstCode(m) + i;
      var p, x := key / 4096, key % 4096;
      KeyOfParts(key);
      if entries[i] == s + [pixel] {
        var t := StringOf(m, entries, p);
        assert t == (t + [x])[..|t|] && s == (s + [pixel])[..|s|];
        StringOfInjective(m, entries, p, prefix);
      }
    }
  }

  lemma FrugalOneMore(m: nat, codes: seq<nat>, code: nat)
    requires codes != [] && Readable(m, codes) && Frugal(m, codes) && Readable(m, codes + [code])
    requires Distinct(RunCodes(m, codes + [code]).value.entries)
    requires code == ClearCode(m) <==> FirstCode(m) + |RunCodes(m, codes).value.entries| == MAX_CODES
    ensures Frugal(m, codes + [code])
  {
    assert (codes + [code])[..|codes|] == codes;
  }

  lemma GreedyOneMore(m: nat, codes: seq<nat>, code: nat, image: seq<nat>)
    requires Readable(m, codes) && Greedy(m, codes, image) && Readable(m, codes + [code])
    requires RunCodes(m, codes).Some? && |RunCodes(m, codes).value.out| <= |image|
    requires code != ClearCode(m) ==>
               LongestAt(m, RunCodes(m, codes + [code]).value.entries, code, image[|RunCodes(m, codes).value.out|..])
    ensures Greedy(m, codes + [code], image)
  {
    assert (codes + [code])[..|codes|] == codes;
  }

  // ----- the longest match

  ghost predicate KnownString(m: nat, entries: seq<Pixels>, s: Pixels) {
    exists k: nat :: Known(m, entries, k) && StringOf(m, entries, k) == s
  }

  /** Each entry is a known string and one pixel more. */
  ghost predicate PrefixClosed(m: nat, entries: seq<Pixels>) {
    forall i | 0 <= i < |entries| :: |entries[i]| >= 2 && KnownString(m, entries, entries[i][..|entries[i]| - 1])
  }

  lemma PrefixGrows(m: nat, entries: seq<Pixels>, prefix: nat, pixel: nat)
    requires PrefixClosed(m, entries) && Known(m, entries, prefix)
    ensures PrefixClosed(m, entries + [StringOf(m, entries, prefix) + [pixel]])
  {
    hide Pow2;
    var s := StringOf(m, entries, prefix);
    var more := entries + [s + [pixel]];
    assert forall k: nat | Known(m, entries, k) :: Known(m, more, k) && StringOf(m, more, k) == StringOf(m, entries, k);
    hide Known, StringOf;
    forall i | 0 <= i < |more|
      ensures |more[i]| >= 2 && KnownString(m, more, more[i][..|more[i]| - 1])
    {
      if i < |entries| {
        var k: nat :| Known(m, entries, k) && StringOf(m, entries, k) == entries[i][..|entries[i]| - 1];
        assert Known(m, more, k) && StringOf(m, more, k) == more[i][..|more[i]| - 1];
      } else {
        assert (s + [pixel])[..|s|] == s;
        assert Known(m, more, prefix);
      }
    }
  }

  /** So every beginning of a known string is known. */
  lemma {:induction false} BeginningKnown(m: nat, entries: seq<Pixels>, t: Pixels, n: nat)
    requires PrefixClosed(m, entries) && KnownString(m, entries, t) && 1 <= n <= |t|
    ensures KnownString(m, entries, t[..n])
    decreases |t|
  {
    if n < |t| {
      var k: nat :| Known(m, entries, k) && StringOf(m, entries, k) == t;
      assert t == entries[k - FirstCode(m)];
      var shorter := t[..|t| - 1];
      BeginningKnown(m, entries, shorter, n);
      assert shorter[..n] == t[..n];
    } else {
      assert t[..n] == t;
    }
  }

  /** A key not in the table makes the prefix the longest match. */
  lemma NotFoundIsLongest(m: nat, table: map<nat, nat>, entries: seq<Pixels>, prefix: nat, rest: seq<nat>)
    requires 2 <= m <= 8 && TableOk(m, table, entries) && Distinct(entries) && PrefixClosed(m, entries)
    requires Known(m, entries, prefix) && StringOf(m, entries, prefix) <= rest
    requires var n := |StringOf(m, entries, prefix)|;
             |rest| > n ==> rest[n] < ClearCode(m) && Key(prefix, rest[n]) !in table
    ensures LongestAt(m, entries, prefix, rest)
  {
    hide Pow2, TableOk, Key, Distinct, PrefixClosed;
    var s := StringOf(m, entries, prefix);
    var n := |s|;
    forall k: nat | Known(m, entries, k) && StringOf(m, entries, k) <= rest
      ensures |StringOf(m, entries, k)| <= n
    {
      var t := StringOf(m, entries, k);
      if |t| > n {
        BeginningKnown(m, entries, t, n + 1);
        assert t[..n + 1] == s + [rest[n]];
        NotFoundIsNew(m, table, entries, prefix, rest[n]);
        NewIsUnknown(m, entries, s + [rest[n]]);
      }
    }
  }

  lemma NewIsUnknown(m: nat, entries: seq<Pixels>, s: Pixels)
    requires |s| >= 2 && Distinct(entries + [s])
    ensures !KnownString(m, entries, s)
  {
    assert (entries + [s])[|entries|] == s;
    assert forall i | 0 <= i < |entries| :: (entries + [s])[i] == entries[i];
  }

  lemma LookupGrows(m: nat, table: map<nat, nat>, entries: seq<Pixels>, prefix: nat, pixel: nat, p: nat, x: nat)
    requires TableOk(m, table, entries) && Known(m, entries, prefix) && pixel < ClearCode(m) <= 4096
    requires Key(prefix, pixel) !in table
    requires Known(m, entries + [StringOf(m, entries, prefix) + [pixel]], p) && x < ClearCode(m)
    requires Key(p, x) in table[Key(prefix, pixel) := FirstCode(m) + |entries|]
    ensures var code := table[Key(prefix, pixel) := FirstCode(m) + |entries|][Key(p, x)];
            var entries' := entries + [StringOf(m, entries, prefix) + [pixel]];
            && FirstCode(m) <= code < FirstCode(m) + |entries'|
            && entries'[code - FirstCode(m)] == StringOf(m, entries', p) + [x]
  {
    hide Pow2, Key;
    KeyParts(prefix, pixel);
    KeyParts(p, x);
    if Key(p, x) != Key(prefix, pixel) {
      assert Known(m, entries, p);
    }
  }

  /** A new entry in the encoder's map. */
  lemma TableGrows(m: nat, table: map<nat, nat>, entries: seq<Pixels>, prefix: nat, pixel: nat)
    requires 2 <= m <= 8 && TableOk(m, table, entries) && Known(m, entries, prefix) && pixel < ClearCode(m)
    requires Key(prefix, pixel) !in table
    ensures TableOk(m, table[Key(prefix, pixel) := FirstCode(m) + |entries|],
                    entries + [StringOf(m, entries, prefix) + [pixel]])
  {
    hide KeysOk, ValuesOk, Key, StringOf, Pow2, Known;
    MinCodeFacts(m);
    var key, s := Key(prefix, pixel), StringOf(m, entries, prefix) + [pixel];
    KeyParts(prefix, pixel);
    KeysGrow(m, table, entries, key, s);
    ValuesGrow(m, table, entries, key, s);
    forall p: nat, x: nat | Known(m, entries + [s], p) && x < ClearCode(m)
                            && Key(p, x) in table[key := FirstCode(m) + |entries|]
      ensures var code := table[key := FirstCode(m) + |entries|][Key(p, x)];
              && FirstCode(m) <= code < FirstCode(m) + |entries + [s]|
              && (entries + [s])[code - FirstCode(m)] == StringOf(m, entries + [s], p) + [x]
    {
      LookupGrows(m, table, entries, prefix, pixel, p, x);
    }
  }

  lemma KeysGrow(m: nat, table: map<nat, nat>, entries: seq<Pixels>, key: nat, s: Pixels)
    requires KeysOk(m, table, entries) && Known(m, entries, key / 4096) && key % 4096 < ClearCode(m)
    ensures KeysOk(m, table[key := FirstCode(m) + |entries|], entries + [s])
  {
    hide Pow2;
  }

  lemma ValuesGrow(m: nat, table: map<nat, nat>, entries: seq<Pixels>, key: nat, s: Pixels)
    requires ValuesOk(m, table, entries) && key !in table
    ensures ValuesOk(m, table[key := FirstCode(m) + |entries|], entries + [s])
  {
    hide Pow2;
    var table' := table[key := FirstCode(m) + |entries|];
    assert table'.Values == table.Values + {FirstCode(m) + |entries|} by {
      assert table'[key] == FirstCode(m) + |entries|;
      assert forall k | k in table :: table'[k] == table[k];
    }
  }

  /** The encoder between two pixels: the codes emitted and the prefix held back are `done`. */
  ghost predicate Encoding(m: nat, table: map<nat, nat>, entries: seq<Pixels>, codeSize: nat, prefix: nat,
                           codes: seq<nat>, done: seq<nat>) {
    && FirstCode(m) + |entries| <= MAX_CODES
    && TableOk(m, table, entries)
    && Distinct(entries)
    && Readable(m, codes)
    && codes != []
    && Frugal(m, codes)
    && PrefixClosed(m, entries)
    && RunCodes(m, codes).Some?
    && Synced(m, entries, codeSize, prefix, RunCodes(m, codes).value)
    && RunCodes(m, codes).value.out + StringOf(m, entries, prefix) == done
  }

  lemma EncodingStarts(m: nat, pixel: nat)
    requires 2 <= m <= 8 && pixel < ClearCode(m)
    ensures Encoding(m, map[], [], m + 1, pixel, [ClearCode(m)], [pixel])
    ensures Pack(m, [ClearCode(m)]) == BitsOf(ClearCode(m), m + 1)
  {
    MinCodeFacts(m);
    assert [] + [ClearCode(m)] == [ClearCode(m)];
    PackOneMore(m, [], ClearCode(m));
  }

  /** A string already in the table: the prefix grows and nothing is emitted. */
  lemma EncodingFound(m: nat, table: map<nat, nat>, entries: seq<Pixels>, codeSize: nat, prefix: nat,
                      codes: seq<nat>, done: seq<nat>, pixel: nat)
    requires 2 <= m <= 8 && Encoding(m, table, entries, codeSize, prefix, codes, done) && pixel < ClearCode(m)
    requires Key(prefix, pixel) in table
    ensures Encoding(m, table, entries, codeSize, table[Key(prefix, pixel)], codes, done + [pixel])
  {
    var out, s := RunCodes(m, codes).value.out, StringOf(m, entries, prefix);
    assert StringOf(m, entries, table[Key(prefix, pixel)]) == s + [pixel];
    assert out + (s + [pixel]) == (out + s) + [pixel];
  }

  lemma FirstGreedy(m: nat, image: seq<nat>)
    requires Readable(m, [ClearCode(m)])
    ensures Greedy(m, [ClearCode(m)], image)
  {
    assert [ClearCode(m)][..0] == [];
  }

  /** The prefix emitted: the decoder has put out everything done, and has caught up. */
  lemma EncodingEmits(m: nat, table: map<nat, nat>, entries: seq<Pixels>, codeSize: nat, prefix: nat,
                      codes: seq<nat>, done: seq<nat>)
    requires 2 <= m <= 8 && Encoding(m, table, entries, codeSize, prefix, codes, done)
    ensures Known(m, entries, prefix) && prefix < Pow2(codeSize) && FirstCode(m) + |entries| <= MAX_CODES
    ensures m < codeSize <= MAX_WIDTH && FirstCode(m) + |entries| <= Pow2(codeSize)
    ensures RunCodes(m, codes).value.width == codeSize && (codes + [prefix])[..|codes|] == codes
    ensures var codes' := codes + [prefix];
            && Readable(m, codes')
            && Frugal(m, codes')
            && RunCodes(m, codes').Some?
            && RunCodes(m, codes').value.out == done
            && CaughtUp(m, entries, codeSize, StringOf(m, entries, prefix), RunCodes(m, codes').value)
            && Pack(m, codes') == Pack(m, codes) + BitsOf(prefix, codeSize)
  {
    PrefixRead(m, entries, codeSize, prefix, RunCodes(m, codes).value);
    PackOneMore(m, codes, prefix);
    MinCodeFacts(m);
    FrugalOneMore(m, codes, prefix);
  }

  /** The prefix emitted is the longest match of the image where it stands. */
  lemma EncodingLongest(m: nat, table: map<nat, nat>, entries: seq<Pixels>, codeSize: nat, prefix: nat,
                        codes: seq<nat>, done: seq<nat>, image: seq<nat>)
    requires 2 <= m <= 8 && Encoding(m, table, entries, codeSize, prefix, codes, done)
    requires Greedy(m, codes, image) && done <= image
    requires |image| > |done| ==> image[|done|] < ClearCode(m) && Key(prefix, image[|done|]) !in table
    ensures Readable(m, codes + [prefix]) && Greedy(m, codes + [prefix], image)
  {
    var out := RunCodes(m, codes).value.out;
    var rest := image[|out|..];
    assert StringOf(m, entries, prefix) <= rest by {
      assert image[..|done|] == out + StringOf(m, entries, prefix);
    }
    EncodingEmits(m, table, entries, codeSize, prefix, codes, done);
    hide TableOk, Synced, Readable, Frugal, Distinct, Pack, Pow2, Accept, PrefixClosed, StringOf, Key, RunCodes, Known;
    NotFoundIsLongest(m, table, entries, prefix, rest);
    GreedyOneMore(m, codes, prefix, image);
  }

  /** The new string enters the table; both sides widen together. */
  lemma EncodingAdds(m: nat, table: map<nat, nat>, entries: seq<Pixels>, codeSize: nat, prefix: nat,
                     codes: seq<nat>, done: seq<nat>, pixel: nat)
    requires 2 <= m <= 8 && Encoding(m, table, entries, codeSize, prefix, codes, done) && pixel < ClearCode(m)
    requires Key(prefix, pixel) !in table && FirstCode(m) + |entries| < MAX_CODES
    ensures var next := FirstCode(m) + |entries|;
            Encoding(m, table[Key(prefix, pixel) := next], entries + [StringOf(m, entries, prefix) + [pixel]],
                     Widened(codeSize, next), pixel, codes + [prefix], done + [pixel])
  {
    hide TableOk, RunCodes, Readable, Frugal, Distinct, Pack, Pow2, Accept, PrefixClosed;
    PrefixGrows(m, entries, prefix, pixel);
    EncodingEmits(m, table, entries, codeSize, prefix, codes, done);
    TableGrows(m, table, entries, prefix, pixel);
    NotFoundIsNew(m, table, entries, prefix, pixel);
    SyncedGrows(m, entries, codeSize, StringOf(m, entries, prefix), pixel, RunCodes(m, codes + [prefix]).value);
  }

  lemma SyncedGrows(m: nat, entries: seq<Pixels>, codeSize: nat, s: Pixels, pixel: nat, d: Decoder)
    requires 2 <= m <= 8 && m < codeSize <= MAX_WIDTH && pixel < ClearCode(m)
    requires FirstCode(m) + |entries| <= Pow2(codeSize) && FirstCode(m) + |entries| < MAX_CODES
    requires CaughtUp(m, entries, codeSize, s, d)
    ensures Synced(m, entries + [s + [pixel]], Widened(codeSize, FirstCode(m) + |entries|), pixel, d)
  {
    MinCodeFacts(m);
    WidthFacts(m, codeSize);
    Pow2Values();
    var entries' := entries + [s + [pixel]];
    assert entries'[..|entries'| - 1] == entries;
  }

  /** The table is full: a clear code, and both sides start again. */
  lemma EncodingClears(m: nat, table: map<nat, nat>, entries: seq<Pixels>, codeSize: nat, prefix: nat,
                       codes: seq<nat>, done: seq<nat>, pixel: nat)
    requires 2 <= m <= 8 && Encoding(m, table, entries, codeSize, prefix, codes, done) && pixel < ClearCode(m)
    requires FirstCode(m) + |entries| == MAX_CODES
    ensures ClearCode(m) < Pow2(codeSize)
    ensures var codes' := codes + [prefix] + [ClearCode(m)];
            && Encoding(m, map[], [], m + 1, pixel, codes', done + [pixel]) && Readable(m, codes')
            && Pack(m, codes') == Pack(m, codes + [prefix]) + BitsOf(ClearCode(m), codeSize)
  {
    hide RunCodes, Readable, Frugal, Pack, Pow2;
    EncodingEmits(m, table, entries, codeSize, prefix, codes, done);
    MinCodeFacts(m);
    WidthFacts(m, codeSize);
    FullWidth(codeSize);
    PackOneMore(m, codes + [prefix], ClearCode(m));
    FrugalOneMore(m, codes + [prefix], ClearCode(m));
  }

  lemma FullWidth(codeSize: nat)
    requires codeSize <= MAX_WIDTH && MAX_CODES <= Pow2(codeSize)
    ensures codeSize == MAX_WIDTH
  {
    Pow2Values();
    if codeSize < MAX_WIDTH {
      Pow2Monotone(codeSize, MAX_WIDTH - 1);
    }
  }

  /** The end code and the pad: what a decoder makes of the whole stream. */
  lemma EncodingEnds(m: nat, codes: seq<nat>, d: Decoder, endWidth: nat, pad: nat, bits: seq<bool>)
    requires 1 <= endWidth <= MAX_WIDTH && EndCode(m) < Pow2(endWidth)
    requires Readable(m, codes) && RunCodes(m, codes) == Some(d)
    requires d.width == Widened(endWidth, FirstCode(m) + |d.entries|)
    requires bits == Pack(m, codes) + BitsOf(EndCode(m), endWidth) + Zeros(pad)
    ensures DecodeBits(m, Fresh(m, []), bits)
         == if d.width > endWidth && pad == 0 then Truncated(d.out) else Ended(d.out)
  {
    var tail := BitsOf(EndCode(m), endWidth) + Zeros(pad);
    assert bits == Pack(m, codes) + tail;
    DecodePacked(m, codes, tail);
    DecodeEnd(m, d, endWidth, pad);
  }

  lemma EncodingDone(m: nat, codes: seq<nat>, image: seq<nat>, endWidth: nat, pad: nat, out: seq<nat>)
    requires 1 <= endWidth <= MAX_WIDTH && EndCode(m) < Pow2(endWidth)
    requires codes != [] && Readable(m, codes) && Frugal(m, codes) && Greedy(m, codes, image)
    requires RunCodes(m, codes).Some? && RunCodes(m, codes).value.out == image
    requires var d := RunCodes(m, codes).value; d.width == Widened(endWidth, FirstCode(m) + |d.entries|)
    requires BytesBits(out) == Pack(m, codes) + BitsOf(EndCode(m), endWidth) + Zeros(pad)
    ensures Encodes(m, codes, image)
    ensures Decode(m, out) == if RunCodes(m, codes).value.width > endWidth && pad == 0
                              then Truncated(image) else Ended(image)
  {
    hide Readable, RunCodes, Frugal, Greedy, Pack, DecodeBits, BitsOf, BytesBits, Pow2, Zeros, Widened;
    EncodingEnds(m, codes, RunCodes(m, codes).value, endWidth, pad, BytesBits(out));
  }

  lemma EndCodeFits(m: nat, codeSize: nat)
    requires 2 <= m <= 8 && m < codeSize <= MAX_WIDTH
    ensures EndCode(m) < Pow2(codeSize) <= MAX_CODES
  {
    MinCodeFacts(m);
    WidthFacts(m, codeSize);
  }

  /** What the encoder takes an empty input for: one pixel of colour 0. */
  function Effective(pixels: seq<nat>): seq<nat> {
    if pixels == [] then [0] else pixels
  }

  /** `lzwEncode`. The ghost results are the data and clear codes emitted, the width of the end code
      and the pad bits: a decoder reads the codes at exactly the widths they were written in, and the
      end code's width is the expected one unless the entry completed by the last data code uses up
      that width. */
  method LzwEncode(pixels: seq<nat>, m: nat)
    returns (out: seq<nat>, ghost codes: seq<nat>, ghost endWidth: nat, ghost pad: nat)
    requires 2 <= m <= 8 && forall i | 0 <= i < |pixels| :: pixels[i] < ClearCode(m)
    ensures Encodes(m, codes, Effective(pixels)) && RunCodes(m, codes).Some?
    ensures pad < 8 && BytesBits(out) == Pack(m, codes) + BitsOf(EndCode(m), endWidth) + Zeros(pad)
    ensures RunCodes(m, codes[..|codes| - 1]).Some?
    ensures endWidth == RunCodes(m, codes[..|codes| - 1]).value.width
    ensures var d := RunCodes(m, codes).value;
            && FirstCode(m) + |d.entries| <= Pow2(endWidth) <= MAX_CODES
            && d.width == Widened(endWidth, FirstCode(m) + |d.entries|)
    ensures Decode(m, out) == if RunCodes(m, codes).value.width > endWidth && pad == 0
                              then Truncated(Effective(pixels)) else Ended(Effective(pixels))
    ensures AllBytes(out)
  {
    hide TableOk, Synced, RunCodes, Readable, Frugal, Greedy, Distinct, Pack, DecodeBits, BitsOf, BytesBits, Pow2;
    hide Accept, StringOf, Known, Zeros, StreamOf, AllBytes, PrefixClosed, Encoding, Key;
    hide BitPacker.Stream, Encodes, Decode;
    var clear := ClearCode(m);
    var end := clear + 1;
    var codeSize := m + 1;
    var next := end + 1;
    var table: map<nat, nat> := map[];
    var packer := new BitPacker();
    ghost var entries: seq<Pixels> := [];
    MinCodeFacts(m);

    var prefix := if |pixels| > 0 then pixels[0] else 0;
    ghost var done := [prefix];
    ghost var image := Effective(pixels);
    EncodingStarts(m, prefix);
    FirstGreedy(m, image);
    packer.Emit(clear, codeSize);
    codes := [clear];
    var i := 1;
    while i < |pixels|
      invariant 1 <= i && (i <= |pixels| || (pixels == [] && i == 1))
      invariant done == if pixels == [] then [0] else pixels[..i]
      invariant Readable(m, codes) && Greedy(m, codes, image)
      invariant packer.Valid() && fresh(packer)
      invariant next == FirstCode(m) + |entries|
      invariant Encoding(m, table, entries, codeSize, prefix, codes, done)
      invariant packer.Stream() == Pack(m, codes)
    {
      var pixel := pixels[i];
      var key := Key(prefix, pixel);
      if key in table {
        EncodingFound(m, table, entries, codeSize, prefix, codes, done, pixel);
        prefix := table[key];
      } else {
        EncodingEmits(m, table, entries, codeSize, prefix, codes, done);
        EncodingLongest(m, table, entries, codeSize, prefix, codes, done, image);
        packer.Emit(prefix, codeSize);
        if next < 4096 {
          EncodingAdds(m, table, entries, codeSize, prefix, codes, done, pixel);
          codes := codes + [prefix];
          entries := entries + [StringOf(m, entries, prefix) + [pixel]];
          table := table[key := next];
          next := next + 1;
          if next - 1 == Pow2(codeSize) && codeSize < 12 {
            codeSize := codeSize + 1;
          }
        } else {
          EncodingClears(m, table, entries, codeSize, prefix, codes, done, pixel);
          GreedyOneMore(m, codes + [prefix], clear, image);
          codes := codes + [prefix] + [clear];
          packer.Emit(clear, codeSize);
          table := map[];
          entries := [];
          next := end + 1;
          codeSize := m + 1;
        }
        prefix := pixel;
      }
      done := done + [pixel];
      i := i + 1;
    }
    EncodingEmits(m, table, entries, codeSize, prefix, codes, done);
    EncodingLongest(m, table, entries, codeSize, prefix, codes, done, image);
    packer.Emit(prefix, codeSize);
    codes := codes + [prefix];
    endWidth := codeSize;
    EndCodeFits(m, codeSize);
    packer.Emit(end, codeSize);
    pad := packer.Flush();
    out := packer.out;
    EncodingDone(m, codes, image, endWidth, pad, out);
  }

  // ----- data sub-blocks

  /** The sub-blocks of the data from i on: 255 bytes each and a shorter last one, no terminator. */
  function Blocks(data: seq<nat>, i: nat): seq<nat>
    decreases |data| - i
  {
    if i >= |data| then []
    else
      var chunk := Chunk(data, i);
      [|chunk|] + chunk + Blocks(data, i + 255)
  }

  function Chunk(data: seq<nat>, i: nat): (c: seq<nat>)
    requires i < |data|
    ensures 1 <= |c| <= 255
  {
    data[i..if i + 255 < |data| then i + 255 else |data|]
  }

  lemma ChunkSplits(data: seq<nat>, i: nat)
    requires i < |data|
    ensures data[i..] == Chunk(data, i) + if i + 255 < |data| then data[i + 255..] else []
  {
  }

  /** Un-blocking gives the data back and stops exactly behind the terminator. */
  lemma {:induction false} UnblockBlocks(data: seq<nat>, i: nat, rest: seq<nat>)
    ensures Unblock(Blocks(data, i) + [0] + rest) == Some((if i < |data| then data[i..] else [], rest))
    decreases |data| - i
  {
    hide Chunk;
    var bytes := Blocks(data, i) + [0] + rest;
    if i < |data| {
      var chunk := Chunk(data, i);
      var behind := Blocks(data, i + 255) + [0] + rest;
      assert bytes == [|chunk|] + chunk + behind;
      assert bytes[|chunk| + 1..] == behind && bytes[1..|chunk| + 1] == chunk;
      UnblockBlocks(data, i + 255, rest);
      ChunkSplits(data, i);
    } else {
      assert bytes == [0] + rest;
    }
  }

  /** `subBlocks` */
  method SubBlocks(data: seq<nat>) returns (blocked: seq<nat>)
    requires AllBytes(data)
    ensures AllBytes(blocked)
    ensures forall rest: seq<nat> :: Unblock(blocked + rest) == Some((data, rest))
  {
    hide Unblock;
    blocked := [];
    var i := 0;
    while i < |data|
      invariant AllBytes(blocked)
      invariant blocked + Blocks(data, i) == Blocks(data, 0)
    {
      var chunk := Chunk(data, i);
      assert (blocked + [|chunk|] + chunk) + Blocks(data, i + 255) == blocked + Blocks(data, i);
      blocked := blocked + [|chunk|] + chunk;
      i := i + 255;
    }
    assert blocked == Blocks(data, 0);
    blocked := blocked + [0];
    assert data == if 0 < |data| then data[0..] else [];
    forall rest: seq<nat>
      ensures Unblock(blocked + rest) == Some((data, rest))
    {
      UnblockBlocks(data, 0, rest);
    }
  }

  /** The image data of a frame as `encodeGif` writes it, in front of anything: a reader un-blocks it
      and decodes the frame's pixels. */
  method EncodeFrame(frame: seq<nat>, m: nat) returns (image: seq<nat>)
    requires 2 <= m <= 8 && forall i | 0 <= i < |frame| :: frame[i] < ClearCode(m)
    ensures AllBytes(image)
    ensures forall rest: seq<nat> ::
              var read := Unblock(image + rest);
              && read.Some?
              && read.value.1 == rest
              && !Decode(m, read.value.0).Corrupt?
              && Decode(m, read.value.0).pixels == Effective(frame)
  {
    var coded, _, _, _ := LzwEncode(frame, m);
    image := SubBlocks(coded);
  }
}
