/** Byte-level vocabulary shared by the Advance Map 1.92 importers: the input
    buffer, the result of a decode, the little-endian readers the three
    decoders use, and the encoders that invert those readers. */
module AdvanceMapBytes {
  import opened Wrappers

  /** One byte of an imported file, read as unsigned (`static_cast<unsigned char>`). */
  type byte = b: int | 0 <= b < 0x100

  /** A 16-bit word, as stored in block data and metatile tile records. */
  type uint16 = w: int | 0 <= w < 0x1_0000

  /** The whole contents of an imported file (`QByteArray in = file.readAll()`). */
  type Bytes = seq<byte>

  /** The largest value of the importer's 32-bit signed `int`. */
  const INT_MAX := 0x7fff_ffff

  /** Why an import was abandoned; each corresponds to one diagnostic the
      importer logs before setting its error flag. */
  datatype ImportError =
    | CouldNotOpen      // the file could not be opened for reading
    | UnexpectedSize    // the file length fails an arithmetic check
    | TooLittleData     // the .map header declares more data than the file holds
    | UnsupportedGame   // the .bvd signature is neither "RSE " nor "FRLG"
    | TooManyMetatiles  // the .bvd count exceeds the tileset's capacity
    | NoMetatiles       // the .bvd count is below one
    | UnexpectedFormat  // the palette length is not a multiple of 4

  datatype Result<T> = Ok(value: T) | Err(error: ImportError)

  /** The unsigned little-endian 16-bit word at offset `i`. */
  function Le16(data: Bytes, i: nat): uint16
    requires i + 2 <= |data|
  {
    data[i] as int + 0x100 * data[i + 1] as int
  }

  /** The unsigned little-endian 32-bit word at offset `i`. */
  function Le32(data: Bytes, i: nat): (w: nat)
    requires i + 4 <= |data|
    ensures w < 0x1_0000_0000
  {
    data[i] as int + 0x100 * data[i + 1] as int + 0x1_0000 * data[i + 2] as int
      + 0x100_0000 * data[i + 3] as int
  }

  /** How a 32-bit pattern reads once stored in a signed 32-bit `int`. */
  function ToInt32(u: nat): (v: int)
    requires u < 0x1_0000_0000
    ensures -0x8000_0000 <= v <= INT_MAX
    ensures v % 0x1_0000_0000 == u
  {
    if u <= INT_MAX then u else u - 0x1_0000_0000
  }

  function Pow256(n: nat): (p: nat)
    ensures p >= 1
  {
    if n == 0 then 1 else 0x100 * Pow256(n - 1)
  }

  /** The unsigned little-endian value of the `n` bytes at offset `i`:
      byte `j` contributes `data[i + j] * 256^j`.  The importer ORs in
      `data[i + j] << 8j` instead; each shifted byte fills its own 8 bits, so
      the two agree. */
  function LeBytes(data: Bytes, i: nat, n: nat): (v: nat)
    requires i + n <= |data|
    ensures v < Pow256(n)
  {
    if n == 0 then 0
    else
      var p := Pow256(n - 1);
      var low := LeBytes(data, i, n - 1);
      var b: int := data[i + n - 1];
      ByteTimesBound(b, p);
      low + b * p
  }

  /** The `n` consecutive little-endian words starting at offset `off`,
      gathered one word at a time as the importer's loops append them. */
  function Words(data: Bytes, off: nat, n: nat): (ws: seq<uint16>)
    requires off + 2 * n <= |data|
    ensures |ws| == n
    ensures forall k :: 0 <= k < n ==> ws[k] == Le16(data, off + 2 * k)
  {
    if n == 0 then [] else Words(data, off, n - 1) + [Le16(data, off + 2 * (n - 1))]
  }

  /** Reading words only looks at the bytes it reads: two buffers that agree
      on the region give the same words. */
  lemma WordsFrame(data: Bytes, other: Bytes, off: nat, n: nat)
    requires off + 2 * n <= |data| && off + 2 * n <= |other|
    requires data[off..off + 2 * n] == other[off..off + 2 * n]
    ensures Words(data, off, n) == Words(other, off, n)
  {
    forall k | 0 <= k < n
      ensures Le16(data, off + 2 * k) == Le16(other, off + 2 * k)
    {
      assert data[off + 2 * k] == data[off..off + 2 * n][2 * k];
      assert data[off + 2 * k + 1] == data[off..off + 2 * n][2 * k + 1];
    }
  }

  // ----- Encoders: the inverses of the readers above -----

  /** The two bytes of `w`, low byte first. */
  function Le16Bytes(w: uint16): (bs: Bytes)
    ensures |bs| == 2 && Le16(bs, 0) == w
  {
    [w % 0x100, w / 0x100]
  }

  /** The four bytes of `w`, lowest byte first. */
  function Le32Bytes(w: nat): (bs: Bytes)
    requires w < 0x1_0000_0000
    ensures |bs| == 4 && Le32(bs, 0) == w
  {
    var b0, b1, b2, b3 := w % 0x100, (w / 0x100) % 0x100, (w / 0x1_0000) % 0x100, w / 0x100_0000;
    assert w / 0x100 == b1 + 0x100 * (w / 0x1_0000);
    assert w / 0x1_0000 == b2 + 0x100 * b3;
    [b0, b1, b2, b3]
  }

  /** The words `ws` laid out back to back, each low byte first. */
  function WordBytes(ws: seq<uint16>): (bs: Bytes)
    ensures |bs| == 2 * |ws|
  {
    if ws == [] then [] else WordBytes(ws[..|ws| - 1]) + Le16Bytes(ws[|ws| - 1])
  }

  /** Appending bytes does not change the words already in a buffer. */
  lemma WordsOfPrefix(data: Bytes, extra: Bytes, off: nat, n: nat)
    requires off + 2 * n <= |data|
    ensures Words(data + extra, off, n) == Words(data, off, n)
  {
    forall k | 0 <= k < n
      ensures Le16(data + extra, off + 2 * k) == Le16(data, off + 2 * k)
    {
      assert (data + extra)[off + 2 * k] == data[off + 2 * k];
      assert (data + extra)[off + 2 * k + 1] == data[off + 2 * k + 1];
    }
  }

  /** Appending bytes does not change the 32-bit word at the front. */
  lemma Le32OfPrefix(data: Bytes, extra: Bytes)
    requires 4 <= |data|
    ensures Le32(data + extra, 0) == Le32(data, 0)
  {
    assert (data + extra)[..4] == data[..4];
  }

  /** A word written at the end of a buffer reads back from there. */
  lemma LastWord(prefix: Bytes, w: uint16)
    ensures Le16(prefix + Le16Bytes(w), |prefix|) == w
  {
    var file := prefix + Le16Bytes(w);
    assert file[|prefix|] == Le16Bytes(w)[0] && file[|prefix| + 1] == Le16Bytes(w)[1];
  }

  lemma AppendAssoc(a: Bytes, b: Bytes, c: Bytes)
    ensures a + (b + c) == a + b + c
  {
  }

  /** Reading back words written by `WordBytes` at the end of a buffer
      returns the words written. */
  lemma {:induction false} WordsOfWordBytes(before: Bytes, ws: seq<uint16>)
    ensures Words(before + WordBytes(ws), |before|, |ws|) == ws
  {
    if ws != [] {
      var init, last := ws[..|ws| - 1], ws[|ws| - 1];
      var prefix := before + WordBytes(init);
      assert WordBytes(ws) == WordBytes(init) + Le16Bytes(last);
      AppendAssoc(before, WordBytes(init), Le16Bytes(last));
      WordsOfWordBytes(before, init);
      WordsOfPrefix(prefix, Le16Bytes(last), |before|, |init|);
      LastWord(prefix, last);
      assert ws == init + [last];
    }
  }

  /** The `n` bytes of `v`, lowest byte first. */
  function LeBytesOf(v: nat, n: nat): (bs: Bytes)
    requires v < Pow256(n)
    ensures |bs| == n
  {
    if n == 0 then []
    else
      var p := Pow256(n - 1);
      DigitSplit(v, p);
      LeBytesOf(v % p, n - 1) + [v / p]
  }

  lemma ByteTimesBound(b: int, p: nat)
    requires 0 <= b < 0x100
    ensures 0 <= b * p <= 0xff * p
  {
  }

  /** Splitting `v < 256 p` into its top byte and the remainder below `p`. */
  lemma DigitSplit(v: nat, p: nat)
    requires p >= 1 && v < 0x100 * p
    ensures v == (v / p) * p + v % p
    ensures 0 <= v / p < 0x100 && 0 <= v % p < p
  {
    var q, r := v / p, v % p;
    assert v == q * p + r;
    assert (0x100 - q) * p == 0x100 * p - q * p;
    PositiveFactor(0x100 - q, p);
  }

  lemma PositiveFactor(a: int, p: nat)
    requires p >= 1 && a * p > 0
    ensures a > 0
  {
  }

  /** Reading back the bytes written by `LeBytesOf` returns the value written. */
  lemma {:induction false} LeBytesOfLeBytesOf(v: nat, n: nat, before: Bytes, after: Bytes)
    requires v < Pow256(n)
    ensures LeBytes(before + LeBytesOf(v, n) + after, |before|, n) == v
  {
    if n > 0 {
      var p := Pow256(n - 1);
      var low := LeBytesOf(v % p, n - 1);
      var top := v / p;
      DigitSplit(v, p);
      assert LeBytesOf(v, n) == low + [top];
      var file := before + LeBytesOf(v, n) + after;
      assert file == before + low + ([top] + after);
      LeBytesOfLeBytesOf(v % p, n - 1, before, [top] + after);
      assert file[|before| + n - 1] == top;
    }
  }
}
