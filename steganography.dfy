/**
 * Least-significant-bit steganography in the red channel. The secret text is
 * turned into a string of '0'/'1' digits, eight or more per character, and
 * the digits are written, in row-major order, into the lowest bit of the red
 * component of a copy of the image.
 */
module Steganography {

  /** An RGB pixel, one byte per channel. */
  datatype Pixel = Pixel(r: bv8, g: bv8, b: bv8)

  // ---------------------------------------------------------------------------
  // The bit string
  // ---------------------------------------------------------------------------

  predicate IsBinaryDigits(s: string) {
    forall i | 0 <= i < |s| :: s[i] == '0' || s[i] == '1'
  }

  /** `format(n, 'b')`: the binary digits of `n`, most significant first, no leading zeros. */
  function Binary(n: nat): (s: string)
    ensures |s| >= 1 && IsBinaryDigits(s)
    ensures n > 0 ==> s[0] == '1'
    decreases n
  {
    if n < 2 then [if n == 0 then '0' else '1']
    else Binary(n / 2) + [if n % 2 == 0 then '0' else '1']
  }

  /** The number a string of binary digits denotes; the inverse of `Binary`. */
  function BinaryValue(s: string): nat {
    if s == [] then 0
    else 2 * BinaryValue(s[..|s| - 1]) + (if s[|s| - 1] == '1' then 1 else 0)
  }

  lemma {:induction false} BinaryRoundTrip(n: nat)
    ensures BinaryValue(Binary(n)) == n
    decreases n
  {
    if n >= 2 {
      var s := Binary(n);
      assert s[..|s| - 1] == Binary(n / 2);
      BinaryRoundTrip(n / 2);
    }
  }

  function Pow2(k: nat): (p: nat)
    ensures p >= 1
  {
    if k == 0 then 1 else 2 * Pow2(k - 1)
  }

  /** A number below 2^k needs at most k digits. */
  lemma {:induction false} BinaryShort(n: nat, k: nat)
    requires 1 <= k && n < Pow2(k)
    ensures |Binary(n)| <= k
    decreases n
  {
    if n >= 2 {
      BinaryShort(n / 2, k - 1);
    }
  }

  function Zeros(k: nat): (z: string)
    ensures |z| == k && forall i | 0 <= i < k :: z[i] == '0'
  {
    seq(k, i => '0')
  }

  /** Leading zeros do not change the value. */
  lemma {:induction false} LeadingZeros(k: nat, s: string)
    ensures BinaryValue(Zeros(k) + s) == BinaryValue(s)
    decreases |s|
  {
    if s == [] {
      ZerosValue(k);
      assert Zeros(k) + s == Zeros(k);
    } else {
      assert (Zeros(k) + s)[..|Zeros(k) + s| - 1] == Zeros(k) + s[..|s| - 1];
      LeadingZeros(k, s[..|s| - 1]);
    }
  }

  lemma {:induction false} ZerosValue(k: nat)
    ensures BinaryValue(Zeros(k)) == 0
  {
    if k > 0 {
      assert Zeros(k)[..k - 1] == Zeros(k - 1);
      ZerosValue(k - 1);
    }
  }

  /** `format(ord(c), '08b')`: the code point in binary, zero-padded to at least eight digits. */
  function CharBits(c: char): (s: string)
    ensures IsBinaryDigits(s) && |s| >= 8
    ensures BinaryValue(s) == c as int
    ensures c as int < 256 ==> |s| == 8
  {
    var digits := Binary(c as int);
    BinaryRoundTrip(c as int);
    assert c as int < 256 ==> |digits| <= 8 by {
      if c as int < 256 { BinaryShort(c as int, 8); }
    }
    if |digits| < 8 then
      LeadingZeros(8 - |digits|, digits);
      Zeros(8 - |digits|) + digits
    else digits
  }

  /** `''.join(format(ord(i), '08b') for i in secret_text)`. */
  function Bits(text: string): (s: string)
    ensures IsBinaryDigits(s)
    ensures |s| >= 8 * |text|
  {
    if text == [] then [] else CharBits(text[0]) + Bits(text[1..])
  }

  /** Every character below 256 takes exactly eight digits. */
  predicate IsLatin1(text: string) {
    forall i | 0 <= i < |text| :: text[i] as int < 256
  }

  lemma {:induction false} BitsLength(text: string)
    requires IsLatin1(text)
    ensures |Bits(text)| == 8 * |text|
  {
    if text != [] {
      BitsLength(text[1..]);
    }
  }

  /** Reads the digits back eight at a time, one character per group. */
  function DecodeBits(bits: string): (text: string)
    requires |bits| % 8 == 0
  {
    if bits == [] then []
    else
      var v := BinaryValue(bits[..8]);
      (if v < 0xD800 then [v as char] else ['?']) + DecodeBits(bits[8..])
  }

  /** Decoding undoes encoding for text whose code points are below 256. */
  lemma {:induction false} DecodeBitsRoundTrip(text: string)
    requires IsLatin1(text)
    ensures |Bits(text)| % 8 == 0 && DecodeBits(Bits(text)) == text
  {
    BitsLength(text);
    if text != [] {
      var bits := Bits(text);
      assert bits[..8] == CharBits(text[0]);
      assert bits[8..] == Bits(text[1..]);
      DecodeBitsRoundTrip(text[1..]);
    }
  }

  // ---------------------------------------------------------------------------
  // The pixel update
  // ---------------------------------------------------------------------------

  /** Forces the red component odd (`r | 1`) for a '1' digit, even (`r & ~1`) otherwise. */
  function SetRedLsb(p: Pixel, digit: char): (q: Pixel)
    ensures q.g == p.g && q.b == p.b
    ensures (q.r & 1 == 1) <==> digit == '1'
    ensures q.r >> 1 == p.r >> 1
  {
    Pixel(if digit == '1' then p.r | 1 else p.r & !1, p.g, p.b)
  }

  /** The red component moves by at most one. */
  lemma RedMovesAtMostOne(p: Pixel, digit: char)
    ensures -1 <= SetRedLsb(p, digit).r as int - p.r as int <= 1
  {
    var q := SetRedLsb(p, digit);
    assert q.r >> 1 == p.r >> 1;
    assert q.r as int == 2 * ((q.r >> 1) as int) + (q.r & 1) as int;
    assert p.r as int == 2 * ((p.r >> 1) as int) + (p.r & 1) as int;
  }

  /** The pixel at row-major position `k` after encoding `bits`: only the first `|bits|` positions change. */
  function EncodedPixel(p: Pixel, bits: string, k: nat): (q: Pixel)
    ensures k < |bits| ==> q == SetRedLsb(p, bits[k])
    ensures k >= |bits| ==> q == p
    ensures q.g == p.g && q.b == p.b
  {
    if k < |bits| then SetRedLsb(p, bits[k]) else p
  }

  function Min(a: int, b: int): int {
    if a <= b then a else b
  }

  /** The row-major position of the first pixel of row `y`: `y * width`, counted up row by row. */
  function RowStart(y: nat, width: nat): nat {
    if y == 0 then 0 else RowStart(y - 1, width) + width
  }

  lemma {:induction false} RowStartIsProduct(y: nat, width: nat)
    ensures RowStart(y, width) == y * width
  {
    if y > 0 {
      RowStartIsProduct(y - 1, width);
    }
  }

  lemma {:induction false} RowStartMonotone(y: nat, y': nat, width: nat)
    requires y <= y'
    ensures RowStart(y, width) <= RowStart(y', width)
    decreases y' - y
  {
    if y < y' {
      RowStartMonotone(y, y' - 1, width);
    }
  }

  /** The row-major position of pixel (x, y) in an image `width` pixels wide. */
  function Pos(x: nat, y: nat, width: nat): nat {
    RowStart(y, width) + x
  }

  /** Row-major positions are distinct and lie below width × height. */
  lemma RowMajor(x: nat, y: nat, x': nat, y': nat, width: nat, height: nat)
    requires x < width && y < height && x' < width && y' < height
    ensures Pos(x, y, width) < RowStart(height, width) == width * height
    ensures Pos(x, y, width) == Pos(x', y', width) ==> x == x' && y == y'
  {
    RowStartIsProduct(height, width);
    RowStartMonotone(y + 1, height, width);
    if y < y' {
      RowStartMonotone(y + 1, y', width);
    } else if y' < y {
      RowStartMonotone(y' + 1, y, width);
    }
  }

  /**
   * `encoded` is `img` with the pixels at row-major positions below `idx`
   * carrying their digit; the rest are still the original pixels.
   */
  ghost predicate EncodedBelow(encoded: array2<Pixel>, img: array2<Pixel>, bits: string, idx: int)
    reads encoded, img
  {
    encoded.Length0 == img.Length0 && encoded.Length1 == img.Length1
    && forall x, y | 0 <= x < img.Length0 && 0 <= y < img.Length1 ::
         encoded[x, y] == (if Pos(x, y, img.Length0) < idx then EncodedPixel(img[x, y], bits, Pos(x, y, img.Length0))
                           else img[x, y])
  }

  /**
   * `encode_text_into_image`, on the decoded pixel grid: `img[x, y]` with
   * `img.Length0` the width. The result is a fresh image of the same size whose
   * pixel at row-major position k carries digit k in its red LSB, for every k
   * below both the number of digits and the number of pixels; other pixels
   * are copied unchanged, and `img` itself is not written.
   */
  method EncodeTextIntoImage(img: array2<Pixel>, secret: string) returns (encoded: array2<Pixel>)
    ensures fresh(encoded)
    ensures encoded.Length0 == img.Length0 && encoded.Length1 == img.Length1
    ensures forall x, y | 0 <= x < img.Length0 && 0 <= y < img.Length1 ::
              encoded[x, y] == EncodedPixel(img[x, y], Bits(secret), Pos(x, y, img.Length0))
  {
    var width := img.Length0;
    var height := img.Length1;
    encoded := new Pixel[width, height]((x, y) reads img requires 0 <= x < width && 0 <= y < height => img[x, y]);
    var binarySecret := Bits(secret);
    var dataLen := |binarySecret|;
    var idx := 0;
    for y := 0 to height
      invariant idx == Min(dataLen, Pos(0, y, width))
      invariant EncodedBelow(encoded, img, binarySecret, idx)
    {
      idx := EncodeRow(encoded, img, binarySecret, y, idx);
    }
    forall x, y | 0 <= x < width && 0 <= y < height
      ensures encoded[x, y] == EncodedPixel(img[x, y], binarySecret, Pos(x, y, width))
    {
      RowMajor(x, y, x, y, width, height);
    }
  }

  /**
   * One pass of the inner `for x` loop over row `y`: it writes the next digit
   * into each pixel of the row, and stops at the first pixel once the digits
   * run out.
   */
  method EncodeRow(encoded: array2<Pixel>, img: array2<Pixel>, bits: string, y: nat, start: nat) returns (idx: nat)
    requires encoded != img && y < img.Length1
    requires start == Min(|bits|, Pos(0, y, img.Length0))
    requires EncodedBelow(encoded, img, bits, start)
    modifies encoded
    ensures idx == Min(|bits|, Pos(0, y + 1, img.Length0))
    ensures EncodedBelow(encoded, img, bits, idx)
  {
    var width := img.Length0;
    var height := img.Length1;
    idx := start;
    for x := 0 to width
      invariant idx == Min(|bits|, Pos(x, y, width))
      invariant idx == |bits| ==> |bits| <= Pos(width, y, width)
      invariant EncodedBelow(encoded, img, bits, idx)
    {
      if idx < |bits| {
        label Before:
        encoded[x, y] := SetRedLsb(encoded[x, y], bits[idx]);
        forall x', y' | 0 <= x' < width && 0 <= y' < height
          ensures encoded[x', y'] == (if Pos(x', y', width) < idx + 1
                                      then EncodedPixel(img[x', y'], bits, Pos(x', y', width))
                                      else img[x', y'])
        {
          RowMajor(x', y', x, y, width, height);
          if x' != x || y' != y {
            assert encoded[x', y'] == old@Before(encoded[x', y']);
          }
        }
        idx := idx + 1;
      } else {
        break;
      }
    }
  }

  /**
   * Digit k ends up in the red LSB of the k-th pixel in row-major order, for
   * every k below both the digit count and the pixel count; digits beyond
   * the pixel count are dropped without error.
   */
  lemma EncodedCarriesBits(img: array2<Pixel>, secret: string, encoded: array2<Pixel>, x: nat, y: nat)
    requires encoded.Length0 == img.Length0 && encoded.Length1 == img.Length1
    requires forall x, y | 0 <= x < img.Length0 && 0 <= y < img.Length1 ::
               encoded[x, y] == EncodedPixel(img[x, y], Bits(secret), Pos(x, y, img.Length0))
    requires x < img.Length0 && y < img.Length1 && Pos(x, y, img.Length0) < |Bits(secret)|
    ensures (encoded[x, y].r & 1 == 1) <==> Bits(secret)[Pos(x, y, img.Length0)] == '1'
    ensures encoded[x, y].g == img[x, y].g && encoded[x, y].b == img[x, y].b
  {
  }
}
