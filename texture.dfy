/**
 * LoadTexture: the decoded image is handed to the texture constructor as four bytes per
 * texel (RGBA8, row pitch width * 4). A four-channel image is passed through unchanged;
 * any other image is expanded into a new buffer, texel by texel.
 *
 * The decoder (stb_image) is not modelled: its output is the `Image` value below, with
 * between one and four interleaved 8-bit channels per texel.
 */
module TextureLoading {

  newtype byte = x: int | 0 <= x < 256

  const Opaque: byte := 255

  /** What the decoder returns: `channels` interleaved bytes per texel, row after row. */
  datatype Image = Image(width: nat, height: nat, channels: nat, pixels: seq<byte>)

  /**
   * The byte offset of texel i when every texel takes `channels` bytes. It is channels * i
   * (OffsetIsProduct), written as a running sum so that offsets are only ever added.
   */
  function Offset(channels: nat, i: nat): nat {
    if i == 0 then 0 else Offset(channels, i - 1) + channels
  }

  lemma {:induction false} OffsetIsProduct(channels: nat, i: nat)
    ensures Offset(channels, i) == channels * i
  {
    if i > 0 {
      OffsetIsProduct(channels, i - 1);
    }
  }

  /** Texel i of an image of n texels ends inside the image. */
  lemma {:induction false} OffsetMonotone(channels: nat, i: nat, n: nat)
    requires i < n
    ensures Offset(channels, i) + channels <= Offset(channels, n)
  {
    if i + 1 < n {
      OffsetMonotone(channels, i, n - 1);
    }
  }

  /** width * height texels of `channels` bytes each, between one and four channels. */
  predicate Decoded(img: Image) {
    1 <= img.channels <= 4 && |img.pixels| == Offset(img.channels, img.width * img.height)
  }

  /**
   * The RGBA value of texel i, as a four-component load converts it: grey is replicated
   * into red, green and blue, a missing alpha is opaque.
   */
  function Texel(pixels: seq<byte>, channels: nat, i: nat): (r: seq<byte>)
    requires 1 <= channels <= 4 && Offset(channels, i) + channels <= |pixels|
    ensures |r| == 4
  {
    var o := Offset(channels, i);
    if channels == 1 then [pixels[o], pixels[o], pixels[o], Opaque]
    else if channels == 2 then [pixels[o], pixels[o], pixels[o], pixels[o + 1]]
    else if channels == 3 then [pixels[o], pixels[o + 1], pixels[o + 2], Opaque]
    else pixels[o..o + 4]
  }

  /** The first n texels, each as its four RGBA bytes. */
  function Expanded(pixels: seq<byte>, channels: nat, n: nat): (r: seq<byte>)
    requires 1 <= channels <= 4 && Offset(channels, n) <= |pixels|
    ensures |r| == 4 * n
  {
    if n == 0 then [] else Expanded(pixels, channels, n - 1) + Texel(pixels, channels, n - 1)
  }

  lemma SliceOfAppendLeft<T>(whole: seq<T>, a: seq<T>, b: seq<T>, lo: nat, hi: nat)
    requires whole == a + b && lo <= hi <= |a|
    ensures whole[lo..hi] == a[lo..hi]
  {
  }

  lemma SliceOfAppendRight<T>(whole: seq<T>, a: seq<T>, b: seq<T>, lo: nat, hi: nat)
    requires whole == a + b && lo == |a| && hi == lo + |b|
    ensures whole[lo..hi] == b
  {
  }

  lemma SplitPrefix<T>(s: seq<T>, j: nat, k: nat)
    requires j <= k <= |s|
    ensures s[..k] == s[..j] + s[j..k]
  {
  }

  /** The last texel sits at the end of the expansion. */
  lemma ExpandedAtLast(pixels: seq<byte>, channels: nat, n: nat)
    requires 1 <= channels <= 4 && Offset(channels, n) <= |pixels| && 0 < n
    ensures Expanded(pixels, channels, n)[4 * (n - 1)..4 * n] == Texel(pixels, channels, n - 1)
  {
    var prefix := Expanded(pixels, channels, n - 1);
    var last := Texel(pixels, channels, n - 1);
    SliceOfAppendRight(Expanded(pixels, channels, n), prefix, last, 4 * (n - 1), 4 * n);
  }

  /** Appending a texel leaves the earlier texels where they are. */
  lemma ExpandedAtEarlier(pixels: seq<byte>, channels: nat, n: nat, i: nat)
    requires 1 <= channels <= 4 && Offset(channels, n) <= |pixels| && i + 1 < n
    requires Offset(channels, i) + channels <= |pixels|
    requires Expanded(pixels, channels, n - 1)[4 * i..4 * i + 4] == Texel(pixels, channels, i)
    ensures Expanded(pixels, channels, n)[4 * i..4 * i + 4] == Texel(pixels, channels, i)
  {
    var prefix := Expanded(pixels, channels, n - 1);
    var last := Texel(pixels, channels, n - 1);
    SliceOfAppendLeft(Expanded(pixels, channels, n), prefix, last, 4 * i, 4 * i + 4);
  }

  /** Bytes 4i .. 4i+3 of the expansion are texel i, wherever it sits. */
  lemma {:induction false} ExpandedAt(pixels: seq<byte>, channels: nat, n: nat, i: nat)
    requires 1 <= channels <= 4 && Offset(channels, n) <= |pixels| && i < n
    requires Offset(channels, i) + channels <= |pixels|
    ensures Expanded(pixels, channels, n)[4 * i..4 * i + 4] == Texel(pixels, channels, i)
  {
    if i + 1 < n {
      ExpandedAt(pixels, channels, n - 1, i);
      ExpandedAtEarlier(pixels, channels, n, i);
    } else {
      ExpandedAtLast(pixels, channels, n);
    }
  }

  /** Texels of grey and RGB images come out opaque. */
  lemma ExpandedOpaque(pixels: seq<byte>, channels: nat, n: nat, i: nat)
    requires (channels == 1 || channels == 3) && Offset(channels, n) <= |pixels| && i < n
    ensures Expanded(pixels, channels, n)[4 * i + 3] == Opaque
  {
    OffsetMonotone(channels, i, n);
    ExpandedAt(pixels, channels, n, i);
    assert Expanded(pixels, channels, n)[4 * i + 3] == Expanded(pixels, channels, n)[4 * i..4 * i + 4][3];
  }

  /** One more texel of a four-channel image: its four bytes, unchanged. */
  lemma RgbaStep(pixels: seq<byte>, n: nat)
    requires 0 < n && Offset(4, n) <= |pixels|
    requires Expanded(pixels, 4, n - 1) == pixels[..Offset(4, n - 1)]
    ensures Expanded(pixels, 4, n) == pixels[..Offset(4, n)]
  {
    assert Expanded(pixels, 4, n) == Expanded(pixels, 4, n - 1) + Texel(pixels, 4, n - 1);
    SplitPrefix(pixels, Offset(4, n - 1), Offset(4, n));
  }

  /** A four-channel image is already in the uploaded layout. */
  lemma {:induction false} ExpandedRgbaIdentity(pixels: seq<byte>, n: nat)
    requires Offset(4, n) <= |pixels|
    ensures Expanded(pixels, 4, n) == pixels[..Offset(4, n)]
  {
    if n > 0 {
      ExpandedRgbaIdentity(pixels, n - 1);
      RgbaStep(pixels, n);
    }
  }

  /** Dropping every fourth byte: the inverse of expanding an RGB image. */
  function StripAlpha(rgba: seq<byte>): seq<byte> {
    if |rgba| < 4 then []
    else StripAlpha(rgba[..|rgba| - 4]) + rgba[|rgba| - 4..|rgba| - 1]
  }

  /** Dropping the alpha of one more texel appends its colour bytes. */
  lemma StripAlphaSnoc(front: seq<byte>, t: seq<byte>, prev: seq<byte>, colour: seq<byte>)
    requires |t| == 4 && StripAlpha(front) == prev && t[..3] == colour
    ensures StripAlpha(front + t) == prev + colour
  {
    var e := front + t;
    assert e[..|e| - 4] == front;
    assert e[|e| - 4..|e| - 1] == t[..3];
  }

  /** The colour bytes of an RGB texel are its three source bytes. */
  lemma RgbTexelColour(pixels: seq<byte>, i: nat)
    requires Offset(3, i) + 3 <= |pixels|
    ensures Texel(pixels, 3, i)[..3] == pixels[Offset(3, i)..Offset(3, i) + 3]
  {
  }

  /** One more texel: a round trip over a prefix extends by the texel's colour bytes. */
  lemma StripAlphaStep(pixels: seq<byte>, front: seq<byte>, t: seq<byte>, whole: seq<byte>, o: nat)
    requires whole == front + t && |t| == 4 && o + 3 <= |pixels|
    requires StripAlpha(front) == pixels[..o] && t[..3] == pixels[o..o + 3]
    ensures StripAlpha(whole) == pixels[..o + 3]
  {
    StripAlphaSnoc(front, t, pixels[..o], pixels[o..o + 3]);
    SplitPrefix(pixels, o, o + 3);
  }

  /** Expanding an RGB image and dropping the alpha bytes gives the image back. */
  lemma {:induction false} StripAlphaRoundTrip(pixels: seq<byte>, n: nat)
    requires Offset(3, n) <= |pixels|
    ensures StripAlpha(Expanded(pixels, 3, n)) == pixels[..Offset(3, n)]
  {
    if n == 0 {
      assert Expanded(pixels, 3, n) == [];
    } else {
      var o := Offset(3, n - 1);
      var front := Expanded(pixels, 3, n - 1);
      var t := Texel(pixels, 3, n - 1);
      assert StripAlpha(front) == pixels[..o] by {
        StripAlphaRoundTrip(pixels, n - 1);
      }
      assert t[..3] == pixels[o..o + 3] by {
        RgbTexelColour(pixels, n - 1);
      }
      StripAlphaStep(pixels, front, t, Expanded(pixels, 3, n), o);
    }
  }

  /** The arguments of the CuTexture constructor: sRGB, extent, row pitch and RGBA bytes. */
  datatype TextureUpload = TextureUpload(srgb: bool, width: nat, height: nat, bytesPerRow: nat, data: seq<byte>)

  /** Four bytes written at k after a prefix of length k extend the prefix by those bytes. */
  lemma AppendFour(s: seq<byte>, k: nat, prefix: seq<byte>, t: seq<byte>)
    requires k + 4 <= |s| && |t| == 4 && s[..k] == prefix
    requires s[k] == t[0] && s[k + 1] == t[1] && s[k + 2] == t[2] && s[k + 3] == t[3]
    ensures s[..k + 4] == prefix + t
  {
    assert s[..k + 4] == s[..k] + s[k..k + 4];
  }

  /**
   * The expansion loop: texel i of a `channels`-channel buffer becomes bytes 4i .. 4i+3
   * of a new buffer of 4n bytes.
   */
  method ExpandTexels(pixels: seq<byte>, channels: nat, n: nat) returns (data: seq<byte>)
    requires 1 <= channels <= 4 && Offset(channels, n) <= |pixels|
    ensures data == Expanded(pixels, channels, n)
  {
    var a := new byte[4 * n];
    for i := 0 to n
      invariant Offset(channels, i) <= |pixels|
      invariant a[..4 * i] == Expanded(pixels, channels, i)
    {
      OffsetMonotone(channels, i, n);
      var t := Texel(pixels, channels, i);
      a[4 * i], a[4 * i + 1], a[4 * i + 2], a[4 * i + 3] := t[0], t[1], t[2], t[3];
      AppendFour(a[..], 4 * i, Expanded(pixels, channels, i), t);
    }
    data := a[..];
  }

  /**
   * LoadTexture's expansion as written: a four-channel image is passed through, and any
   * other image goes through the loop reading three bytes per texel (bytes 3i .. 3i+2).
   * The reads stay inside the image only when it holds at least three bytes per texel.
   */
  method ExpandAsWritten(img: Image) returns (data: seq<byte>)
    requires Decoded(img)
    requires img.channels != 4 ==> 3 * (img.width * img.height) <= |img.pixels|
    ensures img.channels == 4 ==> data == img.pixels
    ensures img.channels != 4 ==> Offset(3, img.width * img.height) <= |img.pixels|
    ensures img.channels != 4 ==> data == Expanded(img.pixels, 3, img.width * img.height)
  {
    if img.channels == 4 {
      return img.pixels;
    }
    OffsetIsProduct(3, img.width * img.height);
    data := ExpandTexels(img.pixels, 3, img.width * img.height);
  }

  /**
   * A decoded grey or grey-alpha image of at least one texel is shorter than three bytes
   * per texel, so the loop as written reads past its end.
   */
  lemma GreyImageOverreads(img: Image)
    requires Decoded(img) && img.channels <= 2 && img.width * img.height >= 1
    ensures 3 * (img.width * img.height) > |img.pixels|
  {
    var n := img.width * img.height;
    OffsetIsProduct(img.channels, n);
    if img.channels == 1 {
      assert |img.pixels| == n;
    } else {
      assert |img.pixels| == 2 * n;
    }
  }

  /**
   * The expansion each channel count needs (what asking the decoder for four components
   * yields): every texel converted by `Texel`, a four-channel image passed through.
   */
  method ExpandToRgba(img: Image) returns (data: seq<byte>)
    requires Decoded(img)
    ensures data == Expanded(img.pixels, img.channels, img.width * img.height)
    ensures |data| == 4 * (img.width * img.height)
  {
    var n := img.width * img.height;
    if img.channels == 4 {
      ExpandedRgbaIdentity(img.pixels, n);
      assert img.pixels[..Offset(4, n)] == img.pixels;
      return img.pixels;
    }
    data := ExpandTexels(img.pixels, img.channels, n);
  }

  /** The texture created from an image: sRGB, the image's extent, RGBA rows of 4 * width bytes. */
  predicate TextureOf(upload: TextureUpload, img: Image)
    requires Decoded(img)
  {
    && upload.srgb && upload.width == img.width && upload.height == img.height
    && upload.bytesPerRow == 4 * img.width
    && upload.data == Expanded(img.pixels, img.channels, img.width * img.height)
  }

  /** LoadTexture with the expansion corrected: an sRGB RGBA8 texture of the image's extent. */
  method LoadTexture(img: Image) returns (upload: TextureUpload)
    requires Decoded(img)
    ensures TextureOf(upload, img)
    ensures |upload.data| == upload.bytesPerRow * upload.height
  {
    var data := ExpandToRgba(img);
    upload := TextureUpload(true, img.width, img.height, img.width * 4, data);
  }
}
