/**
 * The image plane shape's cache: the pixel data and texture records it
 * stores, their byte counts and validity, pixel allocation, and the
 * cache itself, which has the same least-recently-used logic as the
 * viewport image cache with megabytes of 1e6 bytes.
 */
module ShapeImageCache {
  import opened LruCache
  import ImageCache

  /** `CachePixelDataType`; `Count` is the enumeration's end marker. */
  datatype CachePixelDataType = U8 | F32 | Count | Unknown

  /** `convert_pixel_data_type_to_bytes_per_channel`. */
  function BytesPerChannel(t: CachePixelDataType): (b: nat)
    ensures t == U8 ==> b == 1
    ensures t == F32 ==> b == 4
    ensures t != U8 && t != F32 ==> b == 0
  {
    match t
    case U8 => 1
    case F32 => 4
    case _ => 0
  }

  const Uint32Modulus: nat := 0x1_0000_0000

  /** The dimensions shared by pixel data and textures; width and height are 32-bit, the channel count 8-bit. */
  datatype Dims = Dims(width: nat, height: nat, numChannels: nat, pixelDataType: CachePixelDataType)

  predicate InRange(d: Dims)
  {
    d.width < Uint32Modulus && d.height < Uint32Modulus && d.numChannels < 256
  }

  /**
   * `byte_count` as written: the product is computed in 32-bit unsigned
   * arithmetic and wraps before it is widened to `size_t`.
   */
  function ByteCountAsWritten(d: Dims): nat
  {
    (d.width * d.height * d.numChannels * BytesPerChannel(d.pixelDataType)) % Uint32Modulus
  }

  /** A 16384 x 16384 RGBA float image has a byte count of 0 as written, so it cannot be allocated. */
  lemma ByteCountAsWrittenWraps()
    ensures InRange(Dims(16384, 16384, 4, F32))
    ensures ByteCountAsWritten(Dims(16384, 16384, 4, F32)) == 0
    ensures ByteCount(Dims(16384, 16384, 4, F32)) == Uint32Modulus
  {
    assert 16384 * 16384 == 268435456;
    assert 268435456 * 4 == 1073741824;
    assert 1073741824 * 4 == Uint32Modulus;
  }

  /** `byte_count` as intended: width times height times channels times bytes per channel, without wrap-around. */
  function ByteCount(d: Dims): (n: nat)
    ensures n > 0 <==> d.width > 0 && d.height > 0 && d.numChannels > 0 && (d.pixelDataType == U8 || d.pixelDataType == F32)
    ensures d.pixelDataType == U8 ==> n == d.width * d.height * d.numChannels
  {
    var p := d.width * d.height;
    assert p > 0 <==> d.width > 0 && d.height > 0 by { NonZeroProduct(d.width, d.height); }
    var q := p * d.numChannels;
    assert q > 0 <==> p > 0 && d.numChannels > 0 by { NonZeroProduct(p, d.numChannels); }
    q * BytesPerChannel(d.pixelDataType)
  }

  lemma NonZeroProduct(a: nat, b: nat)
    ensures a * b > 0 <==> a > 0 && b > 0
  {
    if a > 0 && b > 0 {
      assert a * b >= b by { MulAtLeast(a, b); }
    }
  }

  lemma MulAtLeast(a: nat, b: nat)
    requires a > 0
    ensures a * b >= b
  {
  }

  /** `CacheImagePixelData`: whether pixel data is held, and the dimensions. */
  datatype CacheImagePixelData = CacheImagePixelData(hasPixelData: bool, dims: Dims)

  /** `CacheTextureData`: whether a texture is held, and the dimensions. */
  datatype CacheTextureData = CacheTextureData(hasTexture: bool, dims: Dims)

  /** The default constructors: no data, zero sizes, unknown type. */
  const DefaultPixelData: CacheImagePixelData := CacheImagePixelData(false, Dims(0, 0, 0, Unknown))
  const DefaultTextureData: CacheTextureData := CacheTextureData(false, Dims(0, 0, 0, Unknown))

  function PixelDataByteCount(d: CacheImagePixelData): nat { ByteCount(d.dims) }
  function TextureByteCount(d: CacheTextureData): nat { ByteCount(d.dims) }

  /** `is_valid`: pixel data, non-zero sizes and a known type. */
  predicate IsValid(d: CacheImagePixelData)
  {
    d.hasPixelData && d.dims.width != 0 && d.dims.height != 0 && d.dims.numChannels != 0 && d.dims.pixelDataType != Unknown
  }

  /**
   * Validity does not imply a non-zero byte count: the end marker type
   * counts as known but has no bytes per channel.
   */
  lemma ValidWithoutBytes()
    ensures IsValid(CacheImagePixelData(true, Dims(1, 1, 1, Count)))
    ensures PixelDataByteCount(CacheImagePixelData(true, Dims(1, 1, 1, Count))) == 0
  {
  }

  /**
   * `allocate_pixels`: stores the dimensions; a zero byte count fails;
   * otherwise the allocation (whose success `mallocOk` stands for) sets
   * the pixel data.
   */
  function AllocatePixels(d: CacheImagePixelData, width: nat, height: nat, numChannels: nat,
                          pixelDataType: CachePixelDataType, mallocOk: bool): (r: (CacheImagePixelData, bool))
    ensures r.0.dims == Dims(width, height, numChannels, pixelDataType)
    ensures r.1 <==> ByteCount(r.0.dims) > 0 && mallocOk
    ensures !r.1 ==> r.0.hasPixelData == d.hasPixelData
  {
    var dims := Dims(width, height, numChannels, pixelDataType);
    if ByteCount(dims) == 0 then (CacheImagePixelData(d.hasPixelData, dims), false)
    else if mallocOk then (CacheImagePixelData(true, dims), true)
    else (CacheImagePixelData(d.hasPixelData, dims), false)
  }

  /** A successful allocation leaves valid pixel data with a non-zero byte count. */
  lemma AllocatedIsValid(d: CacheImagePixelData, width: nat, height: nat, numChannels: nat,
                         pixelDataType: CachePixelDataType, mallocOk: bool)
    ensures var (r, ok) := AllocatePixels(d, width, height, numChannels, pixelDataType, mallocOk);
      ok ==> IsValid(r) && PixelDataByteCount(r) > 0
  {
  }

  /** The shape's cache: 1e6 bytes to the megabyte, so 200e6 GPU and 1000e6 CPU bytes of capacity. */
  method NewImageCache() returns (c: ImageCache.ImageCache<CacheImagePixelData, CacheTextureData>)
    ensures fresh(c) && c.Valid()
    ensures c.cpuBytes == PixelDataByteCount && c.gpuBytes == TextureByteCount
    ensures c.cpuDefault == DefaultPixelData && c.gpuDefault == DefaultTextureData
    ensures c.cpu == Lru([], map[], 0, 1000000000) && c.gpu == Lru([], map[], 0, 200000000)
  {
    c := new ImageCache.ImageCache(PixelDataByteCount, TextureByteCount, DefaultPixelData, DefaultTextureData, 1000000);
  }
}
