/** The image checks of the business backend (`pkg/validate/image.go`): a
    magic-number test for PNG (the eight-byte signature of section 5.2 of the
    PNG specification, ISO/IEC 15948) and JPEG (the SOI marker FF D8 of ITU-T
    T.81 followed by the FF of the next marker), and a size limit. */
module Image {
  import opened Wrappers

  type Byte = b: int | 0 <= b < 256

  const PngSignature: seq<Byte> := [0x89, 0x50, 0x4E, 0x47, 0x0D, 0x0A, 0x1A, 0x0A]
  const JpegPrefix: seq<Byte> := [0xFF, 0xD8, 0xFF]

  /** "image data too small", "image must be PNG or JPEG format", and the
      size error, which reports both sizes. */
  datatype ImageError = TooSmall | NotPngOrJpeg | TooLarge(size: int, max: int)

  predicate IsPng(data: seq<Byte>) { PngSignature <= data }
  predicate IsJpeg(data: seq<Byte>) { JpegPrefix <= data }

  /** `ValidateMimeType`. */
  function ValidateMimeType(data: seq<Byte>): (r: Outcome<ImageError>)
    ensures |data| < 4 ==> r == Fail(TooSmall)
    ensures r == Pass <==> |data| >= 4 && (IsPng(data) || IsJpeg(data))
    ensures r.Fail? ==> r == Fail(TooSmall) || r == Fail(NotPngOrJpeg)
  {
    if |data| < 4 then Fail(TooSmall)
    else if |data| >= 8 && data[..8] == [0x89, 0x50, 0x4E, 0x47, 0x0D, 0x0A, 0x1A, 0x0A] then Pass
    else if |data| >= 3 && data[0] == 0xFF && data[1] == 0xD8 && data[2] == 0xFF then Pass
    else Fail(NotPngOrJpeg)
  }

  /** `ValidateImageSize`: a size equal to the maximum passes. */
  function ValidateImageSize(size: int, max: int): (r: Outcome<ImageError>)
    ensures r.Fail? <==> size > max
    ensures r.Fail? ==> r.error == TooLarge(size, max)
  {
    if size > max then Fail(TooLarge(size, max)) else Pass
  }

  /** `ValidateImage`: the format is checked before the size. */
  function ValidateImage(data: seq<Byte>, size: int, max: int): (r: Outcome<ImageError>)
    ensures r == Pass <==> ValidateMimeType(data) == Pass && ValidateImageSize(size, max) == Pass
    ensures ValidateMimeType(data).Fail? ==> r == ValidateMimeType(data)
  {
    match ValidateMimeType(data)
    case Fail(e) => Fail(e)
    case Pass => ValidateImageSize(size, max)
  }

  /** The JPEG marker alone is not enough: three bytes FF D8 FF are refused
      as too small. */
  lemma ShortJpegRefused()
    ensures ValidateMimeType([0xFF, 0xD8, 0xFF]) == Fail(TooSmall)
    ensures ValidateMimeType([0xFF, 0xD8, 0xFF, 0xE0]) == Pass
  {
  }
}
