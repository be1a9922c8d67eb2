/** Content-type sniffing of stored images (Controllers/ImageController.cs,
    and the same `IsPng` in Controllers/SupplierController.cs): a PNG
    signature (section 5.2 of the W3C PNG Specification), a GIF header
    "GIF87a"/"GIF89a" (section 17 of the GIF89a Specification), and JPEG
    for anything else. */
module ImageSniffing {
  import opened Wrappers

  newtype byte = x: int | 0 <= x < 256

  /** The eight-byte PNG signature 89 50 4E 47 0D 0A 1A 0A. */
  const PngSignature: seq<byte> := [0x89, 0x50, 0x4E, 0x47, 0x0D, 0x0A, 0x1A, 0x0A]

  /** True for more than eight bytes that start with the PNG signature; the
      signature alone is not enough. */
  predicate IsPng(bytes: seq<byte>) {
    |bytes| > 8 &&
    bytes[0] == 0x89 && bytes[1] == 0x50 && bytes[2] == 0x4E && bytes[3] == 0x47 &&
    bytes[4] == 0x0D && bytes[5] == 0x0A && bytes[6] == 0x1A && bytes[7] == 0x0A
  }

  /** True for more than six bytes that start with "GIF87a" or "GIF89a". */
  predicate IsGif(bytes: seq<byte>) {
    |bytes| > 6 &&
    bytes[0] == 'G' as byte && bytes[1] == 'I' as byte && bytes[2] == 'F' as byte && bytes[3] == '8' as byte &&
    (bytes[4] == '7' as byte || bytes[4] == '9' as byte) && bytes[5] == 'a' as byte
  }

  /** The ASCII bytes of the two GIF headers, "GIF87a" and "GIF89a". */
  const Gif87a: seq<byte> := [0x47, 0x49, 0x46, 0x38, 0x37, 0x61]
  const Gif89a: seq<byte> := [0x47, 0x49, 0x46, 0x38, 0x39, 0x61]

  lemma IsPngIffSignature(bytes: seq<byte>)
    ensures IsPng(bytes) <==> |bytes| > |PngSignature| && bytes[..8] == PngSignature
  {
    if |bytes| > 8 && bytes[..8] == PngSignature {
      assert bytes[0] == bytes[..8][0] && bytes[7] == bytes[..8][7];
      assert bytes[1] == bytes[..8][1] && bytes[2] == bytes[..8][2] && bytes[3] == bytes[..8][3];
      assert bytes[4] == bytes[..8][4] && bytes[5] == bytes[..8][5] && bytes[6] == bytes[..8][6];
    }
  }

  lemma IsGifIffHeader(bytes: seq<byte>)
    ensures IsGif(bytes) <==> |bytes| > 6 && (bytes[..6] == Gif87a || bytes[..6] == Gif89a)
  {
    if |bytes| > 6 && (bytes[..6] == Gif87a || bytes[..6] == Gif89a) {
      assert bytes[0] == bytes[..6][0] && bytes[1] == bytes[..6][1] && bytes[2] == bytes[..6][2];
      assert bytes[3] == bytes[..6][3] && bytes[4] == bytes[..6][4] && bytes[5] == bytes[..6][5];
    }
  }

  /** Exactly the signature, with nothing after it, is not taken for PNG. */
  lemma SignatureAloneIsNotPng()
    ensures !IsPng(PngSignature)
  {
  }

  /** No input is both: the first byte is 0x89 for one and 'G' for the other. */
  lemma PngAndGifExclusive(bytes: seq<byte>)
    ensures !(IsPng(bytes) && IsGif(bytes))
  {
  }

  /** The content type of `GetImage`: PNG first, then GIF, else JPEG. */
  function ContentType(bytes: seq<byte>): (r: string)
    ensures r == "image/png" <==> IsPng(bytes)
    ensures r == "image/gif" <==> !IsPng(bytes) && IsGif(bytes)
    ensures r == "image/jpeg" <==> !IsPng(bytes) && !IsGif(bytes)
  {
    if IsPng(bytes) then "image/png"
    else if IsGif(bytes) then "image/gif"
    else "image/jpeg"
  }

  /** The content type of `GetSupplierImage`: PNG, else JPEG (no GIF test). */
  function SupplierImageContentType(bytes: seq<byte>): (r: string)
    ensures r == "image/png" <==> IsPng(bytes)
    ensures r == "image/jpeg" <==> !IsPng(bytes)
  {
    if IsPng(bytes) then "image/png" else "image/jpeg"
  }

  /** A stored image row (`ImageData`, only the fields used). */
  datatype ImageRow = ImageRow(imageId: int, imageDt: Option<seq<byte>>)

  /** The action result of the image endpoints. */
  datatype ImageResult = NotFound | File(bytes: seq<byte>, contentType: string)

  /** `GetImage`: the looked-up row, if any, served with its sniffed type. */
  function GetImage(row: Option<ImageRow>): (r: ImageResult)
    ensures r.NotFound? <==> row.None? || row.value.imageDt.None? || row.value.imageDt.value == []
    ensures r.File? ==> r.bytes == row.value.imageDt.value && r.contentType == ContentType(r.bytes)
  {
    if row.Some? && row.value.imageDt.Some? && |row.value.imageDt.value| > 0 then
      var bytes := row.value.imageDt.value;
      File(bytes, ContentType(bytes))
    else NotFound
  }
}
