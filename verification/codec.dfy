/** The payload codec: `compressByte`/`decompressByte`, a thin wrapper over
    DEFLATE (RFC 1951) at compression level 9.

    The codec is not re-implemented here. It is a pair of total functions
    supplied by the caller of the model, and the DEFLATE round trip is the
    hypothesis `Lossless`. Decompression is total because the wrapper
    discards every error of the flate reader: a malformed payload decodes to
    whatever bytes the reader produced, and no failure is reported. */
module Codec {

  newtype byte = b: int | 0 <= b < 256

  type Bytes = seq<byte>

  /** The flate level `compressByte` asks for (`flate.BestCompression`). */
  const CompressionLevel: int := 9

  datatype Flate = Flate(compress: Bytes -> Bytes, decompress: Bytes -> Bytes)

  /** Decompressing what was compressed gives back the input, for every input
      including the empty one. */
  ghost predicate Lossless(codec: Flate)
  {
    forall x :: codec.decompress(codec.compress(x)) == x
  }
}
