/** The digest and the codecs, kept opaque: arbitrary functions, and one named hypothesis about them. */
module Tools {
  import opened Basics
  import opened Plan

  type Digest = seq<Byte>

  datatype ImageFormat = RawFormat | ZstandardFormat | XzFormat

  /** What a decoder yields: some bytes, then a clean end or a failure. */
  datatype Decoded = Decoded(bytes: seq<Byte>, clean: bool)

  /**
   * `sha` is the digest of all bytes fed to a hasher, however they were split; `encode` the file a
   * compressor writes for the chunks it was given.
   */
  datatype Toolbox = Toolbox(
    sha: seq<Byte> -> Digest,
    encode: (Compression, seq<seq<Byte>>) -> seq<Byte>,
    decode: (ImageFormat, seq<Byte>) -> Decoded)

  function FormatOf(compression: Compression): (format: ImageFormat)
    ensures format == ZstandardFormat <==> compression.Zstandard?
    ensures format != RawFormat
  {
    if compression.Zstandard? then ZstandardFormat else XzFormat
  }

  /** Decoding what was encoded gives the joined chunks back, however they were split. */
  ghost predicate Lossless(tools: Toolbox) {
    forall c, chunks :: tools.decode(FormatOf(c), tools.encode(c, chunks)) == Decoded(Flatten(chunks), true)
  }
}
