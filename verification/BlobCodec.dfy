/** One archived body: encodeBlob, decodeBlob and the bound they share (internal/store/archive.go). */
module BlobCodec {
  import opened Prelude

  const MAX_BLOB: nat := 268435456

  datatype Codec = Zstd | Raw | UnknownCodec(name: string)

  datatype Blob = Blob(codec: Codec, length: int, data: Bytes)

  /**
   The zstd library. `header` is the frame header's declared content size: no header at all, a header
   without a size, or a size.
   */
  datatype Compressor = Compressor(compress: Bytes -> Bytes,
                                   decompress: Bytes -> Option<Bytes>,
                                   header: Bytes -> Option<Option<nat>>)
  {
    ghost predicate Lawful() {
      forall b: Bytes :: decompress(compress(b)) == Some(b)
                         && (header(compress(b)) == Some(None) || header(compress(b)) == Some(Some(|b|)))
    }
  }

  /** Compressed when that shrinks the body, raw otherwise. */
  function Encode(z: Compressor, b: Bytes): Blob {
    var c := z.compress(b);
    if |c| < |b| then Blob(Zstd, |b|, c) else Blob(Raw, |b|, b)
  }

  /** The stored bytes, or None for a blob that does not decode to its recorded length. */
  function Decode(z: Compressor, blob: Blob): Option<Bytes> {
    if blob.length < 0 || blob.length > MAX_BLOB then None
    else match blob.codec
      case Raw => if |blob.data| != blob.length then None else Some(blob.data)
      case Zstd =>
        (match z.header(blob.data)
         case None => None
         case Some(size) =>
           if size.Some? && size.value != blob.length then None
           else match z.decompress(blob.data)
             case None => None
             case Some(out) => if |out| != blob.length then None else Some(out))
      case UnknownCodec(_) => None
  }

  /** A body reads back exactly when it is within the bound; a longer one is stored but never decodes. */
  lemma RoundTrip(z: Compressor, b: Bytes)
    requires z.Lawful()
    ensures Decode(z, Encode(z, b)) == if |b| <= MAX_BLOB then Some(b) else None
  {
    var c := z.compress(b);
    assert z.decompress(c) == Some(b);
  }

  /** What is stored is the shorter of the body and its compression, under the codec that says which. */
  lemma NeverLonger(z: Compressor, b: Bytes)
    ensures var e, c := Encode(z, b), z.compress(b);
            && e.length == |b| && |e.data| == (if |c| < |b| then |c| else |b|)
            && (e.codec == Raw ==> e.data == b) && (e.codec == Zstd ==> e.data == c) && !e.codec.UnknownCodec?
  {
  }

  /** Whatever is on disk, a decoded body has its recorded length and stays within the bound. */
  lemma DecodeBounded(z: Compressor, blob: Blob)
    requires Decode(z, blob).Some?
    ensures |Decode(z, blob).value| == blob.length <= MAX_BLOB
  {
  }
}
