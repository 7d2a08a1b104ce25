/**
 Writing an upload as it arrives: the running limit, and the leading bytes inspected on the way.
 However the bytes are cut into chunks, the outcome is that of one check of the whole.
 */
module Streaming {
  import opened Common
  import opened Strings

  newtype byte = b: int | 0 <= b < 256

  const SUGGESTED_HEAD_BYTES := 16

  // ---------- Signatures ----------

  datatype Sniffed = Png | Jpeg | Gif | Webp | Pdf | Zip | Gzip | Unknown

  const PNG: seq<byte> := [0x89, 0x50, 0x4e, 0x47, 0x0d, 0x0a, 0x1a, 0x0a]
  const JPEG: seq<byte> := [0xff, 0xd8, 0xff]
  const GIF87A: seq<byte> := [0x47, 0x49, 0x46, 0x38, 0x37, 0x61]
  const GIF89A: seq<byte> := [0x47, 0x49, 0x46, 0x38, 0x39, 0x61]
  const RIFF: seq<byte> := [0x52, 0x49, 0x46, 0x46]
  const WEBP: seq<byte> := [0x57, 0x45, 0x42, 0x50]
  const PDF: seq<byte> := [0x25, 0x50, 0x44, 0x46, 0x2d]
  const PK: seq<byte> := [0x50, 0x4b, 0x03, 0x04]
  const GZIP: seq<byte> := [0x1f, 0x8b]

  function Sniff(head: seq<byte>): Sniffed {
    if PNG <= head then Png
    else if JPEG <= head then Jpeg
    else if GIF87A <= head || GIF89A <= head then Gif
    else if |head| >= 12 && RIFF <= head && head[8..12] == WEBP then Webp
    else if PDF <= head then Pdf
    else if PK <= head then Zip
    else if GZIP <= head then Gzip
    else Unknown
  }

  function Normalised(declared: string, isSpace: char -> bool): string {
    Lower(Trim(UpTo(declared, ';'), isSpace), AsciiLower)
  }

  /** A container constrains less; nothing recognised constrains nothing. */
  predicate IsConsistentWith(sniffed: Sniffed, declared: string, isSpace: char -> bool) {
    var kind := Normalised(declared, isSpace);
    match sniffed
    case Unknown => true
    case Png => kind == "image/png"
    case Jpeg => kind == "image/jpeg"
    case Gif => kind == "image/gif"
    case Webp => kind == "image/webp"
    case Pdf => kind == "application/pdf"
    case Gzip => kind == "application/gzip" || kind == "application/x-gzip"
    case Zip =>
      || kind == "application/zip"
      || "application/vnd.openxmlformats-officedocument." <= kind
      || "application/vnd.oasis.opendocument." <= kind
  }

  /** With no declared type there is nothing to contradict. */
  predicate BytesAgree(bytes: seq<byte>, declared: Option<string>, isSpace: char -> bool) {
    declared.Some? ==> IsConsistentWith(Sniff(bytes), declared.value, isSpace)
  }

  /**
   What the bytes rule out. Each known signature allows exactly the types named here, whatever else the
   file holds; bytes that start like none of them allow every type.
   */
  lemma DisguisesAreCaught(bytes: seq<byte>, declared: string, isSpace: char -> bool)
    ensures var kind, agree := Normalised(declared, isSpace), BytesAgree(bytes, Some(declared), isSpace);
            && ([0x89, 0x50, 0x4e, 0x47, 0x0d, 0x0a, 0x1a, 0x0a] <= bytes ==> (agree <==> kind == "image/png"))
            && ([0xff, 0xd8, 0xff] <= bytes ==> (agree <==> kind == "image/jpeg"))
            && ([0x47, 0x49, 0x46, 0x38, 0x37, 0x61] <= bytes || [0x47, 0x49, 0x46, 0x38, 0x39, 0x61] <= bytes ==>
                  (agree <==> kind == "image/gif"))
            && ([0x25, 0x50, 0x44, 0x46, 0x2d] <= bytes ==> (agree <==> kind == "application/pdf"))
            && ([0x1f, 0x8b] <= bytes ==> (agree <==> kind in {"application/gzip", "application/x-gzip"}))
            && ([0x50, 0x4b, 0x03, 0x04] <= bytes ==>
                  (agree <==> || kind == "application/zip"
                              || "application/vnd.openxmlformats-officedocument." <= kind
                              || "application/vnd.oasis.opendocument." <= kind))
    ensures BytesAgree(bytes, None, isSpace)
  {
    hide Normalised;
    FirstByte(PNG, bytes);
    FirstByte(JPEG, bytes);
    FirstByte(GIF87A, bytes);
    FirstByte(GIF89A, bytes);
    FirstByte(RIFF, bytes);
    FirstByte(PDF, bytes);
    FirstByte(PK, bytes);
    FirstByte(GZIP, bytes);
  }

  lemma FirstByte(signature: seq<byte>, bytes: seq<byte>)
    requires signature != []
    ensures signature <= bytes ==> bytes != [] && bytes[0] == signature[0]
  {
  }

  lemma WebpIsCaught(bytes: seq<byte>, declared: string, isSpace: char -> bool)
    requires |bytes| >= 12 && bytes[..4] == [0x52, 0x49, 0x46, 0x46] && bytes[8..12] == [0x57, 0x45, 0x42, 0x50]
    ensures BytesAgree(bytes, Some(declared), isSpace) <==> Normalised(declared, isSpace) == "image/webp"
  {
    hide Normalised;
    assert bytes[0] == bytes[..4][0];
    FirstByte(PNG, bytes);
    FirstByte(JPEG, bytes);
    FirstByte(GIF87A, bytes);
    FirstByte(GIF89A, bytes);
  }

  function Head(bytes: seq<byte>): seq<byte> {
    if |bytes| < SUGGESTED_HEAD_BYTES then bytes else bytes[..SUGGESTED_HEAD_BYTES]
  }

  lemma HeadKeepsPrefixes(signature: seq<byte>, bytes: seq<byte>)
    requires |signature| <= SUGGESTED_HEAD_BYTES
    ensures signature <= Head(bytes) <==> signature <= bytes
  {
  }

  /** Sixteen bytes say as much as the whole file, because no signature looks further. */
  lemma SniffingTheHeadIsEnough(bytes: seq<byte>)
    ensures Sniff(Head(bytes)) == Sniff(bytes)
  {
    HeadKeepsPrefixes(PNG, bytes);
    HeadKeepsPrefixes(JPEG, bytes);
    HeadKeepsPrefixes(GIF87A, bytes);
    HeadKeepsPrefixes(GIF89A, bytes);
    HeadKeepsPrefixes(RIFF, bytes);
    HeadKeepsPrefixes(PDF, bytes);
    HeadKeepsPrefixes(PK, bytes);
    HeadKeepsPrefixes(GZIP, bytes);
    assert |bytes| >= 12 ==> Head(bytes)[8..12] == bytes[8..12];
  }

  // ---------- The writer ----------

  datatype UploadError = TooLarge | Rejected | Internal

  class UploadWriter {
    const limit: nat
    var parts: seq<byte>
    var written: nat

    constructor (limit: nat)
      ensures this.limit == limit && parts == [] && Valid()
    {
      this.limit, this.parts, this.written := limit, [], 0;
    }

    predicate Valid() reads this {
      written == |parts| && written <= limit
    }

    /** Counts what arrives; `room` says whether the bucket takes the part. */
    method Write(chunk: seq<byte>, room: bool) returns (result: Result<(), UploadError>)
      requires Valid()
      modifies this
      ensures Valid()
      ensures result.Ok? <==> |old(parts)| + |chunk| <= limit && room
      ensures result.Ok? ==> parts == old(parts) + chunk
      ensures result.Err? ==> parts == old(parts)
      ensures result.Err? ==> result.error == if |old(parts)| + |chunk| > limit then TooLarge else Internal
    {
      var total := written + |chunk|;
      if total > limit {
        return Err(TooLarge);
      }
      if !room {
        return Err(Internal);
      }
      parts, written := parts + chunk, total;
      result := Ok(());
    }
  }

  // ---------- The stream ----------

  /** What the request body yields; `room`: the bucket takes the part; `Broken`: reading failed. */
  datatype Arrival = Chunk(bytes: seq<byte>, room: bool) | Broken

  function Joined(arrivals: seq<Arrival>): seq<byte> {
    if arrivals == [] then [] else (if arrivals[0].Chunk? then arrivals[0].bytes else []) + Joined(arrivals[1..])
  }

  lemma {:induction false} JoinedAppend(arrivals: seq<Arrival>, last: Arrival)
    ensures Joined(arrivals + [last]) == Joined(arrivals) + if last.Chunk? then last.bytes else []
  {
    if arrivals == [] {
      assert (arrivals + [last])[1..] == [];
    } else {
      assert (arrivals + [last])[1..] == arrivals[1..] + [last];
      JoinedAppend(arrivals[1..], last);
      var first := if arrivals[0].Chunk? then arrivals[0].bytes else [];
      var end := if last.Chunk? then last.bytes else [];
      assert first + (Joined(arrivals[1..]) + end) == (first + Joined(arrivals[1..])) + end;
    }
  }

  lemma {:induction false} JoinedPrefix(arrivals: seq<Arrival>, i: nat)
    requires i <= |arrivals|
    ensures Joined(arrivals[..i]) <= Joined(arrivals)
    decreases |arrivals|
  {
    if i > 0 {
      assert arrivals[..i][1..] == arrivals[1..][..i - 1];
      JoinedPrefix(arrivals[1..], i - 1);
      var first := if arrivals[0].Chunk? then arrivals[0].bytes else [];
      assert Joined(arrivals[..i]) == first + Joined(arrivals[1..][..i - 1]);
    }
  }

  predicate Clean(arrivals: seq<Arrival>) {
    forall i :: 0 <= i < |arrivals| ==> arrivals[i].Chunk? && arrivals[i].room
  }

  /** The one-shot check: within the limit, and the whole of it agrees with the declared type. */
  predicate Fits(bytes: seq<byte>, limit: nat, declared: Option<string>, isSpace: char -> bool) {
    |bytes| <= limit && BytesAgree(bytes, declared, isSpace)
  }

  lemma AgreeOnHead(part: seq<byte>, whole: seq<byte>, declared: Option<string>, isSpace: char -> bool)
    requires part <= whole && (part == whole || |part| >= SUGGESTED_HEAD_BYTES)
    ensures BytesAgree(Head(part), declared, isSpace) <==> BytesAgree(whole, declared, isSpace)
  {
    assert Head(part) == Head(whole);
    SniffingTheHeadIsEnough(whole);
  }

  lemma HeadExtends(parts: seq<byte>, chunk: seq<byte>)
    ensures var head := Head(parts);
            && (|head| < SUGGESTED_HEAD_BYTES ==>
                head + chunk[..Min(SUGGESTED_HEAD_BYTES - |head|, |chunk|)] == Head(parts + chunk))
            && (|head| >= SUGGESTED_HEAD_BYTES ==> head == Head(parts + chunk))
  {
  }

  lemma HeadIsShort(bytes: seq<byte>)
    ensures |Head(bytes)| == Min(|bytes|, SUGGESTED_HEAD_BYTES)
  {
  }

  lemma NothingYet(arrivals: seq<Arrival>)
    ensures Joined(arrivals[..0]) == [] && Clean(arrivals[..0]) && Head([]) == []
    ensures Joined(arrivals[..0]) <= Joined(arrivals)
  {
  }

  lemma NextIsClean(arrivals: seq<Arrival>, i: nat)
    requires i < |arrivals|
    ensures arrivals[i] in arrivals && (Clean(arrivals) ==> arrivals[i].Chunk? && arrivals[i].room)
    ensures Clean(arrivals[..i]) && arrivals[i].Chunk? && arrivals[i].room ==> Clean(arrivals[..i + 1])
  {
  }

  lemma JoinedNext(arrivals: seq<Arrival>, i: nat)
    requires i < |arrivals|
    ensures Joined(arrivals[..i + 1]) == Joined(arrivals[..i]) + if arrivals[i].Chunk? then arrivals[i].bytes else []
  {
    hide Joined;
    assert arrivals[..i + 1] == arrivals[..i] + [arrivals[i]];
    JoinedAppend(arrivals[..i], arrivals[i]);
  }

  /**
   Chunking independence. Over a stream that arrives whole, the upload is accepted exactly when one
   check of all its bytes would accept it, however they were cut up, and then what was written is
   those bytes. Otherwise each refusal is deserved, and a file refused for its contents is refused
   before anything past the chunk that completed its head is written.
   */
  method StreamUpload(arrivals: seq<Arrival>, writer: UploadWriter, declared: Option<string>, isSpace: char -> bool)
    returns (result: Result<(), UploadError>)
    requires writer.Valid() && writer.parts == []
    modifies writer
    ensures writer.Valid() && writer.parts <= Joined(arrivals)
    ensures result.Ok? <==> Clean(arrivals) && Fits(Joined(arrivals), writer.limit, declared, isSpace)
    ensures result.Ok? ==> writer.parts == Joined(arrivals) && writer.written == |Joined(arrivals)|
    ensures result == Err(TooLarge) ==>
              |Joined(arrivals)| > writer.limit || (Broken in arrivals && |writer.parts| == writer.limit)
    ensures result == Err(Rejected) ==> !BytesAgree(Joined(arrivals), declared, isSpace)
    ensures result == Err(Rejected) && |Joined(arrivals)| >= SUGGESTED_HEAD_BYTES ==>
              exists i :: 0 <= i < |arrivals| && |Joined(arrivals[..i])| < SUGGESTED_HEAD_BYTES
                  && writer.parts == Joined(arrivals[..i + 1])
    ensures result == Err(Internal) ==> !Clean(arrivals)
  {
    hide Sniff, IsConsistentWith, BytesAgree, Head, Joined, Clean;
    NothingYet(arrivals);
    var head: seq<byte> := [];
    var inspected := false;
    var i := 0;
    while i < |arrivals|
      invariant 0 <= i <= |arrivals| && writer.Valid()
      invariant Clean(arrivals[..i]) && writer.parts == Joined(arrivals[..i])
      invariant head == Head(writer.parts)
      invariant inspected <==> |head| >= SUGGESTED_HEAD_BYTES
      invariant inspected ==> BytesAgree(head, declared, isSpace)
    {
      JoinedNext(arrivals, i);
      JoinedPrefix(arrivals, i);
      JoinedPrefix(arrivals, i + 1);
      NextIsClean(arrivals, i);
      HeadIsShort(writer.parts);
      if arrivals[i].Broken? {
        return Err(if writer.written >= writer.limit then TooLarge else Internal);
      }
      var chunk := arrivals[i].bytes;
      HeadExtends(writer.parts, chunk);
      HeadIsShort(writer.parts + chunk);
      if |head| < SUGGESTED_HEAD_BYTES {
        var take := Min(SUGGESTED_HEAD_BYTES - |head|, |chunk|);
        head := head + chunk[..take];
      }
      var wrote := writer.Write(chunk, arrivals[i].room);
      if wrote.Err? {
        return Err(wrote.error);
      }
      if !inspected && |head| >= SUGGESTED_HEAD_BYTES {
        AgreeOnHead(writer.parts, Joined(arrivals), declared, isSpace);
        if !BytesAgree(head, declared, isSpace) {
          return Err(Rejected);
        }
        inspected := true;
      }
      i := i + 1;
    }
    assert arrivals[..i] == arrivals;
    HeadIsShort(writer.parts);
    AgreeOnHead(writer.parts, Joined(arrivals), declared, isSpace);
    if !inspected && !BytesAgree(head, declared, isSpace) {
      return Err(Rejected);
    }
    result := Ok(());
  }
}
