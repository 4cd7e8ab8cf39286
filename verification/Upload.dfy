/** Bounded multipart upload of a stream read in arbitrary fragments. */
module Upload {
  import opened Common

  type Bytes = seq<bv8>

  const UPLOAD_PART_SIZE: nat := 8 * 1024 * 1024
  const MAX_UPLOAD_BYTES: nat := 1_073_741_824

  // ---------------------------------------------------------------------
  // The source
  // ---------------------------------------------------------------------

  datatype Reply = Chunk(data: Bytes) | ReadFails

  /** What is left to read: the fragments up to the end or a failure. */
  function Content(replies: seq<Reply>): Bytes
    decreases |replies|
  {
    if replies == [] || replies[0].ReadFails? || replies[0].data == [] then []
    else replies[0].data + Content(replies[1..])
  }

  predicate Ended(replies: seq<Reply>) {
    replies == [] || replies[0] == Chunk([])
  }

  /** No read fails or returns more than was asked for, when the part being read
      has `room` bytes left. */
  predicate WellBehaved(replies: seq<Reply>, room: nat)
    decreases |replies|
  {
    if Ended(replies) then true
    else
      && replies[0].Chunk? && |replies[0].data| <= room
      && WellBehaved(replies[1..], if |replies[0].data| == room then UPLOAD_PART_SIZE else room - |replies[0].data|)
  }

  datatype Hazard = NoHazard | Failing | Oversized

  /** What goes wrong first while a part with `room` bytes left is being read. */
  function PartHazard(replies: seq<Reply>, room: nat): Hazard
    decreases |replies|
  {
    if Ended(replies) || room == 0 then NoHazard
    else if replies[0].ReadFails? then Failing
    else if |replies[0].data| > room then Oversized
    else PartHazard(replies[1..], room - |replies[0].data|)
  }

  /** Each read takes the next fragment whatever its size; the end is final. */
  class Source {
    var replies: seq<Reply>
    /** How many bytes have been handed out. */
    var pulled: nat

    constructor (replies: seq<Reply>)
      ensures this.replies == replies && pulled == 0
    {
      this.replies, pulled := replies, 0;
    }

    method Read() returns (reply: Reply)
      modifies this
      ensures Ended(old(replies)) ==> reply == Chunk([]) && replies == old(replies)
      ensures !Ended(old(replies)) ==> reply == old(replies)[0] && replies == old(replies)[1..]
      ensures pulled == old(pulled) + if reply.Chunk? then |reply.data| else 0
    {
      if replies == [] || replies[0] == Chunk([]) {
        return Chunk([]);
      }
      reply := replies[0];
      replies := replies[1..];
      if reply.Chunk? {
        pulled := pulled + |reply.data|;
      }
    }
  }

  // ---------------------------------------------------------------------
  // The storage service
  // ---------------------------------------------------------------------

  datatype Part = Part(number: nat, body: Bytes)

  /** A call may be refused, or take effect without the caller being told. */
  datatype Fault = NoFault | Refused | LostReply

  predicate NoFaults(faults: seq<Fault>) {
    forall f :: f in faults ==> f == NoFault
  }

  predicate Fewer(before: seq<Fault>, after: seq<Fault>) {
    forall f :: f in after ==> f in before
  }

  predicate Drawn(fault: Fault, before: seq<Fault>, after: seq<Fault>) {
    (fault != NoFault ==> fault in before) && Fewer(before, after)
  }

  function Bodies(parts: seq<Part>): Bytes {
    if parts == [] then [] else Bodies(parts[..|parts| - 1]) + parts[|parts| - 1].body
  }

  class S3Client {
    /** Completed objects as the parts they were assembled from. */
    var objects: map<Text, seq<Part>>
    /** Open multipart uploads. */
    var uploads: map<nat, seq<Part>>
    var nextUpload: nat
    /** What happens to the coming calls; nothing once the list is used up. */
    var faults: seq<Fault>
    /** The uploads of which a caller was told the id, and those it asked to abort. */
    var toldIds: seq<nat>
    var abortedIds: seq<nat>

    ghost predicate Valid()
      reads this
    {
      forall id :: id in uploads ==> id < nextUpload
    }

    constructor (faults: seq<Fault>)
      ensures Valid() && objects == map[] && uploads == map[] && this.faults == faults
      ensures toldIds == [] && abortedIds == []
    {
      toldIds, abortedIds := [], [];
      objects, uploads, nextUpload := map[], map[], 0;
      this.faults := faults;
    }

    method NextFault() returns (fault: Fault)
      modifies `faults
      ensures Drawn(fault, old(faults), faults)
    {
      if faults == [] {
        return NoFault;
      }
      fault := faults[0];
      faults := faults[1..];
    }

    method PutObject(key: Text, body: Bytes) returns (fault: Fault)
      requires Valid()
      modifies `faults, `objects
      ensures Valid() && Drawn(fault, old(faults), faults)
      ensures objects == if fault == Refused then old(objects)
                         else old(objects)[key := if body == [] then [] else [Part(1, body)]]
    {
      fault := NextFault();
      if fault != Refused {
        objects := objects[key := if body == [] then [] else [Part(1, body)]];
      }
    }

    method CreateMultipartUpload() returns (fault: Fault, id: nat)
      requires Valid()
      modifies `faults, `uploads, `nextUpload, `toldIds
      ensures Valid() && Drawn(fault, old(faults), faults)
      ensures toldIds == old(toldIds) + if fault == NoFault then [id] else []
      ensures id !in old(uploads) && uploads == if fault == Refused then old(uploads) else old(uploads)[id := []]
    {
      fault := NextFault();
      id := nextUpload;
      if fault == NoFault {
        toldIds := toldIds + [id];
      }
      if fault != Refused {
        uploads := uploads[id := []];
        nextUpload := nextUpload + 1;
      }
    }

    method UploadPart(id: nat, number: nat, body: Bytes) returns (fault: Fault)
      requires Valid() && id in uploads
      modifies `faults, `uploads
      ensures Valid() && Drawn(fault, old(faults), faults)
      ensures uploads == if fault == Refused then old(uploads)
                         else old(uploads)[id := old(uploads)[id] + [Part(number, body)]]
    {
      fault := NextFault();
      if fault != Refused {
        uploads := uploads[id := uploads[id] + [Part(number, body)]];
      }
    }

    /** Assembles the object from the parts with the listed numbers. */
    method CompleteMultipartUpload(key: Text, id: nat, numbers: seq<nat>) returns (fault: Fault)
      requires Valid() && id in uploads
      requires |numbers| == |uploads[id]|
      requires forall k :: 0 <= k < |numbers| ==> uploads[id][k].number == numbers[k]
      modifies `faults, `uploads, `objects
      ensures Valid() && Drawn(fault, old(faults), faults)
      ensures uploads == if fault == Refused then old(uploads) else old(uploads) - {id}
      ensures objects == if fault == Refused then old(objects) else old(objects)[key := old(uploads)[id]]
    {
      fault := NextFault();
      if fault != Refused {
        objects := objects[key := uploads[id]];
        uploads := uploads - {id};
      }
    }

    method AbortMultipartUpload(id: nat)
      requires Valid()
      modifies `faults, `uploads, `abortedIds
      ensures Valid() && Fewer(old(faults), faults) && abortedIds == old(abortedIds) + [id]
      ensures uploads == old(uploads) - {id} || (uploads == old(uploads) && Refused in old(faults))
    {
      abortedIds := abortedIds + [id];
      var fault := NextFault();
      if fault != Refused {
        uploads := uploads - {id};
      }
    }
  }

  // ---------------------------------------------------------------------
  // The upload
  // ---------------------------------------------------------------------

  datatype PartRead = Read(part: Bytes) | TooMuch | Raised

  /** `digested` are the bytes the checksum was computed over. */
  datatype UploadResult =
    | Uploaded(size: nat, digested: Bytes)
    | FileTooLarge
    | StorageUnavailable
    | SourceRaised

  /** Numbered from 1, all full but the last, which is not empty. */
  ghost predicate WellNumbered(parts: seq<Part>) {
    forall k :: 0 <= k < |parts| ==>
      && parts[k].number == k + 1
      && 0 < |parts[k].body| <= UPLOAD_PART_SIZE
      && (k < |parts| - 1 ==> |parts[k].body| == UPLOAD_PART_SIZE)
  }

  method ReadPart(source: Source) returns (result: PartRead)
    modifies source
    ensures result.Read? ==>
              && Content(old(source.replies)) == result.part + Content(source.replies)
              && |result.part| <= UPLOAD_PART_SIZE
              && (|result.part| < UPLOAD_PART_SIZE ==> Ended(source.replies))
    ensures match PartHazard(old(source.replies), UPLOAD_PART_SIZE)
            case NoHazard => result.Read?
            case Failing => result.Raised?
            case Oversized => result.TooMuch?
    ensures !result.TooMuch? ==> source.pulled <= old(source.pulled) + UPLOAD_PART_SIZE
    ensures result.Read? ==> source.pulled == old(source.pulled) + |result.part|
    ensures if WellBehaved(old(source.replies), UPLOAD_PART_SIZE)
            then result.Read? && WellBehaved(source.replies, UPLOAD_PART_SIZE)
            else result.Read? ==> !WellBehaved(source.replies, UPLOAD_PART_SIZE)
  {
    var part: Bytes := [];
    ghost var all := Content(source.replies);
    ghost var well := WellBehaved(source.replies, UPLOAD_PART_SIZE);
    ghost var hazard := PartHazard(source.replies, UPLOAD_PART_SIZE);
    assert [] + all == all;
    while |part| < UPLOAD_PART_SIZE
      invariant |part| <= UPLOAD_PART_SIZE
      invariant all == part + Content(source.replies) && source.pulled == old(source.pulled) + |part|
      invariant hazard == PartHazard(source.replies, UPLOAD_PART_SIZE - |part|)
      invariant well == WellBehaved(source.replies, if |part| == UPLOAD_PART_SIZE then UPLOAD_PART_SIZE
                                                    else UPLOAD_PART_SIZE - |part|)
      decreases |source.replies|, UPLOAD_PART_SIZE - |part|
    {
      var requested := UPLOAD_PART_SIZE - |part|;
      ghost var rest := Content(source.replies);
      var reply := source.Read();
      if reply.ReadFails? {
        return Raised;
      }
      if reply.data == [] {
        break;
      }
      if |reply.data| > requested {
        return TooMuch;
      }
      assert part + (reply.data + Content(source.replies)) == (part + reply.data) + Content(source.replies);
      part := part + reply.data;
    }
    result := Read(part);
  }

  lemma BodiesSnoc(parts: seq<Part>, part: Part)
    ensures Bodies(parts + [part]) == Bodies(parts) + part.body
  {
    assert (parts + [part])[..|parts|] == parts;
  }

  function Numbers(parts: seq<Part>): seq<nat> {
    seq(|parts|, k requires 0 <= k < |parts| => parts[k].number)
  }

  /** `sent` are the parts of `all` that precede `rest`. */
  ghost predicate Sent(sent: seq<Part>, all: Bytes, rest: Bytes) {
    WellNumbered(sent) && all == Bodies(sent) + rest
  }

  lemma NumberedNext(sent: seq<Part>, part: Bytes)
    requires WellNumbered(sent) && AllFull(sent) && 0 < |part| <= UPLOAD_PART_SIZE
    ensures WellNumbered(sent + [Part(|sent| + 1, part)])
    ensures Numbers(sent + [Part(|sent| + 1, part)]) == Numbers(sent) + [|sent| + 1]
  {
    var next := sent + [Part(|sent| + 1, part)];
    assert forall k :: 0 <= k < |sent| ==> next[k] == sent[k];
    assert next[|sent|] == Part(|sent| + 1, part);
  }

  /** After a part of the next bytes: when more is to come the part is full. */
  lemma SendNext(sent: seq<Part>, all: Bytes, part: Bytes, rest: Bytes)
    requires Sent(sent, all, part + rest) && 0 < |part| <= UPLOAD_PART_SIZE
    requires AllFull(sent)
    ensures Sent(sent + [Part(|sent| + 1, part)], all, rest)
    ensures Numbers(sent + [Part(|sent| + 1, part)]) == Numbers(sent) + [|sent| + 1]
  {
    BodiesSnoc(sent, Part(|sent| + 1, part));
    NumberedNext(sent, part);
    assert Bodies(sent) + (part + rest) == Bodies(sent) + part + rest;
  }

  datatype Streamed = AllParts(size: nat, numbers: seq<nat>, digested: Bytes) | OverLimit | Failed

  ghost predicate AllFull(parts: seq<Part>) {
    forall k :: 0 <= k < |parts| ==> |parts[k].body| == UPLOAD_PART_SIZE
  }

  method SendPart(client: S3Client, id: nat, number: nat, part: Bytes, ghost all: Bytes, ghost rest: Bytes)
    returns (ok: bool)
    requires client.Valid() && id in client.uploads && number == |client.uploads[id]| + 1
    requires Sent(client.uploads[id], all, part + rest) && AllFull(client.uploads[id])
    requires 0 < |part| <= UPLOAD_PART_SIZE
    modifies client`faults, client`uploads
    ensures client.Valid() && Fewer(old(client.faults), client.faults) && (!ok ==> !NoFaults(old(client.faults)))
    ensures id in client.uploads && client.uploads - {id} == old(client.uploads) - {id}
    ensures ok ==>
              var sent, sent' := old(client.uploads)[id], client.uploads[id];
              && sent' == sent + [Part(number, part)] && Sent(sent', all, rest)
              && Bodies(sent') == Bodies(sent) + part && Numbers(sent') == Numbers(sent) + [number]
  {
    SendNext(client.uploads[id], all, part, rest);
    BodiesSnoc(client.uploads[id], Part(number, part));
    var fault := client.UploadPart(id, number, part);
    ok := fault == NoFault;
  }

  /** The loop over the parts of an open upload. */
  method StreamParts(client: S3Client, id: nat, first: Bytes, source: Source, maxBytes: nat) returns (result: Streamed)
    requires client.Valid() && id in client.uploads && client.uploads[id] == []
    requires 0 < |first| <= UPLOAD_PART_SIZE && (|first| < UPLOAD_PART_SIZE ==> Ended(source.replies))
    modifies client`faults, client`uploads, source
    ensures client.Valid() && Fewer(old(client.faults), client.faults)
    ensures id in client.uploads && client.uploads - {id} == old(client.uploads) - {id}
    ensures var all := first + Content(old(source.replies));
            match result
            case AllParts(size, numbers, digested) =>
              && Sent(client.uploads[id], all, []) && numbers == Numbers(client.uploads[id])
              && size == |all| <= maxBytes && digested == all
            case OverLimit => |all| > maxBytes
            case Failed => !(NoFaults(old(client.faults)) && WellBehaved(old(source.replies), UPLOAD_PART_SIZE))
    ensures WellBehaved(old(source.replies), UPLOAD_PART_SIZE) || !result.Failed? ==>
              source.pulled <= old(source.pulled) - |first| + maxBytes + UPLOAD_PART_SIZE
  {
    ghost var all, others := first + Content(source.replies), client.uploads - {id};
    ghost var start, well := source.pulled - |first|, WellBehaved(source.replies, UPLOAD_PART_SIZE);
    ghost var sent: seq<Part> := [];
    var numbers: seq<nat>, digested: Bytes, total: nat, partNumber: nat := [], [], 0, 1;
    var part := first;
    assert Bodies(sent) + (first + Content(source.replies)) == all;
    while part != []
      invariant client.Valid() && Fewer(old(client.faults), client.faults)
      invariant id in client.uploads && client.uploads[id] == sent && client.uploads - {id} == others
      invariant Sent(sent, all, part + Content(source.replies)) && (part != [] ==> AllFull(sent))
      invariant |part| <= UPLOAD_PART_SIZE && (|part| < UPLOAD_PART_SIZE ==> Ended(source.replies))
      invariant numbers == Numbers(sent) && partNumber == |sent| + 1
      invariant digested == Bodies(sent) && total == |digested| <= maxBytes
      invariant source.pulled == start + total + |part|
      invariant WellBehaved(source.replies, UPLOAD_PART_SIZE) == well
      decreases |all| - total
    {
      total := total + |part|;
      if total > maxBytes {
        return OverLimit;
      }
      digested := digested + part;
      var ok := SendPart(client, id, partNumber, part, all, Content(source.replies));
      if !ok {
        return Failed;
      }
      sent := client.uploads[id];
      numbers := numbers + [partNumber];
      partNumber := partNumber + 1;
      var read := ReadPart(source);
      if !read.Read? {
        return Failed;
      }
      part := read.part;
    }
    assert part + Content(source.replies) == [] && Bodies(sent) + [] == Bodies(sent);
    result := AllParts(total, numbers, digested);
  }

  /** Stored as the whole content, under the promised size and checksum. */
  ghost predicate StoredWhole(result: UploadResult, content: Bytes, maxBytes: nat,
                              before: map<Text, seq<Part>>, after: map<Text, seq<Part>>, key: Text) {
    && result == Uploaded(|content|, content) && (|content| <= maxBytes || content == [])
    && key in after && after == before[key := after[key]]
    && WellNumbered(after[key]) && Bodies(after[key]) == content
  }

  /** Unless the upload has returned, the abort of every upload that the caller was told
      of meanwhile has been asked for, and of no other. */
  predicate AbortedOnError(told: seq<nat>, toldNow: seq<nat>, aborted: seq<nat>, abortedNow: seq<nat>,
                           result: UploadResult) {
    told <= toldNow && abortedNow == aborted + if result.Uploaded? then [] else toldNow[|told|..]
  }

  /** The upload of a source that does not begin with its end. */
  method UploadParts(client: S3Client, key: Text, first: Bytes, source: Source, maxBytes: nat)
    returns (result: UploadResult)
    requires client.Valid()
    requires 0 < |first| <= UPLOAD_PART_SIZE && (|first| < UPLOAD_PART_SIZE ==> Ended(source.replies))
    modifies client, source
    ensures client.Valid()
    ensures var all := first + Content(old(source.replies));
            match result
            case Uploaded(_, _) => StoredWhole(result, all, maxBytes, old(client.objects), client.objects, key)
            case FileTooLarge => |all| > maxBytes && client.objects == old(client.objects)
            case StorageUnavailable =>
              && (LostReply !in old(client.faults) ==> client.objects == old(client.objects))
              && !(NoFaults(old(client.faults)) && WellBehaved(old(source.replies), UPLOAD_PART_SIZE))
            case SourceRaised => false
    ensures NoFaults(old(client.faults)) ==> client.uploads == old(client.uploads)
    ensures AbortedOnError(old(client.toldIds), client.toldIds, old(client.abortedIds), client.abortedIds, result)
    ensures WellBehaved(old(source.replies), UPLOAD_PART_SIZE) || result.FileTooLarge? || result.Uploaded? ==>
              source.pulled <= old(source.pulled) - |first| + maxBytes + UPLOAD_PART_SIZE
  {
    var fault, id := client.CreateMultipartUpload();
    if fault != NoFault {
      return StorageUnavailable;
    }
    assert client.toldIds[|old(client.toldIds)|..] == [id];
    var streamed := StreamParts(client, id, first, source, maxBytes);
    match streamed {
      case OverLimit =>
        client.AbortMultipartUpload(id);
        result := FileTooLarge;
      case Failed =>
        client.AbortMultipartUpload(id);
        result := StorageUnavailable;
      case AllParts(size, numbers, digested) =>
        var completed := client.CompleteMultipartUpload(key, id, numbers);
        if completed != NoFault {
          client.AbortMultipartUpload(id);
          return StorageUnavailable;
        }
        result := Uploaded(size, digested);
    }
  }

  /** For every fragmentation of the source: an upload that returns has stored the
      content in numbered parts; one that raises has completed no object, unless the
      service lost its reply. Without faults the limit alone decides, and no more
      than one part beyond it is read. */
  method UploadStream(client: S3Client, key: Text, source: Source, maxBytes: nat) returns (result: UploadResult)
    requires client.Valid()
    modifies client, source
    ensures client.Valid()
    ensures var content := Content(old(source.replies));
            match result
            case Uploaded(_, _) => StoredWhole(result, content, maxBytes, old(client.objects), client.objects, key)
            case FileTooLarge => |content| > maxBytes && client.objects == old(client.objects)
            case _ =>
              && (LostReply !in old(client.faults) ==> client.objects == old(client.objects))
              && !(NoFaults(old(client.faults)) && WellBehaved(old(source.replies), UPLOAD_PART_SIZE))
    ensures result.SourceRaised? <==> PartHazard(old(source.replies), UPLOAD_PART_SIZE) == Failing
    ensures NoFaults(old(client.faults)) ==> client.uploads == old(client.uploads)
    ensures AbortedOnError(old(client.toldIds), client.toldIds, old(client.abortedIds), client.abortedIds, result)
    ensures WellBehaved(old(source.replies), UPLOAD_PART_SIZE) || result.FileTooLarge? || result.Uploaded? ==>
              source.pulled <= old(source.pulled) + maxBytes + UPLOAD_PART_SIZE
  {
    var read := ReadPart(source);
    if read.TooMuch? {
      return StorageUnavailable;
    }
    if read.Raised? {
      return SourceRaised;
    }
    if read.part != [] {
      result := UploadParts(client, key, read.part, source, maxBytes);
      return;
    }
    var fault := client.PutObject(key, []);
    if fault != NoFault {
      return StorageUnavailable;
    }
    result := Uploaded(0, []);
  }

  // ---------------------------------------------------------------------
  // Parts and sizes
  // ---------------------------------------------------------------------

  lemma {:induction false} SizeOfParts(parts: seq<Part>)
    requires WellNumbered(parts) && parts != []
    ensures (|parts| - 1) * UPLOAD_PART_SIZE < |Bodies(parts)| <= |parts| * UPLOAD_PART_SIZE
  {
    var init := parts[..|parts| - 1];
    if init != [] {
      assert WellNumbered(init);
      FullParts(init);
    }
  }

  lemma {:induction false} FullParts(parts: seq<Part>)
    requires AllFull(parts)
    ensures |Bodies(parts)| == |parts| * UPLOAD_PART_SIZE
  {
    if parts != [] {
      FullParts(parts[..|parts| - 1]);
    }
  }

  /** The number of parts is the size divided by the part size, rounded up; a
      content of 1 GiB takes 128. */
  lemma PartCount(parts: seq<Part>)
    requires WellNumbered(parts)
    ensures |parts| == (|Bodies(parts)| + UPLOAD_PART_SIZE - 1) / UPLOAD_PART_SIZE
    ensures |Bodies(parts)| <= MAX_UPLOAD_BYTES ==> |parts| <= 128
  {
    if parts != [] {
      SizeOfParts(parts);
    }
  }
}
