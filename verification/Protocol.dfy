/** The entries a log holds and their serialised payloads. */
module Protocol {
  import opened Bytes

  const SET_TAG: byte := 0x73
  const DEL_TAG: byte := 0x64
  const BEGIN_TAG: byte := 0x62
  const COMMIT_TAG: byte := 0x63

  type TxnId = n: nat | n < TWO_64

  type Key = Bytes
  type Value = Bytes

  datatype Entry =
    | Begin(id: TxnId)
    | Commit(id: TxnId)
    | Set(key: Key, value: Value)
    | Del(key: Key)

  function Blob(blob: Bytes): Bytes { SizeBytes(|blob|) + blob }

  function Encode(e: Entry): (r: Bytes)
    ensures r != []
  {
    match e
    case Begin(id) => [BEGIN_TAG] + NatBytes(id, 8)
    case Commit(id) => [COMMIT_TAG] + NatBytes(id, 8)
    case Set(key, value) => [SET_TAG] + Blob(key) + Blob(value)
    case Del(key) => [DEL_TAG] + Blob(key)
  }

  function ReadId(s: Bytes): TxnId
    requires |s| == 8
  {
    Pow256Values();
    ReadNatBound(s);
    ReadNat(s)
  }

  function ParseMarker(payload: Bytes, tag: byte): Option<TxnId>
  {
    if |payload| != 9 || payload[0] != tag then None else Some(ReadId(payload[1..]))
  }

  /** A length-prefixed blob at `offset`, and where the next field starts. */
  function ReadBlob(data: Bytes, offset: nat): (r: Option<(Bytes, nat)>)
    ensures r.Some? ==> offset + 4 <= r.value.1 <= |data|
  {
    if offset + 4 > |data| then None
    else
      var length, start := ReadSize(data, offset), offset + 4;
      if start + length > |data| then None else Some((data[start..start + length], start + length))
  }

  function DeserializeCommand(payload: Bytes): Option<Entry>
  {
    if payload == [] then None
    else if payload[0] == SET_TAG then
      match ReadBlob(payload, 1)
      case None => None
      case Some((key, next)) =>
        (match ReadBlob(payload, next)
         case None => None
         case Some((value, end)) => if end != |payload| then None else Some(Set(key, value)))
    else if payload[0] == DEL_TAG then
      match ReadBlob(payload, 1)
      case None => None
      case Some((key, end)) => if end != |payload| then None else Some(Del(key))
    else None
  }

  /** The order in which a payload is tried: begin marker, commit marker, command. */
  function Decode(payload: Bytes): Option<Entry>
  {
    match ParseMarker(payload, BEGIN_TAG)
    case Some(id) => Some(Begin(id))
    case None =>
      match ParseMarker(payload, COMMIT_TAG)
      case Some(id) => Some(Commit(id))
      case None => DeserializeCommand(payload)
  }

  // ----- Round trips.

  /** Blobs fit their 32-bit length field. */
  predicate Fits(e: Entry)
  {
    match e
    case Begin(_) => true
    case Commit(_) => true
    case Set(key, value) => |key| < TWO_32 && |value| < TWO_32
    case Del(key) => |key| < TWO_32
  }

  /** A number of `k` bytes lies at `o`, lowest byte first. */
  ghost predicate NumberAt(s: Bytes, o: nat, k: nat, n: nat)
  {
    o + k <= |s| && forall i | 0 <= i < k :: Pow256(i) > 0 && s[o + i] == n / Pow256(i) % 256
  }

  lemma NatBytesAre(n: nat, k: nat)
    ensures NumberAt(NatBytes(n, k), 0, k, n)
  {
    hide NatBytes, Pow256;
    forall i | 0 <= i < k ensures Pow256(i) > 0 && NatBytes(n, k)[i] == n / Pow256(i) % 256 {
      NatBytesAt(n, k, i);
    }
  }

  lemma NumberInside(before: Bytes, number: Bytes, after: Bytes, k: nat, n: nat)
    requires NumberAt(number, 0, k, n)
    ensures NumberAt(before + number + after, |before|, k, n)
  {
    hide Pow256;
    var s := before + number + after;
    forall i | 0 <= i < k ensures Pow256(i) > 0 && s[|before| + i] == n / Pow256(i) % 256 {
      assert s[|before| + i] == number[i];
    }
  }

  /** Where every byte of a payload lies: a letter, then numbers of eight bytes or fields with lengths of four. */
  lemma WireFormat(e: Entry)
    ensures var s := Encode(e);
            match e
            case Begin(id) => |s| == 9 && s[0] == 'b' as int && NumberAt(s, 1, 8, id)
            case Commit(id) => |s| == 9 && s[0] == 'c' as int && NumberAt(s, 1, 8, id)
            case Del(key) => |s| == 5 + |key| && s[0] == 'd' as int && NumberAt(s, 1, 4, |key|) && s[5..] == key
            case Set(key, value) =>
              && |s| == 9 + |key| + |value| && s[0] == 's' as int
              && NumberAt(s, 1, 4, |key|) && s[5..5 + |key|] == key
              && NumberAt(s, 5 + |key|, 4, |value|) && s[9 + |key|..] == value
  {
    hide NatBytes, NumberAt;
    var s := Encode(e);
    match e
    case Begin(id) =>
      NatBytesAre(id, 8);
      NumberInside([BEGIN_TAG], NatBytes(id, 8), [], 8, id);
      assert s == [BEGIN_TAG] + NatBytes(id, 8) + [];
    case Commit(id) =>
      NatBytesAre(id, 8);
      NumberInside([COMMIT_TAG], NatBytes(id, 8), [], 8, id);
      assert s == [COMMIT_TAG] + NatBytes(id, 8) + [];
    case Del(key) =>
      NatBytesAre(|key|, 4);
      NumberInside([DEL_TAG], SizeBytes(|key|), key, 4, |key|);
      assert s == [DEL_TAG] + SizeBytes(|key|) + key;
    case Set(key, value) =>
      NatBytesAre(|key|, 4);
      NatBytesAre(|value|, 4);
      var rest := key + Blob(value);
      NumberInside([SET_TAG], SizeBytes(|key|), rest, 4, |key|);
      assert s == [SET_TAG] + SizeBytes(|key|) + rest;
      var front := [SET_TAG] + SizeBytes(|key|) + key;
      NumberInside(front, SizeBytes(|value|), value, 4, |value|);
      assert s == front + SizeBytes(|value|) + value;
  }

  /** Reading a blob succeeds with `blob` exactly where its serialised form lies. */
  lemma ReadBlobExact(data: Bytes, o: nat, blob: Bytes)
    ensures ReadBlob(data, o) == Some((blob, o + 4 + |blob|))
       <==> |blob| < TWO_32 && o + 4 + |blob| <= |data| && data[o..o + 4 + |blob|] == Blob(blob)
  {
    hide ReadNat, SizeBytes;
    var end := o + 4 + |blob|;
    if end <= |data| {
      assert data[o..end] == data[o..o + 4] + data[o + 4..end];
      assert data[o..end][..4] == data[o..o + 4] && data[o..end][4..] == data[o + 4..end];
    }
    if ReadBlob(data, o) == Some((blob, end)) {
      SizeBytesOfRead(data, o);
    }
    if end <= |data| && data[o..end] == Blob(blob) {
      assert data[o..o + 4] == SizeBytes(|blob|);
      assert data[o + 4..end] == blob;
      SizeRoundTrip(|blob|);
    }
  }

  /** Decoding inverts encoding, on every entry whose blobs fit, and on nothing else. */
  lemma DecodeExact(payload: Bytes, e: Entry)
    ensures Decode(payload) == Some(e) <==> Fits(e) && payload == Encode(e)
  {
    hide ReadId, NatBytes, ReadBlob, Blob;
    match e
    case Begin(id) => MarkerExact(payload, BEGIN_TAG, id);
    case Commit(id) => MarkerExact(payload, COMMIT_TAG, id);
    case Del(key) => DelExact(payload, key);
    case Set(key, value) => SetExact(payload, key, value);
  }

  lemma MarkerExact(payload: Bytes, tag: byte, id: TxnId)
    ensures ParseMarker(payload, tag) == Some(id) <==> payload == [tag] + NatBytes(id, 8)
  {
    hide ReadNat, NatBytes, Pow256;
    Pow256Values();
    NatRoundTrip(id, 8);
    if |payload| == 9 {
      NatBytesOfRead(payload[1..]);
      assert payload == [payload[0]] + payload[1..];
    }
    assert ([tag] + NatBytes(id, 8))[1..] == NatBytes(id, 8);
  }

  lemma DelExact(payload: Bytes, key: Key)
    ensures DeserializeCommand(payload) == Some(Del(key)) <==> |key| < TWO_32 && payload == [DEL_TAG] + Blob(key)
  {
    hide ReadBlob, Blob;
    BlobLength(key);
    if |payload| == 5 + |key| {
      assert payload == [payload[0]] + payload[1..];
      assert payload[1..5 + |key|] == payload[1..];
    }
    assert ([DEL_TAG] + Blob(key))[1..] == Blob(key);
    ReadBlobExact(payload, 1, key);
    if DeserializeCommand(payload) == Some(Del(key)) {
      ReadBlobEnd(payload, 1);
    }
  }

  lemma BlobLength(blob: Bytes)
    ensures |Blob(blob)| == 4 + |blob|
  {
  }

  lemma ReadBlobEnd(data: Bytes, o: nat)
    requires ReadBlob(data, o).Some?
    ensures ReadBlob(data, o).value.1 == o + 4 + |ReadBlob(data, o).value.0|
  {
  }

  lemma SetExact(payload: Bytes, key: Key, value: Value)
    ensures DeserializeCommand(payload) == Some(Set(key, value))
       <==> |key| < TWO_32 && |value| < TWO_32 && payload == [SET_TAG] + Blob(key) + Blob(value)
  {
    hide ReadBlob, Blob;
    BlobLength(key);
    BlobLength(value);
    var mid, end := 5 + |key|, 9 + |key| + |value|;
    if |payload| == end {
      assert payload == [payload[0]] + payload[1..mid] + payload[mid..end];
    }
    var s := [SET_TAG] + Blob(key) + Blob(value);
    assert s[1..mid] == Blob(key) && s[mid..end] == Blob(value);
    ReadBlobExact(payload, 1, key);
    ReadBlobExact(payload, mid, value);
    if DeserializeCommand(payload) == Some(Set(key, value)) {
      ReadBlobEnd(payload, 1);
      ReadBlobEnd(payload, mid);
    }
  }
}
