/** The hash of a whole key blob in the three clients: each reads the length of the hash key
    off the first two bytes, in its own way. */
module BlobHash {

  import opened Bytes
  import opened Common
  import opened Crc64
  import opened KeyCodec
  import NodeCrc
  import PythonCrc
  import opened Routing
  import opened ScanRange

  /** Two bytes read as a signed big-endian number. */
  function SignedLength(key: ByteString): int
    requires |key| >= 2
  {
    var n := LengthField(key);
    if n < 0x8000 then n else n - UINT16
  }

  /** Node's key generation throws when the length does not fit a signed 16-bit number. */
  function NodeKey(hashKey: ByteString, sortKey: ByteString): Option<ByteString>
  {
    if |hashKey| > 0x7FFF then None else Some(Encode(hashKey, sortKey))
  }

  /** Node's hash of a blob; a negative length leaves its loop nothing to hash. */
  function NodeHash(key: ByteString): Option<nat>
  {
    if |key| < 2 then None
    else
      var hashLen := SignedLength(key);
      if hashLen == 0xFFFF || hashLen + 2 > |key| then None
      else if hashLen == 0 then Some(Hash(key[2..]))
      else if hashLen < 0 then Some(Hash([]))
      else Some(Hash(key[2..2 + hashLen]))
  }

  /** Python's hash of a blob, as an unsigned 64-bit value; the length is not limited to 16 bits. */
  function PythonHash(key: ByteString): Option<nat>
  {
    if |key| < 2 then None
    else
      var hashLen := LengthField(key);
      if hashLen == 0xFFFF || 2 + hashLen > |key| then None
      else if hashLen == 0 then Some(Hash(key[2..]))
      else Some(Hash(key[2..2 + hashLen]))
  }

  /** The part of a key that decides its partition. */
  function Hashed(hashKey: ByteString, sortKey: ByteString): ByteString
  {
    if hashKey == [] then sortKey else hashKey
  }

  /** Where each client finds the partition of a key: Go up to 65533 bytes of hash key, Python
      up to 65534, Node up to 32767; within these limits all hash the same bytes. */
  lemma BlobHashesAgree(hashKey: ByteString, sortKey: ByteString, count: nat)
    requires |hashKey| < UINT16 && count > 0
    ensures var key, hash := Encode(hashKey, sortKey), Hash(Hashed(hashKey, sortKey));
            && (|hashKey| <= 65533 ==> GetGpid(key, count) == Gpid(hash % count, hash))
            && (GetGpid(key, count).Gpid? <==> |hashKey| <= 65533)
            && PythonHash(key) == (if |hashKey| <= 65534 then Some(hash) else None)
            && (|hashKey| <= 0x7FFF ==> NodeHash(key) == Some(hash))
            && (NodeKey(hashKey, sortKey).Some? <==> |hashKey| <= 0x7FFF)
  {
    hide Encode, LengthField, Hash, GetGpid;
    EncodeParts(hashKey, sortKey);
    GpidOfEncoded(hashKey, sortKey, count);
  }

  /** Beyond Node's limit, which its key generation keeps it from reaching, the length would
      read as negative and the empty string be hashed. */
  lemma NodeHashBeyondLimit(hashKey: ByteString, sortKey: ByteString)
    requires 0x8000 <= |hashKey| < UINT16
    ensures NodeKey(hashKey, sortKey) == None && NodeHash(Encode(hashKey, sortKey)) == Some(Hash([]))
  {
    hide Encode, LengthField, Hash;
    EncodeParts(hashKey, sortKey);
  }

  lemma OctetsSlice(data: ByteString, from: nat, to: nat)
    requires from <= to <= |data|
    ensures Octets(data)[from..to] == Octets(data[from..to])
  {
    forall i | 0 <= i < to - from
      ensures Octets(data)[from..to][i] == Octets(data[from..to])[i]
    {
      assert data[from..to][i] == data[from + i];
    }
  }

  /** Go's lookup: the length in 16 bits, the slice, and the checksum by table. */
  method GoLookup(key: ByteString, count: nat, table: seq<bv64>) returns (r: Gpid)
    requires count > 0 && IsTable(table)
    ensures r == GetGpid(key, count)
  {
    hide Checksum, Value, IsTable;
    if |key| < 2 {
      return Unknown;
    }
    var hashKeyLen := LengthField(key);
    var end := (2 + hashKeyLen) % UINT16;
    if hashKeyLen == 0xFFFF || end > |key| {
      return Unknown;
    }
    if hashKeyLen != 0 && end < 2 {
      return LookupPanic;
    }
    var crc := TableChecksum(Octets(if hashKeyLen == 0 then key[2..] else key[2..end]), table);
    r := Gpid(GoIndex(Value(crc), count), Value(crc));
  }

  /** Node's lookup: the length as a signed number, the loop over the blob from byte 2, and the
      remainder of the signed hash, lifted. */
  method NodeLookup(key: ByteString, count: nat) returns (r: Option<int>)
    requires count > 0
    ensures r.Some? <==> NodeHash(key).Some?
    ensures r.Some? ==> r.value == Signed64(NodeHash(key).value) % count
  {
    hide Checksum, Value, LengthField;
    if |key| < 2 {
      return None;
    }
    var hashLen := SignedLength(key);
    if hashLen == 0xFFFF || hashLen + 2 > |key| {
      return None;
    }
    var n: nat := if hashLen == 0 then |key| - 2 else if hashLen < 0 then 0 else hashLen;
    OctetsSlice(key, 2, 2 + n);
    assert hashLen == 0 ==> key[2..2 + n] == key[2..];
    assert hashLen < 0 ==> key[2..2 + n] == [];
    var crc := NodeCrc.HashBuffer(Octets(key), 2, n);
    var index := NodeIndex(Signed64(Value(crc)), count);
    r := Some(index);
  }

  /** Python's lookup: the length as it is, the loop over a slice of the blob, and the remainder of
      the unbounded hash. */
  method PythonLookup(key: ByteString, count: int, table: seq<int>) returns (r: Option<int>)
    requires 0 < count <= PythonCrc.TWO64 && IsPartitionCountValid(count)
    requires |table| == 256 && forall i :: 0 <= i < 256 ==> table[i] == PythonCrc.PySteps(i, 8)
    ensures r == if PythonHash(key).None? then None else Some(PythonHash(key).value % count)
  {
    hide Checksum, Value, LengthField, PythonCrc.Agree, PythonCrc.PySteps, IsPartitionCountValid;
    if |key| < 2 {
      return None;
    }
    var hashLen := LengthField(key);
    if hashLen == 0xFFFF || 2 + hashLen > |key| {
      return None;
    }
    var n := if hashLen == 0 then |key| - 2 else hashLen;
    OctetsSlice(key, 2, 2 + n);
    assert hashLen == 0 ==> key[2..2 + n] == key[2..];
    assert PythonCrc.Slice(Octets(key), 2, n) == Octets(key)[2..2 + n];
    var hash := PythonCrc.HashSlice(Octets(key), 2, n, table);
    KeysRouteAlike(Octets(key[2..2 + n]), hash, count);
    r := Some(PythonIndex(hash, count));
  }

  /** One key, looked up in the three clients with their own loops, their own tables and their
      own remainders: within the limits of each it reaches the same partition, that of the CRC-64
      of its hash key, or of its sort key without one. */
  method OneKeyOnePartition(hashKey: ByteString, sortKey: ByteString, count: int, goTable: seq<bv64>, pythonTable: seq<int>)
    returns (go: Gpid, node: Option<int>, python: Option<int>)
    requires |hashKey| < UINT16 && 0 < count <= PythonCrc.TWO64 && IsPartitionCountValid(count)
    requires IsTable(goTable)
    requires |pythonTable| == 256 && forall i :: 0 <= i < 256 ==> pythonTable[i] == PythonCrc.PySteps(i, 8)
    ensures var hash := Value(Checksum(Octets(Hashed(hashKey, sortKey))));
            && (|hashKey| <= 65533 ==> go == Gpid(hash % count, hash))
            && (|hashKey| <= 65534 ==> python == Some(hash % count))
            && (|hashKey| <= 0x7FFF ==> node == Some(hash % count))
  {
    hide Checksum, Value, IsTable, Encode, PythonCrc.PySteps, IsPartitionCountValid, GetGpid, NodeHash, PythonHash;
    var key := Encode(hashKey, sortKey);
    BlobHashesAgree(hashKey, sortKey, count);
    go := GoLookup(key, count, goTable);
    node := NodeLookup(key, count);
    python := PythonLookup(key, count, pythonTable);
    SignedRoutesAlike(Octets(Hashed(hashKey, sortKey)), count);
  }

  /** The signed reading of a hash leads to the same partition. */
  lemma SignedRoutesAlike(key: seq<bv8>, count: int)
    requires 0 < count <= PythonCrc.TWO64 && IsPartitionCountValid(count)
    ensures Signed64(Value(Checksum(key))) % count == Value(Checksum(key)) % count
  {
    hide Checksum, Value, PythonCrc.Agree, IsPartitionCountValid;
    ValueAgrees(Checksum(key), 64);
    KeysRouteAlike(key, Value(Checksum(key)), count);
  }
}
