/** The composite key: two big-endian length bytes, the hash key, the sort key. */
module KeyCodec {

  import opened Bytes

  const UINT16 := 0x1_0000

  function LengthBytes(n: nat): ByteString
  {
    [n % UINT16 / 256, n % 256]
  }

  function Encode(hashKey: ByteString, sortKey: ByteString): ByteString
  {
    LengthBytes(|hashKey|) + hashKey + sortKey
  }

  /** Go's `copy(dst[at:], src)` where `src` fits. */
  method CopyInto(dst: array<Byte>, at: nat, src: ByteString)
    requires at + |src| <= dst.Length
    modifies dst
    ensures dst[..] == old(dst[..at]) + src + old(dst[at + |src|..])
  {
    ghost var was := dst[..];
    for i := 0 to |src|
      invariant dst[..at] == was[..at]
      invariant dst[at..at + i] == src[..i]
      invariant dst[at + i..] == was[at + i..]
    {
      dst[at + i] := src[i];
    }
    assert dst[..] == dst[..at] + dst[at..at + |src|] + dst[at + |src|..];
  }

  /** The buffer is filled in place: length, hash key, sort key. */
  method EncodeHashKeySortKey(hashKey: ByteString, sortKey: ByteString) returns (data: array<Byte>)
    ensures fresh(data)
    ensures data[..] == Encode(hashKey, sortKey)
  {
    data := new Byte[2 + |hashKey| + |sortKey|](_ => 0);
    CopyInto(data, 0, LengthBytes(|hashKey|));
    assert data[..2] == LengthBytes(|hashKey|);
    if |hashKey| > 0 {
      CopyInto(data, 2, hashKey);
    }
    assert data[..2 + |hashKey|] == LengthBytes(|hashKey|) + hashKey;
    if |sortKey| > 0 {
      CopyInto(data, 2 + |hashKey|, sortKey);
    }
  }

  /** What restoring a key can come to. The end of the hash key is computed in 16 bits, so
      it can wrap below its start, which panics in the slice expression. */
  datatype Restored =
    | Keys(hashKey: ByteString, sortKey: ByteString)
    | Malformed
    | SlicePanic

  /** The big-endian 16-bit length at the front of a key. */
  function LengthField(key: ByteString): nat
    requires |key| >= 2
  {
    var high: int := key[0];
    high * 256 + key[1]
  }

  function Restore(key: ByteString): Restored
  {
    if |key| < 2 then Malformed
    else
      var hashKeyLen := LengthField(key);
      var end := (2 + hashKeyLen) % UINT16;
      if hashKeyLen == 0xFFFF || end > |key| then Malformed
      else if end < 2 then SlicePanic
      else Keys(key[2..end], key[end..])
  }

  lemma EncodeParts(hashKey: ByteString, sortKey: ByteString)
    ensures var key := Encode(hashKey, sortKey);
            && |key| == 2 + |hashKey| + |sortKey|
            && LengthField(key) == |hashKey| % UINT16
            && key[2..2 + |hashKey|] == hashKey && key[2 + |hashKey|..] == sortKey
  {
    var key := Encode(hashKey, sortKey);
    var n := |hashKey| % UINT16;
    assert key[0] == n / 256 && key[1] == |hashKey| % 256 == n % 256;
  }

  lemma LengthFieldBytes(key: ByteString)
    requires |key| >= 2
    ensures LengthField(key) < UINT16 && LengthBytes(LengthField(key)) == [key[0], key[1]]
  {
    var n := LengthField(key);
    assert n % UINT16 == n && n / 256 == key[0] && n % 256 == key[1];
  }

  lemma RestoredParts(key: ByteString)
    requires Restore(key).Keys?
    ensures |key| >= 2 && LengthField(key) <= 65533
    ensures |Restore(key).hashKey| == LengthField(key)
    ensures key == [key[0], key[1]] + Restore(key).hashKey + Restore(key).sortKey
  {
    hide LengthField;
    LengthFieldBytes(key);
    var n := LengthField(key);
    assert (2 + n) % UINT16 == 2 + n;
    assert key == key[..2] + key[2..2 + n] + key[2 + n..];
  }

  /** A key that can be restored is the encoding of what it is restored to. */
  lemma EncodeRestored(key: ByteString)
    requires Restore(key).Keys?
    ensures |Restore(key).hashKey| <= 65533
    ensures key == Encode(Restore(key).hashKey, Restore(key).sortKey)
  {
    hide Restore, LengthField, LengthBytes;
    RestoredParts(key);
    LengthFieldBytes(key);
  }

  /** Restoring inverts encoding exactly for hash keys of at most 65533 bytes. */
  lemma RestoreEncode(hashKey: ByteString, sortKey: ByteString)
    ensures Restore(Encode(hashKey, sortKey)) == Keys(hashKey, sortKey) <==> |hashKey| <= 65533
    ensures |hashKey| == 65534 ==> Restore(Encode(hashKey, sortKey)) == SlicePanic
    ensures |hashKey| == 65535 ==> Restore(Encode(hashKey, sortKey)) == Malformed
  {
    hide Encode, LengthField;
    EncodeParts(hashKey, sortKey);
    var key := Encode(hashKey, sortKey);
    var n := LengthField(key);
    if n <= 65533 {
      assert Restore(key) == Keys(key[2..2 + n], key[2 + n..]);
      assert |key[2..2 + n]| == n;
    }
  }

  /** Over the hash keys the client admits (at most 65535 bytes) encoding is injective. */
  lemma EncodeInjective(h: ByteString, s: ByteString, h': ByteString, s': ByteString)
    requires |h| < UINT16 && |h'| < UINT16
    requires Encode(h, s) == Encode(h', s')
    ensures h == h' && s == s'
  {
    hide Encode, LengthField;
    EncodeParts(h, s);
    EncodeParts(h', s');
  }

  /** Under one hash key, the order of encoded keys is the order of sort keys. */
  lemma EncodeOrder(h: ByteString, s: ByteString, t: ByteString)
    ensures Less(Encode(h, s), Encode(h, t)) <==> Less(s, t)
    ensures Encode(h, s) == Encode(h, t) <==> s == t
    ensures Encode(h, s) <= Encode(h, t) <==> s <= t
  {
    var p := LengthBytes(|h|) + h;
    LessUnderPrefix(p, s, t);
    assert s == Encode(h, s)[|p|..] && t == Encode(h, t)[|p|..];
    if s <= t {
      assert t == s + t[|s|..];
      assert Encode(h, t) == Encode(h, s) + t[|s|..];
    }
    if Encode(h, s) <= Encode(h, t) {
      assert s == Encode(h, t)[|p|..|p| + |s|];
    }
  }

  /** Keys whose hash key extends `pattern` lie at or above the encoding of the bare pattern:
      the bound the server derives from a prefix filter on the hash key. */
  lemma HashPrefixFloor(pattern: ByteString, h: ByteString, s: ByteString)
    requires pattern <= h && |h| < UINT16
    ensures AtMost(Encode(pattern, []), Encode(h, s))
  {
    if |pattern| == |h| {
      assert pattern == h;
      PrefixAtMost(Encode(h, []), Encode(h, s));
    } else {
      var a, b := Encode(pattern, []), Encode(h, s);
      assert a[0] < b[0] || (a[0] == b[0] && a[1] < b[1]);
      assert a[1..][0] == a[1] && b[1..][0] == b[1];
    }
  }

  /** Whether some byte behind the length prefix can be incremented. */
  predicate Incrementable(key: ByteString)
  {
    exists i :: 2 <= i < |key| && key[i] != 0xFF
  }

  /** Increments the last byte behind the length prefix that is not 0xFF and cuts the key
      there; with no such byte only the length prefix is left. */
  function Successor(key: ByteString): ByteString
    requires |key| >= 2
  {
    var last := |key| - 1;
    if last < 2 then key
    else if key[last] != 0xFF then key[..last] + [key[last] + 1]
    else Successor(key[..last])
  }

  method EncodeNextBytesByKeys(hashKey: ByteString, sortKey: ByteString) returns (next: ByteString)
    ensures next == Successor(Encode(hashKey, sortKey))
  {
    var a := EncodeHashKeySortKey(hashKey, sortKey);
    ghost var key := a[..];
    var i := a.Length - 1;
    assert key[..i + 1] == key;
    while i >= 2
      invariant 1 <= i < a.Length && a[..] == key
      invariant Successor(key) == Successor(key[..i + 1])
    {
      assert key[..i + 1][..i] == key[..i];
      if a[i] != 0xFF {
        a[i] := a[i] + 1;
        assert a[..i + 1] == key[..i] + [key[i] + 1];
        break;
      }
      i := i - 1;
    }
    next := a[..i + 1];
  }

  /** A string between `p` and an extension of `p` extends `p`. */
  lemma {:induction false} BetweenExtends(p: ByteString, t: ByteString, x: ByteString)
    requires AtMost(p, x) && Less(x, p + t)
    ensures p <= x
  {
    if p != [] {
      assert (p + t)[1..] == p[1..] + t;
      if x[0] != p[0] {
        assert false;
      }
      BetweenExtends(p[1..], t, x[1..]);
      assert x == [x[0]] + x[1..] && p == [p[0]] + p[1..];
    }
  }

  lemma ExtensionsOfLastByte(p: ByteString, b: Byte, x: ByteString)
    requires b < 0xFF
    ensures p + [b] <= x <==> AtMost(p + [b], x) && Less(x, p + [b + 1])
  {
    if p + [b] <= x {
      PrefixAtMost(p + [b], x);
      var y := x[|p|..];
      assert x == p + y && y[0] == b;
      LessUnderPrefix(p, y, [b + 1]);
    }
    if AtMost(p + [b], x) && Less(x, p + [b + 1]) {
      PrefixAtMost(p, p + [b]);
      AtMostTransitive(p, p + [b], x);
      BetweenExtends(p, [b + 1], x);
      var y := x[|p|..];
      assert x == p + y;
      LessUnderPrefix(p, y, [b + 1]);
      LessUnderPrefix(p, [b], y);
      assert [b][1..] == [];
      assert y != [];
      assert y[0] == b;
    }
  }

  lemma {:induction false} ExtensionsBelowSuccessor(key: ByteString, x: ByteString)
    requires |key| >= 2 && Incrementable(key)
    ensures key <= x <==> AtMost(key, x) && Less(x, Successor(key))
  {
    var last := |key| - 1;
    var p := key[..last];
    assert key == p + [key[last]];
    if key[last] != 0xFF {
      ExtensionsOfLastByte(p, key[last], x);
    } else {
      var i :| 2 <= i < |key| && key[i] != 0xFF;
      assert p[i] != 0xFF;
      ExtensionsBelowSuccessor(p, x);
      PrefixAtMost(p, key);
      if key <= x {
        PrefixAtMost(key, x);
      }
      if AtMost(key, x) && Less(x, Successor(key)) {
        AtMostTransitive(p, key, x);
        var y := x[|p|..];
        assert x == p + y;
        LessUnderPrefix(p, [0xFF], y);
        assert y[0] == 0xFF;
      }
    }
  }

  lemma {:induction false} SuccessorWithoutIncrement(key: ByteString)
    requires |key| >= 2 && !Incrementable(key)
    ensures Successor(key) == key[..2]
  {
    if |key| > 2 {
      var p := key[..|key| - 1];
      assert forall i :: 2 <= i < |p| ==> p[i] == key[i];
      SuccessorWithoutIncrement(p);
    }
  }

  /** `x` extends `key` exactly if it lies between `key` and its successor. */
  ghost predicate ExtensionIsBetween(key: ByteString, x: ByteString)
    requires |key| >= 2
  {
    key <= x <==> AtMost(key, x) && Less(x, Successor(key))
  }

  /** The successor bounds exactly the extensions of a key, unless every byte behind the
      length prefix is 0xFF. */
  lemma SuccessorBoundsExtensions(key: ByteString)
    requires |key| >= 2
    ensures (forall x :: ExtensionIsBetween(key, x)) <==> Incrementable(key)
  {
    if Incrementable(key) {
      forall x: ByteString
        ensures ExtensionIsBetween(key, x)
      {
        ExtensionsBelowSuccessor(key, x);
      }
    } else {
      SuccessorWithoutIncrement(key);
      PrefixAtMost(key[..2], key);
      if Less(key, key[..2]) {
        LessAsymmetric(key, key[..2]);
      }
      assert !ExtensionIsBetween(key, key);
    }
  }
}
