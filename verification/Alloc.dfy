/** The object header that the table heap writes in front of every stored value (db/src/alloc.rs). */
module Alloc {
  import opened Bytes

  const TENANT_SIZE: nat := 4
  const TABLE_SIZE: nat := 8
  const KEY_LEN_SIZE: nat := 2
  const META_SIZE: nat := TENANT_SIZE + TABLE_SIZE + KEY_LEN_SIZE

  datatype Resolved = Resolved(key: Bytes, value: Bytes) | TooShort | OutOfRange

  /** Metadata, key and value of an object; the key length is cast to 16 bits. */
  function ObjectBytes(tenant: nat, table: nat, key: Bytes, val: Bytes): Bytes {
    LittleEndian(tenant, TENANT_SIZE) + LittleEndian(table, TABLE_SIZE) + LittleEndian(|key|, KEY_LEN_SIZE) + key + val
  }

  /** `Allocator::resolve`: the key and value views, `TooShort` for its `None`,
      `OutOfRange` where slicing past the object would panic. */
  function Resolve(obj: Bytes): Resolved {
    if |obj| < META_SIZE then TooShort
    else
      var keyLen: nat := obj[META_SIZE - 2] as int + obj[META_SIZE - 1] as int * 256;
      if META_SIZE + keyLen > |obj| then OutOfRange
      else Resolved(obj[META_SIZE..META_SIZE + keyLen], obj[META_SIZE + keyLen..])
  }

  /** `Allocator::object`: appends to a fresh buffer and returns a view of the key and the object. */
  method Object(tenant: nat, table: nat, key: Bytes, val: Bytes) returns (keyView: Bytes, obj: Bytes)
    ensures obj == ObjectBytes(tenant, table, key, val)
    ensures keyView == key
  {
    obj := LittleEndian(tenant, TENANT_SIZE);
    obj := obj + LittleEndian(table, TABLE_SIZE);
    obj := obj + LittleEndian(|key|, KEY_LEN_SIZE);
    obj := obj + key;
    obj := obj + val;
    keyView := obj[META_SIZE..META_SIZE + |key|];
  }

  /** The layout of an object: four bytes tenant, eight bytes table, two bytes key length, all with the least
      significant byte first, then the key and the value. */
  lemma ObjectLayout(tenant: nat, table: nat, key: Bytes, val: Bytes)
    ensures var obj := ObjectBytes(tenant, table, key, val);
            && |obj| == 14 + |key| + |val|
            && (forall i | 0 <= i < 4 :: obj[i] == tenant / Pow256(i) % 256)
            && (forall i | 0 <= i < 8 :: obj[4 + i] == table / Pow256(i) % 256)
            && obj[12] == |key| % 256 && obj[13] == |key| / 256 % 256
            && obj[14..14 + |key|] == key && obj[14 + |key|..] == val
  {
    var obj := ObjectBytes(tenant, table, key, val);
    forall i | 0 <= i < 4 ensures obj[i] == tenant / Pow256(i) % 256 { LittleEndianDigits(tenant, TENANT_SIZE, i); }
    forall i | 0 <= i < 8 ensures obj[4 + i] == table / Pow256(i) % 256 { LittleEndianDigits(table, TABLE_SIZE, i); }
    var field := LittleEndian(|key|, KEY_LEN_SIZE);
    assert obj[12] == field[0] && obj[13] == field[1];
    LittleEndianDigits(|key|, KEY_LEN_SIZE, 0);
    LittleEndianDigits(|key|, KEY_LEN_SIZE, 1);
  }

  /** `resolve` undoes `object` exactly for keys whose length fits the 16-bit length field. */
  lemma ResolveUndoesObject(tenant: nat, table: nat, key: Bytes, val: Bytes)
    ensures Resolve(ObjectBytes(tenant, table, key, val)) == Resolved(key, val) <==> |key| <= 65535
  {
    var obj := ObjectBytes(tenant, table, key, val);
    var field := LittleEndian(|key|, KEY_LEN_SIZE);
    assert LittleEndian(|key| / 256, 1) == [|key| / 256 % 256];
    assert field == [|key| % 256, |key| / 256 % 256];
    assert obj[META_SIZE - 2] == field[0] && obj[META_SIZE - 1] == field[1];
    var keyLen: nat := field[0] as int + field[1] as int * 256;
    assert keyLen <= 65535 && keyLen <= |key|;
    if |key| <= 65535 {
      assert keyLen == |key|;
      assert obj[META_SIZE..META_SIZE + |key|] == key;
      assert obj[META_SIZE + |key|..] == val;
    } else {
      assert |Resolve(obj).key| == keyLen;
    }
  }
}
