/**
 * What the `add*` operations of both repositories do to the caller's data
 * before writing it: a generated `id` and one timestamp as both `createdAt`
 * and `updatedAt`, written after the spread of the input.
 */
module Records {
  import opened Common
  import opened Table

  /**
   * `${prefix}${Date.now()}_${suffix}`: the prefix, the decimal millisecond
   * clock reading, an underscore, and the random suffix.
   */
  function RecordId(prefix: string, epochMs: nat, suffix: string): (id: string)
    ensures StartsWith(id, prefix)
    ensures |id| == |prefix| + |Decimal(epochMs)| + 1 + |suffix|
    ensures id[|prefix| + |Decimal(epochMs)|] == '_'
  {
    prefix + Decimal(epochMs) + "_" + suffix
  }

  /** Two ids with the same prefix are equal only for the same clock reading and suffix. */
  lemma RecordIdInjective(prefix: string, m: nat, a: string, n: nat, b: string)
    requires RecordId(prefix, m, a) == RecordId(prefix, n, b)
    ensures m == n && a == b
  {
    var x, y := Decimal(m), Decimal(n);
    var l, r := RecordId(prefix, m, a), RecordId(prefix, n, b);
    assert forall i :: 0 <= i < |x| ==> l[|prefix| + i] == x[i];
    assert forall i :: 0 <= i < |y| ==> r[|prefix| + i] == y[i];
    if |x| != |y| {
      assert false;
    }
    assert x == l[|prefix|..|prefix| + |x|] == r[|prefix|..|prefix| + |y|] == y;
    DecimalInjective(m, n);
    assert a == l[|prefix| + |x| + 1..] == r[|prefix| + |y| + 1..] == b;
  }

  /** The attributes the repository generates. */
  const Generated: set<string> := {"id", "createdAt", "updatedAt"}

  /**
   * `{ ...data, id, createdAt: now, updatedAt: now }`: every input attribute
   * is kept except the generated ones, which the later keys override.
   */
  function Stamp(data: Item, id: string, now: string): (r: Item)
    ensures r.Keys == data.Keys + Generated
    ensures r["id"] == id && r["createdAt"] == now && r["updatedAt"] == now
    ensures forall k :: k in data && k !in Generated ==> r[k] == data[k]
  {
    data + map["id" := id, "createdAt" := now, "updatedAt" := now]
  }

  /**
   * Writes the stamped record with `PutItem` and returns it. The clock's ISO
   * reading, its millisecond reading and the random suffix are parameters.
   */
  method Add(t: Table, data: Item, prefix: string, now: string, epochMs: nat, suffix: string)
    returns (record: Item)
    requires t.Valid()
    modifies t
    ensures record == Stamp(data, RecordId(prefix, epochMs, suffix), now)
    ensures t.Valid() && t.rows == PutRows(old(t.rows), record)
    ensures record in t.rows
    ensures forall i :: 0 <= i < |old(t.rows)| && old(t.rows)[i]["id"] != record["id"] ==> old(t.rows)[i] in t.rows
  {
    record := Stamp(data, RecordId(prefix, epochMs, suffix), now);
    PutRowsKeepsKeys(t.rows, record);
    t.Put(record);
  }
}
