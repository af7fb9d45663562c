/** The bounded bulk request builder: each record is encoded once, and a record that would overflow waits. */
module BulkBatch {
  import opened ArchiveManifest
  import opened ArchiveImport

  const MAX_RECORDS: nat := 5000
  const MAX_REQUEST: nat := 16 * 1024 * 1024

  datatype Added = Accepted | Overflow | Rejected

  function Total(cost: Entry -> nat, records: seq<Entry>): nat {
    if records == [] then 0 else Total(cost, records[..|records| - 1]) + cost(records[|records| - 1])
  }

  // What the builder decides about one more record.
  function Verdict(cost: Entry -> nat, target: nat, hard: nat, records: seq<Entry>, entry: Entry): Added {
    if |records| >= MAX_RECORDS || !(0 < entry.version < VERSION_LIMIT) || cost(entry) > hard then Rejected
    else if records != [] && Total(cost, records) + cost(entry) > target then Overflow
    else Accepted
  }

  class Builder {
    const cost: Entry -> nat
    const target: nat
    const hard: nat
    var records: seq<Entry>
    var size: nat

    ghost predicate Valid()
      reads this
    {
      1 <= target <= hard && size == Total(cost, records) && size <= hard && |records| <= MAX_RECORDS &&
      (|records| > 1 ==> size <= target)
    }

    constructor (cost: Entry -> nat, target: nat, hard: nat)
      requires 1 <= target <= hard
      ensures Valid() && records == []
      ensures this.cost == cost && this.target == target && this.hard == hard
    {
      this.cost, this.target, this.hard := cost, target, hard;
      records, size := [], 0;
    }

    method Add(entry: Entry) returns (added: Added)
      requires Valid()
      modifies this
      ensures Valid()
      ensures added == Verdict(cost, target, hard, old(records), entry)
      ensures added.Rejected? <==>
                |old(records)| >= 5000 || entry.version == 0 || entry.version >= 0x8000_0000_0000_0000 || cost(entry) > hard
      ensures added.Overflow? <==>
                !added.Rejected? && old(records) != [] && Total(cost, old(records)) + cost(entry) > target
      ensures records == if added.Accepted? then old(records) + [entry] else old(records)
    {
      if |records| >= MAX_RECORDS || entry.version == 0 || entry.version >= VERSION_LIMIT {
        return Rejected;
      }
      var encoded := cost(entry);
      if encoded > hard {
        return Rejected;
      }
      if |records| > 0 && size + encoded > target {
        return Overflow;
      }
      records := records + [entry];
      size := size + encoded;
      return Accepted;
    }

    // The payload of a finished request never exceeds the hard limit of the engine.
    method Finish() returns (batch: seq<Entry>)
      requires Valid() && records != []
      modifies this
      ensures Valid() && records == []
      ensures batch == old(records) && 1 <= |batch| <= 5000 && Total(cost, batch) <= hard
    {
      batch := records;
      records, size := [], 0;
    }
  }
}
