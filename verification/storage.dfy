/** The scan history kept in the browser's local storage under one key
    (src/lib/storage.ts). The stored JSON may have been written by an older
    version of the application, so a stored record is modelled as what the
    parser can find in it: records whose result lacks a `components` or a
    `timeline` array are old-format and are dropped on reading. */
module Storage {
  import opened Wrappers
  import opened Types
  import opened Seqs

  const MAX_SCANS: nat := 6

  /** A stored result; `None` for an array field means the field is missing
      or is not an array. */
  datatype StoredResult = StoredResult(
    title: string,
    summary: string,
    timeline: Option<seq<TimelineEvent>>,
    components: Option<seq<Component>>)

  /** One element of the stored array. `NullRecord` is a JSON `null`, on which
      `isValidScan` throws; a record whose `result` is missing or falsy has
      `result == None`. */
  datatype StoredScan =
    | NullRecord
    | StoredScan(id: string, timestamp: int, imageBase64: string, result: Option<StoredResult>)

  /** The string under the key: an array of records, or text that yields no
      array (empty, not JSON, or JSON that is not an array). */
  datatype Stored = Records(entries: seq<StoredScan>) | Unreadable

  /** `isValidScan`: the result exists and both its `components` and its
      `timeline` are arrays. */
  predicate IsValidScan(r: StoredScan)
    requires r != NullRecord
  {
    r.result.Some? && r.result.value.components.Some? && r.result.value.timeline.Some?
  }

  /** `isValidScan` as the filter applies it; on `null` the filter throws
      instead, which the reader handles first. */
  predicate Keep(r: StoredScan)
  {
    r != NullRecord && IsValidScan(r)
  }

  /** How `JSON.stringify` stores a scan: always as a valid record. */
  function Encode(s: Scan): (r: StoredScan)
    ensures Keep(r)
  {
    StoredScan(s.id, s.timestamp, s.imageBase64,
      Some(StoredResult(s.result.title, s.result.summary, Some(s.result.timeline), Some(s.result.components))))
  }

  /** A valid record read as a `Scan`. */
  function Decode(r: StoredScan): Scan
    requires Keep(r)
  {
    var res := r.result.value;
    Scan(r.id, r.timestamp, r.imageBase64,
      ProvenanceResult(res.title, res.summary, res.timeline.value, res.components.value))
  }

  /** A stored scan reads back as itself, and a valid record read and written
      back is the same record. */
  lemma EncodeRoundTrip(s: Scan, r: StoredScan)
    ensures Decode(Encode(s)) == s
    ensures Keep(r) ==> Encode(Decode(r)) == r
  {
  }

  function DecodeAll(rs: seq<StoredScan>): (ss: seq<Scan>)
    requires forall i :: 0 <= i < |rs| ==> Keep(rs[i])
    ensures |ss| == |rs|
    ensures forall i :: 0 <= i < |rs| ==> ss[i] == Decode(rs[i])
  {
    if rs == [] then [] else [Decode(rs[0])] + DecodeAll(rs[1..])
  }

  function EncodeAll(ss: seq<Scan>): (rs: seq<StoredScan>)
    ensures |rs| == |ss|
    ensures forall i :: 0 <= i < |ss| ==> rs[i] == Encode(ss[i])
  {
    if ss == [] then [] else [Encode(ss[0])] + EncodeAll(ss[1..])
  }

  /** Reading gets past `JSON.parse` and the filter: the key is present, holds
      an array, and no element is `null`. */
  predicate Readable(v: Option<Stored>)
  {
    v.Some? && v.value.Records? && NullRecord !in v.value.entries
  }

  /** The records a read keeps: exactly the valid stored records, in stored
      order; nothing when the read fails. */
  function ValidEntries(v: Option<Stored>): (r: seq<StoredScan>)
    ensures forall i :: 0 <= i < |r| ==> Keep(r[i])
    ensures !Readable(v) ==> r == []
    ensures Readable(v) ==> IsSubsequence(r, v.value.entries)
    ensures Readable(v) ==> forall x :: x in r <==> x in v.value.entries && Keep(x)
  {
    if Readable(v) then
      FilterExact(Keep, v.value.entries);
      Filter(Keep, v.value.entries)
    else []
  }

  /** A read keeps every copy of a valid record and no copy of an invalid one. */
  lemma ValidEntriesCounts(v: Option<Stored>)
    requires Readable(v)
    ensures forall x :: multiset(ValidEntries(v))[x] == if Keep(x) then multiset(v.value.entries)[x] else 0
  {
    FilterExact(Keep, v.value.entries);
  }

  /** What `getRecentScans` returns for the stored value `v`. */
  function RecentScans(v: Option<Stored>): seq<Scan>
  {
    DecodeAll(ValidEntries(v))
  }

  /** The stored value after `getRecentScans`: rewritten with the valid records
      only when some record was dropped. */
  function AfterRead(v: Option<Stored>): Option<Stored>
  {
    if Readable(v) && |ValidEntries(v)| != |v.value.entries| then Some(Records(ValidEntries(v))) else v
  }

  /** The stored value after `saveScan(record)`: the record in front of the
      valid records, cut to `MAX_SCANS`. */
  function AfterSave(v: Option<Stored>, record: StoredScan): (w: Option<Stored>)
    ensures w.Some? && w.value.Records?
    ensures 1 <= |w.value.entries| <= MAX_SCANS
    ensures w.value.entries[0] == record
    ensures w.value.entries[1..] == Take(ValidEntries(v), MAX_SCANS - 1)
  {
    Some(Records(Take([record] + ValidEntries(v), MAX_SCANS)))
  }

  /** The store is rewritten exactly when it holds an array without nulls in
      which some record is invalid. */
  lemma RewriteOnlyWhenDropped(v: Option<Stored>)
    ensures AfterRead(v) != v <==>
              Readable(v) && exists i :: 0 <= i < |v.value.entries| && !Keep(v.value.entries[i])
  {
    if Readable(v) {
      FilterKeepsAll(Keep, v.value.entries);
    }
  }

  /** A second read returns the same scans and writes nothing. */
  lemma ReadTwice(v: Option<Stored>)
    ensures RecentScans(AfterRead(v)) == RecentScans(v)
    ensures AfterRead(AfterRead(v)) == AfterRead(v)
  {
    if Readable(v) && |ValidEntries(v)| != |v.value.entries| {
      var valid := ValidEntries(v);
      FilterIdempotent(Keep, v.value.entries);
      assert NullRecord !in valid;
      assert ValidEntries(AfterRead(v)) == valid;
    }
  }

  /** An absent key, or a value that yields no array, reads as no scans and
      is left as it is. */
  lemma UnreadableReadsEmpty(v: Option<Stored>)
    requires v.None? || v == Some(Unreadable)
    ensures RecentScans(v) == [] && AfterRead(v) == v
  {
  }

  lemma EncodeDecodeAll(rs: seq<StoredScan>)
    requires forall i :: 0 <= i < |rs| ==> Keep(rs[i])
    ensures EncodeAll(DecodeAll(rs)) == rs
  {
    forall i | 0 <= i < |rs| ensures EncodeAll(DecodeAll(rs))[i] == rs[i] {
      EncodeRoundTrip(DecodeAll(rs)[i], rs[i]);
    }
  }

  lemma DecodeAllTake(rs: seq<StoredScan>, n: nat)
    requires forall i :: 0 <= i < |rs| ==> Keep(rs[i])
    ensures DecodeAll(Take(rs, n)) == Take(DecodeAll(rs), n)
  {
  }

  /** After saving a scan, reading returns that scan in front of the scans
      read before, cut to `MAX_SCANS`. */
  lemma SaveThenRead(v: Option<Stored>, s: Scan)
    ensures RecentScans(AfterSave(v, Encode(s))) == Take([s] + RecentScans(v), MAX_SCANS)
    ensures AfterRead(AfterSave(v, Encode(s))) == AfterSave(v, Encode(s))
  {
    var w := AfterSave(v, Encode(s));
    var entries := Take([Encode(s)] + ValidEntries(v), MAX_SCANS);
    assert forall i :: 0 <= i < |entries| ==> Keep(entries[i]);
    assert NullRecord !in entries;
    FilterKeepsAll(Keep, entries);
    assert ValidEntries(w) == entries;
    EncodeRoundTrip(s, Encode(s));
    assert DecodeAll([Encode(s)] + ValidEntries(v)) == [s] + RecentScans(v);
    DecodeAllTake([Encode(s)] + ValidEntries(v), MAX_SCANS);
  }

  /** `saveScan` does not validate: an invalid record is stored in front, and
      the next read drops it again (and with it the scan it pushed out). A
      stored `null` makes every later read return nothing. */
  lemma SaveInvalidIsDropped(v: Option<Stored>, record: StoredScan)
    requires !Keep(record)
    ensures AfterSave(v, record).value.entries[0] == record
    ensures record != NullRecord ==> RecentScans(AfterSave(v, record)) == Take(RecentScans(v), MAX_SCANS - 1)
    ensures record == NullRecord ==> RecentScans(AfterSave(v, record)) == []
  {
    var w := AfterSave(v, record);
    if record != NullRecord {
      var rest := Take(ValidEntries(v), MAX_SCANS - 1);
      assert w.value.entries == [record] + rest;
      assert NullRecord !in rest;
      FilterKeepsAll(Keep, rest);
      assert ValidEntries(w) == rest;
      DecodeAllTake(ValidEntries(v), MAX_SCANS - 1);
    }
  }

  /** The stored value after saving `ss` in order. */
  function SaveAll(v: Option<Stored>, ss: seq<Scan>): Option<Stored>
  {
    if ss == [] then v else AfterSave(SaveAll(v, ss[..|ss| - 1]), Encode(ss[|ss| - 1]))
  }

  /** Saving scans one after another pushes each onto the front of what a
      read returns, keeping at most `MAX_SCANS`. */
  lemma {:induction false} SavesPush(v: Option<Stored>, ss: seq<Scan>)
    ensures RecentScans(SaveAll(v, ss)) == PushAll(RecentScans(v), ss, MAX_SCANS)
  {
    if ss != [] {
      var init := ss[..|ss| - 1];
      SavesPush(v, init);
      SaveThenRead(SaveAll(v, init), ss[|ss| - 1]);
    }
  }

  /** Saving scans one after another keeps the newest `MAX_SCANS`, newest
      first, ahead of what was stored before. */
  lemma SavesKeepNewest(v: Option<Stored>, ss: seq<Scan>)
    requires ss != []
    ensures RecentScans(SaveAll(v, ss)) == Take(Reversed(ss) + RecentScans(v), MAX_SCANS)
  {
    SavesPush(v, ss);
    PushAllReversed(RecentScans(v), ss, MAX_SCANS);
  }

  /** Saving seven scans leaves the last six, newest first. */
  lemma SevenSaves(v: Option<Stored>, ss: seq<Scan>)
    requires |ss| == 7
    ensures RecentScans(SaveAll(v, ss)) == [ss[6], ss[5], ss[4], ss[3], ss[2], ss[1]]
  {
    SavesKeepNewest(v, ss);
    TakeSixOfSevenReversed(ss, RecentScans(v));
  }

  /** The key in local storage, with the three operations on it. */
  class ScanStore {
    /** `localStorage.getItem(STORAGE_KEY)`; `None` when the key is absent. */
    var stored: Option<Stored>

    constructor(initial: Option<Stored>)
      ensures stored == initial
    {
      stored := initial;
    }

    /** `getRecentScans()`. */
    method GetRecentScans() returns (scans: seq<Scan>)
      modifies this
      ensures scans == RecentScans(old(stored))
      ensures stored == AfterRead(old(stored))
    {
      if stored.None? {
        return [];
      }
      match stored.value {
        case Unreadable =>
          return [];
        case Records(entries) =>
          if NullRecord in entries {
            return [];
          }
          var validScans := Filter(Keep, entries);
          if |validScans| != |entries| {
            stored := Some(Records(validScans));
          }
          scans := DecodeAll(validScans);
      }
    }

    /** `saveScan(record)`: read, put the record in front, keep `MAX_SCANS`. */
    method SaveScan(record: StoredScan)
      modifies this
      ensures stored == AfterSave(old(stored), record)
    {
      var scans := GetRecentScans();
      EncodeDecodeAll(ValidEntries(old(stored)));
      var withNew := [record] + EncodeAll(scans);
      stored := Some(Records(Take(withNew, MAX_SCANS)));
    }

    /** `clearScans()`: the key is removed, so the next read returns nothing. */
    method ClearScans()
      modifies this
      ensures stored == None
      ensures RecentScans(stored) == []
    {
      stored := None;
    }
  }
}
