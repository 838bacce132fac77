/** The reference dataset sink: an append-only, first-wins list of records with
    two index sets. */
module BatchSink {
  import opened Batch
  import opened Wrappers

  function RecordIds(records: seq<DatasetRecord>): set<string> {
    set r | r in records :: r.recordId
  }

  function DedupKeys(records: seq<DatasetRecord>): set<(string, string)> {
    set r | r in records :: (r.datasetId, r.dedupKey)
  }

  /** No two records share an id, and none share dataset and dedup key. */
  predicate Distinct(records: seq<DatasetRecord>) {
    forall i, j :: 0 <= i < j < |records| ==>
      && records[i].recordId != records[j].recordId
      && (records[i].datasetId != records[j].datasetId || records[i].dedupKey != records[j].dedupKey)
  }

  function OfDataset(records: seq<DatasetRecord>, datasetId: string): seq<DatasetRecord> {
    if records == [] then []
    else
      var n := |records| - 1;
      OfDataset(records[..n], datasetId) + if records[n].datasetId == datasetId then [records[n]] else []
  }

  class ReferenceDatasetSink {
    const host: Host
    var records: seq<DatasetRecord>
    var dedupKeys: set<(string, string)>
    var recordIds: set<string>

    ghost predicate Valid()
      reads this
    {
      && recordIds == RecordIds(records)
      && dedupKeys == DedupKeys(records)
      && Distinct(records)
    }

    constructor (host: Host)
      ensures Valid() && records == [] && this.host == host
    {
      this.host := host;
      records, dedupKeys, recordIds := [], {}, {};
    }

    /** Appends an acceptable record; refuses any other and changes nothing. */
    method Write(record: DatasetRecord) returns (written: Result<DatasetRecord>)
      requires Valid()
      modifies this
      ensures Valid()
      ensures written == match WriteRefusal(host, old(records), record)
                         case Accept => Ok(record)
                         case Reject(code) => Err(code)
      ensures records == if written.Ok? then old(records) + [record] else old(records)
    {
      var check := CheckRecord(host, record);
      if check.Reject? {
        return Err(check.code);
      }
      if record.recordId in recordIds {
        return Err("duplicate_dataset_record");
      }
      var identity := (record.datasetId, record.dedupKey);
      if identity in dedupKeys {
        return Err("duplicate_dataset_record");
      }
      IndexesSeeDuplicates(host, records, record);
      AppendKeepsIndexes(records, record);
      records := records + [record];
      dedupKeys := dedupKeys + {identity};
      recordIds := recordIds + {record.recordId};
      written := Ok(record);
    }

    method ReadByDataset(datasetId: string) returns (found: seq<DatasetRecord>)
      ensures found == OfDataset(records, datasetId)
    {
      found := [];
      for i := 0 to |records|
        invariant found == OfDataset(records[..i], datasetId)
      {
        assert records[..i + 1][..i] == records[..i];
        if records[i].datasetId == datasetId {
          found := found + [records[i]];
        }
      }
      assert records[..|records|] == records;
    }
  }

  lemma IndexesSeeDuplicates(host: Host, records: seq<DatasetRecord>, r: DatasetRecord)
    requires CheckRecord(host, r).Accept?
    ensures WriteRefusal(host, records, r).Accept? <==>
            r.recordId !in RecordIds(records) && (r.datasetId, r.dedupKey) !in DedupKeys(records)
  {
    hide CheckRecord;
    forall i | 0 <= i < |records|
      ensures records[i].recordId in RecordIds(records)
      ensures (records[i].datasetId, records[i].dedupKey) in DedupKeys(records)
    {
      assert records[i] in records;
    }
  }

  lemma AppendKeepsIndexes(records: seq<DatasetRecord>, r: DatasetRecord)
    ensures RecordIds(records + [r]) == RecordIds(records) + {r.recordId}
    ensures DedupKeys(records + [r]) == DedupKeys(records) + {(r.datasetId, r.dedupKey)}
  {
    forall x | x in records + [r]
      ensures x in records || x == r
    {
    }
    assert forall x :: x in records + [r] <==> x in records || x == r;
  }

  lemma {:induction false} ReadBack(records: seq<DatasetRecord>, datasetId: string, r: DatasetRecord)
    ensures r in OfDataset(records, datasetId) <==> r in records && r.datasetId == datasetId
  {
    if records != [] {
      var n := |records| - 1;
      ReadBack(records[..n], datasetId, r);
      assert records == records[..n] + [records[n]];
    }
  }

  // -------------------------------------------------------------- all histories

  /** The sink's records after a history of attempted writes. */
  function After(host: Host, records: seq<DatasetRecord>, attempts: seq<DatasetRecord>): seq<DatasetRecord> {
    if attempts == [] then records
    else
      var n := |attempts| - 1;
      var before := After(host, records, attempts[..n]);
      if WriteRefusal(host, before, attempts[n]).Accept? then before + [attempts[n]] else before
  }

  /** `r` occupies the id or the dedup identity of `a`. */
  predicate Occupies(r: DatasetRecord, a: DatasetRecord) {
    r.recordId == a.recordId || (r.datasetId == a.datasetId && r.dedupKey == a.dedupKey)
  }

  lemma {:induction false} HistoryKeepsRecords(host: Host, records: seq<DatasetRecord>, attempts: seq<DatasetRecord>)
    requires Distinct(records)
    ensures Distinct(After(host, records, attempts)) && records <= After(host, records, attempts)
  {
    hide CheckRecord;
    if attempts != [] {
      HistoryKeepsRecords(host, records, attempts[..|attempts| - 1]);
    }
  }

  lemma {:induction false} HistoryAddsAttempts(host: Host, records: seq<DatasetRecord>, attempts: seq<DatasetRecord>,
                                               r: DatasetRecord)
    requires r in After(host, records, attempts)
    ensures r in records || (r in attempts && CheckRecord(host, r).Accept?)
  {
    hide CheckRecord;
    if attempts != [] && r in After(host, records, attempts[..|attempts| - 1]) {
      HistoryAddsAttempts(host, records, attempts[..|attempts| - 1], r);
    }
  }

  lemma {:induction false} HistoryServesAttempts(host: Host, records: seq<DatasetRecord>, attempts: seq<DatasetRecord>,
                                                 a: DatasetRecord)
    requires a in attempts && CheckRecord(host, a).Accept?
    ensures exists r :: r in After(host, records, attempts) && Occupies(r, a)
  {
    hide CheckRecord;
    var n := |attempts| - 1;
    var before := After(host, records, attempts[..n]);
    if a in attempts[..n] {
      HistoryServesAttempts(host, records, attempts[..n], a);
      var r :| r in before && Occupies(r, a);
      assert r in After(host, records, attempts);
    } else if WriteRefusal(host, before, a).Accept? {
      assert a in before + [a] && Occupies(a, a);
    } else {
      var i :| 0 <= i < |before| && Occupies(before[i], a);
      assert before[i] in before;
    }
  }

  /** Over every history: ids and dedup identities stay unique, stored records
      never change or move, only acceptable attempts are added, and every
      acceptable attempt finds its place taken by a stored record. */
  lemma HistoryIsFirstWins(host: Host, records: seq<DatasetRecord>, attempts: seq<DatasetRecord>)
    requires Distinct(records)
    ensures var now := After(host, records, attempts);
            && Distinct(now)
            && records <= now
            && (forall r :: r in now ==> r in records || (r in attempts && CheckRecord(host, r).Accept?))
            && (forall a :: a in attempts && CheckRecord(host, a).Accept? ==> exists r :: r in now && Occupies(r, a))
  {
    hide CheckRecord, After, Distinct, Occupies;
    HistoryKeepsRecords(host, records, attempts);
    forall r | r in After(host, records, attempts)
      ensures r in records || (r in attempts && CheckRecord(host, r).Accept?)
    {
      HistoryAddsAttempts(host, records, attempts, r);
    }
    forall a | a in attempts && CheckRecord(host, a).Accept?
      ensures exists r :: r in After(host, records, attempts) && Occupies(r, a)
    {
      HistoryServesAttempts(host, records, attempts, a);
    }
  }

  /** The first acceptable attempt at an unoccupied place is the one kept, and a
      later history does not displace it. */
  lemma FirstIsKept(host: Host, records: seq<DatasetRecord>, a: DatasetRecord, later: seq<DatasetRecord>)
    requires Distinct(records) && WriteRefusal(host, records, a).Accept?
    ensures records + [a] <= After(host, records + [a], later)
    ensures forall r :: r in After(host, records + [a], later) && Occupies(r, a) ==> r == a
  {
    hide CheckRecord;
    var now := After(host, records + [a], later);
    HistoryIsFirstWins(host, records + [a], later);
    assert now[|records|] == a;
    forall r | r in now && Occupies(r, a)
      ensures r == a
    {
      var i :| 0 <= i < |now| && now[i] == r;
    }
  }
}
