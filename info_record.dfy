/** `InfoRecord` (Models/InfoRecord.swift): the document kept in the info file,
    a snapshot tree stamped with the time it was taken. */
module InfoRecords {
  import opened Wrappers
  import opened Json
  import opened Records
  import opened DirectoryCodec

  /** Name pattern of the default info file; `%@` stands for the directory name. */
  const DefaultFileNameFormat: string := "%@_Info.json"

  /** One reading of the clock, in the two forms a record stores: the
      ISO 8601 text and the seconds since 1970. */
  datatype Date = Date(iso8601: string, timeIntervalSince1970: Interval)

  /** The stored state of an `InfoRecord`. */
  datatype InfoRecordValue = InfoRecordValue(
    recordTimeUtc: string,
    recordTimeUtcInterval: Interval,
    directory: DirectoryInfoRecord)

  class InfoRecord {
    var recordTimeUtc: string
    var recordTimeUtcInterval: Interval
    var directory: DirectoryInfoRecord

    /** The private memberwise initialiser. */
    constructor (recordTimeUtc: string, recordTimeUtcTicks: Interval, directory: DirectoryInfoRecord)
      ensures Value() == InfoRecordValue(recordTimeUtc, recordTimeUtcTicks, directory)
    {
      this.recordTimeUtc := recordTimeUtc;
      this.recordTimeUtcInterval := recordTimeUtcTicks;
      this.directory := directory;
    }

    function Value(): InfoRecordValue
      reads this
    {
      InfoRecordValue(recordTimeUtc, recordTimeUtcInterval, directory)
    }

    /** `create(dirInfoRecord:)`: a new record holding the given tree, both time
        fields taken from the single clock reading `now`. */
    static method Create(dirInfoRecord: DirectoryInfoRecord, now: Date) returns (r: InfoRecord)
      ensures fresh(r)
      ensures r.directory == dirInfoRecord
      ensures r.recordTimeUtc == now.iso8601 && r.recordTimeUtcInterval == now.timeIntervalSince1970
    {
      var currentDate := now;
      r := new InfoRecord(currentDate.iso8601, currentDate.timeIntervalSince1970, dirInfoRecord);
    }

    /** `update(infoRecord:)`: restamps the record with the reading `now`; the
        tree it holds is untouched. */
    static method Update(infoRecord: InfoRecord, now: Date)
      modifies infoRecord
      ensures infoRecord.directory == old(infoRecord.directory)
      ensures infoRecord.recordTimeUtc == now.iso8601
      ensures infoRecord.recordTimeUtcInterval == now.timeIntervalSince1970
    {
      var currentDate := now;
      infoRecord.recordTimeUtc := currentDate.iso8601;
      infoRecord.recordTimeUtcInterval := currentDate.timeIntervalSince1970;
    }
  }

  /** The synthesised `CodingKeys`: one per stored property. */
  const InfoRecordCodingKeys: set<CodingKey> := {RecordTimeUtcKey, RecordTimeUtcIntervalKey, DirectoryKey}

  /** The synthesised `encode(to:)`: every property is written. */
  function EncodeInfoRecord(v: InfoRecordValue): (j: JsonValue)
    ensures j.JObject? && j.fields.Keys == InfoRecordCodingKeys
    ensures j.fields[DirectoryKey] == EncodeDirectory(v.directory)
  {
    JObject(map[
      RecordTimeUtcKey := JString(v.recordTimeUtc),
      RecordTimeUtcIntervalKey := JNumber(v.recordTimeUtcInterval),
      DirectoryKey := EncodeDirectory(v.directory)])
  }

  /** The synthesised `init(from:)`: all three keys are required. */
  function DecodeInfoRecord(j: JsonValue): (r: Result<InfoRecordValue, DecodingError>)
    ensures r.Ok? ==> j.JObject? && InfoRecordCodingKeys <= j.fields.Keys
    ensures r.Ok? ==> Unlinked(r.value.directory)
    ensures j.JObject? && RecordTimeUtcKey !in j.fields ==> r == Err(KeyNotFound(RecordTimeUtcKey))
  {
    if !j.JObject? then Err(NotAContainer)
    else
      var m := j.fields;
      var recordTimeUtc :- DecodeString(m, RecordTimeUtcKey);
      var recordTimeUtcInterval :- DecodeNumber(m, RecordTimeUtcIntervalKey);
      if DirectoryKey !in m then Err(KeyNotFound(DirectoryKey))
      else if m[DirectoryKey].JNull? then Err(ValueNotFound(DirectoryKey))
      else
        var directory :- DecodeDirectory(m[DirectoryKey]);
        Ok(InfoRecordValue(recordTimeUtc, recordTimeUtcInterval, directory))
  }

  /** Reading back a written info file gives the same time stamp and the
      persisted form of the tree. */
  lemma InfoRecordRoundTrip(v: InfoRecordValue)
    ensures DecodeInfoRecord(EncodeInfoRecord(v)) == Ok(v.(directory := PersistedDirectory(v.directory)))
  {
    DirectoryRoundTrip(v.directory);
  }
}
