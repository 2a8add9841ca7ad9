/** `RegularFileInfoRecord.encode(to:)` and `init(from:)`
    (Models/RegularFileInfoRecord.swift): a straight field-to-key mapping that
    omits absent fields and never writes the parent link or the failure flag. */
module RegularFileCodec {
  import opened Wrappers
  import opened Json
  import opened Records

  /** `RegularFileInfoRecord.CodingKeys`. */
  const RegularFileCodingKeys: set<CodingKey> := {
    NameKey, CreationDateUtcKey, CreationDateUtcIntervalKey, ModificationDateUtcKey,
    ModificationDateUtcIntervalKey, AccessDateUtcKey, AccessDateUtcIntervalKey, SizeKey, Sha512Key
  }

  function Size(o: Option<Int64>): Option<int> {
    match o
    case None => None
    case Some(i) => Some(i as int)
  }

  /** The field written under each key, if any. */
  function RegularFileField(f: RegularFileInfoRecord, k: CodingKey): Option<JsonValue> {
    match k
    case NameKey => Some(JString(f.name))
    case CreationDateUtcKey => StringValue(f.creationDateUtc)
    case CreationDateUtcIntervalKey => NumberValue(f.creationDateUtcInterval)
    case ModificationDateUtcKey => StringValue(f.modificationDateUtc)
    case ModificationDateUtcIntervalKey => NumberValue(f.modificationDateUtcInterval)
    case AccessDateUtcKey => StringValue(f.accessDateUtc)
    case AccessDateUtcIntervalKey => NumberValue(f.accessDateUtcInterval)
    case SizeKey => IntValue(Size(f.size))
    case Sha512Key => StringValue(f.sha512)
    case _ => None
  }

  /** `encode(to:)`: `name` always, every other field only when present; the
      parent link and `computeHashFailed` are never written. */
  function EncodeRegularFile(f: RegularFileInfoRecord): (j: JsonValue)
    ensures j.JObject? && j.fields.Keys <= RegularFileCodingKeys
    ensures NameKey in j.fields && j.fields[NameKey] == JString(f.name)
    ensures (CreationDateUtcKey in j.fields <==> f.creationDateUtc.Some?)
      && (CreationDateUtcIntervalKey in j.fields <==> f.creationDateUtcInterval.Some?)
      && (ModificationDateUtcKey in j.fields <==> f.modificationDateUtc.Some?)
      && (ModificationDateUtcIntervalKey in j.fields <==> f.modificationDateUtcInterval.Some?)
      && (AccessDateUtcKey in j.fields <==> f.accessDateUtc.Some?)
      && (AccessDateUtcIntervalKey in j.fields <==> f.accessDateUtcInterval.Some?)
      && (SizeKey in j.fields <==> f.size.Some?)
      && (Sha512Key in j.fields <==> f.sha512.Some?)
  {
    Container(RegularFileCodingKeys, k => RegularFileField(f, k))
  }

  /** `init(from:)`. The result has no parent link and `computeHashFailed` false. */
  function DecodeRegularFile(j: JsonValue): (r: Result<RegularFileInfoRecord, DecodingError>)
    ensures r.Ok? ==> r.value.directory == None && !r.value.computeHashFailed
    ensures r.Ok? ==> j.JObject? && NameKey in j.fields && j.fields[NameKey] == JString(r.value.name)
    ensures j.JObject? && NameKey !in j.fields ==> r == Err(KeyNotFound(NameKey))
  {
    if !j.JObject? then Err(NotAContainer)
    else
      var m := j.fields;
      RegularFileOf(
        DecodeString(m, NameKey),
        DecodeStringIfPresent(m, CreationDateUtcKey), DecodeNumberIfPresent(m, CreationDateUtcIntervalKey),
        DecodeStringIfPresent(m, ModificationDateUtcKey), DecodeNumberIfPresent(m, ModificationDateUtcIntervalKey),
        DecodeStringIfPresent(m, AccessDateUtcKey), DecodeNumberIfPresent(m, AccessDateUtcIntervalKey),
        DecodeIntIfPresent(m, SizeKey, MinInt64, MaxInt64), DecodeStringIfPresent(m, Sha512Key))
  }

  /** The record from the values decoded key by key, in `init(from:)` order:
      the first failing key's error, or the record. */
  function RegularFileOf(
    name: Result<string, DecodingError>,
    creation: Result<Option<string>, DecodingError>, creationInterval: Result<Option<real>, DecodingError>,
    modification: Result<Option<string>, DecodingError>, modificationInterval: Result<Option<real>, DecodingError>,
    access: Result<Option<string>, DecodingError>, accessInterval: Result<Option<real>, DecodingError>,
    size: Result<Option<int>, DecodingError>, sha512: Result<Option<string>, DecodingError>)
    : (r: Result<RegularFileInfoRecord, DecodingError>)
    requires size.Ok? && size.value.Some? ==> MinInt64 <= size.value.value <= MaxInt64
    ensures r.Ok? ==> r.value.directory == None && !r.value.computeHashFailed
    ensures r.Ok? ==> name == Ok(r.value.name)
    ensures name.Err? ==> r == Err(name.error)
  {
    var name :- name;
    var creation :- creation;
    var creationInterval :- creationInterval;
    var modification :- modification;
    var modificationInterval :- modificationInterval;
    var access :- access;
    var accessInterval :- accessInterval;
    var size :- size;
    var sha512 :- sha512;
    Ok(RegularFileInfoRecord(name, None, creation, creationInterval, modification, modificationInterval,
      access, accessInterval, if size.Some? then Some(size.value as Int64) else None, sha512, false))
  }

  /** What the file keeps of a record: everything but the transient parent link
      and the unencoded failure flag. */
  function PersistedRegularFile(f: RegularFileInfoRecord): RegularFileInfoRecord {
    f.(directory := None, computeHashFailed := false)
  }

  /** Decoding an encoded record gives back every encoded field. */
  lemma RegularFileRoundTrip(f: RegularFileInfoRecord)
    ensures DecodeRegularFile(EncodeRegularFile(f)) == Ok(PersistedRegularFile(f))
  {
    var m := EncodeRegularFile(f).fields;
    assert DecodeString(m, NameKey) == Ok(f.name);
    assert DecodeStringIfPresent(m, CreationDateUtcKey) == Ok(f.creationDateUtc);
    assert DecodeNumberIfPresent(m, CreationDateUtcIntervalKey) == Ok(f.creationDateUtcInterval);
    assert DecodeStringIfPresent(m, ModificationDateUtcKey) == Ok(f.modificationDateUtc);
    assert DecodeNumberIfPresent(m, ModificationDateUtcIntervalKey) == Ok(f.modificationDateUtcInterval);
    assert DecodeStringIfPresent(m, AccessDateUtcKey) == Ok(f.accessDateUtc);
    assert DecodeNumberIfPresent(m, AccessDateUtcIntervalKey) == Ok(f.accessDateUtcInterval);
    assert DecodeStringIfPresent(m, Sha512Key) == Ok(f.sha512);
    if f.size.Some? {
      var i: int := f.size.value;
      assert m[SizeKey] == JNumber(i as real);
      assert DecodeIntIfPresent(m, SizeKey, MinInt64, MaxInt64) == Ok(Some(i));
    }
  }

  /** Only `name` is required: a container holding just the name decodes to a
      record with every optional field absent. */
  lemma DecodeOnlyName(name: string)
    ensures DecodeRegularFile(JObject(map[NameKey := JString(name)])) == Ok(NewRegularFile(name))
  {
  }

  /** Keys outside `CodingKeys` are ignored: two containers that agree on the
      coding keys decode alike. */
  lemma DecodeIgnoresUnknownKeys(m1: map<CodingKey, JsonValue>, m2: map<CodingKey, JsonValue>)
    requires forall k :: k in RegularFileCodingKeys ==> (k in m1 <==> k in m2) && (k in m1 ==> m1[k] == m2[k])
    ensures DecodeRegularFile(JObject(m1)) == DecodeRegularFile(JObject(m2))
  {
    forall k | k in RegularFileCodingKeys
      ensures DecodeString(m1, k) == DecodeString(m2, k)
      ensures DecodeStringIfPresent(m1, k) == DecodeStringIfPresent(m2, k)
      ensures DecodeNumberIfPresent(m1, k) == DecodeNumberIfPresent(m2, k)
      ensures DecodeIntIfPresent(m1, k, MinInt64, MaxInt64) == DecodeIntIfPresent(m2, k, MinInt64, MaxInt64)
    {
    }
    var r := RegularFileOf(
      DecodeString(m2, NameKey),
      DecodeStringIfPresent(m2, CreationDateUtcKey), DecodeNumberIfPresent(m2, CreationDateUtcIntervalKey),
      DecodeStringIfPresent(m2, ModificationDateUtcKey), DecodeNumberIfPresent(m2, ModificationDateUtcIntervalKey),
      DecodeStringIfPresent(m2, AccessDateUtcKey), DecodeNumberIfPresent(m2, AccessDateUtcIntervalKey),
      DecodeIntIfPresent(m2, SizeKey, MinInt64, MaxInt64), DecodeStringIfPresent(m2, Sha512Key));
    assert DecodeRegularFile(JObject(m1)) == r;
  }
}
