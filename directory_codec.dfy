/** `DirectoryInfoRecord.encode(to:)` and `init(from:)`
    (Models/DirectoryInfoRecord.swift): nested file and directory lists are
    written as arrays; the parent link and `getFilesFailed` are never written. */
module DirectoryCodec {
  import opened Wrappers
  import opened Json
  import opened Records
  import opened RegularFileCodec

  /** `DirectoryInfoRecord.CodingKeys`. */
  const DirectoryCodingKeys: set<CodingKey> := {
    NameKey, CreationDateUtcKey, CreationDateUtcIntervalKey, ModificationDateUtcKey,
    ModificationDateUtcIntervalKey, AccessDateUtcKey, AccessDateUtcIntervalKey, FilesKey, DirectoriesKey
  }

  function EncodeFiles(files: seq<RegularFileInfoRecord>): JsonValue {
    JArray(seq(|files|, i requires 0 <= i < |files| => EncodeRegularFile(files[i])))
  }

  /** The field written under each key, if any. */
  function DirectoryField(d: DirectoryInfoRecord, k: CodingKey): Option<JsonValue>
    decreases d, 0
  {
    match k
    case NameKey => Some(JString(d.name))
    case CreationDateUtcKey => StringValue(d.creationDateUtc)
    case CreationDateUtcIntervalKey => NumberValue(d.creationDateUtcInterval)
    case ModificationDateUtcKey => StringValue(d.modificationDateUtc)
    case ModificationDateUtcIntervalKey => NumberValue(d.modificationDateUtcInterval)
    case AccessDateUtcKey => StringValue(d.accessDateUtc)
    case AccessDateUtcIntervalKey => NumberValue(d.accessDateUtcInterval)
    case FilesKey => if d.files.Some? then Some(EncodeFiles(d.files.value)) else None
    case DirectoriesKey =>
      if d.directories.Assigned? then
        var ds := d.directories.items;
        Some(JArray(seq(|ds|, i requires 0 <= i < |ds| => EncodeDirectory(ds[i]))))
      else None
    case _ => None
  }

  /** `encode(to:)`: `name` always, every other field only when present. */
  function EncodeDirectory(d: DirectoryInfoRecord): (j: JsonValue)
    ensures j.JObject? && j.fields.Keys <= DirectoryCodingKeys
    ensures NameKey in j.fields && j.fields[NameKey] == JString(d.name)
    ensures (CreationDateUtcKey in j.fields <==> d.creationDateUtc.Some?)
      && (CreationDateUtcIntervalKey in j.fields <==> d.creationDateUtcInterval.Some?)
      && (ModificationDateUtcKey in j.fields <==> d.modificationDateUtc.Some?)
      && (ModificationDateUtcIntervalKey in j.fields <==> d.modificationDateUtcInterval.Some?)
      && (AccessDateUtcKey in j.fields <==> d.accessDateUtc.Some?)
      && (AccessDateUtcIntervalKey in j.fields <==> d.accessDateUtcInterval.Some?)
      && (FilesKey in j.fields <==> d.files.Some?)
      && (DirectoriesKey in j.fields <==> d.directories.Assigned?)
    decreases d, 1
  {
    Container(DirectoryCodingKeys, k => DirectoryField(d, k))
  }

  /** `decodeIfPresent([RegularFileInfoRecord].self, forKey: .files)`. */
  function DecodeFilesIfPresent(m: map<CodingKey, JsonValue>): (r: Result<Option<seq<RegularFileInfoRecord>>, DecodingError>)
    ensures FilesKey !in m ==> r == Ok(None)
  {
    if FilesKey !in m then Ok(None)
    else match m[FilesKey]
      case JNull => Ok(None)
      case JArray(items) =>
        var files :- AllOk(seq(|items|, i requires 0 <= i < |items| => DecodeRegularFile(items[i])));
        Ok(Some(files))
      case _ => Err(TypeMismatch(FilesKey))
  }

  /** `decodeIfPresent([DirectoryInfoRecord].self, forKey: .directories)`. */
  function DecodeDirectoriesIfPresent(j: JsonValue): (r: Result<Subdirectories, DecodingError>)
    requires j.JObject?
    ensures r.Ok? && r.value.Assigned? ==> forall s :: s in r.value.items ==> Unlinked(s)
    decreases j, 0
  {
    var m := j.fields;
    if DirectoriesKey !in m then Ok(NotAssigned)
    else match m[DirectoriesKey]
      case JNull => Ok(NotAssigned)
      case JArray(items) =>
        var ds :- AllOk(seq(|items|, i requires 0 <= i < |items| => DecodeDirectory(items[i])));
        Ok(Assigned(ds))
      case _ => Err(TypeMismatch(DirectoriesKey))
  }

  /** `init(from:)`. Fails without `name`; every other key is optional. The
      result and every record below it have no parent link and no failure flag. */
  function DecodeDirectory(j: JsonValue): (r: Result<DirectoryInfoRecord, DecodingError>)
    decreases j, 1
    ensures r.Ok? ==> j.JObject? && NameKey in j.fields && j.fields[NameKey] == JString(r.value.name)
    ensures j.JObject? && NameKey !in j.fields ==> r == Err(KeyNotFound(NameKey))
    ensures r.Ok? ==> Unlinked(r.value)
  {
    if !j.JObject? then Err(NotAContainer)
    else
      var m := j.fields;
      DirectoryOf(
        DecodeString(m, NameKey),
        DecodeStringIfPresent(m, CreationDateUtcKey), DecodeNumberIfPresent(m, CreationDateUtcIntervalKey),
        DecodeStringIfPresent(m, ModificationDateUtcKey), DecodeNumberIfPresent(m, ModificationDateUtcIntervalKey),
        DecodeStringIfPresent(m, AccessDateUtcKey), DecodeNumberIfPresent(m, AccessDateUtcIntervalKey),
        DecodeFilesIfPresent(m), DecodeDirectoriesIfPresent(j))
  }

  /** The record from the values decoded key by key, in `init(from:)` order:
      the first failing key's error, or the record. */
  function DirectoryOf(
    name: Result<string, DecodingError>,
    creation: Result<Option<string>, DecodingError>, creationInterval: Result<Option<real>, DecodingError>,
    modification: Result<Option<string>, DecodingError>, modificationInterval: Result<Option<real>, DecodingError>,
    access: Result<Option<string>, DecodingError>, accessInterval: Result<Option<real>, DecodingError>,
    files: Result<Option<seq<RegularFileInfoRecord>>, DecodingError>, directories: Result<Subdirectories, DecodingError>)
    : (r: Result<DirectoryInfoRecord, DecodingError>)
    ensures r.Ok? ==> r.value.directory == None && !r.value.getFilesFailed
    ensures r.Ok? ==> name == Ok(r.value.name) && files == Ok(r.value.files) && directories == Ok(r.value.directories)
    ensures name.Err? ==> r == Err(name.error)
  {
    var name :- name;
    var creation :- creation;
    var creationInterval :- creationInterval;
    var modification :- modification;
    var modificationInterval :- modificationInterval;
    var access :- access;
    var accessInterval :- accessInterval;
    var files :- files;
    var directories :- directories;
    Ok(DirectoryInfoRecord(name, None, creation, creationInterval, modification, modificationInterval,
      access, accessInterval, files, directories, false))
  }

  /** No record in the tree has a parent link or a failure flag set. */
  ghost predicate Unlinked(d: DirectoryInfoRecord) {
    && d.directory == None && !d.getFilesFailed
    && (d.files.Some? ==> forall f :: f in d.files.value ==> f.directory == None && !f.computeHashFailed)
    && (d.directories.Assigned? ==> forall s :: s in d.directories.items ==> Unlinked(s))
  }

  /** What the file keeps of a tree: every record without its parent link and
      failure flag. */
  function PersistedDirectory(d: DirectoryInfoRecord): DirectoryInfoRecord {
    d.(directory := None, getFilesFailed := false,
       files := if d.files.Some? then
                  var fs := d.files.value;
                  Some(seq(|fs|, i requires 0 <= i < |fs| => PersistedRegularFile(fs[i])))
                else None,
       directories := if d.directories.Assigned? then
                  var ds := d.directories.items;
                  Assigned(seq(|ds|, i requires 0 <= i < |ds| => PersistedDirectory(ds[i])))
                else NotAssigned)
  }

  /** Decoding an encoded tree reproduces the name, the six timestamp fields and,
      recursively, the file and directory lists. */
  lemma {:induction false} DirectoryRoundTrip(d: DirectoryInfoRecord)
    ensures DecodeDirectory(EncodeDirectory(d)) == Ok(PersistedDirectory(d))
    decreases d, 1
  {
    var j := EncodeDirectory(d);
    var m := j.fields;
    FilesRoundTrip(d);
    DirectoriesRoundTrip(d);
    assert DecodeString(m, NameKey) == Ok(d.name);
    assert DecodeStringIfPresent(m, CreationDateUtcKey) == Ok(d.creationDateUtc);
    assert DecodeNumberIfPresent(m, CreationDateUtcIntervalKey) == Ok(d.creationDateUtcInterval);
    assert DecodeStringIfPresent(m, ModificationDateUtcKey) == Ok(d.modificationDateUtc);
    assert DecodeNumberIfPresent(m, ModificationDateUtcIntervalKey) == Ok(d.modificationDateUtcInterval);
    assert DecodeStringIfPresent(m, AccessDateUtcKey) == Ok(d.accessDateUtc);
    assert DecodeNumberIfPresent(m, AccessDateUtcIntervalKey) == Ok(d.accessDateUtcInterval);
  }

  lemma FilesRoundTrip(d: DirectoryInfoRecord)
    ensures DecodeFilesIfPresent(EncodeDirectory(d).fields) == Ok(PersistedDirectory(d).files)
  {
    var m := EncodeDirectory(d).fields;
    var p := PersistedDirectory(d);
    if d.files.Some? {
      var fs := d.files.value;
      assert FilesKey in m && m[FilesKey] == DirectoryField(d, FilesKey).value == EncodeFiles(fs);
      var items := EncodeFiles(fs).items;
      var rs := seq(|items|, i requires 0 <= i < |items| => DecodeRegularFile(items[i]));
      forall i | 0 <= i < |fs| ensures rs[i] == Ok(PersistedRegularFile(fs[i])) {
        RegularFileRoundTrip(fs[i]);
      }
      var decoded := AllOk(rs);
      assert decoded.Ok? && |decoded.value| == |p.files.value|;
      assert decoded.value == p.files.value;
    }
  }

  lemma {:induction false} DirectoriesRoundTrip(d: DirectoryInfoRecord)
    ensures DecodeDirectoriesIfPresent(EncodeDirectory(d)) == Ok(PersistedDirectory(d).directories)
    decreases d, 0
  {
    var m := EncodeDirectory(d).fields;
    var p := PersistedDirectory(d);
    if d.directories.Assigned? {
      var ds := d.directories.items;
      var arr := DirectoryField(d, DirectoriesKey).value;
      assert DirectoriesKey in m && m[DirectoriesKey] == arr;
      var items := arr.items;
      assert |items| == |ds|;
      var rs := seq(|items|, i requires 0 <= i < |items| => DecodeDirectory(items[i]));
      forall i | 0 <= i < |ds| ensures rs[i] == Ok(PersistedDirectory(ds[i])) {
        assert items[i] == EncodeDirectory(ds[i]);
        DirectoryRoundTrip(ds[i]);
      }
      var decoded := AllOk(rs);
      assert decoded.Ok? && |decoded.value| == |p.directories.items|;
      assert decoded.value == p.directories.items;
    }
  }

  /** Only `name` is required. */
  lemma DecodeOnlyName(name: string)
    ensures DecodeDirectory(JObject(map[NameKey := JString(name)])) == Ok(NewDirectory(name))
  {
  }
}
