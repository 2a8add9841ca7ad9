/** The keyed-container view of a JSON document that Swift's `Codable` works on.
    Object keys are the `CodingKeys` cases of the three `Codable` classes, plus
    any other key the text may hold; numbers are exact reals. Text layout
    (pretty printing, key sorting, escaping) is not part of this model. */
module Json {
  import opened Wrappers

  datatype CodingKey =
    | NameKey
    | CreationDateUtcKey
    | CreationDateUtcIntervalKey
    | ModificationDateUtcKey
    | ModificationDateUtcIntervalKey
    | AccessDateUtcKey
    | AccessDateUtcIntervalKey
    | SizeKey
    | Sha512Key
    | FilesKey
    | DirectoriesKey
    | RecordTimeUtcKey
    | RecordTimeUtcIntervalKey
    | DirectoryKey
    | OtherKey(raw: string)
  {
    /** The key as it appears in the file (the case name, Swift's default raw value). */
    function RawValue(): string {
      match this
      case NameKey => "name"
      case CreationDateUtcKey => "creationDateUtc"
      case CreationDateUtcIntervalKey => "creationDateUtcInterval"
      case ModificationDateUtcKey => "modificationDateUtc"
      case ModificationDateUtcIntervalKey => "modificationDateUtcInterval"
      case AccessDateUtcKey => "accessDateUtc"
      case AccessDateUtcIntervalKey => "accessDateUtcInterval"
      case SizeKey => "size"
      case Sha512Key => "sha512"
      case FilesKey => "files"
      case DirectoriesKey => "directories"
      case RecordTimeUtcKey => "recordTimeUtc"
      case RecordTimeUtcIntervalKey => "recordTimeUtcInterval"
      case DirectoryKey => "directory"
      case OtherKey(raw) => raw
    }
  }

  /** What Foundation's JSONDecoder throws, with the key it was decoding. */
  datatype DecodingError =
    | KeyNotFound(key: CodingKey)
    | ValueNotFound(key: CodingKey)
    | TypeMismatch(key: CodingKey)
    | DataCorrupted(key: CodingKey)
    | NotAContainer

  datatype JsonValue =
    | JNull
    | JBool(b: bool)
    | JNumber(n: real)
    | JString(s: string)
    | JArray(items: seq<JsonValue>)
    | JObject(fields: map<CodingKey, JsonValue>)

  /** Builds a keyed container from a field table: a key is written exactly when
      its field is present (`encode` for required fields, `encodeIfPresent` for
      optional ones). */
  function Container(keys: set<CodingKey>, field: CodingKey -> Option<JsonValue>): (j: JsonValue)
    ensures j.JObject?
    ensures forall k :: k in j.fields <==> k in keys && field(k).Some?
    ensures forall k :: k in j.fields ==> j.fields[k] == field(k).value
  {
    JObject(map k | k in keys && field(k).Some? :: field(k).value)
  }

  function StringValue(o: Option<string>): Option<JsonValue> {
    match o
    case None => None
    case Some(s) => Some(JString(s))
  }

  function NumberValue(o: Option<real>): Option<JsonValue> {
    match o
    case None => None
    case Some(r) => Some(JNumber(r))
  }

  function IntValue(o: Option<int>): Option<JsonValue> {
    match o
    case None => None
    case Some(i) => Some(JNumber(i as real))
  }

  /** `decode(String.self, forKey:)`: the key is required and must hold a string. */
  function DecodeString(m: map<CodingKey, JsonValue>, key: CodingKey): (r: Result<string, DecodingError>)
    ensures r.Ok? <==> key in m && m[key].JString?
    ensures r.Ok? ==> r.value == m[key].s
    ensures key !in m ==> r == Err(KeyNotFound(key))
  {
    if key !in m then Err(KeyNotFound(key))
    else match m[key]
      case JNull => Err(ValueNotFound(key))
      case JString(s) => Ok(s)
      case _ => Err(TypeMismatch(key))
  }

  /** `decode(Double.self, forKey:)`: the key is required and must hold a number. */
  function DecodeNumber(m: map<CodingKey, JsonValue>, key: CodingKey): (r: Result<real, DecodingError>)
    ensures r.Ok? <==> key in m && m[key].JNumber?
    ensures r.Ok? ==> r.value == m[key].n
    ensures key !in m ==> r == Err(KeyNotFound(key))
  {
    if key !in m then Err(KeyNotFound(key))
    else match m[key]
      case JNull => Err(ValueNotFound(key))
      case JNumber(n) => Ok(n)
      case _ => Err(TypeMismatch(key))
  }

  /** `decodeIfPresent(String.self, forKey:)`: an absent key or `null` gives nil. */
  function DecodeStringIfPresent(m: map<CodingKey, JsonValue>, key: CodingKey): (r: Result<Option<string>, DecodingError>)
    ensures key !in m ==> r == Ok(None)
    ensures key in m && m[key].JString? ==> r == Ok(Some(m[key].s))
    ensures r.Err? <==> key in m && !m[key].JNull? && !m[key].JString?
  {
    if key !in m then Ok(None)
    else match m[key]
      case JNull => Ok(None)
      case JString(s) => Ok(Some(s))
      case _ => Err(TypeMismatch(key))
  }

  /** `decodeIfPresent(Double.self, forKey:)`. */
  function DecodeNumberIfPresent(m: map<CodingKey, JsonValue>, key: CodingKey): (r: Result<Option<real>, DecodingError>)
    ensures key !in m ==> r == Ok(None)
    ensures key in m && m[key].JNumber? ==> r == Ok(Some(m[key].n))
    ensures r.Err? <==> key in m && !m[key].JNull? && !m[key].JNumber?
  {
    if key !in m then Ok(None)
    else match m[key]
      case JNull => Ok(None)
      case JNumber(n) => Ok(Some(n))
      case _ => Err(TypeMismatch(key))
  }

  /** `decodeIfPresent(Int.self, forKey:)`: the number must be a whole number in
      `[lo, hi]`, otherwise the decoder reports corrupted data. */
  function DecodeIntIfPresent(m: map<CodingKey, JsonValue>, key: CodingKey, lo: int, hi: int): (r: Result<Option<int>, DecodingError>)
    ensures key !in m ==> r == Ok(None)
    ensures r.Ok? && r.value.Some? ==> lo <= r.value.value <= hi && m[key] == JNumber(r.value.value as real)
    ensures forall i :: lo <= i <= hi && key in m && m[key] == JNumber(i as real) ==> r == Ok(Some(i))
  {
    if key !in m then Ok(None)
    else match m[key]
      case JNull => Ok(None)
      case JNumber(n) =>
        if n.Floor as real == n && lo <= n.Floor <= hi then Ok(Some(n.Floor)) else Err(DataCorrupted(key))
      case _ => Err(TypeMismatch(key))
  }

}
