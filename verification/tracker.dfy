/**
 * The upload status: the record of one multipart upload (file, bucket, key,
 * upload ID, part size, total parts and the ETag of every completed part) that
 * is saved to a status file after each part so that an interrupted upload can
 * be resumed.
 *
 * The status file holds the JSON value the record marshals to; the JSON text
 * itself is not modelled. `StatusFiles` stands for the files on disk.
 */
module Tracker {
  import opened Wrappers
  import opened Text
  import Json

  /** The fields of UploadStatus that are marshalled (the mutex is not). */
  datatype StatusRecord = StatusRecord(
    filePath: string,
    originalFilePath: string,
    uploadID: string,
    bucket: string,
    key: string,
    completedParts: map<int, string>,
    totalParts: int,
    partSizeBytes: int)

  predicate IsInt64(i: int) {
    MinInt64 <= i <= MaxInt64
  }

  /** What a Go value of the record's types can hold: every number is a 64-bit integer. */
  predicate Representable(r: StatusRecord) {
    IsInt64(r.totalParts) && IsInt64(r.partSizeBytes) && forall p :: p in r.completedParts ==> IsInt64(p)
  }

  /** The completedParts map marshalled: integer keys become their decimal spelling. */
  function EncodeParts(parts: map<int, string>): (o: map<string, Json.Value>)
    ensures forall p :: p in parts ==> IntToString(p) in o && o[IntToString(p)] == Json.Str(parts[p])
  {
    IntToStringInjectiveAll();
    map p | p in parts :: IntToString(p) := Json.Str(parts[p])
  }

  /** json.Marshal of the record; "originalFilePath" is omitted when empty (omitempty). */
  function Encode(r: StatusRecord): (v: Json.Value)
    ensures v.Obj?
    ensures "originalFilePath" in v.fields <==> r.originalFilePath != ""
  {
    var fields := map[
      "filePath" := Json.Str(r.filePath),
      "uploadId" := Json.Str(r.uploadID),
      "bucket" := Json.Str(r.bucket),
      "key" := Json.Str(r.key),
      "completedParts" := Json.Obj(EncodeParts(r.completedParts)),
      "totalParts" := Json.Num(r.totalParts),
      "partSizeBytes" := Json.Num(r.partSizeBytes)];
    if r.originalFilePath != "" then Json.Obj(fields["originalFilePath" := Json.Str(r.originalFilePath)])
    else Json.Obj(fields)
  }

  /** A string member: missing or null leaves the zero value "", a non-string is an error. */
  function StringField(v: Json.Value, name: string): (r: Result<string, string>)
    ensures r.Ok? && r.value != "" ==> Json.Get(v, name) == Some(Json.Str(r.value))
    ensures r.Err? <==> Json.Get(v, name).Some? && !Json.Get(v, name).value.Null? && !Json.Get(v, name).value.Str?
  {
    match Json.Get(v, name)
    case None => Ok("")
    case Some(Null) => Ok("")
    case Some(Str(s)) => Ok(s)
    case Some(_) => Err("cannot unmarshal into string field " + name)
  }

  /** An int member: missing or null leaves 0; a non-number or a number outside 64 bits is an error. */
  function IntField(v: Json.Value, name: string): (r: Result<int, string>)
    ensures r.Ok? ==> IsInt64(r.value)
  {
    match Json.Get(v, name)
    case None => Ok(0)
    case Some(Null) => Ok(0)
    case Some(Num(n)) => if IsInt64(n) then Ok(n) else Err("number out of range for field " + name)
    case Some(_) => Err("cannot unmarshal into int field " + name)
  }

  /** The string a completedParts value unmarshals to: null leaves the zero value "". */
  function ElementString(v: Json.Value): string {
    if v.Str? then v.s else ""
  }

  /** A member whose name is not a 64-bit integer or whose value is neither a string nor null. */
  predicate BadEntry(o: map<string, Json.Value>) {
    exists s :: s in o && (ParseInt(s).None? || !(o[s].Str? || o[s].Null?))
  }

  /**
   * Two member names that spell the same part number, such as "7" and "+7",
   * with different strings: which one survives depends on the order of the
   * members in the text, which an object value does not record.
   */
  predicate SpelledTwice(o: map<string, Json.Value>) {
    exists s, t :: s in o && t in o && ParseInt(s) == ParseInt(t) && ElementString(o[s]) != ElementString(o[t])
  }

  /**
   * The completedParts object unmarshalled into map[int]string: every member name
   * must parse as a 64-bit integer and every value must be a string or null
   * (which stores ""); spellings of one number that agree collapse into one entry.
   */
  function DecodeParts(o: map<string, Json.Value>): (r: Result<map<int, string>, string>)
    ensures r.Err? <==> BadEntry(o) || SpelledTwice(o)
    ensures r.Ok? ==> forall p :: p in r.value ==> IsInt64(p)
  {
    if BadEntry(o) then Err("invalid completedParts entry")
    else if SpelledTwice(o) then Err("part number spelled twice with different values")
    else Ok(map s | s in o :: ParseInt(s).value := ElementString(o[s]))
  }

  /**
   * A decoded map holds one entry per member, under the number its name
   * spells and holding its string ("" for null), and nothing else.
   */
  lemma DecodedEntries(o: map<string, Json.Value>)
    requires DecodeParts(o).Ok?
    ensures forall s :: s in o ==>
      ParseInt(s).Some? && ParseInt(s).value in DecodeParts(o).value
      && (o[s].Str? || o[s].Null?) && ElementString(o[s]) == DecodeParts(o).value[ParseInt(s).value]
    ensures forall p :: p in DecodeParts(o).value ==> exists s :: s in o && ParseInt(s) == Some(p)
  {
    var m := DecodeParts(o).value;
    forall s | s in o
      ensures ParseInt(s).Some? && ParseInt(s).value in m
      ensures (o[s].Str? || o[s].Null?) && ElementString(o[s]) == m[ParseInt(s).value]
    {
      assert !(ParseInt(s).None? || !(o[s].Str? || o[s].Null?));
      var p := ParseInt(s).value;
      assert p in m;
      var t :| t in o && ParseInt(t).value == p && m[p] == ElementString(o[t]);
      assert !(ParseInt(t).None? || !(o[t].Str? || o[t].Null?));
      assert ParseInt(s) == ParseInt(t);
      assert !(ParseInt(s) == ParseInt(t) && ElementString(o[s]) != ElementString(o[t]));
    }
  }

  /** A null value stores the zero string under its part number, as `{"1": null}` does. */
  lemma NullPartDecodes()
    ensures DecodeParts(map["1" := Json.Null]) == Ok(map[1 := ""])
  {
    var o := map["1" := Json.Null];
    assert ParseInt("1") == Some(1) by { assert "1"[0] == '1'; }
    assert !BadEntry(o);
    assert !SpelledTwice(o);
    DecodedEntries(o);
    var m := DecodeParts(o).value;
    assert "1" in o;
    assert 1 in m && m[1] == "";
    assert m.Keys == {1};
    assert m == map[1 := ""];
  }

  /** Two spellings of one part number with different strings, `{"1": "a", "01": "b"}`, are the case left undecided. */
  lemma ConflictingSpellings()
    ensures DecodeParts(map["1" := Json.Str("a"), "01" := Json.Str("b")]).Err?
  {
    var o := map["1" := Json.Str("a"), "01" := Json.Str("b")];
    assert ParseInt("1") == Some(1) by { assert "1"[0] == '1'; }
    assert ParseInt("01") == Some(1) by { assert "01"[1..] == "1"; }
    assert ParseInt("1") == ParseInt("01") && ElementString(o["1"]) != ElementString(o["01"]);
  }

  function PartsField(v: Json.Value): (r: Result<map<int, string>, string>)
    ensures r.Ok? ==> forall p :: p in r.value ==> IsInt64(p)
  {
    match Json.Get(v, "completedParts")
    case None => Ok(map[])
    case Some(Null) => Ok(map[])
    case Some(Obj(o)) => DecodeParts(o)
    case Some(_) => Err("cannot unmarshal completedParts")
  }

  /** json.Unmarshal into an UploadStatus: null leaves every field zero, any other non-object is an error. */
  function Decode(v: Json.Value): (r: Result<StatusRecord, string>)
    ensures r.Ok? ==> Representable(r.value)
    ensures !v.Obj? && !v.Null? ==> r.Err?
  {
    if v.Null? then Ok(StatusRecord("", "", "", "", "", map[], 0, 0))
    else if !v.Obj? then Err("cannot unmarshal into UploadStatus")
    else
      var filePath := StringField(v, "filePath");
      var original := StringField(v, "originalFilePath");
      var uploadID := StringField(v, "uploadId");
      var bucket := StringField(v, "bucket");
      var key := StringField(v, "key");
      var parts := PartsField(v);
      var total := IntField(v, "totalParts");
      var partSize := IntField(v, "partSizeBytes");
      if filePath.Err? || original.Err? || uploadID.Err? || bucket.Err? || key.Err? then Err("invalid string field")
      else if parts.Err? then Err(parts.error)
      else if total.Err? || partSize.Err? then Err("invalid number field")
      else Ok(StatusRecord(filePath.value, original.value, uploadID.value, bucket.value, key.value,
                           parts.value, total.value, partSize.value))
  }

  /** Every member name of the marshalled map is the spelling of one of the part numbers. */
  lemma EncodedKey(parts: map<int, string>, s: string)
    requires forall p :: p in parts ==> IsInt64(p)
    requires s in EncodeParts(parts)
    ensures ParseInt(s).Some? && ParseInt(s).value in parts
    ensures s == IntToString(ParseInt(s).value)
    ensures EncodeParts(parts)[s] == Json.Str(parts[ParseInt(s).value])
  {
    var p :| p in parts && s == IntToString(p);
    ParseIntOfIntToString(p);
  }

  /** Member names that are exactly the canonical spellings of the keys of `parts`. */
  ghost predicate Canonical(o: map<string, Json.Value>, parts: map<int, string>) {
    && (forall s :: s in o ==>
          ParseInt(s).Some? && ParseInt(s).value in parts && s == IntToString(ParseInt(s).value)
          && o[s] == Json.Str(parts[ParseInt(s).value]))
    && (forall p :: p in parts ==> IntToString(p) in o && ParseInt(IntToString(p)) == Some(p))
  }

  /** An object whose member names are exactly the canonical spellings of the keys of `parts` decodes to `parts`. */
  lemma DecodeCanonicalParts(o: map<string, Json.Value>, parts: map<int, string>)
    requires Canonical(o, parts)
    ensures DecodeParts(o) == Ok(parts)
  {
    CanonicalNotBad(o, parts);
    CanonicalNotTwice(o, parts);
    DecodedEntries(o);
    CanonicalSameMap(o, parts, DecodeParts(o).value);
  }

  lemma CanonicalNotBad(o: map<string, Json.Value>, parts: map<int, string>)
    requires Canonical(o, parts)
    ensures !BadEntry(o)
  {
  }

  lemma CanonicalNotTwice(o: map<string, Json.Value>, parts: map<int, string>)
    requires Canonical(o, parts)
    ensures !SpelledTwice(o)
  {
  }

  lemma CanonicalSameMap(o: map<string, Json.Value>, parts: map<int, string>, m: map<int, string>)
    requires Canonical(o, parts)
    requires forall s :: s in o ==> ParseInt(s).Some? && ParseInt(s).value in m && ElementString(o[s]) == m[ParseInt(s).value]
    requires forall p :: p in m ==> exists s :: s in o && ParseInt(s) == Some(p)
    ensures m == parts
  {
    forall p | p in parts
      ensures p in m && m[p] == parts[p]
    {
      assert IntToString(p) in o;
    }
    forall p | p in m
      ensures p in parts
    {
      var s :| s in o && ParseInt(s) == Some(p);
    }
    assert m.Keys == parts.Keys;
  }

  lemma DecodeEncodeParts(parts: map<int, string>)
    requires forall p :: p in parts ==> IsInt64(p)
    ensures DecodeParts(EncodeParts(parts)) == Ok(parts)
  {
    var o := EncodeParts(parts);
    forall s | s in o
      ensures ParseInt(s).Some? && ParseInt(s).value in parts && s == IntToString(ParseInt(s).value)
      ensures o[s] == Json.Str(parts[ParseInt(s).value])
    {
      EncodedKey(parts, s);
    }
    forall p | p in parts
      ensures IntToString(p) in o && ParseInt(IntToString(p)) == Some(p)
    {
      ParseIntOfIntToString(p);
    }
    assert Canonical(o, parts);
    DecodeCanonicalParts(o, parts);
  }

  lemma StringMember(v: Json.Value, name: string, s: string)
    requires v.Obj? && name in v.fields && v.fields[name] == Json.Str(s)
    ensures StringField(v, name) == Ok(s)
  {
  }

  lemma EncodedStrings(r: StatusRecord)
    ensures StringField(Encode(r), "filePath") == Ok(r.filePath)
    ensures StringField(Encode(r), "originalFilePath") == Ok(r.originalFilePath)
    ensures StringField(Encode(r), "uploadId") == Ok(r.uploadID)
  {
    var v := Encode(r);
    assert v.fields["filePath"] == Json.Str(r.filePath);
    StringMember(v, "filePath", r.filePath);
    if r.originalFilePath != "" {
      assert v.fields["originalFilePath"] == Json.Str(r.originalFilePath);
      StringMember(v, "originalFilePath", r.originalFilePath);
    }
    assert v.fields["uploadId"] == Json.Str(r.uploadID);
    StringMember(v, "uploadId", r.uploadID);
  }

  lemma EncodedMoreStrings(r: StatusRecord)
    ensures StringField(Encode(r), "bucket") == Ok(r.bucket)
    ensures StringField(Encode(r), "key") == Ok(r.key)
  {
    var v := Encode(r);
    assert v.fields["bucket"] == Json.Str(r.bucket);
    StringMember(v, "bucket", r.bucket);
    assert v.fields["key"] == Json.Str(r.key);
    StringMember(v, "key", r.key);
  }

  lemma EncodedNumbers(r: StatusRecord)
    requires Representable(r)
    ensures IntField(Encode(r), "totalParts") == Ok(r.totalParts)
    ensures IntField(Encode(r), "partSizeBytes") == Ok(r.partSizeBytes)
  {
  }

  lemma EncodedParts(r: StatusRecord)
    ensures Json.Get(Encode(r), "completedParts") == Some(Json.Obj(EncodeParts(r.completedParts)))
  {
  }

  lemma PartsFieldOfObject(v: Json.Value, o: map<string, Json.Value>)
    requires Json.Get(v, "completedParts") == Some(Json.Obj(o))
    ensures PartsField(v) == DecodeParts(o)
  {
  }

  /** LoadStatus reads back exactly the record SaveStatus wrote. */
  lemma DecodeEncode(r: StatusRecord)
    requires Representable(r)
    ensures Decode(Encode(r)) == Ok(r)
  {
    EncodedStrings(r);
    EncodedMoreStrings(r);
    EncodedNumbers(r);
    EncodedParts(r);
    DecodeEncodeParts(r.completedParts);
    PartsFieldOfObject(Encode(r), EncodeParts(r.completedParts));
    DecodeOfFields(Encode(r), r);
  }

  /** An object whose members decode to the fields of r decodes to r. */
  lemma DecodeOfFields(v: Json.Value, r: StatusRecord)
    requires v.Obj?
    requires StringField(v, "filePath") == Ok(r.filePath)
    requires StringField(v, "originalFilePath") == Ok(r.originalFilePath)
    requires StringField(v, "uploadId") == Ok(r.uploadID)
    requires StringField(v, "bucket") == Ok(r.bucket)
    requires StringField(v, "key") == Ok(r.key)
    requires PartsField(v) == Ok(r.completedParts)
    requires IntField(v, "totalParts") == Ok(r.totalParts)
    requires IntField(v, "partSizeBytes") == Ok(r.partSizeBytes)
    ensures Decode(v) == Ok(r)
  {
  }

  /** The status files on disk, by path. */
  class StatusFiles {
    var files: map<string, Json.Value>

    constructor (files0: map<string, Json.Value>)
      ensures files == files0
    {
      files := files0;
    }

    /**
     * os.Remove of a status file: fails when there is no such file or the
     * system refuses the removal (`removeOk` false); a failure leaves every
     * file as it was.
     */
    method Remove(path: string, removeOk: bool) returns (ok: bool)
      modifies this
      ensures ok <==> path in old(files) && removeOk
      ensures ok ==> files == old(files) - {path}
      ensures !ok ==> files == old(files)
    {
      ok := path in files && removeOk;
      if ok {
        files := files - {path};
      }
    }
  }

  class UploadStatus {
    var filePath: string
    var originalFilePath: string
    var uploadID: string
    var bucket: string
    var key: string
    var completedParts: map<int, string>
    var totalParts: int
    var partSizeBytes: int

    function Record(): StatusRecord
      reads this
    {
      StatusRecord(filePath, originalFilePath, uploadID, bucket, key, completedParts, totalParts, partSizeBytes)
    }

    /** NewUploadStatus: no part completed yet, no original path. */
    constructor (filePath: string, bucket: string, key: string, uploadID: string, totalParts: int, partSizeBytes: int)
      ensures Record() == StatusRecord(filePath, "", uploadID, bucket, key, map[], totalParts, partSizeBytes)
    {
      this.filePath := filePath;
      this.originalFilePath := "";
      this.uploadID := uploadID;
      this.bucket := bucket;
      this.key := key;
      this.completedParts := map[];
      this.totalParts := totalParts;
      this.partSizeBytes := partSizeBytes;
    }

    /** A status rebuilt from a decoded record. */
    constructor FromRecord(r: StatusRecord)
      ensures Record() == r
    {
      filePath, originalFilePath, uploadID, bucket, key := r.filePath, r.originalFilePath, r.uploadID, r.bucket, r.key;
      completedParts, totalParts, partSizeBytes := r.completedParts, r.totalParts, r.partSizeBytes;
    }

    predicate IsPartCompleted(partNumber: int): (done: bool)
      reads this
      ensures done <==> partNumber in completedParts.Keys
    {
      partNumber in completedParts
    }

    /** Records (or overwrites) the ETag of a part; no other part and no other field changes. */
    method AddCompletedPart(partNumber: int, eTag: string)
      modifies this`completedParts
      ensures IsPartCompleted(partNumber) && completedParts[partNumber] == eTag
      ensures forall p :: p != partNumber ==> IsPartCompleted(p) == old(IsPartCompleted(p))
      ensures completedParts == old(completedParts)[partNumber := eTag]
    {
      completedParts := completedParts[partNumber := eTag];
    }

    /** SaveStatus: the status file at `path` becomes the marshalled record, unless the write fails. */
    method SaveStatus(disk: StatusFiles, path: string, writeOk: bool) returns (ok: bool)
      modifies disk
      ensures ok == writeOk
      ensures ok ==> disk.files == old(disk.files)[path := Encode(Record())]
      ensures !ok ==> disk.files == old(disk.files)
    {
      if writeOk {
        disk.files := disk.files[path := Encode(Record())];
      }
      ok := writeOk;
    }
  }

  /**
   * LoadStatus: a missing file or a value that does not unmarshal into an
   * UploadStatus is an error; otherwise a new status holding the decoded record.
   */
  method LoadStatus(disk: StatusFiles, path: string) returns (r: Result<UploadStatus, string>)
    ensures r.Err? <==> path !in disk.files || Decode(disk.files[path]).Err?
    ensures r.Ok? ==> fresh(r.value) && Ok(r.value.Record()) == Decode(disk.files[path])
  {
    if path !in disk.files {
      return Err("failed to read upload status file");
    }
    var d := Decode(disk.files[path]);
    if d.Err? {
      return Err("failed to unmarshal upload status: " + d.error);
    }
    var us := new UploadStatus.FromRecord(d.value);
    r := Ok(us);
  }
}
