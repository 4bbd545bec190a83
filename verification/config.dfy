/**
 * The application configuration and the interactive prompts that fill it.
 * Standard input is a parameter: the sequence of strings that successive
 * reader.ReadString('\n') calls return. Once it is used up every further read
 * returns "" (Go returns what it read together with io.EOF, and the prompts
 * ignore the error).
 */
module Config {
  import opened Wrappers
  import opened Text

  const DefaultRegion: string := "ap-northeast-2"

  /** config.Config; fields that a prompt does not set keep Go's zero value. */
  datatype Config = Config(
    bucket: string,
    key: string,
    region: string,
    partSizeMB: int,
    maxConcurrency: int,
    uploadID: string)

  /** One ReadString call: the next line, or "" once the input is exhausted. */
  function ReadLine(input: seq<string>): (r: (string, seq<string>))
    ensures input != [] ==> r == (input[0], input[1..])
    ensures input == [] ==> r == ("", [])
  {
    if input == [] then ("", []) else (input[0], input[1..])
  }

  /**
   * parseIntWithMin: blank input gives the default; input that is not an
   * integer, or is below the minimum, gives the minimum; otherwise the
   * number read.
   */
  function ParseIntWithMin(input: string, defaultVal: int, minVal: int): (r: int)
    ensures TrimSpace(input) == "" ==> r == defaultVal
    ensures TrimSpace(input) != "" ==> r >= minVal
    ensures TrimSpace(input) != "" && r != minVal ==> ParseInt(TrimSpace(input)) == Some(r)
    ensures TrimSpace(input) != "" && (ParseInt(TrimSpace(input)).None? || ParseInt(TrimSpace(input)).value < minVal) ==> r == minVal
    ensures defaultVal >= minVal ==> r >= minVal
  {
    var t := TrimSpace(input);
    if t == "" then defaultVal
    else
      match ParseInt(t)
      case None => minVal
      case Some(v) => if v < minVal then minVal else v
  }

  /** A string that neither starts nor ends with white space is left alone by TrimSpace. */
  lemma TrimSpaceNoSpace(s: string)
    requires s == [] || (!IsSpace(s[0]) && !IsSpace(s[|s| - 1]))
    ensures TrimSpace(s) == s
  {
    assert TrimLeft(s) == s;
    assert TrimRight(s) == s;
  }

  /** The decimal spelling of a number contains no white space. */
  lemma IntToStringNoSpace(v: int)
    ensures forall i :: 0 <= i < |IntToString(v)| ==> !IsSpace(IntToString(v)[i])
  {
    var s := IntToString(v);
    if v >= 0 {
      assert AllDigits(s);
    } else {
      var d := NatToString(-v);
      assert AllDigits(d);
      assert s == "-" + d;
      forall i | 0 <= i < |s|
        ensures !IsSpace(s[i])
      {
        if i > 0 { assert s[i] == d[i - 1]; }
      }
    }
  }

  /** Typing a number that meets the minimum yields that number, whatever the default. */
  lemma ParseIntWithMinOfNumber(v: int, defaultVal: int, minVal: int)
    requires minVal <= v && MinInt64 <= v <= MaxInt64
    ensures ParseIntWithMin(IntToString(v), defaultVal, minVal) == v
  {
    var s := IntToString(v);
    IntToStringNoSpace(v);
    TrimSpaceNoSpace(s);
    ParseIntOfIntToString(v);
    ParsedLine(s, defaultVal, minVal, v);
  }

  lemma ParsedLine(line: string, defaultVal: int, minVal: int, v: int)
    requires TrimSpace(line) == line && ParseInt(line) == Some(v) && minVal <= v
    ensures ParseIntWithMin(line, defaultVal, minVal) == v
  {
  }

  /** defaultIfEmpty: the trimmed value, or the default when that is empty. */
  function DefaultIfEmpty(val: string, def: string): (r: string)
    ensures TrimSpace(val) == "" ==> r == def
    ensures TrimSpace(val) != "" ==> r == TrimSpace(val)
    ensures def != "" ==> r != ""
  {
    var t := TrimSpace(val);
    if t == "" then def else t
  }

  /** Applying the default a second time changes nothing, for a default without surrounding space. */
  lemma DefaultIfEmptyIdempotent(val: string, def: string)
    requires TrimSpace(def) == def
    ensures DefaultIfEmpty(DefaultIfEmpty(val, def), def) == DefaultIfEmpty(val, def)
  {
    TrimSpaceIdempotent(val);
  }

  /**
   * A prompted value: the existing value trimmed when it is not blank (no
   * input is read), otherwise the next line trimmed.
   */
  function ExistingOrRead(existing: string, input: seq<string>): (r: (string, seq<string>))
    ensures TrimSpace(existing) != "" ==> r == (TrimSpace(existing), input)
    ensures TrimSpace(existing) == "" ==> r == (TrimSpace(ReadLine(input).0), ReadLine(input).1)
  {
    var t := TrimSpace(existing);
    if t != "" then (t, input)
    else
      var (line, rest) := ReadLine(input);
      (TrimSpace(line), rest)
  }

  /**
   * PromptForUploadConfig: bucket and key come from the arguments when they
   * are not blank and are read otherwise; region, part size and concurrency
   * are always read, in that order. Returns the configuration and the input
   * left unread.
   */
  function PromptForUploadConfig(existingBucket: string, existingKey: string, input: seq<string>): (r: (Config, seq<string>))
    ensures r.0.partSizeMB >= 5 && r.0.maxConcurrency >= 1
    ensures r.0.region != "" && (r.0.region == DefaultRegion || r.0.region == TrimSpace(r.0.region))
    ensures TrimSpace(existingBucket) != "" ==> r.0.bucket == TrimSpace(existingBucket)
    ensures TrimSpace(existingKey) != "" ==> r.0.key == TrimSpace(existingKey)
    ensures r.0.uploadID == ""
  {
    var (bucket, in1) := ExistingOrRead(existingBucket, input);
    var (key, in2) := ExistingOrRead(existingKey, in1);
    var (region, in3) := ReadLine(in2);
    var (partStr, in4) := ReadLine(in3);
    var (conStr, in5) := ReadLine(in4);
    TrimSpaceIdempotent(region);
    (Config(bucket, key, DefaultIfEmpty(region, DefaultRegion), ParseIntWithMin(partStr, 10, 5), ParseIntWithMin(conStr, 4, 1), ""), in5)
  }

  /** With bucket and key given, three lines are read: region, part size and concurrency. */
  lemma UploadConfigGivenNames(existingBucket: string, existingKey: string, input: seq<string>)
    requires TrimSpace(existingBucket) != "" && TrimSpace(existingKey) != "" && |input| >= 3
    ensures PromptForUploadConfig(existingBucket, existingKey, input) ==
              (Config(TrimSpace(existingBucket), TrimSpace(existingKey), DefaultIfEmpty(input[0], DefaultRegion),
                      ParseIntWithMin(input[1], 10, 5), ParseIntWithMin(input[2], 4, 1), ""), input[3..])
  {
    var in1 := input[1..];
    var in2 := in1[1..];
    assert in1[0] == input[1] && in2[0] == input[2];
    assert in2[1..] == input[3..];
  }

  /** With neither given, five lines are read: bucket, key, region, part size and concurrency. */
  lemma UploadConfigReadsFiveLines(existingBucket: string, existingKey: string, input: seq<string>)
    requires TrimSpace(existingBucket) == "" && TrimSpace(existingKey) == "" && |input| >= 5
    ensures PromptForUploadConfig(existingBucket, existingKey, input) ==
              (Config(TrimSpace(input[0]), TrimSpace(input[1]), DefaultIfEmpty(input[2], DefaultRegion),
                      ParseIntWithMin(input[3], 10, 5), ParseIntWithMin(input[4], 4, 1), ""), input[5..])
  {
    var in1 := input[1..];
    var in2 := in1[1..];
    var in3 := in2[1..];
    var in4 := in3[1..];
    assert in1[0] == input[1] && in2[0] == input[2] && in3[0] == input[3] && in4[0] == input[4];
    assert in4[1..] == input[5..];
  }

  /**
   * PromptForResumeConfig: reads bucket, key, region and upload id, in that
   * order; all are trimmed and the region defaults. Part size and
   * concurrency keep their zero values.
   */
  function PromptForResumeConfig(input: seq<string>): (r: (Config, seq<string>))
    ensures r.0.bucket == TrimSpace(ReadLine(input).0)
    ensures r.0.region != "" && r.0.partSizeMB == 0 && r.0.maxConcurrency == 0
  {
    var (bucket, in1) := ReadLine(input);
    var (key, in2) := ReadLine(in1);
    var (region, in3) := ReadLine(in2);
    var (uploadID, in4) := ReadLine(in3);
    (Config(TrimSpace(bucket), TrimSpace(key), DefaultIfEmpty(region, DefaultRegion), 0, 0, TrimSpace(uploadID)), in4)
  }

  /** With four lines available, they give bucket, key, region and upload id, and nothing more is read. */
  lemma ResumeConfigReadsFourLines(input: seq<string>)
    requires |input| >= 4
    ensures PromptForResumeConfig(input) == (Config(TrimSpace(input[0]), TrimSpace(input[1]), DefaultIfEmpty(input[2], DefaultRegion),
                                                   0, 0, TrimSpace(input[3])), input[4..])
  {
    var in1 := input[1..];
    var in2 := in1[1..];
    var in3 := in2[1..];
    assert in1[0] == input[1] && in2[0] == input[2] && in3[0] == input[3];
    assert in3[1..] == input[4..];
  }

  /**
   * PromptForSimpleBucket: bucket and region come from the arguments when
   * not blank and are read otherwise; a blank region read from input
   * becomes the default region.
   */
  function PromptForSimpleBucket(bucketInput: string, regionInput: string, input: seq<string>): (r: (Config, seq<string>))
    ensures TrimSpace(bucketInput) != "" ==> r.0.bucket == TrimSpace(bucketInput)
    ensures TrimSpace(regionInput) != "" ==> r.0.region == TrimSpace(regionInput)
    ensures TrimSpace(bucketInput) != "" && TrimSpace(regionInput) != "" ==> r.1 == input
    ensures r.0.region != ""
    ensures r.0.key == "" && r.0.uploadID == ""
  {
    var (bucket, in1) := ExistingOrRead(bucketInput, input);
    var (region, in2) := ExistingOrRead(regionInput, in1);
    TrimSpaceIdempotent(regionInput);
    (Config(bucket, "", DefaultIfEmpty(region, DefaultRegion), 0, 0, ""), in2)
  }
}
