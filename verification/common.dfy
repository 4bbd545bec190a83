/**
 * Shared command helpers: the required-field validator over a configuration,
 * the prompts that read standard input (a parameter: the lines successive
 * reads return, "" once it is exhausted), flag overrides of the loaded
 * configuration and the success message.
 */
module Common {
  import opened Wrappers
  import opened Text
  import Config

  const MinPartSizeMB: int := 5
  const MinConcurrency: int := 1

  /** Whether one required field is filled: bucket, key and region must be non-blank; other names impose nothing. */
  predicate FieldFilled(c: Config.Config, field: string) {
    match field
    case "bucket" => TrimSpace(c.bucket) != ""
    case "key" => TrimSpace(c.key) != ""
    case "region" => TrimSpace(c.region) != ""
    case _ => true
  }

  /** Every required field is filled. */
  predicate AllFilled(c: Config.Config, fields: seq<string>) {
    forall i :: 0 <= i < |fields| ==> FieldFilled(c, fields[i])
  }

  class ConfigValidator {
    var requiredFields: seq<string>
    var config: Config.Config

    /** NewConfigValidator: no field is required yet. */
    constructor (cfg: Config.Config)
      ensures requiredFields == [] && config == cfg
    {
      requiredFields := [];
      config := cfg;
    }

    /** RequireBucket: appends "bucket" and returns the same validator. */
    method RequireBucket() returns (cv: ConfigValidator)
      modifies this`requiredFields
      ensures cv == this
      ensures requiredFields == old(requiredFields) + ["bucket"]
    {
      requiredFields := requiredFields + ["bucket"];
      cv := this;
    }

    /** RequireKey: appends "key" and returns the same validator. */
    method RequireKey() returns (cv: ConfigValidator)
      modifies this`requiredFields
      ensures cv == this
      ensures requiredFields == old(requiredFields) + ["key"]
    {
      requiredFields := requiredFields + ["key"];
      cv := this;
    }

    /** RequireRegion: appends "region" and returns the same validator. */
    method RequireRegion() returns (cv: ConfigValidator)
      modifies this`requiredFields
      ensures cv == this
      ensures requiredFields == old(requiredFields) + ["region"]
    {
      requiredFields := requiredFields + ["region"];
      cv := this;
    }

    /**
     * IsValid: walks the required fields and answers false at the first one
     * that is blank; true when every required field is filled.
     */
    method IsValid() returns (valid: bool)
      ensures valid <==> AllFilled(config, requiredFields)
      ensures !valid ==> exists i :: 0 <= i < |requiredFields| && requiredFields[i] in {"bucket", "key", "region"} && !FieldFilled(config, requiredFields[i])
    {
      var i := 0;
      while i < |requiredFields|
        invariant 0 <= i <= |requiredFields|
        invariant forall j :: 0 <= j < i ==> FieldFilled(config, requiredFields[j])
      {
        var field := requiredFields[i];
        if field == "bucket" {
          if TrimSpace(config.bucket) == "" { BlankField(config, requiredFields, i); return false; }
        } else if field == "key" {
          if TrimSpace(config.key) == "" { BlankField(config, requiredFields, i); return false; }
        } else if field == "region" {
          if TrimSpace(config.region) == "" { BlankField(config, requiredFields, i); return false; }
        }
        assert FieldFilled(config, field);
        i := i + 1;
      }
      return true;
    }

    /**
     * PromptForMissingConfig: for each required field in order, a blank
     * field is replaced by the answer to PromptRequired; filled fields and
     * fields that are not required are left alone. When the input runs out
     * while a field is still unanswered, the source keeps asking forever;
     * here the walk stops and `answered` is false.
     */
    method PromptForMissingConfig(input: seq<string>) returns (answered: bool, rest: seq<string>)
      modifies this`config
      ensures answered ==> AllFilled(config, requiredFields)
      ensures !answered ==> rest == []
      ensures |rest| <= |input|
      ensures FieldFilled(old(config), "bucket") || "bucket" !in requiredFields ==> config.bucket == old(config.bucket)
      ensures FieldFilled(old(config), "key") || "key" !in requiredFields ==> config.key == old(config.key)
      ensures FieldFilled(old(config), "region") || "region" !in requiredFields ==> config.region == old(config.region)
      ensures config.partSizeMB == old(config.partSizeMB) && config.maxConcurrency == old(config.maxConcurrency)
      ensures config.uploadID == old(config.uploadID)
      ensures AllFilled(old(config), requiredFields) ==> config == old(config) && rest == input
      ensures Prompted(old(config), requiredFields, input) == (if answered then Some(config) else None, rest)
    {
      rest := input;
      var i := 0;
      while i < |requiredFields|
        invariant 0 <= i <= |requiredFields|
        invariant |rest| <= |input|
        invariant Prompted(old(config), requiredFields, input) == Prompted(config, requiredFields[i..], rest)
        invariant forall j :: 0 <= j < i ==> FieldFilled(config, requiredFields[j])
        invariant Untouched(old(config), config, requiredFields)
        invariant AllFilled(old(config), requiredFields) ==> config == old(config) && rest == input
      {
        ghost var before := config;
        ghost var input' := rest;
        assert requiredFields[i..][0] == requiredFields[i] && requiredFields[i..][1..] == requiredFields[i + 1..];
        var ok;
        ok, rest := FillField(requiredFields[i], rest);
        if !ok {
          assert Prompted(before, requiredFields[i..], input') == (None, rest);
          return false, rest;
        }
        FilledStep(before, config, requiredFields, i);
        UntouchedStep(old(config), before, config, requiredFields, i);
        i := i + 1;
      }
      return true, rest;
    }

    /** One step of PromptForMissingConfig: a blank bucket, key or region is replaced by PromptRequired's answer. */
    method FillField(field: string, input: seq<string>) returns (ok: bool, rest: seq<string>)
      modifies this`config
      ensures ok ==> FieldFilled(config, field)
      ensures !ok ==> rest == []
      ensures |rest| <= |input|
      ensures FieldFilled(old(config), field) ==> ok && config == old(config) && rest == input
      ensures field != "bucket" ==> config.bucket == old(config.bucket)
      ensures field != "key" ==> config.key == old(config.key)
      ensures field != "region" ==> config.region == old(config.region)
      ensures config.partSizeMB == old(config.partSizeMB) && config.maxConcurrency == old(config.maxConcurrency)
      ensures config.uploadID == old(config.uploadID)
      ensures FillStep(old(config), field, input) == (if ok then Some(config) else None, rest)
      ensures !ok ==> config == old(config)
    {
      rest := input;
      ok := true;
      if field in {"bucket", "key", "region"} && !FieldFilled(config, field) {
        var v;
        v, rest := PromptRequired(rest);
        if v.None? { return false, rest; }
        config := SetField(config, field, v.value);
      }
    }
  }

  /**
   * One case of PromptForMissingConfig's switch on the input: a blank bucket,
   * key or region takes the required answer (None when the input holds none)
   * and the lines after it are left; anything else reads nothing.
   */
  function FillStep(c: Config.Config, field: string, input: seq<string>): (Option<Config.Config>, seq<string>) {
    if field in {"bucket", "key", "region"} && !FieldFilled(c, field) then
      var (v, rest) := RequiredAnswer(input);
      if v.None? then (None, rest) else (Some(SetField(c, field, v.value)), rest)
    else (Some(c), input)
  }

  /** PromptForMissingConfig on the input: FillStep for each required field in order, stopping when an answer is missing. */
  function Prompted(c: Config.Config, fields: seq<string>, input: seq<string>): (Option<Config.Config>, seq<string>)
    decreases |fields|
  {
    if fields == [] then (Some(c), input)
    else
      var (c', rest) := FillStep(c, fields[0], input);
      if c'.None? then (None, rest) else Prompted(c'.value, fields[1..], rest)
  }

  /** A required bucket, key or region that is blank makes the configuration incomplete. */
  lemma BlankField(c: Config.Config, fields: seq<string>, i: nat)
    requires i < |fields| && fields[i] in {"bucket", "key", "region"} && !FieldFilled(c, fields[i])
    ensures !AllFilled(c, fields)
    ensures exists j :: 0 <= j < |fields| && fields[j] in {"bucket", "key", "region"} && !FieldFilled(c, fields[j])
  {
  }

  /**
   * c keeps every field of c0 that was filled or not required, and the
   * fields no prompt asks for.
   */
  ghost predicate Untouched(c0: Config.Config, c: Config.Config, fields: seq<string>) {
    && (FieldFilled(c0, "bucket") || "bucket" !in fields ==> c.bucket == c0.bucket)
    && (FieldFilled(c0, "key") || "key" !in fields ==> c.key == c0.key)
    && (FieldFilled(c0, "region") || "region" !in fields ==> c.region == c0.region)
    && c.partSizeMB == c0.partSizeMB && c.maxConcurrency == c0.maxConcurrency && c.uploadID == c0.uploadID
  }

  /** Filling field i keeps the fields before it filled. */
  lemma FilledStep(c: Config.Config, c': Config.Config, fields: seq<string>, i: nat)
    requires i < |fields|
    requires forall j :: 0 <= j < i ==> FieldFilled(c, fields[j])
    requires FieldFilled(c', fields[i])
    requires fields[i] != "bucket" ==> c'.bucket == c.bucket
    requires fields[i] != "key" ==> c'.key == c.key
    requires fields[i] != "region" ==> c'.region == c.region
    ensures forall j :: 0 <= j < i + 1 ==> FieldFilled(c', fields[j])
  {
    forall j | 0 <= j < i + 1
      ensures FieldFilled(c', fields[j])
    {
      if j < i && fields[j] != fields[i] {
        assert FieldFilled(c, fields[j]);
      }
    }
  }

  /** Filling a required field that was blank keeps what Untouched promises. */
  lemma UntouchedStep(c0: Config.Config, c: Config.Config, c': Config.Config, fields: seq<string>, i: nat)
    requires i < |fields|
    requires Untouched(c0, c, fields)
    requires FieldFilled(c, fields[i]) ==> c' == c
    requires fields[i] != "bucket" ==> c'.bucket == c.bucket
    requires fields[i] != "key" ==> c'.key == c.key
    requires fields[i] != "region" ==> c'.region == c.region
    requires c'.partSizeMB == c.partSizeMB && c'.maxConcurrency == c.maxConcurrency && c'.uploadID == c.uploadID
    ensures Untouched(c0, c', fields)
  {
    assert fields[i] in fields;
  }

  /** The configuration with one of bucket, key or region replaced. */
  function SetField(c: Config.Config, field: string, v: string): (r: Config.Config)
    requires field in {"bucket", "key", "region"}
    ensures r.bucket == (if field == "bucket" then v else c.bucket)
    ensures r.key == (if field == "key" then v else c.key)
    ensures r.region == (if field == "region" then v else c.region)
    ensures r.partSizeMB == c.partSizeMB && r.maxConcurrency == c.maxConcurrency && r.uploadID == c.uploadID
  {
    if field == "bucket" then c.(bucket := v)
    else if field == "key" then c.(key := v)
    else c.(region := v)
  }

  /** PromptInput: one line, trimmed. */
  function PromptInput(input: seq<string>): (r: (string, seq<string>))
    ensures r.0 == TrimSpace(Config.ReadLine(input).0) && r.1 == Config.ReadLine(input).1
  {
    var (line, rest) := Config.ReadLine(input);
    (TrimSpace(line), rest)
  }

  /** The first input line that is not blank, trimmed, and the lines after it; None when every line is blank. */
  function RequiredAnswer(input: seq<string>): (r: (Option<string>, seq<string>))
    decreases |input|
  {
    if input == [] then (None, [])
    else
      var (v, rest) := PromptInput(input);
      if v != "" then (Some(v), rest) else RequiredAnswer(rest)
  }

  /**
   * PromptRequired: asks until an answer is non-blank and returns it trimmed.
   * None when every remaining line is blank: past the end of input the
   * source asks forever.
   */
  method PromptRequired(input: seq<string>) returns (value: Option<string>, rest: seq<string>)
    ensures |rest| <= |input| && rest == input[|input| - |rest|..]
    ensures value.None? ==> rest == [] && forall i :: 0 <= i < |input| ==> TrimSpace(input[i]) == ""
    ensures value.Some? ==> |rest| < |input|
    ensures value.Some? ==> value.value != "" && value.value == TrimSpace(input[|input| - |rest| - 1])
    ensures value.Some? ==> forall i :: 0 <= i < |input| - |rest| - 1 ==> TrimSpace(input[i]) == ""
    ensures (value, rest) == RequiredAnswer(input)
  {
    rest := input;
    while rest != []
      invariant |rest| <= |input| && rest == input[|input| - |rest|..]
      invariant RequiredAnswer(rest) == RequiredAnswer(input)
      invariant forall i :: 0 <= i < |input| - |rest| ==> TrimSpace(input[i]) == ""
    {
      ghost var before := rest;
      var (v, r) := PromptInput(rest);
      rest := r;
      assert before[0] == input[|input| - |before|];
      if v != "" {
        return Some(v), rest;
      }
    }
    return None, rest;
  }

  /**
   * PromptIntWithValidation: the default is first raised to the minimum;
   * a blank answer gives the default, an integer at least the minimum gives
   * itself, and anything else gives the minimum.
   */
  function PromptIntWithValidation(defaultValue: int, minValue: int, input: seq<string>): (r: (int, seq<string>))
    ensures r.0 >= minValue
    ensures TrimSpace(Config.ReadLine(input).0) == "" ==> r.0 == (if defaultValue < minValue then minValue else defaultValue)
    ensures r.1 == Config.ReadLine(input).1
  {
    var d := if defaultValue < minValue then minValue else defaultValue;
    var (answer, rest) := PromptInput(input);
    if answer == "" then (d, rest)
    else
      match ParseInt(answer)
      case Some(v) => if v >= minValue then (v, rest) else (minValue, rest)
      case None => (minValue, rest)
  }

  /**
   * The prompt and config.go's parseIntWithMin agree once the default is
   * raised to the minimum: the same rules for blank, malformed, small and
   * acceptable answers.
   */
  lemma PromptIntAgreesWithParseIntWithMin(defaultValue: int, minValue: int, input: seq<string>)
    ensures PromptIntWithValidation(defaultValue, minValue, input).0 ==
            Config.ParseIntWithMin(Config.ReadLine(input).0, if defaultValue < minValue then minValue else defaultValue, minValue)
  {
  }

  /** A number typed at the prompt that meets the minimum is taken as typed. */
  lemma PromptIntOfNumber(defaultValue: int, minValue: int, v: int, rest: seq<string>)
    requires minValue <= v && MinInt64 <= v <= MaxInt64
    ensures PromptIntWithValidation(defaultValue, minValue, [IntToString(v)] + rest) == (v, rest)
  {
    var input := [IntToString(v)] + rest;
    assert Config.ReadLine(input) == (IntToString(v), rest);
    PromptIntAgreesWithParseIntWithMin(defaultValue, minValue, input);
    Config.ParseIntWithMinOfNumber(v, if defaultValue < minValue then minValue else defaultValue, minValue);
  }

  /** How one answer to the yes/no prompt is read: the default, yes, no, or None to ask again. */
  function YesNoAnswer(line: string, defaultYes: bool): Option<bool> {
    var t := TrimSpace(line);
    if t == "" then Some(defaultYes) else Recognised(ToLower(t))
  }

  /** A lower-cased, non-blank answer: yes for y or yes, no for n or no, otherwise unrecognised. */
  function Recognised(l: string): Option<bool> {
    if l == "y" || l == "yes" then Some(true)
    else if l == "n" || l == "no" then Some(false)
    else None
  }

  /**
   * A blank answer selects the default; y or yes selects true and n or no
   * false, in any letter case; any other answer asks again.
   */
  lemma YesNoAnswerCases(line: string, defaultYes: bool)
    ensures TrimSpace(line) == "" ==> YesNoAnswer(line, defaultYes) == Some(defaultYes)
    ensures var l := ToLower(TrimSpace(line)); l == "y" || l == "yes" ==> YesNoAnswer(line, defaultYes) == Some(true)
    ensures var l := ToLower(TrimSpace(line)); l == "n" || l == "no" ==> YesNoAnswer(line, defaultYes) == Some(false)
    ensures var l := ToLower(TrimSpace(line));
            TrimSpace(line) != "" && l != "y" && l != "yes" && l != "n" && l != "no" ==> YesNoAnswer(line, defaultYes).None?
  {
    var t := TrimSpace(line);
    if t != "" {
      assert ToLower(t) != "" by { assert |ToLower(t)| == |t|; }
    }
  }

  /** Upper-case and mixed-case answers are read like lower-case ones. */
  lemma YesNoCaseInsensitive(line: string, defaultYes: bool)
    ensures YesNoAnswer(line, defaultYes) == YesNoAnswer(ToLower(line), defaultYes)
  {
    var t := TrimSpace(line);
    var lt := TrimSpace(ToLower(line));
    LowerTrimCommute(line);
    assert lt == ToLower(t);
    ToLowerIdempotent(t);
    assert ToLower(lt) == ToLower(t);
    assert lt == "" <==> t == "" by { assert |lt| == |t|; }
    if t != "" {
      assert YesNoAnswer(line, defaultYes) == Recognised(ToLower(t));
      assert YesNoAnswer(ToLower(line), defaultYes) == Recognised(ToLower(lt));
    }
  }

  /**
   * PromptYesNoDefault: asks until an answer is blank or recognised.
   * Past the end of input each read is blank, so the default is returned.
   */
  method PromptYesNoDefault(defaultYes: bool, input: seq<string>) returns (answer: bool, rest: seq<string>)
    ensures |rest| <= |input| && rest == input[|input| - |rest|..]
    ensures forall i :: 0 <= i < |input| - |rest| - 1 ==> YesNoAnswer(input[i], defaultYes).None?
    ensures |rest| < |input| && YesNoAnswer(input[|input| - |rest| - 1], defaultYes).Some? ==>
              YesNoAnswer(input[|input| - |rest| - 1], defaultYes) == Some(answer)
    ensures |rest| == |input| || YesNoAnswer(input[|input| - |rest| - 1], defaultYes).None? ==>
              rest == [] && answer == defaultYes
  {
    rest := input;
    while rest != []
      invariant |rest| <= |input| && rest == input[|input| - |rest|..]
      invariant forall i :: 0 <= i < |input| - |rest| ==> YesNoAnswer(input[i], defaultYes).None?
    {
      var line := rest[0];
      assert line == input[|input| - |rest|];
      rest := rest[1..];
      var a := YesNoAnswer(line, defaultYes);
      if a.Some? {
        return a.value, rest;
      }
    }
    return defaultYes, rest;
  }

  /** Lower-casing and trimming commute: ASCII lower-casing maps white space to itself and nothing else to white space. */
  lemma LowerTrimCommute(s: string)
    ensures TrimSpace(ToLower(s)) == ToLower(TrimSpace(s))
  {
    assert forall c :: IsSpace(LowerChar(c)) <==> IsSpace(c);
    LowerTrimLeft(s);
    LowerTrimRight(TrimLeft(s));
  }

  lemma {:induction false} LowerTrimLeft(s: string)
    ensures TrimLeft(ToLower(s)) == ToLower(TrimLeft(s))
    decreases |s|
  {
    var l := ToLower(s);
    if |s| > 0 && IsSpace(s[0]) {
      assert IsSpace(l[0]);
      assert l[1..] == ToLower(s[1..]);
      calc {
        TrimLeft(l);
        TrimLeft(l[1..]);
        { LowerTrimLeft(s[1..]); }
        ToLower(TrimLeft(s[1..]));
        ToLower(TrimLeft(s));
      }
    } else if |s| > 0 {
      assert !IsSpace(l[0]);
    }
  }

  lemma {:induction false} LowerTrimRight(s: string)
    ensures TrimRight(ToLower(s)) == ToLower(TrimRight(s))
    decreases |s|
  {
    if |s| > 0 {
      assert ToLower(s)[..|s| - 1] == ToLower(s[..|s| - 1]);
      assert IsSpace(LowerChar(s[|s| - 1])) <==> IsSpace(s[|s| - 1]);
      LowerTrimRight(s[..|s| - 1]);
    }
  }

  /**
   * LoadConfigWithOverrides: an error when no configuration was loaded;
   * otherwise each non-empty flag replaces its field with the trimmed flag
   * and an empty flag leaves the field as loaded.
   */
  function LoadConfigWithOverrides(loaded: Option<Config.Config>, flagBucket: string, flagKey: string, flagRegion: string): (r: Result<Config.Config, string>)
    ensures loaded.None? <==> r.Err?
    ensures loaded.None? ==> r.error == "config not loaded (PersistentPreRunE should have populated it)"
    ensures r.Ok? ==> r.value.bucket == (if flagBucket != "" then TrimSpace(flagBucket) else loaded.value.bucket)
    ensures r.Ok? ==> r.value.key == (if flagKey != "" then TrimSpace(flagKey) else loaded.value.key)
    ensures r.Ok? ==> r.value.region == (if flagRegion != "" then TrimSpace(flagRegion) else loaded.value.region)
    ensures r.Ok? ==> r.value.partSizeMB == loaded.value.partSizeMB && r.value.maxConcurrency == loaded.value.maxConcurrency
    ensures r.Ok? ==> r.value.uploadID == loaded.value.uploadID
  {
    match loaded
    case None => Err("config not loaded (PersistentPreRunE should have populated it)")
    case Some(c) =>
      var c1 := if flagBucket != "" then c.(bucket := TrimSpace(flagBucket)) else c;
      var c2 := if flagKey != "" then c1.(key := TrimSpace(flagKey)) else c1;
      var c3 := if flagRegion != "" then c2.(region := TrimSpace(flagRegion)) else c2;
      Ok(c3)
  }

  /** With no flags given the loaded configuration is returned unchanged. */
  lemma NoFlagsNoChange(c: Config.Config)
    ensures LoadConfigWithOverrides(Some(c), "", "", "") == Ok(c)
  {
  }

  /** FormatSuccessMessage: "✅ <action> → s3://<bucket>/<key>". */
  function FormatSuccessMessage(action: string, bucket: string, key: string): (r: string)
    ensures HasPrefix(r, "\U{2705} " + action + " \U{2192} s3://")
    ensures |key| <= |r| && r[|r| - |key|..] == key
  {
    "\U{2705} " + action + " \U{2192} s3://" + bucket + "/" + key
  }

  /** For one action and bucket, distinct keys give distinct messages. */
  lemma SuccessMessageNamesKey(action: string, bucket: string, key1: string, key2: string)
    requires FormatSuccessMessage(action, bucket, key1) == FormatSuccessMessage(action, bucket, key2)
    ensures key1 == key2
  {
    var p := "\U{2705} " + action + " \U{2192} s3://" + bucket + "/";
    assert FormatSuccessMessage(action, bucket, key1) == p + key1;
    assert FormatSuccessMessage(action, bucket, key2) == p + key2;
    assert key1 == (p + key1)[|p|..];
  }
}
