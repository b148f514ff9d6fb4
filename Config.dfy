/**
  The configuration record, its defaults and its validation. Where the values come
  from (file, environment, command line) is left to the configuration library.
*/
module Config {
  import opened Wrappers

  newtype u32 = x: int | 0 <= x < 0x1_0000_0000

  /** Every setting the command line offers, one field each. */
  datatype Config = Config(
    engine: Option<string>,
    engineBaseUrl: Option<string>,
    engineApiKey: Option<string>,
    model: string,
    prompt: string,
    noSubmit: bool,
    noDraw: bool,
    noSvg: bool,
    noKeyboard: bool,
    noDrawProgress: bool,
    inputPng: Option<string>,
    outputFile: Option<string>,
    modelOutputFile: Option<string>,
    saveScreenshot: Option<string>,
    saveBitmap: Option<string>,
    noLoop: bool,
    noTrigger: bool,
    applySegmentation: bool,
    webSearch: bool,
    thinking: bool,
    thinkingTokens: u32,
    logLevel: string,
    triggerCorner: string)

  /** Why a configuration is refused. */
  datatype ConfigError =
    | InvalidTriggerCorner(corner: string)
    | InvalidLogLevel(level: string)
    | ZeroThinkingTokens

  /** Whether `TriggerCorner::from_string` accepts a corner name; the corner parser is not part of this model. */
  type CornerParser = string -> bool

  /** `Config::default`. */
  function Default(): Config {
    Config(
      None, None, None,
      "claude-sonnet-4-0", "general.json",
      false, false, false, false, false,
      None, None, None, None, None,
      false, false, false, false, false,
      5000, "info", "UR")
  }

  const LogLevels: seq<string> := ["error", "warn", "info", "debug", "trace"]

  predicate LogLevelOk(level: string) {
    level in LogLevels
  }

  /** Every check `validate` makes, in its order, with the error each one reports. */
  function Problems(c: Config, cornerOk: CornerParser): (ps: seq<ConfigError>)
    ensures |ps| <= 3
  {
    (if cornerOk(c.triggerCorner) then [] else [InvalidTriggerCorner(c.triggerCorner)])
    + (if LogLevelOk(c.logLevel) then [] else [InvalidLogLevel(c.logLevel)])
    + (if c.thinkingTokens != 0 then [] else [ZeroThinkingTokens])
  }

  /** `Config::validate`: the trigger corner, then the log level, then the thinking budget; the first failure returns. */
  function Validate(c: Config, cornerOk: CornerParser): (r: Result<(), ConfigError>)
    ensures r.Success? <==> cornerOk(c.triggerCorner) && LogLevelOk(c.logLevel) && c.thinkingTokens != 0
    ensures c.thinkingTokens == 0 ==> r.Failure?
    ensures !LogLevelOk(c.logLevel) ==> r.Failure?
  {
    if !cornerOk(c.triggerCorner) then Failure(InvalidTriggerCorner(c.triggerCorner))
    else if !LogLevelOk(c.logLevel) then Failure(InvalidLogLevel(c.logLevel))
    else if c.thinkingTokens == 0 then Failure(ZeroThinkingTokens)
    else Success(())
  }

  /** Validation passes exactly when no check fails, and otherwise reports the first failing check. */
  lemma ValidateReportsFirstProblem(c: Config, cornerOk: CornerParser)
    ensures Validate(c, cornerOk).Success? <==> Problems(c, cornerOk) == []
    ensures Validate(c, cornerOk).Failure? ==> Validate(c, cornerOk).error == Problems(c, cornerOk)[0]
  {
  }

  /** A bad corner is reported whatever the other fields hold. */
  lemma CornerCheckedFirst(c: Config, cornerOk: CornerParser)
    requires !cornerOk(c.triggerCorner)
    ensures Validate(c, cornerOk) == Failure(InvalidTriggerCorner(c.triggerCorner))
  {
  }

  /** Only the five level names pass. */
  lemma KnownLogLevels(level: string)
    ensures LogLevelOk(level) <==> level == "error" || level == "warn" || level == "info" || level == "debug" || level == "trace"
  {
  }

  /** The defaults: every flag off, every path and engine setting absent. */
  lemma DefaultValues()
    ensures var d := Default();
      && d.model == "claude-sonnet-4-0" && d.prompt == "general.json"
      && d.thinkingTokens == 5000 && d.logLevel == "info" && d.triggerCorner == "UR"
      && d.engine.None? && d.engineBaseUrl.None? && d.engineApiKey.None?
      && d.inputPng.None? && d.outputFile.None? && d.modelOutputFile.None?
      && d.saveScreenshot.None? && d.saveBitmap.None?
      && !d.noSubmit && !d.noDraw && !d.noSvg && !d.noKeyboard && !d.noDrawProgress
      && !d.noLoop && !d.noTrigger && !d.applySegmentation && !d.webSearch && !d.thinking
  {
  }

  /** The defaults pass the log-level and budget checks, so they validate whenever "UR" is a corner. */
  lemma DefaultValidates(cornerOk: CornerParser)
    ensures Problems(Default(), cornerOk) == (if cornerOk("UR") then [] else [InvalidTriggerCorner("UR")])
    ensures cornerOk("UR") ==> Validate(Default(), cornerOk).Success?
  {
    assert LogLevels[2] == "info";
  }
}
