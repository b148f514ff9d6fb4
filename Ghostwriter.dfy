/**
  The parts of the main program that decide something: which engine to talk to,
  the options the engine is built from, and the order in which `draw_text` drives
  the keyboard.
*/
module Ghostwriter {
  import opened Wrappers
  import opened Strings
  import opened Util
  import opened KeyMap
  import opened Keyboard

  /** The situations in which the main program panics. */
  datatype MainError = CannotGuessEngine(model: string) | UnknownEngine(name: string)

  /** The engines the program can build. */
  datatype EngineKind = OpenAI | AnthropicEngine | Google

  /** The engine name: the one given, else guessed from the model name's prefix. */
  function EngineName(engine: Option<string>, model: string): (r: Result<string, MainError>)
    ensures engine.Some? ==> r == Success(engine.value)
    ensures engine.None? && StartsWith(model, "gpt") ==> r == Success("openai")
    ensures engine.None? && !StartsWith(model, "gpt") && StartsWith(model, "claude") ==> r == Success("anthropic")
    ensures engine.None? && !StartsWith(model, "gpt") && !StartsWith(model, "claude") && StartsWith(model, "gemini") ==>
      r == Success("google")
    ensures r.Failure? <==>
      engine.None? && !StartsWith(model, "gpt") && !StartsWith(model, "claude") && !StartsWith(model, "gemini")
    ensures r.Failure? ==> r.error == CannotGuessEngine(model)
  {
    if engine.Some? then Success(engine.value)
    else if StartsWith(model, "gpt") then Success("openai")
    else if StartsWith(model, "claude") then Success("anthropic")
    else if StartsWith(model, "gemini") then Success("google")
    else Failure(CannotGuessEngine(model))
  }

  /** The engine a name selects; any other name panics. */
  function SelectEngine(name: string): (r: Result<EngineKind, MainError>)
    ensures r.Success? <==> name in {"openai", "anthropic", "google"}
    ensures r.Failure? ==> r.error == UnknownEngine(name)
  {
    if name == "openai" then Success(OpenAI)
    else if name == "anthropic" then Success(AnthropicEngine)
    else if name == "google" then Success(Google)
    else Failure(UnknownEngine(name))
  }

  /** A guessed name always selects an engine; only an explicit `--engine` can name an unknown one. */
  lemma GuessedEngineIsKnown(model: string)
    requires EngineName(None, model).Success?
    ensures SelectEngine(EngineName(None, model).value).Success?
  {
  }

  /** The default model is answered by the Anthropic engine. */
  lemma DefaultModelIsAnthropic()
    ensures EngineName(None, "claude-sonnet-4-0") == Success("anthropic")
    ensures SelectEngine("anthropic") == Success(AnthropicEngine)
  {
    assert !StartsWith("claude-sonnet-4-0", "gpt") by {
      assert "claude-sonnet-4-0"[0] != "gpt"[0];
    }
    assert "claude-sonnet-4-0"[..6] == "claude";
  }

  /**
    The option map handed to the engine: the model always, the base URL and the
    API key only when given on the command line.
  */
  method EngineOptions(model: string, engineBaseUrl: Option<string>, engineApiKey: Option<string>)
    returns (engineOptions: OptionMap)
    ensures "model" in engineOptions && engineOptions["model"] == model
    ensures "base_url" in engineOptions <==> engineBaseUrl.Some?
    ensures engineBaseUrl.Some? ==> engineOptions["base_url"] == engineBaseUrl.value
    ensures "api_key" in engineOptions <==> engineApiKey.Some?
    ensures engineApiKey.Some? ==> engineOptions["api_key"] == engineApiKey.value
    ensures engineOptions.Keys <= {"model", "base_url", "api_key"}
  {
    engineOptions := map[];
    engineOptions := engineOptions["model" := model];
    if engineBaseUrl.Some? {
      engineOptions := engineOptions["base_url" := engineBaseUrl.value];
    }
    if engineApiKey.Some? {
      engineOptions := engineOptions["api_key" := engineApiKey.value];
    }
  }

  /** What `progress_end` emits for a keyboard in a given state. */
  function ErasedProgress(hasDevice: bool, keyMap: map<char, KeyStroke>, noDrawProgress: bool, count: nat): seq<Event> {
    if noDrawProgress then [] else Sent(hasDevice, Repeat(Typing(keyMap, "\U{8}"), count))
  }

  /**
    `draw_text`: the progress notes are erased first, then the body style is
    chosen, and only then is the text typed.
  */
  method DrawText(text: string, keyboard: Keyboard)
    requires keyboard.Valid()
    modifies keyboard
    ensures keyboard.Valid()
    ensures keyboard.events == old(keyboard.events)
      + ErasedProgress(keyboard.hasDevice, keyboard.keyMap, keyboard.noDrawProgress, old(keyboard.progressCount))
      + Sent(keyboard.hasDevice, CommandEvents(keyboard.keyMap, "3", false))
      + Sent(keyboard.hasDevice, Typing(keyboard.keyMap, text))
    ensures keyboard.progressCount == if keyboard.noDrawProgress then old(keyboard.progressCount) else 0
  {
    keyboard.ProgressEnd();
    keyboard.KeyCmdBody();
    keyboard.StringToKeypresses(text);
  }
}
