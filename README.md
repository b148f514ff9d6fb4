# ghostwriter, modelled in Dafny

ghostwriter runs on a reMarkable tablet. It takes a screenshot of what the pen has
drawn, sends it to a language model, and writes the answer back onto the page. It
types the answer through a virtual keyboard, or renders it as an SVG bitmap.
This project models the parts of that pipeline that compute something, and proves
what they guarantee:

- **Screenshots** (`Memory`, `MemoryMaps`, `FrameLocator`, `PixelDecode`, `Curves`,
  `Screenshot`):
  - finding the drawing process (`xochitl`);
  - locating its frame buffer from `/proc/<pid>/maps`, or by walking the allocator
    headers in `/proc/<pid>/mem` on the Paper Pro;
  - reading exactly one frame;
  - decoding it to grey, either as the reMarkable 2's transposed 16-bit samples or as
    the Paper Pro's RGBA;
  - the tone curve.
- **Devices** (`Device`): the constant tables of the three device models.
- **The virtual keyboard** (`KeyMap`, `Keyboard`):
  - the character-to-key table;
  - typing a string as an event log;
  - control shortcuts;
  - the progress-note counter that is later erased with backspaces.
- **Text rendering** (`TextRenderer`):
  - XML escaping;
  - the per-line `<text>` layout of the plain and cursive SVG renderings.
- **Small rule sets**:
  - configuration defaults and validation (`Config`);
  - option and environment precedence, the bitmap threshold and pixel mapping, and the
    uinput-module decision (`Util`);
  - the Anthropic engine's options, request body and tool-call dispatch (`Anthropic`,
    with JSON values in `Json`);
  - engine selection and the order of drawing commands in the main program
    (`Ghostwriter`).
- **The parts of Rust's `str` the core relies on** (`Strings`): `trim`,
  `split_whitespace`, `split`, `join`, `lines`, integer parsing and formatting.

The operating system enters as values:
- `pidof`'s output, the processes' maps lines and memory bytes (`Screenshot.System`);
- the environment (`Util.Env`);
- what `lsmod` printed.

Other collaborators enter as function parameters:
- the image encoder (`Screenshot.Encoder`);
- the HTTP exchange with its JSON parsing (`Anthropic.Http`);
- the trigger-corner parser (`Config.CornerParser`).

The evdev device becomes an append-only event log (`Keyboard.Keyboard.events`). The
callbacks of registered tools become a log of the calls made (`Anthropic.Anthropic.calls`).

Two points where the model follows what the code does:

- `apply_curves` is evaluated in `f32`. For the four middle inputs 12, 13, 14 and 15 it
  gives 34, 101, 168 and 235. Exact arithmetic would give 35 for 12.
  `Curves.ApplyCurves` is the table of the `f32` results, and
  `Curves.CurveBand` states where it departs from exact arithmetic.
- `main.rs` calls its own `setup_uinput` (`src/main.rs:149-172`). That one always
  installs the bundled `rmpp/uinput-3.17.ko` when `lsmod` lacks `uinput`. The one in
  `src/util.rs`, which shortens `IMG_VERSION`, is never called by the main program. It
  is modelled as `Util.UinputPlan` anyway.

## Model

| member | source | states |
|---|---|---|
| Device.UnknownActsAsRemarkable2 | src/device.rs:29-83 | an unknown model has every hardware parameter of the reMarkable 2 (width, height, bytes per pixel, both input devices, maximum x and y), and only its name differs |
| Device.FrameSizes | src/device.rs:29-51 | one frame is 1872·1404·2 = 5256576 bytes on the reMarkable 2 and 1624·2154·4 = 13992384 bytes on the Paper Pro, and an unknown model has the reMarkable 2's size |
| Device.NamesDistinct | src/device.rs:21-27 | two models have the same name exactly when they are the same model |
| Device.PenIsNotTouch | src/device.rs:53-67 | on every model the pen and the touch screen are different input devices |
| Screenshot.Screenshot.TablesAgree | src/screenshot.rs:32-54 | the screenshot's own width, height and bytes-per-pixel tables agree with the device tables for every model |
| Screenshot.Screenshot.FrameSize | src/screenshot.rs:146 | the frame size is width·height·bytes per pixel, the same as the device's frame size |
| Curves.BlackThreshold | src/screenshot.rs:302-303 | `v / 255 < 0.045` holds exactly for the bytes 0 to 11 |
| Curves.WhiteThreshold | src/screenshot.rs:305 | `v / 255 < 0.06` holds exactly for the bytes 0 to 15 |
| Curves.CurveSaturates | src/screenshot.rs:301-311 | every byte below the band (`v/255 < 0.045`) becomes 0, and every byte at or above `0.06` becomes 255 |
| Curves.CurveBand | src/screenshot.rs:305-310 | inside the band the curve is the truncated `((v/255 − 0.045)/0.015)·255`; the one exception is 12, where `f32` rounding gives 34 instead of the exact 35 |
| Curves.CurveMonotone | src/screenshot.rs:301-311 | the curve never maps a lighter byte to a darker one |
| Curves.CurveEnds | src/screenshot.rs:301-311 | black stays 0 and white stays 255 |
| MemoryMaps.FindXochitlPid | src/screenshot.rs:74-87 | the pid is the first whitespace-separated token of `pidof`'s output: non-empty and free of whitespace, preceded only by whitespace and followed by whitespace or the end; it fails with "no xochitl process" exactly when the output is all whitespace |
| MemoryMaps.LastMatch | src/screenshot.rs:119-123 | the line kept is the last one that contains the pattern, and there is none exactly when no line contains it |
| MemoryMaps.GrepContextTail | src/screenshot.rs:102 | `grep -C1 … \| tail -n1` prints nothing exactly when no line matches |
| MemoryMaps.CutAtDash | src/screenshot.rs:102 | `sed 's/-.*$//'` keeps the prefix of the line up to its first '-', and that prefix has no '-' |
| MemoryMaps.Rm2FramebufferAddress | src/screenshot.rs:97-109 | the reMarkable 2's address is a parsed hexadecimal start address plus 7, so at least 7, and every failure is an invalid address |
| MemoryMaps.Rm2NoFramebuffer | src/screenshot.rs:102-107 | with no maps line mentioning `/dev/fb0` the empty output does not parse, and the lookup fails |
| MemoryMaps.Rm2Address | src/screenshot.rs:102-108 | when the last line `grep` prints is a kernel maps line `start-end …`, the address is `start + 7` |
| MemoryMaps.MemoryRangeEnd | src/screenshot.rs:118-138 | the result fits in a u64, and it fails with "no `/dev/dri/card0` mapping" exactly when no line mentions `/dev/dri/card0` |
| MemoryMaps.RangeEnd | src/screenshot.rs:129-137 | the end of a range field fits in a u64, and the only failures are a malformed range or an invalid address |
| MemoryMaps.RangeEndDashes | src/screenshot.rs:131-135 | a range field is rejected as malformed exactly when it does not hold exactly one '-' |
| MemoryMaps.MemoryRangeOfLine | src/screenshot.rs:119-138 | when the last `/dev/dri/card0` line is a kernel maps line `start-end …`, the result is `end` |
| MemoryMaps.GetMemoryRange | src/screenshot.rs:114-139 | the loop over the lines, overwriting the kept line, returns exactly `MemoryRangeEnd` |
| Memory.ReadExact | src/screenshot.rs:154-156 | `seek` then `read_exact` of n bytes succeeds exactly when n bytes exist from that position, and it returns those bytes in order |
| Memory.LittleEndianRoundTrip | src/screenshot.rs:158-161 | assembling four bytes little-endian is the inverse of splitting a u32 into its four bytes |
| FrameLocator.HeaderLength | src/screenshot.rs:154-161 | the header read at offset `o` succeeds exactly when its 8 bytes lie within memory, and it yields the little-endian length in the header's first 4 bytes |
| FrameLocator.CalculateFramePointer | src/screenshot.rs:142-165 | the `while` loop over `offset` and `length` returns exactly `Walk` |
| FrameLocator.WalkSound | src/screenshot.rs:148-164 | a successful walk has followed a chain of headers from offset 0, each hop adding `length − 2`; the length read at the last offset is at least the frame size; and the result is `start + offset` |
| FrameLocator.WalkFirstProbe | src/screenshot.rs:148-164 | the first header is probed 8 bytes into the region; too little memory there is a read failure, and a large enough first length returns `start` itself |
| FrameLocator.WalkStuck | src/screenshot.rs:149-152 | a first length of exactly 2 ends the walk with an error, where the source would loop forever |
| PixelDecode.HighBytes | src/screenshot.rs:229-232 | there is one sample per two bytes, and sample i is byte `2i + 1`, the high byte |
| PixelDecode.Rm2SourceInRange | src/screenshot.rs:240 | the source index `(h−1−y) + (w−1−x)·h` of every pixel lies inside the frame |
| PixelDecode.Rm2SourceInjective | src/screenshot.rs:238-243 | no two pixels read the same sample |
| PixelDecode.Rm2SourceOnto | src/screenshot.rs:238-243 | every sample of the frame is read, by the pixel named from its quotient and remainder by h |
| PixelDecode.Rm2Gray | src/screenshot.rs:234-244 | the reMarkable 2 decode yields exactly w·h grey bytes |
| PixelDecode.Rm2Pixel | src/screenshot.rs:238-243 | pixel (x, y) is stored at `y·w + x` and is the curve applied to the high byte of sample `(h−1−y) + (w−1−x)·h` |
| PixelDecode.Rm2IgnoresLowBytes | src/screenshot.rs:229-232 | the low byte of a sample never changes the image |
| PixelDecode.EncodeRm2 | src/screenshot.rs:236-244 | the nested loops filling `processed` compute exactly `Rm2Gray` |
| PixelDecode.Gray | src/screenshot.rs:274-279 | the 16-bit sum of three channels is at most 765, and the truncating mean `v` satisfies `3v ≤ r+g+b < 3v+3` and lies between the smallest and the largest channel |
| PixelDecode.GrayOfGrey | src/screenshot.rs:279 | equal channels give that value back |
| PixelDecode.RgbaGray | src/screenshot.rs:263-284 | the Paper Pro decode yields exactly w·h grey bytes |
| PixelDecode.RgbaPixel | src/screenshot.rs:269-283 | pixel (x, y) is stored at `y·w + x` and is the curve applied to the truncating mean of the red, green and blue bytes at `4(y·w + x)` |
| PixelDecode.RgbaIgnoresAlpha | src/screenshot.rs:273-276 | the alpha byte never changes the image |
| PixelDecode.EncodeRmpp | src/screenshot.rs:267-284 | the nested loops filling `processed` compute exactly `RgbaGray` |
| Screenshot.Screenshot.constructor | src/screenshot.rs:23-30 | a new screenshot holds no data, for the given model |
| Screenshot.Screenshot.FindFramebufferAddress | src/screenshot.rs:89-111 | the Paper Pro walks the headers from the end of the card0 range, and the other models use the grep address |
| Screenshot.Screenshot.ReadFramebuffer | src/screenshot.rs:167-174 | the read succeeds exactly when the process exists and one whole frame lies from `skip` on, and then it yields exactly those bytes |
| Screenshot.Screenshot.Decode | src/screenshot.rs:215-226 | the Paper Pro uses the RGBA decoder and the others the 16-bit decoder, each yielding one grey byte per pixel |
| Screenshot.Screenshot.EncodePng | src/screenshot.rs:215-226 | the decode loops compute exactly `Decode` |
| Screenshot.Screenshot.TakeScreenshot | src/screenshot.rs:56-72 | it succeeds exactly when every step succeeds, and only then does `data` change (to the encoded image); otherwise the first failure is reported and `data` is kept |
| Screenshot.Screenshot.CaptureNeedsPid | src/screenshot.rs:56-87 | without a pid nothing further is attempted, and the error is "no xochitl process" |
| Screenshot.Screenshot.CaptureReadsLocatedFrame | src/screenshot.rs:56-72 | a stored image is the encoding of the decoded frame read at the located address of the first pid |
| KeyMap.BasicCharsAgree | src/keyboard.rs:112-226 | every row of the basic table types its character with the key and shift of the US layout |
| KeyMap.LowercaseAgree | src/keyboard.rs:114-141 | the lowercase rows use the letter keys without shift |
| KeyMap.UppercaseAgree | src/keyboard.rs:142-169 | the uppercase rows use the letter keys with shift |
| KeyMap.NumbersAgree | src/keyboard.rs:170-181 | the digit rows use the digit keys without shift |
| KeyMap.SpecialAgree | src/keyboard.rs:182-203 | each shifted symbol uses the key it sits on, with shift: `!` to `)` on the digit keys, `_` to `~` on the punctuation keys |
| KeyMap.PunctuationAgree | src/keyboard.rs:205-216 | each punctuation row uses its own punctuation key without shift |
| KeyMap.WhitespaceAgree | src/keyboard.rs:218-222 | space, tab and newline use their own keys without shift |
| KeyMap.ActionKeysAgree | src/keyboard.rs:223-226 | backspace and escape use their own keys without shift |
| KeyMap.UnicodeMappingsAgree | src/keyboard.rs:232-257 | every accented character lies outside ASCII, its base is a letter, `!` or `?`, and every listing of a character names the same base (`æ` and `Æ` are listed twice) |
| KeyMap.BaseRows | src/keyboard.rs:112-262 | every base an accent names is in the basic table, so its lookup succeeds |
| KeyMap.InsertRows | src/keyboard.rs:228-230 | after the first loop, every row's character is mapped, and each key comes from a listed ASCII row |
| KeyMap.InsertAccents | src/keyboard.rs:258-262 | the second loop adds every accented character whose base is mapped, with the entry of a base it is listed with, and leaves the ASCII entries alone |
| KeyMap.CreateKeyMap | src/keyboard.rs:109-265 | every character of both tables is mapped; an ASCII character to its US-layout key; an accented one to the key of a base it is listed with, which is the entry of its base in the finished map for every listing |
| KeyMap.CapitalsUseShift | src/keyboard.rs:115-169 | a capital is typed with its small letter's key plus shift, and a small letter without shift |
| KeyMap.ShiftedDigitRow | src/keyboard.rs:170-204 | digit d is its digit key, and the symbol above it is the same key with shift |
| KeyMap.UsLayoutAscii | src/keyboard.rs:112-226 | only ASCII characters have a key of their own |
| KeyMap.AccentMapped | src/keyboard.rs:258-262 | in a finished map an accented character has exactly the US-layout key of the base it is listed with |
| KeyMap.AccentsTypedAsBase | src/keyboard.rs:236-247 | `é` is typed as `e`, `É` as shifted `e`, and `¿` as shifted slash |
| KeyMap.ListedHasKey | src/keyboard.rs:112-257 | a character of the basic table has a US-layout key, and one of the accent table has a base |
| KeyMap.UnlistedUnmapped | src/keyboard.rs:109-265 | a map of listed characters only lacks every character with neither a key nor a base |
| KeyMap.MapKeys | src/keyboard.rs:170-181 | the shortcut digits 1 to 4, backspace and escape are in the finished map, unshifted, on their own keys |
| Keyboard.Utf8LenBounds | src/keyboard.rs:364 | `str::len` counts one to four bytes per character, and counts exactly one per character iff the text is ASCII |
| Keyboard.StrokeEvents | src/keyboard.rs:293-318 | one character presses and releases its key and ends with a report |
| Keyboard.TypedAppend | src/keyboard.rs:291-321 | typing two texts in turn emits what typing their concatenation emits |
| Keyboard.TypedSkipsUnmapped | src/keyboard.rs:292 | characters missing from the map emit nothing |
| Keyboard.UnlistedTypesNothing | src/keyboard.rs:292 | through a map of listed characters only, text whose characters have neither a US-layout key nor a base emits nothing |
| Keyboard.StrokeBalanced | src/keyboard.rs:293-318 | one character presses and releases each key equally often |
| Keyboard.TypedBalanced | src/keyboard.rs:291-321 | every key the text presses is released again, as many times |
| Keyboard.TypedReports | src/keyboard.rs:317-318 | exactly one report follows each mapped character |
| Keyboard.AsciiNoteCount | src/keyboard.rs:359-366 | for a fully mapped ASCII note, the byte count `progress` adds equals the number of characters typed |
| Keyboard.Repeat | src/keyboard.rs:373-375 | n repetitions are n times as long |
| Keyboard.Keyboard.constructor | src/keyboard.rs:20-33 | a device exists unless drawing is disabled; the map is `create_key_map`'s: it holds only listed characters, each with the entry `create_key_map` gives it; the count is 0; nothing has been emitted |
| Keyboard.Keyboard.KeyDown | src/keyboard.rs:267-274 | with a device, the key goes down and a report follows; without one, nothing is emitted |
| Keyboard.Keyboard.KeyUp | src/keyboard.rs:276-283 | with a device, the key comes up and a report follows; without one, nothing is emitted |
| Keyboard.Keyboard.StringToKeypresses | src/keyboard.rs:285-324 | with a device, one report, then for each mapped character in order [shift↓] key↓ key↑ [shift↑] report; without one, nothing |
| Keyboard.Keyboard.EmitStroke | src/keyboard.rs:292-319 | one loop iteration for a mapped character appends exactly its stroke events |
| Keyboard.Keyboard.KeyCmd | src/keyboard.rs:326-337 | control↓, [shift↓], the button typed, [shift↑], control↑ |
| Keyboard.Keyboard.KeyCmdTitle | src/keyboard.rs:339-342 | the title command is control and "1" without shift |
| Keyboard.Keyboard.KeyCmdSubheading | src/keyboard.rs:344-347 | the subheading command is control and "2" without shift |
| Keyboard.Keyboard.KeyCmdBody | src/keyboard.rs:349-352 | the body command is control and "3" without shift |
| Keyboard.Keyboard.KeyCmdBullet | src/keyboard.rs:354-357 | the bullet command is control and "4" without shift |
| Keyboard.Keyboard.Progress | src/keyboard.rs:359-366 | the note is typed and its UTF-8 byte length is added to the count, modulo 2^32; nothing happens when progress notes are off |
| Keyboard.Keyboard.ProgressEnd | src/keyboard.rs:368-378 | exactly `progress_count` backspace sequences are sent and the count becomes 0; nothing happens when progress notes are off |
| Keyboard.Keyboard.BackspaceStroke | src/keyboard.rs:285-324 | with the finished map, typing a backspace is report, backspace↓, backspace↑, report |
| Keyboard.Keyboard.TitleShortcut | src/keyboard.rs:326-342 | the title shortcut is control↓, then the 1 key typed, then control↑ |
| TextRenderer.Replace | src/text_renderer.rs:84-88 | replacing every `c` by a string without `c` leaves no `c` |
| TextRenderer.ReplaceAppend | src/text_renderer.rs:84-88 | `str::replace` of a character works piece by piece over a concatenation |
| TextRenderer.ReplaceFromAll | src/text_renderer.rs:83-89 | the chain of five replacements, from step 0, is `escape_xml` |
| TextRenderer.EscapeOne | src/text_renderer.rs:83-89 | on one character, `escape_xml` gives its entity (`&amp;`, `&lt;`, `&gt;`, `&quot;`, `&apos;`) or the character itself, so the entities `&` introduces are not escaped again |
| TextRenderer.EscapeXmlPerChar | src/text_renderer.rs:83-89 | `escape_xml` equals escaping each character independently, because '&' is replaced first |
| TextRenderer.EscapedHasNoMarkup | src/text_renderer.rs:83-118 | escaped text holds no '<', '>', '"' or '\'' |
| TextRenderer.EscapePlain | src/text_renderer.rs:83-89 | text without the five specials is left unchanged |
| TextRenderer.UnescapeEscape | src/text_renderer.rs:83-89 | escaping loses nothing: reading the five entities back gives the original text |
| TextRenderer.YPos | src/text_renderer.rs:20 | the line position is the wrapping u32 `100 + i·line_height`, below 2^32 |
| TextRenderer.YPosLinear | src/text_renderer.rs:8-61 | below 80 million lines nothing wraps, and line i sits at y = 100 + 42i (plain) or 100 + 51i (cursive) |
| TextRenderer.EscapedLines | src/text_renderer.rs:14 | one escaped string per line of `text.lines()`, in order |
| TextRenderer.RenderSvg | src/text_renderer.rs:13-79 | the loop pushing one element per line produces exactly `Render`: the document start tag, the elements in line order, the closing tag |
| TextRenderer.TextToSvg | src/text_renderer.rs:6-37 | `text_to_svg` never fails and produces the plain rendering: x 50, font size 32, line height 42 |
| TextRenderer.TextToCursiveSvg | src/text_renderer.rs:41-80 | `text_to_cursive_svg` never fails and produces the cursive rendering: font size 36, line height 51, italic style |
| TextRenderer.RenderHasEveryLine | src/text_renderer.rs:14-69 | every line of the text appears in the document, escaped, as its own `<text>` element at its position |
| TextRenderer.RenderFrame | src/text_renderer.rs:28-76 | the document starts with `<svg width="` and ends with `</svg>` |
| Strings.Trim | src/screenshot.rs:106 | `trim` returns a slice of the input with only whitespace around it, and it starts and ends with non-whitespace |
| Strings.FirstToken | src/screenshot.rs:77-78 | the first item of `split_whitespace` is the maximal non-whitespace run at the first non-whitespace character, and there is none iff the text is all whitespace |
| Strings.Split | src/screenshot.rs:131 | `split` never yields zero parts, and no part holds the separator |
| Strings.JoinSplit | src/util.rs:113 | joining the parts of `split` with the same separator gives the string back |
| Strings.SplitCount | src/screenshot.rs:131-133 | there is one more part than there are separators |
| Strings.Lines | src/text_renderer.rs:14 | no line holds a newline, and there are no lines exactly for the empty text |
| Strings.JoinLines | src/text_renderer.rs:14 | for a text without carriage returns, joining its lines with newlines (plus the final newline, if any) gives the text back |
| Strings.ParseUnsigned | src/screenshot.rs:137 | a parse succeeds only below the type's bound, and then the value is that of the digits after an optional '+' |
| Strings.ParseToDigits | src/screenshot.rs:137 | formatting a number that fits and parsing it back gives the number |
| Config.Problems | src/config.rs:106-121 | at most the three checks of `validate` can fail |
| Config.Validate | src/config.rs:106-121 | validation passes exactly when the corner parses, the log level is known and `thinking_tokens` is not 0 |
| Config.ValidateReportsFirstProblem | src/config.rs:106-121 | the checks run in order (corner, log level, tokens), and the first failing one is reported |
| Config.CornerCheckedFirst | src/config.rs:107-108 | a bad corner is reported whatever the other fields hold |
| Config.KnownLogLevels | src/config.rs:111-114 | only error, warn, info, debug and trace pass |
| Config.DefaultValues | src/config.rs:35-61 | the defaults: model "claude-sonnet-4-0", prompt "general.json", 5000 thinking tokens, log level "info", corner "UR", every flag off and every option absent |
| Config.DefaultValidates | src/config.rs:111-119 | the defaults pass the log-level and token checks, so they validate whenever "UR" is a corner |
| Util.OptionOrEnv | src/util.rs:64-71 | the option wins when present; otherwise the environment variable; and it fails (the source panics) exactly when both are absent |
| Util.OptionOrEnvFallback | src/util.rs:73-80 | option, then environment, then the fallback; it never fails |
| Util.FallbackExtendsOptionOrEnv | src/util.rs:64-80 | the two lookups agree wherever `option_or_env` succeeds, and the fallback appears exactly where it fails |
| Util.OptionHidesEnv | src/util.rs:64-68 | a present option makes the environment irrelevant |
| Util.Threshold | src/util.rs:39-43 | the pixels are cut into rows of at most `width`, none empty |
| Util.ThresholdShape | src/util.rs:39-43 | a width·height pixmap gives height rows of width pixels |
| Util.ThresholdPixel | src/util.rs:39-43 | pixel (x, y) is set exactly when the alpha at `y·width + x` exceeds 128 |
| Util.Luma | src/util.rs:55 | ink is stored as 0 and background as 255 |
| Util.WriteBitmap | src/util.rs:48-57 | the image is as wide as the first row and as high as the bitmap, and each pixel of each row is stored at its place as `Luma` |
| Util.SavedImageShowsInk | src/util.rs:39-57 | for a rendered pixmap, the saved image is black exactly where the alpha exceeds 128 |
| Util.ShortVersionOfLong | src/util.rs:113 | a version `a.b.rest` shortens to `a.b` |
| Util.ShortVersionOfShort | src/util.rs:113 | a version `a.b` is kept |
| Util.ShortVersionOfPlain | src/util.rs:113 | a version without dots is kept |
| Util.UinputPlan | src/util.rs:82-130 | the reMarkable 2 skips everything; a module is installed exactly when the model is not the reMarkable 2, `lsmod` lacks "uinput" and `IMG_VERSION` is non-empty; its version is the shortened one |
| Anthropic.ThinkingTokens | src/llm_engine/anthropic.rs:51-54 | the budget is always a u32 |
| Anthropic.ThinkingTokensFallback | src/llm_engine/anthropic.rs:51-54 | a budget that is missing or not a u32 becomes 5000, and a u32 is taken as it is |
| Anthropic.OnlyTrueSetsFlags | src/llm_engine/anthropic.rs:49-50 | a flag given as anything other than exactly "true" leaves the feature off |
| Anthropic.ParseOptions | src/llm_engine/anthropic.rs:40-66 | `new` succeeds exactly when an API key (option or environment) and a model are given; base URL by option, environment, then the default; flags and budget as parsed; a missing key is reported first |
| Anthropic.ToolDefinition | src/llm_engine/anthropic.rs:30-36 | the definition has exactly the keys name, description and input_schema, with name and description copied and `parameters` sent as `input_schema` |
| Anthropic.ToolDefinitions | src/llm_engine/anthropic.rs:99-108 | one definition per registered tool in order, followed by the web-search tool iff web search is on |
| Anthropic.RequestBody | src/llm_engine/anthropic.rs:110-130 | the body has the model, max_tokens 10000, the user message with the content, the tools, tool_choice auto, and a `thinking` field iff thinking is on (with the budget) |
| Anthropic.FindTool | src/llm_engine/anthropic.rs:162-165 | the first registered tool with the name, or none iff no tool has it |
| Anthropic.ToolUse | src/llm_engine/anthropic.rs:159-183 | a `tool_use` item only invokes a registered tool that has a callback |
| Anthropic.Dispatch | src/llm_engine/anthropic.rs:155-200 | the loop over the answer's items only ever invokes a registered tool |
| Anthropic.DispatchFirstToolUse | src/llm_engine/anthropic.rs:155-198 | text, thinking and unknown items are passed over, and the first `tool_use` item decides the outcome |
| Anthropic.DispatchWithoutToolUse | src/llm_engine/anthropic.rs:155-200 | "no tool calls" is the outcome exactly when the answer has no `tool_use` item |
| Anthropic.InvokesRegisteredTool | src/llm_engine/anthropic.rs:160-170 | a registered name with a callback has its first such tool called with the item's input |
| Anthropic.RefusesUnknownTool | src/llm_engine/anthropic.rs:177-182 | an unregistered name is refused, naming it |
| Anthropic.Anthropic.constructor | src/llm_engine/anthropic.rs:56-65 | a new engine has the parsed settings, no tools, no content and no calls |
| Anthropic.Anthropic.RegisterTool | src/llm_engine/anthropic.rs:68-74 | the tool is appended with its callback, and nothing else changes |
| Anthropic.Anthropic.AddContent | src/llm_engine/anthropic.rs:26-28 | exactly one item is appended |
| Anthropic.Anthropic.AddTextContent | src/llm_engine/anthropic.rs:76-81 | exactly one text item is appended |
| Anthropic.Anthropic.AddImageContent | src/llm_engine/anthropic.rs:83-92 | exactly one base64 PNG item is appended |
| Anthropic.Anthropic.ClearContent | src/llm_engine/anthropic.rs:94-96 | the content becomes empty, and the tools stay |
| Anthropic.Anthropic.Execute | src/llm_engine/anthropic.rs:98-201 | it succeeds exactly when the outcome invokes a tool; then that tool's callback is recorded once, with the input; otherwise nothing is called and the outcome's error is returned; tools and content are unchanged |
| Anthropic.Anthropic.FindToolIndex | src/llm_engine/anthropic.rs:162-165 | the front-to-back search returns `FindTool` |
| Anthropic.RegisteredToolLast | src/llm_engine/anthropic.rs:99 | a newly registered tool's definition comes after all earlier ones in the request |
| Anthropic.FindAfterRegister | src/llm_engine/anthropic.rs:162-165 | a newly registered name is found at the end, unless an earlier registration of the same name wins |
| Ghostwriter.EngineName | src/main.rs:236-248 | an explicit engine wins; otherwise the prefix "gpt" gives openai, then "claude" anthropic, then "gemini" google; any other model fails (the source panics) |
| Ghostwriter.SelectEngine | src/main.rs:260-265 | only openai, anthropic and google select an engine; any other name fails (the source panics) |
| Ghostwriter.GuessedEngineIsKnown | src/main.rs:236-265 | a guessed name always selects an engine |
| Ghostwriter.DefaultModelIsAnthropic | src/main.rs:236-248 | the default model is answered by the Anthropic engine |
| Ghostwriter.EngineOptions | src/main.rs:231-258 | the options always hold the model, and hold the base URL or API key iff given, and nothing else |
| Ghostwriter.DrawText | src/main.rs:175-183 | the progress notes are erased first, then Ctrl+3 selects the body style, then the text is typed |

## Left out

- Process and file I/O is left out:
  - `pidof`, the `sh -c grep | tail | sed` pipeline, `lsmod` and `insmod`;
  - reading `/proc/<pid>/maps` and `/proc/<pid>/mem`, and `/etc/os-release`;
  - image and bitmap saving.
  
  Their inputs and outputs are values in the model.
- The image library is a parameter (`Screenshot.Encoder`). That covers PNG encoding and decoding, the Lanczos3 resize to 768×1024 (`src/screenshot.rs:176-213`) and `GrayImage` construction. The model stops at the grey bytes the decode loops produce.
- `base64` (`src/screenshot.rs:320-323`) and `save_image` (`src/screenshot.rs:313-318`) are library calls.
- `apply_curves` is not evaluated in IEEE `f32`. `Curves.ApplyCurves` is the integer table of its `f32` results.
- The header walk cannot loop forever, and cannot underflow, in the model. `calculate_frame_pointer` loops forever on a header length of exactly 2. It underflows `length - 2` on lengths 0 and 1, which panics in a debug build. In a release build the cast and the `offset +=` both wrap, so the offset steps back by 2 or 1 bytes modulo 2^64. The model stops with `NoProgress` and `LengthUnderflow` instead: `FrameLocator.Walk` and `FrameLocator.WalkStuck`.
- Address arithmetic is not taken modulo 2^64. `start + offset`, `start + offset + 8` and `address + 7` are exact in the model. The source adds in `u64`, which could only overflow for addresses within a few gigabytes of 2^64.
- evdev is an event log. `create_virtual_device` (`src/keyboard.rs:35-107`), emission errors and the `thread::sleep` pauses are left out, so every keyboard method succeeds.
- Keyboard.Keyboard.Progress: `progress_count += note.len() as u32` is modelled with release-build wrap-around modulo 2^32. A debug build would panic on overflow instead.
- TextRenderer.YPos: `y + (i as u32 * line_height)` is modelled with release-build wrap-around modulo 2^32. A debug build would panic on overflow instead.
- The HTTP exchange and JSON parsing are a function parameter (`Anthropic.Http`): the `ureq` call, the headers it sends, and `serde_json` parsing. A failed call returns `None`, which is the API error. A response body that is not JSON makes the source panic; that is folded into the parameter.
- JSON object key order is not modelled; JSON objects are maps.
- Tool callbacks become a log of the calls `execute` makes. What a callback then does (in `main.rs`) is not part of this model.
- Panics become error values or preconditions. Error values stand for `option_or_env` without a value, `options.get("model").unwrap()`, a `tool_use` name that is not a string, and the two `panic!`s in `main.rs`. Index panics in `write_bitmap_to_file` (an empty bitmap, or a row longer than the first) become preconditions of `Util.WriteBitmap`.
- Util.WriteBitmap: a short row leaves its missing pixels 0 (black), as `GrayImage::new` starts them. The contract states that, as the source does it.
- `Config::load`, `save` and `config_path` (figment layering, TOML, `HOME`) are left out. So is the command-line parsing that fills `Config`.
- `TriggerCorner::from_string` lives in `src/touch.rs`, which is not part of this model. It is a parameter predicate (`Config.CornerParser`).
- text rendering to pixels is left out: the resvg rendering, font loading and the error fallback SVG in `svg_to_bitmap` (`src/util.rs:1-37`). Only the alpha threshold on the rendered pixmap is modelled.
- `DeviceModel::detect` (`src/device.rs:11-19`) is a filesystem probe; the model is a parameter.
- `src/embedded_assets.rs` is left out: it wraps asset lookups and file reads.
- The orchestration in `src/main.rs` is left out, apart from engine selection, the option map and `draw_text`. That includes:
  - argument parsing;
  - the `Arc<Mutex<…>>` sharing;
  - the trigger and polling loop;
  - `draw_svg`;
  - `load_config`;
  - `main.rs`'s own `setup_uinput`, which only checks `lsmod` and installs the 3.17 module.
- The OpenAI and Google engines are not part of this model; only their selection is.
- Logging (`debug!`, `info!`) is left out.
