/**
  Rendering text as an SVG document: one `<text>` element per line, the lines
  escaped for XML, laid out from (50, 100) downwards. Turning the document into
  pixels is done by an SVG library outside this model.
*/
module TextRenderer {
  import opened Strings

  // ----- XML escaping -----

  /** `str::replace` of every `c` in `s` by `r`. */
  function Replace(s: string, c: char, r: string): (t: string)
    ensures c !in r ==> c !in t
  {
    if s == [] then []
    else (if s[0] == c then r else [s[0]]) + Replace(s[1..], c, r)
  }

  lemma {:induction false} ReplaceAppend(a: string, b: string, c: char, r: string)
    ensures Replace(a + b, c, r) == Replace(a, c, r) + Replace(b, c, r)
  {
    if a == [] {
      assert a + b == b;
    } else {
      assert (a + b)[0] == a[0] && (a + b)[1..] == a[1..] + b;
      ReplaceAppend(a[1..], b, c, r);
    }
  }

  lemma {:induction false} ReplaceAbsent(s: string, c: char, r: string)
    requires c !in s
    ensures Replace(s, c, r) == s
  {
    if s != [] {
      assert c !in s[1..];
      ReplaceAbsent(s[1..], c, r);
    }
  }

  lemma ReplaceSingle(d: char, c: char, r: string)
    ensures Replace([d], c, r) == if d == c then r else [d]
  {
    assert [d][1..] == [];
  }

  /** `escape_xml`: five replacements in turn, the ampersand first. */
  function EscapeXml(s: string): string {
    Replace(Replace(Replace(Replace(Replace(s, '&', "&amp;"), '<', "&lt;"), '>', "&gt;"), '"', "&quot;"), '\'', "&apos;")
  }

  /** The entity of one character: the five XML specials become entities, anything else stays. */
  function EscapeChar(c: char): string {
    match c
    case '&' => "&amp;"
    case '<' => "&lt;"
    case '>' => "&gt;"
    case '"' => "&quot;"
    case '\'' => "&apos;"
    case _ => [c]
  }

  /** Escaping character by character. */
  function EscapeEach(s: string): string {
    if s == [] then [] else EscapeChar(s[0]) + EscapeEach(s[1..])
  }

  /** The character the `k`-th replacement of `escape_xml` removes. */
  function Special(k: nat): char
    requires k < 5
  {
    if k == 0 then '&' else if k == 1 then '<' else if k == 2 then '>' else if k == 3 then '"' else '\''
  }

  /** The chain of replacements run on `s` after the first `k` of them. */
  function ReplaceFrom(s: string, k: nat): string
    requires k <= 5
    decreases 5 - k
  {
    if k == 5 then s else ReplaceFrom(Replace(s, Special(k), EscapeChar(Special(k))), k + 1)
  }

  lemma ReplaceFromAll(s: string)
    ensures ReplaceFrom(s, 0) == EscapeXml(s)
  {
    var a := Replace(s, '&', "&amp;");
    var b := Replace(a, '<', "&lt;");
    var c := Replace(b, '>', "&gt;");
    var d := Replace(c, '"', "&quot;");
    assert ReplaceFrom(s, 0) == ReplaceFrom(a, 1) == ReplaceFrom(b, 2);
    assert ReplaceFrom(b, 2) == ReplaceFrom(c, 3) == ReplaceFrom(d, 4);
    assert ReplaceFrom(d, 4) == ReplaceFrom(Replace(d, '\'', "&apos;"), 5);
  }

  /** The characters replaced from step `k` on. */
  predicate LaterSpecial(d: char, k: nat) {
    (k <= 0 && d == '&') || (k <= 1 && d == '<') || (k <= 2 && d == '>') || (k <= 3 && d == '"') || (k <= 4 && d == '\'')
  }

  /** A text none of whose characters a later step replaces is left as it is. */
  lemma {:induction false} ReplaceFromPlain(s: string, k: nat)
    requires k <= 5
    requires forall d | d in s :: !LaterSpecial(d, k)
    ensures ReplaceFrom(s, k) == s
    decreases 5 - k
  {
    if k < 5 {
      assert LaterSpecial(Special(k), k);
      ReplaceAbsent(s, Special(k), EscapeChar(Special(k)));
      ReplaceFromPlain(s, k + 1);
    }
  }

  /** The chain distributes over concatenation. */
  lemma {:induction false} ReplaceFromAppend(a: string, b: string, k: nat)
    requires k <= 5
    ensures ReplaceFrom(a + b, k) == ReplaceFrom(a, k) + ReplaceFrom(b, k)
    decreases 5 - k
  {
    if k < 5 {
      var c, r := Special(k), EscapeChar(Special(k));
      ReplaceAppend(a, b, c, r);
      ReplaceFromAppend(Replace(a, c, r), Replace(b, c, r), k + 1);
    }
  }

  /** The chain from step `k` on, on one character: its entity if a step from `k` on replaces it. */
  lemma {:induction false} ReplaceFromOne(c: char, k: nat)
    requires k <= 5
    ensures ReplaceFrom([c], k) == if LaterSpecial(c, k) then EscapeChar(c) else [c]
    decreases 5 - k
  {
    if k < 5 {
      ReplaceSingle(c, Special(k), EscapeChar(Special(k)));
      if c == Special(k) {
        var e := EscapeChar(c);
        assert forall d | d in e :: d == '&' || d in "amplgtquos;";
        ReplaceFromPlain(e, k + 1);
      } else {
        ReplaceFromOne(c, k + 1);
      }
    }
  }

  /** On one character the chain yields its entity. */
  lemma EscapeOne(c: char)
    ensures EscapeXml([c]) == EscapeChar(c)
  {
    ReplaceFromAll([c]);
    ReplaceFromOne(c, 0);
  }

  /**
    The chain of replacements escapes each character on its own: the entities the
    steps insert hold no character a later step replaces again.
  */
  lemma {:induction false} EscapeXmlPerChar(s: string)
    ensures EscapeXml(s) == EscapeEach(s)
  {
    if s != [] {
      assert s == [s[0]] + s[1..];
      ReplaceFromAppend([s[0]], s[1..], 0);
      ReplaceFromAll(s);
      ReplaceFromAll([s[0]]);
      ReplaceFromAll(s[1..]);
      EscapeOne(s[0]);
      EscapeXmlPerChar(s[1..]);
    }
  }

  /** Text with none of the characters that would end an attribute or start markup. */
  predicate NoMarkup(s: string) {
    '<' !in s && '>' !in s && '"' !in s && '\'' !in s
  }

  lemma {:induction false} EscapeEachNoMarkup(s: string)
    ensures NoMarkup(EscapeEach(s))
  {
    if s != [] {
      EscapeEachNoMarkup(s[1..]);
      assert NoMarkup(EscapeChar(s[0]));
    }
  }

  /** Escaped text can stand inside an element or an attribute value. */
  lemma EscapedHasNoMarkup(s: string)
    ensures NoMarkup(EscapeXml(s))
  {
    EscapeXmlPerChar(s);
    EscapeEachNoMarkup(s);
  }

  /** Text without specials is left as it is. */
  lemma EscapePlain(s: string)
    requires NoMarkup(s) && '&' !in s
    ensures EscapeXml(s) == s
  {
    ReplaceFromPlain(s, 0);
    ReplaceFromAll(s);
  }

  /** The character an entity at the start of `s` stands for, and the entity's length. */
  function EntityAt(s: string): (r: (char, nat))
    ensures 1 <= r.1 <= |s| || s == []
  {
    if StartsWith(s, "&amp;") then ('&', 5)
    else if StartsWith(s, "&lt;") then ('<', 4)
    else if StartsWith(s, "&gt;") then ('>', 4)
    else if StartsWith(s, "&quot;") then ('"', 6)
    else if StartsWith(s, "&apos;") then ('\'', 6)
    else if s == [] then (' ', 0)
    else (s[0], 1)
  }

  /** Reading escaped text back: each of the five entities stands for its character. */
  function Unescape(s: string): string
    decreases |s|
  {
    if s == [] then []
    else [EntityAt(s).0] + Unescape(s[EntityAt(s).1..])
  }

  lemma EntityOfEscape(c: char, rest: string)
    ensures EntityAt(EscapeChar(c) + rest) == (c, |EscapeChar(c)|)
  {
    var e := EscapeChar(c) + rest;
    assert e[..|EscapeChar(c)|] == EscapeChar(c);
    if c !in "&<>\"'" {
      assert e[0] == c;
    } else {
      assert e[0] == '&';
      assert e[1] == EscapeChar(c)[1];
    }
  }

  lemma UnescapeChar(c: char, rest: string)
    ensures Unescape(EscapeChar(c) + rest) == [c] + Unescape(rest)
  {
    var e := EscapeChar(c) + rest;
    EntityOfEscape(c, rest);
    assert e[|EscapeChar(c)|..] == rest;
  }

  lemma {:induction false} UnescapeEach(s: string)
    ensures Unescape(EscapeEach(s)) == s
  {
    if s != [] {
      UnescapeChar(s[0], EscapeEach(s[1..]));
      UnescapeEach(s[1..]);
    }
  }

  /** Escaping loses nothing: the original text can be read back. */
  lemma UnescapeEscape(s: string)
    ensures Unescape(EscapeXml(s)) == s
  {
    EscapeXmlPerChar(s);
    UnescapeEach(s);
  }

  // ----- The document -----

  /** The two renderings: `text_to_svg` and `text_to_cursive_svg`. */
  datatype Style = Plain | Cursive

  function FontSize(style: Style): nat {
    match style
    case Plain => 32
    case Cursive => 36
  }

  function LineHeight(style: Style): nat {
    match style
    case Plain => FontSize(style) + 10
    case Cursive => FontSize(style) + 15
  }

  function FontFamilies(style: Style): string {
    match style
    case Plain => "Noto Sans, DejaVu Sans, Arial, sans-serif"
    case Cursive => "Noto Sans, DejaVu Sans, Liberation Sans, Arial, Helvetica, sans-serif"
  }

  /** What follows `fill="black"` in a text element. */
  function ExtraAttributes(style: Style): string {
    match style
    case Plain => ""
    case Cursive => " style=\"font-style: italic; font-weight: 400;\""
  }

  /** `y + (i as u32 * line_height)`, in the wrapping `u32` arithmetic of a release build. */
  function YPos(style: Style, i: nat): (y: nat)
    ensures y < U32_BOUND
  {
    (100 + ((i % U32_BOUND) * LineHeight(style)) % U32_BOUND) % U32_BOUND
  }

  /** Below eighty million lines no wrapping happens: line `i` sits `i` line heights below the first. */
  lemma YPosLinear(style: Style, i: nat)
    requires i < 80_000_000
    ensures YPos(style, i) == 100 + i * LineHeight(style)
  {
    var h := LineHeight(style);
    assert h <= 51;
    assert i * h <= i * 51 <= 80_000_000 * 51;
    assert i % U32_BOUND == i;
    assert (i * h) % U32_BOUND == i * h;
  }

  /** The start tag of the element for line `i`, up to its closing `>`. */
  function ElementOpen(style: Style, i: nat): string {
    "    <text x=\"50\" y=\"" + NatToString(YPos(style, i)) + "\" font-family=\"" + FontFamilies(style)
    + "\" font-size=\"" + NatToString(FontSize(style)) + "\" fill=\"black\"" + ExtraAttributes(style) + ">"
  }

  const ElementClose: string := "</text>\n"

  /** The element for line `i`, its text already escaped, with the newline after it. */
  function TextElement(style: Style, i: nat, line: string): string {
    ElementOpen(style, i) + line + ElementClose
  }

  /** The element for each position and line of one style. */
  function ElementOf(style: Style): (nat, string) -> string {
    (i: nat, line: string) => TextElement(style, i, line)
  }

  // ----- Joining pieces, independent of the markup -----

  /** `piece(0, lines[0]) + piece(1, lines[1]) + ...`. */
  function Concat(piece: (nat, string) -> string, lines: seq<string>): string {
    if lines == [] then []
    else Concat(piece, lines[..|lines| - 1]) + piece(|lines| - 1, lines[|lines| - 1])
  }

  lemma ConcatStep(piece: (nat, string) -> string, lines: seq<string>, i: nat)
    requires i < |lines|
    ensures Concat(piece, lines[..i + 1]) == Concat(piece, lines[..i]) + piece(i, lines[i])
  {
    assert lines[..i + 1][..i] == lines[..i];
  }

  /** The pieces of the first `k` lines begin the pieces of all of them. */
  lemma {:induction false} ConcatPrefix(piece: (nat, string) -> string, lines: seq<string>, k: nat)
    requires k <= |lines|
    ensures exists rest :: Concat(piece, lines) == Concat(piece, lines[..k]) + rest
    decreases |lines| - k
  {
    if k == |lines| {
      assert lines[..k] == lines;
      assert Concat(piece, lines) == Concat(piece, lines[..k]) + [];
    } else {
      ConcatPrefix(piece, lines, k + 1);
      var rest :| Concat(piece, lines) == Concat(piece, lines[..k + 1]) + rest;
      ConcatStep(piece, lines, k);
      assert Concat(piece, lines) == Concat(piece, lines[..k]) + (piece(k, lines[k]) + rest);
    }
  }

  /** The piece of line `i` lies among the pieces. */
  lemma ConcatHas(piece: (nat, string) -> string, lines: seq<string>, i: nat)
    requires i < |lines|
    ensures exists before, after :: Concat(piece, lines) == before + piece(i, lines[i]) + after
  {
    ConcatPrefix(piece, lines, i + 1);
    var rest :| Concat(piece, lines) == Concat(piece, lines[..i + 1]) + rest;
    ConcatStep(piece, lines, i);
  }

  /** A string nested in pieces around it is contained in the whole. */
  lemma NestedContains(head: string, before: string, open: string, x: string, close: string, after: string, tail: string)
    ensures Contains(head + (before + (open + x + close) + after) + tail, open + x + close)
    ensures Contains(head + (before + (open + x + close) + after) + tail, x)
  {
    var whole := head + (before + (open + x + close) + after) + tail;
    assert whole == (head + before) + (open + x + close) + (after + tail);
    ConcatContains(head + before, open + x + close, after + tail);
    assert whole == (head + before + open) + x + (close + after + tail);
    ConcatContains(head + before + open, x, close + after + tail);
  }

  lemma StartsWithAppend(s: string, t: string, prefix: string)
    requires StartsWith(s, prefix)
    ensures StartsWith(s + t, prefix)
  {
    assert (s + t)[..|prefix|] == s[..|prefix|];
  }

  lemma EndsWithAppend(s: string, suffix: string)
    ensures EndsWith(s + suffix, suffix)
  {
    assert (s + suffix)[|s|..] == suffix;
  }

  // ----- The document -----

  /** The elements of the escaped lines, in order. */
  function Content(style: Style, lines: seq<string>): string {
    Concat(ElementOf(style), lines)
  }

  /** The start tag of the document. */
  function DocumentOpen(width: nat, height: nat): string {
    "<svg width=\"" + NatToString(width) + "\" height=\"" + NatToString(height)
    + "\" xmlns=\"http://www.w3.org/2000/svg\">\n"
  }

  const DocumentClose: string := "\n</svg>"

  /** The document around the content. */
  function Document(width: nat, height: nat, content: string): string {
    DocumentOpen(width, height) + content + DocumentClose
  }

  /** The lines of `text`, escaped. */
  function EscapedLines(text: string): (ls: seq<string>)
    ensures |ls| == |Lines(text)| && forall i | 0 <= i < |ls| :: ls[i] == EscapeXml(Lines(text)[i])
  {
    seq(|Lines(text)|, i requires 0 <= i < |Lines(text)| => EscapeXml(Lines(text)[i]))
  }

  /** The document rendering `text` produces. */
  function Render(style: Style, text: string, width: nat, height: nat): string {
    Document(width, height, Content(style, EscapedLines(text)))
  }

  /** The shared body of `text_to_svg` and `text_to_cursive_svg`; it never fails. */
  method RenderSvg(style: Style, text: string, width: nat, height: nat) returns (svg: string)
    ensures svg == Render(style, text, width, height)
  {
    var lines := EscapedLines(text);
    var svgContent := "";
    for i := 0 to |lines|
      invariant svgContent == Content(style, lines[..i])
    {
      ConcatStep(ElementOf(style), lines, i);
      svgContent := svgContent + TextElement(style, i, lines[i]);
    }
    assert lines[..|lines|] == lines;
    svg := DocumentOpen(width, height) + svgContent + DocumentClose;
  }

  /** `text_to_svg`. */
  method TextToSvg(text: string, width: nat, height: nat) returns (svg: string)
    ensures svg == Render(Plain, text, width, height)
  {
    svg := RenderSvg(Plain, text, width, height);
  }

  /** `text_to_cursive_svg`. */
  method TextToCursiveSvg(text: string, width: nat, height: nat) returns (svg: string)
    ensures svg == Render(Cursive, text, width, height)
  {
    svg := RenderSvg(Cursive, text, width, height);
  }

  /** Every line of the text appears in the document, escaped, as an element of its own. */
  lemma RenderHasEveryLine(style: Style, text: string, width: nat, height: nat, i: nat)
    requires i < |Lines(text)|
    ensures Contains(Render(style, text, width, height), TextElement(style, i, EscapeXml(Lines(text)[i])))
    ensures Contains(Render(style, text, width, height), EscapeXml(Lines(text)[i]))
  {
    DocumentHasElement(style, EscapedLines(text), width, height, i);
  }

  /** The document around any lines holds the element of each line, and the line itself. */
  lemma DocumentHasElement(style: Style, lines: seq<string>, width: nat, height: nat, i: nat)
    requires i < |lines|
    ensures Contains(Document(width, height, Content(style, lines)), TextElement(style, i, lines[i]))
    ensures Contains(Document(width, height, Content(style, lines)), lines[i])
  {
    ConcatHas(ElementOf(style), lines, i);
    var before, after :| Content(style, lines) == before + TextElement(style, i, lines[i]) + after;
    NestedContains(DocumentOpen(width, height), before, ElementOpen(style, i), lines[i], ElementClose, after, DocumentClose);
  }

  /** The document is one `svg` element. */
  lemma RenderFrame(style: Style, text: string, width: nat, height: nat)
    ensures StartsWith(Render(style, text, width, height), "<svg width=\"")
    ensures EndsWith(Render(style, text, width, height), DocumentClose)
  {
    var head, body := DocumentOpen(width, height), Content(style, EscapedLines(text));
    var start := "<svg width=\"";
    var a1 := start + NatToString(width);
    var a2 := a1 + "\" height=\"";
    var a3 := a2 + NatToString(height);
    assert head == a3 + "\" xmlns=\"http://www.w3.org/2000/svg\">\n";
    assert StartsWith(start, start);
    StartsWithAppend(start, NatToString(width), start);
    StartsWithAppend(a1, "\" height=\"", start);
    StartsWithAppend(a2, NatToString(height), start);
    StartsWithAppend(a3, "\" xmlns=\"http://www.w3.org/2000/svg\">\n", start);
    StartsWithAppend(head, body, start);
    StartsWithAppend(head + body, DocumentClose, start);
    EndsWithAppend(head + body, DocumentClose);
  }
}
