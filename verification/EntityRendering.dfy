/**
 Rendering a Telegram message to HTML: entity offsets count UTF-16 code units (section 2.1 of RFC 2781), the
 text is walked rune by rune, and every entity contributes one opening and one closing tag.
 A `string` is the slice of runes; a rune is a Unicode scalar value.
*/
module EntityRendering {
  import opened Prelude

  // ----- UTF-16 -----

  function Utf16Rune(c: char): (units: seq<int>)
    ensures |units| == if c as int <= 0xFFFF then 1 else 2
  {
    var r := c as int;
    if r <= 0xFFFF then [r] else [0xD800 + (r - 0x10000) / 0x400, 0xDC00 + (r - 0x10000) % 0x400]
  }

  function Utf16(text: string): seq<int> {
    if text == "" then [] else Utf16(text[..|text| - 1]) + Utf16Rune(text[|text| - 1])
  }

  predicate IsLowSurrogate(unit: int) {
    0xDC00 <= unit <= 0xDFFF
  }

  /** The number of code units before rune k. */
  function Units(text: string, k: nat): (n: nat)
    requires k <= |text|
    ensures k <= n
  {
    if k == 0 then 0 else Units(text, k - 1) + |Utf16Rune(text[k - 1])|
  }

  lemma {:induction false} UnitsIncrease(text: string, j: nat, k: nat)
    requires j < k <= |text|
    ensures Units(text, j) < Units(text, k)
  {
    if j < k - 1 {
      UnitsIncrease(text, j, k - 1);
    }
  }

  lemma {:induction false} UnitsOfPrefix(text: string, n: nat, k: nat)
    requires k <= n <= |text|
    ensures Units(text[..n], k) == Units(text, k)
  {
    if k > 0 {
      UnitsOfPrefix(text, n, k - 1);
    }
  }

  lemma {:induction false} UnitsCount(text: string)
    ensures |Utf16(text)| == Units(text, |text|)
  {
    if text != "" {
      UnitsCount(text[..|text| - 1]);
      UnitsOfPrefix(text, |text| - 1, |text| - 1);
    }
  }

  /** The offsets of the first n runes, and of the end of the nth, with their rune indexes. */
  ghost predicate IndexesPrefix(text: string, n: nat, index: map<int, nat>)
    requires n <= |text|
  {
    && (forall u <- index :: index[u] <= n && Units(text, index[u]) == u)
    && (forall k: nat :: k <= n ==> Units(text, k) in index && index[Units(text, k)] == k)
  }

  ghost predicate IsRuneIndex(text: string, index: map<int, nat>) {
    IndexesPrefix(text, |text|, index)
  }

  lemma ExtendIndex(text: string, n: nat, index: map<int, nat>)
    requires n < |text| && IndexesPrefix(text, n, index)
    ensures IndexesPrefix(text, n + 1, index[Units(text, n + 1) := n + 1])
  {
    forall k: nat | k <= n ensures Units(text, k) < Units(text, n + 1) {
      UnitsIncrease(text, k, n + 1);
    }
  }

  method Utf16UnitToRuneIndex(runes: string) returns (result: map<int, nat>)
    ensures IsRuneIndex(runes, result)
  {
    result := map[0 := 0];
    var units := 0;
    for i := 0 to |runes|
      invariant units == Units(runes, i) && IndexesPrefix(runes, i, result)
    {
      ExtendIndex(runes, i, result);
      if runes[i] as int <= 0xFFFF {
        units := units + 1;
      } else {
        units := units + 2;
      }
      result := result[units := i + 1];
    }
  }

  /** The rune index of a code-unit offset; None when no rune starts there. */
  function RuneAt(text: string, unit: int, k: nat): (r: Option<nat>)
    requires k <= |text|
    ensures r.Some? ==> r.value <= k && Units(text, r.value) == unit
    ensures r.None? ==> forall j: nat :: j <= k ==> Units(text, j) != unit
  {
    if Units(text, k) == unit then Some(k) else if k == 0 then None else RuneAt(text, unit, k - 1)
  }

  function RuneIndex(text: string, unit: int): Option<nat> {
    RuneAt(text, unit, |text|)
  }

  /** An offset is usable exactly when it lies in the text and does not split a surrogate pair. */
  lemma {:induction false} UsableOffsets(text: string, unit: int)
    ensures RuneIndex(text, unit).Some? <==>
            0 <= unit <= |Utf16(text)| && (unit < |Utf16(text)| ==> !IsLowSurrogate(Utf16(text)[unit]))
  {
    UnitsCount(text);
    if text == "" {
      assert Units(text, 0) == 0;
    } else {
      var n := |text| - 1;
      var front := text[..n];
      UsableOffsets(front, unit);
      UnitsCount(front);
      assert forall k: nat {:trigger Units(text, k)} :: k <= n ==> Units(front, k) == Units(text, k) by {
        forall k: nat | k <= n ensures Units(front, k) == Units(text, k) {
          UnitsOfPrefix(text, n, k);
        }
      }
      var r, q := RuneIndex(text, unit), RuneIndex(front, unit);
      assert q.Some? ==> Units(text, q.value) == unit;
      assert r.Some? && r.value <= n ==> Units(front, r.value) == unit;
      assert Utf16(text) == Utf16(front) + Utf16Rune(text[n]);
      assert unit == Units(front, n) ==> Units(text, n) == unit;
    }
  }

  // ----- Escaping -----

  function EscapeRune(c: char): string {
    if c == '<' then "&lt;"
    else if c == '>' then "&gt;"
    else if c == '&' then "&amp;"
    else if c == '\'' then "&#39;"
    else if c == '"' then "&#34;"
    else [c]
  }

  function EscapeString(text: string): (html: string)
    ensures forall i :: 0 <= i < |html| ==> html[i] != '<' && html[i] != '>'
  {
    if text == "" then "" else EscapeRune(text[0]) + EscapeString(text[1..])
  }

  /** Reading the five character references back. */
  function Unescape(html: string): string
    decreases |html|
  {
    if html == "" then ""
    else if "&lt;" <= html then "<" + Unescape(html[4..])
    else if "&gt;" <= html then ">" + Unescape(html[4..])
    else if "&amp;" <= html then "&" + Unescape(html[5..])
    else if "&#39;" <= html then "'" + Unescape(html[5..])
    else if "&#34;" <= html then "\"" + Unescape(html[5..])
    else [html[0]] + Unescape(html[1..])
  }

  lemma UnescapeReference(reference: string, c: char, rest: string)
    requires (reference, c) in {("&lt;", '<'), ("&gt;", '>'), ("&amp;", '&'), ("&#39;", '\''), ("&#34;", '"')}
    ensures Unescape(reference + rest) == [c] + Unescape(rest)
  {
    var html := reference + rest;
    assert html[1] == reference[1] && html[2] == reference[2] && html[3] == reference[3];
    assert html[|reference|..] == rest;
  }

  lemma UnescapeRune(c: char, rest: string)
    ensures Unescape(EscapeRune(c) + rest) == [c] + Unescape(rest)
  {
    if |EscapeRune(c)| > 1 {
      UnescapeReference(EscapeRune(c), c, rest);
    } else {
      assert (EscapeRune(c) + rest)[0] == c && (EscapeRune(c) + rest)[1..] == rest;
    }
  }

  lemma {:induction false} EscapingIsLossless(text: string)
    ensures Unescape(EscapeString(text)) == text
  {
    if text != "" {
      EscapingIsLossless(text[1..]);
      UnescapeRune(text[0], EscapeString(text[1..]));
    }
  }

  // ----- Tags -----

  datatype Entity = Entity(entityType: string, offset: int, length: int, url: string)

  datatype Style = Bold | Italic | Underline | Strikethrough | Spoiler | Code | Pre | Blockquote | TextLink(url: string)

  function StyleOf(e: Entity): Option<Style> {
    match e.entityType
    case "bold" => Some(Bold)
    case "italic" => Some(Italic)
    case "underline" => Some(Underline)
    case "strikethrough" => Some(Strikethrough)
    case "spoiler" => Some(Spoiler)
    case "code" => Some(Code)
    case "pre" => Some(Pre)
    case "blockquote" => Some(Blockquote)
    case "text_link" => Some(TextLink(e.url))
    case _ => None
  }

  function TagName(style: Style): string {
    match style
    case Bold => "b"
    case Italic => "i"
    case Underline => "u"
    case Strikethrough => "s"
    case Spoiler => "tg-spoiler"
    case Code => "code"
    case Pre => "pre"
    case Blockquote => "blockquote"
    case TextLink(_) => "a"
  }

  datatype Token = Open(style: Style) | Close(style: Style) | Glyph(rune: char)

  function Text(token: Token): string {
    match token
    case Open(TextLink(url)) => "<" + ("a href=\"" + EscapeString(url) + "\"") + ">"
    case Open(style) => "<" + TagName(style) + ">"
    case Close(style) => "<" + ("/" + TagName(style)) + ">"
    case Glyph(c) => EscapeRune(c)
  }

  function Joined(parts: seq<string>): string {
    if parts == [] then "" else Joined(parts[..|parts| - 1]) + parts[|parts| - 1]
  }

  function Written(tokens: seq<Token>): string {
    Joined(seq(|tokens|, i requires 0 <= i < |tokens| => Text(tokens[i])))
  }

  lemma WrittenAppend(tokens: seq<Token>, token: Token)
    ensures Written(tokens + [token]) == Written(tokens) + Text(token)
  {
    var longer := tokens + [token];
    var x := seq(|tokens|, i requires 0 <= i < |tokens| => Text(tokens[i]));
    var y := seq(|longer|, i requires 0 <= i < |longer| => Text(longer[i]));
    assert y[..|tokens|] == x;
  }

  // ----- Reading the markup back -----

  /** How far a tag reaches: up to the next closing angle bracket. */
  function BodyLength(html: string): (n: nat)
    ensures n <= |html|
  {
    if html == "" || html[0] == '>' then 0 else 1 + BodyLength(html[1..])
  }

  /** What stands between the angle brackets. The name of a closing link tag does not tell its address. */
  function ReadTag(body: string): Option<Token> {
    if body == "b" then Some(Open(Bold))
    else if body == "/b" then Some(Close(Bold))
    else if body == "i" then Some(Open(Italic))
    else if body == "/i" then Some(Close(Italic))
    else if body == "u" then Some(Open(Underline))
    else if body == "/u" then Some(Close(Underline))
    else if body == "s" then Some(Open(Strikethrough))
    else if body == "/s" then Some(Close(Strikethrough))
    else if body == "tg-spoiler" then Some(Open(Spoiler))
    else if body == "/tg-spoiler" then Some(Close(Spoiler))
    else if body == "code" then Some(Open(Code))
    else if body == "/code" then Some(Close(Code))
    else if body == "pre" then Some(Open(Pre))
    else if body == "/pre" then Some(Close(Pre))
    else if body == "blockquote" then Some(Open(Blockquote))
    else if body == "/blockquote" then Some(Close(Blockquote))
    else if body == "/a" then Some(Close(TextLink("")))
    else if "a href=\"" <= body && |body| > 8 && body[|body| - 1] == '"' then
      Some(Open(TextLink(Unescape(body[8..|body| - 1]))))
    else None
  }

  /** The first rune of escaped text, and how long it is written. */
  function ReadRune(html: string): (r: (char, nat))
    requires html != ""
    ensures 0 < r.1 <= |html|
  {
    if "&lt;" <= html then ('<', 4)
    else if "&gt;" <= html then ('>', 4)
    else if "&amp;" <= html then ('&', 5)
    else if "&#39;" <= html then ('\'', 5)
    else if "&#34;" <= html then ('"', 5)
    else (html[0], 1)
  }

  /** The tags and runes of a piece of HTML; None for a tag that is none of the known ones. */
  function Scan(html: string): seq<Option<Token>>
    decreases |html|
  {
    if html == "" then []
    else if html[0] == '<' then
      var n := BodyLength(html[1..]);
      if n == |html| - 1 then [None] else [ReadTag(html[1..n + 1])] + Scan(html[n + 2..])
    else
      var rune := ReadRune(html);
      [Some(Glyph(rune.0))] + Scan(html[rune.1..])
  }

  /** What a token looks like on the page. */
  function Erased(token: Token): Token {
    match token
    case Close(TextLink(_)) => Close(TextLink(""))
    case _ => token
  }

  function Seen(tokens: seq<Token>): (r: seq<Option<Token>>)
    ensures |r| == |tokens| && forall i :: 0 <= i < |tokens| ==> r[i] == Some(Erased(tokens[i]))
  {
    seq(|tokens|, i requires 0 <= i < |tokens| => Some(Erased(tokens[i])))
  }

  lemma {:induction false} BodyLengthIs(body: string, rest: string)
    requires forall i :: 0 <= i < |body| ==> body[i] != '>'
    ensures BodyLength(body + ">" + rest) == |body|
  {
    if body == "" {
      assert body + ">" + rest == ">" + rest;
    } else {
      assert (body + ">" + rest)[1..] == body[1..] + ">" + rest;
      BodyLengthIs(body[1..], rest);
    }
  }

  lemma ScanTag(body: string, rest: string)
    requires forall i :: 0 <= i < |body| ==> body[i] != '>'
    ensures Scan("<" + body + ">" + rest) == [ReadTag(body)] + Scan(rest)
  {
    var html := "<" + body + ">" + rest;
    assert html[1..] == body + ">" + rest;
    BodyLengthIs(body, rest);
    assert html[1..|body| + 1] == body && html[|body| + 2..] == rest;
  }

  lemma ReadReference(reference: string, c: char, rest: string)
    requires (reference, c) in {("&lt;", '<'), ("&gt;", '>'), ("&amp;", '&'), ("&#39;", '\''), ("&#34;", '"')}
    ensures ReadRune(reference + rest) == (c, |reference|)
  {
    var html := reference + rest;
    assert html[1] == reference[1] && html[2] == reference[2] && html[3] == reference[3];
    assert reference <= html;
  }

  lemma ReadRuneOf(c: char, rest: string)
    ensures ReadRune(EscapeRune(c) + rest) == (c, |EscapeRune(c)|)
  {
    if |EscapeRune(c)| > 1 {
      ReadReference(EscapeRune(c), c, rest);
    } else {
      assert (EscapeRune(c) + rest)[0] == c;
    }
  }

  lemma ScanRune(c: char, rest: string)
    ensures Scan(EscapeRune(c) + rest) == [Some(Glyph(c))] + Scan(rest)
  {
    ReadRuneOf(c, rest);
    assert (EscapeRune(c) + rest)[0] == EscapeRune(c)[0] != '<';
    assert (EscapeRune(c) + rest)[|EscapeRune(c)|..] == rest;
  }

  /** The markup between the brackets of a tag. */
  function Body(token: Token): string
    requires !token.Glyph?
  {
    match token
    case Open(TextLink(url)) => "a href=\"" + EscapeString(url) + "\""
    case Open(style) => TagName(style)
    case Close(style) => "/" + TagName(style)
  }

  lemma NameHasNoBracket(style: Style)
    ensures forall i :: 0 <= i < |TagName(style)| ==> TagName(style)[i] != '>'
  {
  }

  lemma TagIsBracketed(token: Token)
    requires !token.Glyph?
    ensures Text(token) == "<" + Body(token) + ">"
    ensures forall i :: 0 <= i < |Body(token)| ==> Body(token)[i] != '>'
  {
    if !(token.Open? && token.style.TextLink?) {
      NameHasNoBracket(token.style);
    }
  }

  lemma LinkReadsBack(url: string)
    ensures ReadTag("a href=\"" + EscapeString(url) + "\"") == Some(Open(TextLink(url)))
  {
    var body := "a href=\"" + EscapeString(url) + "\"";
    assert body[8..|body| - 1] == EscapeString(url);
    assert body[..8] == "a href=\"" && body[0] == 'a';
    EscapingIsLossless(url);
  }

  lemma NameReadsBack(style: Style)
    requires !style.TextLink?
    ensures ReadTag(TagName(style)) == Some(Open(style))
  {
  }

  lemma SlashedNameReadsBack(style: Style)
    ensures ReadTag("/" + TagName(style)) == Some(Erased(Close(style)))
  {
    match style
    case Bold => assert "/" + "b" == "/b";
    case Italic => assert "/" + "i" == "/i";
    case Underline => assert "/" + "u" == "/u";
    case Strikethrough => assert "/" + "s" == "/s";
    case Spoiler => assert "/" + "tg-spoiler" == "/tg-spoiler";
    case Code => assert "/" + "code" == "/code";
    case Pre => assert "/" + "pre" == "/pre";
    case Blockquote => assert "/" + "blockquote" == "/blockquote";
    case TextLink(_) => assert "/" + "a" == "/a";
  }

  /** The markup of every tag reads back as that tag, the address of a link included. */
  lemma TagReadsBack(token: Token)
    requires !token.Glyph?
    ensures Text(token) == "<" + Body(token) + ">" && ReadTag(Body(token)) == Some(Erased(token))
  {
    TagIsBracketed(token);
    if token.Close? {
      SlashedNameReadsBack(token.style);
    } else if token.style.TextLink? {
      LinkReadsBack(token.style.url);
    } else {
      NameReadsBack(token.style);
    }
  }

  lemma ScanToken(token: Token, rest: string)
    ensures Scan(Text(token) + rest) == [Some(Erased(token))] + Scan(rest)
  {
    if token.Glyph? {
      ScanRune(token.rune, rest);
    } else {
      TagReadsBack(token);
      TagIsBracketed(token);
      ScanTag(Body(token), rest);
    }
  }

  lemma SeenAppend(front: seq<Token>, last: Token, rest: seq<Option<Token>>)
    ensures Seen(front) + ([Some(Erased(last))] + rest) == Seen(front + [last]) + rest
  {
    assert Seen(front + [last]) == Seen(front) + [Some(Erased(last))];
  }

  lemma Associative(a: string, b: string, c: string)
    ensures a + b + c == a + (b + c)
  {
  }

  lemma {:induction false} ScanAll(tokens: seq<Token>, rest: string)
    ensures Scan(Written(tokens) + rest) == Seen(tokens) + Scan(rest)
    decreases |tokens|
  {
    if tokens == [] {
      assert Written(tokens) + rest == rest;
    } else {
      var front, last := tokens[..|tokens| - 1], tokens[|tokens| - 1];
      assert tokens == front + [last];
      calc {
        Scan(Written(tokens) + rest);
        { WrittenAppend(front, last); Associative(Written(front), Text(last), rest); }
        Scan(Written(front) + (Text(last) + rest));
        { ScanAll(front, Text(last) + rest); }
        Seen(front) + Scan(Text(last) + rest);
        { ScanToken(last, rest); }
        Seen(front) + ([Some(Erased(last))] + Scan(rest));
        { SeenAppend(front, last, Scan(rest)); }
        Seen(tokens) + Scan(rest);
      }
    }
  }

  /** Scanning the markup gives back the tokens it was written from. */
  lemma ScanWritten(tokens: seq<Token>)
    ensures Scan(Written(tokens)) == Seen(tokens)
  {
    ScanAll(tokens, "");
    assert Written(tokens) + "" == Written(tokens);
  }

  /** The tags of each entity type that has one; the opening tag of a link carries its address instead. */
  function MarkupNames(entityType: string): Option<(string, string)> {
    match entityType
    case "bold" => Some(("b", "/b"))
    case "italic" => Some(("i", "/i"))
    case "underline" => Some(("u", "/u"))
    case "strikethrough" => Some(("s", "/s"))
    case "spoiler" => Some(("tg-spoiler", "/tg-spoiler"))
    case "code" => Some(("code", "/code"))
    case "pre" => Some(("pre", "/pre"))
    case "blockquote" => Some(("blockquote", "/blockquote"))
    case "text_link" => Some(("", "/a"))
    case _ => None
  }

  /** Every entity of a known type is rendered with the tags of its type, and a link with its own address. */
  lemma MarkupOfTypes(e: Entity)
    ensures StyleOf(e).Some? <==> MarkupNames(e.entityType).Some?
    ensures StyleOf(e).Some? ==> ReadTag(MarkupNames(e.entityType).value.1) == Some(Erased(Close(StyleOf(e).value)))
    ensures StyleOf(e).Some? && e.entityType != "text_link" ==>
      ReadTag(MarkupNames(e.entityType).value.0) == Some(Open(StyleOf(e).value))
    ensures e.entityType == "text_link" ==> StyleOf(e) == Some(TextLink(e.url))
  {
  }

  // ----- What the rendering should be -----

  /** An entity of a known type whose two offsets fall on runes. */
  datatype Span = Span(start: nat, end: nat, style: Style)

  function SpanOf(text: string, e: Entity): seq<Span> {
    var start, end := RuneIndex(text, e.offset), RuneIndex(text, e.offset + e.length);
    if start.Some? && end.Some? && StyleOf(e).Some? then [Span(start.value, end.value, StyleOf(e).value)] else []
  }

  function Spans(text: string, entities: seq<Entity>): (spans: seq<Span>)
    ensures forall s <- spans :: s.start <= |text| && s.end <= |text|
  {
    if entities == [] then [] else Spans(text, entities[..|entities| - 1]) + SpanOf(text, entities[|entities| - 1])
  }

  /** The closing tags due at rune p, in list order. */
  function Closing(spans: seq<Span>, p: nat): seq<Token> {
    if spans == [] then []
    else
      var rest, last := Closing(spans[..|spans| - 1], p), spans[|spans| - 1];
      if last.end == p then rest + [Close(last.style)] else rest
  }

  function Opening(spans: seq<Span>, p: nat): seq<Token> {
    if spans == [] then []
    else
      var rest, last := Opening(spans[..|spans| - 1], p), spans[|spans| - 1];
      if last.start == p then rest + [Open(last.style)] else rest
  }

  /** Before rune p: the tags that end there, then the tags that start there. */
  function TagsAt(spans: seq<Span>, p: nat): seq<Token> {
    Closing(spans, p) + Opening(spans, p)
  }

  function TokensBefore(text: string, spans: seq<Span>, p: nat): seq<Token>
    requires p <= |text|
  {
    if p == 0 then [] else TokensBefore(text, spans, p - 1) + TagsAt(spans, p - 1) + [Glyph(text[p - 1])]
  }

  function Tokens(text: string, spans: seq<Span>): seq<Token> {
    TokensBefore(text, spans, |text|) + TagsAt(spans, |text|)
  }

  // ----- How the code gets there: a stable sort and a merge -----

  datatype Tag = Tag(pos: nat, token: Token)

  predicate Before(a: Tag, b: Tag) {
    if a.pos == b.pos then a.token.Close? && !b.token.Close? else a.pos < b.pos
  }

  ghost predicate Sorted(tags: seq<Tag>) {
    forall i, j :: 0 <= i < j < |tags| ==> !Before(tags[j], tags[i])
  }

  /** The tags of one position and one kind, in list order. */
  ghost function At(tags: seq<Tag>, p: nat, closer: bool): seq<Token> {
    if tags == [] then []
    else
      var rest, last := At(tags[..|tags| - 1], p, closer), tags[|tags| - 1];
      if last.pos == p && last.token.Close? == closer then rest + [last.token] else rest
  }

  /** A stable sort moves tags of different keys past each other and nothing else. */
  ghost predicate SameOrder(a: seq<Tag>, b: seq<Tag>) {
    && |a| == |b| && multiset(a) == multiset(b)
    && forall p: nat, closer: bool :: At(a, p, closer) == At(b, p, closer)
  }

  lemma {:induction false} AtConcat(a: seq<Tag>, b: seq<Tag>, p: nat, closer: bool)
    ensures At(a + b, p, closer) == At(a, p, closer) + At(b, p, closer)
  {
    if b == [] {
      assert a + b == a;
    } else {
      assert (a + b)[..|a + b| - 1] == a + b[..|b| - 1];
      AtConcat(a, b[..|b| - 1], p, closer);
    }
  }

  lemma SwapKeepsOrder(tags: seq<Tag>, k: nat)
    requires k + 1 < |tags| && Before(tags[k + 1], tags[k])
    ensures SameOrder(tags, tags[k := tags[k + 1]][k + 1 := tags[k]])
  {
    var x, y := tags[k], tags[k + 1];
    var swapped := tags[k := y][k + 1 := x];
    assert tags == tags[..k] + ([x] + [y]) + tags[k + 2..];
    assert swapped == tags[..k] + ([y] + [x]) + tags[k + 2..];
    forall p: nat, closer: bool ensures At(tags, p, closer) == At(swapped, p, closer) {
      AtConcat(tags[..k] + ([x] + [y]), tags[k + 2..], p, closer);
      AtConcat(tags[..k] + ([y] + [x]), tags[k + 2..], p, closer);
      AtConcat(tags[..k], [x] + [y], p, closer);
      AtConcat(tags[..k], [y] + [x], p, closer);
      AtConcat([x], [y], p, closer);
      AtConcat([y], [x], p, closer);
    }
  }

  /** The first i + 1 tags are sorted, apart from the one at k, which may still belong further left. */
  ghost predicate SortedBut(tags: seq<Tag>, i: nat, k: nat)
    requires i < |tags|
  {
    forall a, b :: 0 <= a < b <= i && b != k ==> !Before(tags[b], tags[a])
  }

  lemma SwapSinks(tags: seq<Tag>, i: nat, k: nat)
    requires 0 < k <= i < |tags| && SortedBut(tags, i, k) && Before(tags[k], tags[k - 1])
    ensures SortedBut(tags[k - 1 := tags[k]][k := tags[k - 1]], i, k - 1)
  {
  }

  method Sink(tags: array<Tag>, i: nat)
    requires i < tags.Length && Sorted(tags[..i])
    modifies tags
    ensures Sorted(tags[..i + 1]) && SameOrder(old(tags[..]), tags[..])
  {
    var k := i;
    assert SortedBut(tags[..], i, i) by {
      assert forall a :: 0 <= a < i ==> tags[..][a] == tags[..i][a];
    }
    while k > 0 && Before(tags[k], tags[k - 1])
      invariant 0 <= k <= i
      invariant SortedBut(tags[..], i, k)
      invariant SameOrder(old(tags[..]), tags[..])
    {
      ghost var was := tags[..];
      SwapKeepsOrder(was, k - 1);
      SwapSinks(was, i, k);
      tags[k - 1], tags[k] := tags[k], tags[k - 1];
      assert tags[..] == was[k - 1 := was[k]][k := was[k - 1]];
      k := k - 1;
    }
    assert tags[..i + 1] == tags[..][..i + 1];
  }

  /** Sorts in place; tags of equal position and kind keep their order. */
  method SortTags(tags: array<Tag>)
    modifies tags
    ensures Sorted(tags[..]) && SameOrder(old(tags[..]), tags[..])
  {
    for i := 0 to tags.Length
      invariant Sorted(tags[..i]) && SameOrder(old(tags[..]), tags[..])
    {
      Sink(tags, i);
    }
    assert tags[..] == tags[..tags.Length];
  }

  function TagList(spans: seq<Span>): seq<Tag> {
    if spans == [] then []
    else
      var s := spans[|spans| - 1];
      TagList(spans[..|spans| - 1]) + [Tag(s.start, Open(s.style)), Tag(s.end, Close(s.style))]
  }

  lemma {:induction false} TagListAt(spans: seq<Span>, p: nat)
    ensures At(TagList(spans), p, true) == Closing(spans, p)
    ensures At(TagList(spans), p, false) == Opening(spans, p)
  {
    if spans != [] {
      var s := spans[|spans| - 1];
      var front := TagList(spans[..|spans| - 1]);
      TagListAt(spans[..|spans| - 1], p);
      var open, close := Tag(s.start, Open(s.style)), Tag(s.end, Close(s.style));
      assert TagList(spans) == front + ([open] + [close]);
      AtConcat(front, [open] + [close], p, true);
      AtConcat(front, [open] + [close], p, false);
      AtConcat([open], [close], p, true);
      AtConcat([open], [close], p, false);
    }
  }

  ghost function TokensOf(tags: seq<Tag>): seq<Token> {
    seq(|tags|, i requires 0 <= i < |tags| => tags[i].token)
  }

  lemma {:induction false} AtNowhere(tags: seq<Tag>, p: nat, closer: bool)
    requires forall t <- tags :: t.pos != p
    ensures At(tags, p, closer) == []
  {
    if tags != [] {
      AtNowhere(tags[..|tags| - 1], p, closer);
    }
  }

  lemma {:induction false} OnePosition(tags: seq<Tag>, p: nat)
    requires Sorted(tags) && forall t <- tags :: t.pos == p
    ensures TokensOf(tags) == At(tags, p, true) + At(tags, p, false)
    ensures (exists t <- tags :: !t.token.Close?) <==> At(tags, p, false) != []
  {
    if tags != [] {
      var front, last := tags[..|tags| - 1], tags[|tags| - 1];
      OnePosition(front, p);
      assert tags == front + [last];
      assert TokensOf(tags) == TokensOf(front) + [last.token];
    }
  }

  /** In sorted order the tags of one position form one run: closers, then openers. */
  lemma RunOfTags(tags: seq<Tag>, lo: nat, hi: nat, p: nat)
    requires Sorted(tags) && lo <= hi <= |tags|
    requires forall i :: 0 <= i < lo ==> tags[i].pos < p
    requires forall i :: lo <= i < hi ==> tags[i].pos == p
    requires forall i :: hi <= i < |tags| ==> tags[i].pos > p
    ensures TokensOf(tags[lo..hi]) == At(tags, p, true) + At(tags, p, false)
  {
    assert tags == tags[..lo] + tags[lo..hi] + tags[hi..];
    forall closer: bool ensures At(tags, p, closer) == At(tags[lo..hi], p, closer) {
      AtConcat(tags[..lo] + tags[lo..hi], tags[hi..], p, closer);
      AtConcat(tags[..lo], tags[lo..hi], p, closer);
      AtNowhere(tags[..lo], p, closer);
      AtNowhere(tags[hi..], p, closer);
    }
    OnePosition(tags[lo..hi], p);
  }

  // ----- The renderer -----

  /** Writes the sorted tags between the runes of the text. The builder is a list of pieces, joined at the end. */
  method Merge(runes: string, tags: seq<Tag>, ghost spans: seq<Span>) returns (builder: seq<Token>)
    requires Sorted(tags) && forall t <- tags :: t.pos <= |runes|
    requires forall p: nat :: At(tags, p, true) + At(tags, p, false) == TagsAt(spans, p)
    ensures builder == Tokens(runes, spans)
  {
    builder := [];
    var tagIndex: nat := 0;
    for i := 0 to |runes|
      invariant tagIndex <= |tags| && builder == TokensBefore(runes, spans, i)
      invariant forall j :: 0 <= j < |tags| ==> (tags[j].pos < i <==> j < tagIndex)
    {
      builder, tagIndex := WriteTagsAt(tags, tagIndex, i, builder);
      builder := builder + [Glyph(runes[i])];
    }
    builder, tagIndex := WriteTagsAt(tags, tagIndex, |runes|, builder);
  }

  /** The inner loop: every tag due at rune p. */
  method WriteTagsAt(tags: seq<Tag>, first: nat, p: nat, before: seq<Token>) returns (builder: seq<Token>, tagIndex: nat)
    requires Sorted(tags) && first <= |tags|
    requires forall j :: 0 <= j < |tags| ==> (tags[j].pos < p <==> j < first)
    ensures tagIndex <= |tags| && builder == before + (At(tags, p, true) + At(tags, p, false))
    ensures forall j :: 0 <= j < |tags| ==> (tags[j].pos < p + 1 <==> j < tagIndex)
  {
    builder, tagIndex := before, first;
    while tagIndex < |tags| && tags[tagIndex].pos == p
      invariant first <= tagIndex <= |tags|
      invariant forall j :: first <= j < tagIndex ==> tags[j].pos == p
      invariant builder == before + TokensOf(tags[first..tagIndex])
    {
      assert TokensOf(tags[first..tagIndex + 1]) == TokensOf(tags[first..tagIndex]) + [tags[tagIndex].token];
      builder := builder + [tags[tagIndex].token];
      tagIndex := tagIndex + 1;
    }
    RunOfTags(tags, first, tagIndex, p);
  }

  lemma {:induction false} TagListBounds(spans: seq<Span>, n: nat)
    requires forall s <- spans :: s.start <= n && s.end <= n
    ensures forall t <- TagList(spans) :: t.pos <= n
  {
    if spans != [] {
      TagListBounds(spans[..|spans| - 1], n);
    }
  }

  lemma OneMoreEntity(text: string, entities: seq<Entity>, i: nat)
    requires i < |entities|
    ensures Spans(text, entities[..i + 1]) == Spans(text, entities[..i]) + SpanOf(text, entities[i])
  {
    assert entities[..i + 1][..i] == entities[..i];
  }

  lemma OneMoreSpan(spans: seq<Span>, s: Span)
    ensures TagList(spans + [s]) == TagList(spans) + [Tag(s.start, Open(s.style)), Tag(s.end, Close(s.style))]
  {
    assert (spans + [s])[..|spans|] == spans;
  }

  /** The tags of one entity, or none when an offset is unusable or the type unknown. */
  method TagsOf(text: string, unitToRune: map<int, nat>, entity: Entity) returns (tags: seq<Tag>)
    requires IsRuneIndex(text, unitToRune)
    ensures forall spans :: TagList(spans + SpanOf(text, entity)) == TagList(spans) + tags
  {
    var style := StyleOf(entity);
    if entity.offset !in unitToRune || entity.offset + entity.length !in unitToRune || style.None? {
      assert SpanOf(text, entity) == [];
      assert forall spans: seq<Span> :: spans + SpanOf(text, entity) == spans;
      return [];
    }
    var start, end := unitToRune[entity.offset], unitToRune[entity.offset + entity.length];
    tags := [Tag(start, Open(style.value)), Tag(end, Close(style.value))];
    forall spans ensures TagList(spans + SpanOf(text, entity)) == TagList(spans) + tags {
      OneMoreSpan(spans, Span(start, end, style.value));
    }
  }

  method CollectTags(text: string, entities: seq<Entity>) returns (tags: seq<Tag>)
    ensures tags == TagList(Spans(text, entities))
  {
    var unitToRune := Utf16UnitToRuneIndex(text);
    tags := [];
    for i := 0 to |entities|
      invariant tags == TagList(Spans(text, entities[..i]))
    {
      OneMoreEntity(text, entities, i);
      var added := TagsOf(text, unitToRune, entities[i]);
      tags := tags + added;
    }
    assert entities[..|entities|] == entities;
  }

  /** The scan of the output is the list of tokens, and each link can be read in it with its address. */
  ghost predicate ReadsBack(text: string, entities: seq<Entity>, html: string) {
    && Scan(html) == Seen(Tokens(text, Spans(text, entities)))
    && forall e <- entities ::
         e.entityType == "text_link" && RuneIndex(text, e.offset).Some? && RuneIndex(text, e.offset + e.length).Some? ==>
           Some(Open(TextLink(e.url))) in Scan(html)
  }

  lemma LinkHasSpan(text: string, e: Entity)
    requires e.entityType == "text_link"
    requires RuneIndex(text, e.offset).Some? && RuneIndex(text, e.offset + e.length).Some?
    ensures SpanOf(text, e) != [] && SpanOf(text, e)[0].style == TextLink(e.url)
  {
  }

  lemma LinkIsWritten(text: string, entities: seq<Entity>, e: Entity)
    requires e in entities && SpanOf(text, e) != [] && SpanOf(text, e)[0].style == TextLink(e.url)
    ensures Some(Open(TextLink(e.url))) in Seen(Tokens(text, Spans(text, entities)))
  {
    EntityIsWritten(text, entities, e);
  }

  lemma RenderingReadsBack(text: string, entities: seq<Entity>)
    ensures ReadsBack(text, entities, Written(Tokens(text, Spans(text, entities))))
  {
    var seen := Seen(Tokens(text, Spans(text, entities)));
    ScanWritten(Tokens(text, Spans(text, entities)));
    forall e <- entities ensures
      e.entityType == "text_link" && RuneIndex(text, e.offset).Some? && RuneIndex(text, e.offset + e.length).Some? ==>
        Some(Open(TextLink(e.url))) in seen
    {
      if e.entityType == "text_link" && RuneIndex(text, e.offset).Some? && RuneIndex(text, e.offset + e.length).Some? {
        LinkHasSpan(text, e);
        LinkIsWritten(text, entities, e);
      }
    }
  }

  method RenderEntitiesHTML(text: string, entities: seq<Entity>) returns (html: string)
    ensures html == if text == "" then "" else Written(Tokens(text, Spans(text, entities)))
    ensures text != "" ==> ReadsBack(text, entities, html)
  {
    if text == "" {
      return "";
    }
    RenderingReadsBack(text, entities);
    if |entities| == 0 {
      PlainText(text);
      return EscapeString(text);
    }
    html := RenderTags(text, entities);
  }

  method RenderTags(text: string, entities: seq<Entity>) returns (html: string)
    ensures html == Written(Tokens(text, Spans(text, entities)))
  {
    var collected := CollectTags(text, entities);
    var tags := new Tag[|collected|](i requires 0 <= i < |collected| => collected[i]);
    assert tags[..] == collected;
    SortTags(tags);
    ghost var spans := Spans(text, entities);
    TagListBounds(spans, |text|);
    forall t | t in tags[..] ensures t.pos <= |text| {
      assert t in multiset(tags[..]);
    }
    forall p: nat ensures At(tags[..], p, true) + At(tags[..], p, false) == TagsAt(spans, p) {
      TagListAt(spans, p);
    }
    var builder := Merge(text, tags[..], spans);
    html := Written(builder);
  }

  // ----- Every entity is there -----

  lemma {:induction false} SpanOpens(spans: seq<Span>, s: Span)
    requires s in spans
    ensures Open(s.style) in Opening(spans, s.start) && Close(s.style) in Closing(spans, s.end)
  {
    var n := |spans| - 1;
    assert spans == spans[..n] + [spans[n]];
    if s in spans[..n] {
      SpanOpens(spans[..n], s);
    }
  }

  lemma TagsStay(text: string, spans: seq<Span>, p: nat, n: nat, t: Token)
    requires p < n <= |text| && t in TagsAt(spans, p)
    ensures t in TokensBefore(text, spans, n)
  {
    for i := p + 1 to n
      invariant t in TokensBefore(text, spans, i)
    {
    }
  }

  lemma TagsAreWritten(text: string, spans: seq<Span>, p: nat, t: Token)
    requires p <= |text| && t in TagsAt(spans, p)
    ensures t in Tokens(text, spans)
  {
    if p < |text| {
      TagsStay(text, spans, p, |text|, t);
    }
  }

  lemma {:induction false} SpanIsListed(text: string, entities: seq<Entity>, e: Entity)
    requires e in entities && SpanOf(text, e) != []
    ensures SpanOf(text, e)[0] in Spans(text, entities)
  {
    var n := |entities| - 1;
    assert entities == entities[..n] + [entities[n]];
    if e in entities[..n] {
      SpanIsListed(text, entities[..n], e);
    }
  }

  /** The tags of every usable entity of a known type can be read in the output, a link with its address. */
  lemma EntityIsWritten(text: string, entities: seq<Entity>, e: Entity)
    requires e in entities && SpanOf(text, e) != []
    ensures var tokens, style := Tokens(text, Spans(text, entities)), SpanOf(text, e)[0].style;
      Some(Open(style)) in Seen(tokens) && Some(Erased(Close(style))) in Seen(tokens)
  {
    var spans, s := Spans(text, entities), SpanOf(text, e)[0];
    SpanIsListed(text, entities, e);
    SpanOpens(spans, s);
    TagsAreWritten(text, spans, s.start, Open(s.style));
    TagsAreWritten(text, spans, s.end, Close(s.style));
    var tokens := Tokens(text, spans);
    var i :| 0 <= i < |tokens| && tokens[i] == Open(s.style);
    var j :| 0 <= j < |tokens| && tokens[j] == Close(s.style);
    assert Seen(tokens)[i] == Some(Open(s.style)) && Seen(tokens)[j] == Some(Erased(Close(s.style)));
  }

  // ----- The text survives -----

  function Glyphs(tokens: seq<Token>): string {
    if tokens == [] then ""
    else
      var rest, last := Glyphs(tokens[..|tokens| - 1]), tokens[|tokens| - 1];
      if last.Glyph? then rest + [last.rune] else rest
  }

  lemma {:induction false} GlyphsConcat(a: seq<Token>, b: seq<Token>)
    ensures Glyphs(a + b) == Glyphs(a) + Glyphs(b)
  {
    if b == [] {
      assert a + b == a;
    } else {
      assert (a + b)[..|a + b| - 1] == a + b[..|b| - 1];
      GlyphsConcat(a, b[..|b| - 1]);
    }
  }

  lemma GlyphsAppend(tokens: seq<Token>, token: Token)
    ensures Glyphs(tokens + [token]) == if token.Glyph? then Glyphs(tokens) + [token.rune] else Glyphs(tokens)
  {
    assert (tokens + [token])[..|tokens|] == tokens;
  }

  lemma {:induction false} TagsAreNoGlyphs(spans: seq<Span>, p: nat)
    ensures Glyphs(Closing(spans, p)) == "" && Glyphs(Opening(spans, p)) == ""
  {
    if spans != [] {
      var last := spans[|spans| - 1];
      TagsAreNoGlyphs(spans[..|spans| - 1], p);
      GlyphsAppend(Closing(spans[..|spans| - 1], p), Close(last.style));
      GlyphsAppend(Opening(spans[..|spans| - 1], p), Open(last.style));
    }
  }

  lemma GlyphsOfRune(before: seq<Token>, tags: seq<Token>, c: char)
    requires Glyphs(tags) == ""
    ensures Glyphs(before + tags) == Glyphs(before) && Glyphs(before + tags + [Glyph(c)]) == Glyphs(before) + [c]
  {
    GlyphsConcat(before, tags);
    GlyphsAppend(before + tags, Glyph(c));
  }

  lemma GlyphsOneMore(text: string, spans: seq<Span>, p: nat)
    requires p < |text| && Glyphs(TokensBefore(text, spans, p)) == text[..p]
    ensures Glyphs(TokensBefore(text, spans, p + 1)) == text[..p + 1]
  {
    GlyphsOfTags(spans, p);
    GlyphsOfRune(TokensBefore(text, spans, p), TagsAt(spans, p), text[p]);
    assert text[..p + 1] == text[..p] + [text[p]];
  }

  lemma GlyphsBefore(text: string, spans: seq<Span>, p: nat)
    requires p <= |text|
    ensures Glyphs(TokensBefore(text, spans, p)) == text[..p]
  {
    for i := 0 to p
      invariant Glyphs(TokensBefore(text, spans, i)) == text[..i]
    {
      GlyphsOneMore(text, spans, i);
    }
  }

  lemma GlyphsOfTags(spans: seq<Span>, p: nat)
    ensures Glyphs(TagsAt(spans, p)) == ""
  {
    TagsAreNoGlyphs(spans, p);
    GlyphsConcat(Closing(spans, p), Opening(spans, p));
  }

  /** Dropping everything between angle brackets. */
  function Stripped(html: string, inTag: bool): string {
    if html == "" then ""
    else if inTag then Stripped(html[1..], html[0] != '>')
    else if html[0] == '<' then Stripped(html[1..], true)
    else [html[0]] + Stripped(html[1..], false)
  }

  lemma {:induction false} StrippedPlain(plain: string, rest: string)
    requires forall i :: 0 <= i < |plain| ==> plain[i] != '<'
    ensures Stripped(plain + rest, false) == plain + Stripped(rest, false)
  {
    if plain == "" {
      assert plain + rest == rest;
    } else {
      assert (plain + rest)[1..] == plain[1..] + rest;
      StrippedPlain(plain[1..], rest);
    }
  }

  lemma {:induction false} StrippedInTag(body: string, rest: string)
    requires forall i :: 0 <= i < |body| ==> body[i] != '>'
    ensures Stripped(body + ">" + rest, true) == Stripped(rest, false)
  {
    if body == "" {
      assert body + ">" + rest == ">" + rest;
    } else {
      assert (body + ">" + rest)[1..] == body[1..] + ">" + rest;
      StrippedInTag(body[1..], rest);
    }
  }

  lemma StrippedTag(body: string, rest: string)
    requires forall i :: 0 <= i < |body| ==> body[i] != '>'
    ensures Stripped("<" + body + ">" + rest, false) == Stripped(rest, false)
  {
    assert ("<" + body + ">" + rest)[1..] == body + ">" + rest;
    StrippedInTag(body, rest);
  }

  lemma StrippedToken(token: Token, rest: string)
    ensures Stripped(Text(token) + rest, false) == (if token.Glyph? then EscapeRune(token.rune) else "") + Stripped(rest, false)
  {
    match token
    case Open(style) =>
      if style.TextLink? {
        StrippedTag("a href=\"" + EscapeString(style.url) + "\"", rest);
      } else {
        StrippedTag(TagName(style), rest);
      }
    case Close(style) => StrippedTag("/" + TagName(style), rest);
    case Glyph(c) => StrippedPlain(EscapeRune(c), rest);
  }

  lemma {:induction false} EscapeAppends(text: string, c: char)
    ensures EscapeString(text + [c]) == EscapeString(text) + EscapeRune(c)
  {
    if text == "" {
      assert text + [c] == [c];
      assert [c][1..] == "";
    } else {
      assert (text + [c])[1..] == text[1..] + [c];
      EscapeAppends(text[1..], c);
    }
  }

  lemma EscapedGlyphs(front: seq<Token>, last: Token)
    ensures EscapeString(Glyphs(front + [last])) ==
            EscapeString(Glyphs(front)) + if last.Glyph? then EscapeRune(last.rune) else ""
  {
    GlyphsAppend(front, last);
    if last.Glyph? {
      EscapeAppends(Glyphs(front), last.rune);
    }
  }

  lemma {:induction false} StrippedWritten(tokens: seq<Token>, rest: string)
    ensures Stripped(Written(tokens) + rest, false) == EscapeString(Glyphs(tokens)) + Stripped(rest, false)
    decreases |tokens|
  {
    if tokens == [] {
      assert Written(tokens) + rest == rest;
    } else {
      var front, last := tokens[..|tokens| - 1], tokens[|tokens| - 1];
      var body := if last.Glyph? then EscapeRune(last.rune) else "";
      assert tokens == front + [last];
      calc {
        Stripped(Written(tokens) + rest, false);
        { WrittenAppend(front, last); Associative(Written(front), Text(last), rest); }
        Stripped(Written(front) + (Text(last) + rest), false);
        { StrippedWritten(front, Text(last) + rest); }
        EscapeString(Glyphs(front)) + Stripped(Text(last) + rest, false);
        { StrippedToken(last, rest); }
        EscapeString(Glyphs(front)) + (body + Stripped(rest, false));
        { Associative(EscapeString(Glyphs(front)), body, Stripped(rest, false)); }
        EscapeString(Glyphs(front)) + body + Stripped(rest, false);
        { EscapedGlyphs(front, last); }
        EscapeString(Glyphs(tokens)) + Stripped(rest, false);
      }
    }
  }

  /** Removing the inserted tags leaves the escaped text, and unescaping that leaves the text, whatever the entities. */
  lemma RenderingPreservesText(text: string, entities: seq<Entity>)
    ensures var html := Written(Tokens(text, Spans(text, entities)));
      && Stripped(html, false) == EscapeString(text)
      && Unescape(Stripped(html, false)) == text
  {
    var spans := Spans(text, entities);
    GlyphsOfAll(text, spans);
    StrippedAll(Tokens(text, spans));
    EscapingIsLossless(text);
  }

  lemma GlyphsOfAll(text: string, spans: seq<Span>)
    ensures Glyphs(Tokens(text, spans)) == text
  {
    GlyphsBefore(text, spans, |text|);
    GlyphsOfTags(spans, |text|);
    GlyphsConcat(TokensBefore(text, spans, |text|), TagsAt(spans, |text|));
  }

  lemma StrippedAll(tokens: seq<Token>)
    ensures Stripped(Written(tokens), false) == EscapeString(Glyphs(tokens))
  {
    StrippedWritten(tokens, "");
    assert Written(tokens) + "" == Written(tokens);
    assert EscapeString(Glyphs(tokens)) + "" == EscapeString(Glyphs(tokens));
  }

  lemma OneMoreRuneWritten(text: string, p: nat)
    requires p < |text|
    ensures Written(TokensBefore(text, [], p + 1)) == Written(TokensBefore(text, [], p)) + EscapeRune(text[p])
  {
    assert TokensBefore(text, [], p) + TagsAt([], p) == TokensBefore(text, [], p);
    WrittenAppend(TokensBefore(text, [], p), Glyph(text[p]));
  }

  lemma EscapePrefix(text: string, p: nat)
    requires p < |text|
    ensures EscapeString(text[..p + 1]) == EscapeString(text[..p]) + EscapeRune(text[p])
  {
    assert text[..p + 1] == text[..p] + [text[p]];
    EscapeAppends(text[..p], text[p]);
  }

  lemma PlainZero(text: string)
    ensures Written(TokensBefore(text, [], 0)) == EscapeString(text[..0])
  {
  }

  lemma PlainStep(text: string, p: nat)
    requires p < |text| && Written(TokensBefore(text, [], p)) == EscapeString(text[..p])
    ensures Written(TokensBefore(text, [], p + 1)) == EscapeString(text[..p + 1])
  {
    OneMoreRuneWritten(text, p);
    EscapePrefix(text, p);
  }

  lemma PlainBefore(text: string, p: nat)
    requires p <= |text|
    ensures Written(TokensBefore(text, [], p)) == EscapeString(text[..p])
  {
    PlainZero(text);
    for i := 0 to p
      invariant Written(TokensBefore(text, [], i)) == EscapeString(text[..i])
    {
      PlainStep(text, i);
    }
  }

  /** The shortcut for a message without entities agrees with the general path. */
  lemma PlainText(text: string)
    ensures Written(Tokens(text, Spans(text, []))) == EscapeString(text)
  {
    PlainBefore(text, |text|);
    assert text[..|text|] == text;
    assert Tokens(text, []) == TokensBefore(text, [], |text|);
  }

  // ----- One opening and one closing tag per usable entity -----

  /** How often a token occurs. */
  ghost function Count(tokens: seq<Token>, t: Token): nat {
    if tokens == [] then 0 else Count(tokens[..|tokens| - 1], t) + One(tokens[|tokens| - 1] == t)
  }

  ghost function One(condition: bool): nat {
    if condition then 1 else 0
  }

  lemma SpanAddsTagsAt(spans: seq<Span>, s: Span, p: nat)
    ensures Opening(spans + [s], p) == Opening(spans, p) + if s.start == p then [Open(s.style)] else []
    ensures Closing(spans + [s], p) == Closing(spans, p) + if s.end == p then [Close(s.style)] else []
  {
    assert (spans + [s])[..|spans|] == spans;
  }

  lemma SpanAddsCountAt(spans: seq<Span>, s: Span, p: nat, t: Token)
    ensures Count(TagsAt(spans + [s], p), t) ==
            Count(TagsAt(spans, p), t) + One(s.start == p && t == Open(s.style)) + One(s.end == p && t == Close(s.style))
  {
    SpanAddsTagsAt(spans, s, p);
    CountConcat(Closing(spans, p), Opening(spans, p), t);
    CountConcat(Closing(spans + [s], p), Opening(spans + [s], p), t);
    CountConcat(Closing(spans, p), [Close(s.style)], t);
    CountConcat(Opening(spans, p), [Open(s.style)], t);
  }

  lemma {:induction false} CountConcat(a: seq<Token>, b: seq<Token>, t: Token)
    ensures Count(a + b, t) == Count(a, t) + Count(b, t)
  {
    if b == [] {
      assert a + b == a;
    } else {
      assert (a + b)[..|a + b| - 1] == a + b[..|b| - 1];
      CountConcat(a, b[..|b| - 1], t);
    }
  }

  /** How many more tokens t there are before rune p with the span s. */
  ghost predicate SpanAdds(text: string, spans: seq<Span>, s: Span, p: nat, t: Token)
    requires p <= |text|
  {
    Count(TokensBefore(text, spans + [s], p), t) ==
    Count(TokensBefore(text, spans, p), t) + One(s.start < p && t == Open(s.style)) + One(s.end < p && t == Close(s.style))
  }

  lemma SpanAddsOneMore(text: string, spans: seq<Span>, s: Span, p: nat, t: Token)
    requires p < |text| && SpanAdds(text, spans, s, p, t)
    ensures SpanAdds(text, spans, s, p + 1, t)
  {
    SpanAddsCountAt(spans, s, p, t);
    OneMoreRuneCounted(text, spans, p + 1, t);
    OneMoreRuneCounted(text, spans + [s], p + 1, t);
  }

  lemma SpanAddsCountBefore(text: string, spans: seq<Span>, s: Span, p: nat, t: Token)
    requires p <= |text|
    ensures SpanAdds(text, spans, s, p, t)
  {
    for i := 0 to p
      invariant SpanAdds(text, spans, s, i, t)
    {
      SpanAddsOneMore(text, spans, s, i, t);
    }
  }

  lemma OneMoreRuneCounted(text: string, spans: seq<Span>, p: nat, t: Token)
    requires 0 < p <= |text|
    ensures Count(TokensBefore(text, spans, p), t) ==
            Count(TokensBefore(text, spans, p - 1), t) + Count(TagsAt(spans, p - 1), t) + Count([Glyph(text[p - 1])], t)
  {
    CountConcat(TokensBefore(text, spans, p - 1), TagsAt(spans, p - 1), t);
    CountConcat(TokensBefore(text, spans, p - 1) + TagsAt(spans, p - 1), [Glyph(text[p - 1])], t);
  }

  lemma SpanAddsCount(text: string, spans: seq<Span>, s: Span, t: Token)
    requires s.start <= |text| && s.end <= |text|
    ensures Count(Tokens(text, spans + [s]), t) ==
            Count(Tokens(text, spans), t) + One(t == Open(s.style)) + One(t == Close(s.style))
  {
    SpanAddsCountBefore(text, spans, s, |text|, t);
    SpanAddsCountAt(spans, s, |text|, t);
    CountConcat(TokensBefore(text, spans, |text|), TagsAt(spans, |text|), t);
    CountConcat(TokensBefore(text, spans + [s], |text|), TagsAt(spans + [s], |text|), t);
  }

  /**
   An entity of a known type with both offsets usable adds exactly one opening and one closing tag, at the runes
   of its offsets; any other entity adds nothing.
  */
  lemma EntityAddsItsTags(text: string, entities: seq<Entity>, e: Entity)
    ensures var start, end := RuneIndex(text, e.offset), RuneIndex(text, e.offset + e.length);
            var style := StyleOf(e);
            var before, after := Spans(text, entities), Spans(text, entities + [e]);
      if start.Some? && end.Some? && style.Some? then
        && (forall t :: Count(Tokens(text, after), t) ==
              Count(Tokens(text, before), t) + One(t == Open(style.value)) + One(t == Close(style.value)))
        && Opening(after, start.value) == Opening(before, start.value) + [Open(style.value)]
        && Closing(after, end.value) == Closing(before, end.value) + [Close(style.value)]
      else Tokens(text, after) == Tokens(text, before)
  {
    OneMoreEntity(text, entities + [e], |entities|);
    assert (entities + [e])[..|entities|] == entities && (entities + [e])[..|entities| + 1] == entities + [e];
    var spans := Spans(text, entities);
    if SpanOf(text, e) == [] {
      assert Spans(text, entities + [e]) == spans;
    } else {
      var s := SpanOf(text, e)[0];
      forall t ensures Count(Tokens(text, spans + [s]), t) ==
                       Count(Tokens(text, spans), t) + One(t == Open(s.style)) + One(t == Close(s.style)) {
        SpanAddsCount(text, spans, s, t);
      }
      SpanAddsTagsAt(spans, s, s.start);
      SpanAddsTagsAt(spans, s, s.end);
    }
  }
}
