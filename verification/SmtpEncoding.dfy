/**
 * How a message's subject and bodies are written (packages/db/src/mail/smtp.ts),
 * with the readers of RFC 2045 and RFC 2047 they are written for.
 */
module SmtpEncoding {
  import opened Wrappers
  import opened Strings
  import opened Sequences
  import Base64
  import Utf8

  /** The most bytes of text one encoded word carries. */
  const WORD_BYTES := 45

  /** The most characters section 2 of RFC 2047 allows an encoded word. */
  const WORD_LIMIT := 75

  /** The most characters it allows a header line that holds one. */
  const HEADER_LINE_LIMIT := 76

  /** The most characters section 6.8 of RFC 2045 allows a line of base64. */
  const BODY_LINE_LIMIT := 76

  // ---- Writing a header value ----

  predicate Plain(value: string) {
    forall i :: 0 <= i < |value| ==> ' ' <= value[i] <= '~'
  }

  function ByteLength(text: string): nat {
    |Utf8.EncodeText(text)|
  }

  /** The words gathered from `value`, with `chunk` already gathered. */
  function Words(chunk: string, value: string): seq<string>
    decreases |value|
  {
    if value == "" then (if chunk == "" then [] else [chunk])
    else if ByteLength(chunk + [value[0]]) > WORD_BYTES then [chunk] + Words([value[0]], value[1..])
    else Words(chunk + [value[0]], value[1..])
  }

  function EncodedWord(word: string): string {
    "=?UTF-8?B?" + Encoded(word) + "?="
  }

  /** Text as base64 over its UTF-8 bytes. */
  function Encoded(text: string): string {
    Base64.Encode(Utf8.EncodeText(text))
  }

  /** The words one per line, each line after the first indented. */
  function Folded(words: seq<string>): string {
    if |words| == 0 then ""
    else if |words| == 1 then EncodedWord(words[0])
    else EncodedWord(words[0]) + "\r\n " + Folded(words[1..])
  }

  function HeaderText(value: string): string {
    if Plain(value) then value else Folded(Words("", value))
  }

  method EncodeHeader(value: string) returns (text: string)
    ensures text == HeaderText(value)
  {
    if forall i :: 0 <= i < |value| ==> ' ' <= value[i] <= '~' {
      return value;
    }
    var words: seq<string> := [];
    var chunk := "";
    var i := 0;
    assert [] + Words("", value) == Words("", value);
    while i < |value|
      invariant 0 <= i <= |value|
      invariant words + Words(chunk, value[i..]) == Words("", value)
    {
      var character := value[i];
      WordsStep(words, chunk, value[i..]);
      assert value[i..][1..] == value[i + 1..];
      if |Utf8.EncodeText(chunk + [character])| > WORD_BYTES {
        words := words + [chunk];
        chunk := "";
      }
      chunk := chunk + [character];
      i := i + 1;
    }
    assert value[i..] == "" && words + [] == words;
    if chunk != "" {
      words := words + [chunk];
    }
    text := Folded(words);
  }

  lemma WordsStep(words: seq<string>, chunk: string, value: string)
    requires value != ""
    ensures words + Words(chunk, value)
         == if ByteLength(chunk + [value[0]]) > WORD_BYTES then words + [chunk] + Words("" + [value[0]], value[1..])
            else words + Words(chunk + [value[0]], value[1..])
  {
    assert "" + [value[0]] == [value[0]];
  }

  // ---- The words ----

  lemma ByteLengthGrows(text: string, c: char)
    ensures ByteLength(text) < ByteLength(text + [c]) <= ByteLength(text) + 4
    ensures ByteLength("") == 0
  {
    Utf8.EncodeAppend(text, [c]);
    Utf8.EncodeOne(c);
  }

  /** A word is no longer than allowed, not empty, and cut only where the next character does not fit. */
  predicate Greedy(words: seq<string>) {
    && (forall w :: w in words ==> w != "" && ByteLength(w) <= WORD_BYTES)
    && (forall i :: 0 <= i < |words| - 1 && words[i + 1] != "" ==>
          ByteLength(words[i] + [words[i + 1][0]]) > WORD_BYTES)
  }

  /** Cutting loses nothing, splits no character, and cuts as late as it can. */
  lemma {:induction false} WordsCut(chunk: string, value: string)
    requires ByteLength(chunk) <= WORD_BYTES
    ensures Joined(Words(chunk, value)) == chunk + value
    ensures Greedy(Words(chunk, value))
    ensures chunk != "" ==> Words(chunk, value) != [] && chunk <= Words(chunk, value)[0]
    decreases |value|
  {
    hide ByteLength;
    if value == "" {
      assert Joined([chunk]) == chunk + "" by {
        assert [chunk][1..] == [];
      }
      assert chunk + value == chunk;
    } else {
      var c := value[0];
      ByteLengthGrows(chunk, c);
      ByteLengthGrows("", c);
      assert "" + [c] == [c];
      assert [c] + value[1..] == value;
      if ByteLength(chunk + [c]) > WORD_BYTES {
        assert chunk != "";
        var rest := Words([c], value[1..]);
        WordsCut([c], value[1..]);
        GreedyFirst(chunk, rest);
        assert ([chunk] + rest)[1..] == rest;
      } else {
        WordsCut(chunk + [c], value[1..]);
        assert chunk + [c] + value[1..] == chunk + value;
      }
    }
  }

  lemma GreedyFirst(word: string, rest: seq<string>)
    requires Greedy(rest) && rest != [] && rest[0] != ""
    requires word != "" && ByteLength(word) <= WORD_BYTES
    requires ByteLength(word + [rest[0][0]]) > WORD_BYTES
    ensures Greedy([word] + rest)
  {
    hide ByteLength;
    var all := [word] + rest;
    forall i | 0 <= i < |all| - 1 && all[i + 1] != ""
      ensures ByteLength(all[i] + [all[i + 1][0]]) > WORD_BYTES
    {
      if i > 0 {
        assert all[i] == rest[i - 1] && all[i + 1] == rest[i];
      }
    }
  }

  /** Four characters for every three bytes begun, and twelve around them. */
  lemma EncodedWordLength(word: string)
    ensures |EncodedWord(word)| == (ByteLength(word) + 2) / 3 * 4 + 12
  {
    Base64.EncodeLength(Utf8.EncodeText(word));
  }

  /** The text a non-plain value is cut into fits the limit, word by word, and is all of the value. */
  lemma HeaderWordsFit(value: string)
    requires !Plain(value)
    ensures var words := Words("", value);
            && words != [] && Joined(words) == value && Greedy(words)
            && (forall w :: w in words ==> |EncodedWord(w)| <= WORD_LIMIT)
  {
    ByteLengthGrows("", 'a');
    WordsCut("", value);
    assert "" + value == value;
    forall w | w in Words("", value)
      ensures |EncodedWord(w)| <= WORD_LIMIT
    {
      EncodedWordLength(w);
    }
  }

  /** The line a subject starts on keeps within the line limit exactly when the value has at most 39 bytes. */
  lemma SubjectLineFitsIff(value: string)
    requires !Plain(value)
    ensures var words := Words("", value);
            && words != []
            && (|"Subject: " + EncodedWord(words[0])| <= HEADER_LINE_LIMIT <==> ByteLength(value) <= 39)
  {
    hide Words, EncodedWord, Plain;
    HeaderWordsFit(value);
    var words := Words("", value);
    EncodedWordLength(words[0]);
    Utf8.EncodeAppend(words[0], Joined(words[1..]));
    if |words| > 1 {
      assert words[1] in words;
      ByteLengthGrows(words[0], words[1][0]);
    }
  }

  // ---- Reading a header value ----

  /** Section 2.2.3 of RFC 5322: a line break before a space is no part of the value. */
  function Unfolded(s: string): string
    decreases |s|
  {
    if s == "" then ""
    else if |s| >= 3 && s[0] == '\r' && s[1] == '\n' && s[2] == ' ' then " " + Unfolded(s[3..])
    else [s[0]] + Unfolded(s[1..])
  }

  function Tokens(s: string): (tokens: seq<string>)
    ensures |tokens| > 0
    decreases |s|
  {
    if s == "" then [""]
    else if s[0] == ' ' then [""] + Tokens(s[1..])
    else
      var rest := Tokens(s[1..]);
      [[s[0]] + rest[0]] + rest[1..]
  }

  function HexDigit(c: char): Option<nat> {
    if '0' <= c <= '9' then Some(c as int - '0' as int)
    else if 'A' <= c <= 'F' then Some(c as int - 'A' as int + 10)
    else if 'a' <= c <= 'f' then Some(c as int - 'a' as int + 10)
    else None
  }

  /** Section 4.2 of RFC 2047: the `Q` encoding. */
  function QuotedBytes(s: string): Option<seq<Base64.Byte>>
    decreases |s|
  {
    if s == "" then Some([])
    else if s[0] == '=' then
      if |s| < 3 || HexDigit(s[1]).None? || HexDigit(s[2]).None? then None
      else
        match QuotedBytes(s[3..])
        case None => None
        case Some(rest) => Some([HexByte(s[1], s[2])] + rest)
    else if '!' <= s[0] <= '~' && s[0] != '?' then
      match QuotedBytes(s[1..])
      case None => None
      case Some(rest) => Some([if s[0] == '_' then 0x20 else s[0] as int] + rest)
    else None
  }

  function HexByte(high: char, low: char): Base64.Byte
    requires HexDigit(high).Some? && HexDigit(low).Some?
  {
    HexDigit(high).value * 16 + HexDigit(low).value
  }

  /** What the encoded text of a UTF-8 word stands for. The names of charset and encoding are in either case. */
  function WordBytes(token: string): Option<seq<Base64.Byte>>
    requires |token| >= 12
  {
    var code := token[10..|token| - 2];
    match Lower(token[..10])
    case "=?utf-8?b?" => Base64.Decode(code)
    case "=?utf-8?q?" => QuotedBytes(code)
    case _ => None
  }

  /** The text of a UTF-8 encoded word (section 2 of RFC 2047); none if the token is not one. */
  function WordText(token: string): Option<string> {
    if |token| < 12 || token[|token| - 2..] != "?=" || WordBytes(token).None? then None
    else Utf8.DecodeText(WordBytes(token).value)
  }

  function Shown(token: string): string {
    match WordText(token)
    case None => token
    case Some(text) => text
  }

  /** Section 6.2 of RFC 2047: the space between two encoded words is not shown. */
  function Show(tokens: seq<string>): string
    requires |tokens| > 0
  {
    if |tokens| == 1 then Shown(tokens[0])
    else
      Shown(tokens[0])
      + (if WordText(tokens[0]).Some? && WordText(tokens[1]).Some? then "" else " ")
      + Show(tokens[1..])
  }

  function Displayed(header: string): string {
    Show(Tokens(Unfolded(header)))
  }

  // ---- A reader sees the value again ----

  predicate Lacks(s: string, c: char) {
    forall i :: 0 <= i < |s| ==> s[i] != c
  }

  lemma EncodedWordParts(word: string)
    ensures var token := EncodedWord(word);
            && |token| >= 12 && token[..10] == "=?UTF-8?B?" && token[|token| - 2..] == "?="
            && token[10..|token| - 2] == Encoded(word)
  {
    hide Encoded;
  }

  lemma EncodedWordReads(word: string)
    ensures WordText(EncodedWord(word)) == Some(word)
  {
    hide EncodedWord;
    EncodedWordParts(word);
    assert Lower("=?UTF-8?B?") == "=?utf-8?b?";
    Base64.DecodeEncode(Utf8.EncodeText(word));
    Utf8.DecodeEncode(word);
  }

  lemma EncodedWordLacks(word: string)
    ensures Lacks(EncodedWord(word), ' ') && Lacks(EncodedWord(word), '\r')
  {
    Base64.EncodeAlphabet(Utf8.EncodeText(word));
    LacksOutside(Encoded(word));
    LacksJoined("=?UTF-8?B?", Encoded(word));
    LacksJoined("=?UTF-8?B?" + Encoded(word), "?=");
  }

  lemma LacksOutside(code: string)
    requires forall i :: 0 <= i < |code| ==> Base64.InAlphabet(code[i])
    ensures Lacks(code, ' ') && Lacks(code, '\r')
  {
    assert !Base64.InAlphabet(' ') && !Base64.InAlphabet('\r');
  }

  lemma LacksJoined(a: string, b: string)
    ensures forall c :: Lacks(a, c) && Lacks(b, c) ==> Lacks(a + b, c)
  {
  }

  lemma {:induction false} UnfoldedPast(word: string, rest: string)
    requires Lacks(word, '\r')
    ensures Unfolded(word + rest) == word + Unfolded(rest)
    decreases |word|
  {
    if word == "" {
      assert word + rest == rest;
    } else {
      assert (word + rest)[0] == word[0] && (word + rest)[1..] == word[1..] + rest;
      UnfoldedPast(word[1..], rest);
    }
  }

  lemma {:induction false} TokensPast(word: string, rest: string)
    requires Lacks(word, ' ')
    ensures Tokens(word) == [word]
    ensures Tokens(word + " " + rest) == [word] + Tokens(rest)
    decreases |word|
  {
    var s := word + " " + rest;
    if word == "" {
      assert s[1..] == rest;
    } else {
      assert s[0] == word[0] && s[1..] == word[1..] + " " + rest;
      TokensPast(word[1..], rest);
      assert [word[0]] + word[1..] == word;
    }
  }

  function EncodedWords(words: seq<string>): seq<string> {
    seq(|words|, i requires 0 <= i < |words| => EncodedWord(words[i]))
  }

  lemma UnfoldedBreak(word: string, rest: string)
    requires Lacks(word, '\r')
    ensures Unfolded(word + "\r\n " + rest) == word + " " + Unfolded(rest)
  {
    UnfoldedPast(word, "\r\n " + rest);
    assert ("\r\n " + rest)[3..] == rest;
    assert word + ("\r\n " + rest) == word + "\r\n " + rest;
    assert word + (" " + Unfolded(rest)) == word + " " + Unfolded(rest);
  }

  lemma {:induction false} FoldedReads(words: seq<string>)
    requires |words| > 0
    ensures Tokens(Unfolded(Folded(words))) == EncodedWords(words)
    decreases |words|
  {
    hide EncodedWord;
    var word := EncodedWord(words[0]);
    EncodedWordLacks(words[0]);
    if |words| == 1 {
      PlainUnfolds(word);
      TokensPast(word, "");
    } else {
      hide Unfolded, Tokens, Lacks;
      FoldedReads(words[1..]);
      UnfoldedBreak(word, Folded(words[1..]));
      TokensPast(word, Unfolded(Folded(words[1..])));
      assert EncodedWords(words) == [word] + EncodedWords(words[1..]);
    }
  }

  lemma {:induction false} ShowWords(words: seq<string>)
    requires |words| > 0
    ensures Show(EncodedWords(words)) == Joined(words)
    decreases |words|
  {
    hide EncodedWord, WordText;
    EncodedWordReads(words[0]);
    if |words| > 1 {
      EncodedWordReads(words[1]);
      ShowWords(words[1..]);
      assert EncodedWords(words)[1..] == EncodedWords(words[1..]);
    }
  }

  /** A value with other than printable ASCII is read back whole. */
  lemma EncodedHeaderReads(value: string)
    ensures !Plain(value) ==> Displayed(HeaderText(value)) == value
  {
    if !Plain(value) {
      hide Plain, Words, Show, Tokens, Unfolded, Folded;
      HeaderWordsFit(value);
      FoldedReads(Words("", value));
      ShowWords(Words("", value));
    }
  }

  // ---- Plain values are sent as they are ----

  function Spaced(tokens: seq<string>): string
    requires |tokens| > 0
  {
    if |tokens| == 1 then tokens[0] else tokens[0] + " " + Spaced(tokens[1..])
  }

  lemma SpacedStep(first: string, others: seq<string>)
    ensures Spaced([first] + others) == if others == [] then first else first + " " + Spaced(others)
  {
    assert ([first] + others)[1..] == others;
  }

  /** A character put before the first token is put before them all. */
  lemma SpacedFirst(c: char, tokens: seq<string>)
    requires |tokens| > 0
    ensures Spaced([[c] + tokens[0]] + tokens[1..]) == [c] + Spaced(tokens)
  {
    hide Spaced;
    var first, others := tokens[0], tokens[1..];
    assert tokens == [first] + others;
    SpacedStep(first, others);
    SpacedStep([c] + first, others);
    if others != [] {
      Associative([c], first, " ");
      Associative([c], first + " ", Spaced(others));
    }
  }

  lemma {:induction false} TokensSpaced(s: string)
    ensures Spaced(Tokens(s)) == s
    decreases |s|
  {
    if s != "" {
      hide Spaced;
      var rest := Tokens(s[1..]);
      TokensSpaced(s[1..]);
      assert [s[0]] + s[1..] == s;
      if s[0] == ' ' {
        SpacedStep("", rest);
      } else {
        SpacedFirst(s[0], rest);
      }
    }
  }

  // ---- A header line holds nothing but printable ASCII ----

  lemma EncodedWordPlain(word: string)
    ensures Plain(EncodedWord(word))
  {
    var code := Encoded(word);
    Base64.EncodeAlphabet(Utf8.EncodeText(word));
    forall i | 0 <= i < |code|
      ensures ' ' <= code[i] <= '~'
    {
      assert Base64.InAlphabet(code[i]);
    }
    PlainJoins("=?UTF-8?B?", code);
    PlainJoins("=?UTF-8?B?" + code, "?=");
  }

  lemma PlainJoins(a: string, b: string)
    requires Plain(a) && Plain(b)
    ensures Plain(a + b)
  {
  }

  lemma {:induction false} SpacedPlain(words: seq<string>)
    requires |words| > 0
    ensures Plain(Spaced(EncodedWords(words)))
    decreases |words|
  {
    hide EncodedWord, Plain;
    EncodedWordPlain(words[0]);
    if |words| > 1 {
      var rest := words[1..];
      SpacedPlain(rest);
      assert EncodedWords(words) == [EncodedWord(words[0])] + EncodedWords(rest);
      SpacedStep(EncodedWord(words[0]), EncodedWords(rest));
      PlainSpace();
      PlainJoins(EncodedWord(words[0]), " ");
      PlainJoins(EncodedWord(words[0]) + " ", Spaced(EncodedWords(rest)));
    } else {
      assert EncodedWords(words) == [EncodedWord(words[0])] + [];
      SpacedStep(EncodedWord(words[0]), []);
    }
  }

  lemma PlainSpace()
    ensures Plain(" ")
  {
  }

  /** Whatever the value holds, line breaks included, the header written for it holds only printable ASCII, but for
      its own folds. */
  lemma HeaderIsPlain(value: string)
    ensures var header := Unfolded(HeaderText(value));
            forall i :: 0 <= i < |header| ==> ' ' <= header[i] <= '~'
  {
    hide Words, Folded, Unfolded, Tokens, Spaced;
    if Plain(value) {
      PlainUnfolds(value);
    } else {
      HeaderWordsFit(value);
      var words := Words("", value);
      FoldedReads(words);
      TokensSpaced(Unfolded(Folded(words)));
      SpacedPlain(words);
    }
  }

  lemma {:induction false} DecodedShorter(s: string)
    ensures Base64.Decode(s).Some? ==> |Base64.Decode(s).value| <= |s|
    decreases |s|
  {
    if |s| >= 4 {
      DecodedShorter(s[4..]);
    }
  }

  lemma {:induction false} QuotedShorter(s: string)
    ensures QuotedBytes(s).Some? ==> |QuotedBytes(s).value| <= |s|
    decreases |s|
  {
    if s != "" {
      QuotedShorter(s[1..]);
      if |s| >= 3 {
        QuotedShorter(s[3..]);
      }
    }
  }

  lemma {:induction false} TextShorter(bytes: seq<Base64.Byte>)
    ensures Utf8.DecodeText(bytes).Some? ==> |Utf8.DecodeText(bytes).value| <= |bytes|
    decreases |bytes|
  {
    if bytes != [] && Utf8.DecodeText(bytes).Some? {
      TextShorter(bytes[Utf8.Width(bytes[0]).value..]);
    }
  }

  lemma ShownShorter(token: string)
    ensures WordText(token).Some? ==> |Shown(token)| < |token|
    ensures WordText(token).None? ==> Shown(token) == token
  {
    if WordText(token).Some? {
      var code := token[10..|token| - 2];
      DecodedShorter(code);
      QuotedShorter(code);
      TextShorter(WordBytes(token).value);
    }
  }

  /** Tokens that are no encoded words are shown as they are; one that is shortens what is shown. */
  lemma {:induction false} ShowSpaced(tokens: seq<string>)
    requires |tokens| > 0
    ensures |Show(tokens)| <= |Spaced(tokens)|
    ensures (forall t :: t in tokens ==> WordText(t).None?) ==> Show(tokens) == Spaced(tokens)
    ensures (exists t :: t in tokens && WordText(t).Some?) ==> |Show(tokens)| < |Spaced(tokens)|
    decreases |tokens|
  {
    hide WordText, Shown;
    ShownShorter(tokens[0]);
    if |tokens| > 1 {
      ShowSpaced(tokens[1..]);
      assert tokens == [tokens[0]] + tokens[1..];
    }
  }

  lemma {:induction false} PlainUnfolds(value: string)
    requires Lacks(value, '\r')
    ensures Unfolded(value) == value
    decreases |value|
  {
    UnfoldedPast(value, "");
    assert value + "" == value;
  }

  /** A plain value is read back as itself exactly when none of its tokens is an encoded word. */
  lemma PlainHeaderReadsIff(value: string)
    requires Plain(value)
    ensures Displayed(HeaderText(value)) == value
       <==> forall t :: t in Tokens(value) ==> WordText(t).None?
  {
    hide Show, Spaced, Tokens, WordText;
    PlainUnfolds(value);
    TokensSpaced(value);
    ShowSpaced(Tokens(value));
  }

  // ---- A body ----

  /** The encoding in lines of at most 76; an empty body keeps one empty line. */
  function BodyLines(encoded: string): (lines: seq<string>)
    ensures |lines| > 0
    decreases |encoded|
  {
    if |encoded| <= BODY_LINE_LIMIT then [encoded]
    else [encoded[..BODY_LINE_LIMIT]] + BodyLines(encoded[BODY_LINE_LIMIT..])
  }

  function BodyPart(mediaType: string, body: string): seq<string> {
    ["Content-Type: " + mediaType + "; charset=utf-8", "Content-Transfer-Encoding: base64", ""]
        + BodyLines(Encoded(body))
  }

  lemma {:induction false} BodyLinesJoin(encoded: string)
    ensures Joined(BodyLines(encoded)) == encoded
    ensures forall l :: l in BodyLines(encoded) ==> |l| <= BODY_LINE_LIMIT
    ensures forall l :: l in BodyLines(encoded) && encoded != "" ==> l != ""
    ensures forall l, i :: l in BodyLines(encoded) && 0 <= i < |l| ==> l[i] in encoded
    decreases |encoded|
  {
    if |encoded| <= BODY_LINE_LIMIT {
      assert [encoded][1..] == [] && encoded + "" == encoded;
    } else {
      var first, rest := encoded[..BODY_LINE_LIMIT], encoded[BODY_LINE_LIMIT..];
      BodyLinesJoin(rest);
      assert ([first] + BodyLines(rest))[1..] == BodyLines(rest);
      assert first + rest == encoded;
    }
  }

  /** The content of a part: what its lines after the first empty one spell. */
  function PartText(lines: seq<string>): Option<string> {
    if |lines| == 0 then None
    else if lines[0] != "" then PartText(lines[1..])
    else
      match Base64.Decode(Joined(lines[1..]))
      case None => None
      case Some(bytes) => Utf8.DecodeText(bytes)
  }

  /** A part is read back as the body it was made of. */
  lemma BodyPartReads(mediaType: string, body: string)
    ensures PartText(BodyPart(mediaType, body)) == Some(body)
  {
    var lines := BodyPart(mediaType, body);
    var encoded := BodyLines(Encoded(body));
    assert lines[1..][1..] == [""] + encoded && lines[1..][0] == lines[1];
    assert ([""] + encoded)[1..] == encoded;
    BodyLinesJoin(Encoded(body));
    Base64.DecodeEncode(Utf8.EncodeText(body));
    Utf8.DecodeEncode(body);
    assert PartText([""] + encoded) == Some(body);
    assert PartText(lines[1..]) == PartText(lines[1..][1..]);
  }

  // ---- Text and HTML in one message ----

  /** The lines of a message that has both, after its headers. */
  function Alternative(boundary: string, text: string, html: string): seq<string> {
    ["", "--" + boundary] + BodyPart("text/plain", text)
    + ["--" + boundary] + BodyPart("text/html", html) + ["--" + boundary + "--"]
  }

  /** The lines between one delimiter and the next, or the closing one (section 5.1.1 of RFC 2046). */
  function Parts(lines: seq<string>, boundary: string): seq<seq<string>> {
    if |lines| == 0 then [[]]
    else if lines[0] == "--" + boundary + "--" then [[]]
    else if lines[0] == "--" + boundary then [[]] + Parts(lines[1..], boundary)
    else
      var rest := Parts(lines[1..], boundary);
      if |rest| == 0 then [] else [[lines[0]] + rest[0]] + rest[1..]
  }

  predicate Dashed(line: string) {
    |line| >= 2 && line[0] == '-' && line[1] == '-'
  }

  lemma BodyPartUndashed(mediaType: string, body: string)
    ensures forall l :: l in BodyPart(mediaType, body) ==> !Dashed(l)
  {
    BodyLinesJoin(Encoded(body));
    Base64.EncodeAlphabet(Utf8.EncodeText(body));
    assert !Base64.InAlphabet('-');
    forall l | l in BodyLines(Encoded(body))
      ensures !Dashed(l)
    {
      assert |l| > 0 ==> l[0] in Encoded(body);
    }
  }

  lemma {:induction false} PartsPast(lines: seq<string>, rest: seq<string>, boundary: string)
    requires forall l :: l in lines ==> !Dashed(l)
    requires |Parts(rest, boundary)| > 0
    ensures var after := Parts(rest, boundary);
            Parts(lines + rest, boundary) == [lines + after[0]] + after[1..]
    decreases |lines|
  {
    var after := Parts(rest, boundary);
    if |lines| == 0 {
      assert lines + rest == rest && lines + after[0] == after[0];
      assert [after[0]] + after[1..] == after;
    } else {
      PartsPast(lines[1..], rest, boundary);
      assert (lines + rest)[1..] == lines[1..] + rest && (lines + rest)[0] == lines[0];
      assert Dashed("--" + boundary) && Dashed("--" + boundary + "--");
      assert lines[0] in lines;
      assert [lines[0]] + (lines[1..] + after[0]) == lines + after[0];
    }
  }

  /** A part that begins here. */
  lemma PartBegins(lines: seq<string>, rest: seq<string>, boundary: string)
    requires (forall l :: l in lines ==> !Dashed(l)) && |Parts(rest, boundary)| > 0
    ensures var after := Parts(rest, boundary);
            Parts(["--" + boundary] + (lines + rest), boundary) == [[], lines + after[0]] + after[1..]
  {
    var delimiter, closing := "--" + boundary, "--" + boundary + "--";
    PartsPast(lines, rest, boundary);
    assert |closing| > |delimiter|;
    assert ([delimiter] + (lines + rest))[1..] == lines + rest;
  }

  /** Whatever the bodies hold, the delimiters stand only between them, and both are read back. */
  lemma AlternativeReads(boundary: string, text: string, html: string)
    ensures var parts := Parts(Alternative(boundary, text, html), boundary);
            |parts| == 3 && PartText(parts[1]) == Some(text) && PartText(parts[2]) == Some(html)
  {
    hide BodyPart, PartText;
    var delimiter, closing := "--" + boundary, "--" + boundary + "--";
    var plain, rich := BodyPart("text/plain", text), BodyPart("text/html", html);
    BodyPartUndashed("text/plain", text);
    BodyPartUndashed("text/html", html);
    assert Parts([closing], boundary) == [[]];
    PartBegins(rich, [closing], boundary);
    assert rich + [] == rich;
    var second := [delimiter] + (rich + [closing]);
    PartBegins(plain, second, boundary);
    assert plain + [] == plain;
    var first := [delimiter] + (plain + second);
    assert Parts(first, boundary) == [[], plain, rich];
    PartsPast([""], first, boundary);
    assert Alternative(boundary, text, html) == [""] + first;
    BodyPartReads("text/plain", text);
    BodyPartReads("text/html", html);
  }
}
