/**
 The `Content-Disposition` of a download, against a reader of it: the header grammar of section 4.1
 of RFC 6266, extended values as in section 3.2 of RFC 8187, and UTF-8.
 */
module Disposition {
  import opened Common
  import opened Streaming

  // ---------- UTF-8 ----------

  function Utf8Char(c: char): seq<byte> {
    var n := c as int;
    if n < 0x80 then [n as byte]
    else if n < 0x800 then [(0xc0 + n / 64) as byte, (0x80 + n % 64) as byte]
    else if n < 0x10000 then [(0xe0 + n / 4096) as byte, (0x80 + n / 64 % 64) as byte, (0x80 + n % 64) as byte]
    else [(0xf0 + n / 262144) as byte, (0x80 + n / 4096 % 64) as byte,
          (0x80 + n / 64 % 64) as byte, (0x80 + n % 64) as byte]
  }

  function Utf8(text: string): seq<byte> {
    if text == "" then [] else Utf8Char(text[0]) + Utf8(text[1..])
  }

  function Width(lead: byte): nat {
    if lead < 0x80 then 1 else if lead < 0xe0 then 2 else if lead < 0xf0 then 3 else 4
  }

  /** The low six bits of a continuation byte. */
  function Low(b: byte): int {
    b as int - 0x80
  }

  function CodePoint(bytes: seq<byte>): int
    requires bytes != [] && |bytes| >= Width(bytes[0])
  {
    match Width(bytes[0])
    case 1 => bytes[0] as int
    case 2 => (bytes[0] as int - 0xc0) * 64 + Low(bytes[1])
    case 3 => (bytes[0] as int - 0xe0) * 4096 + Low(bytes[1]) * 64 + Low(bytes[2])
    case _ => (bytes[0] as int - 0xf0) * 262144 + Low(bytes[1]) * 4096 + Low(bytes[2]) * 64 + Low(bytes[3])
  }

  /** A UTF-8 decoder; the code points it reads. */
  function CodePoints(bytes: seq<byte>): Option<seq<int>>
    decreases |bytes|
  {
    if bytes == [] then Some([])
    else if |bytes| < Width(bytes[0]) then None
    else
      var rest := CodePoints(bytes[Width(bytes[0])..]);
      if rest.None? then None else Some([CodePoint(bytes)] + rest.value)
  }

  lemma CharComesBack(c: char, rest: seq<byte>)
    ensures var bytes := Utf8Char(c) + rest;
            Width(bytes[0]) == |Utf8Char(c)| && CodePoint(bytes) == c as int
  {
    var n := c as int;
    assert n / 4096 == n / 64 / 64 && n / 262144 == n / 64 / 64 / 64;
  }

  function Codes(text: string): seq<int> {
    if text == "" then [] else [text[0] as int] + Codes(text[1..])
  }

  lemma {:induction false} TextComesBack(text: string)
    ensures CodePoints(Utf8(text)) == Some(Codes(text))
  {
    if text != "" {
      CharComesBack(text[0], Utf8(text[1..]));
      assert Utf8(text)[|Utf8Char(text[0])|..] == Utf8(text[1..]);
      TextComesBack(text[1..]);
    }
  }

  // ---------- The header ----------

  predicate Graphic(c: char) {
    '!' <= c <= '~'
  }

  function Quoted(filename: string): (quoted: string)
    ensures |quoted| == |filename|
  {
    seq(|filename|, i requires 0 <= i < |filename| =>
      if filename[i] == '"' || filename[i] == '\\' then '_'
      else if Graphic(filename[i]) || filename[i] == ' ' then filename[i]
      else '_')
  }

  predicate Unreserved(b: byte) {
    || 0x30 <= b <= 0x39 || 0x41 <= b <= 0x5a || 0x61 <= b <= 0x7a
    || b == 0x2d || b == 0x2e || b == 0x5f || b == 0x7e
  }

  function HexDigit(n: int): char
    requires 0 <= n < 16
  {
    if n < 10 then ('0' as int + n) as char else ('A' as int + n - 10) as char
  }

  function EncodeByte(b: byte): string {
    if Unreserved(b) then [b as char] else ['%', HexDigit(b as int / 16), HexDigit(b as int % 16)]
  }

  function Encoded(bytes: seq<byte>): string {
    if bytes == [] then "" else EncodeByte(bytes[0]) + Encoded(bytes[1..])
  }

  function ContentDisposition(filename: string): string {
    "attachment; filename=\"" + Quoted(filename) + "\"; filename*=UTF-8''" + Encoded(Utf8(filename))
  }

  // ---------- Reading it ----------

  datatype Value = Token(text: string) | QuotedString(text: string)

  datatype Param = Param(name: string, value: Value)

  datatype Header = Header(kind: string, params: seq<Param>)

  datatype Scan = Scan(text: string, rest: string)

  /** Section 3.2.6 of RFC 7230. */
  predicate TokenChar(c: char) {
    'a' <= c <= 'z' || 'A' <= c <= 'Z' || '0' <= c <= '9' || c in "!#$%&'*+-.^_`|~"
  }

  function ScanToken(text: string): (r: Scan)
    ensures |r.rest| + |r.text| == |text|
  {
    if text == "" || !TokenChar(text[0]) then Scan("", text)
    else var tail := ScanToken(text[1..]); Scan([text[0]] + tail.text, tail.rest)
  }

  /** After the opening quote: up to the closing one, a backslash taking the next character as it is. */
  function ScanQuoted(text: string): (r: Option<Scan>)
    ensures r.Some? ==> |r.value.rest| < |text|
  {
    if text == "" then None
    else if text[0] == '"' then Some(Scan("", text[1..]))
    else if text[0] == '\\' then
      if |text| == 1 then None
      else
        var tail := ScanQuoted(text[2..]);
        if tail.None? then None else Some(Scan([text[1]] + tail.value.text, tail.value.rest))
    else
      var tail := ScanQuoted(text[1..]);
      if tail.None? then None else Some(Scan([text[0]] + tail.value.text, tail.value.rest))
  }

  function SkipSpace(text: string): (rest: string)
    ensures |rest| <= |text|
  {
    if text != "" && (text[0] == ' ' || text[0] == '\t') then SkipSpace(text[1..]) else text
  }

  function ParseValue(text: string): (r: Option<(Value, string)>)
    ensures r.Some? ==> |r.value.1| < |text|
  {
    if text != "" && text[0] == '"' then
      var scan := ScanQuoted(text[1..]);
      if scan.None? then None else Some((QuotedString(scan.value.text), scan.value.rest))
    else
      var scan := ScanToken(text);
      if scan.text == "" then None else Some((Token(scan.text), scan.rest))
  }

  /** `*( ";" name "=" value )`, with optional white space around the semicolons. */
  function ParseParams(text: string): Option<seq<Param>>
    decreases |text|
  {
    var next := SkipSpace(text);
    if next == "" then Some([])
    else if next[0] != ';' then None
    else
      var name := ScanToken(SkipSpace(next[1..]));
      if name.text == "" || name.rest == "" || name.rest[0] != '=' then None
      else
        var value := ParseValue(name.rest[1..]);
        if value.None? then None
        else
          var tail := ParseParams(value.value.1);
          if tail.None? then None else Some([Param(name.text, value.value.0)] + tail.value)
  }

  function Parse(text: string): Option<Header> {
    var kind := ScanToken(text);
    var params := ParseParams(kind.rest);
    if kind.text == "" || params.None? then None else Some(Header(kind.text, params.value))
  }

  // ---------- Extended values ----------

  function HexValue(c: char): Option<int> {
    if '0' <= c <= '9' then Some(c as int - '0' as int)
    else if 'A' <= c <= 'F' then Some(c as int - 'A' as int + 10)
    else if 'a' <= c <= 'f' then Some(c as int - 'a' as int + 10)
    else None
  }

  predicate AttrChar(c: char) {
    'a' <= c <= 'z' || 'A' <= c <= 'Z' || '0' <= c <= '9' || c in "!#$&+-.^_`|~"
  }

  function DecodeChars(text: string): Option<seq<byte>> {
    if text == "" then Some([])
    else if text[0] == '%' then
      if |text| < 3 || HexValue(text[1]).None? || HexValue(text[2]).None? then None
      else
        var rest := DecodeChars(text[3..]);
        if rest.None? then None
        else Some([(HexValue(text[1]).value * 16 + HexValue(text[2]).value) as byte] + rest.value)
    else if AttrChar(text[0]) then
      var rest := DecodeChars(text[1..]);
      if rest.None? then None else Some([text[0] as byte] + rest.value)
    else None
  }

  const CHARSET := "UTF-8''"

  /** Charset, empty language, and the value's characters. */
  function DecodeExtended(text: string): Option<seq<byte>> {
    if CHARSET <= text then DecodeChars(text[|CHARSET|..]) else None
  }

  // ---------- Round trip ----------

  lemma HexComesBack(n: int)
    requires 0 <= n < 16
    ensures HexValue(HexDigit(n)) == Some(n)
  {
  }

  lemma {:induction false} EncodedComesBack(bytes: seq<byte>)
    ensures DecodeChars(Encoded(bytes)) == Some(bytes)
  {
    if bytes != [] {
      var b := bytes[0];
      HexComesBack(b as int / 16);
      HexComesBack(b as int % 16);
      assert Encoded(bytes)[|EncodeByte(b)|..] == Encoded(bytes[1..]);
      EncodedComesBack(bytes[1..]);
      assert [b] + bytes[1..] == bytes;
    }
  }

  predicate AllTokenChars(text: string) {
    forall i :: 0 <= i < |text| ==> TokenChar(text[i])
  }

  lemma {:induction false} EncodedIsToken(bytes: seq<byte>)
    ensures AllTokenChars(Encoded(bytes))
  {
    if bytes != [] {
      EncodedIsToken(bytes[1..]);
      var first := EncodeByte(bytes[0]);
      assert AllTokenChars(first);
    }
  }

  lemma {:induction false} TokenScans(token: string, rest: string)
    requires AllTokenChars(token) && (rest == "" || !TokenChar(rest[0]))
    ensures ScanToken(token + rest) == Scan(token, rest)
  {
    hide TokenChar;
    if token == "" {
      assert token + rest == rest;
    } else {
      assert (token + rest)[1..] == token[1..] + rest;
      TokenScans(token[1..], rest);
      assert [token[0]] + token[1..] == token;
    }
  }

  predicate Unbreakable(text: string) {
    forall i :: 0 <= i < |text| ==> text[i] != '"' && text[i] != '\\'
  }

  lemma {:induction false} QuotedScans(text: string, rest: string)
    requires Unbreakable(text)
    ensures ScanQuoted(text + "\"" + rest) == Some(Scan(text, rest))
  {
    var whole := text + "\"" + rest;
    if text == "" {
      assert whole == "\"" + rest;
      assert whole[1..] == rest;
    } else {
      assert whole[1..] == text[1..] + "\"" + rest;
      QuotedScans(text[1..], rest);
      assert [text[0]] + text[1..] == text;
    }
  }

  lemma Separators()
    ensures !TokenChar(';') && !TokenChar('=') && !TokenChar('"') && !TokenChar(' ') && !TokenChar('\t')
  {
  }

  lemma NameScans(name: string, rest: string)
    requires AllTokenChars(name) && name != "" && rest != ""
    requires ParseValue(rest).Some? && ParseParams(ParseValue(rest).value.1).Some?
    ensures ParseParams("; " + (name + ("=" + rest)))
         == Some([Param(name, ParseValue(rest).value.0)] + ParseParams(ParseValue(rest).value.1).value)
  {
    hide ParseValue, TokenChar;
    Separators();
    var tail := name + ("=" + rest);
    var text := "; " + tail;
    assert text[1..] == " " + tail;
    assert SkipSpace(text) == text;
    assert (" " + tail)[1..] == tail && tail[0] == name[0];
    assert SkipSpace(" " + tail) == tail;
    TokenScans(name, "=" + rest);
    assert ("=" + rest)[1..] == rest;
  }

  lemma BareToken(token: string)
    requires AllTokenChars(token) && token != ""
    ensures ParseValue(token) == Some((Token(token), ""))
  {
    hide TokenChar;
    Separators();
    assert token + "" == token;
    TokenScans(token, "");
    assert TokenChar(token[0]);
  }

  lemma LastParam(name: string, token: string)
    requires AllTokenChars(name) && name != "" && AllTokenChars(token) && token != ""
    ensures ParseParams("; " + (name + ("=" + token))) == Some([Param(name, Token(token))])
  {
    hide ParseValue, ParseParams, AllTokenChars;
    BareToken(token);
    NoParams();
    NameScans(name, token);
    assert [Param(name, Token(token))] + [] == [Param(name, Token(token))];
  }

  lemma NoParams()
    ensures ParseParams("") == Some([])
  {
  }

  lemma QuotedValue(quoted: string, rest: string)
    requires Unbreakable(quoted)
    ensures ParseValue("\"" + (quoted + "\"" + rest)) == Some((QuotedString(quoted), rest))
  {
    QuotedScans(quoted, rest);
    assert ("\"" + (quoted + "\"" + rest))[1..] == quoted + "\"" + rest;
  }

  lemma QuotedParam(name: string, quoted: string, rest: string)
    requires AllTokenChars(name) && name != "" && Unbreakable(quoted) && ParseParams(rest).Some?
    ensures ParseParams("; " + (name + ("=" + ("\"" + (quoted + "\"" + rest)))))
         == Some([Param(name, QuotedString(quoted))] + ParseParams(rest).value)
  {
    QuotedValue(quoted, rest);
    hide ParseValue, ParseParams, AllTokenChars;
    NameScans(name, "\"" + (quoted + "\"" + rest));
  }

  /** A header with a quoted parameter and then a bare one. */
  function Laid(kind: string, first: string, quoted: string, second: string, token: string): string {
    kind + ("; " + (first + ("=" + ("\"" + (quoted + "\"" + ("; " + (second + ("=" + token))))))))
  }

  lemma LaidReadsBack(kind: string, first: string, quoted: string, second: string, token: string)
    requires AllTokenChars(kind) && kind != "" && AllTokenChars(first) && first != "" && Unbreakable(quoted)
    requires AllTokenChars(second) && second != "" && AllTokenChars(token) && token != ""
    ensures Parse(Laid(kind, first, quoted, second, token))
         == Some(Header(kind, [Param(first, QuotedString(quoted)), Param(second, Token(token))]))
  {
    hide AllTokenChars, ParseParams, ScanToken, TokenChar;
    Separators();
    LastParam(second, token);
    QuotedParam(first, quoted, "; " + (second + ("=" + token)));
    var params := "; " + (first + ("=" + ("\"" + (quoted + "\"" + ("; " + (second + ("=" + token)))))));
    assert params[0] == ';' && Laid(kind, first, quoted, second, token) == kind + params;
    TokenScans(kind, params);
    assert [Param(first, QuotedString(quoted))] + [Param(second, Token(token))]
        == [Param(first, QuotedString(quoted)), Param(second, Token(token))];
  }

  lemma ConstantsAreTokens()
    ensures AllTokenChars("attachment") && AllTokenChars("filename") && AllTokenChars("filename*")
        && AllTokenChars(CHARSET)
  {
  }

  lemma ExtendedIsToken(bytes: seq<byte>)
    ensures AllTokenChars(CHARSET + Encoded(bytes))
    ensures DecodeExtended(CHARSET + Encoded(bytes)) == Some(bytes)
  {
    ConstantsAreTokens();
    EncodedIsToken(bytes);
    EncodedComesBack(bytes);
    assert (CHARSET + Encoded(bytes))[|CHARSET|..] == Encoded(bytes);
  }

  /** Only printable ASCII, and nothing that could close the quotes. */
  lemma QuotedIsSafe(filename: string)
    ensures Unbreakable(Quoted(filename))
    ensures forall i :: 0 <= i < |filename| ==> ' ' <= Quoted(filename)[i] <= '~'
    ensures forall i ::
              (0 <= i < |filename| && ' ' <= filename[i] <= '~' && filename[i] != '"' && filename[i] != '\\') ==>
              Quoted(filename)[i] == filename[i]
    ensures forall i :: 0 <= i < |filename| ==> Quoted(filename)[i] == filename[i] || Quoted(filename)[i] == '_'
  {
  }

  /**
   Any filename whatever reads back as one quoted `filename`, printable and without a quote or a
   backslash, and one `filename*` that decodes to the filename's bytes, and so to the filename.
   */
  lemma HeaderReadsBack(filename: string)
    ensures var extended := CHARSET + Encoded(Utf8(filename));
            && Parse(ContentDisposition(filename))
               == Some(Header("attachment", [Param("filename", QuotedString(Quoted(filename))),
                                            Param("filename*", Token(extended))]))
            && DecodeExtended(extended) == Some(Utf8(filename))
            && CodePoints(Utf8(filename)) == Some(Codes(filename))
    ensures Unbreakable(Quoted(filename)) && forall i :: 0 <= i < |filename| ==> ' ' <= Quoted(filename)[i] <= '~'
  {
    hide AllTokenChars, Parse, DecodeExtended, CodePoints, Codes, Encoded;
    hide Utf8, Laid, ContentDisposition, Unbreakable, Quoted;
    QuotedIsSafe(filename);
    TextComesBack(filename);
    ExtendedIsToken(Utf8(filename));
    ConstantsAreTokens();
    LaidOut(filename);
    LaidReadsBack("attachment", "filename", Quoted(filename), "filename*", CHARSET + Encoded(Utf8(filename)));
  }

  lemma LaidOut(filename: string)
    ensures ContentDisposition(filename)
         == Laid("attachment", "filename", Quoted(filename), "filename*", CHARSET + Encoded(Utf8(filename)))
  {
    hide Encoded, Utf8, Quoted, Laid;
    Opening();
    Middle();
    Regrouped("attachment", "filename", Quoted(filename), "filename*", CHARSET, Encoded(Utf8(filename)));
  }

  lemma Opening()
    ensures "attachment; filename=\"" == "attachment" + ("; " + ("filename" + ("=" + "\"")))
  {
  }

  lemma Middle()
    ensures "\"; filename*=UTF-8''" == "\"" + ("; " + ("filename*" + ("=" + CHARSET)))
  {
  }

  lemma Regrouped(kind: string, first: string, quoted: string, second: string, charset: string, encoded: string)
    ensures (kind + ("; " + (first + ("=" + "\"")))) + quoted + ("\"" + ("; " + (second + ("=" + charset)))) + encoded
         == Laid(kind, first, quoted, second, charset + encoded)
  {
  }
}
