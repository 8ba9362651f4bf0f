/**
 The page bootstrap text: compact JSON printed as by json.dumps without ASCII
 escaping, then three textual replacements that keep it inert inside a script
 element.  A decoder for compact JSON texts (RFC 8259, sections 4 to 7) is the
 partner the printer is proved against.
 */
module SafeJson {
  import opened Wrappers
  import opened Texts
  import opened Sequences

  datatype Json =
    | Null
    | Bool(value: bool)
    | Number(lexeme: string)
    | String(text: string)
    | Array(items: seq<Json>)
    | Object(members: seq<Member>)

  datatype Member = Member(name: string, value: Json)

  // ------------------------------------------------------------------- numbers

  predicate IsNumberChar(c: char) {
    IsDigit(c) || c == '-' || c == '+' || c == '.' || c == 'e' || c == 'E'
  }

  function AfterDigits(s: string): string {
    if s != "" && IsDigit(s[0]) then AfterDigits(s[1..]) else s
  }

  predicate IsExponent(s: string) {
    s == "" ||
    ((s[0] == 'e' || s[0] == 'E') &&
     var digits := if |s| >= 2 && (s[1] == '+' || s[1] == '-') then s[2..] else s[1..];
     digits != "" && AfterDigits(digits) == "")
  }

  predicate IsFraction(s: string) {
    IsExponent(s) || (|s| >= 2 && s[0] == '.' && IsDigit(s[1]) && IsExponent(AfterDigits(s[1..])))
  }

  predicate IsUnsigned(s: string) {
    s != "" && IsDigit(s[0]) && IsFraction(if s[0] == '0' then s[1..] else AfterDigits(s))
  }

  /** The number grammar of section 6; integers and finite floats print within it. */
  predicate IsNumber(s: string) {
    && s != "" && (forall i :: 0 <= i < |s| ==> IsNumberChar(s[i]))
    && IsUnsigned(if s[0] == '-' then s[1..] else s)
  }

  /** Every number of the value is a JSON number. */
  predicate WellFormed(v: Json) {
    match v
    case Number(lexeme) => IsNumber(lexeme)
    case Array(items) => forall i :: 0 <= i < |items| ==> WellFormed(items[i])
    case Object(members) => forall i :: 0 <= i < |members| ==> WellFormed(members[i].value)
    case _ => true
  }

  // ------------------------------------------------------------------- printer

  function HexDigit(n: nat): char
    requires n < 16
  {
    "0123456789abcdef"[n]
  }

  /** The escapes of json.dumps: quote, backslash and control characters only. */
  function EscapeChar(c: char): string {
    if c == '"' then "\\\""
    else if c == '\\' then "\\\\"
    else if c == '\n' then "\\n"
    else if c == '\r' then "\\r"
    else if c == '\t' then "\\t"
    else if c == 8 as char then "\\b"
    else if c == 12 as char then "\\f"
    else if c < ' ' then "\\u00" + [HexDigit(c as int / 16), HexDigit(c as int % 16)]
    else [c]
  }

  /** The characters that json.dumps writes as a backslash and one character. */
  const SHORT_ESCAPES: set<char> := {'"', '\\', '\n', '\r', '\t', '\U{8}', '\U{c}'}

  /** Two characters for those, six for any other control character, and every other character stands for itself. */
  lemma EscapesOnlyWhereNeeded(c: char)
    ensures |EscapeChar(c)| == if c in SHORT_ESCAPES then 2 else if c < ' ' then 6 else 1
    ensures c !in SHORT_ESCAPES && c >= ' ' ==> EscapeChar(c) == [c]
  {
    assert 8 as char == '\U{8}' && 12 as char == '\U{c}';
  }

  function Escape(s: string): string {
    if s == "" then "" else EscapeChar(s[0]) + Escape(s[1..])
  }

  function Quote(s: string): string {
    "\"" + Escape(s) + "\""
  }

  function Print(v: Json): string
    decreases v
  {
    match v
    case Null => "null"
    case Bool(b) => if b then "true" else "false"
    case Number(lexeme) => lexeme
    case String(text) => Quote(text)
    case Array(items) => "[" + PrintItems(items) + "]"
    case Object(members) => "{" + PrintMembers(members) + "}"
  }

  function PrintItems(items: seq<Json>): string
    decreases items
  {
    if items == [] then ""
    else if |items| == 1 then Print(items[0])
    else Print(items[0]) + "," + PrintItems(items[1..])
  }

  function PrintMembers(members: seq<Member>): string
    decreases members
  {
    if members == [] then ""
    else
      var first := Quote(members[0].name) + ":" + Print(members[0].value);
      if |members| == 1 then first else first + "," + PrintMembers(members[1..])
  }

  /** str.replace with a one-character pattern. */
  function Replace(s: string, c: char, with: string): string {
    if s == "" then "" else (if s[0] == c then with else [s[0]]) + Replace(s[1..], c, with)
  }

  function Safe(s: string): string {
    Replace(Replace(Replace(s, '<', "\\u003c"), '>', "\\u003e"), '&', "\\u0026")
  }

  function Document(page: string, props: seq<Member>): Json {
    Object([Member("page", String(page)), Member("props", Object(props))])
  }

  function SafeDocument(page: string, props: seq<Member>): string {
    Safe(Print(Document(page, props)))
  }

  // --------------------------------------- the replacements, character by character

  function SafeChar(c: char): string {
    if c == '<' then "\\u003c" else if c == '>' then "\\u003e" else if c == '&' then "\\u0026" else [c]
  }

  function SafeChars(s: string): string {
    if s == "" then "" else SafeChar(s[0]) + SafeChars(s[1..])
  }

  lemma {:induction false} ReplaceAppend(a: string, b: string, c: char, with: string)
    ensures Replace(a + b, c, with) == Replace(a, c, with) + Replace(b, c, with)
  {
    if a == "" {
      assert a + b == b;
    } else {
      assert (a + b)[1..] == a[1..] + b;
      ReplaceAppend(a[1..], b, c, with);
    }
  }

  lemma {:induction false} ReplaceAbsent(s: string, c: char, with: string)
    requires c !in s
    ensures Replace(s, c, with) == s
  {
    if s != "" {
      ReplaceAbsent(s[1..], c, with);
    }
  }

  lemma ReplaceOne(x: char, c: char, with: string)
    ensures Replace([x], c, with) == if x == c then with else [x]
  {
    assert [x][1..] == "";
  }

  lemma SafeOne(c: char)
    ensures Safe([c]) == SafeChar(c)
  {
    ReplaceOne(c, '<', "\\u003c");
    if c == '<' {
      ReplaceAbsent("\\u003c", '>', "\\u003e");
      ReplaceAbsent("\\u003c", '&', "\\u0026");
    } else {
      ReplaceOne(c, '>', "\\u003e");
      if c == '>' {
        ReplaceAbsent("\\u003e", '&', "\\u0026");
      } else {
        ReplaceOne(c, '&', "\\u0026");
      }
    }
  }

  lemma SafeAppend(a: string, b: string)
    ensures Safe(a + b) == Safe(a) + Safe(b)
  {
    ReplaceAppend(a, b, '<', "\\u003c");
    ReplaceAppend(Replace(a, '<', "\\u003c"), Replace(b, '<', "\\u003c"), '>', "\\u003e");
    ReplaceAppend(Replace(Replace(a, '<', "\\u003c"), '>', "\\u003e"),
                  Replace(Replace(b, '<', "\\u003c"), '>', "\\u003e"), '&', "\\u0026");
  }

  /** The three passes do not disturb each other. */
  lemma {:induction false} SafeIsSafeChars(s: string)
    ensures Safe(s) == SafeChars(s)
  {
    if s != "" {
      SafeOne(s[0]);
      SafeIsSafeChars(s[1..]);
      SafeAppend([s[0]], s[1..]);
      assert [s[0]] + s[1..] == s;
    }
  }

  predicate Harmless(s: string) {
    forall i :: 0 <= i < |s| ==> s[i] != '<' && s[i] != '>' && s[i] != '&'
  }

  lemma {:induction false} SafeCharsHarmless(s: string)
    ensures Harmless(SafeChars(s))
  {
    if s != "" {
      SafeCharsHarmless(s[1..]);
    }
  }

  lemma {:induction false} HarmlessUnchanged(s: string)
    requires Harmless(s)
    ensures SafeChars(s) == s
  {
    if s != "" {
      HarmlessUnchanged(s[1..]);
    }
  }

  lemma {:induction false} SafeCharsAppend(a: string, b: string)
    ensures SafeChars(a + b) == SafeChars(a) + SafeChars(b)
  {
    if a == "" {
      assert a + b == b;
    } else {
      assert (a + b)[1..] == a[1..] + b;
      SafeCharsAppend(a[1..], b);
    }
  }

  // ------------------------------------------------- the text actually delivered

  function SafeEscapeChar(c: char): string {
    if c == '<' || c == '>' || c == '&' then SafeChar(c) else EscapeChar(c)
  }

  function Body(s: string): string {
    if s == "" then "" else SafeEscapeChar(s[0]) + Body(s[1..])
  }

  function Quoted(s: string): string {
    "\"" + Body(s) + "\""
  }

  function Text(v: Json): string
    decreases v
  {
    match v
    case Null => "null"
    case Bool(b) => if b then "true" else "false"
    case Number(lexeme) => lexeme
    case String(text) => Quoted(text)
    case Array(items) => "[" + ItemsText(items) + "]"
    case Object(members) => "{" + MembersText(members) + "}"
  }

  function ItemsText(items: seq<Json>): string
    decreases items
  {
    if items == [] then ""
    else if |items| == 1 then Text(items[0])
    else Text(items[0]) + "," + ItemsText(items[1..])
  }

  function MemberText(m: Member): string
    decreases m
  {
    Quoted(m.name) + ":" + Text(m.value)
  }

  function MembersText(members: seq<Member>): string
    decreases members
  {
    if members == [] then ""
    else if |members| == 1 then MemberText(members[0])
    else MemberText(members[0]) + "," + MembersText(members[1..])
  }

  lemma EscapeCharSafe(c: char)
    ensures SafeChars(EscapeChar(c)) == SafeEscapeChar(c)
  {
    if c == '<' || c == '>' || c == '&' {
      assert [c][1..] == "";
    } else {
      HarmlessUnchanged(EscapeChar(c));
    }
  }

  lemma {:induction false} EscapeSafe(s: string)
    ensures SafeChars(Escape(s)) == Body(s)
  {
    if s != "" {
      EscapeCharSafe(s[0]);
      EscapeSafe(s[1..]);
      SafeCharsAppend(EscapeChar(s[0]), Escape(s[1..]));
    }
  }

  lemma QuoteSafe(s: string)
    ensures SafeChars(Quote(s)) == Quoted(s)
  {
    EscapeSafe(s);
    HarmlessUnchanged("\"");
    SafeCharsAppend("\"" + Escape(s), "\"");
    SafeCharsAppend("\"", Escape(s));
  }

  lemma Wrapped(open: string, s: string, close: string)
    requires Harmless(open) && Harmless(close)
    ensures SafeChars(open + s + close) == open + SafeChars(s) + close
  {
    HarmlessUnchanged(open);
    HarmlessUnchanged(close);
    SafeCharsAppend(open + s, close);
    SafeCharsAppend(open, s);
  }

  lemma Joined(a: string, mid: string, b: string)
    requires Harmless(mid)
    ensures SafeChars(a + mid + b) == SafeChars(a) + mid + SafeChars(b)
  {
    HarmlessUnchanged(mid);
    SafeCharsAppend(a + mid, b);
    SafeCharsAppend(a, mid);
  }

  /** Only string contents are rewritten: the delivered text has the printed structure. */
  lemma {:induction false} PrintSafe(v: Json)
    requires WellFormed(v)
    ensures SafeChars(Print(v)) == Text(v)
    decreases v
  {
    match v
    case String(text) => QuoteSafe(text);
    case Array(items) =>
      ItemsSafe(items);
      Wrapped("[", PrintItems(items), "]");
    case Object(members) =>
      MembersSafe(members);
      Wrapped("{", PrintMembers(members), "}");
    case _ => HarmlessUnchanged(Print(v));
  }

  lemma {:induction false} ItemsSafe(items: seq<Json>)
    requires forall i :: 0 <= i < |items| ==> WellFormed(items[i])
    ensures SafeChars(PrintItems(items)) == ItemsText(items)
    decreases items
  {
    if items != [] {
      PrintSafe(items[0]);
      if |items| > 1 {
        ItemsSafe(items[1..]);
        Joined(Print(items[0]), ",", PrintItems(items[1..]));
      }
    }
  }

  lemma {:induction false} MembersSafe(members: seq<Member>)
    requires forall i :: 0 <= i < |members| ==> WellFormed(members[i].value)
    ensures SafeChars(PrintMembers(members)) == MembersText(members)
    decreases members
  {
    if members != [] {
      QuoteSafe(members[0].name);
      PrintSafe(members[0].value);
      Joined(Quote(members[0].name), ":", Print(members[0].value));
      if |members| > 1 {
        MembersSafe(members[1..]);
        Joined(Quote(members[0].name) + ":" + Print(members[0].value), ",", PrintMembers(members[1..]));
      }
    }
  }

  // ------------------------------------------------------------------- decoder

  function HexValue(c: char): Option<nat> {
    if '0' <= c <= '9' then Some(c as int - '0' as int)
    else if 'a' <= c <= 'f' then Some(c as int - 'a' as int + 10)
    else if 'A' <= c <= 'F' then Some(c as int - 'A' as int + 10)
    else None
  }

  /** Surrogate halves are refused: the printer never writes one. */
  function ParseHex(s: string): Option<(char, string)> {
    if |s| < 4 then None
    else
      var a, b, c, d := HexValue(s[0]), HexValue(s[1]), HexValue(s[2]), HexValue(s[3]);
      if a.None? || b.None? || c.None? || d.None? then None
      else
        var code := ((a.value * 16 + b.value) * 16 + c.value) * 16 + d.value;
        if code < 0xD800 || 0xE000 <= code < 0x10000 then Some((code as char, s[4..])) else None
  }

  /** One character of a string's contents, by section 7. */
  function ParseChar(s: string): Option<(char, string)>
    requires s != ""
  {
    if s[0] == '"' || s[0] < ' ' then None
    else if s[0] != '\\' then Some((s[0], s[1..]))
    else if |s| < 2 then None
    else if s[1] == '"' || s[1] == '\\' || s[1] == '/' then Some((s[1], s[2..]))
    else if s[1] == 'b' then Some((8 as char, s[2..]))
    else if s[1] == 'f' then Some((12 as char, s[2..]))
    else if s[1] == 'n' then Some(('\n', s[2..]))
    else if s[1] == 'r' then Some(('\r', s[2..]))
    else if s[1] == 't' then Some(('\t', s[2..]))
    else if s[1] == 'u' then ParseHex(s[2..])
    else None
  }

  /** The rest of a string whose opening quote has been read. */
  function ParseString(s: string): (r: Option<(string, string)>)
    ensures r.Some? ==> |r.value.1| < |s|
    decreases |s|
  {
    if s == "" then None
    else if s[0] == '"' then Some(("", s[1..]))
    else
      match ParseChar(s)
      case None => None
      case Some((c, rest)) =>
        match ParseString(rest)
        case None => None
        case Some((text, after)) => Some(([c] + text, after))
  }

  function NumberPrefix(s: string): string {
    if s != "" && IsNumberChar(s[0]) then [s[0]] + NumberPrefix(s[1..]) else ""
  }

  lemma {:induction false} NumberPrefixLength(s: string)
    ensures |NumberPrefix(s)| <= |s|
  {
    if s != "" && IsNumberChar(s[0]) {
      NumberPrefixLength(s[1..]);
    }
  }

  function ParseValue(s: string): (r: Option<(Json, string)>)
    ensures r.Some? ==> |r.value.1| < |s|
    decreases |s|, 0
  {
    if s == "" then None
    else if StartsWith(s, "null") then Some((Null, s[4..]))
    else if StartsWith(s, "true") then Some((Bool(true), s[4..]))
    else if StartsWith(s, "false") then Some((Bool(false), s[5..]))
    else if s[0] == '"' then
      match ParseString(s[1..])
      case None => None
      case Some((text, rest)) => Some((String(text), rest))
    else if s[0] == '[' then
      if |s| >= 2 && s[1] == ']' then Some((Array([]), s[2..]))
      else
        match ParseItems(s[1..])
        case None => None
        case Some((items, rest)) => Some((Array(items), rest))
    else if s[0] == '{' then
      if |s| >= 2 && s[1] == '}' then Some((Object([]), s[2..]))
      else
        match ParseMembers(s[1..])
        case None => None
        case Some((members, rest)) => Some((Object(members), rest))
    else
      var lexeme := NumberPrefix(s);
      NumberPrefixLength(s);
      if IsNumber(lexeme) then Some((Number(lexeme), s[|lexeme|..])) else None
  }

  /** Items up to and including the closing bracket. */
  function ParseItems(s: string): (r: Option<(seq<Json>, string)>)
    ensures r.Some? ==> |r.value.1| < |s|
    decreases |s|, 1
  {
    match ParseValue(s)
    case None => None
    case Some((v, rest)) =>
      if rest == "" then None
      else if rest[0] == ']' then Some(([v], rest[1..]))
      else if rest[0] == ',' then
        match ParseItems(rest[1..])
        case None => None
        case Some((vs, after)) => Some(([v] + vs, after))
      else None
  }

  function ParseMember(s: string): (r: Option<(Member, string)>)
    ensures r.Some? ==> |r.value.1| < |s|
    decreases |s|, 1
  {
    if s == "" || s[0] != '"' then None
    else
      match ParseString(s[1..])
      case None => None
      case Some((name, rest)) =>
        if rest == "" || rest[0] != ':' then None
        else
          match ParseValue(rest[1..])
          case None => None
          case Some((v, after)) => Some((Member(name, v), after))
  }

  function ParseMembers(s: string): (r: Option<(seq<Member>, string)>)
    ensures r.Some? ==> |r.value.1| < |s|
    decreases |s|, 2
  {
    match ParseMember(s)
    case None => None
    case Some((m, rest)) =>
      if rest == "" then None
      else if rest[0] == '}' then Some(([m], rest[1..]))
      else if rest[0] == ',' then
        match ParseMembers(rest[1..])
        case None => None
        case Some((ms, after)) => Some(([m] + ms, after))
      else None
  }

  // ---------------------------------------------------------------- round trip

  lemma HexRoundTrip(n: nat)
    requires n < 16
    ensures HexValue(HexDigit(n)) == Some(n)
  {
  }

  lemma ParseHexEscape(c: char, a: char, b: char, rest: string)
    requires c as int < 256 && HexValue(a) == Some(c as int / 16) && HexValue(b) == Some(c as int % 16)
    ensures ParseChar("\\u00" + [a, b] + rest) == Some((c, rest))
  {
    var s := "\\u00" + [a, b] + rest;
    assert s[2..][4..] == rest && HexValue('0') == Some(0);
  }

  lemma ParseEscapedChar(c: char, rest: string)
    ensures ParseChar(SafeEscapeChar(c) + rest) == Some((c, rest))
    ensures SafeEscapeChar(c)[0] != '"'
  {
    var s := SafeEscapeChar(c) + rest;
    if |SafeEscapeChar(c)| == 6 {
      var high, low := SafeEscapeChar(c)[4], SafeEscapeChar(c)[5];
      HexOfEscape(c);
      assert SafeEscapeChar(c) == "\\u00" + [high, low];
      ParseHexEscape(c, high, low, rest);
    } else if |SafeEscapeChar(c)| == 2 {
      assert s[2..] == rest;
    } else {
      assert s[1..] == rest;
    }
  }

  lemma HexOfEscape(c: char)
    requires |SafeEscapeChar(c)| == 6
    ensures c as int < 256 && SafeEscapeChar(c)[..4] == "\\u00"
    ensures HexValue(SafeEscapeChar(c)[4]) == Some(c as int / 16) && HexValue(SafeEscapeChar(c)[5]) == Some(c as int % 16)
  {
    if c < ' ' {
      HexRoundTrip(c as int / 16);
      HexRoundTrip(c as int % 16);
    }
  }

  lemma BodySplit(text: string, rest: string)
    requires text != ""
    ensures Body(text) + "\"" + rest == SafeEscapeChar(text[0]) + (Body(text[1..]) + "\"" + rest)
  {
    Associate(SafeEscapeChar(text[0]), Body(text[1..]), "\"");
    Associate(SafeEscapeChar(text[0]), Body(text[1..]) + "\"", rest);
  }

  lemma ParseOneMore(c: char, tail: string, text: string, rest: string)
    requires ParseString(tail) == Some((text, rest))
    ensures ParseString(SafeEscapeChar(c) + tail) == Some(([c] + text, rest))
  {
    ParseEscapedChar(c, tail);
    assert (SafeEscapeChar(c) + tail)[0] == SafeEscapeChar(c)[0];
  }

  lemma {:induction false} ParseBody(text: string, rest: string)
    ensures ParseString(Body(text) + "\"" + rest) == Some((text, rest))
  {
    if text == "" {
      assert Body(text) + "\"" + rest == "\"" + rest;
      assert ("\"" + rest)[1..] == rest;
    } else {
      ParseBody(text[1..], rest);
      BodySplit(text, rest);
      ParseOneMore(text[0], Body(text[1..]) + "\"" + rest, text[1..], rest);
      assert [text[0]] + text[1..] == text;
    }
  }

  /** What may follow a value in a text. */
  predicate EndsValue(rest: string) {
    rest == "" || rest[0] == ',' || rest[0] == ']' || rest[0] == '}'
  }

  lemma {:induction false} NumberPrefixExact(lexeme: string, rest: string)
    requires forall i :: 0 <= i < |lexeme| ==> IsNumberChar(lexeme[i])
    requires EndsValue(rest)
    ensures NumberPrefix(lexeme + rest) == lexeme
  {
    if lexeme == "" {
      assert lexeme + rest == rest;
    } else {
      assert (lexeme + rest)[1..] == lexeme[1..] + rest;
      NumberPrefixExact(lexeme[1..], rest);
      assert [lexeme[0]] + lexeme[1..] == lexeme;
    }
  }

  lemma FirstOfPrefix(s: string, p: string)
    requires p != ""
    ensures StartsWith(s, p) ==> s != "" && s[0] == p[0]
  {
    if StartsWith(s, p) {
      assert s[..|p|][0] == s[0];
    }
  }

  lemma Chain(first: string, others: string, close: string, rest: string)
    ensures (first + "," + others) + close + rest == first + ("," + (others + close + rest))
  {
  }

  lemma Enclosed(open: char, s: string, close: string, rest: string)
    ensures ([open] + s + close + rest)[0] == open
    ensures ([open] + s + close + rest)[1..] == s + close + rest
  {
    assert [open] + s + close + rest == [open] + (s + close + rest);
  }

  lemma DropFirst(c: char, s: string)
    ensures ([c] + s)[0] == c && ([c] + s)[1..] == s
  {
  }

  lemma ParseNumberText(lexeme: string, rest: string)
    requires IsNumber(lexeme) && EndsValue(rest)
    ensures ParseValue(lexeme + rest) == Some((Number(lexeme), rest))
  {
    var s := lexeme + rest;
    NumberPrefixExact(lexeme, rest);
    assert s[0] == lexeme[0] && IsNumberChar(s[0]);
    assert lexeme[0] == '-' || IsDigit(lexeme[0]);
    FirstOfPrefix(s, "null");
    FirstOfPrefix(s, "true");
    FirstOfPrefix(s, "false");
    assert s[|lexeme|..] == rest;
  }

  lemma NotAKeyword(s: string)
    requires s != "" && (s[0] == '"' || s[0] == '[' || s[0] == '{')
    ensures !StartsWith(s, "null") && !StartsWith(s, "true") && !StartsWith(s, "false")
  {
    FirstOfPrefix(s, "null");
    FirstOfPrefix(s, "true");
    FirstOfPrefix(s, "false");
  }

  lemma ParseStringText(text: string, rest: string)
    ensures ParseValue(Quoted(text) + rest) == Some((String(text), rest))
  {
    var s := Quoted(text) + rest;
    NotAKeyword(s);
    assert s[1..] == Body(text) + "\"" + rest;
    ParseBody(text, rest);
  }

  /** The first character of a value's text is never a closing bracket. */
  lemma TextStart(v: Json)
    requires WellFormed(v)
    ensures Text(v) != "" && Text(v)[0] != ']' && Text(v)[0] != '}'
  {
  }

  /** Decoding a value's text, whatever follows it, gives back the value. */
  lemma {:induction false} ParseText(v: Json, rest: string)
    requires WellFormed(v) && EndsValue(rest)
    ensures ParseValue(Text(v) + rest) == Some((v, rest))
    decreases v
  {
    match v
    case Null => assert ("null" + rest)[4..] == rest && ("null" + rest)[..4] == "null";
    case Bool(b) =>
      if b {
        var s := "true" + rest;
        assert s[..4] == "true" && s[4..] == rest;
        assert s[..4][0] == 't';
      } else {
        var s := "false" + rest;
        assert s[..5] == "false" && s[5..] == rest;
        assert s[0] == 'f';
        FirstOfPrefix(s, "null");
        FirstOfPrefix(s, "true");
      }
    case Number(lexeme) => ParseNumberText(lexeme, rest);
    case String(text) => ParseStringText(text, rest);
    case Array(items) => ParseArrayText(items, rest);
    case Object(members) => ParseObjectText(members, rest);
  }

  lemma {:induction false} ParseArrayText(items: seq<Json>, rest: string)
    requires forall i :: 0 <= i < |items| ==> WellFormed(items[i])
    requires EndsValue(rest)
    ensures ParseValue(Text(Array(items)) + rest) == Some((Array(items), rest))
    decreases items, 1
  {
    var s := Text(Array(items)) + rest;
    NotAKeyword(s);
    if items == [] {
      assert Text(Array(items)) == "[]";
      assert s[2..] == rest;
    } else {
      Enclosed('[', ItemsText(items), "]", rest);
      TextStart(items[0]);
      assert ItemsText(items)[0] == Text(items[0])[0];
      ParseItemsText(items, rest);
    }
  }

  lemma {:induction false} ParseItemsText(items: seq<Json>, rest: string)
    requires items != [] && forall i :: 0 <= i < |items| ==> WellFormed(items[i])
    ensures ParseItems(ItemsText(items) + "]" + rest) == Some((items, rest))
    decreases items, 0
  {
    var first := Text(items[0]);
    if |items| == 1 {
      Associate(first, "]", rest);
      ParseText(items[0], "]" + rest);
      DropFirst(']', rest);
      assert [items[0]] == items;
    } else {
      var others := ItemsText(items[1..]);
      var tail := others + "]" + rest;
      Chain(first, others, "]", rest);
      ParseText(items[0], "," + tail);
      DropFirst(',', tail);
      ParseItemsText(items[1..], rest);
      assert [items[0]] + items[1..] == items;
    }
  }

  lemma MemberShape(m: Member, rest: string)
    ensures MemberText(m) + rest == "\"" + (Body(m.name) + "\"" + (":" + (Text(m.value) + rest)))
  {
    var body, text := Body(m.name), Text(m.value);
    assert MemberText(m) == "\"" + body + "\"" + ":" + text;
    assert ("\"" + body + "\"" + ":" + text) + rest == "\"" + (body + "\"" + (":" + (text + rest)));
  }

  lemma {:induction false} ParseMemberText(m: Member, rest: string)
    requires WellFormed(m.value) && EndsValue(rest)
    ensures ParseMember(MemberText(m) + rest) == Some((m, rest))
    decreases m, 0
  {
    var tail := Text(m.value) + rest;
    MemberShape(m, rest);
    DropFirst('"', Body(m.name) + "\"" + (":" + tail));
    ParseBody(m.name, ":" + tail);
    DropFirst(':', tail);
    ParseText(m.value, rest);
  }

  lemma MembersStart(members: seq<Member>)
    requires members != []
    ensures MembersText(members) != "" && MembersText(members)[0] == '"'
  {
    assert Quoted(members[0].name)[0] == '"';
    assert MemberText(members[0]) != "" && MemberText(members[0])[0] == '"';
  }

  lemma {:induction false} ParseObjectText(members: seq<Member>, rest: string)
    requires forall i :: 0 <= i < |members| ==> WellFormed(members[i].value)
    requires EndsValue(rest)
    ensures ParseValue(Text(Object(members)) + rest) == Some((Object(members), rest))
    decreases members, 2
  {
    var s := Text(Object(members)) + rest;
    NotAKeyword(s);
    if members == [] {
      assert Text(Object(members)) == "{}";
      assert s[2..] == rest;
    } else {
      Enclosed('{', MembersText(members), "}", rest);
      MembersStart(members);
      ParseMembersText(members, rest);
    }
  }

  lemma {:induction false} ParseMembersText(members: seq<Member>, rest: string)
    requires members != [] && forall i :: 0 <= i < |members| ==> WellFormed(members[i].value)
    ensures ParseMembers(MembersText(members) + "}" + rest) == Some((members, rest))
    decreases members, 1
  {
    var first := MemberText(members[0]);
    if |members| == 1 {
      Associate(first, "}", rest);
      ParseMemberText(members[0], "}" + rest);
      DropFirst('}', rest);
      assert [members[0]] == members;
    } else {
      var others := MembersText(members[1..]);
      var tail := others + "}" + rest;
      Chain(first, others, "}", rest);
      ParseMemberText(members[0], "," + tail);
      DropFirst(',', tail);
      ParseMembersText(members[1..], rest);
      assert [members[0]] + members[1..] == members;
    }
  }

  // -------------------------------------------------------------- main results

  /** No character of the delivered text can open or close a tag or start an entity. */
  lemma ScriptSafe(page: string, props: seq<Member>)
    ensures Harmless(SafeDocument(page, props))
  {
    SafeIsSafeChars(Print(Document(page, props)));
    SafeCharsHarmless(Print(Document(page, props)));
  }

  /** Decoding the delivered text gives back an object of exactly the page name and the props, under these names. */
  lemma SafeDocumentRoundTrip(page: string, props: seq<Member>)
    requires forall i :: 0 <= i < |props| ==> WellFormed(props[i].value)
    ensures ParseValue(SafeDocument(page, props))
            == Some((Object([Member("page", String(page)), Member("props", Object(props))]), ""))
  {
    var v := Document(page, props);
    assert WellFormed(Object(props));
    SafeIsSafeChars(Print(v));
    PrintSafe(v);
    ParseText(v, "");
    assert Text(v) + "" == Text(v);
  }
}
