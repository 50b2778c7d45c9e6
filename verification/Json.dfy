/** The JSON text that json.dumps writes, in the three styles the collector
    uses, and how large it is once encoded as UTF-8. */
module Json {

  /** ensure_ascii and the two separators. */
  datatype Style = Style(ascii: bool, comma: string, colon: string)

  const DEFAULT := Style(true, ", ", ": ")
  const READABLE := Style(false, ", ", ": ")
  const COMPACT := Style(false, ",", ":")

  datatype Field = Field(name: string, value: Json)

  datatype Json =
    | Null
    | Bool(b: bool)
    | Num(text: string)
    | Str(s: string)
    | Arr(items: seq<Json>)
    | Obj(fields: seq<Field>)

  function CharSize(c: char): (n: nat)
    ensures 1 <= n <= 4
  {
    var code := c as int;
    if code < 0x80 then 1 else if code < 0x800 then 2 else if code < 0x10000 then 3 else 4
  }

  /** The bits of a code point that n bytes of UTF-8 hold (RFC 3629 section 3). */
  function Bits(n: nat): nat {
    if n == 1 then 7 else if n == 2 then 5 + 6 else if n == 3 then 4 + 12 else 3 + 18
  }

  function Power(n: nat): nat {
    if n == 0 then 1 else 2 * Power(n - 1)
  }

  /** A character takes as few bytes as hold its code point. */
  lemma CharSizeLeast(c: char)
    ensures c as int < Power(Bits(CharSize(c)))
    ensures CharSize(c) > 1 ==> c as int >= Power(Bits(CharSize(c) - 1))
  {
    assert Power(7) == 128;
    assert Power(11) == 16 * Power(7);
    assert Power(16) == 32 * Power(11);
    assert Power(21) == 32 * Power(16);
  }

  /** Length of the UTF-8 encoding of a text. */
  function Size(s: string): nat {
    if s == "" then 0 else CharSize(s[0]) + Size(s[1..])
  }

  function HexDigit(n: nat): (c: char)
    requires n < 16
    ensures c as int < 0x80
  {
    "0123456789abcdef"[n]
  }

  /** A code unit as backslash, u and four hexadecimal digits. */
  function Unicode(unit: nat): (s: string)
    requires unit < 0x10000
    ensures |s| == 6 && forall i | 0 <= i < |s| :: s[i] as int < 0x80
  {
    ['\\', 'u', HexDigit(unit / 4096), HexDigit(unit / 256 % 16), HexDigit(unit / 16 % 16), HexDigit(unit % 16)]
  }

  function EscapeChar(c: char, ascii: bool): string {
    var code := c as int;
    if c == '"' then "\\\""
    else if c == '\\' then "\\\\"
    else if c == '\n' then "\\n"
    else if c == '\r' then "\\r"
    else if c == '\t' then "\\t"
    else if code == 12 then "\\f"
    else if code == 8 then "\\b"
    else if code < 0x20 then Unicode(code)
    else if !ascii || code < 0x7f then [c]
    else if code < 0x10000 then Unicode(code)
    else Unicode(0xd800 + (code - 0x10000) / 1024) + Unicode(0xdc00 + (code - 0x10000) % 1024)
  }

  function Escape(s: string, ascii: bool): string {
    if s == "" then "" else EscapeChar(s[0], ascii) + Escape(s[1..], ascii)
  }

  function Quote(s: string, ascii: bool): string {
    "\"" + Escape(s, ascii) + "\""
  }

  function Text(j: Json, style: Style): string
    decreases j, 0
  {
    match j
    case Null => "null"
    case Bool(b) => if b then "true" else "false"
    case Num(text) => text
    case Str(s) => Quote(s, style.ascii)
    case Arr(items) => "[" + Items(items, style) + "]"
    case Obj(fields) => "{" + Fields(fields, style) + "}"
  }

  function Items(items: seq<Json>, style: Style): string
    decreases items, 1
  {
    if items == [] then ""
    else Text(items[0], style) + (if |items| == 1 then "" else style.comma) + Items(items[1..], style)
  }

  function Fields(fields: seq<Field>, style: Style): string
    decreases fields, 1
  {
    if fields == [] then ""
    else Quote(fields[0].name, style.ascii) + style.colon + Text(fields[0].value, style)
         + (if |fields| == 1 then "" else style.comma) + Fields(fields[1..], style)
  }

  /** Bytes that json.dumps(j, ...).encode() yields. */
  function Dumped(j: Json, style: Style): nat {
    Size(Text(j, style))
  }

  lemma {:induction false} SizeAppend(a: string, b: string)
    ensures Size(a + b) == Size(a) + Size(b)
  {
    if a == "" {
      assert a + b == b;
    } else {
      SizeAppend(a[1..], b);
      assert (a + b)[1..] == a[1..] + b;
    }
  }

  lemma {:induction false} AsciiSize(s: string)
    requires forall i | 0 <= i < |s| :: s[i] as int < 0x80
    ensures Size(s) == |s|
  {
    if s != "" {
      AsciiSize(s[1..]);
    }
  }

  lemma {:induction false} SizeAtLeastLength(s: string)
    ensures |s| <= Size(s) <= 4 * |s|
  {
    if s != "" {
      SizeAtLeastLength(s[1..]);
    }
  }

  lemma EscapeCharSizes(c: char)
    ensures Size(EscapeChar(c, false)) <= Size(EscapeChar(c, true)) <= 6 * CharSize(c)
  {
    AsciiSize(EscapeChar(c, true));
    if c as int >= 0x7f {
      assert EscapeChar(c, false) == [c];
      assert [c][1..] == "";
      assert Size([c]) == CharSize(c);
    } else {
      AsciiSize(EscapeChar(c, false));
    }
  }

  /** Escaping to ASCII (RFC 8259 section 7) grows a text at most sixfold, and
      never yields less than writing the characters as they are. */
  lemma {:induction false} EscapeSizes(s: string)
    ensures Size(Escape(s, false)) <= Size(Escape(s, true)) <= 6 * Size(s)
  {
    if s != "" {
      EscapeCharSizes(s[0]);
      EscapeSizes(s[1..]);
      SizeAppend(EscapeChar(s[0], false), Escape(s[1..], false));
      SizeAppend(EscapeChar(s[0], true), Escape(s[1..], true));
    }
  }

  lemma QuoteSizes(s: string, ascii: bool)
    ensures Size(Quote(s, ascii)) == Size(Escape(s, ascii)) + 2
  {
    SizeAppend("\"", Escape(s, ascii));
    SizeAppend("\"" + Escape(s, ascii), "\"");
    assert Size("\"") == 1;
  }

  ghost predicate NoWider(a: Style, b: Style) {
    && (a.ascii ==> b.ascii)
    && Size(a.comma) <= Size(b.comma)
    && Size(a.colon) <= Size(b.colon)
  }

  lemma Bracketed(open: string, body: string, close: string)
    ensures Size(open + body + close) == Size(open) + Size(body) + Size(close)
  {
    SizeAppend(open, body);
    SizeAppend(open + body, close);
  }

  lemma QuoteNoWider(s: string, a: bool, b: bool)
    requires a ==> b
    ensures Size(Quote(s, a)) <= Size(Quote(s, b))
  {
    EscapeSizes(s);
    QuoteSizes(s, a);
    QuoteSizes(s, b);
  }

  /** A style with shorter separators and without ASCII escaping never makes
      any document larger. */
  lemma {:induction false} NarrowerStyle(j: Json, a: Style, b: Style)
    requires NoWider(a, b)
    ensures Dumped(j, a) <= Dumped(j, b)
    decreases j, 0
  {
    match j
    case Null =>
    case Bool(_) =>
    case Num(_) =>
    case Str(s) => QuoteNoWider(s, a.ascii, b.ascii);
    case Arr(items) =>
      NarrowerItems(items, a, b);
      Bracketed("[", Items(items, a), "]");
      Bracketed("[", Items(items, b), "]");
    case Obj(fields) =>
      NarrowerFields(fields, a, b);
      Bracketed("{", Fields(fields, a), "}");
      Bracketed("{", Fields(fields, b), "}");
  }

  lemma ItemsSize(items: seq<Json>, style: Style)
    requires items != []
    ensures Size(Items(items, style))
         == Dumped(items[0], style) + (if |items| == 1 then 0 else Size(style.comma)) + Size(Items(items[1..], style))
  {
    var separator := if |items| == 1 then "" else style.comma;
    Bracketed(Text(items[0], style), separator, Items(items[1..], style));
  }

  lemma FieldsSize(fields: seq<Field>, style: Style)
    requires fields != []
    ensures Size(Fields(fields, style))
         == Size(Quote(fields[0].name, style.ascii)) + Size(style.colon) + Dumped(fields[0].value, style)
            + (if |fields| == 1 then 0 else Size(style.comma)) + Size(Fields(fields[1..], style))
  {
    var name, value := Quote(fields[0].name, style.ascii), Text(fields[0].value, style);
    var separator := if |fields| == 1 then "" else style.comma;
    Bracketed(name, style.colon, value);
    Bracketed(name + style.colon + value, separator, Fields(fields[1..], style));
  }

  lemma {:induction false} NarrowerItems(items: seq<Json>, a: Style, b: Style)
    requires NoWider(a, b)
    ensures Size(Items(items, a)) <= Size(Items(items, b))
    decreases items, 1
  {
    if items != [] {
      NarrowerStyle(items[0], a, b);
      NarrowerItems(items[1..], a, b);
      ItemsSize(items, a);
      ItemsSize(items, b);
    }
  }

  lemma {:induction false} NarrowerFields(fields: seq<Field>, a: Style, b: Style)
    requires NoWider(a, b)
    ensures Size(Fields(fields, a)) <= Size(Fields(fields, b))
    decreases fields, 1
  {
    if fields != [] {
      QuoteNoWider(fields[0].name, a.ascii, b.ascii);
      NarrowerStyle(fields[0].value, a, b);
      NarrowerFields(fields[1..], a, b);
      FieldsSize(fields, a);
      FieldsSize(fields, b);
    }
  }

  /** What is inside a document is not larger than the document. */
  lemma ValueWithin(fields: seq<Field>, i: nat, style: Style)
    requires i < |fields|
    ensures Dumped(fields[i].value, style) <= Dumped(Obj(fields), style)
  {
    FieldWithin(fields, i, style);
    Bracketed("{", Fields(fields, style), "}");
  }

  lemma {:induction false} FieldWithin(fields: seq<Field>, i: nat, style: Style)
    requires i < |fields|
    ensures Dumped(fields[i].value, style) <= Size(Fields(fields, style))
  {
    FieldsSize(fields, style);
    if i > 0 {
      FieldWithin(fields[1..], i - 1, style);
    }
  }
}
