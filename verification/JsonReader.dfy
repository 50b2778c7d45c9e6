/** Reading JSON text (RFC 8259) back: a reference for what is written. */
module JsonReader {
  import opened Basics
  import opened Json

  // ---------------------------------------------------------------- texts

  function HexValue(c: char): (r: Option<nat>)
    ensures r.Some? ==> r.value < 16
  {
    if '0' <= c <= '9' then Some((c - '0') as nat)
    else if 'a' <= c <= 'f' then Some(10 + (c - 'a') as nat)
    else if 'A' <= c <= 'F' then Some(10 + (c - 'A') as nat)
    else None
  }

  /** Four hexadecimal digits. */
  function ReadUnit(s: string): (r: Option<nat>)
    ensures r.Some? ==> r.value < 0x10000
  {
    if |s| < 4 then None
    else
      var a, b, c, d := HexValue(s[0]), HexValue(s[1]), HexValue(s[2]), HexValue(s[3]);
      if a.None? || b.None? || c.None? || d.None? then None
      else Some(4096 * a.value + 256 * b.value + 16 * c.value + d.value)
  }

  /** What stands for one character, and how long it is. */
  function ReadChar(s: string): (r: Option<(char, nat)>)
    ensures r.Some? ==> 0 < r.value.1 <= |s|
  {
    if s == "" || s[0] == '"' || s[0] < ' ' then None
    else if s[0] != '\\' then Some((s[0], 1))
    else if |s| < 2 then None
    else if s[1] == '"' || s[1] == '\\' || s[1] == '/' then Some((s[1], 2))
    else if s[1] == 'b' then Some((8 as char, 2))
    else if s[1] == 'f' then Some((12 as char, 2))
    else if s[1] == 'n' then Some(('\n', 2))
    else if s[1] == 'r' then Some(('\r', 2))
    else if s[1] == 't' then Some(('\t', 2))
    else if s[1] != 'u' || ReadUnit(s[2..]).None? then None
    else
      var unit := ReadUnit(s[2..]).value;
      if unit < 0xd800 || unit >= 0xe000 then Some((unit as char, 6)) else ReadPair(s, unit)
  }

  /** Two surrogates stand for one character beyond the first 65536. */
  function ReadPair(s: string, high: nat): (r: Option<(char, nat)>)
    requires |s| >= 6
    ensures r.Some? ==> 0 < r.value.1 <= |s|
  {
    if high >= 0xdc00 || high < 0xd800 || |s| < 12 || s[6] != '\\' || s[7] != 'u' || ReadUnit(s[8..]).None? then None
    else
      var low := ReadUnit(s[8..]).value;
      if 0xdc00 <= low < 0xe000 then Some(((0x10000 + (high - 0xd800) * 1024 + (low - 0xdc00)) as char, 12)) else None
  }

  /** The characters up to the quotation mark, and what comes after it. */
  function ReadChars(s: string): (r: Option<(string, string)>)
    ensures r.Some? ==> |r.value.1| < |s|
    decreases |s|
  {
    if s == "" then None
    else if s[0] == '"' then Some(("", s[1..]))
    else
      var first := ReadChar(s);
      if first.None? then None
      else
        var rest := ReadChars(s[first.value.1..]);
        if rest.None? then None else Some(([first.value.0] + rest.value.0, rest.value.1))
  }

  // --------------------------------------------------------------- values

  predicate NumberChar(c: char) {
    '0' <= c <= '9' || c == '-' || c == '+' || c == '.' || c == 'e' || c == 'E'
  }

  function NumberRun(s: string): (n: nat)
    ensures n <= |s|
  {
    if s == "" || !NumberChar(s[0]) then 0 else 1 + NumberRun(s[1..])
  }

  /** Blanks may stand after a comma or a colon. */
  function Skip(s: string): (r: string)
    ensures |r| <= |s|
  {
    if s != "" && s[0] == ' ' then Skip(s[1..]) else s
  }

  function ReadValue(s: string): (r: Option<(Json, string)>)
    ensures r.Some? ==> |r.value.1| < |s|
    decreases |s|, 0
  {
    if s == "" then None
    else if "null" <= s then Some((Null, s[4..]))
    else if "true" <= s then Some((Bool(true), s[4..]))
    else if "false" <= s then Some((Bool(false), s[5..]))
    else if s[0] == '"' then
      var r := ReadChars(s[1..]);
      if r.None? then None else Some((Str(r.value.0), r.value.1))
    else if s[0] == '[' then
      if "[]" <= s then Some((Arr([]), s[2..]))
      else
        var r := ReadItems(s[1..]);
        if r.None? then None else Some((Arr(r.value.0), r.value.1))
    else if s[0] == '{' then
      if "{}" <= s then Some((Obj([]), s[2..]))
      else
        var r := ReadFields(s[1..]);
        if r.None? then None else Some((Obj(r.value.0), r.value.1))
    else
      var n := NumberRun(s);
      if n == 0 then None else Some((Num(s[..n]), s[n..]))
  }

  function ReadItems(s: string): (r: Option<(seq<Json>, string)>)
    ensures r.Some? ==> |r.value.1| < |s|
    decreases |s|, 1
  {
    var first := ReadValue(s);
    if first.None? then None
    else
      var (j, rest) := first.value;
      if rest == "" then None
      else if rest[0] == ']' then Some(([j], rest[1..]))
      else if rest[0] != ',' then None
      else
        var more := ReadItems(Skip(rest[1..]));
        if more.None? then None else Some(([j] + more.value.0, more.value.1))
  }

  function ReadFields(s: string): (r: Option<(seq<Field>, string)>)
    ensures r.Some? ==> |r.value.1| < |s|
    decreases |s|, 1
  {
    if s == "" || s[0] != '"' then None
    else
      var name := ReadChars(s[1..]);
      if name.None? || name.value.1 == "" || name.value.1[0] != ':' then None
      else
        var first := ReadValue(Skip(name.value.1[1..]));
        if first.None? then None
        else
          var (j, rest) := first.value;
          var field := Field(name.value.0, j);
          if rest == "" then None
          else if rest[0] == '}' then Some(([field], rest[1..]))
          else if rest[0] != ',' then None
          else
            var more := ReadFields(Skip(rest[1..]));
            if more.None? then None else Some(([field] + more.value.0, more.value.1))
  }

  // ------------------------------------------------------ reading escapes

  lemma HexRead(n: nat)
    requires n < 16
    ensures HexValue(HexDigit(n)) == Some(n)
  {
  }

  lemma UnitDigits(unit: nat)
    requires unit < 0x10000
    ensures unit == 4096 * (unit / 4096) + 256 * (unit / 256 % 16) + 16 * (unit / 16 % 16) + unit % 16 && unit / 4096 < 16
  {
  }

  lemma UnitOf(s: string, a: nat, b: nat, c: nat, d: nat)
    requires |s| >= 4 && HexValue(s[0]) == Some(a) && HexValue(s[1]) == Some(b) && HexValue(s[2]) == Some(c) && HexValue(s[3]) == Some(d)
    ensures ReadUnit(s) == Some(4096 * a + 256 * b + 16 * c + d)
  {
    hide HexValue;
  }

  lemma UnitRead(unit: nat, tail: string)
    requires unit < 0x10000
    ensures ReadUnit(Unicode(unit)[2..] + tail) == Some(unit)
    ensures |Unicode(unit)| == 6 && Unicode(unit)[0] == '\\' && Unicode(unit)[1] == 'u'
  {
    var a, b, c, d := unit / 4096, unit / 256 % 16, unit / 16 % 16, unit % 16;
    var s := Unicode(unit)[2..] + tail;
    assert s[0] == HexDigit(a) && s[1] == HexDigit(b) && s[2] == HexDigit(c) && s[3] == HexDigit(d);
    hide *;
    HexRead(a);
    HexRead(b);
    HexRead(c);
    HexRead(d);
    UnitOf(s, a, b, c, d);
    UnitDigits(unit);
  }

  /** An escaped code unit is a character, unless it is half of one. */
  lemma UnitChar(s: string, unit: nat)
    requires |s| >= 6 && s[0] == '\\' && s[1] == 'u' && ReadUnit(s[2..]) == Some(unit)
    ensures ReadChar(s) == if unit < 0xd800 || unit >= 0xe000 then Some((unit as char, 6)) else ReadPair(s, unit)
  {
    hide ReadUnit, ReadPair;
  }

  lemma UnicodeRead(unit: nat, tail: string)
    requires unit < 0xd800 || 0xe000 <= unit < 0x10000
    ensures ReadChar(Unicode(unit) + tail) == Some((unit as char, 6))
  {
    hide *;
    UnitRead(unit, tail);
    var s := Unicode(unit) + tail;
    assert s[2..] == Unicode(unit)[2..] + tail;
    UnitChar(s, unit);
  }

  lemma PairRead(high: nat, low: nat, tail: string)
    requires 0xd800 <= high < 0xdc00 && 0xdc00 <= low < 0xe000
    ensures ReadChar(Unicode(high) + Unicode(low) + tail) == Some(((0x10000 + (high - 0xd800) * 1024 + (low - 0xdc00)) as char, 12))
  {
    hide *;
    var s := Unicode(high) + Unicode(low) + tail;
    UnitRead(high, Unicode(low) + tail);
    assert s[2..] == Unicode(high)[2..] + (Unicode(low) + tail);
    UnitChar(s, high);
    LowPlace(s, high, low, tail);
    LowRead(s, high, low);
  }

  lemma LowPlace(s: string, high: nat, low: nat, tail: string)
    requires high < 0x10000 && low < 0x10000 && s == Unicode(high) + Unicode(low) + tail
    ensures |s| >= 12 && s[6] == '\\' && s[7] == 'u' && ReadUnit(s[8..]) == Some(low)
  {
    hide *;
    UnitRead(high, "");
    UnitRead(low, tail);
    assert s[8..] == Unicode(low)[2..] + tail;
    assert s[6] == Unicode(low)[0] && s[7] == Unicode(low)[1];
  }

  lemma LowRead(s: string, high: nat, low: nat)
    requires 0xd800 <= high < 0xdc00 && 0xdc00 <= low < 0xe000
    requires |s| >= 12 && s[6] == '\\' && s[7] == 'u' && ReadUnit(s[8..]) == Some(low)
    ensures ReadPair(s, high) == Some(((0x10000 + (high - 0xd800) * 1024 + (low - 0xdc00)) as char, 12))
  {
    hide ReadUnit;
  }

  predicate ShortEscape(c: char) {
    c == '"' || c == '\\' || c == '\n' || c == '\r' || c == '\t' || c as int == 8 || c as int == 12
  }

  lemma ShortRead(c: char, ascii: bool, tail: string)
    requires ShortEscape(c)
    ensures var text := EscapeChar(c, ascii); |text| == 2 && text[0] == '\\' && ReadChar(text + tail) == Some((c, 2))
  {
    hide Unicode, ReadUnit, ReadPair;
    var s := EscapeChar(c, ascii) + tail;
    assert s[0] == EscapeChar(c, ascii)[0] && s[1] == EscapeChar(c, ascii)[1];
  }

  lemma PlainRead(c: char, ascii: bool, tail: string)
    requires !ShortEscape(c) && c >= ' ' && (!ascii || c as int < 0x7f)
    ensures EscapeChar(c, ascii) == [c] && c != '"' && ReadChar([c] + tail) == Some((c, 1))
  {
    hide Unicode, ReadUnit, ReadPair;
  }

  lemma LongEscape(c: char, ascii: bool)
    requires !ShortEscape(c) && (c < ' ' || (ascii && c as int >= 0x7f))
    ensures var code := c as int;
            EscapeChar(c, ascii)
            == if code < 0x10000 then Unicode(code)
               else Unicode(0xd800 + (code - 0x10000) / 1024) + Unicode(0xdc00 + (code - 0x10000) % 1024)
  {
    hide Unicode;
  }

  /** Every escaped character is read as what it was. */
  lemma CharRead(c: char, ascii: bool, tail: string)
    ensures var text := EscapeChar(c, ascii);
            text != "" && text[0] != '"' && ReadChar(text + tail) == Some((c, |text|))
  {
    hide *;
    var code := c as int;
    if ShortEscape(c) {
      ShortRead(c, ascii, tail);
    } else if c >= ' ' && (!ascii || code < 0x7f) {
      PlainRead(c, ascii, tail);
    } else {
      LongEscape(c, ascii);
      if code < 0x10000 {
        NoSurrogate(c);
        UnicodeRead(code, tail);
        UnitRead(code, "");
      } else {
        var high, low := 0xd800 + (code - 0x10000) / 1024, 0xdc00 + (code - 0x10000) % 1024;
        PairBounds(code);
        PairRead(high, low, tail);
        UnitRead(high, "");
        UnitRead(low, "");
      }
    }
  }

  lemma NoSurrogate(c: char)
    ensures (c as int) < 0xd800 || 0xe000 <= (c as int) < 0x110000
  {
  }

  lemma PairBounds(code: nat)
    requires 0x10000 <= code < 0x110000
    ensures var high, low := 0xd800 + (code - 0x10000) / 1024, 0xdc00 + (code - 0x10000) % 1024;
            0xd800 <= high < 0xdc00 && 0xdc00 <= low < 0xe000 && 0x10000 + (high - 0xd800) * 1024 + (low - 0xdc00) == code
  {
  }

  lemma {:induction false} CharsRead(s: string, ascii: bool, rest: string)
    ensures ReadChars(Escape(s, ascii) + "\"" + rest) == Some((s, rest))
  {
    hide EscapeChar, ReadChar;
    if s == "" {
      assert Escape(s, ascii) + "\"" + rest == "\"" + rest;
    } else {
      var first, tail := EscapeChar(s[0], ascii), Escape(s[1..], ascii) + "\"" + rest;
      CharsRead(s[1..], ascii, rest);
      CharRead(s[0], ascii, tail);
      var text := Escape(s, ascii) + "\"" + rest;
      assert text == first + tail;
      assert text[|first|..] == tail;
      assert s == [s[0]] + s[1..];
    }
  }

  /** A quoted text is read as the text. */
  lemma QuoteRead(s: string, ascii: bool, rest: string)
    ensures var text := Quote(s, ascii) + rest;
            text != "" && text[0] == '"' && ReadChars(text[1..]) == Some((s, rest))
  {
    CharsRead(s, ascii, rest);
    hide ReadChars;
    var text := Quote(s, ascii) + rest;
    assert text[1..] == Escape(s, ascii) + "\"" + rest;
  }

  // -------------------------------------------------------- reading values

  /** A comma and a colon with nothing but blanks after them. */
  ghost predicate Separated(style: Style) {
    style.comma in {",", ", "} && style.colon in {":", ": "}
  }

  /** All numbers in it are written as numbers. */
  ghost predicate Numbers(j: Json)
    decreases j, 0
  {
    match j
    case Num(text) => text != "" && forall i | 0 <= i < |text| :: NumberChar(text[i])
    case Arr(items) => NumbersIn(items)
    case Obj(fields) => NumbersWithin(fields)
    case _ => true
  }

  ghost predicate NumbersIn(items: seq<Json>)
    decreases items, 1
  {
    items == [] || (Numbers(items[0]) && NumbersIn(items[1..]))
  }

  ghost predicate NumbersWithin(fields: seq<Field>)
    decreases fields, 1
  {
    fields == [] || (Numbers(fields[0].value) && NumbersWithin(fields[1..]))
  }

  /** What may come after a value. */
  ghost predicate Ends(rest: string) {
    rest == "" || !NumberChar(rest[0])
  }

  lemma {:induction false} RunRead(text: string, rest: string)
    requires (forall i | 0 <= i < |text| :: NumberChar(text[i])) && Ends(rest)
    ensures NumberRun(text + rest) == |text|
  {
    hide NumberChar;
    if text == "" {
      assert text + rest == rest;
    } else {
      assert (text + rest)[1..] == text[1..] + rest;
      RunRead(text[1..], rest);
    }
  }

  /** No value begins with a blank or with what closes a list. */
  lemma TextStarts(j: Json, style: Style)
    requires Numbers(j)
    ensures Text(j, style) != "" && Text(j, style)[0] !in {' ', ']', '}'}
  {
    match j
    case Num(text) => assert NumberChar(text[0]);
    case Arr(items) =>
    case Obj(fields) =>
    case _ =>
  }

  lemma SkipBlank(separator: string, blanks: string, rest: string)
    requires |separator| == 1 && blanks in {"", " "} && (rest == "" || rest[0] != ' ')
    ensures Skip((separator + blanks + rest)[1..]) == rest
  {
    var s := (separator + blanks + rest)[1..];
    if blanks == " " {
      assert s == " " + rest && s[1..] == rest;
    } else {
      assert s == rest;
    }
  }

  lemma WordRead(rest: string)
    ensures ReadValue("null" + rest) == Some((Null, rest))
    ensures ReadValue("true" + rest) == Some((Bool(true), rest))
    ensures ReadValue("false" + rest) == Some((Bool(false), rest))
  {
    hide ReadItems, ReadFields, ReadChars;
    assert ("null" + rest)[0] == 'n' && ("true" + rest)[0] == 't' && ("false" + rest)[0] == 'f';
    assert "null"[0] == 'n' && "true"[0] == 't';
    assert ("null" + rest)[4..] == rest && ("true" + rest)[4..] == rest && ("false" + rest)[5..] == rest;
    assert !("null" <= "true" + rest) && !("null" <= "false" + rest) && !("true" <= "false" + rest);
  }

  lemma StrRead(s: string, style: Style, rest: string)
    ensures ReadValue(Text(Str(s), style) + rest) == Some((Str(s), rest))
  {
    QuoteRead(s, style.ascii, rest);
    hide ReadChars, ReadItems, ReadFields, Quote;
    var text := Quote(s, style.ascii) + rest;
    assert text[0] == '"' && !("null" <= text) && !("true" <= text) && !("false" <= text);
  }

  lemma NumRead(text: string, style: Style, rest: string)
    requires Numbers(Num(text)) && Ends(rest)
    ensures ReadValue(Text(Num(text), style) + rest) == Some((Num(text), rest))
  {
    RunRead(text, rest);
    var s := text + rest;
    assert s[0] == text[0] && NumberChar(text[0]);
    assert "null"[0] == 'n' && "true"[0] == 't' && "false"[0] == 'f';
    assert s[0] != 'n' && s[0] != 't' && s[0] != 'f';
    hide ReadChars, ReadItems, ReadFields, NumberRun;
    assert s[..|text|] == text && s[|text|..] == rest;
  }

  /** JSON text is read as the document it was written for, in each of the styles,
      whatever comes after it. */
  lemma {:induction false} TextRead(j: Json, style: Style, rest: string)
    requires Separated(style) && Numbers(j) && Ends(rest)
    ensures ReadValue(Text(j, style) + rest) == Some((j, rest))
    decreases j, 0
  {
    match j
    case Null => WordRead(rest);
    case Bool(b) => WordRead(rest);
    case Num(text) => NumRead(text, style, rest);
    case Str(s) => StrRead(s, style, rest);
    case Arr(items) =>
      if items == [] {
        NothingRead(style, rest);
      } else {
        ItemsRead(items, style, rest);
        ArrRead(items, style, rest);
      }
    case Obj(fields) =>
      if fields == [] {
        NothingRead(style, rest);
      } else {
        FieldsRead(fields, style, rest);
        ObjRead(fields, style, rest);
      }
  }

  lemma NothingRead(style: Style, rest: string)
    ensures ReadValue(Text(Arr([]), style) + rest) == Some((Arr([]), rest))
    ensures ReadValue(Text(Obj([]), style) + rest) == Some((Obj([]), rest))
  {
    hide ReadChars, ReadItems, ReadFields;
    assert Text(Arr([]), style) == "[]" && Text(Obj([]), style) == "{}";
    assert ("[]" + rest)[0] == '[' && ("{}" + rest)[0] == '{';
    assert ("[]" + rest)[2..] == rest && ("{}" + rest)[2..] == rest;
  }

  lemma ArrRead(items: seq<Json>, style: Style, rest: string)
    requires items != [] && NumbersIn(items) && ReadItems(Items(items, style) + "]" + rest) == Some((items, rest))
    ensures ReadValue(Text(Arr(items), style) + rest) == Some((Arr(items), rest))
  {
    TextStarts(items[0], style);
    ItemsStart(items, style);
    ArrText(items, style);
    hide *;
    var text, body := Items(items, style), Items(items, style) + "]" + rest;
    Enclosed("[", text, "]", rest);
    OpenArr(body, items, rest);
  }

  lemma Enclosed(open: string, text: string, close: string, rest: string)
    requires text != ""
    ensures open + text + close + rest == open + (text + close + rest) && (text + close + rest)[0] == text[0]
  {
  }

  lemma OpenArr(body: string, items: seq<Json>, rest: string)
    requires body != "" && body[0] != ']' && ReadItems(body) == Some((items, rest))
    ensures ReadValue("[" + body) == Some((Arr(items), rest))
  {
    hide ReadChars, ReadItems, ReadFields, NumberRun;
    var s := "[" + body;
    assert s[0] == '[' && s[1] == body[0] && s[1..] == body;
    assert "null"[0] == 'n' && "true"[0] == 't' && "false"[0] == 'f' && "[]"[1] == ']';
  }

  lemma OpenObj(body: string, fields: seq<Field>, rest: string)
    requires body != "" && body[0] == '"' && ReadFields(body) == Some((fields, rest))
    ensures ReadValue("{" + body) == Some((Obj(fields), rest))
  {
    hide ReadChars, ReadItems, ReadFields, NumberRun;
    var s := "{" + body;
    assert s[0] == '{' && s[1] == body[0] && s[1..] == body;
    assert "null"[0] == 'n' && "true"[0] == 't' && "false"[0] == 'f' && "{}"[1] == '}';
  }

  lemma ArrText(items: seq<Json>, style: Style)
    ensures Text(Arr(items), style) == "[" + Items(items, style) + "]"
  {
  }

  lemma ItemsStart(items: seq<Json>, style: Style)
    requires items != [] && Text(items[0], style) != ""
    ensures Items(items, style) != "" && Items(items, style)[0] == Text(items[0], style)[0]
  {
    hide Text;
  }

  lemma ObjRead(fields: seq<Field>, style: Style, rest: string)
    requires fields != [] && ReadFields(Fields(fields, style) + "}" + rest) == Some((fields, rest))
    ensures ReadValue(Text(Obj(fields), style) + rest) == Some((Obj(fields), rest))
  {
    hide *;
    FieldsStart(fields, style);
    ObjText(fields, style);
    var text, body := Fields(fields, style), Fields(fields, style) + "}" + rest;
    Enclosed("{", text, "}", rest);
    OpenObj(body, fields, rest);
  }

  lemma ObjText(fields: seq<Field>, style: Style)
    ensures Text(Obj(fields), style) == "{" + Fields(fields, style) + "}"
  {
  }

  lemma FieldsStart(fields: seq<Field>, style: Style)
    requires fields != []
    ensures Fields(fields, style) != "" && Fields(fields, style)[0] == '"'
  {
    hide Text, Escape;
  }

  lemma {:induction false} ItemsRead(items: seq<Json>, style: Style, rest: string)
    requires items != [] && Separated(style) && NumbersIn(items)
    ensures ReadItems(Items(items, style) + "]" + rest) == Some((items, rest))
    decreases items, 1
  {
    hide *;
    var first, others := items[0], items[1..];
    var tail := if others == [] then "]" + rest else style.comma + (Items(others, style) + "]" + rest);
    var s := Items(items, style) + "]" + rest;
    ItemsTail(items, style, rest);
    ItemsNumbers(items);
    CommaEnds(style, Items(others, style) + "]" + rest, rest);
    TextRead(first, style, tail);
    if others == [] {
      assert items == [first];
      LastItem(s, first, rest);
    } else {
      ItemsRead(others, style, rest);
      ItemsNumbers(others);
      TextStarts(others[0], style);
      ItemsStart(others, style);
      MoreItems(s, first, others, style, Items(others, style) + "]" + rest, rest);
      assert items == [first] + others;
    }
  }

  lemma ItemsTail(items: seq<Json>, style: Style, rest: string)
    requires items != []
    ensures Items(items, style) + "]" + rest
         == Text(items[0], style)
            + (if items[1..] == [] then "]" + rest else style.comma + (Items(items[1..], style) + "]" + rest))
  {
    ItemsAre(items, style);
    hide *;
    var v, others := Text(items[0], style), items[1..];
    if others == [] {
      NoItems(style);
      assert v + "" + "" == v;
      Assoc(v, "]", rest);
    } else {
      Assoc(v + style.comma, Items(others, style), "]" + rest);
      Assoc(v + style.comma + Items(others, style), "]", rest);
      Assoc(Items(others, style), "]", rest);
      Assoc(v, style.comma, Items(others, style) + "]" + rest);
    }
  }

  lemma Assoc(a: string, b: string, c: string)
    ensures a + b + c == a + (b + c)
  {
  }

  lemma NoItems(style: Style)
    ensures Items([], style) == "" && Fields([], style) == ""
  {
  }

  lemma ItemsAre(items: seq<Json>, style: Style)
    requires items != []
    ensures Items(items, style) == Text(items[0], style) + (if items[1..] == [] then "" else style.comma) + Items(items[1..], style)
  {
    hide Text;
  }

  lemma ItemsNumbers(items: seq<Json>)
    requires items != [] && NumbersIn(items)
    ensures Numbers(items[0]) && NumbersIn(items[1..])
  {
    hide Numbers;
  }

  lemma FieldsNumbers(fields: seq<Field>)
    requires fields != [] && NumbersWithin(fields)
    ensures Numbers(fields[0].value) && NumbersWithin(fields[1..])
  {
    hide Numbers;
  }

  lemma CommaEnds(style: Style, more: string, rest: string)
    requires Separated(style)
    ensures Ends(style.comma + more) && Ends("]" + rest) && Ends("}" + rest)
  {
  }

  lemma LastItem(s: string, first: Json, rest: string)
    requires ReadValue(s) == Some((first, "]" + rest))
    ensures ReadItems(s) == Some(([first], rest))
  {
    hide ReadValue;
    assert ("]" + rest)[0] == ']' && ("]" + rest)[1..] == rest;
  }

  lemma MoreItems(s: string, first: Json, others: seq<Json>, style: Style, body: string, rest: string)
    requires Separated(style) && ReadValue(s) == Some((first, style.comma + body)) && body != "" && body[0] != ' '
    requires ReadItems(body) == Some((others, rest))
    ensures ReadItems(s) == Some(([first] + others, rest))
  {
    hide ReadValue, Skip;
    CommaRead(style, body);
  }

  lemma CommaRead(style: Style, body: string)
    requires Separated(style) && (body == "" || body[0] != ' ')
    ensures var tail := style.comma + body; tail[0] == ',' && Skip(tail[1..]) == body
  {
    hide Skip;
    var tail := style.comma + body;
    if style.comma == "," {
      SkipBlank(",", "", body);
      assert "," + "" + body == tail;
    } else {
      SkipBlank(",", " ", body);
      assert "," + " " + body == tail;
    }
    assert tail[0] == ',';
  }

  lemma {:induction false} FieldsRead(fields: seq<Field>, style: Style, rest: string)
    requires fields != [] && Separated(style) && NumbersWithin(fields)
    ensures ReadFields(Fields(fields, style) + "}" + rest) == Some((fields, rest))
    decreases fields, 1
  {
    hide *;
    var first, others := fields[0], fields[1..];
    var tail := if others == [] then "}" + rest else style.comma + (Fields(others, style) + "}" + rest);
    var s := Fields(fields, style) + "}" + rest;
    FieldsTail(fields, style, rest);
    FieldsNumbers(fields);
    CommaEnds(style, Fields(others, style) + "}" + rest, rest);
    TextRead(first.value, style, tail);
    QuoteRead(first.name, style.ascii, style.colon + (Text(first.value, style) + tail));
    TextStarts(first.value, style);
    if others == [] {
      assert fields == [first];
      LastField(s, first, style, Text(first.value, style) + tail, rest);
    } else {
      FieldsRead(others, style, rest);
      FieldsStart(others, style);
      MoreFields(s, first, others, style, Text(first.value, style) + tail, Fields(others, style) + "}" + rest, rest);
      assert fields == [first] + others;
    }
  }

  lemma FieldsTail(fields: seq<Field>, style: Style, rest: string)
    requires fields != []
    ensures Fields(fields, style) + "}" + rest
         == Quote(fields[0].name, style.ascii)
            + (style.colon
               + (Text(fields[0].value, style)
                  + (if fields[1..] == [] then "}" + rest else style.comma + (Fields(fields[1..], style) + "}" + rest))))
  {
    FieldsAre(fields, style);
    hide *;
    var q, v, others := Quote(fields[0].name, style.ascii), Text(fields[0].value, style), fields[1..];
    var head := q + style.colon + v;
    if others == [] {
      NoItems(style);
      assert head + "" + "" == head;
      Assoc(head, "}", rest);
      Assoc(q + style.colon, v, "}" + rest);
      Assoc(q, style.colon, v + ("}" + rest));
    } else {
      var f := Fields(others, style);
      Assoc(head + style.comma, f, "}" + rest);
      Assoc(head + style.comma + f, "}", rest);
      Assoc(f, "}", rest);
      Assoc(head, style.comma, f + "}" + rest);
      Assoc(q + style.colon, v, style.comma + (f + "}" + rest));
      Assoc(q, style.colon, v + (style.comma + (f + "}" + rest)));
    }
  }

  lemma FieldsAre(fields: seq<Field>, style: Style)
    requires fields != []
    ensures Fields(fields, style)
         == Quote(fields[0].name, style.ascii) + style.colon + Text(fields[0].value, style)
            + (if fields[1..] == [] then "" else style.comma) + Fields(fields[1..], style)
  {
    hide Text, Quote;
  }

  /** The name, the colon, and where the value begins. */
  lemma NameRead(s: string, first: Field, style: Style, value: string)
    requires Separated(style) && s != "" && s[0] == '"' && ReadChars(s[1..]) == Some((first.name, style.colon + value))
    requires value != "" && value[0] != ' '
    ensures (style.colon + value)[0] == ':' && Skip((style.colon + value)[1..]) == value
  {
    hide ReadChars, Skip;
    if style.colon == ":" {
      SkipBlank(":", "", value);
      assert ":" + "" + value == style.colon + value;
    } else {
      SkipBlank(":", " ", value);
      assert ":" + " " + value == style.colon + value;
    }
  }

  lemma LastField(s: string, first: Field, style: Style, value: string, rest: string)
    requires Separated(style) && s != "" && s[0] == '"' && ReadChars(s[1..]) == Some((first.name, style.colon + value))
    requires value != "" && value[0] != ' ' && ReadValue(value) == Some((first.value, "}" + rest))
    ensures ReadFields(s) == Some(([first], rest))
  {
    NameRead(s, first, style, value);
    hide ReadChars, ReadValue, Skip;
    assert ("}" + rest)[0] == '}' && ("}" + rest)[1..] == rest;
  }

  lemma MoreFields(s: string, first: Field, others: seq<Field>, style: Style, value: string, body: string, rest: string)
    requires Separated(style) && s != "" && s[0] == '"' && ReadChars(s[1..]) == Some((first.name, style.colon + value))
    requires value != "" && value[0] != ' ' && ReadValue(value) == Some((first.value, style.comma + body))
    requires body != "" && body[0] != ' ' && ReadFields(body) == Some((others, rest))
    ensures ReadFields(s) == Some(([first] + others, rest))
  {
    NameRead(s, first, style, value);
    CommaRead(style, body);
    hide ReadChars, ReadValue, Skip, Separated;
  }

  /** Two documents with the same text are the same. */
  lemma TextOnce(a: Json, b: Json, style: Style)
    requires Separated(style) && Numbers(a) && Numbers(b) && Text(a, style) == Text(b, style)
    ensures a == b
  {
    TextRead(a, style, "");
    TextRead(b, style, "");
    hide ReadValue, Text, Numbers;
  }
}
