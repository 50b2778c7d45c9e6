/** One log line as JSON, truncated until it fits. */
module Rendering {
  import opened Basics
  import opened Sources
  import opened Json
  import opened States

  const LINE_LIMIT := 16384
  const RULE_VERSION := "2026-11-05.2"

  /** datetime stops at the end of the year 9999. */
  const END_OF_TIME: nat := 253402300800000000000

  datatype Entry = Entry(
    message: string, source: string, bootstrap: bool, observedAt: string,
    sourceTime: Option<string>, truncated: bool)

  function Optional(s: Option<string>): Json {
    if s.Some? then Str(s.value) else Null
  }

  function OtherFields(e: Entry): seq<Field> {
    [Field("source_file", Str(e.source)), Field("bootstrap", Bool(e.bootstrap)),
     Field("observed_at", Str(e.observedAt)), Field("source_time", Optional(e.sourceTime)),
     Field("filter_version", Str(RULE_VERSION))]
    + (if e.truncated then [Field("truncated", Bool(true))] else [])
  }

  function EntryJson(e: Entry): Json {
    Obj([Field("message", Str(e.message))] + OtherFields(e))
  }

  predicate Fits(e: Entry) {
    Dumped(EntryJson(e), READABLE) <= LINE_LIMIT
  }

  /** One turn of the truncation loop: keep half of the message, at least one
      character. */
  function Halve(e: Entry): Entry {
    e.(message := e.message[..Min(Max(1, |e.message| / 2), |e.message|)], truncated := true)
  }

  /** The object after n turns. */
  function Turns(e: Entry, n: nat): Entry {
    if n == 0 then e else Halve(Turns(e, n - 1))
  }

  /** The smallest object the loop can reach. */
  function Smallest(e: Entry): Entry {
    e.(message := e.message[..Min(1, |e.message|)], truncated := true)
  }

  /** The truncation loop. A turn that changes nothing repeats for ever. */
  function Shrink(e: Entry): Outcome<Entry>
    decreases |e.message|, !e.truncated
  {
    if Fits(e) then Returned(e)
    else if Halve(e) == e then Diverged
    else Shrink(Halve(e))
  }

  function StripEnd(s: string): string {
    if s != "" && (s[|s| - 1] == '\r' || s[|s| - 1] == '\n') then StripEnd(s[..|s| - 1]) else s
  }

  function Message(rules: Rules, raw: bytes): string {
    StripEnd(rules.decode(raw))
  }

  // ---------------------------------------------------------- source time

  const STAMP := "dddd-dd-dd dd:dd:dd"

  predicate StampChar(decimal: char -> bool, pattern: char, c: char) {
    if pattern == 'd' then decimal(c)
    else if pattern == '-' then c == '-' || c == '/'
    else c == pattern
  }

  /** A date and time at the start of s. */
  predicate StampAt(decimal: char -> bool, s: string) {
    |s| >= |STAMP| && forall i | 0 <= i < |STAMP| :: StampChar(decimal, STAMP[i], s[i])
  }

  function DigitRun(s: string): (n: nat)
    ensures n <= |s|
  {
    if s != "" && '0' <= s[0] <= '9' then 1 + DigitRun(s[1..]) else 0
  }

  /** The optional fraction: a point and as many digits as there are. */
  function FractionLength(s: string): (n: nat)
    ensures n <= |s|
  {
    if s == "" || s[0] != '.' || DigitRun(s[1..]) == 0 then 0 else 1 + DigitRun(s[1..])
  }

  /** The leftmost date and time in a message. */
  function FindStamp(decimal: char -> bool, s: string): Option<string> {
    if StampAt(decimal, s) then Some(s[..|STAMP| + FractionLength(s[|STAMP|..])])
    else if s == "" then None
    else FindStamp(decimal, s[1..])
  }

  function SourceTime(rules: Rules, message: string): Option<string> {
    match FindStamp(rules.decimal, message)
    case None => None
    case Some(stamp) => Some(stamp + " JST")
  }

  // ---------------------------------------------------------------- entry

  function Full(rules: Rules, kind: Kind, raw: bytes, bootstrap: bool, ns: nat): Entry {
    var message := Message(rules, raw);
    Entry(message, File(kind), bootstrap, rules.isoformat(ns), SourceTime(rules, message), false)
  }

  /** entry(): the severity and the compact JSON line. */
  function Render(rules: Rules, kind: Kind, raw: bytes, bootstrap: bool, ns: nat): Outcome<(Level, string)> {
    if ns >= END_OF_TIME then Raised
    else
      match Shrink(Full(rules, kind, raw, bootstrap, ns))
      case Returned(e) => Returned((rules.severity(kind, Message(rules, raw)), Text(EntryJson(e), COMPACT)))
      case Raised => Raised
      case Diverged => Diverged
  }

  method RenderEntry(rules: Rules, kind: Kind, raw: bytes, bootstrap: bool, ns: nat)
    returns (r: Outcome<(Level, string)>)
    ensures r == Render(rules, kind, raw, bootstrap, ns)
  {
    hide Message, FindStamp, Fits, Text, EntryJson;
    var message := Message(rules, raw);
    var stamp := FindStamp(rules.decimal, message);
    if ns >= END_OF_TIME {
      return Raised;
    }
    var sourceTime := if stamp.Some? then Some(stamp.value + " JST") else None;
    var obj := Entry(message, File(kind), bootstrap, rules.isoformat(ns), sourceTime, false);
    var level := rules.severity(kind, message);
    while !Fits(obj)
      invariant Shrink(Full(rules, kind, raw, bootstrap, ns)) == Shrink(obj)
      decreases |obj.message|, !obj.truncated
    {
      var before := obj;
      obj := obj.(message := obj.message[..Min(Max(1, |obj.message| / 2), |obj.message|)]);
      obj := obj.(truncated := true);
      if obj == before {
        return Diverged;
      }
    }
    return Returned((level, Text(EntryJson(obj), COMPACT)));
  }

  // ----------------------------------------------------------- truncation

  lemma EntrySize(e: Entry)
    ensures Dumped(EntryJson(e), READABLE)
         == 17 + Size(Escape(e.message, false)) + Size(Fields(OtherFields(e), READABLE))
  {
    var fields := [Field("message", Str(e.message))] + OtherFields(e);
    assert fields[1..] == OtherFields(e);
    FieldsSize(fields, READABLE);
    Bracketed("{", Fields(fields, READABLE), "}");
    QuoteSizes(e.message, false);
    SmallSizes();
  }

  lemma SmallSizes()
    ensures Size("{") == Size("}") == Size(",") == Size(":") == 1
    ensures Size(", ") == Size(": ") == 2
    ensures Size(Quote("message", false)) == 9
  {
    hide Size, Quote;
    AsciiSize("{");
    AsciiSize("}");
    AsciiSize(",");
    AsciiSize(":");
    AsciiSize(", ");
    AsciiSize(": ");
    MessageSize();
  }

  lemma MessageSize()
    ensures Size(Quote("message", false)) == 9
  {
    hide Size, Quote, Escape;
    AsciiSize("message");
    Plain("message");
    QuoteSizes("message", false);
  }

  /** Names and labels need no escaping. */
  lemma {:induction false} Plain(s: string)
    requires forall i | 0 <= i < |s| :: 'a' <= s[i] <= 'z' || s[i] == '_' || s[i] == '-'
    ensures Escape(s, false) == s && Escape(s, true) == s
  {
    if s != "" {
      Plain(s[1..]);
      assert s == [s[0]] + s[1..];
    }
  }

  lemma {:induction false} EscapePrefix(a: string, b: string)
    requires a <= b
    ensures Size(Escape(a, false)) <= Size(Escape(b, false))
  {
    if a != "" {
      EscapePrefix(a[1..], b[1..]);
      SizeAppend(EscapeChar(a[0], false), Escape(a[1..], false));
      SizeAppend(EscapeChar(b[0], false), Escape(b[1..], false));
    }
  }

  /** A shorter message never needs more bytes. */
  lemma Shorter(a: Entry, b: Entry)
    requires a.message <= b.message && a == b.(message := a.message)
    ensures Fits(b) ==> Fits(a)
  {
    EntrySize(a);
    EntrySize(b);
    EscapePrefix(a.message, b.message);
  }

  /** After any turn the object is the input with a prefix of its message, and
      the smallest object stays below it. */
  lemma {:induction false} TurnsShape(e: Entry, n: nat)
    requires n > 0
    ensures var t := Turns(e, n);
            && t == e.(message := t.message, truncated := true)
            && t.message <= e.message
            && Smallest(e).message <= t.message
            && Smallest(t) == Smallest(e)
  {
    if n > 1 {
      TurnsShape(e, n - 1);
    }
  }

  lemma {:induction false} TurnsAfter(e: Entry, n: nat)
    ensures Turns(Halve(e), n) == Turns(e, n + 1)
  {
    if n > 0 {
      TurnsAfter(e, n - 1);
    }
  }

  /** What the loop returns is the first object that fits. */
  lemma {:induction false} ShrinkIsFirstFit(e: Entry) returns (n: nat)
    requires Shrink(e).Returned?
    ensures Shrink(e).value == Turns(e, n) && Fits(Turns(e, n))
    ensures forall k | 0 <= k < n :: !Fits(Turns(e, k))
    decreases |e.message|, !e.truncated
  {
    if Fits(e) {
      n := 0;
    } else {
      var m := ShrinkIsFirstFit(Halve(e));
      TurnsAfter(e, m);
      n := m + 1;
      forall k | 0 <= k < n
        ensures !Fits(Turns(e, k))
      {
        if k > 0 {
          TurnsAfter(e, k - 1);
        }
      }
    }
  }

  lemma {:induction false} ShrinkNeverEnds(e: Entry, n: nat)
    requires Shrink(e).Diverged?
    ensures !Fits(Turns(e, n))
    decreases n
  {
    if n > 0 {
      TurnsAfter(e, n - 1);
      if Halve(e) == e {
        ShrinkNeverEnds(e, n - 1);
      } else {
        ShrinkNeverEnds(Halve(e), n - 1);
      }
    }
  }

  lemma {:induction false} ShrinkReachesSmallest(e: Entry)
    ensures !Shrink(e).Raised?
    ensures Fits(Smallest(e)) ==> Shrink(e).Returned?
    decreases |e.message|, !e.truncated
  {
    if !Fits(e) {
      if Halve(e) == e {
        assert |e.message| <= 1;
        assert Smallest(e) == e;
      } else {
        ShrinkReachesSmallest(Halve(e));
        assert Smallest(Halve(e)).message == Smallest(e).message;
      }
    }
  }

  /** Truncation ends exactly when the object fits as it is, or would fit with
      at most one character of its message; it then returns the first object
      that fits, and otherwise it halves for ever. */
  lemma TruncationEnds(e: Entry)
    ensures Shrink(e).Returned? || Shrink(e).Diverged?
    ensures Shrink(e).Returned? <==> Fits(e) || Fits(Smallest(e))
    ensures Shrink(e).Returned? <==> exists n: nat :: Fits(Turns(e, n))
    ensures Shrink(e).Returned? ==>
              var r := Shrink(e).value;
              Fits(r) && r.message <= e.message && (r == e || r == e.(message := r.message, truncated := true))
  {
    ShrinkReachesSmallest(e);
    match Shrink(e)
    case Returned(r) =>
      var n := ShrinkIsFirstFit(e);
      if n > 0 {
        TurnsShape(e, n);
        Shorter(Smallest(e), Turns(e, n));
      }
    case Diverged =>
      forall n: nat
        ensures !Fits(Turns(e, n))
      {
        ShrinkNeverEnds(e, n);
      }
      assert Fits(e) == Fits(Turns(e, 0));
  }

  /** A rendered line is within the limit. */
  lemma RenderedFits(rules: Rules, kind: Kind, raw: bytes, bootstrap: bool, ns: nat)
    requires Render(rules, kind, raw, bootstrap, ns).Returned?
    ensures Size(Render(rules, kind, raw, bootstrap, ns).value.1) <= LINE_LIMIT
    ensures ns < END_OF_TIME
  {
    var e := Full(rules, kind, raw, bootstrap, ns);
    TruncationEnds(e);
    SmallSizes();
    assert Size(",") == Size(":") == 1;
    NarrowerStyle(EntryJson(Shrink(e).value), COMPACT, READABLE);
  }

  lemma {:induction false} FieldWithin(fields: seq<Field>, k: nat, style: Style)
    requires k < |fields|
    ensures Dumped(fields[k].value, style) <= Size(Fields(fields, style))
  {
    FieldsSize(fields, style);
    if k > 0 {
      FieldWithin(fields[1..], k - 1, style);
    }
  }

  /** A source time over the limit keeps the object too large on its own. */
  lemma LongSourceTime(e: Entry)
    requires e.sourceTime.Some? && |e.sourceTime.value| > LINE_LIMIT
    ensures !Fits(e)
  {
    EntrySize(e);
    FieldWithin(OtherFields(e), 3, READABLE);
    QuoteSizes(e.sourceTime.value, false);
    EscapeLonger(e.sourceTime.value);
    SizeAtLeastLength(Escape(e.sourceTime.value, false));
  }

  lemma {:induction false} EscapeLonger(s: string)
    ensures |Escape(s, false)| >= |s|
  {
    if s != "" {
      EscapeLonger(s[1..]);
    }
  }

  function Zeros(n: nat): (s: string)
    ensures |s| == n && forall i | 0 <= i < n :: s[i] == '0'
  {
    seq(n, _ => '0')
  }

  lemma {:induction false} DigitRunZeros(n: nat)
    ensures DigitRun(Zeros(n)) == n
  {
    if n > 0 {
      DigitRunZeros(n - 1);
      assert Zeros(n)[1..] == Zeros(n - 1);
    }
  }

  const MIDNIGHT := "2026-01-01 00:00:00"

  lemma StampOfLongFraction(decimal: char -> bool, digits: nat)
    requires forall c | '0' <= c <= '9' :: decimal(c)
    requires digits > 0
    ensures var message := MIDNIGHT + "." + Zeros(digits);
            FindStamp(decimal, message) == Some(message)
  {
    var message := MIDNIGHT + "." + Zeros(digits);
    assert StampAt(decimal, message) by {
      assert forall i | 0 <= i < |STAMP| :: message[i] == MIDNIGHT[i];
    }
    var rest := message[|STAMP|..];
    assert rest == "." + Zeros(digits);
    assert rest[1..] == Zeros(digits);
    DigitRunZeros(digits);
    assert FractionLength(rest) == 1 + digits;
    assert message[..|message|] == message;
  }

  /** The condition is not automatic: the fraction of a source time has no
      bound, so one line with enough digits keeps the loop running for ever. */
  lemma LongFractionNeverEnds(rules: Rules, kind: Kind, raw: bytes, bootstrap: bool, ns: nat, digits: nat)
    requires forall c | '0' <= c <= '9' :: rules.decimal(c)
    requires rules.decode(raw) == MIDNIGHT + "." + Zeros(digits)
    requires digits >= LINE_LIMIT && ns < END_OF_TIME
    ensures Render(rules, kind, raw, bootstrap, ns) == Diverged
  {
    var message := rules.decode(raw);
    assert message[|message| - 1] == '0';
    StampOfLongFraction(rules.decimal, digits);
    assert |message| >= LINE_LIMIT;
    hide FindStamp, Shrink, Fits, Zeros, MIDNIGHT;
    var e := Full(rules, kind, raw, bootstrap, ns);
    assert e.sourceTime == Some(message + " JST");
    LongSourceTime(e);
    LongSourceTime(Smallest(e));
    TruncationEnds(e);
  }

  // ------------------------------------------------ what a rendered line says

  predicate LineEnd(c: char) {
    c == '\r' || c == '\n'
  }

  /** The text is the whole without the line ends at its end. */
  ghost predicate Without(whole: string, text: string) {
    && text <= whole && (forall i | |text| <= i < |whole| :: LineEnd(whole[i]))
    && (text != "" ==> !LineEnd(text[|text| - 1]))
  }

  lemma {:induction false} StripEndIs(s: string)
    ensures Without(s, StripEnd(s))
  {
    if s != "" && LineEnd(s[|s| - 1]) {
      StripEndIs(s[..|s| - 1]);
    }
  }

  lemma WithoutUnique(whole: string, a: string, b: string)
    requires Without(whole, a) && Without(whole, b)
    ensures a == b
  {
    NoLonger(whole, a, b);
    NoLonger(whole, b, a);
  }

  lemma NoLonger(whole: string, a: string, b: string)
    requires Without(whole, a) && Without(whole, b)
    ensures |b| <= |a|
  {
    if b != "" {
      assert whole[|b| - 1] == b[|b| - 1];
    }
  }

  /** dddd-dd-dd dd:dd:dd, or with slashes in the date. */
  ghost predicate Dated(decimal: char -> bool, s: string) {
    && |s| >= 19
    && decimal(s[0]) && decimal(s[1]) && decimal(s[2]) && decimal(s[3]) && s[4] in {'-', '/'}
    && decimal(s[5]) && decimal(s[6]) && s[7] in {'-', '/'} && decimal(s[8]) && decimal(s[9]) && s[10] == ' '
    && decimal(s[11]) && decimal(s[12]) && s[13] == ':' && decimal(s[14]) && decimal(s[15]) && s[16] == ':'
    && decimal(s[17]) && decimal(s[18])
  }

  predicate Figure(c: char) {
    '0' <= c <= '9'
  }

  /** Where a date and time ends: after the seconds, or after a point and all the
      digits behind it. */
  ghost predicate EndsAt(s: string, n: nat) {
    && 19 <= n <= |s|
    && if n == 19 then !(|s| > 20 && s[19] == '.' && Figure(s[20]))
       else n > 20 && s[19] == '.' && (forall k | 20 <= k < n :: Figure(s[k])) && (n < |s| ==> !Figure(s[n]))
  }

  /** The first date and time in a message, or None. */
  ghost predicate FirstStamp(decimal: char -> bool, message: string, stamp: Option<string>) {
    match stamp
    case None => forall i | 0 <= i <= |message| :: !Dated(decimal, message[i..])
    case Some(text) =>
      exists i: nat, n: nat :: StampSpan(decimal, message, i, n) && text == message[i..i + n]
  }

  ghost predicate StampSpan(decimal: char -> bool, message: string, i: nat, n: nat) {
    && i + n <= |message| && Dated(decimal, message[i..]) && EndsAt(message[i..], n)
    && forall j | 0 <= j < i :: !Dated(decimal, message[j..])
  }

  lemma DatedIs(decimal: char -> bool, s: string)
    ensures StampAt(decimal, s) <==> Dated(decimal, s)
  {
    if |s| >= |STAMP| {
      forall i | 0 <= i < |STAMP|
        ensures StampChar(decimal, STAMP[i], s[i])
           <==> if i in {4, 7} then s[i] in {'-', '/'} else if i in {13, 16} then s[i] == ':' else if i == 10 then s[i] == ' ' else decimal(s[i])
      {
      }
      if Dated(decimal, s) {
        forall i | 0 <= i < |STAMP|
          ensures StampChar(decimal, STAMP[i], s[i])
        {
        }
      }
    }
  }

  lemma {:induction false} RunIs(s: string)
    ensures (forall k | 0 <= k < DigitRun(s) :: Figure(s[k])) && (DigitRun(s) < |s| ==> !Figure(s[DigitRun(s)]))
  {
    if s != "" && Figure(s[0]) {
      RunIs(s[1..]);
      assert forall k | 0 < k < DigitRun(s) :: s[k] == s[1..][k - 1];
    }
  }

  lemma FractionEnds(s: string)
    requires |s| >= 19
    ensures EndsAt(s, 19 + FractionLength(s[19..]))
  {
    var rest := s[19..];
    if rest != "" && rest[0] == '.' {
      RunIs(rest[1..]);
      var d := DigitRun(rest[1..]);
      assert forall k | 20 <= k < 20 + d :: s[k] == rest[1..][k - 20];
      assert d > 0 || |rest[1..]| == 0 || !Figure(rest[1..][0]);
    }
  }

  lemma EndUnique(s: string, a: nat, b: nat)
    requires EndsAt(s, a) && EndsAt(s, b)
    ensures a == b
  {
    EndNoLater(s, a, b);
    EndNoLater(s, b, a);
  }

  lemma EndNoLater(s: string, a: nat, b: nat)
    requires EndsAt(s, a) && EndsAt(s, b)
    ensures b <= a
  {
    if 19 < a < |s| {
      assert !Figure(s[a]);
    }
    if b > 20 {
      assert Figure(s[20]);
    }
  }

  /** A stamp that is not at the start of a message is that of the rest. */
  lemma StampLater(decimal: char -> bool, message: string, stamp: Option<string>)
    requires message != "" && !Dated(decimal, message) && FirstStamp(decimal, message[1..], stamp)
    ensures FirstStamp(decimal, message, stamp)
  {
    hide Dated, EndsAt;
    var rest := message[1..];
    assert message[0..] == message;
    forall j | 1 <= j <= |message|
      ensures message[j..] == rest[j - 1..]
    {
    }
    if stamp.Some? {
      var i: nat, n: nat :| StampSpan(decimal, rest, i, n) && stamp.value == rest[i..i + n];
      assert StampSpan(decimal, message, i + 1, n) && message[i + 1..i + 1 + n] == rest[i..i + n];
    }
  }

  lemma StampHere(decimal: char -> bool, message: string)
    requires Dated(decimal, message)
    ensures |message| >= 19 && FirstStamp(decimal, message, Some(message[..19 + FractionLength(message[19..])]))
  {
    DatedLong(decimal, message);
    FractionEnds(message);
    hide Dated, EndsAt, FractionLength;
    var n := 19 + FractionLength(message[19..]);
    assert message[0..] == message;
    assert StampSpan(decimal, message, 0, n) && message[0..0 + n] == message[..n];
  }

  lemma NoStamp(decimal: char -> bool)
    ensures FirstStamp(decimal, "", None)
  {
  }

  lemma {:induction false} StampIs(decimal: char -> bool, message: string)
    ensures FirstStamp(decimal, message, FindStamp(decimal, message))
  {
    DatedIs(decimal, message);
    hide Dated, StampAt, FirstStamp, FractionLength;
    if StampAt(decimal, message) {
      StampHere(decimal, message);
    } else if message == "" {
      NoStamp(decimal);
    } else {
      StampIs(decimal, message[1..]);
      StampLater(decimal, message, FindStamp(decimal, message[1..]));
    }
  }

  lemma DatedLong(decimal: char -> bool, s: string)
    ensures Dated(decimal, s) ==> |s| >= 19
  {
  }

  lemma StampUnique(decimal: char -> bool, message: string, a: Option<string>, b: Option<string>)
    requires FirstStamp(decimal, message, a) && FirstStamp(decimal, message, b)
    ensures a == b
  {
    hide Dated, EndsAt;
    if a.Some? && b.Some? {
      var i: nat, n: nat :| StampSpan(decimal, message, i, n) && a.value == message[i..i + n];
      var j: nat, m: nat :| StampSpan(decimal, message, j, m) && b.value == message[j..j + m];
      assert i == j;
      EndUnique(message[i..], n, m);
    }
  }

  /** How long a message is after n halvings. */
  function HalfLength(length: nat, n: nat): (r: nat)
    ensures r <= length
  {
    if n == 0 then length
    else
      var before := HalfLength(length, n - 1);
      if before <= 1 then before else before / 2
  }

  /** The object of a record whose message was halved n times. */
  function Document(message: string, n: nat, file: string, bootstrap: bool, observed: string, stamp: Option<string>): Json {
    Obj([Field("message", Str(message[..HalfLength(|message|, n)])), Field("source_file", Str(file)),
         Field("bootstrap", Bool(bootstrap)), Field("observed_at", Str(observed)),
         Field("source_time", if stamp.Some? then Str(stamp.value + " JST") else Null),
         Field("filter_version", Str("2026-11-05.2"))]
        + if n > 0 then [Field("truncated", Bool(true))] else [])
  }

  /** Its size in the readable style is within the limit. */
  predicate Small(j: Json) {
    Dumped(j, READABLE) <= 16384
  }

  function DocumentOf(rules: Rules, kind: Kind, bootstrap: bool, ns: nat, text: string, stamp: Option<string>, n: nat): Json {
    Document(text, n, File(kind), bootstrap, rules.isoformat(ns), stamp)
  }

  /** n halvings are needed, and are enough. */
  ghost predicate FirstSmall(rules: Rules, kind: Kind, bootstrap: bool, ns: nat, text: string, stamp: Option<string>, n: nat) {
    && Small(DocumentOf(rules, kind, bootstrap, ns, text, stamp, n))
    && forall k | 0 <= k < n :: !Small(DocumentOf(rules, kind, bootstrap, ns, text, stamp, k))
  }

  /** The line is that of this record: the compact text of an object with the
      decoded record without its line end as the message, its first date and
      time, file, and the time it was observed. The message is whole if the object
      is small enough, and else halved as often as that needs. */
  ghost predicate Tells(rules: Rules, kind: Kind, raw: bytes, bootstrap: bool, ns: nat, level: Level, line: string) {
    exists text, stamp, n: nat :: TellsBy(rules, kind, raw, bootstrap, ns, level, line, text, stamp, n)
  }

  ghost predicate TellsBy(rules: Rules, kind: Kind, raw: bytes, bootstrap: bool, ns: nat, level: Level, line: string,
                          text: string, stamp: Option<string>, n: nat) {
    && ns < 253402300800 * 1000000000
    && Without(rules.decode(raw), text) && FirstStamp(rules.decimal, text, stamp)
    && FirstSmall(rules, kind, bootstrap, ns, text, stamp, n)
    && level == rules.severity(kind, text)
    && line == Text(DocumentOf(rules, kind, bootstrap, ns, text, stamp, n), COMPACT)
  }

  lemma {:induction false} TurnsAre(e: Entry, n: nat)
    requires !e.truncated
    ensures Turns(e, n) == e.(message := e.message[..HalfLength(|e.message|, n)], truncated := n > 0)
  {
    if n > 0 {
      TurnsAre(e, n - 1);
      var before := HalfLength(|e.message|, n - 1);
      assert e.message[..before][..HalfLength(|e.message|, n)] == e.message[..HalfLength(|e.message|, n)];
    } else {
      assert e.message[..|e.message|] == e.message;
    }
  }

  /** The object of the loop after n turns. */
  lemma TurnDocument(rules: Rules, kind: Kind, raw: bytes, bootstrap: bool, ns: nat, text: string, stamp: Option<string>, n: nat)
    requires Without(rules.decode(raw), text) && FirstStamp(rules.decimal, text, stamp)
    ensures var document := DocumentOf(rules, kind, bootstrap, ns, text, stamp, n);
            var turn := Turns(Full(rules, kind, raw, bootstrap, ns), n);
            EntryJson(turn) == document && (Fits(turn) <==> Small(document))
  {
    hide Turns, FindStamp, FirstStamp, Without, StripEnd, Dumped, File;
    StripEndIs(rules.decode(raw));
    WithoutUnique(rules.decode(raw), text, StripEnd(rules.decode(raw)));
    StampIs(rules.decimal, text);
    StampUnique(rules.decimal, text, stamp, FindStamp(rules.decimal, text));
    TurnsAre(Full(rules, kind, raw, bootstrap, ns), n);
  }

  predicate FitsAfter(e: Entry, n: nat) {
    Fits(Turns(e, n))
  }

  /** The first turn after which the object fits. */
  ghost predicate FirstFit(e: Entry, n: nat) {
    FitsAfter(e, n) && forall k: nat | k < n :: !FitsAfter(e, k)
  }

  lemma FirstFitIs(e: Entry, n: nat)
    requires Fits(Turns(e, n)) && forall k | 0 <= k < n :: !Fits(Turns(e, k))
    ensures FirstFit(e, n)
  {
    hide Turns, Fits;
  }

  lemma FirstTurn(rules: Rules, kind: Kind, raw: bytes, bootstrap: bool, ns: nat, text: string, stamp: Option<string>, n: nat)
    requires Without(rules.decode(raw), text) && FirstStamp(rules.decimal, text, stamp)
    ensures FirstSmall(rules, kind, bootstrap, ns, text, stamp, n) <==> FirstFit(Full(rules, kind, raw, bootstrap, ns), n)
  {
    hide Full, FitsAfter, FirstStamp, Without, DocumentOf, Small;
    forall k: nat
      ensures FitsAfter(Full(rules, kind, raw, bootstrap, ns), k) <==> Small(DocumentOf(rules, kind, bootstrap, ns, text, stamp, k))
    {
      TurnFits(rules, kind, raw, bootstrap, ns, text, stamp, k);
    }
  }

  lemma TurnFits(rules: Rules, kind: Kind, raw: bytes, bootstrap: bool, ns: nat, text: string, stamp: Option<string>, n: nat)
    requires Without(rules.decode(raw), text) && FirstStamp(rules.decimal, text, stamp)
    ensures FitsAfter(Full(rules, kind, raw, bootstrap, ns), n) <==> Small(DocumentOf(rules, kind, bootstrap, ns, text, stamp, n))
  {
    TurnDocument(rules, kind, raw, bootstrap, ns, text, stamp, n);
    hide Full, Fits, FirstStamp, Without, DocumentOf, Small, Turns;
  }

  lemma RenderIs(rules: Rules, kind: Kind, raw: bytes, bootstrap: bool, ns: nat)
    ensures Render(rules, kind, raw, bootstrap, ns).Returned? <==> ns < END_OF_TIME && Shrink(Full(rules, kind, raw, bootstrap, ns)).Returned?
    ensures Render(rules, kind, raw, bootstrap, ns).Returned? ==>
              Render(rules, kind, raw, bootstrap, ns).value
              == (rules.severity(kind, StripEnd(rules.decode(raw))), Text(EntryJson(Shrink(Full(rules, kind, raw, bootstrap, ns)).value), COMPACT))
  {
    hide Shrink, Full, Text, EntryJson, StripEnd;
  }

  /** Exactly which line and which level a record is rendered as. */
  lemma RenderIff(rules: Rules, kind: Kind, raw: bytes, bootstrap: bool, ns: nat, level: Level, line: string)
    ensures Render(rules, kind, raw, bootstrap, ns) == Returned((level, line))
       <==> Tells(rules, kind, raw, bootstrap, ns, level, line)
  {
    if Render(rules, kind, raw, bootstrap, ns) == Returned((level, line)) {
      RenderTells(rules, kind, raw, bootstrap, ns, level, line);
    }
    forall text, stamp, n: nat | TellsBy(rules, kind, raw, bootstrap, ns, level, line, text, stamp, n)
      ensures Render(rules, kind, raw, bootstrap, ns) == Returned((level, line))
    {
      TellsRender(rules, kind, raw, bootstrap, ns, level, line, text, stamp, n);
    }
    hide Render, TellsBy;
  }

  lemma RenderTells(rules: Rules, kind: Kind, raw: bytes, bootstrap: bool, ns: nat, level: Level, line: string)
    requires Render(rules, kind, raw, bootstrap, ns) == Returned((level, line))
    ensures Tells(rules, kind, raw, bootstrap, ns, level, line)
  {
    hide *;
    var text := StripEnd(rules.decode(raw));
    var stamp := FindStamp(rules.decimal, text);
    StripEndIs(rules.decode(raw));
    StampIs(rules.decimal, text);
    RenderIs(rules, kind, raw, bootstrap, ns);
    var n := ShrinkIsFirstFit(Full(rules, kind, raw, bootstrap, ns));
    FirstFitIs(Full(rules, kind, raw, bootstrap, ns), n);
    FirstTurn(rules, kind, raw, bootstrap, ns, text, stamp, n);
    TurnDocument(rules, kind, raw, bootstrap, ns, text, stamp, n);
    ToldBy(rules, kind, raw, bootstrap, ns, level, line, text, stamp, n);
  }

  lemma ToldBy(rules: Rules, kind: Kind, raw: bytes, bootstrap: bool, ns: nat, level: Level, line: string,
               text: string, stamp: Option<string>, n: nat)
    requires ns < END_OF_TIME && Without(rules.decode(raw), text) && FirstStamp(rules.decimal, text, stamp)
    requires FirstSmall(rules, kind, bootstrap, ns, text, stamp, n) && level == rules.severity(kind, text)
    requires line == Text(DocumentOf(rules, kind, bootstrap, ns, text, stamp, n), COMPACT)
    ensures Tells(rules, kind, raw, bootstrap, ns, level, line)
  {
    hide Without, FirstStamp, FirstSmall, Text, DocumentOf;
    assert TellsBy(rules, kind, raw, bootstrap, ns, level, line, text, stamp, n);
  }

  lemma TellsRender(rules: Rules, kind: Kind, raw: bytes, bootstrap: bool, ns: nat, level: Level, line: string,
                    text: string, stamp: Option<string>, n: nat)
    requires TellsBy(rules, kind, raw, bootstrap, ns, level, line, text, stamp, n)
    ensures Render(rules, kind, raw, bootstrap, ns) == Returned((level, line))
  {
    hide Message, Shrink, Turns, Full, Fits, FirstStamp, Without, DocumentOf, Small, EntryJson, Text, FirstSmall, StripEnd, Render;
    StripEndIs(rules.decode(raw));
    WithoutUnique(rules.decode(raw), text, StripEnd(rules.decode(raw)));
    var full := Full(rules, kind, raw, bootstrap, ns);
    FirstTurn(rules, kind, raw, bootstrap, ns, text, stamp, n);
    TruncationEnds(full);
    assert FitsAfter(full, n) && Fits(Turns(full, n));
    var m := ShrinkIsFirstFit(full);
    FirstFitIs(full, m);
    assert m == n;
    TurnDocument(rules, kind, raw, bootstrap, ns, text, stamp, n);
    RenderIs(rules, kind, raw, bootstrap, ns);
  }
}
