/** The SMART snapshot: its text, and what the text describes. */
module SmartSnapshot {
  import opened Basics
  import opened Texts
  import opened Decimal

  const BAYS := {1, 2, 3, 4}
  const FAULT_ATTRIBUTES: set<int> := {5, 10, 184, 187, 188, 191, 197, 198, 199}
  const TEMPERATURE := 194
  const MAX_BYTES := 65536
  const LARGEST := 0x1F_FFFF_FFFF_FFFF

  predicate Hex64(id: string) {
    |id| == 64 && forall i | 0 <= i < |id| :: '0' <= id[i] <= '9' || 'a' <= id[i] <= 'f'
  }

  /** What one line is. `Other` is a line that is refused wherever it stands. */
  datatype Line =
    | Magic
    | End
    | Bay(bay: nat, id: string)
    | EndBay
    | Row(attribute: nat, raw: nat, value: nat, worst: nat, threshold: nat, ok: bool)
    | Other

  datatype Sample = Sample(id: string, healthy: bool, temperature: int, raw: map<int, int>)

  type Snapshot = map<nat, Sample>

  // ---------------------------------------------------------------- lines

  /** The words the attribute pattern allows for a name and for a status. */
  predicate StatusWord(word: string) {
    word != "" && forall c <- word :: 'a' <= c <= 'z' || 'A' <= c <= 'Z' || c == '_' || c == '-'
  }

  predicate NameWord(word: string) {
    word != "" && forall c <- word :: 'a' <= c <= 'z' || 'A' <= c <= 'Z' || '0' <= c <= '9' || c == '_' || c == '-'
  }

  /** The attribute pattern on a line without the white space around it: seven
      words, which no white space is part of. */
  predicate RowWords(words: seq<string>) {
    && |words| == 7 && Numeral(words[0]) && |words[0]| == 3 && NameWord(words[1])
    && Numeral(words[2]) && Numeral(words[3]) && Numeral(words[4]) && Numeral(words[5]) && StatusWord(words[6])
  }

  predicate BayWords(words: seq<string>) {
    |words| == 3 && words[0] == "BAY" && words[1] in {"1", "2", "3", "4"}
  }

  function BayNumber(word: string): nat {
    if word == "1" then 1 else if word == "2" then 2 else if word == "3" then 3 else 4
  }

  function Classify(line: string): Line {
    var words := Words(line);
    if line == "NAS_SMART_1" then Magic
    else if line == "END" then End
    else if line == "END_BAY" then EndBay
    else if BayWords(words) then Bay(BayNumber(words[1]), words[2])
    else if RowWords(words) then
      Row(Value(words[0]), Value(words[2]), Value(words[3]), Value(words[4]), Value(words[5]), words[6] == "OK")
    else Other
  }

  function ClassifyAll(lines: seq<string>): (r: seq<Line>)
    ensures |r| == |lines|
  {
    seq(|lines|, i requires 0 <= i < |lines| => Classify(lines[i]))
  }

  /** decode('ascii') */
  predicate IsAscii(data: bytes) {
    forall i | 0 <= i < |data| :: data[i] < 128
  }

  function Decode(data: bytes): string
    requires IsAscii(data)
  {
    seq(|data|, i requires 0 <= i < |data| => data[i] as char)
  }

  // -------------------------------------------------------------- parsing

  predicate RowOk(row: Line, attrs: map<int, int>) {
    && row.Row?
    && 1 <= row.attribute <= 255 && row.attribute !in attrs && row.raw <= LARGEST
    && row.value <= 255 && row.worst <= 255 && row.threshold <= 255
  }

  predicate RowHealthy(row: Line)
    requires row.Row?
  {
    row.ok && (row.threshold == 0 || row.value > row.threshold)
  }

  datatype Bays = Bays(attrs: map<int, int>, healthy: bool, rest: seq<Line>)

  /** The rows up to END_BAY, or to the end of the lines. */
  function Rows(lines: seq<Line>, attrs: map<int, int>, healthy: bool): Option<Bays>
    decreases |lines|
  {
    if lines == [] || lines[0] == EndBay then Some(Bays(attrs, healthy, lines))
    else if !RowOk(lines[0], attrs) then None
    else Rows(lines[1..], attrs[lines[0].attribute := lines[0].raw], healthy && RowHealthy(lines[0]))
  }

  predicate Complete(attrs: map<int, int>) {
    FAULT_ATTRIBUTES + {TEMPERATURE} <= attrs.Keys && 0 <= attrs[TEMPERATURE] <= 150
  }

  function Faults(attrs: map<int, int>): map<int, int>
    requires FAULT_ATTRIBUTES <= attrs.Keys
  {
    map a | a in FAULT_ATTRIBUTES :: attrs[a]
  }

  predicate HeaderOk(line: Line, disks: Snapshot) {
    line.Bay? && line.bay in BAYS && line.bay !in disks && Hex64(line.id)
  }

  /** The bays in the lines between the first and the last. */
  function Sections(lines: seq<Line>, disks: Snapshot): Option<Snapshot>
    decreases |lines|
  {
    if lines == [] then Some(disks)
    else if !HeaderOk(lines[0], disks) then None
    else
      var rows := Rows(lines[1..], map[], true);
      if rows.None? then None
      else
        RowsShrink(lines[1..], map[], true);
        var Bays(attrs, healthy, rest) := rows.value;
        if rest == [] || !Complete(attrs) then None
        else
          Sections(rest[1..], disks[lines[0].bay := Sample(lines[0].id, healthy, attrs[TEMPERATURE], Faults(attrs))])
  }

  lemma {:induction false} RowsShrink(lines: seq<Line>, attrs: map<int, int>, healthy: bool)
    ensures var r := Rows(lines, attrs, healthy);
            r.Some? ==> |r.value.rest| <= |lines| && (r.value.rest != [] ==> r.value.rest[0] == EndBay)
    decreases |lines|
  {
    if lines != [] && lines[0] != EndBay && RowOk(lines[0], attrs) {
      RowsShrink(lines[1..], attrs[lines[0].attribute := lines[0].raw], healthy && RowHealthy(lines[0]));
    }
  }

  predicate DistinctIds(disks: Snapshot) {
    forall a, b | a in disks && b in disks && a != b :: disks[a].id != disks[b].id
  }

  function Parsed(lines: seq<Line>): Option<Snapshot> {
    if |lines| < 2 || lines[0] != Magic || lines[|lines| - 1] != End then None
    else
      var disks := Sections(lines[1..|lines| - 1], map[]);
      if disks.None? || disks.value.Keys != BAYS || !DistinctIds(disks.value) then None else disks
  }

  /** parse_snapshot: None for every exception. */
  function ParsedData(data: bytes): Option<Snapshot> {
    if |data| > MAX_BYTES || !IsAscii(data) then None else Parsed(ClassifyAll(BareLines(Decode(data))))
  }

  lemma ClassifyRest(lines: seq<string>)
    requires lines != []
    ensures ClassifyAll(lines)[0] == Classify(lines[0]) && ClassifyAll(lines[1..]) == ClassifyAll(lines)[1..]
  {
    hide Classify;
  }

  /** parse_snapshot pops the lines one by one. */
  method ParseSnapshot(data: bytes) returns (r: Option<Snapshot>)
    ensures r == ParsedData(data)
  {
    if |data| > MAX_BYTES || !IsAscii(data) {
      return None;
    }
    r := ParseLines(BareLines(Decode(data)));
  }

  method ParseLines(lines: seq<string>) returns (r: Option<Snapshot>)
    ensures r == Parsed(ClassifyAll(lines))
  {
    hide Classify, Rows, HeaderOk, Complete, Faults, DistinctIds;
    if lines == [] || Classify(lines[0]) != Magic {
      return None;
    }
    var rest := lines[1..];
    if rest == [] || Classify(rest[|rest| - 1]) != End {
      return None;
    }
    rest := rest[..|rest| - 1];
    ghost var all := ClassifyAll(lines);
    assert ClassifyAll(rest) == all[1..|all| - 1];
    var disks: Snapshot := map[];
    while rest != []
      invariant Sections(ClassifyAll(rest), disks) == Sections(all[1..|all| - 1], map[])
      decreases |rest|
    {
      ClassifyRest(rest);
      var header := Classify(rest[0]);
      if !HeaderOk(header, disks) {
        return None;
      }
      var ok, attrs, healthy, after := ParseRows(rest[1..]);
      if !ok {
        return None;
      }
      if after == [] || !Complete(attrs) {
        OneBay(ClassifyAll(rest), disks);
        return None;
      }
      ClassifyRest(after);
      OneBay(ClassifyAll(rest), disks);
      CompleteKeys(attrs);
      HeaderIsBay(header, disks);
      rest := after[1..];
      disks := disks[header.bay := Sample(header.id, healthy, attrs[TEMPERATURE], Faults(attrs))];
    }
    if disks.Keys != BAYS || !DistinctIds(disks) {
      return None;
    }
    return Some(disks);
  }

  lemma CompleteKeys(attrs: map<int, int>)
    requires Complete(attrs)
    ensures TEMPERATURE in attrs && FAULT_ATTRIBUTES <= attrs.Keys
  {
  }

  lemma HeaderIsBay(line: Line, disks: Snapshot)
    requires HeaderOk(line, disks)
    ensures line.Bay?
  {
    hide Hex64;
  }

  /** One step over the lines of a bay. */
  lemma OneBay(lines: seq<Line>, disks: Snapshot)
    requires lines != [] && HeaderOk(lines[0], disks) && Rows(lines[1..], map[], true).Some?
    ensures var Bays(attrs, healthy, rest) := Rows(lines[1..], map[], true).value;
            && lines[0].Bay? && (Complete(attrs) ==> TEMPERATURE in attrs && FAULT_ATTRIBUTES <= attrs.Keys)
            && Sections(lines, disks)
            == if rest == [] || !Complete(attrs) then None
               else Sections(rest[1..], disks[lines[0].bay := Sample(lines[0].id, healthy, attrs[TEMPERATURE], Faults(attrs))])
  {
    hide Rows, Hex64, Faults;
    RowsShrink(lines[1..], map[], true);
  }

  method ParseRows(lines: seq<string>) returns (ok: bool, attrs: map<int, int>, healthy: bool, rest: seq<string>)
    ensures if ok then Rows(ClassifyAll(lines), map[], true) == Some(Bays(attrs, healthy, ClassifyAll(rest)))
            else Rows(ClassifyAll(lines), map[], true) == None
    ensures |rest| <= |lines|
  {
    hide Classify;
    attrs, healthy, rest := map[], true, lines;
    while rest != [] && Classify(rest[0]) != EndBay
      invariant Rows(ClassifyAll(rest), attrs, healthy) == Rows(ClassifyAll(lines), map[], true)
      invariant |rest| <= |lines|
      decreases |rest|
    {
      ClassifyRest(rest);
      var row := Classify(rest[0]);
      if !RowOk(row, attrs) {
        return false, attrs, healthy, rest;
      }
      attrs := attrs[row.attribute := row.raw];
      healthy := healthy && RowHealthy(row);
      rest := rest[1..];
    }
    if rest != [] {
      ClassifyRest(rest);
    }
    return true, attrs, healthy, rest;
  }

  // -------------------------------------------------- what the text means

  datatype Section = Section(bay: nat, id: string, rows: seq<Line>)

  function PrintSection(s: Section): seq<Line> {
    [Bay(s.bay, s.id)] + s.rows + [EndBay]
  }

  function PrintAll(sections: seq<Section>): seq<Line> {
    if sections == [] then [] else PrintSection(sections[0]) + PrintAll(sections[1..])
  }

  function Print(sections: seq<Section>): seq<Line> {
    [Magic] + PrintAll(sections) + [End]
  }

  /** The rows of one bay name distinct attributes, all in range. */
  ghost predicate RowsOk(rows: seq<Line>) {
    && (forall i | 0 <= i < |rows| :: RowOk(rows[i], map[]))
    && forall i, j | 0 <= i < j < |rows| :: rows[i].attribute != rows[j].attribute
  }

  ghost predicate Reports(rows: seq<Line>, a: int, raw: int) {
    exists row <- rows :: row.Row? && row.attribute == a && row.raw == raw
  }

  ghost predicate SectionOk(s: Section) {
    && s.bay in BAYS && Hex64(s.id) && RowsOk(s.rows)
    && (forall a <- FAULT_ATTRIBUTES :: exists raw :: Reports(s.rows, a, raw))
    && exists raw :: 0 <= raw <= 150 && Reports(s.rows, TEMPERATURE, raw)
  }

  /** What one section says about its disk: every row must pass for it to be
      healthy. */
  ghost predicate Describes(s: Section, disk: Sample) {
    && disk.id == s.id
    && (disk.healthy <==> forall row <- s.rows :: row.Row? && RowHealthy(row))
    && Reports(s.rows, TEMPERATURE, disk.temperature)
    && disk.raw.Keys == FAULT_ATTRIBUTES
    && forall a <- FAULT_ATTRIBUTES :: Reports(s.rows, a, disk.raw[a])
  }

  /** A list of sections that is a whole snapshot of four different disks. */
  ghost predicate WellFormed(sections: seq<Section>) {
    && |sections| == 4
    && (forall s <- sections :: SectionOk(s))
    && forall i, j | 0 <= i < j < |sections| :: sections[i].bay != sections[j].bay && sections[i].id != sections[j].id
  }

  /** The attributes after some rows: those before, and those the rows report. */
  ghost predicate Gathers(before: map<int, int>, rows: seq<Line>, after: map<int, int>) {
    forall a, raw :: (a in after && after[a] == raw) <==> (a in before && before[a] == raw) || Reports(rows, a, raw)
  }

  ghost predicate RowsFit(rows: seq<Line>, before: map<int, int>) {
    RowsOk(rows) && forall row <- rows :: row.Row? && row.attribute !in before
  }

  ghost predicate AllHealthy(rows: seq<Line>) {
    forall row <- rows :: row.Row? && RowHealthy(row)
  }

  lemma FitCons(rows: seq<Line>, before: map<int, int>)
    requires rows != [] && rows[0].Row?
    ensures RowsFit(rows, before)
        <==> RowOk(rows[0], before) && RowsFit(rows[1..], before[rows[0].attribute := rows[0].raw])
  {
    var rest, grown := rows[1..], before[rows[0].attribute := rows[0].raw];
    if RowsFit(rows, before) {
      assert RowOk(rows[0], map[]);
      forall row <- rest
        ensures row.Row? && row.attribute !in grown
      {
        var i :| 0 <= i < |rest| && rest[i] == row;
        assert rows[i + 1] == row && row in rows;
      }
      forall i | 0 <= i < |rest|
        ensures RowOk(rest[i], map[])
      {
        assert rest[i] == rows[i + 1];
      }
    }
    if RowOk(rows[0], before) && RowsFit(rest, grown) {
      forall i | 0 <= i < |rows|
        ensures RowOk(rows[i], map[]) && rows[i].attribute !in before
        ensures i > 0 ==> rows[i].attribute != rows[0].attribute
      {
        assert i > 0 ==> rows[i] == rest[i - 1] && rest[i - 1] in rest;
      }
    }
  }

  lemma GathersCons(before: map<int, int>, rows: seq<Line>, after: map<int, int>)
    requires rows != [] && RowOk(rows[0], before)
    requires Gathers(before[rows[0].attribute := rows[0].raw], rows[1..], after)
    requires RowsFit(rows[1..], before[rows[0].attribute := rows[0].raw])
    ensures Gathers(before, rows, after)
  {
    var first, rest := rows[0], rows[1..];
    assert rows == [first] + rest;
    var grown := before[first.attribute := first.raw];
    forall a: int, raw: int
      ensures (a in after && after[a] == raw) <==> (a in before && before[a] == raw) || Reports(rows, a, raw)
    {
      ReportsCons(first, rest, a, raw);
      GathersAt(grown, rest, after, a, raw);
    }
  }

  lemma GathersAt(before: map<int, int>, rows: seq<Line>, after: map<int, int>, a: int, raw: int)
    requires Gathers(before, rows, after)
    ensures (a in after && after[a] == raw) <==> (a in before && before[a] == raw) || Reports(rows, a, raw)
  {
    hide Reports;
  }

  lemma ReportsCons(first: Line, rest: seq<Line>, a: int, raw: int)
    requires first.Row?
    ensures Reports([first] + rest, a, raw) <==> (first.attribute == a && first.raw == raw) || Reports(rest, a, raw)
  {
    assert first in [first] + rest;
    assert forall row <- rest :: row in [first] + rest;
  }

  lemma {:induction false} RowsRead(rows: seq<Line>, before: map<int, int>, healthy: bool, tail: seq<Line>) returns (after: map<int, int>)
    requires RowsFit(rows, before)
    requires tail == [] || tail[0] == EndBay
    ensures Rows(rows + tail, before, healthy) == Some(Bays(after, healthy && AllHealthy(rows), tail))
    ensures Gathers(before, rows, after)
  {
    if rows == [] {
      assert rows + tail == tail;
      after := before;
    } else {
      var first, rest := rows[0], rows[1..];
      assert first in rows && rows == [first] + rest;
      FitCons(rows, before);
      hide RowsFit;
      after := RowsRead(rest, before[first.attribute := first.raw], healthy && RowHealthy(first), tail);
      assert (rows + tail)[1..] == rest + tail;
      assert AllHealthy(rows) <==> RowHealthy(first) && AllHealthy(rest);
      GathersCons(before, rows, after);
    }
  }

  lemma {:induction false} RowsSplit(lines: seq<Line>, before: map<int, int>, healthy: bool) returns (rows: seq<Line>)
    requires Rows(lines, before, healthy).Some?
    ensures lines == rows + Rows(lines, before, healthy).value.rest
    ensures RowsFit(rows, before)
    decreases |lines|
  {
    hide *;
    if lines == [] || lines[0] == EndBay {
      rows := [];
      RowsEnd(lines, before, healthy);
    } else {
      var first := lines[0];
      RowsMore(lines, before, healthy);
      var rest := RowsSplit(lines[1..], before[first.attribute := first.raw], healthy && RowHealthy(first));
      rows := [first] + rest;
      assert rows[1..] == rest;
      FitCons(rows, before);
    }
  }

  lemma RowsEnd(lines: seq<Line>, before: map<int, int>, healthy: bool)
    requires lines == [] || lines[0] == EndBay
    ensures Rows(lines, before, healthy) == Some(Bays(before, healthy, lines)) && RowsFit([], before)
  {
  }

  lemma RowsMore(lines: seq<Line>, before: map<int, int>, healthy: bool)
    requires lines != [] && lines[0] != EndBay && Rows(lines, before, healthy).Some?
    ensures lines[0].Row? && RowOk(lines[0], before)
    ensures Rows(lines, before, healthy)
         == Rows(lines[1..], before[lines[0].attribute := lines[0].raw], healthy && RowHealthy(lines[0]))
  {
    hide RowHealthy;
  }

  function Disk(id: string, healthy: bool, attrs: map<int, int>): Sample
    requires Complete(attrs)
  {
    Sample(id, healthy, attrs[TEMPERATURE], Faults(attrs))
  }

  lemma GatheredOk(bay: nat, id: string, rows: seq<Line>, attrs: map<int, int>)
    requires RowsOk(rows) && bay in BAYS && Hex64(id) && Gathers(map[], rows, attrs)
    ensures Complete(attrs) <==> SectionOk(Section(bay, id, rows))
    ensures Complete(attrs) ==> Describes(Section(bay, id, rows), Disk(id, AllHealthy(rows), attrs))
  {
    hide Hex64, RowsOk, RowHealthy;
    if Complete(attrs) {
      forall a <- FAULT_ATTRIBUTES + {TEMPERATURE}
        ensures Reports(rows, a, attrs[a])
      {
        assert a in attrs && attrs[a] == attrs[a];
      }
    }
    if SectionOk(Section(bay, id, rows)) {
      forall a <- FAULT_ATTRIBUTES
        ensures a in attrs
      {
        var raw :| Reports(rows, a, raw);
        assert a in attrs && attrs[a] == raw;
      }
      var raw :| 0 <= raw <= 150 && Reports(rows, TEMPERATURE, raw);
      assert TEMPERATURE in attrs && attrs[TEMPERATURE] == raw;
    }
  }

  /** One step of the parser over the text of a section. */
  lemma SectionRead(s: Section, rest: seq<Line>, disks: Snapshot) returns (disk: Sample)
    requires SectionOk(s) && s.bay !in disks
    ensures Sections(PrintSection(s) + rest, disks) == Sections(rest, disks[s.bay := disk])
    ensures Describes(s, disk)
  {
    hide RowsOk, Hex64, Reports, Gathers, Rows, AllHealthy;
    var tail := [EndBay] + rest;
    var lines := PrintSection(s) + rest;
    assert lines[1..] == s.rows + tail;
    assert RowsFit(s.rows, map[]) by { RowsAreRows(s.rows); }
    var attrs := RowsRead(s.rows, map[], true, tail);
    GatheredOk(s.bay, s.id, s.rows, attrs);
    disk := Disk(s.id, AllHealthy(s.rows), attrs);
    assert tail[1..] == rest;
  }

  lemma RowsAreRows(rows: seq<Line>)
    requires RowsOk(rows)
    ensures forall row <- rows :: row.Row?
  {
    forall row <- rows
      ensures row.Row?
    {
      var i :| 0 <= i < |rows| && rows[i] == row;
      assert RowOk(rows[i], map[]);
    }
  }

  /** The sections name different bays, none of them seen before. */
  ghost predicate SectionsFit(sections: seq<Section>, disks: Snapshot) {
    && (forall s <- sections :: SectionOk(s) && s.bay !in disks)
    && forall i, j | 0 <= i < j < |sections| :: sections[i].bay != sections[j].bay
  }

  /** The snapshot after some sections: what was there before, and their disks. */
  ghost predicate Adds(before: Snapshot, sections: seq<Section>, after: Snapshot) {
    && after.Keys == before.Keys + (set s <- sections :: s.bay)
    && (forall b <- before :: after[b] == before[b])
    && forall s <- sections :: Describes(s, after[s.bay])
  }

  lemma AddsCons(before: Snapshot, s: Section, disk: Sample, rest: seq<Section>, after: Snapshot)
    requires s.bay !in before && Describes(s, disk)
    requires Adds(before[s.bay := disk], rest, after)
    ensures Adds(before, [s] + rest, after)
  {
    hide Describes;
    assert (set x <- [s] + rest :: x.bay) == {s.bay} + (set x <- rest :: x.bay);
    assert before[s.bay := disk][s.bay] == disk;
    forall b <- before
      ensures after[b] == before[b]
    {
      assert b in before[s.bay := disk];
    }
  }

  lemma {:induction false} SectionsRead(sections: seq<Section>, before: Snapshot) returns (after: Snapshot)
    requires SectionsFit(sections, before)
    ensures Sections(PrintAll(sections), before) == Some(after)
    ensures Adds(before, sections, after)
  {
    hide SectionOk, Describes, PrintSection;
    if sections == [] {
      after := before;
    } else {
      var s, rest := sections[0], sections[1..];
      hide Sections;
      assert s in sections;
      var disk := SectionRead(s, PrintAll(rest), before);
      after := SectionsRead(rest, before[s.bay := disk]);
      AddsCons(before, s, disk, rest, after);
      assert sections == [s] + rest;
    }
  }

  lemma {:induction false} SectionsSplit(lines: seq<Line>, before: Snapshot) returns (sections: seq<Section>)
    requires Sections(lines, before).Some?
    ensures lines == PrintAll(sections) && SectionsFit(sections, before)
    decreases |lines|
  {
    sections := [];
    if lines != [] {
      var s, rest, disk := OneSection(lines, before);
      var others := SectionsSplit(rest, before[s.bay := disk]);
      hide SectionOk, PrintSection, Sections;
      sections := [s] + others;
      assert sections[1..] == others;
      FitSections(s, disk, others, before);
    }
  }

  lemma FitSections(s: Section, disk: Sample, others: seq<Section>, before: Snapshot)
    requires SectionOk(s) && s.bay !in before && SectionsFit(others, before[s.bay := disk])
    ensures SectionsFit([s] + others, before)
  {
    hide SectionOk;
    forall i | 0 <= i < |others|
      ensures others[i].bay != s.bay
    {
      assert others[i] in others;
    }
  }

  lemma OneSection(lines: seq<Line>, before: Snapshot) returns (s: Section, rest: seq<Line>, disk: Sample)
    requires lines != [] && Sections(lines, before).Some?
    ensures lines == PrintSection(s) + rest && |rest| < |lines|
    ensures SectionOk(s) && s.bay !in before
    ensures Sections(lines, before) == Sections(rest, before[s.bay := disk])
  {
    hide RowsOk, Hex64, Reports, Gathers, Rows, AllHealthy, RowHealthy;
    var header := lines[0];
    var rows := RowsSplit(lines[1..], map[], true);
    var after := Rows(lines[1..], map[], true).value.rest;
    RowsShrink(lines[1..], map[], true);
    var attrs := RowsRead(rows, map[], true, after);
    GatheredOk(header.bay, header.id, rows, attrs);
    s, rest, disk := Section(header.bay, header.id, rows), after[1..], Disk(header.id, AllHealthy(rows), attrs);
    assert after == [EndBay] + rest;
  }

  lemma {:induction false} DistinctBays(sections: seq<Section>)
    requires forall i, j | 0 <= i < j < |sections| :: sections[i].bay != sections[j].bay
    ensures |set s <- sections :: s.bay| == |sections|
  {
    if sections != [] {
      var front, last := sections[..|sections| - 1], sections[|sections| - 1];
      DistinctBays(front);
      assert sections == front + [last];
      assert (set s <- sections :: s.bay) == (set s <- front :: s.bay) + {last.bay};
      assert last.bay !in (set s <- front :: s.bay);
    }
  }

  lemma FourBays(bays: set<nat>)
    requires bays <= BAYS
    ensures |bays| == 4 <==> bays == BAYS
  {
    assert |BAYS| == 4;
    if |bays| == 4 {
      assert BAYS == bays + (BAYS - bays);
      assert |BAYS - bays| == 0;
    }
  }

  lemma IdsFollow(sections: seq<Section>, disks: Snapshot)
    requires Adds(map[], sections, disks)
    requires forall i, j | 0 <= i < j < |sections| :: sections[i].bay != sections[j].bay
    ensures DistinctIds(disks) <==> forall i, j | 0 <= i < j < |sections| :: sections[i].id != sections[j].id
  {
    assert forall s <- sections :: disks[s.bay].id == s.id;
    if DistinctIds(disks) {
      forall i, j | 0 <= i < j < |sections|
        ensures sections[i].id != sections[j].id
      {
        assert sections[i] in sections && sections[j] in sections;
      }
    } else {
      var a, b :| a in disks && b in disks && a != b && disks[a].id == disks[b].id;
      var i :| 0 <= i < |sections| && sections[i].bay == a;
      var j :| 0 <= j < |sections| && sections[j].bay == b;
      assert sections[i] in sections && sections[j] in sections;
      assert sections[i].id == sections[j].id;
    }
  }

  /** A snapshot is accepted exactly when it is the text of four complete
      sections about different bays and disks, and then it means what they say. */
  lemma ReadsText(sections: seq<Section>)
    requires forall s <- sections :: SectionOk(s)
    requires forall i, j | 0 <= i < j < |sections| :: sections[i].bay != sections[j].bay
    ensures Parsed(Print(sections)).Some? <==> WellFormed(sections)
    ensures WellFormed(sections) ==> Adds(map[], sections, Parsed(Print(sections)).value)
  {
    hide SectionOk, Describes, Sections, PrintAll;
    var lines := Print(sections);
    assert lines[1..|lines| - 1] == PrintAll(sections);
    var disks := SectionsRead(sections, map[]);
    DistinctBays(sections);
    IdsFollow(sections, disks);
    assert disks.Keys <= BAYS by { BaysListed(sections); }
    FourBays(disks.Keys);
  }

  lemma BaysListed(sections: seq<Section>)
    requires forall s <- sections :: SectionOk(s)
    ensures (set s <- sections :: s.bay) <= BAYS
  {
    hide RowsOk, Hex64, Reports;
  }

  lemma AcceptedText(lines: seq<Line>)
    ensures Parsed(lines).Some? <==> exists sections :: WellFormed(sections) && lines == Print(sections)
  {
    hide SectionOk, Describes, Sections, PrintAll;
    if Parsed(lines).Some? {
      var sections := SectionsSplit(lines[1..|lines| - 1], map[]);
      assert lines == Print(sections);
      ReadsText(sections);
    }
    if sections :| WellFormed(sections) && lines == Print(sections) {
      ReadsText(sections);
    }
  }

  // ------------------------------------------------------------- the bytes

  /** Which bytes are accepted: at most 64 KiB of ASCII, whose lines are those of
      four complete sections about different bays and disks. */
  lemma AcceptedData(data: bytes)
    ensures ParsedData(data).Some? <==>
              && |data| <= 65536 && IsAscii(data)
              && exists sections :: WellFormed(sections) && ClassifyAll(BareLines(Decode(data))) == Print(sections)
  {
    hide Parsed, WellFormed, Print, ClassifyAll, BareLines, Decode;
    if |data| <= MAX_BYTES && IsAscii(data) {
      AcceptedText(ClassifyAll(BareLines(Decode(data))));
    }
  }

  function Digit3(n: nat): string
    requires n < 1000
  {
    ['0' + (n / 100) as char, '0' + (n / 10 % 10) as char, '0' + (n % 10) as char]
  }

  lemma Digit3Value(n: nat)
    requires n < 1000
    ensures Numeral(Digit3(n)) && Value(Digit3(n)) == n
  {
    var s := Digit3(n);
    assert 0 <= n / 100 < 10 && 0 <= n / 10 % 10 < 10 && 0 <= n % 10 < 10;
    assert n == 100 * (n / 100) + 10 * (n / 10 % 10) + n % 10;
    assert s[..2] == [s[0], s[1]] && [s[0], s[1]][..1] == [s[0]];
    assert Value([s[0]]) == n / 100;
    assert Value([s[0], s[1]]) == 10 * (n / 100) + n / 10 % 10;
  }

  /** The words of one line of a snapshot. */
  function LineWords(line: Line): seq<string>
    requires !line.Other? && (line.Bay? ==> line.bay in BAYS) && (line.Row? ==> line.attribute < 1000)
  {
    match line
    case Magic => ["NAS_SMART_1"]
    case End => ["END"]
    case Bay(bay, id) => ["BAY", Decimal.Print(bay), id]
    case EndBay => ["END_BAY"]
    case Row(attribute, raw, value, worst, threshold, ok) =>
      [Digit3(attribute), "Attribute", Decimal.Print(raw), Decimal.Print(value), Decimal.Print(worst), Decimal.Print(threshold),
       if ok then "OK" else "FAILING_NOW"]
  }

  /** A line that can be written. */
  predicate Writable(line: Line) {
    !line.Other? && (line.Bay? ==> line.bay in BAYS && Hex64(line.id)) && (line.Row? ==> line.attribute < 1000)
  }

  lemma PlainWord(text: string)
    requires text != "" && forall i | 0 <= i < |text| :: '!' <= text[i] <= '~'
    ensures IsWord(text) && Low(text)
  {
  }

  lemma NumeralWord(text: string)
    requires Numeral(text)
    ensures IsWord(text) && Low(text)
  {
  }

  lemma BayPrinted(bay: nat)
    requires bay in BAYS
    ensures Decimal.Print(bay) in {"1", "2", "3", "4"} && BayNumber(Decimal.Print(bay)) == bay
  {
    assert Decimal.Print(bay) == ['0' + bay as char];
  }

  lemma WordsOk(line: Line)
    requires Writable(line)
    ensures forall w <- LineWords(line) :: IsWord(w)
    ensures forall w <- LineWords(line) :: Low(w)
  {
    hide IsWord, Numeral, Decimal.Print, Digit3;
    match line
    case Magic => PlainWord("NAS_SMART_1");
    case End => PlainWord("END");
    case EndBay => PlainWord("END_BAY");
    case Bay(bay, id) =>
      PlainWord("BAY");
      NumeralWord(Decimal.Print(bay));
      PlainWord(id);
    case Row(attribute, raw, value, worst, threshold, ok) =>
      Digit3Value(attribute);
      NumeralWord(Digit3(attribute));
      PlainWord("Attribute");
      NumeralWord(Decimal.Print(raw));
      NumeralWord(Decimal.Print(value));
      NumeralWord(Decimal.Print(worst));
      NumeralWord(Decimal.Print(threshold));
      PlainWord("OK");
      PlainWord("FAILING_NOW");
  }

  /** A written line is classified as what it is. */
  lemma ClassifyWritten(line: Line)
    requires Writable(line)
    ensures Classify(Spaced(LineWords(line))) == line
  {
    hide Classify, Spaced, Hex64, Decimal.Print, Digit3, BAYS;
    match line
    case Magic => ClassifyFixed();
    case End => ClassifyFixed();
    case EndBay => ClassifyFixed();
    case Bay(bay, id) => ClassifyBay(bay, id);
    case Row(attribute, raw, value, worst, threshold, ok) => ClassifyRow(line);
  }

  lemma ClassifyFixed()
    ensures Classify(Spaced(["NAS_SMART_1"])) == Magic && Classify(Spaced(["END"])) == End
    ensures Classify(Spaced(["END_BAY"])) == EndBay
  {
    hide Words, Value, Numeral;
  }

  /** What the words of a line decide unless it is one of the fixed lines. */
  lemma ByWords(line: string, words: seq<string>)
    requires Words(line) == words && line != "" && line[0] != 'N' && line[0] != 'E'
    ensures BayWords(words) ==> Classify(line) == Bay(BayNumber(words[1]), words[2])
    ensures RowWords(words) ==>
              Classify(line)
              == Row(Value(words[0]), Value(words[2]), Value(words[3]), Value(words[4]), Value(words[5]), words[6] == "OK")
  {
    hide Words, Value, Numeral, NameWord, StatusWord;
  }

  lemma ClassifyBay(bay: nat, id: string)
    requires bay in BAYS && Hex64(id)
    ensures Classify(Spaced(["BAY", Decimal.Print(bay), id])) == Bay(bay, id)
  {
    hide Classify, Words, IsWord, Decimal.Print, Hex64, Numeral, RowWords;
    var line := Bay(bay, id);
    WordsOk(line);
    WordsAlone(LineWords(line));
    FirstChar(LineWords(line));
    BayPrinted(bay);
    ByWords(Spaced(LineWords(line)), LineWords(line));
  }

  lemma ClassifyRow(line: Line)
    requires line.Row? && line.attribute < 1000
    ensures Classify(Spaced(LineWords(line))) == line
  {
    hide Classify, Words, IsWord, Decimal.Print, Digit3, Numeral, Value, NameWord, StatusWord, Spaced;
    WordsOk(line);
    WordsAlone(LineWords(line));
    Digit3Start(line.attribute);
    FirstChar(LineWords(line));
    Digit3Value(line.attribute);
    RowNumbers(line.raw, line.value, line.worst, line.threshold);
    RowNames();
    ByWords(Spaced(LineWords(line)), LineWords(line));
  }

  lemma RowNames()
    ensures NameWord("Attribute") && StatusWord("OK") && StatusWord("FAILING_NOW") && "OK" != "FAILING_NOW"
  {
    assert |"OK"| == 2;
  }

  lemma FirstChar(words: seq<string>)
    requires |words| > 1 && words[0] != ""
    ensures Spaced(words) != "" && Spaced(words)[0] == words[0][0] && |Spaced(words)| > |words[0]| && Spaced(words)[|words[0]|] == ' '
  {
  }

  lemma Digit3Start(n: nat)
    requires n < 1000
    ensures |Digit3(n)| == 3 && '0' <= Digit3(n)[0] <= '9'
  {
  }

  lemma RowNumbers(raw: nat, value: nat, worst: nat, threshold: nat)
    ensures Value(Decimal.Print(raw)) == raw && Value(Decimal.Print(value)) == value
    ensures Value(Decimal.Print(worst)) == worst && Value(Decimal.Print(threshold)) == threshold
  {
    PrintValue(raw);
    PrintValue(value);
    PrintValue(worst);
    PrintValue(threshold);
  }

  function Bodies(lines: seq<Line>): seq<string>
    requires forall line <- lines :: Writable(line)
  {
    seq(|lines|, i requires 0 <= i < |lines| => assert Writable(lines[i]); Spaced(LineWords(lines[i])))
  }

  /** The lines as text, each ended by a newline, and the text as bytes. */
  function Written(lines: seq<Line>): string
    requires forall line <- lines :: Writable(line)
  {
    Concat(Made(Bodies(lines)))
  }

  /** No character beyond ASCII. */
  predicate Low(text: string) {
    forall i | 0 <= i < |text| :: text[i] <= '~'
  }

  function Encode(text: string): (data: bytes)
    requires Low(text)
    ensures |data| == |text|
  {
    seq(|text|, i requires 0 <= i < |text| => text[i] as int as byte)
  }

  lemma EncodeDecode(text: string)
    requires Low(text)
    ensures IsAscii(Encode(text)) && Decode(Encode(text)) == text
  {
  }

  lemma LowAppend(a: string, b: string)
    requires Low(a) && Low(b)
    ensures Low(a + b)
  {
  }

  lemma {:induction false} SpacedLow(words: seq<string>)
    requires forall w <- words :: Low(w)
    ensures Low(Spaced(words))
  {
    hide Low;
    if |words| == 1 {
      assert words[0] in words;
    } else if words != [] {
      assert words[0] in words;
      SpacedLow(words[1..]);
      BlankLow();
      LowAppend(words[0], " ");
      LowAppend(words[0] + " ", Spaced(words[1..]));
      assert Spaced(words) == words[0] + " " + Spaced(words[1..]);
    } else {
      NothingLow();
    }
  }

  lemma BlankLow()
    ensures Low(" ") && Low("\n")
  {
  }

  lemma BodyOk(line: Line)
    requires Writable(line)
    ensures var body := Spaced(LineWords(line));
            BreakFree(body) && Begins(body) && Fits(body) && Bare(body + "\n") == body && Low(body)
  {
    WordsOk(line);
    SomeWord(line);
    hide IsWord, BreakFree, Begins, Bare, LineWords, Fits, Writable, Low;
    var body := Spaced(LineWords(line));
    SpacedWords(LineWords(line));
    SpacedLow(LineWords(line));
    FreeFits(body);
    BareMade(body);
  }

  lemma SomeWord(line: Line)
    requires Writable(line)
    ensures LineWords(line) != []
  {
  }

  lemma {:induction false} ConcatLow(bodies: seq<string>)
    requires forall b <- bodies :: Low(b)
    ensures Low(Concat(Made(bodies)))
  {
    hide Low;
    if bodies == [] {
      NothingLow();
    } else {
      var front, last := bodies[..|bodies| - 1], bodies[|bodies| - 1];
      assert last in bodies;
      ConcatLow(front);
      assert Made(bodies)[..|bodies| - 1] == Made(front);
      BlankLow();
      LowAppend(last, "\n");
      LowAppend(Concat(Made(front)), last + "\n");
    }
  }

  lemma NothingLow()
    ensures Low("")
  {
  }

  /** Written lines are read back. */
  lemma WrittenRead(lines: seq<Line>)
    requires forall line <- lines :: Writable(line)
    ensures Low(Written(lines))
    ensures ClassifyAll(BareLines(Written(lines))) == lines
  {
    hide Classify, LineWords, BreakFree, Begins, Fits, Bare, SplitLines, LinesOk, Spaced, Concat, Writable, Low;
    var bodies := Bodies(lines);
    forall b <- bodies
      ensures BreakFree(b) && Begins(b) && Fits(b) && Bare(b + "\n") == b && Low(b)
    {
      var i :| 0 <= i < |lines| && bodies[i] == b;
      assert lines[i] in lines;
      BodyOk(lines[i]);
    }
    MadeOk(bodies);
    SplitJoin(Made(bodies));
    ConcatLow(bodies);
    assert forall i | 0 <= i < |bodies| :: bodies[i] in bodies;
    assert BareLines(Written(lines)) == bodies;
    forall i | 0 <= i < |lines|
      ensures Classify(bodies[i]) == lines[i]
    {
      assert lines[i] in lines;
      ClassifyWritten(lines[i]);
    }
  }

  lemma {:induction false} SectionsWritable(sections: seq<Section>)
    requires forall s <- sections :: SectionOk(s)
    ensures forall line <- PrintAll(sections) :: Writable(line)
  {
    hide SectionOk, Writable, PrintSection;
    if sections != [] {
      var s := sections[0];
      assert s in sections;
      SectionsWritable(sections[1..]);
      OneWritable(s);
    }
  }

  lemma OneWritable(s: Section)
    requires SectionOk(s)
    ensures forall line <- PrintSection(s) :: Writable(line)
  {
    hide Hex64, Reports, BAYS;
    forall line <- s.rows
      ensures Writable(line)
    {
      var i :| 0 <= i < |s.rows| && s.rows[i] == line;
      assert RowOk(s.rows[i], map[]);
    }
  }

  lemma EndsWritable()
    ensures Writable(Magic) && Writable(End)
  {
  }

  /** The text of four complete sections about different bays and disks is
      accepted, and means what they say. */
  lemma ReadsData(sections: seq<Section>)
    requires WellFormed(sections)
    ensures forall line <- Print(sections) :: Writable(line)
    ensures var text := Written(Print(sections));
            && Low(text)
            && (|text| <= 65536 ==>
                  ParsedData(Encode(text)).Some? && Adds(map[], sections, ParsedData(Encode(text)).value))
  {
    hide SectionOk, Writable, PrintAll, Parsed, Written, Adds, BareLines, ClassifyAll, Decode, IsAscii, Low;
    SectionsWritable(sections);
    EndsWritable();
    WrittenRead(Print(sections));
    EncodeDecode(Written(Print(sections)));
    ReadsText(sections);
  }

  // --------------------------------------------- the terms used above

  /** Text of digits that stands for this number. */
  ghost predicate Stands(text: string, n: nat) {
    Numeral(text) && Value(text) == n
  }

  ghost predicate Letters(text: string, digits: bool) {
    text != ""
    && forall i | 0 <= i < |text| ::
         'a' <= text[i] <= 'z' || 'A' <= text[i] <= 'Z' || text[i] == '_' || text[i] == '-' || (digits && '0' <= text[i] <= '9')
  }

  lemma LettersIff(text: string)
    ensures NameWord(text) <==> Letters(text, true)
    ensures StatusWord(text) <==> Letters(text, false)
  {
    assert forall i | 0 <= i < |text| :: text[i] in text;
  }

  /** Seven words: three digits, a name, four numbers, and a status. */
  ghost predicate SaysRow(words: seq<string>, row: Line)
    requires row.Row?
  {
    && |words| == 7 && |words[0]| == 3 && Stands(words[0], row.attribute) && Letters(words[1], true)
    && Stands(words[2], row.raw) && Stands(words[3], row.value) && Stands(words[4], row.worst) && Stands(words[5], row.threshold)
    && Letters(words[6], false) && (row.ok <==> words[6] == "OK")
  }

  ghost predicate SaysBay(words: seq<string>, bay: nat) {
    |words| == 3 && words[0] == "BAY"
    && ((words[1] == "1" && bay == 1) || (words[1] == "2" && bay == 2) || (words[1] == "3" && bay == 3) || (words[1] == "4" && bay == 4))
  }

  lemma FixedWords()
    ensures Words("NAS_SMART_1") == ["NAS_SMART_1"] && Words("END") == ["END"] && Words("END_BAY") == ["END_BAY"]
  {
    PlainWord("NAS_SMART_1");
    PlainWord("END");
    PlainWord("END_BAY");
    hide Words, IsWord;
    OneWord("NAS_SMART_1");
    OneWord("END");
    OneWord("END_BAY");
  }

  lemma RowWordsIff(words: seq<string>, row: Line)
    requires row.Row?
    ensures SaysRow(words, row) <==>
              RowWords(words)
              && row == Row(Value(words[0]), Value(words[2]), Value(words[3]), Value(words[4]), Value(words[5]), words[6] == "OK")
  {
    if |words| == 7 {
      LettersIff(words[1]);
      LettersIff(words[6]);
    }
    hide NameWord, StatusWord, Letters, Numeral, Value;
  }

  lemma BayWordsIff(words: seq<string>, bay: nat)
    ensures SaysBay(words, bay) <==> BayWords(words) && BayNumber(words[1]) == bay
  {
  }

  lemma ByKind(line: string)
    requires line !in {"NAS_SMART_1", "END", "END_BAY"}
    ensures var words := Words(line);
            Classify(line)
            == if BayWords(words) then Bay(BayNumber(words[1]), words[2])
               else if RowWords(words) then
                 Row(Value(words[0]), Value(words[2]), Value(words[3]), Value(words[4]), Value(words[5]), words[6] == "OK")
               else Other
  {
    hide Words, Value, BayWords, RowWords, BayNumber;
  }

  /** Exactly which lines are taken for an attribute row. */
  lemma ClassifyRowIff(line: string, row: Line)
    requires row.Row?
    ensures Classify(line) == row <==> SaysRow(Words(line), row)
  {
    var words := Words(line);
    RowWordsIff(words, row);
    if line in {"NAS_SMART_1", "END", "END_BAY"} {
      FixedWords();
      hide Words, RowWords, BayWords;
    } else {
      ByKind(line);
      hide Classify, Words, Value, SaysRow;
    }
  }

  /** Exactly which lines are taken for the header of a bay. */
  lemma ClassifyBayIff(line: string, bay: nat, id: string)
    ensures Classify(line) == Bay(bay, id) <==> SaysBay(Words(line), bay) && Words(line)[2] == id
  {
    var words := Words(line);
    BayWordsIff(words, bay);
    if line in {"NAS_SMART_1", "END", "END_BAY"} {
      FixedWords();
      hide Words, RowWords, BayWords;
    } else {
      ByKind(line);
      hide Classify, Words, Value, SaysBay, RowWords;
    }
  }

  /** Exactly which lines are taken for the fixed ones. */
  lemma ClassifyFixedIff(line: string)
    ensures Classify(line) == Magic <==> line == "NAS_SMART_1"
    ensures Classify(line) == End <==> line == "END"
    ensures Classify(line) == EndBay <==> line == "END_BAY"
  {
    hide Words, Value, BayWords, RowWords, BayNumber;
  }

  lemma RowsOkIff(rows: seq<Line>)
    ensures RowsOk(rows) <==>
              (forall i | 0 <= i < |rows| :: Ranged(rows[i]))
              && (forall i, j | 0 <= i < j < |rows| && rows[i].Row? && rows[j].Row? :: rows[i].attribute != rows[j].attribute)
  {
    forall i | 0 <= i < |rows|
      ensures RowOk(rows[i], map[]) <==> Ranged(rows[i])
      ensures Ranged(rows[i]) ==> rows[i].Row?
    {
      RangedIff(rows[i]);
    }
    hide RowOk, Ranged;
  }

  /** What makes a section complete: a known bay, an identity, rows in range about
      different attributes, all fault attributes, and a temperature. */
  lemma SectionIff(s: Section)
    ensures SectionOk(s) <==>
              && s.bay in {1, 2, 3, 4}
              && |s.id| == 64 && (forall i | 0 <= i < 64 :: '0' <= s.id[i] <= '9' || 'a' <= s.id[i] <= 'f')
              && (forall i | 0 <= i < |s.rows| :: Ranged(s.rows[i]))
              && (forall i, j | 0 <= i < j < |s.rows| && s.rows[i].Row? && s.rows[j].Row? :: s.rows[i].attribute != s.rows[j].attribute)
              && (forall a <- [5, 10, 184, 187, 188, 191, 197, 198, 199] :: exists raw :: Reports(s.rows, a, raw))
              && exists raw :: 0 <= raw <= 150 && Reports(s.rows, 194, raw)
  {
    RowsOkIff(s.rows);
    FaultList();
    hide Reports, RowsOk, FAULT_ATTRIBUTES;
  }

  lemma FaultList()
    ensures forall a :: a in [5, 10, 184, 187, 188, 191, 197, 198, 199] <==> a in FAULT_ATTRIBUTES
  {
  }

  ghost predicate Ranged(row: Line) {
    && row.Row? && 1 <= row.attribute <= 255 && row.raw <= 9007199254740991
    && row.value <= 255 && row.worst <= 255 && row.threshold <= 255
  }

  lemma RangedIff(row: Line)
    ensures RowOk(row, map[]) <==> Ranged(row)
  {
  }

  /** What a complete section says about its disk. It is healthy if every row has
      the status OK and a value above its threshold, or no threshold. */
  lemma DescribesIff(s: Section, disk: Sample)
    requires SectionOk(s)
    ensures Describes(s, disk) <==>
              && disk.id == s.id
              && (disk.healthy <==>
                    forall i | 0 <= i < |s.rows| && s.rows[i].Row? ::
                      s.rows[i].ok && (s.rows[i].threshold == 0 || s.rows[i].value > s.rows[i].threshold))
              && Reports(s.rows, 194, disk.temperature)
              && disk.raw.Keys == {5, 10, 184, 187, 188, 191, 197, 198, 199}
              && forall a <- disk.raw :: Reports(s.rows, a, disk.raw[a])
  {
    RowsAreRows(s.rows);
    hide Reports, Hex64, RowsOk;
    assert forall i | 0 <= i < |s.rows| :: s.rows[i] in s.rows;
  }
}
