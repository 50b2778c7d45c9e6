/** Rewriting one package task of an Ansible file into an include_role. */
module Rewriter {
  import opened Basics
  import opened Texts

  // -------------------------------------------------------------- blocks

  const NAME := "- name: "

  /** The line that starts the task of this name. */
  predicate IsTask(line: string, name: string) {
    line[SpaceRun(line)..] in {NAME + name, NAME + name + "\n", NAME + name + "\n\n"}
  }

  /** The line that starts another task at this depth. */
  predicate IsNext(line: string, indent: string) {
    indent + NAME <= line
  }

  predicate IsKeyChar(c: char) {
    'A' <= c <= 'Z' || 'a' <= c <= 'z' || '0' <= c <= '9' || c == '_' || c == '.' || c == '-'
  }

  function KeyRun(text: string): (n: nat)
    ensures n <= |text|
  {
    if text == "" || !IsKeyChar(text[0]) then 0 else 1 + KeyRun(text[1..])
  }

  /** top_level_key */
  function Key(line: string, indent: string): Option<string> {
    if !(indent + "  " <= line) then None
    else
      var rest := line[|indent| + 2..];
      var n := KeyRun(rest);
      if 0 < n < |rest| && rest[n] == ':' && (n + 1 == |rest| || IsSpace(rest[n + 1])) then Some(rest[..n]) else None
  }

  /** The first line from i on that satisfies p, or the end. */
  function FirstFrom(lines: seq<string>, p: string -> bool, i: nat): (r: nat)
    requires i <= |lines|
    ensures i <= r <= |lines|
    ensures forall k | i <= k < r :: !p(lines[k])
    ensures r < |lines| ==> p(lines[r])
    decreases |lines| - i
  {
    if i == |lines| || p(lines[i]) then i else FirstFrom(lines, p, i + 1)
  }

  datatype Block = Block(start: nat, end: nat, indent: string, lines: seq<string>)

  datatype Error = NotFound | NoPackages | Unsupported | NoExpression | EmptyExpression

  datatype Result<+T> = Ok(value: T) | Exit(error: Error)

  function Find(lines: seq<string>, name: string): Result<Block> {
    var start := FirstFrom(lines, line => IsTask(line, name), 0);
    if start == |lines| then Exit(NotFound)
    else
      var indent := lines[start][..SpaceRun(lines[start])];
      var end := FirstFrom(lines, line => IsNext(line, indent), start + 1);
      Ok(Block(start, end, indent, lines[start..end]))
  }

  /** find_task_block */
  method FindTaskBlock(lines: seq<string>, name: string) returns (r: Result<Block>)
    ensures r == Find(lines, name)
  {
    hide IsTask, IsNext, SpaceRun;
    var task := (line: string) => IsTask(line, name);
    var start := 0;
    while start < |lines| && !IsTask(lines[start], name)
      invariant start <= |lines| && FirstFrom(lines, task, start) == FirstFrom(lines, task, 0)
    {
      start := start + 1;
    }
    assert start == FirstFrom(lines, task, 0);
    SameFrom(lines, task, line => IsTask(line, name), 0);
    if start == |lines| {
      return Exit(NotFound);
    }
    var indent := lines[start][..SpaceRun(lines[start])];
    var next := (line: string) => IsNext(line, indent);
    var end := start + 1;
    while end < |lines| && !IsNext(lines[end], indent)
      invariant start < end <= |lines| && FirstFrom(lines, next, end) == FirstFrom(lines, next, start + 1)
    {
      end := end + 1;
    }
    SameFrom(lines, next, line => IsNext(line, indent), start + 1);
    return Ok(Block(start, end, indent, lines[start..end]));
  }

  /** The contract of FirstFrom determines it. */
  lemma FirstUnique(lines: seq<string>, p: string -> bool, i: nat, r: nat)
    requires i <= r <= |lines|
    requires forall k | i <= k < r :: !p(lines[k])
    requires r < |lines| ==> p(lines[r])
    ensures FirstFrom(lines, p, i) == r
  {
    var first := FirstFrom(lines, p, i);
  }

  lemma SameFrom(lines: seq<string>, p: string -> bool, q: string -> bool, i: nat)
    requires i <= |lines| && forall line <- lines :: p(line) == q(line)
    ensures FirstFrom(lines, p, i) == FirstFrom(lines, q, i)
  {
    FirstUnique(lines, p, i, FirstFrom(lines, q, i));
  }

  // -------------------------------------------------------------- chunks

  datatype Chunk = Chunk(key: string, lines: seq<string>)

  function NextKey(lines: seq<string>, indent: string, i: nat): (r: nat)
    requires i <= |lines|
    ensures i <= r <= |lines|
    ensures forall k | i <= k < r :: Key(lines[k], indent).None?
    ensures r < |lines| ==> Key(lines[r], indent).Some?
  {
    FirstFrom(lines, line => Key(line, indent).Some?, i)
  }

  /** The chunks from line i on. What comes before the first key is dropped. */
  function Chunks(lines: seq<string>, indent: string, i: nat): seq<Chunk>
    requires i <= |lines|
    decreases |lines| - i
  {
    var k := NextKey(lines, indent, i);
    if k == |lines| then []
    else
      var end := NextKey(lines, indent, k + 1);
      [Chunk(Key(lines[k], indent).value, lines[k..end])] + Chunks(lines, indent, end)
  }

  /** A chunk starts with its key, and has no other. */
  ghost predicate ChunkOk(c: Chunk, indent: string) {
    && c.lines != [] && Key(c.lines[0], indent) == Some(c.key)
    && forall k | 0 < k < |c.lines| :: Key(c.lines[k], indent).None?
  }

  lemma NextKeyUnique(lines: seq<string>, indent: string, i: nat, r: nat)
    requires i <= r <= |lines|
    requires forall k | i <= k < r :: Key(lines[k], indent).None?
    requires r < |lines| ==> Key(lines[r], indent).Some?
    ensures NextKey(lines, indent, i) == r
  {
    hide Key;
    var first := NextKey(lines, indent, i);
  }

  lemma NoChunks(lines: seq<string>, indent: string)
    ensures Chunks(lines, indent, |lines|) == []
  {
  }

  lemma SkipLine(lines: seq<string>, indent: string, i: nat)
    requires i < |lines| && Key(lines[i], indent).None?
    ensures Chunks(lines, indent, i) == Chunks(lines, indent, i + 1)
  {
    hide Key;
    NextKeyUnique(lines, indent, i, NextKey(lines, indent, i + 1));
  }

  lemma TakeChunk(lines: seq<string>, indent: string, i: nat, end: nat)
    requires i < end <= |lines| && Key(lines[i], indent).Some?
    requires forall k | i < k < end :: Key(lines[k], indent).None?
    requires end < |lines| ==> Key(lines[end], indent).Some?
    ensures Chunks(lines, indent, i) == [Chunk(Key(lines[i], indent).value, lines[i..end])] + Chunks(lines, indent, end)
  {
    hide Key;
    NextKeyUnique(lines, indent, i, i);
    NextKeyUnique(lines, indent, i + 1, end);
  }

  /** top_level_chunks */
  method TopLevelChunks(block: Block) returns (chunks: seq<Chunk>)
    requires block.lines != []
    ensures chunks == Chunks(block.lines, block.indent, 1)
  {
    hide Key, Chunks, NextKey;
    var lines, indent := block.lines, block.indent;
    chunks := [];
    var index := 1;
    while index < |lines|
      invariant 1 <= index <= |lines|
      invariant chunks + Chunks(lines, indent, index) == Chunks(lines, indent, 1)
    {
      var key := Key(lines[index], indent);
      if key.None? {
        SkipLine(lines, indent, index);
        index := index + 1;
      } else {
        var probe := index + 1;
        while probe < |lines| && Key(lines[probe], indent).None?
          invariant index < probe <= |lines|
          invariant forall k | index < k < probe :: Key(lines[k], indent).None?
        {
          probe := probe + 1;
        }
        TakeChunk(lines, indent, index, probe);
        chunks := chunks + [Chunk(key.value, lines[index..probe])];
        index := probe;
      }
    }
    NoChunks(lines, indent);
  }

  function Flat(chunks: seq<Chunk>): seq<string> {
    if chunks == [] then [] else chunks[0].lines + Flat(chunks[1..])
  }

  lemma {:induction false} ChunksOk(lines: seq<string>, indent: string, i: nat)
    requires i <= |lines|
    ensures forall c <- Chunks(lines, indent, i) :: ChunkOk(c, indent)
    ensures Flat(Chunks(lines, indent, i)) == lines[NextKey(lines, indent, i)..]
    decreases |lines| - i
  {
    hide Key;
    var k := NextKey(lines, indent, i);
    if k < |lines| {
      var end := NextKey(lines, indent, k + 1);
      ChunksOk(lines, indent, end);
      NextKeyUnique(lines, indent, end, end);
      var chunk, rest := Chunk(Key(lines[k], indent).value, lines[k..end]), Chunks(lines, indent, end);
      assert ChunkOk(chunk, indent);
      assert ([chunk] + rest)[1..] == rest;
      assert lines[k..] == lines[k..end] + lines[end..];
    }
  }

  /** Parsing chunks written one after another gives them back. */
  lemma {:induction false} ChunksRead(head: seq<string>, chunks: seq<Chunk>, indent: string)
    requires forall c <- chunks :: ChunkOk(c, indent)
    ensures Chunks(head + Flat(chunks), indent, |head|) == chunks
    decreases |chunks|
  {
    hide Key, Chunks;
    var lines := head + Flat(chunks);
    if chunks == [] {
      assert lines == head;
      NoChunks(lines, indent);
    } else {
      var first, rest := chunks[0], chunks[1..];
      assert first in chunks && ChunkOk(first, indent);
      var k, end := |head|, |head| + |first.lines|;
      assert lines == (head + first.lines) + Flat(rest);
      ChunksRead(head + first.lines, rest, indent);
      assert lines[k..end] == first.lines;
      assert forall j | k <= j < end :: lines[j] == first.lines[j - k];
      if rest != [] {
        assert rest[0] in chunks && ChunkOk(rest[0], indent);
        assert lines[end] == rest[0].lines[0];
      }
      TakeChunk(lines, indent, k, end);
    }
  }

  // ---------------------------------------------------------- expressions

  const OPKG := "ansible.builtin.opkg"
  const SHELL := "ansible.builtin.shell"
  const INCLUDE := "ansible.builtin.include_role"
  const CONSUMED := {OPKG, SHELL, "loop", "loop_control", "register", "changed_when", "failed_when"}

  datatype PackageState = Present | Absent

  function AfterColon(text: string): string {
    if text == "" then "" else if text[0] == ':' then text[1..] else AfterColon(text[1..])
  }

  /** derive_loop_expression */
  function LoopExpression(chunks: seq<Chunk>): Option<string>
    requires forall c <- chunks :: c.lines != []
  {
    if chunks == [] then None
    else if chunks[0].key == "loop" then Some(Strip(AfterColon(chunks[0].lines[0])))
    else LoopExpression(chunks[1..])
  }

  /** What a name line under opkg holds. Blanks alone are a match, too. */
  function NameValue(line: string, indent: string): Option<string> {
    var prefix := indent + "    name:";
    if prefix <= line && exists c <- line[|prefix|..] :: c != '\n' then Some(Strip(line[|prefix|..])) else None
  }

  function FirstName(lines: seq<string>, indent: string): Option<string> {
    if lines == [] then None
    else if NameValue(lines[0], indent).Some? then NameValue(lines[0], indent)
    else FirstName(lines[1..], indent)
  }

  function OpkgName(chunks: seq<Chunk>, indent: string): Option<string> {
    if chunks == [] then None
    else if chunks[0].key == OPKG && FirstName(chunks[0].lines, indent).Some? then FirstName(chunks[0].lines, indent)
    else OpkgName(chunks[1..], indent)
  }

  predicate IsQuote(c: char) {
    c == '"' || c == '\''
  }

  function Unquoted(value: string): string {
    if value != "" && IsQuote(value[0]) && IsQuote(value[|value| - 1])
    then (if |value| == 1 then "" else value[1..|value| - 1])
    else value
  }

  /** derive_opkg_name_expression */
  function NameExpression(chunks: seq<Chunk>, indent: string): Option<string> {
    var name := OpkgName(chunks, indent);
    if name.None? || name.value in {"\"{{ item }}\"", "'{{ item }}'", "{{ item }}"} then None
    else if "{{" <= Unquoted(name.value) then Some(Unquoted(name.value))
    else Some("['" + Unquoted(name.value) + "']")
  }

  /** The pattern for `opkg remove`: the package it finds in the text of a task. */
  type Pattern = string -> Option<string>

  /** Package names have no line breaks in them. */
  ghost predicate PatternOk(removed: Pattern) {
    forall text: string :: removed(text).Some? ==> BreakFree(removed(text).value)
  }

  /** derive_remove_expression */
  function RemoveExpression(removed: Pattern, lines: seq<string>): Option<string> {
    var name := removed(Concat(lines));
    if name.None? then None else Some("['" + name.value + "']")
  }

  /** The names of one variable, and of a variable with filters. */
  function WordRun(text: string): (n: nat)
    ensures n <= |text|
  {
    if text == "" || !(IsKeyChar(text[0]) && text[0] != '.' && text[0] != '-') then 0 else 1 + WordRun(text[1..])
  }

  predicate IsVariable(value: string) {
    value != "" && !('0' <= value[0] <= '9')
    && var n := WordRun(value);
       0 < n
       && var rest := value[n..];
          rest == "" || (var m := SpaceRun(rest); m < |rest| && rest[m] == '|' && forall c <- rest[m..] :: c != '\n')
  }

  /** normalize_package_expression */
  function Normalize(raw: string): Result<string> {
    var value := Strip(raw);
    if value == "" then Exit(EmptyExpression)
    else if IsQuote(value[0]) then Ok(value)
    else if "{{" <= value && |value| >= 2 && value[|value| - 2..] == "}}" then Ok("\"" + value + "\"")
    else if value[0] == '[' || value[0] == '{' then Ok(value)
    else if IsVariable(value) then Ok("\"{{ " + value + " }}\"")
    else Ok(value)
  }

  // ----------------------------------------------------------- conversion

  function Keys(chunks: seq<Chunk>): set<string> {
    set c <- chunks :: c.key
  }

  /** validate_supported_source: why a task cannot be converted. */
  function Refusal(removed: Pattern, block: Block, chunks: seq<Chunk>, state: PackageState): Option<Error> {
    if OPKG in Keys(chunks) then
      if "loop" in Keys(chunks) || NameExpression(chunks, block.indent).Some? then None else Some(NoPackages)
    else if state == Absent && SHELL in Keys(chunks) && RemoveExpression(removed, block.lines).Some? then None
    else Some(Unsupported)
  }

  /** The expression given, or else the first that can be derived. */
  function Expression(removed: Pattern, block: Block, chunks: seq<Chunk>, given: Option<string>, state: PackageState): Option<string>
    requires forall c <- chunks :: c.lines != []
  {
    if given.Some? then given
    else if LoopExpression(chunks).Some? then LoopExpression(chunks)
    else if NameExpression(chunks, block.indent).Some? then NameExpression(chunks, block.indent)
    else if state == Absent then RemoveExpression(removed, block.lines)
    else None
  }

  function StateText(state: PackageState): string {
    match state case Present => "present" case Absent => "absent"
  }

  function UpdateCache(given: Option<string>, state: PackageState): string {
    if given.Some? && given.value != "" then given.value
    else if state == Absent then "false"
    else "\"{{ openwrt_opkg_update | default(true) }}\""
  }

  /** A top-level key, and a line below it; each is ended by a newline. */
  function KeyBody(indent: string, key: string): string {
    indent + ("  " + key + ":")
  }

  function DeepBody(indent: string, text: string): string {
    indent + ("    " + text)
  }

  /** The chunks that replace the consumed ones. */
  function IncludeChunk(indent: string): Chunk {
    Chunk(INCLUDE, [KeyBody(indent, INCLUDE) + "\n", DeepBody(indent, "name: openwrt_package") + "\n"])
  }

  function VarsChunk(indent: string, packages: string, state: PackageState, cache: string): Chunk {
    Chunk("vars", [
      KeyBody(indent, "vars") + "\n",
      DeepBody(indent, "openwrt_package_names: " + packages) + "\n",
      DeepBody(indent, "openwrt_package_state: " + StateText(state)) + "\n",
      DeepBody(indent, "openwrt_package_update_cache: " + cache) + "\n"])
  }

  function Preserved(chunks: seq<Chunk>): seq<Chunk> {
    if chunks == [] then []
    else (if chunks[0].key in CONSUMED then [] else [chunks[0]]) + Preserved(chunks[1..])
  }

  /** convert_block */
  function Converted(removed: Pattern, block: Block, given: Option<string>, state: PackageState, cache: Option<string>): Result<seq<string>>
    requires block.lines != []
  {
    var chunks := Chunks(block.lines, block.indent, 1);
    ChunksOk(block.lines, block.indent, 1);
    var refusal, expression := Refusal(removed, block, chunks, state), Expression(removed, block, chunks, given, state);
    if refusal.Some? then Exit(refusal.value)
    else if expression.None? then Exit(NoExpression)
    else
      var packages := Normalize(expression.value);
      if packages.Exit? then Exit(packages.error)
      else
        Ok([block.lines[0]] + IncludeChunk(block.indent).lines
           + VarsChunk(block.indent, packages.value, state, UpdateCache(cache, state)).lines
           + Flat(Preserved(chunks)))
  }

  method ConvertBlock(removed: Pattern, block: Block, given: Option<string>, state: PackageState, cache: Option<string>)
      returns (r: Result<seq<string>>)
    requires block.lines != []
    ensures r == Converted(removed, block, given, state, cache)
  {
    hide Chunks, ChunkOk, Refusal, Expression, Normalize, IncludeChunk, VarsChunk, UpdateCache, Flat, Preserved;
    var chunks := TopLevelChunks(block);
    ChunksOk(block.lines, block.indent, 1);
    ChunksFilled(block.lines, block.indent, 1);
    var refusal := Refusal(removed, block, chunks, state);
    if refusal.Some? {
      return Exit(refusal.value);
    }
    var expression := Expression(removed, block, chunks, given, state);
    if expression.None? {
      return Exit(NoExpression);
    }
    var packages := Normalize(expression.value);
    if packages.Exit? {
      return Exit(packages.error);
    }
    var kept := KeepChunks(chunks);
    return Ok([block.lines[0]] + IncludeChunk(block.indent).lines
              + VarsChunk(block.indent, packages.value, state, UpdateCache(cache, state)).lines + kept);
  }

  /** The loops that pick the preserved chunks and append their lines. */
  method KeepChunks(chunks: seq<Chunk>) returns (lines: seq<string>)
    ensures lines == Flat(Preserved(chunks))
  {
    hide Flat, Preserved, CONSUMED;
    lines := [];
    assert chunks[0..] == chunks;
    for i := 0 to |chunks|
      invariant lines + Flat(Preserved(chunks[i..])) == Flat(Preserved(chunks))
    {
      KeepOne(chunks[i..]);
      assert chunks[i..][1..] == chunks[i + 1..];
      if chunks[i].key !in CONSUMED {
        lines := lines + chunks[i].lines;
      }
    }
    assert chunks[|chunks|..] == [];
    KeepNone();
  }

  lemma ChunksFilled(lines: seq<string>, indent: string, i: nat)
    requires i <= |lines|
    ensures forall c <- Chunks(lines, indent, i) :: c.lines != []
  {
    ChunksOk(lines, indent, i);
    hide Chunks, Key;
  }

  lemma KeepOne(chunks: seq<Chunk>)
    requires chunks != []
    ensures Flat(Preserved(chunks))
         == (if chunks[0].key in CONSUMED then [] else chunks[0].lines) + Flat(Preserved(chunks[1..]))
  {
    hide CONSUMED, Flat;
    FlatCons(chunks[0], Preserved(chunks[1..]));
    assert [] + Preserved(chunks[1..]) == Preserved(chunks[1..]);
  }

  lemma FlatCons(first: Chunk, rest: seq<Chunk>)
    ensures Flat([first] + rest) == first.lines + Flat(rest)
  {
    assert ([first] + rest)[1..] == rest;
  }

  lemma KeepNone()
    ensures Flat(Preserved([])) == []
  {
  }

  /** convert_text */
  function ConvertText(removed: Pattern, text: string, name: string, given: Option<string>, state: PackageState, cache: Option<string>): Result<string> {
    var lines := SplitLines(text);
    var block := Find(lines, name);
    if block.Exit? then Exit(block.error)
    else
      var converted := Converted(removed, block.value, given, state, cache);
      if converted.Exit? then Exit(converted.error)
      else Ok(Concat(lines[..block.value.start] + converted.value + lines[block.value.end..]))
  }

  // --------------------------------------------- the terms used above

  lemma {:induction false} KeyRunOf(key: string, rest: string)
    requires (forall c <- key :: IsKeyChar(c)) && (rest == "" || !IsKeyChar(rest[0]))
    ensures KeyRun(key + rest) == |key|
  {
    hide IsKeyChar;
    if key == "" {
      assert key + rest == rest;
    } else {
      assert (key + rest)[1..] == key[1..] + rest;
      KeyRunOf(key[1..], rest);
    }
  }

  predicate KeyChar(c: char) {
    'A' <= c <= 'Z' || 'a' <= c <= 'z' || '0' <= c <= '9' || c in {'_', '.', '-'}
  }

  /** A key two deeper than the task, a colon, and white space or nothing. */
  ghost predicate KeyLine(line: string, indent: string, key: string, rest: string) {
    && key != "" && (forall i | 0 <= i < |key| :: KeyChar(key[i]))
    && line == indent + "  " + key + ":" + rest && (rest == "" || IsSpace(rest[0]))
  }

  lemma {:induction false} KeyRunIs(text: string)
    ensures forall i | 0 <= i < KeyRun(text) :: IsKeyChar(text[i])
    ensures KeyRun(text) < |text| ==> !IsKeyChar(text[KeyRun(text)])
  {
    hide IsKeyChar;
    if text != "" && IsKeyChar(text[0]) {
      KeyRunIs(text[1..]);
      assert forall k | 0 < k < KeyRun(text) :: text[k] == text[1..][k - 1];
    }
  }

  /** Exactly which lines are keys. */
  lemma KeyIff(line: string, indent: string, key: string)
    ensures Key(line, indent) == Some(key) <==> exists rest :: KeyLine(line, indent, key, rest)
  {
    if Key(line, indent) == Some(key) {
      var tail := line[|indent| + 2..];
      KeyRunIs(tail);
      var n := KeyRun(tail);
      var rest := tail[n + 1..];
      hide KeyRun, IsSpace;
      assert tail == key + ":" + rest;
      assert line == indent + "  " + tail;
      assert indent + "  " + (key + ":" + rest) == indent + "  " + key + ":" + rest;
      assert KeyLine(line, indent, key, rest);
    }
    forall rest | KeyLine(line, indent, key, rest)
      ensures Key(line, indent) == Some(key)
    {
      KeyFound(line, indent, key, rest);
    }
  }

  lemma KeyFound(line: string, indent: string, key: string, rest: string)
    requires KeyLine(line, indent, key, rest)
    ensures Key(line, indent) == Some(key)
  {
    var tail := line[|indent| + 2..];
    assert line[..|indent| + 2] == indent + "  ";
    assert tail == key + (":" + rest);
    assert !IsKeyChar(':');
    forall c <- key
      ensures IsKeyChar(c)
    {
      var i :| 0 <= i < |key| && key[i] == c;
    }
    KeyRunOf(key, ":" + rest);
    hide KeyRun, IsSpace, IsKeyChar;
    assert tail[..|key|] == key && tail[|key|] == ':';
    assert rest != "" ==> tail[|key| + 1] == rest[0];
  }

  /** The line that starts a task: white space, the name, and up to two newlines. */
  lemma TaskIff(line: string, name: string)
    ensures IsTask(line, name) <==>
              exists n :: 0 <= n <= |line| && (forall k | 0 <= k < n :: IsSpace(line[k]))
                          && line[n..] in {"- name: " + name, "- name: " + name + "\n", "- name: " + name + "\n\n"}
  {
    SpaceRunIs(line);
    DashNoSpace();
    forall n | 0 <= n <= |line| && (forall k | 0 <= k < n :: IsSpace(line[k]))
               && line[n..] in {"- name: " + name, "- name: " + name + "\n", "- name: " + name + "\n\n"}
      ensures SpaceRun(line) == n
    {
      StartsDash(line[n..], name);
      SpaceRunAt(line, n);
    }
    hide IsSpace, SpaceRun;
  }

  /** The line that starts another task at the same depth. */
  lemma NextIff(line: string, indent: string)
    ensures IsNext(line, indent) <==> exists rest :: line == indent + ("- name: " + rest)
  {
    if IsNext(line, indent) {
      var rest := line[|indent + "- name: "|..];
      assert line == (indent + "- name: ") + rest;
      assert indent + ("- name: " + rest) == indent + "- name: " + rest;
    }
    forall rest | line == indent + ("- name: " + rest)
      ensures IsNext(line, indent)
    {
      assert line == indent + "- name: " + rest;
    }
  }

  lemma StartsDash(text: string, name: string)
    requires text in {"- name: " + name, "- name: " + name + "\n", "- name: " + name + "\n\n"}
    ensures text != "" && text[0] == '-'
  {
  }

  lemma DashNoSpace()
    ensures !IsSpace('-') && !IsSpace('|')
  {
  }

  lemma {:induction false} AfterColonIs(before: string, after: string)
    requires ':' !in before
    ensures AfterColon(before + ":" + after) == after
  {
    var text := before + ":" + after;
    if before == "" {
      assert text[1..] == after;
    } else {
      assert before[0] in before;
      assert text[1..] == before[1..] + ":" + after;
      AfterColonIs(before[1..], after);
    }
  }

  /** The expression of a loop: what follows the first colon of the first loop key,
      without the white space around it. */
  ghost predicate LoopSays(chunks: seq<Chunk>, value: string, i: nat, before: string, after: string)
    requires forall c <- chunks :: c.lines != []
  {
    && i < |chunks| && chunks[i].key == "loop" && (forall k | 0 <= k < i :: chunks[k].key != "loop")
    && chunks[i].lines[0] == before + ":" + after && ':' !in before && Trimmed(after, value)
  }

  lemma {:induction false} LoopIs(chunks: seq<Chunk>, value: string, i: nat, before: string, after: string)
    requires forall c <- chunks :: c.lines != []
    requires LoopSays(chunks, value, i, before, after)
    ensures LoopExpression(chunks) == Some(value)
  {
    hide Trimmed, AfterColon, Strip;
    if i == 0 {
      AfterColonIs(before, after);
      StripIff(after, value);
    } else {
      assert chunks[0].key != "loop";
      assert forall c <- chunks[1..] :: c in chunks;
      assert forall k | 0 <= k < i - 1 :: chunks[1..][k] == chunks[k + 1];
      LoopIs(chunks[1..], value, i - 1, before, after);
    }
  }

  lemma {:induction false} NoLoop(chunks: seq<Chunk>)
    requires forall c <- chunks :: c.lines != []
    ensures LoopExpression(chunks).None? <==> forall c <- chunks :: c.key != "loop"
  {
    if chunks != [] {
      assert forall c <- chunks[1..] :: c in chunks;
      NoLoop(chunks[1..]);
      assert chunks == [chunks[0]] + chunks[1..];
    }
  }

  /** A line under opkg that names a package, or blanks that stand for one. */
  ghost predicate Names(line: string, indent: string, value: string) {
    exists rest :: line == indent + "    name:" + rest && (exists i :: 0 <= i < |rest| && rest[i] != '\n') && Trimmed(rest, value)
  }

  lemma NamesIff(line: string, indent: string, value: string)
    ensures NameValue(line, indent) == Some(value) <==> Names(line, indent, value)
  {
    hide Trimmed, Strip;
    var prefix := indent + "    name:";
    if prefix <= line {
      var rest := line[|prefix|..];
      assert line == prefix + rest;
      StripIff(rest, value);
      SomeChar(rest);
      forall other | line == prefix + other
        ensures other == rest
      {
        assert (prefix + other)[|prefix|..] == other;
      }
    }
  }

  lemma SomeChar(text: string)
    ensures (exists c <- text :: c != '\n') <==> exists i :: 0 <= i < |text| && text[i] != '\n'
  {
    if i :| 0 <= i < |text| && text[i] != '\n' {
      assert text[i] in text;
    }
  }

  /** The name is that of the first line that names one in the opkg chunks. */
  ghost predicate NamedAt(chunks: seq<Chunk>, indent: string, value: string, i: nat, j: nat) {
    && i < |chunks| && chunks[i].key == "ansible.builtin.opkg" && j < |chunks[i].lines|
    && Names(chunks[i].lines[j], indent, value)
    && (forall b, u | 0 <= b < j :: !Names(chunks[i].lines[b], indent, u))
    && forall a, b, u | 0 <= a < i && chunks[a].key == "ansible.builtin.opkg" && 0 <= b < |chunks[a].lines| ::
         !Names(chunks[a].lines[b], indent, u)
  }

  lemma {:induction false} FirstNameIs(lines: seq<string>, indent: string, value: string, j: nat)
    requires j < |lines| && Names(lines[j], indent, value) && forall b, u | 0 <= b < j :: !Names(lines[b], indent, u)
    ensures FirstName(lines, indent) == Some(value)
  {
    hide NameValue, Names;
    if j == 0 {
      NamesIff(lines[0], indent, value);
    } else {
      if NameValue(lines[0], indent).Some? {
        NamesIff(lines[0], indent, NameValue(lines[0], indent).value);
      }
      assert forall b | 0 <= b < j - 1 :: lines[1..][b] == lines[b + 1];
      FirstNameIs(lines[1..], indent, value, j - 1);
    }
  }

  lemma {:induction false} NoName(lines: seq<string>, indent: string)
    requires forall b, u | 0 <= b < |lines| :: !Names(lines[b], indent, u)
    ensures FirstName(lines, indent).None?
  {
    hide NameValue, Names;
    if lines != [] {
      if NameValue(lines[0], indent).Some? {
        NamesIff(lines[0], indent, NameValue(lines[0], indent).value);
      }
      assert forall b | 0 <= b < |lines| - 1 :: lines[1..][b] == lines[b + 1];
      NoName(lines[1..], indent);
    }
  }

  lemma {:induction false} OpkgNameIs(chunks: seq<Chunk>, indent: string, value: string, i: nat, j: nat)
    requires NamedAt(chunks, indent, value, i, j)
    ensures OpkgName(chunks, indent) == Some(value)
  {
    hide Names, FirstName;
    if i == 0 {
      FirstNameIs(chunks[0].lines, indent, value, j);
    } else {
      if chunks[0].key == OPKG {
        NoName(chunks[0].lines, indent);
      }
      assert forall a | 0 <= a < |chunks| - 1 :: chunks[1..][a] == chunks[a + 1];
      OpkgNameIs(chunks[1..], indent, value, i - 1, j);
    }
  }

  /** What is made of it: nothing of a loop variable, a template as it is, and
      anything else as a list of one, all without quotes around it. */
  lemma NameIs(chunks: seq<Chunk>, indent: string, value: string, i: nat, j: nat)
    requires NamedAt(chunks, indent, value, i, j)
    ensures NameExpression(chunks, indent)
         == var plain := if |value| >= 2 && value[0] in {'"', '\''} && value[|value| - 1] in {'"', '\''}
                         then value[1..|value| - 1] else if value in {"\"", "'"} then "" else value;
            if value in {"\"{{ item }}\"", "'{{ item }}'", "{{ item }}"} then None
            else if "{{" <= plain then Some(plain) else Some("['" + plain + "']")
  {
    hide *;
    OpkgNameIs(chunks, indent, value, i, j);
    UnquotedIs(value);
    NameFrom(chunks, indent, value);
  }

  lemma UnquotedIs(value: string)
    ensures Unquoted(value)
         == if |value| >= 2 && value[0] in {'"', '\''} && value[|value| - 1] in {'"', '\''}
            then value[1..|value| - 1] else if value in {"\"", "'"} then "" else value
  {
    assert |value| == 1 ==> value == [value[0]];
  }

  lemma NameFrom(chunks: seq<Chunk>, indent: string, value: string)
    requires OpkgName(chunks, indent) == Some(value)
    ensures NameExpression(chunks, indent)
         == if value in {"\"{{ item }}\"", "'{{ item }}'", "{{ item }}"} then None
            else if "{{" <= Unquoted(value) then Some(Unquoted(value)) else Some("['" + Unquoted(value) + "']")
  {
    hide OpkgName, Unquoted;
  }

  /** Word characters that do not start with a digit, perhaps with filters. */
  ghost predicate Variable(text: string) {
    exists n, m :: VariableAt(text, n, m)
  }

  ghost predicate VariableAt(text: string, n: nat, m: nat) {
    && 0 < n <= |text| && !('0' <= text[0] <= '9')
    && (forall k | 0 <= k < n :: 'A' <= text[k] <= 'Z' || 'a' <= text[k] <= 'z' || '0' <= text[k] <= '9' || text[k] == '_')
    && (n == |text|
        || (n <= m < |text| && text[m] == '|' && (forall k | n <= k < m :: IsSpace(text[k])) && forall k | m <= k < |text| :: text[k] != '\n'))
  }

  predicate WordChar(c: char) {
    'A' <= c <= 'Z' || 'a' <= c <= 'z' || '0' <= c <= '9' || c == '_'
  }

  lemma {:induction false} WordRunIs(text: string)
    ensures forall k | 0 <= k < WordRun(text) :: WordChar(text[k])
    ensures WordRun(text) < |text| ==> !WordChar(text[WordRun(text)])
  {
    if text != "" && WordChar(text[0]) {
      WordRunIs(text[1..]);
      hide WordChar;
      assert forall k | 0 < k < WordRun(text) :: text[k] == text[1..][k - 1];
    }
  }

  lemma WordRunAt(text: string, n: nat)
    requires n <= |text| && (forall k | 0 <= k < n :: WordChar(text[k])) && (n < |text| ==> !WordChar(text[n]))
    ensures WordRun(text) == n
  {
    WordRunIs(text);
    hide WordChar, WordRun;
  }

  lemma VariableIff(text: string)
    ensures IsVariable(text) <==> Variable(text)
  {
    if IsVariable(text) {
      VariableHere(text);
    }
    forall n: nat, m: nat | VariableAt(text, n, m)
      ensures IsVariable(text)
    {
      IsVariableAt(text, n, m);
    }
    hide IsVariable, VariableAt;
  }

  lemma VariableHere(text: string)
    requires IsVariable(text)
    ensures Variable(text)
  {
    var n := WordRun(text);
    WordRunIs(text);
    if n == |text| {
      hide WordRun;
      assert VariableAt(text, n, n);
    } else {
      hide WordRun, SpaceRun, IsSpace;
      FiltersAt(text, n);
      assert VariableAt(text, n, n + SpaceRun(text[n..]));
    }
  }

  lemma FiltersAt(text: string, n: nat)
    requires n < |text|
    requires var rest := text[n..]; var m := SpaceRun(rest); m < |rest| && rest[m] == '|' && forall c <- rest[m..] :: c != '\n'
    ensures var m := n + SpaceRun(text[n..]);
            && m < |text| && text[m] == '|' && (forall k | n <= k < m :: IsSpace(text[k]))
            && forall k | m <= k < |text| :: text[k] != '\n'
  {
    var rest := text[n..];
    SpaceRunIs(rest);
    hide SpaceRun, IsSpace;
    var m := n + SpaceRun(rest);
    assert forall k | n <= k < |text| :: text[k] == rest[k - n];
    forall k | m <= k < |text|
      ensures text[k] != '\n'
    {
      assert rest[m - n..][k - m] == text[k] && rest[m - n..][k - m] in rest[m - n..];
    }
  }

  lemma IsVariableAt(text: string, n: nat, m: nat)
    requires VariableAt(text, n, m)
    ensures IsVariable(text)
  {
    SpacesNoWord();
    DashNoSpace();
    hide IsSpace, SpaceRun, WordRun;
    WordRunAt(text, n);
    var rest := text[n..];
    if n < |text| {
      assert forall k | n <= k < |text| :: rest[k - n] == text[k];
      SpaceRunAt(rest, m - n);
      NoNewline(text, n, m);
    } else {
      assert rest == "";
    }
  }

  lemma NoNewline(text: string, n: nat, m: nat)
    requires n <= m <= |text| && forall k | m <= k < |text| :: text[k] != '\n'
    ensures '\n' !in text[n..][m - n..]
  {
    assert text[n..][m - n..] == text[m..];
  }

  lemma SpacesNoWord()
    ensures forall c :: IsSpace(c) || c == '|' ==> !WordChar(c)
  {
  }

  /** What becomes of an expression without the white space around it. */
  ghost function Normal(text: string): Result<string> {
    if text == "" then Exit(EmptyExpression)
    else if text[0] == '"' || text[0] == '\'' then Ok(text)
    else if "{{" <= text && text[|text| - 2..] == "}}" then Ok("\"" + text + "\"")
    else if text[0] == '[' || text[0] == '{' then Ok(text)
    else if Variable(text) then Ok("\"{{ " + text + " }}\"")
    else Ok(text)
  }

  /** Exactly what an expression is normalised to: quoted ones, lists and other
      texts stay, a template is quoted, and a variable becomes a quoted template. */
  lemma NormalizeIff(raw: string, text: string)
    requires Trimmed(raw, text)
    ensures Normalize(raw) == Normal(text)
  {
    StripIff(raw, text);
    VariableIff(text);
    hide IsVariable, Variable, Trimmed, Strip;
  }

  /** The seven keys that a conversion takes out. */
  predicate TakenOut(key: string) {
    key in {"ansible.builtin.opkg", "ansible.builtin.shell", "loop", "loop_control", "register", "changed_when", "failed_when"}
  }

  /** Positions one further on. */
  function Shift(at: seq<nat>): (r: seq<nat>)
    ensures |r| == |at| && forall k | 0 <= k < |at| :: r[k] == at[k] + 1
  {
    seq(|at|, k requires 0 <= k < |at| => at[k] + 1)
  }

  lemma ShiftIn(at: seq<nat>, i: nat)
    ensures i in Shift(at) <==> i > 0 && i - 1 in at
  {
    if i > 0 && i - 1 in at {
      var k :| 0 <= k < |at| && at[k] == i - 1;
      assert Shift(at)[k] == i;
    }
  }

  /** These are the positions of the chunks that are not taken out. */
  ghost predicate KeptAt(chunks: seq<Chunk>, kept: seq<Chunk>, at: seq<nat>) {
    && |at| == |kept| && (forall i, j | 0 <= i < j < |at| :: at[i] < at[j])
    && (forall k | 0 <= k < |at| :: at[k] < |chunks| && kept[k] == chunks[at[k]])
    && forall i: nat | i < |chunks| :: i in at <==> !TakenOut(chunks[i].key)
  }

  lemma ShiftedFacts(first: Chunk, rest: seq<Chunk>, kept: seq<Chunk>, at: seq<nat>)
    requires KeptAt(rest, kept, at)
    ensures var chunks, later := [first] + rest, Shift(at);
            && |later| == |kept| && (forall i, j | 0 <= i < j < |later| :: later[i] < later[j])
            && (forall k | 0 <= k < |later| :: 0 < later[k] < |chunks| && kept[k] == chunks[later[k]])
            && forall i: nat | i < |chunks| :: i in later <==> i > 0 && !TakenOut(chunks[i].key)
  {
    hide TakenOut;
    var chunks, later := [first] + rest, Shift(at);
    forall k | 0 <= k < |later|
      ensures later[k] < |chunks| && kept[k] == chunks[later[k]]
    {
      assert later[k] == at[k] + 1 && kept[k] == rest[at[k]];
    }
    forall i: nat | i < |chunks|
      ensures i in later <==> i > 0 && !TakenOut(chunks[i].key)
    {
      ShiftIn(at, i);
      assert i > 0 ==> chunks[i] == rest[i - 1];
    }
  }

  lemma KeptSkip(first: Chunk, rest: seq<Chunk>, kept: seq<Chunk>, at: seq<nat>)
    requires KeptAt(rest, kept, at) && TakenOut(first.key)
    ensures KeptAt([first] + rest, kept, Shift(at))
  {
    hide *;
    ShiftedFacts(first, rest, kept, at);
    KeptIs([first] + rest, kept, Shift(at));
  }

  lemma ConsIn(later: seq<nat>, i: nat)
    ensures i in [0] + later <==> i == 0 || i in later
  {
  }

  lemma KeptTake(first: Chunk, rest: seq<Chunk>, kept: seq<Chunk>, at: seq<nat>)
    requires KeptAt(rest, kept, at) && !TakenOut(first.key)
    ensures KeptAt([first] + rest, [first] + kept, [0] + Shift(at))
  {
    hide *;
    ShiftedFacts(first, rest, kept, at);
    var chunks, later := [first] + rest, Shift(at);
    forall i: nat | i < |chunks|
      ensures i in [0] + later <==> !TakenOut(chunks[i].key)
    {
      ConsIn(later, i);
    }
    KeptIs(chunks, [first] + kept, [0] + later);
  }

  lemma KeptIs(chunks: seq<Chunk>, kept: seq<Chunk>, at: seq<nat>)
    requires |at| == |kept| && (forall i, j | 0 <= i < j < |at| :: at[i] < at[j])
    requires forall k | 0 <= k < |at| :: at[k] < |chunks| && kept[k] == chunks[at[k]]
    requires forall i: nat | i < |chunks| :: i in at <==> !TakenOut(chunks[i].key)
    ensures KeptAt(chunks, kept, at)
  {
    hide TakenOut;
  }

  /** The chunks kept are the others, in their order. */
  lemma {:induction false} PreservedAt(chunks: seq<Chunk>) returns (at: seq<nat>)
    ensures KeptAt(chunks, Preserved(chunks), at)
  {
    hide TakenOut, CONSUMED, KeptAt;
    if chunks == [] {
      at := [];
      NoneKept();
    } else {
      var first, rest := chunks[0], chunks[1..];
      var later := PreservedAt(rest);
      TakenIff(first.key);
      assert chunks == [first] + rest;
      if TakenOut(first.key) {
        KeptSkip(first, rest, Preserved(rest), later);
        at := Shift(later);
        assert [] + Preserved(rest) == Preserved(rest);
      } else {
        KeptTake(first, rest, Preserved(rest), later);
        at := [0] + Shift(later);
      }
    }
  }

  lemma NoneKept()
    ensures KeptAt([], Preserved([]), [])
  {
  }

  lemma TakenIff(key: string)
    ensures key in CONSUMED <==> TakenOut(key)
  {
  }

  /** The generated lines, piece by piece. */
  lemma GeneratedLines(indent: string, packages: string, state: PackageState, cache: string)
    ensures IncludeChunk(indent).lines
         == [indent + ("  " + "ansible.builtin.include_role" + ":\n"), indent + ("    " + "name: openwrt_package" + "\n")]
    ensures VarsChunk(indent, packages, state, cache).lines
         == [indent + ("  " + "vars" + ":\n"),
             indent + ("    " + "openwrt_package_names: " + packages + "\n"),
             indent + ("    " + "openwrt_package_state: " + (if state == Absent then "absent" else "present") + "\n"),
             indent + ("    " + "openwrt_package_update_cache: " + cache + "\n")]
  {
    hide *;
    KeyText(indent, INCLUDE);
    KeyText(indent, "vars");
    DeepText(indent, "name: openwrt_package");
    DeepText(indent, "openwrt_package_names: " + packages);
    DeepText(indent, "openwrt_package_state: " + StateText(state));
    DeepText(indent, "openwrt_package_update_cache: " + cache);
    ThreeParts("    ", "openwrt_package_names: ", packages);
    ThreeParts("    ", "openwrt_package_state: ", StateText(state));
    ThreeParts("    ", "openwrt_package_update_cache: ", cache);
    ChunkLines(indent, packages, state, cache);
    StateIs(state);
    IncludeIs();
  }

  lemma IncludeIs()
    ensures INCLUDE == "ansible.builtin.include_role"
  {
  }

  lemma KeyText(indent: string, key: string)
    ensures KeyBody(indent, key) + "\n" == indent + ("  " + key + ":\n")
  {
    assert ":" + "\n" == ":\n";
  }

  lemma DeepText(indent: string, text: string)
    ensures DeepBody(indent, text) + "\n" == indent + ("    " + text + "\n")
  {
  }

  lemma ThreeParts(a: string, b: string, c: string)
    ensures a + (b + c) == a + b + c
  {
  }

  lemma StateIs(state: PackageState)
    ensures StateText(state) == if state == Absent then "absent" else "present"
  {
  }

  lemma ChunkLines(indent: string, packages: string, state: PackageState, cache: string)
    ensures IncludeChunk(indent).lines == [KeyBody(indent, INCLUDE) + "\n", DeepBody(indent, "name: openwrt_package") + "\n"]
    ensures VarsChunk(indent, packages, state, cache).lines
         == [KeyBody(indent, "vars") + "\n", DeepBody(indent, "openwrt_package_names: " + packages) + "\n",
             DeepBody(indent, "openwrt_package_state: " + StateText(state)) + "\n",
             DeepBody(indent, "openwrt_package_update_cache: " + cache) + "\n"]
  {
    hide KeyBody, DeepBody, StateText;
  }

  // ---------------------------------------------- when a task is converted

  /** What has to be in a task for it to be converted: opkg with a loop or a name,
      or, to remove a package, a shell command that does. */
  lemma RefusalIff(removed: Pattern, block: Block, chunks: seq<Chunk>, state: PackageState)
    ensures var opkg := exists c <- chunks :: c.key == "ansible.builtin.opkg";
            var loop := exists c <- chunks :: c.key == "loop";
            var shell := exists c <- chunks :: c.key == "ansible.builtin.shell";
            Refusal(removed, block, chunks, state)
            == if opkg then (if loop || NameExpression(chunks, block.indent).Some? then None else Some(NoPackages))
               else if state == Absent && shell && removed(Concat(block.lines)).Some? then None
               else Some(Unsupported)
  {
    hide NameExpression, Concat;
  }

  /** Where the expression is taken from: what is given, else the loop, else the
      name, else, to remove a package, the command. */
  lemma ExpressionIs(removed: Pattern, block: Block, chunks: seq<Chunk>, given: Option<string>, state: PackageState)
    requires forall c <- chunks :: c.lines != []
    ensures var loop, name := LoopExpression(chunks), NameExpression(chunks, block.indent);
            var command := removed(Concat(block.lines));
            var expression := Expression(removed, block, chunks, given, state);
            && (given.Some? ==> expression == given)
            && (given.None? && loop.Some? ==> expression == loop)
            && (given.None? && loop.None? && name.Some? ==> expression == name)
            && (given.None? && loop.None? && name.None? && state == Absent && command.Some? ==>
                  expression == Some("['" + command.value + "']"))
            && (given.None? && loop.None? && name.None? && (state == Present || command.None?) ==> expression == None)
  {
    hide LoopExpression, NameExpression, Concat;
  }

  /** The cache value: what is given, unless it is empty, else one that depends on
      what is to be done. */
  lemma UpdateCacheIs(given: Option<string>, state: PackageState)
    ensures given.Some? && given.value != "" ==> UpdateCache(given, state) == given.value
    ensures given.None? || given.value == "" ==>
              UpdateCache(given, Absent) == "false" && UpdateCache(given, Present) == "\"{{ openwrt_opkg_update | default(true) }}\""
  {
  }
}
