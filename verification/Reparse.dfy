/** What a rewritten task reads as. */
module Reparse {
  import opened Basics
  import opened Texts
  import opened Rewriter

  // ------------------------------------------------------ proper new lines

  function Bodies(indent: string, packages: string, state: PackageState, cache: string): seq<string> {
    [KeyBody(indent, INCLUDE),
     DeepBody(indent, "name: openwrt_package"),
     KeyBody(indent, "vars"),
     DeepBody(indent, "openwrt_package_names: " + packages),
     DeepBody(indent, "openwrt_package_state: " + StateText(state)),
     DeepBody(indent, "openwrt_package_update_cache: " + cache)]
  }

  lemma KeyBodyFits(indent: string, key: string)
    requires BreakFree(indent) && forall i | 0 <= i < |key| :: ' ' <= key[i] <= '~'
    ensures Fits(KeyBody(indent, key))
  {
    hide BreakFree, Fits;
    Printable("  " + key + ":");
    FreeFits("  " + key + ":");
    FitsAppend(indent, "  " + key + ":");
  }

  lemma DeepBodyFits(indent: string, prefix: string, value: string)
    requires BreakFree(indent) && forall i | 0 <= i < |prefix| :: ' ' <= prefix[i] <= '~'
    ensures Fits(DeepBody(indent, prefix + value)) <==> Fits(value)
  {
    hide BreakFree, Fits;
    Printable("    " + prefix);
    FitsAppend("    " + prefix, value);
    FitsAppend(indent, "    " + prefix + value);
    assert "    " + (prefix + value) == "    " + prefix + value;
  }

  lemma StateFits(state: PackageState)
    ensures Fits("") && Fits(StateText(state))
  {
    hide BreakFree;
    Printable(StateText(state));
    Printable("");
  }

  lemma BodiesFit(indent: string, packages: string, state: PackageState, cache: string)
    requires BreakFree(indent)
    ensures (forall b <- Bodies(indent, packages, state, cache) :: Fits(b)) <==> Fits(packages) && Fits(cache)
  {
    hide BreakFree, Fits, StateText, KeyBody, DeepBody;
    var bodies := Bodies(indent, packages, state, cache);
    StateFits(state);
    KeyBodyFits(indent, INCLUDE);
    DeepBodyFits(indent, "name: openwrt_package", "");
    assert "name: openwrt_package" + "" == "name: openwrt_package";
    KeyBodyFits(indent, "vars");
    DeepBodyFits(indent, "openwrt_package_names: ", packages);
    DeepBodyFits(indent, "openwrt_package_state: ", StateText(state));
    DeepBodyFits(indent, "openwrt_package_update_cache: ", cache);
    assert bodies[3] in bodies && bodies[5] in bodies;
  }

  /** Chunks whose lines stay lines when some of the chunks are left out. */
  ghost predicate Flow(chunks: seq<Chunk>, closed: bool) {
    chunks != [] ==> FlowChunk(chunks[0].lines, |chunks| > 1 || closed) && Flow(chunks[1..], closed)
  }

  ghost predicate FlowChunk(lines: seq<string>, closed: bool) {
    && lines != [] && LinesOk(lines) && Begins(lines[0])
    && (closed ==> Terminated(lines[|lines| - 1]))
  }

  lemma FlowCons(first: Chunk, rest: seq<Chunk>, closed: bool)
    requires FlowChunk(first.lines, rest != [] || closed) && Flow(rest, closed)
    ensures Flow([first] + rest, closed)
  {
    hide FlowChunk;
    assert ([first] + rest)[1..] == rest;
  }

  lemma KeyBegins(line: string, indent: string)
    requires Key(line, indent).Some? && BreakFree(indent)
    ensures Begins(line)
  {
    hide KeyRun;
    assert (indent + "  ")[0] == line[0];
    if indent != "" {
      assert line[0] in indent;
    }
  }

  lemma {:induction false} ChunksFlow(lines: seq<string>, indent: string, i: nat, closed: bool)
    requires LinesOk(lines) && BreakFree(indent) && i <= |lines|
    requires closed && lines != [] ==> Terminated(lines[|lines| - 1])
    ensures Flow(Chunks(lines, indent, i), closed)
    decreases |lines| - i
  {
    hide *;
    var k := NextKey(lines, indent, i);
    NextKeyFacts(lines, indent, i);
    if k < |lines| {
      var end := NextKey(lines, indent, k + 1);
      NextKeyFacts(lines, indent, k + 1);
      ChunksFlow(lines, indent, end, closed);
      ChunkFlows(lines, indent, k, end, closed);
      ChunksUnfold(lines, indent, i);
      FlowCons(Chunk(Key(lines[k], indent).value, lines[k..end]), Chunks(lines, indent, end), closed);
    } else {
      ChunksUnfold(lines, indent, i);
      FlowNil(closed);
    }
  }

  lemma FlowNil(closed: bool)
    ensures Flow([], closed)
  {
  }

  lemma NextKeyFacts(lines: seq<string>, indent: string, i: nat)
    requires i <= |lines|
    ensures i <= NextKey(lines, indent, i) <= |lines|
    ensures NextKey(lines, indent, i) < |lines| ==> Key(lines[NextKey(lines, indent, i)], indent).Some?
  {
    hide Key;
  }

  lemma ChunksUnfold(lines: seq<string>, indent: string, i: nat)
    requires i <= |lines|
    ensures i <= NextKey(lines, indent, i) <= |lines|
    ensures var k := NextKey(lines, indent, i);
            if k == |lines| then Chunks(lines, indent, i) == []
            else
              var end := NextKey(lines, indent, k + 1);
              && k < end <= |lines| && Key(lines[k], indent).Some?
              && Chunks(lines, indent, i) == [Chunk(Key(lines[k], indent).value, lines[k..end])] + Chunks(lines, indent, end)
  {
    hide Key;
  }

  lemma ChunkFlows(lines: seq<string>, indent: string, k: nat, end: nat, closed: bool)
    requires LinesOk(lines) && BreakFree(indent) && k < end <= |lines| && Key(lines[k], indent).Some?
    requires closed ==> Terminated(lines[|lines| - 1])
    ensures FlowChunk(lines[k..end], Chunks(lines, indent, end) != [] || closed)
  {
    hide Key, LinesOk, Terminated, Begins, BreakFree, Chunks;
    LinesSlice(lines, k, end);
    KeyBegins(lines[k], indent);
    if end == |lines| {
      NoChunks(lines, indent);
    }
  }

  lemma {:induction false} FlowKept(chunks: seq<Chunk>, closed: bool)
    requires Flow(chunks, closed)
    ensures Flow(Preserved(chunks), closed)
  {
    hide LinesOk, Terminated, Begins, CONSUMED;
    if chunks != [] {
      var rest := Preserved(chunks[1..]);
      FlowKept(chunks[1..], closed);
      assert ([chunks[0]] + rest)[1..] == rest;
      assert [] + rest == rest;
    }
  }

  lemma {:induction false} FlowLines(chunks: seq<Chunk>, closed: bool)
    requires Flow(chunks, closed)
    ensures LinesOk(Flat(chunks))
    ensures Flat(chunks) != [] ==> Begins(Flat(chunks)[0]) && (closed ==> Terminated(Flat(chunks)[|Flat(chunks)| - 1]))
  {
    hide Terminated, Begins, OneLine, Closed;
    if chunks != [] {
      hide LinesOk;
      FlowLines(chunks[1..], closed);
      LinesAppend(chunks[0].lines, Flat(chunks[1..])) by {
        if |chunks| == 1 {
          assert Flat(chunks[1..]) == [];
        }
      }
      if |chunks| == 1 {
        assert Flat(chunks[1..]) == [];
      }
    }
  }

  // --------------------------------------------------------- the main result

  lemma FindFacts(lines: seq<string>, name: string)
    requires LinesOk(lines) && Find(lines, name).Ok?
    ensures var Block(start, end, indent, own) := Find(lines, name).value;
            && start < end <= |lines| && own == lines[start..end]
            && BreakFree(indent) && indent == lines[start][..SpaceRun(lines[start])]
            && IsTask(lines[start], name) && (forall k | 0 <= k < start :: !IsTask(lines[k], name))
            && (forall k | start < k < end :: !IsNext(lines[k], indent))
            && (end < |lines| ==> IsNext(lines[end], indent) && Begins(lines[end]))
  {
    hide OneLine, Closed, IsBreak, SpaceRun;
    var Block(start, end, indent, own) := Find(lines, name).value;
    TaskIndent(lines[start], name);
    if end < |lines| {
      NextBegins(lines[end], indent);
    }
  }

  lemma TaskIndent(line: string, name: string)
    requires OneLine(line) && IsTask(line, name)
    ensures BreakFree(line[..SpaceRun(line)])
  {
    hide OneLine, IsBreak;
    var n := SpaceRun(line);
    NameStarts(name);
    var rest := line[n..];
    assert rest != [] && rest[0] == '-' && line[n] == rest[0];
    DashNoBreak();
    BodyTo(line, n);
  }

  lemma NameStarts(name: string)
    ensures forall text | text in {NAME + name, NAME + name + "\n", NAME + name + "\n\n"} :: text != "" && text[0] == '-'
  {
  }

  lemma DashNoBreak()
    ensures !IsBreak('-')
  {
  }

  lemma NextBegins(line: string, indent: string)
    requires BreakFree(indent) && IsNext(line, indent)
    ensures Begins(line)
  {
    assert (indent + NAME)[0] == line[0];
    if indent != "" {
      assert line[0] in indent;
    }
  }

  /** The lines of the new block. */
  function NewBlock(block: Block, packages: string, state: PackageState, cache: string): seq<string>
    requires block.lines != []
  {
    [block.lines[0]] + Made(Bodies(block.indent, packages, state, cache))
    + Flat(Preserved(Chunks(block.lines, block.indent, 1)))
  }

  function NewLines(lines: seq<string>, block: Block, packages: string, state: PackageState, cache: string): seq<string>
    requires block.lines != [] && block.start <= block.end <= |lines|
  {
    lines[..block.start] + NewBlock(block, packages, state, cache) + lines[block.end..]
  }

  lemma BodyBegins(indent: string, rest: string)
    requires BreakFree(indent) && rest != "" && rest[0] == ' '
    ensures Begins(indent + rest) && !IsNext(indent + rest + "\n", indent)
  {
    assert (indent + rest + "\n")[|indent|] == ' ';
    assert (indent + NAME)[|indent|] == '-';
    assert indent != "" ==> (indent + rest)[0] == indent[0] && indent[0] in indent;
  }

  lemma BodiesBegin(indent: string, packages: string, state: PackageState, cache: string)
    requires BreakFree(indent)
    ensures forall b <- Bodies(indent, packages, state, cache) :: Begins(b)
    ensures forall b <- Bodies(indent, packages, state, cache) :: !IsNext(b + "\n", indent)
  {
    hide BreakFree, Begins, IsNext, StateText;
    BodyBegins(indent, "  " + INCLUDE + ":");
    BodyBegins(indent, "    " + "name: openwrt_package");
    BodyBegins(indent, "  " + "vars" + ":");
    BodyBegins(indent, "    " + ("openwrt_package_names: " + packages));
    BodyBegins(indent, "    " + ("openwrt_package_state: " + StateText(state)));
    BodyBegins(indent, "    " + ("openwrt_package_update_cache: " + cache));
  }

  /** The new lines are lines exactly if the two expressions fit on theirs. */
  lemma NewLinesOk(lines: seq<string>, name: string, packages: string, state: PackageState, cache: string)
    requires LinesOk(lines) && Find(lines, name).Ok?
    requires var block := Find(lines, name).value; block.lines != [] && Chunks(block.lines, block.indent, 1) != []
    ensures LinesOk(NewLines(lines, Find(lines, name).value, packages, state, cache)) <==> Fits(packages) && Fits(cache)
  {
    hide *;
    FindFacts(lines, name);
    var block := Find(lines, name).value;
    NewLinesAre(lines, block, packages, state, cache);
    var bodies, kept := Bodies(block.indent, packages, state, cache), Flat(Preserved(Chunks(block.lines, block.indent, 1)));
    BodiesFit(block.indent, packages, state, cache);
    BodiesBegin(block.indent, packages, state, cache);
    MadeOk(bodies);
    MadeSize(block.indent, packages, state, cache);
    KeptFlow(lines, block, block.end < |lines|);
    LongBlock(lines, block);
    LinesSlice(lines, 0, block.start + 1);
    LinesSlice(lines, block.end, |lines|);
    assert lines[..block.start + 1] == lines[0..block.start + 1] && lines[block.end..] == lines[block.end..|lines|];
    FourParts(lines[..block.start + 1], Made(bodies), kept, lines[block.end..]);
  }

  /** Proper lines in between and after are proper lines exactly if the made
      ones are. */
  lemma FourParts(front: seq<string>, made: seq<string>, kept: seq<string>, tail: seq<string>)
    requires LinesOk(front) && front != [] && Terminated(front[|front| - 1])
    requires made != [] && Begins(made[0]) && Terminated(made[|made| - 1])
    requires LinesOk(kept) && LinesOk(tail) && (tail != [] ==> Begins(tail[0]))
    requires kept != [] ==> Begins(kept[0]) && (tail != [] ==> Terminated(kept[|kept| - 1]))
    ensures LinesOk(front + made + kept + tail) <==> LinesOk(made)
  {
    hide *;
    if LinesOk(made) {
      LinesAppend(front, made);
      assert (front + made)[|front + made| - 1] == made[|made| - 1];
      LinesAppend(front + made, kept);
      assert (front + made + kept)[|front + made + kept| - 1] == if kept == [] then made[|made| - 1] else kept[|kept| - 1];
      LinesAppend(front + made + kept, tail);
    } else {
      MadePart(front, made, kept + tail);
      assert front + made + (kept + tail) == front + made + kept + tail;
    }
  }

  lemma MadePart(front: seq<string>, made: seq<string>, tail: seq<string>)
    ensures LinesOk(front + made + tail) ==> LinesOk(made)
  {
    hide LinesOk;
    if LinesOk(front + made + tail) {
      LinesSlice(front + made + tail, |front|, |front| + |made|);
      assert (front + made + tail)[|front|..|front| + |made|] == made;
    }
  }

  lemma MadeSize(indent: string, packages: string, state: PackageState, cache: string)
    ensures |Made(Bodies(indent, packages, state, cache))| == |Bodies(indent, packages, state, cache)| == 6
  {
  }

  lemma NewLinesAre(lines: seq<string>, block: Block, packages: string, state: PackageState, cache: string)
    requires block.start < block.end <= |lines| && block.lines == lines[block.start..block.end]
    ensures NewLines(lines, block, packages, state, cache)
         == lines[..block.start + 1] + Made(Bodies(block.indent, packages, state, cache))
            + Flat(Preserved(Chunks(block.lines, block.indent, 1))) + lines[block.end..]
  {
    hide Made, Bodies, Flat, Preserved, Chunks;
    assert lines[..block.start + 1] == lines[..block.start] + [block.lines[0]];
  }

  /** The chunks of the block, and those that are kept, keep their lines. */
  lemma KeptFlow(lines: seq<string>, block: Block, closed: bool)
    requires LinesOk(lines) && block.start < block.end <= |lines| && block.lines == lines[block.start..block.end]
    requires BreakFree(block.indent) && closed == (block.end < |lines|)
    ensures var kept := Flat(Preserved(Chunks(block.lines, block.indent, 1)));
            && LinesOk(kept)
            && (kept != [] ==> Begins(kept[0]) && (closed ==> Terminated(kept[|kept| - 1])))
  {
    hide *;
    LinesSlice(lines, block.start, block.end);
    var chunks := Chunks(block.lines, block.indent, 1);
    ChunksFlow(block.lines, block.indent, 1, closed);
    FlowKept(chunks, closed);
    FlowLines(Preserved(chunks), closed);
  }

  lemma LongBlock(lines: seq<string>, block: Block)
    requires LinesOk(lines) && block.start < block.end <= |lines| && block.lines == lines[block.start..block.end]
    requires Chunks(block.lines, block.indent, 1) != []
    ensures Terminated(lines[block.start])
  {
    hide *;
    if |block.lines| == 1 {
      NoChunks(block.lines, block.indent);
    }
    LinesSlice(lines, 0, block.start + 1);
  }

  lemma {:induction false} KeptLines(chunks: seq<Chunk>)
    ensures forall line <- Flat(Preserved(chunks)) :: line in Flat(chunks)
  {
    if chunks == [] {
      KeepNone();
    } else {
      hide CONSUMED, Preserved;
      KeptLines(chunks[1..]);
      KeepOne(chunks);
    }
  }

  /** What determines the block found. */
  lemma FindIs(lines: seq<string>, name: string, start: nat, end: nat)
    requires start < end <= |lines|
    requires IsTask(lines[start], name) && forall k | 0 <= k < start :: !IsTask(lines[k], name)
    requires var indent := lines[start][..SpaceRun(lines[start])];
             && (forall k | start < k < end :: !IsNext(lines[k], indent))
             && (end < |lines| ==> IsNext(lines[end], indent))
    ensures Find(lines, name) == Ok(Block(start, end, lines[start][..SpaceRun(lines[start])], lines[start..end]))
  {
    hide IsTask, IsNext, SpaceRun;
    var indent := lines[start][..SpaceRun(lines[start])];
    FirstUnique(lines, line => IsTask(line, name), 0, start);
    FirstUnique(lines, line => IsNext(line, indent), start + 1, end);
  }

  /** In the new lines the same name finds the new block, and nothing more. */
  lemma FindAgain(lines: seq<string>, name: string, packages: string, state: PackageState, cache: string)
    requires LinesOk(lines) && Find(lines, name).Ok?
    ensures var block := Find(lines, name).value;
            && block.lines != [] && block.start < block.end <= |lines|
            && var own := NewBlock(block, packages, state, cache);
            Find(NewLines(lines, block, packages, state, cache), name)
            == Ok(Block(block.start, block.start + |own|, block.indent, own))
  {
    hide *;
    FindFacts(lines, name);
    var block := Find(lines, name).value;
    var own, added := NewBlock(block, packages, state, cache), NewLines(lines, block, packages, state, cache);
    OwnLines(block, packages, state, cache);
    NewLinesAt(lines, block, packages, state, cache);
    var start, end := block.start, block.start + |own|;
    assert own[0] == lines[start];
    assert added[start] == own[0];
    FindIs(added, name, start, end);
  }

  lemma NewLinesAt(lines: seq<string>, block: Block, packages: string, state: PackageState, cache: string)
    requires block.lines != [] && block.start <= block.end <= |lines|
    ensures var own, added := NewBlock(block, packages, state, cache), NewLines(lines, block, packages, state, cache);
            var end := block.start + |own|;
            && |added| == end + |lines| - block.end
            && (forall k | 0 <= k < block.start :: added[k] == lines[k])
            && (forall k | block.start <= k < end :: added[k] == own[k - block.start])
            && (end < |added| ==> added[end] == lines[block.end])
            && added[block.start..end] == own
            && added[..block.start] == lines[..block.start] && added[end..] == lines[block.end..]
  {
    hide NewBlock;
  }

  lemma OwnLines(block: Block, packages: string, state: PackageState, cache: string)
    requires block.lines != [] && BreakFree(block.indent)
    requires forall k | 0 < k < |block.lines| :: !IsNext(block.lines[k], block.indent)
    ensures var own := NewBlock(block, packages, state, cache);
            && own != [] && own[0] == block.lines[0]
            && forall k | 0 < k < |own| :: !IsNext(own[k], block.indent)
  {
    hide *;
    NewBlockIs(block, packages, state, cache);
    var bodies, chunks := Bodies(block.indent, packages, state, cache), Chunks(block.lines, block.indent, 1);
    var own := NewBlock(block, packages, state, cache);
    BodiesBegin(block.indent, packages, state, cache);
    KeptLines(chunks);
    ChunksOk(block.lines, block.indent, 1);
    NextKeyFacts(block.lines, block.indent, 1);
    forall k | 0 < k < |own|
      ensures !IsNext(own[k], block.indent)
    {
      if k <= |bodies| {
        assert bodies[k - 1] in bodies;
      } else {
        assert own[k] == Flat(Preserved(chunks))[k - 1 - |bodies|];
        assert own[k] in block.lines[NextKey(block.lines, block.indent, 1)..];
        var i :| NextKey(block.lines, block.indent, 1) <= i < |block.lines| && block.lines[i] == own[k];
      }
    }
  }

  lemma NewBlockIs(block: Block, packages: string, state: PackageState, cache: string)
    requires block.lines != []
    ensures var own, bodies, kept := NewBlock(block, packages, state, cache), Bodies(block.indent, packages, state, cache),
                                     Flat(Preserved(Chunks(block.lines, block.indent, 1)));
            && |own| == 1 + |bodies| + |kept| && own[0] == block.lines[0]
            && (forall k | 0 < k <= |bodies| :: own[k] == bodies[k - 1] + "\n")
            && forall k | |bodies| < k < |own| :: own[k] == kept[k - 1 - |bodies|]
  {
    hide Bodies, Flat, Preserved, Chunks;
  }

  // ------------------------------------------------- the new block's chunks

  lemma KeyOf(indent: string, key: string)
    requires key != "" && forall c <- key :: IsKeyChar(c)
    ensures Key(KeyBody(indent, key) + "\n", indent) == Some(key)
  {
    var line := KeyBody(indent, key) + "\n";
    assert line[..|indent| + 2] == indent + "  ";
    assert line[|indent| + 2..] == key + ":\n";
    KeyRunOf(key, ":\n");
  }

  lemma DeeperLine(indent: string, text: string)
    ensures Key(DeepBody(indent, text) + "\n", indent).None?
  {
    var line := DeepBody(indent, text) + "\n";
    assert line[..|indent| + 2] == indent + "  ";
    assert line[|indent| + 2] == ' ';
  }

  lemma NewChunksOk(indent: string, packages: string, state: PackageState, cache: string)
    ensures ChunkOk(IncludeChunk(indent), indent) && ChunkOk(VarsChunk(indent, packages, state, cache), indent)
  {
    hide Key, StateText, KeyBody, DeepBody;
    KeyOf(indent, INCLUDE);
    KeyOf(indent, "vars");
    DeeperLine(indent, "name: openwrt_package");
    DeeperLine(indent, "openwrt_package_names: " + packages);
    DeeperLine(indent, "openwrt_package_state: " + StateText(state));
    DeeperLine(indent, "openwrt_package_update_cache: " + cache);
  }

  lemma {:induction false} PreservedOk(chunks: seq<Chunk>, indent: string)
    requires forall c <- chunks :: ChunkOk(c, indent)
    ensures forall c <- Preserved(chunks) :: ChunkOk(c, indent) && c.key !in CONSUMED
  {
    hide ChunkOk, CONSUMED;
    if chunks != [] {
      PreservedOk(chunks[1..], indent);
    }
  }

  /** Parsed again, the new block is the include, its variables, and then what
      was not consumed, in order. */
  lemma ChunksAgain(block: Block, packages: string, state: PackageState, cache: string)
    requires block.lines != []
    ensures Chunks(NewBlock(block, packages, state, cache), block.indent, 1)
         == [IncludeChunk(block.indent), VarsChunk(block.indent, packages, state, cache)]
            + Preserved(Chunks(block.lines, block.indent, 1))
  {
    hide *;
    var chunks := Chunks(block.lines, block.indent, 1);
    var added, vars := IncludeChunk(block.indent), VarsChunk(block.indent, packages, state, cache);
    NewChunksOk(block.indent, packages, state, cache);
    ChunksOk(block.lines, block.indent, 1);
    PreservedOk(chunks, block.indent);
    var all := [added, vars] + Preserved(chunks);
    ChunksRead([block.lines[0]], all, block.indent);
    assert all == [added] + ([vars] + Preserved(chunks));
    FlatCons(added, [vars] + Preserved(chunks));
    FlatCons(vars, Preserved(chunks));
    NewBlockChunks(block, packages, state, cache);
    assert [block.lines[0]] + Flat(all) == NewBlock(block, packages, state, cache);
  }

  lemma NewBlockChunks(block: Block, packages: string, state: PackageState, cache: string)
    requires block.lines != []
    ensures NewBlock(block, packages, state, cache)
         == [block.lines[0]] + IncludeChunk(block.indent).lines + VarsChunk(block.indent, packages, state, cache).lines
            + Flat(Preserved(Chunks(block.lines, block.indent, 1)))
  {
    hide Flat, Preserved, Chunks, StateText;
    assert Made(Bodies(block.indent, packages, state, cache))
        == IncludeChunk(block.indent).lines + VarsChunk(block.indent, packages, state, cache).lines;
  }

  lemma RefusedAgain(removed: Pattern, block: Block, chunks: seq<Chunk>, added: Chunk, vars: Chunk, state: PackageState)
    requires added.key == INCLUDE && vars.key == "vars" && forall c <- chunks :: c.key !in CONSUMED
    ensures Refusal(removed, block, [added, vars] + chunks, state) == Some(Unsupported)
  {
    var all := [added, vars] + chunks;
    assert OPKG in CONSUMED && SHELL in CONSUMED;
    assert OPKG != INCLUDE && SHELL != INCLUDE by { assert INCLUDE[16] == 'i' && OPKG[16] == 'o' && SHELL[16] == 's'; }
    hide CONSUMED;
    forall c <- all
      ensures c.key != OPKG && c.key != SHELL
    {
    }
  }

  // -------------------------------------------- derived expressions fit

  lemma {:induction false} AfterColonAt(text: string) returns (i: nat)
    ensures i <= |text| && AfterColon(text) == text[i..]
  {
    if text == "" {
      i := 0;
    } else if text[0] == ':' {
      i := 1;
    } else {
      var j := AfterColonAt(text[1..]);
      i := j + 1;
    }
  }

  ghost predicate ChunkLinesOne(chunks: seq<Chunk>) {
    forall c <- chunks :: c.lines != [] && forall line <- c.lines :: OneLine(line)
  }

  ghost predicate Free(text: Option<string>) {
    text.Some? ==> BreakFree(text.value)
  }

  lemma {:induction false} LoopFree(chunks: seq<Chunk>)
    requires ChunkLinesOne(chunks)
    ensures Free(LoopExpression(chunks))
  {
    hide OneLine, BreakFree, Strip, AfterColon;
    if chunks != [] {
      assert chunks[0] in chunks;
      if chunks[0].key == "loop" {
        var line := chunks[0].lines[0];
        assert line in chunks[0].lines;
        var i := AfterColonAt(line);
        StripLine(line, i);
      } else {
        LoopFree(chunks[1..]);
      }
    }
  }

  lemma {:induction false} FirstNameFree(lines: seq<string>, indent: string)
    requires forall line <- lines :: OneLine(line)
    ensures Free(FirstName(lines, indent))
  {
    hide OneLine, BreakFree, Strip;
    if lines != [] {
      FirstNameFree(lines[1..], indent);
      if NameValue(lines[0], indent).Some? {
        assert lines[0] in lines;
        StripLine(lines[0], |indent + "    name:"|);
      }
    }
  }

  lemma {:induction false} OpkgNameFree(chunks: seq<Chunk>, indent: string)
    requires ChunkLinesOne(chunks)
    ensures Free(OpkgName(chunks, indent))
  {
    hide OneLine, BreakFree, FirstName;
    if chunks != [] {
      assert chunks[0] in chunks;
      FirstNameFree(chunks[0].lines, indent);
      OpkgNameFree(chunks[1..], indent);
    }
  }

  lemma UnquotedFree(value: string)
    requires BreakFree(value)
    ensures BreakFree(Unquoted(value))
  {
    hide IsBreak;
    assert forall c <- Unquoted(value) :: c in value;
  }

  lemma BracketFree(value: string)
    requires BreakFree(value)
    ensures BreakFree("['" + value + "']")
  {
    hide BreakFree;
    Printable("['");
    Printable("']");
    FreeAppend("['", value);
    FreeAppend("['" + value, "']");
  }

  lemma NameFree(chunks: seq<Chunk>, indent: string)
    requires ChunkLinesOne(chunks)
    ensures Free(NameExpression(chunks, indent))
  {
    hide BreakFree, OpkgName, Unquoted, ChunkLinesOne;
    OpkgNameFree(chunks, indent);
    if OpkgName(chunks, indent).Some? {
      UnquotedFree(OpkgName(chunks, indent).value);
      BracketFree(Unquoted(OpkgName(chunks, indent).value));
    }
  }

  lemma RemoveFree(removed: Pattern, lines: seq<string>)
    requires PatternOk(removed)
    ensures Free(RemoveExpression(removed, lines))
  {
    hide BreakFree, Concat;
    if removed(Concat(lines)).Some? {
      BracketFree(removed(Concat(lines)).value);
    }
  }

  lemma {:induction false} ChunkLines(lines: seq<string>, indent: string, i: nat)
    requires i <= |lines| && forall line <- lines :: OneLine(line)
    ensures ChunkLinesOne(Chunks(lines, indent, i))
    decreases |lines| - i
  {
    hide OneLine, Key, NextKey, Chunks;
    ChunksUnfold(lines, indent, i);
    var k := NextKey(lines, indent, i);
    if k < |lines| {
      var end := NextKey(lines, indent, k + 1);
      ChunkLines(lines, indent, end);
      assert forall line <- lines[k..end] :: line in lines;
    }
  }

  /** Whatever is derived from the task has no line break in it. */
  lemma ExpressionFree(removed: Pattern, block: Block, given: Option<string>, state: PackageState)
    requires PatternOk(removed) && Free(given) && forall line <- block.lines :: OneLine(line)
    requires block.lines != []
    ensures var chunks := Chunks(block.lines, block.indent, 1);
            && (forall c <- chunks :: c.lines != [])
            && Free(Expression(removed, block, chunks, given, state))
  {
    hide OneLine, BreakFree, Chunks, LoopExpression, NameExpression, RemoveExpression, PatternOk;
    var chunks := Chunks(block.lines, block.indent, 1);
    ChunkLines(block.lines, block.indent, 1);
    LoopFree(chunks);
    NameFree(chunks, block.indent);
    RemoveFree(removed, block.lines);
  }

  // ---------------------------------------------------------- the theorems

  lemma ConvertFacts(removed: Pattern, text: string, name: string, given: Option<string>, state: PackageState, cache: Option<string>)
      returns (block: Block, expression: string, packages: string)
    requires ConvertText(removed, text, name, given, state, cache).Ok?
    ensures Find(SplitLines(text), name) == Ok(block) && block.lines != [] && block.start < block.end <= |SplitLines(text)|
    ensures block.lines == SplitLines(text)[block.start..block.end]
    ensures var chunks := Chunks(block.lines, block.indent, 1);
            && chunks != [] && (forall c <- chunks :: c.lines != [])
            && Expression(removed, block, chunks, given, state) == Some(expression)
    ensures Normalize(expression) == Ok(packages)
    ensures ConvertText(removed, text, name, given, state, cache).value
         == Concat(NewLines(SplitLines(text), block, packages, state, UpdateCache(cache, state)))
  {
    hide SplitLines, Chunks, Expression, Normalize, Concat, IsTask, IsNext, SpaceRun, IncludeChunk, VarsChunk, Flat, Preserved,
      UpdateCache, NewBlock;
    var lines := SplitLines(text);
    block := Find(lines, name).value;
    var chunks := Chunks(block.lines, block.indent, 1);
    ChunksFilled(block.lines, block.indent, 1);
    expression := Expression(removed, block, chunks, given, state).value;
    packages := Normalize(expression).value;
    NewBlockChunks(block, packages, state, UpdateCache(cache, state));
  }

  lemma QuotedFits(before: string, value: string, after: string)
    requires forall i | 0 <= i < |before| :: ' ' <= before[i] <= '~'
    requires after != "" && forall i | 0 <= i < |after| :: ' ' <= after[i] <= '~'
    ensures Fits(before + value + after) <==> BreakFree(value)
  {
    hide BreakFree, Fits;
    Printable(before);
    Printable(after);
    FreeAppend(before, value);
    FreeAppend(before + value, after);
    var text := before + value + after;
    assert text[|text| - 1] == after[|after| - 1];
    FitsFree(text);
  }

  /** What is put on the line of the package list fits exactly if the expression
      without the white space around it has no line break. */
  lemma NormalizeFits(raw: string)
    requires Normalize(raw).Ok?
    ensures Fits(Normalize(raw).value) <==> BreakFree(Strip(raw))
  {
    hide BreakFree, Fits, RStrip, IsVariable;
    var value := Strip(raw);
    RStripEnds(raw[SpaceRun(raw)..]);
    FitsFree(value);
    QuotedFits("\"", value, "\"");
    QuotedFits("\"{{ ", value, " }}\"");
  }

  lemma CacheFits(cache: Option<string>, state: PackageState)
    ensures Fits(UpdateCache(cache, state)) <==> (cache.Some? ==> Fits(cache.value))
  {
    hide BreakFree, Fits;
    StateFits(state);
    Printable("false");
    FreeFits("false");
    Printable("\"{{ openwrt_opkg_update | default(true) }}\"");
    FreeFits("\"{{ openwrt_opkg_update | default(true) }}\"");
  }

  /** The rewritten text has the new lines in it, with the normalised expression,
      exactly if the expression given, if any, has no line break inside, and the
      cache value given, if any, has none but for a carriage return at its end. */
  lemma ResplitIff(removed: Pattern, text: string, name: string, given: Option<string>, state: PackageState, cache: Option<string>)
      returns (block: Block, expression: string, packages: string)
    requires PatternOk(removed)
    requires ConvertText(removed, text, name, given, state, cache).Ok?
    ensures Find(SplitLines(text), name) == Ok(block)
    ensures block.lines != [] && block.start < block.end <= |SplitLines(text)|
    ensures var chunks := Chunks(block.lines, block.indent, 1);
            && (forall c <- chunks :: c.lines != [])
            && Expression(removed, block, chunks, given, state) == Some(expression)
    ensures Normalize(expression) == Ok(packages)
    ensures SplitLines(ConvertText(removed, text, name, given, state, cache).value)
         == NewLines(SplitLines(text), block, packages, state, UpdateCache(cache, state))
       <==> (given.Some? ==> BreakFree(Strip(given.value))) && (cache.Some? ==> Fits(cache.value))
  {
    hide *;
    block, expression, packages := ConvertFacts(removed, text, name, given, state, cache);
    JoinSplit(text);
    NewLinesOk(SplitLines(text), name, packages, state, UpdateCache(cache, state));
    var added := NewLines(SplitLines(text), block, packages, state, UpdateCache(cache, state));
    JoinSplit(Concat(added));
    if LinesOk(added) {
      SplitJoin(added);
    }
    NormalizeFits(expression);
    CacheFits(cache, state);
    LinesOne(SplitLines(text), block.start, block.end);
    if given.Some? {
      GivenFirst(removed, block, given, state);
    } else {
      NoneFree();
      ExpressionFree(removed, block, given, state);
      FreeSome(expression);
      StripWithin(expression);
    }
  }

  lemma GivenFirst(removed: Pattern, block: Block, given: Option<string>, state: PackageState)
    requires given.Some? && block.lines != [] && forall c <- Chunks(block.lines, block.indent, 1) :: c.lines != []
    ensures Expression(removed, block, Chunks(block.lines, block.indent, 1), given, state) == given
  {
    hide Chunks;
  }

  lemma NoneFree()
    ensures Free(None)
  {
  }

  lemma FreeSome(text: string)
    ensures Free(Some(text)) <==> BreakFree(text)
  {
    hide BreakFree;
  }

  /** The rewritten task reads as intended: the same name finds the same start,
      all lines outside the block are as before, and the block consists of the
      include, its variables, the normalised package expression among them, and
      the chunks that were not consumed, in order. */
  lemma Reparsed(removed: Pattern, text: string, name: string, given: Option<string>, state: PackageState, cache: Option<string>)
      returns (block: Block, expression: string, packages: string, again: Block)
    requires PatternOk(removed)
    requires (given.Some? ==> BreakFree(Strip(given.value))) && (cache.Some? ==> Fits(cache.value))
    requires ConvertText(removed, text, name, given, state, cache).Ok?
    ensures var before, after := SplitLines(text), SplitLines(ConvertText(removed, text, name, given, state, cache).value);
            && Find(before, name) == Ok(block) && block.start < block.end <= |before|
            && Find(after, name) == Ok(again) && again.start == block.start < again.end <= |after|
            && again.indent == block.indent && again.lines == after[again.start..again.end]
            && after[..block.start + 1] == before[..block.start + 1]
            && after[again.end..] == before[block.end..]
    ensures block.lines != [] && again.lines != []
    ensures var chunks := Chunks(block.lines, block.indent, 1);
            && (forall c <- chunks :: c.lines != [])
            && Expression(removed, block, chunks, given, state) == Some(expression) && Normalize(expression) == Ok(packages)
            && Chunks(again.lines, block.indent, 1)
               == [IncludeChunk(block.indent), VarsChunk(block.indent, packages, state, UpdateCache(cache, state))]
                  + Preserved(chunks)
  {
    hide *;
    block, expression, packages := ResplitIff(removed, text, name, given, state, cache);
    var before, value := SplitLines(text), UpdateCache(cache, state);
    JoinSplit(text);
    FindFacts(before, name);
    FindAgain(before, name, packages, state, value);
    NewLinesAt(before, block, packages, state, value);
    ChunksAgain(block, packages, state, value);
    NewBlockIs(block, packages, state, value);
    var own, after := NewBlock(block, packages, state, value), NewLines(before, block, packages, state, value);
    again := Find(after, name).value;
    assert after[..block.start + 1] == after[..block.start] + [after[block.start]];
    assert after[block.start] == own[0] == before[block.start];
  }

  /** A second conversion is always refused. */
  lemma RefusedTwice(removed: Pattern, text: string, name: string, given: Option<string>, state: PackageState, cache: Option<string>,
                     given2: Option<string>, state2: PackageState, cache2: Option<string>)
    requires PatternOk(removed)
    requires (given.Some? ==> BreakFree(Strip(given.value))) && (cache.Some? ==> Fits(cache.value))
    requires ConvertText(removed, text, name, given, state, cache).Ok?
    ensures ConvertText(removed, ConvertText(removed, text, name, given, state, cache).value, name, given2, state2, cache2)
         == Exit(Unsupported)
  {
    hide *;
    var block, expression, packages, again := Reparsed(removed, text, name, given, state, cache);
    var after := ConvertText(removed, text, name, given, state, cache).value;
    var chunks, value := Chunks(block.lines, block.indent, 1), UpdateCache(cache, state);
    ChunksOk(block.lines, block.indent, 1);
    PreservedOk(chunks, block.indent);
    ChunkKeys(block.indent, packages, state, value);
    RefusedAgain(removed, again, Preserved(chunks), IncludeChunk(block.indent), VarsChunk(block.indent, packages, state, value), state2);
    Refuses(removed, after, name, given2, state2, cache2);
  }

  lemma ChunkKeys(indent: string, packages: string, state: PackageState, cache: string)
    ensures IncludeChunk(indent).key == INCLUDE && VarsChunk(indent, packages, state, cache).key == "vars"
  {
  }

  lemma Refuses(removed: Pattern, text: string, name: string, given: Option<string>, state: PackageState, cache: Option<string>)
    requires var block := Find(SplitLines(text), name);
             && block.Ok? && block.value.lines != []
             && Refusal(removed, block.value, Chunks(block.value.lines, block.value.indent, 1), state) == Some(Unsupported)
    ensures ConvertText(removed, text, name, given, state, cache) == Exit(Unsupported)
  {
    hide SplitLines, Chunks, Refusal, Find, Expression;
  }

  // ------------------------------------------------------ what is left out

  /** The chunks the conversion takes out, in order. */
  function Consumed(chunks: seq<Chunk>): seq<Chunk> {
    if chunks == [] then []
    else (if chunks[0].key in CONSUMED then [chunks[0]] else []) + Consumed(chunks[1..])
  }

  /** What stands between a task's name and its first key. */
  function Preamble(block: Block): seq<string>
    requires block.lines != []
  {
    block.lines[1..NextKey(block.lines, block.indent, 1)]
  }

  lemma {:induction false} ChunksPart(chunks: seq<Chunk>)
    ensures multiset(Flat(chunks)) == multiset(Flat(Preserved(chunks))) + multiset(Flat(Consumed(chunks)))
  {
    if chunks != [] {
      hide CONSUMED, Preserved, Consumed, Flat;
      ChunksPart(chunks[1..]);
      KeepOne(chunks);
      ConsumeOne(chunks);
      assert chunks == [chunks[0]] + chunks[1..];
      FlatCons(chunks[0], chunks[1..]);
    }
  }

  lemma ConsumeOne(chunks: seq<Chunk>)
    requires chunks != []
    ensures Flat(Consumed(chunks))
         == (if chunks[0].key in CONSUMED then chunks[0].lines else []) + Flat(Consumed(chunks[1..]))
  {
    hide CONSUMED, Flat;
    FlatCons(chunks[0], Consumed(chunks[1..]));
    assert [] + Consumed(chunks[1..]) == Consumed(chunks[1..]);
  }

  /** A block is its name, the preamble and its chunks, and there is no preamble
      exactly if the line after the name is a key. */
  lemma BlockParts(block: Block)
    requires block.lines != [] && Chunks(block.lines, block.indent, 1) != []
    ensures block.lines == [block.lines[0]] + Preamble(block) + Flat(Chunks(block.lines, block.indent, 1))
    ensures |block.lines| > 1 && (Preamble(block) == [] <==> Key(block.lines[1], block.indent).Some?)
  {
    var lines, first := block.lines, NextKey(block.lines, block.indent, 1);
    ChunksOk(lines, block.indent, 1);
    NextKeyFacts(lines, block.indent, 1);
    assert first < |lines| by {
      ChunksUnfold(lines, block.indent, 1);
    }
    hide Key, Chunks, Flat;
    assert lines == [lines[0]] + lines[1..first] + lines[first..];
    if Key(lines[1], block.indent).Some? {
      NextKeyUnique(lines, block.indent, 1, 1);
    }
  }

  /** What a conversion takes out of a text and puts into it. The lines of the
      result and of the consumed chunks together are the lines of the text and
      the six new ones, each as often, exactly if the task's first key follows
      right after its name; otherwise the lines between the two are missing, and
      no others. */
  lemma LinesSurvive(removed: Pattern, text: string, name: string, given: Option<string>, state: PackageState, cache: Option<string>)
      returns (block: Block, packages: string)
    requires ConvertText(removed, text, name, given, state, cache).Ok?
    ensures var lines, value := SplitLines(text), UpdateCache(cache, state);
            && Find(lines, name) == Ok(block) && block.start < block.end <= |lines| && |block.lines| > 1
            && var after := NewLines(lines, block, packages, state, value);
               var made := Made(Bodies(block.indent, packages, state, value));
               var consumed := Flat(Consumed(Chunks(block.lines, block.indent, 1)));
            && ConvertText(removed, text, name, given, state, cache).value == Concat(after)
            && multiset(after) + multiset(consumed) + multiset(Preamble(block)) == multiset(lines) + multiset(made)
            && (multiset(after) + multiset(consumed) == multiset(lines) + multiset(made)
                <==> Key(block.lines[1], block.indent).Some?)
  {
    hide *;
    var expression;
    block, expression, packages := ConvertFacts(removed, text, name, given, state, cache);
    var lines, chunks := SplitLines(text), Chunks(block.lines, block.indent, 1);
    var made := Made(Bodies(block.indent, packages, state, UpdateCache(cache, state)));
    BlockParts(block);
    ChunksPart(chunks);
    NewLinesAre(lines, block, packages, state, UpdateCache(cache, state));
    Recount(lines, block.start, block.end, Preamble(block), Flat(chunks), made, Flat(Preserved(chunks)));
    EmptyCount(Preamble(block));
    Cancel(multiset(NewLines(lines, block, packages, state, UpdateCache(cache, state))), multiset(Flat(Consumed(chunks))),
           multiset(Preamble(block)), multiset(Flat(Preserved(chunks))), multiset(lines) + multiset(made));
  }

  lemma Cancel(after: multiset<string>, consumed: multiset<string>, lost: multiset<string>, kept: multiset<string>, before: multiset<string>)
    requires after + (kept + consumed) + lost == before + kept
    ensures after + consumed + lost == before
    ensures after + consumed == before <==> lost == multiset{}
  {
    forall line: string
      ensures (after + consumed + lost)[line] == before[line]
    {
      assert (after + (kept + consumed) + lost)[line] == (before + kept)[line];
    }
    if after + consumed == before {
      forall line: string
        ensures lost[line] == 0
      {
        assert (after + consumed)[line] == before[line];
      }
    }
  }

  lemma Recount(lines: seq<string>, start: nat, end: nat, preamble: seq<string>, all: seq<string>, made: seq<string>, kept: seq<string>)
    requires start < end <= |lines| && lines[start..end] == [lines[start]] + preamble + all
    ensures multiset(lines[..start + 1] + made + kept + lines[end..]) + multiset(all) + multiset(preamble)
         == multiset(lines) + multiset(made) + multiset(kept)
  {
    Layout(lines, start, end, preamble, all);
    CountFour(lines[..start + 1], preamble, all, lines[end..]);
    CountFour(lines[..start + 1], made, kept, lines[end..]);
  }

  lemma Layout(lines: seq<string>, start: nat, end: nat, preamble: seq<string>, all: seq<string>)
    requires start < end <= |lines| && lines[start..end] == [lines[start]] + preamble + all
    ensures lines == lines[..start + 1] + preamble + all + lines[end..]
  {
    var own := lines[start..end];
    assert lines == lines[..start] + own + lines[end..];
    assert lines[..start + 1] == lines[..start] + [lines[start]];
    assert lines[..start] + ([lines[start]] + preamble + all) == lines[..start] + [lines[start]] + preamble + all;
  }

  lemma CountFour(a: seq<string>, b: seq<string>, c: seq<string>, d: seq<string>)
    ensures multiset(a + b + c + d) == multiset(a) + multiset(b) + multiset(c) + multiset(d)
  {
  }

  lemma EmptyCount(preamble: seq<string>)
    ensures preamble == [] <==> multiset(preamble) == multiset{}
  {
    if preamble != [] {
      assert preamble[0] in multiset(preamble);
    }
  }

  /** A task with a comment under its name. */
  function CommentedTask(): seq<string> {
    ["- name: t" + "\n", "  # why" + "\n", KeyBody("", OPKG) + "\n", KeyBody("", "loop") + "\n"]
  }

  lemma CommentedTaskFound()
    ensures Find(CommentedTask(), "t") == Ok(Block(0, 4, "", CommentedTask()))
  {
    var lines := CommentedTask();
    assert SpaceRun(lines[0]) == 0 && lines[0][0..] == NAME + "t" + "\n";
    assert lines[1][0] == ' ' && lines[2][0] == ' ' && lines[3][0] == ' ' && ("" + NAME)[0] == '-';
    assert lines[0][..0] == "" && lines[0..4] == lines;
    FindIs(lines, "t", 0, 4);
  }

  lemma CommentedTaskLines()
    ensures LinesOk(CommentedTask())
  {
    hide KeyBody, Fits, BreakFree, Begins;
    var bodies := ["- name: t", "  # why", KeyBody("", OPKG), KeyBody("", "loop")];
    Printable("- name: t");
    Printable("  # why");
    Printable("");
    FreeFits("- name: t");
    FreeFits("  # why");
    KeyBodyFits("", OPKG);
    KeyBodyFits("", "loop");
    PlainBegins();
    MadeOk(bodies);
    assert Made(bodies) == CommentedTask();
  }

  lemma CommentIsNoKey()
    ensures Key("  # why" + "\n", "").None?
  {
    var line := "  # why" + "\n";
    assert line[|""| + 2] == '#';
  }

  lemma CommentedTaskChunks()
    ensures Chunks(CommentedTask(), "", 1) == [Chunk(OPKG, [CommentedTask()[2]]), Chunk("loop", [CommentedTask()[3]])]
  {
    hide Key, Chunks, KeyBody;
    var lines := CommentedTask();
    KeyOf("", OPKG);
    KeyOf("", "loop");
    CommentIsNoKey();
    SkipLine(lines, "", 1);
    TwoChunks(lines[..2], lines[2], OPKG, lines[3], "loop", "");
    assert lines[..2] + [lines[2], lines[3]] == lines;
  }

  /** Two keys with nothing below them. */
  lemma TwoChunks(head: seq<string>, a: string, x: string, b: string, y: string, indent: string)
    requires Key(a, indent) == Some(x) && Key(b, indent) == Some(y)
    ensures Chunks(head + [a, b], indent, |head|) == [Chunk(x, [a]), Chunk(y, [b])]
  {
    hide Key, Chunks;
    var first, second := Chunk(x, [a]), Chunk(y, [b]);
    ChunksRead(head, [first, second], indent);
    FlatCons(first, [second]);
    FlatCons(second, []);
    assert [first, second] == [first] + [second] && [second] == [second] + [];
    assert Flat([first, second]) == [a, b];
  }

  /** The comment is a line of the text, but not of what it is converted to. */
  lemma CommentDropped(removed: Pattern)
    requires PatternOk(removed)
    ensures var text := Concat(CommentedTask());
            var r := ConvertText(removed, text, "t", Some("[a]"), Present, None);
            && r.Ok? && SplitLines(text) == CommentedTask()
            && "  # why" + "\n" in SplitLines(text)
            && "  # why" + "\n" !in SplitLines(r.value)
  {
    hide *;
    var task := CommentedTask();
    var block, value := Block(0, 4, "", task), UpdateCache(None, Present);
    CommentedTaskLines();
    CommentedTaskFound();
    CommentedTaskChunks();
    ListExpression();
    SplitJoin(task);
    TaskSize();
    TwoKeys(removed, block, [task[2]], [task[3]]);
    GivenFirst(removed, block, Some("[a]"), Present);
    Converts(removed, Concat(task), "t", Some("[a]"), Present, None, block, "[a]", "[a]");
    var found, expression, packages := ResplitIff(removed, Concat(task), "t", Some("[a]"), Present, None);
    NewBlockIs(block, "[a]", Present, value);
    NothingKept(task[2], task[3]);
    NoComment("", "[a]", Present, value);
    OneBlock(task, block, "[a]", Present, value);
    var own := NewBlock(block, "[a]", Present, value);
    forall k | 0 <= k < |own|
      ensures own[k] != "  # why" + "\n"
    {
      if k > 0 {
        assert own[k] == Bodies("", "[a]", Present, value)[k - 1] + "\n";
      }
    }
  }

  lemma TaskSize()
    ensures |CommentedTask()| == 4 && CommentedTask()[1] == "  # why" + "\n" && CommentedTask()[0] != "  # why" + "\n"
  {
    assert CommentedTask()[0][0] == '-';
  }

  lemma ListExpression()
    ensures Normalize("[a]") == Ok("[a]") && BreakFree(Strip("[a]"))
  {
    var value := "[a]";
    assert !IsSpace('[') && !IsSpace(']');
    assert SpaceRun(value) == 0 && value[0..] == value && RStrip(value) == value;
    Printable(value);
  }

  lemma NothingKept(a: string, b: string)
    ensures Flat(Preserved([Chunk(OPKG, [a]), Chunk("loop", [b])])) == []
  {
    var chunks := [Chunk(OPKG, [a]), Chunk("loop", [b])];
    hide Flat, Preserved;
    KeepOne(chunks);
    assert chunks[1..] == [Chunk("loop", [b])];
    KeepOne(chunks[1..]);
    assert chunks[1..][1..] == [];
    KeepNone();
  }

  lemma NoComment(indent: string, packages: string, state: PackageState, cache: string)
    requires indent == ""
    ensures |Bodies(indent, packages, state, cache)| == 6
    ensures forall b <- Bodies(indent, packages, state, cache) :: b + "\n" != "  # why" + "\n"
  {
    hide StateText;
    forall b <- Bodies(indent, packages, state, cache)
      ensures b + "\n" != "  # why" + "\n"
    {
      assert |b| > 2 && b[2] != '#';
      assert (b + "\n")[2] == b[2] && ("  # why" + "\n")[2] == '#';
    }
  }

  /** With the block as the whole text, the new block is the whole result. */
  lemma OneBlock(lines: seq<string>, block: Block, packages: string, state: PackageState, cache: string)
    requires block.lines != [] && block.start == 0 && block.end == |lines|
    ensures NewLines(lines, block, packages, state, cache) == NewBlock(block, packages, state, cache)
  {
    hide NewBlock;
  }

  // ------------------------------------------------- where it is not read back

  /** A task with nothing in it but the keys of an opkg loop. */
  function PlainTask(): seq<string> {
    ["- name: t" + "\n", KeyBody("", OPKG) + "\n", KeyBody("", "loop") + "\n"]
  }

  lemma PlainTaskFound()
    ensures Find(PlainTask(), "t") == Ok(Block(0, 3, "", PlainTask()))
  {
    var lines := PlainTask();
    assert SpaceRun(lines[0]) == 0 && lines[0][0..] == NAME + "t" + "\n";
    assert lines[1][0] == ' ' && lines[2][0] == ' ' && ("" + NAME)[0] == '-';
    assert lines[0][..0] == "" && lines[0..3] == lines;
    FindIs(lines, "t", 0, 3);
  }

  lemma PlainTaskLines()
    ensures LinesOk(PlainTask())
  {
    hide KeyBody, Fits, BreakFree, Begins;
    var bodies := ["- name: t", KeyBody("", OPKG), KeyBody("", "loop")];
    Printable("- name: t");
    Printable("");
    FreeFits("- name: t");
    KeyBodyFits("", OPKG);
    KeyBodyFits("", "loop");
    PlainBegins();
    MadeOk(bodies);
    assert Made(bodies) == PlainTask();
  }

  lemma PlainBegins()
    ensures Begins("- name: t") && Begins("  # why") && Begins(KeyBody("", OPKG)) && Begins(KeyBody("", "loop"))
  {
  }

  lemma PlainTaskChunks()
    ensures Chunks(PlainTask(), "", 1) == [Chunk(OPKG, [PlainTask()[1]]), Chunk("loop", [PlainTask()[2]])]
  {
    hide Key, Chunks, KeyBody;
    var lines := PlainTask();
    KeyOf("", OPKG);
    KeyOf("", "loop");
    TwoChunks(lines[..1], lines[1], OPKG, lines[2], "loop", "");
    assert lines[..1] + [lines[1], lines[2]] == lines;
  }

  lemma NormalizedBreak()
    ensures Normalize("a\nb") == Ok("a\nb") && Strip("a\nb") == "a\nb" && !BreakFree("a\nb")
  {
    var value := "a\nb";
    assert !IsSpace('a') && !IsSpace('b') && IsBreak('\n');
    assert SpaceRun(value) == 0 && value[0..] == value && RStrip(value) == value;
    assert WordRun(value) == 1 by { assert value[1..] == "\nb"; }
    assert SpaceRun("\nb") == 1 by { assert "\nb"[1..] == "b"; }
    assert !IsVariable(value) by { assert value[1..] == "\nb"; }
    assert value[1] == '\n';
  }

  /** With a line break in the expression the conversion goes through, but what
      was written is not what is read: the second half of the expression stands
      on a line of its own. */
  lemma BrokenExpression(removed: Pattern)
    requires PatternOk(removed)
    ensures var text := Concat(PlainTask());
            var r := ConvertText(removed, text, "t", Some("a\nb"), Present, None);
            && r.Ok? && SplitLines(text) == PlainTask()
            && SplitLines(r.value)
            != NewLines(PlainTask(), Block(0, 3, "", PlainTask()), "a\nb", Present, UpdateCache(None, Present))
  {
    PlainTaskLines();
    PlainTaskFound();
    PlainTaskChunks();
    NormalizedBreak();
    SplitJoin(PlainTask());
    hide SplitLines, Find, Chunks, PlainTask, Normalize, BreakFree, Strip, NewLines, UpdateCache, Concat, Fits, PatternOk, Flat, Preserved,
      IncludeChunk, VarsChunk;
    PlainConverts(removed);
    var block, expression, packages := ResplitIff(removed, Concat(PlainTask()), "t", Some("a\nb"), Present, None);
    assert expression == "a\nb" by { GivenFirst(removed, block, Some("a\nb"), Present); }
  }

  lemma PlainConverts(removed: Pattern)
    ensures ConvertText(removed, Concat(PlainTask()), "t", Some("a\nb"), Present, None).Ok?
  {
    hide SplitLines, Find, Chunks, Normalize, BreakFree, Strip, Concat, LinesOk, KeyBody, Refusal, Expression, ConvertText;
    PlainTaskLines();
    PlainTaskFound();
    PlainTaskChunks();
    NormalizedBreak();
    SplitJoin(PlainTask());
    var block := Block(0, 3, "", PlainTask());
    TwoKeys(removed, block, [PlainTask()[1]], [PlainTask()[2]]);
    GivenFirst(removed, block, Some("a\nb"), Present);
    Converts(removed, Concat(PlainTask()), "t", Some("a\nb"), Present, None, block, "a\nb", "a\nb");
  }

  lemma TwoKeys(removed: Pattern, block: Block, a: seq<string>, b: seq<string>)
    ensures Refusal(removed, block, [Chunk(OPKG, a), Chunk("loop", b)], Present).None?
  {
    var chunks := [Chunk(OPKG, a), Chunk("loop", b)];
    assert chunks[0] in chunks && chunks[1] in chunks;
    hide NameExpression;
  }

  lemma Converts(removed: Pattern, text: string, name: string, given: Option<string>, state: PackageState, cache: Option<string>,
                 block: Block, expression: string, packages: string)
    requires Find(SplitLines(text), name) == Ok(block) && block.lines != []
    requires forall c <- Chunks(block.lines, block.indent, 1) :: c.lines != []
    requires Refusal(removed, block, Chunks(block.lines, block.indent, 1), state).None?
    requires Expression(removed, block, Chunks(block.lines, block.indent, 1), given, state) == Some(expression)
    requires Normalize(expression) == Ok(packages)
    ensures ConvertText(removed, text, name, given, state, cache).Ok?
  {
    hide SplitLines, Find, Chunks, Refusal, Expression, Normalize, IncludeChunk, VarsChunk, Flat, Preserved, UpdateCache, Concat, ChunkOk;
  }
}
