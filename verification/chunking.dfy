/** The greedy source-file chunker (backend/app/services/code_chunking.py). */
module Chunking {
  import opened Text

  const MAX_CHUNK_CHARS := 2000

  datatype CodeChunk = CodeChunk(filePath: string, chunkIndex: nat, content: string)

  // ---------- Specification: maximal prefixes ----------

  /** Characters a run of lines takes in the buffer, one newline counted for each line. */
  function Weight(lines: seq<string>): nat {
    if lines == [] then 0 else |lines[0]| + 1 + Weight(lines[1..])
  }

  /** A buffer may hold one line of any length, or several lines within the limit. */
  predicate Fits(segment: seq<string>) {
    segment != [] && (|segment| == 1 || Weight(segment) <= MAX_CHUNK_CHARS)
  }

  /** Longest prefix of at least `taken` lines that still fits. */
  function PrefixFrom(lines: seq<string>, taken: nat): (n: nat)
    requires 1 <= taken <= |lines|
    ensures taken <= n <= |lines|
    decreases |lines| - taken
  {
    if taken < |lines| && Fits(lines[..taken + 1]) then PrefixFrom(lines, taken + 1) else taken
  }

  function Buffers(lines: seq<string>): (bufs: seq<seq<string>>)
    decreases |lines|
  {
    if lines == [] then []
    else
      var n := PrefixFrom(lines, 1);
      [lines[..n]] + Buffers(lines[n..])
  }

  /** The text a buffer is written out as. */
  function BufferText(buffer: seq<string>): string {
    Strip(Join("\n", buffer))
  }

  function BufferTexts(bufs: seq<seq<string>>): (texts: seq<string>)
    ensures |texts| == |bufs|
  {
    seq(|bufs|, k requires 0 <= k < |bufs| => BufferText(bufs[k]))
  }

  /** Numbers the texts that are not empty. */
  function Emit(filePath: string, texts: seq<string>, index: nat): seq<CodeChunk> {
    if texts == [] then []
    else if texts[0] == "" then Emit(filePath, texts[1..], index)
    else [CodeChunk(filePath, index, texts[0])] + Emit(filePath, texts[1..], index + 1)
  }

  /** The chunks of a file; a file of nothing but whitespace has none. */
  function Chunks(filePath: string, content: string): seq<CodeChunk> {
    Emit(filePath, BufferTexts(Buffers(SplitLines(content))), 0)
  }

  // ---------- The program ----------

  /** Empties the buffer into the chunk list, unless what it holds is blank. */
  method Flush(filePath: string, chunks: seq<CodeChunk>, buffer: seq<string>)
    returns (chunks': seq<CodeChunk>)
    ensures chunks' == chunks + EmitOne(filePath, BufferText(buffer), |chunks|)
  {
    chunks' := chunks;
    if buffer != [] {
      var text := Strip(Join("\n", buffer));
      if text != "" {
        chunks' := chunks + [CodeChunk(filePath, |chunks|, text)];
      }
    }
  }

  function EmitOne(filePath: string, text: string, index: nat): seq<CodeChunk> {
    if text == "" then [] else [CodeChunk(filePath, index, text)]
  }

  method ChunkFileContent(filePath: string, content: string) returns (chunks: seq<CodeChunk>)
    ensures chunks == Chunks(filePath, content)
  {
    if Strip(content) == "" {
      BlankFileHasNoChunks(filePath, content);
      return [];
    }
    var lines := SplitLines(content);
    chunks := [];
    var buffer: seq<string> := [];
    var bufferLen := 0;
    ghost var done: seq<seq<string>> := [];
    assert [] + lines[0..] == lines;
    for i := 0 to |lines|
      invariant chunks == Emit(filePath, BufferTexts(done), 0)
      invariant bufferLen == Weight(buffer)
      invariant Progress(lines, i, done, buffer)
    {
      var line := lines[i];
      var lineLen := |line| + 1;
      AppendWeight(buffer, line);
      if buffer != [] && bufferLen + lineLen > MAX_CHUNK_CHARS {
        ProgressFlush(lines, i, done, buffer);
        EmitNext(filePath, done, buffer);
        chunks := Flush(filePath, chunks, buffer);
        done := done + [buffer];
        buffer := [];
        bufferLen := 0;
        AppendWeight(buffer, line);
      }
      ProgressAppend(lines, i, done, buffer);
      buffer := buffer + [line];
      bufferLen := bufferLen + lineLen;
    }
    if buffer != [] {
      ProgressFlush(lines, |lines|, done, buffer);
      EmitNext(filePath, done, buffer);
    }
    ProgressEnd(lines, if buffer == [] then done else done + [buffer]);
    chunks := Flush(filePath, chunks, buffer);
  }

  /** The buffers already flushed and the buffer being filled, against the lines not yet read. */
  ghost predicate Progress(lines: seq<string>, i: nat, done: seq<seq<string>>, buffer: seq<string>) {
    && i <= |lines|
    && (buffer == [] || Fits(buffer))
    && Buffers(lines) == done + Buffers(buffer + lines[i..])
  }

  lemma ProgressAppend(lines: seq<string>, i: nat, done: seq<seq<string>>, buffer: seq<string>)
    requires i < |lines| && Progress(lines, i, done, buffer) && Fits(buffer + [lines[i]])
    ensures Progress(lines, i + 1, done, buffer + [lines[i]])
  {
    assert buffer + lines[i..] == (buffer + [lines[i]]) + lines[i + 1..];
  }

  lemma ProgressFlush(lines: seq<string>, i: nat, done: seq<seq<string>>, buffer: seq<string>)
    requires Progress(lines, i, done, buffer) && buffer != []
    requires i < |lines| ==> !Fits(buffer + [lines[i]])
    ensures Progress(lines, i, done + [buffer], [])
  {
    var rest := lines[i..];
    BufferIsMaximal(buffer, rest);
    assert [] + rest == rest;
    assert done + ([buffer] + Buffers(rest)) == (done + [buffer]) + Buffers(rest);
  }

  lemma ProgressEnd(lines: seq<string>, done: seq<seq<string>>)
    requires Progress(lines, |lines|, done, [])
    ensures Buffers(lines) == done
  {
    assert [] + lines[|lines|..] == [];
  }

  lemma AppendWeight(buffer: seq<string>, line: string)
    ensures Weight(buffer + [line]) == Weight(buffer) + |line| + 1
    ensures Fits(buffer + [line]) <==> buffer == [] || Weight(buffer) + |line| + 1 <= MAX_CHUNK_CHARS
  {
    WeightConcat(buffer, [line]);
    assert Weight([line]) == |line| + 1 + Weight([line][1..]);
  }

  lemma {:induction false} WeightConcat(a: seq<string>, b: seq<string>)
    ensures Weight(a + b) == Weight(a) + Weight(b)
  {
    if a == [] {
      assert a + b == b;
    } else {
      assert (a + b)[0] == a[0] && (a + b)[1..] == a[1..] + b;
      WeightConcat(a[1..], b);
    }
  }

  /** A buffer that fits and cannot take the next line is the first buffer of what remains. */
  lemma BufferIsMaximal(buffer: seq<string>, rest: seq<string>)
    requires Fits(buffer)
    requires rest == [] || !Fits(buffer + [rest[0]])
    ensures Buffers(buffer + rest) == [buffer] + Buffers(rest)
  {
    PrefixReaches(buffer, rest, 1);
    assert (buffer + rest)[..|buffer|] == buffer;
    assert (buffer + rest)[|buffer|..] == rest;
  }

  lemma {:induction false} PrefixReaches(buffer: seq<string>, rest: seq<string>, taken: nat)
    requires Fits(buffer) && 1 <= taken <= |buffer|
    requires rest == [] || !Fits(buffer + [rest[0]])
    ensures PrefixFrom(buffer + rest, taken) == |buffer|
    decreases |buffer| - taken
  {
    var lines := buffer + rest;
    if taken < |buffer| {
      assert lines[..taken + 1] == buffer[..taken + 1];
      assert buffer == buffer[..taken + 1] + buffer[taken + 1..];
      PartOfFittingFits(buffer[..taken + 1], buffer[taken + 1..]);
      PrefixReaches(buffer, rest, taken + 1);
    } else if rest != [] {
      assert lines[..taken + 1] == buffer + [rest[0]];
    }
  }

  lemma PartOfFittingFits(a: seq<string>, b: seq<string>)
    requires Fits(a + b)
    ensures a != [] ==> Fits(a)
    ensures b != [] ==> Fits(b)
  {
    WeightConcat(a, b);
  }

  lemma EmitNext(filePath: string, done: seq<seq<string>>, buffer: seq<string>)
    ensures var chunks := Emit(filePath, BufferTexts(done), 0);
      Emit(filePath, BufferTexts(done + [buffer]), 0)
        == chunks + EmitOne(filePath, BufferText(buffer), |chunks|)
  {
    assert BufferTexts(done + [buffer]) == BufferTexts(done) + [BufferText(buffer)];
    EmitAppend(filePath, BufferTexts(done), BufferText(buffer), 0);
  }

  lemma {:induction false} EmitAppend(filePath: string, texts: seq<string>, text: string, index: nat)
    ensures var chunks := Emit(filePath, texts, index);
      Emit(filePath, texts + [text], index) == chunks + EmitOne(filePath, text, index + |chunks|)
  {
    if texts == [] {
      assert [text][1..] == [];
    } else {
      assert (texts + [text])[1..] == texts[1..] + [text];
      EmitAppend(filePath, texts[1..], text, if texts[0] == "" then index else index + 1);
    }
  }

  // ---------- Lossless ----------

  /** The buffers are the file's lines, in order and complete. */
  lemma {:induction false} BuffersPartition(lines: seq<string>)
    ensures Flatten(Buffers(lines)) == lines
    ensures forall k | 0 <= k < |Buffers(lines)| :: Fits(Buffers(lines)[k])
    decreases |lines|
  {
    if lines != [] {
      var n := PrefixFrom(lines, 1);
      PrefixFits(lines, 1);
      hide Fits, PrefixFrom;
      BuffersPartition(lines[n..]);
      assert lines == lines[..n] + lines[n..];
      assert Buffers(lines) == [lines[..n]] + Buffers(lines[n..]);
      assert ([lines[..n]] + Buffers(lines[n..]))[1..] == Buffers(lines[n..]);
    }
  }

  lemma {:induction false} PrefixFits(lines: seq<string>, taken: nat)
    requires 1 <= taken <= |lines| && Fits(lines[..taken])
    ensures var n := PrefixFrom(lines, taken); Fits(lines[..n]) && (n < |lines| ==> !Fits(lines[..n + 1]))
    decreases |lines| - taken
  {
    if taken < |lines| && Fits(lines[..taken + 1]) {
      PrefixFits(lines, taken + 1);
    }
  }

  function Contents(chunks: seq<CodeChunk>): seq<string> {
    seq(|chunks|, i requires 0 <= i < |chunks| => chunks[i].content)
  }

  /** Writing the texts out drops only the empty ones. */
  lemma {:induction false} EmitKeepsText(filePath: string, texts: seq<string>, index: nat)
    ensures Flatten(Contents(Emit(filePath, texts, index))) == Flatten(texts)
  {
    if texts != [] {
      if texts[0] == "" {
        EmitKeepsText(filePath, texts[1..], index);
      } else {
        EmitKeepsText(filePath, texts[1..], index + 1);
        var rest := Emit(filePath, texts[1..], index + 1);
        assert Contents([CodeChunk(filePath, index, texts[0])] + rest) == [texts[0]] + Contents(rest);
      }
    }
  }

  lemma {:induction false} BuffersKeepText(bufs: seq<seq<string>>)
    ensures NonSpace(Flatten(BufferTexts(bufs))) == NonSpace(Flatten(Flatten(bufs)))
  {
    if bufs != [] {
      assert BufferTexts(bufs)[1..] == BufferTexts(bufs[1..]);
      BuffersKeepText(bufs[1..]);
      JoinLinesKeepsText(bufs[0]);
      StripKeepsText(Join("\n", bufs[0]));
      NonSpaceConcat(BufferText(bufs[0]), Flatten(BufferTexts(bufs[1..])));
      FlattenConcat(bufs[0], Flatten(bufs[1..]));
      NonSpaceConcat(Flatten(bufs[0]), Flatten(Flatten(bufs[1..])));
    }
  }

  /** No character other than whitespace is lost, added or moved. */
  lemma ChunksKeepText(filePath: string, content: string)
    ensures NonSpace(Flatten(Contents(Chunks(filePath, content)))) == NonSpace(content)
  {
    var bufs := Buffers(SplitLines(content));
    EmitKeepsText(filePath, BufferTexts(bufs), 0);
    BuffersKeepText(bufs);
    BuffersPartition(SplitLines(content));
    SplitLinesKeepsText(content);
  }

  /** The early return for blank files is exact: any other file has a chunk. */
  lemma BlankFileHasNoChunks(filePath: string, content: string)
    ensures Strip(content) == "" <==> Chunks(filePath, content) == []
  {
    var chunks := Chunks(filePath, content);
    ChunksKeepText(filePath, content);
    StripKeepsText(content);
    if chunks == [] {
      assert Contents(chunks) == [];
    } else {
      EmitShape(filePath, BufferTexts(Buffers(SplitLines(content))), 0);
      assert chunks[0].content in BufferTexts(Buffers(SplitLines(content)));
      TextIsNotBlank(Buffers(SplitLines(content)), chunks[0].content);
      FirstTextRemains(chunks);
    }
  }

  lemma TextIsNotBlank(bufs: seq<seq<string>>, text: string)
    requires text in BufferTexts(bufs) && text != ""
    ensures NonSpace(text) != ""
  {
    var b :| 0 <= b < |bufs| && text == BufferText(bufs[b]);
    StripKeepsText(Join("\n", bufs[b]));
  }

  lemma FirstTextRemains(chunks: seq<CodeChunk>)
    requires chunks != [] && NonSpace(chunks[0].content) != ""
    ensures NonSpace(Flatten(Contents(chunks))) != ""
  {
    NonSpaceConcat(chunks[0].content, Flatten(Contents(chunks)[1..]));
  }

  // ---------- In place ----------

  /** The texts in order, with the gaps before, between and after them. */
  function Placed(gaps: seq<string>, texts: seq<string>): string
    requires |gaps| == |texts| + 1
  {
    if texts == [] then gaps[0] else gaps[0] + texts[0] + Placed(gaps[1..], texts[1..])
  }

  predicate AllBlank(gaps: seq<string>) {
    forall i | 0 <= i < |gaps| :: NonSpace(gaps[i]) == ""
  }

  /** The chunks are the lines of the file, joined by line feeds, with nothing but whitespace cut out between them. */
  lemma ChunksInPlace(filePath: string, content: string)
    ensures var texts := Contents(Chunks(filePath, content));
      exists gaps :: |gaps| == |texts| + 1 && AllBlank(gaps) && Placed(gaps, texts) == Join("\n", SplitLines(content))
  {
    var bufs := Buffers(SplitLines(content));
    BuffersPartition(SplitLines(content));
    var gaps := PlaceBuffers(filePath, bufs, 0);
  }

  lemma {:induction false} PlaceBuffers(filePath: string, bufs: seq<seq<string>>, index: nat)
      returns (gaps: seq<string>)
    requires forall k | 0 <= k < |bufs| :: bufs[k] != []
    ensures var texts := Contents(Emit(filePath, BufferTexts(bufs), index));
      |gaps| == |texts| + 1 && AllBlank(gaps) && Placed(gaps, texts) == Join("\n", Flatten(bufs))
  {
    if bufs == [] {
      gaps := [""];
    } else {
      var text := BufferText(bufs[0]);
      var rest := PlaceBuffers(filePath, bufs[1..], if text == "" then index else index + 1);
      assert BufferTexts(bufs)[1..] == BufferTexts(bufs[1..]);
      var left, right := StripCutsEnds(Join("\n", bufs[0]));
      EmitFirst(filePath, bufs, index);
      hide Emit, BufferTexts, Join, Strip, NonSpace, Contents, AllBlank;
      gaps := PlaceOne(left, text, right, bufs, rest, Contents(Emit(filePath, BufferTexts(bufs[1..]),
                                                                    if text == "" then index else index + 1)));
    }
  }

  lemma EmitFirst(filePath: string, bufs: seq<seq<string>>, index: nat)
    requires bufs != []
    ensures var text := BufferText(bufs[0]);
      var rest := Contents(Emit(filePath, BufferTexts(bufs[1..]), if text == "" then index else index + 1));
      Contents(Emit(filePath, BufferTexts(bufs), index)) == if text == "" then rest else [text] + rest
  {
    var text := BufferText(bufs[0]);
    assert BufferTexts(bufs)[1..] == BufferTexts(bufs[1..]);
    assert BufferTexts(bufs)[0] == text;
  }

  /** Put the first buffer in front of the placed rest. */
  lemma PlaceOne(left: string, text: string, right: string, bufs: seq<seq<string>>, rest: seq<string>,
                 texts: seq<string>)
      returns (gaps: seq<string>)
    requires bufs != [] && forall k | 0 <= k < |bufs| :: bufs[k] != []
    requires Join("\n", bufs[0]) == left + text + right && NonSpace(left) == "" && NonSpace(right) == ""
    requires |rest| == |texts| + 1 && AllBlank(rest) && Placed(rest, texts) == Join("\n", Flatten(bufs[1..]))
    ensures var all := if text == "" then texts else [text] + texts;
      |gaps| == |all| + 1 && AllBlank(gaps) && Placed(gaps, all) == Join("\n", Flatten(bufs))
  {
    var sep := if |bufs| == 1 then "" else "\n";
    NewlineIsBlank();
    JoinFirst(bufs);
    hide NonSpace, Join, Flatten, AllBlank, Placed;
    NonSpaceConcat(right, sep);
    gaps := if text == "" then PlaceBlank(left, right + sep, rest, texts)
            else PlaceText(left, text, right + sep, rest, texts);
    ConcatAssoc(left + text, right, sep);
    ConcatAssoc(left + text, right + sep, Placed(rest, texts));
    assert left + "" == left;
  }

  /** A gap that takes the place of a blank buffer. */
  function PlaceBlank(left: string, after: string, rest: seq<string>, texts: seq<string>): (gaps: seq<string>)
    requires |rest| == |texts| + 1
    ensures |gaps| == |rest|
    ensures Placed(gaps, texts) == left + (after + Placed(rest, texts))
    ensures NonSpace(left) == "" && NonSpace(after) == "" && AllBlank(rest) ==> AllBlank(gaps)
  {
    var inner := [after + rest[0]] + rest[1..];
    PlacedMore(after, rest, texts);
    PlacedMore(left, inner, texts);
    NonSpaceConcat(after, rest[0]);
    NonSpaceConcat(left, inner[0]);
    [left + inner[0]] + inner[1..]
  }

  /** A text with the gap before it, and its share of the gap behind it. */
  function PlaceText(left: string, text: string, after: string, rest: seq<string>, texts: seq<string>)
      : (gaps: seq<string>)
    requires |rest| == |texts| + 1
    ensures |gaps| == |rest| + 1
    ensures Placed(gaps, [text] + texts) == left + text + (after + Placed(rest, texts))
    ensures NonSpace(left) == "" && NonSpace(after) == "" && AllBlank(rest) ==> AllBlank(gaps)
  {
    var inner := [after + rest[0]] + rest[1..];
    PlacedMore(after, rest, texts);
    NonSpaceConcat(after, rest[0]);
    PlacedNext(left, text, inner, texts);
    [left] + inner
  }

  lemma PlacedNext(gap: string, text: string, gaps: seq<string>, texts: seq<string>)
    requires |gaps| == |texts| + 1
    ensures Placed([gap] + gaps, [text] + texts) == gap + text + Placed(gaps, texts)
  {
    assert ([gap] + gaps)[1..] == gaps && ([text] + texts)[1..] == texts;
  }

  lemma JoinFirst(bufs: seq<seq<string>>)
    requires bufs != [] && forall k | 0 <= k < |bufs| :: bufs[k] != []
    ensures Join("\n", Flatten(bufs))
         == Join("\n", bufs[0]) + (if |bufs| == 1 then "" else "\n") + Join("\n", Flatten(bufs[1..]))
  {
    if |bufs| == 1 {
      assert Flatten(bufs) == bufs[0];
    } else {
      assert Flatten(bufs[1..]) == bufs[1] + Flatten(bufs[2..]);
      JoinConcat(bufs[0], Flatten(bufs[1..]));
    }
  }

  lemma PlacedMore(more: string, gaps: seq<string>, texts: seq<string>)
    requires |gaps| == |texts| + 1
    ensures Placed([more + gaps[0]] + gaps[1..], texts) == more + Placed(gaps, texts)
  {
    assert ([more + gaps[0]] + gaps[1..])[1..] == gaps[1..];
    if texts != [] {
      ConcatAssoc(more, gaps[0], texts[0]);
      ConcatAssoc(more, gaps[0] + texts[0], Placed(gaps[1..], texts[1..]));
    }
  }

  // ---------- Bounded and numbered ----------

  lemma {:induction false} JoinWeight(lines: seq<string>)
    requires lines != []
    ensures |Join("\n", lines)| == Weight(lines) - 1
  {
    if |lines| > 1 {
      JoinWeight(lines[1..]);
    }
  }

  /** Chunks carry texts from the list, none of them empty, numbered in order. */
  ghost predicate WellShaped(chunks: seq<CodeChunk>, filePath: string, texts: seq<string>, index: nat) {
    forall k | 0 <= k < |chunks| ::
      && chunks[k].filePath == filePath
      && chunks[k].chunkIndex == index + k
      && chunks[k].content != ""
      && chunks[k].content in texts
  }

  lemma {:induction false} EmitShape(filePath: string, texts: seq<string>, index: nat)
    ensures WellShaped(Emit(filePath, texts, index), filePath, texts, index)
  {
    if texts != [] {
      EmitShape(filePath, texts[1..], if texts[0] == "" then index else index + 1);
    }
  }

  /**
   * Chunks are numbered 0, 1, 2, ..., are never blank, start and end with a character that is none, and stay below the
   * limit unless they are one line of the file.
   */
  lemma ChunksBounded(filePath: string, content: string, k: nat)
    requires k < |Chunks(filePath, content)|
    ensures var chunk := Chunks(filePath, content)[k];
      && chunk.filePath == filePath
      && chunk.chunkIndex == k
      && NonSpace(chunk.content) != ""
      && !IsSpace(chunk.content[0]) && !IsSpace(chunk.content[|chunk.content| - 1])
      && (|chunk.content| < 2000
          || ('\n' !in chunk.content && '\r' !in chunk.content
              && exists line | line in SplitLines(content) :: chunk.content == Strip(line)))
  {
    var lines := SplitLines(content);
    var texts := BufferTexts(Buffers(lines));
    EmitShape(filePath, texts, 0);
    var chunk := Chunks(filePath, content)[k];
    assert chunk.content in texts;
    TextIsNotBlank(Buffers(lines), chunk.content);
    TextSize(lines, chunk.content);
    ChunkEnds(Buffers(lines), chunk.content);
    if line :| line in lines && chunk.content == Strip(line) {
      SplitLinesExact(content);
      StrippedLine(line);
    }
  }

  lemma ChunkEnds(bufs: seq<seq<string>>, text: string)
    requires text in BufferTexts(bufs) && text != ""
    ensures !IsSpace(text[0]) && !IsSpace(text[|text| - 1])
  {
    var b :| 0 <= b < |bufs| && text == BufferText(bufs[b]);
    var left, right := StripCutsEnds(Join("\n", bufs[b]));
  }

  lemma StrippedLine(line: string)
    requires FreeOfBreaks(line)
    ensures '\n' !in Strip(line) && '\r' !in Strip(line)
  {
    var left, right := StripCutsEnds(line);
    assert forall c | c in Strip(line) :: c in line;
  }

  lemma TextSize(lines: seq<string>, text: string)
    requires text in BufferTexts(Buffers(lines))
    ensures |text| < MAX_CHUNK_CHARS || exists line | line in lines :: text == Strip(line)
  {
    var bufs := Buffers(lines);
    var b :| 0 <= b < |bufs| && text == BufferText(bufs[b]);
    BuffersPartition(lines);
    var buf := bufs[b];
    assert Fits(buf);
    JoinWeight(buf);
    StripKeepsText(Join("\n", buf));
    if |buf| == 1 {
      InFlatten(bufs, b, 0);
      assert buf[0] in lines && text == Strip(buf[0]);
    }
  }

  lemma {:induction false} InFlatten<T>(parts: seq<seq<T>>, b: nat, i: nat)
    requires b < |parts| && i < |parts[b]|
    ensures parts[b][i] in Flatten(parts)
  {
    if b == 0 {
      assert Flatten(parts)[i] == parts[0][i];
    } else {
      InFlatten(parts[1..], b - 1, i);
      var rest := Flatten(parts[1..]);
      var j :| 0 <= j < |rest| && rest[j] == parts[b][i];
      assert Flatten(parts)[|parts[0]| + j] == rest[j];
    }
  }

  // ---------- Optimal ----------

  /** An in-order partition of the lines into buffers that fit. */
  ghost predicate IsPartition(parts: seq<seq<string>>, lines: seq<string>) {
    Flatten(parts) == lines && forall k | 0 <= k < |parts| :: Fits(parts[k])
  }

  /** Removing the first lines of a partitioned text leaves a text that needs no more buffers. */
  lemma {:induction false} DropLines(parts: seq<seq<string>>, lines: seq<string>, n: nat)
      returns (rest: seq<seq<string>>)
    requires IsPartition(parts, lines) && n <= |lines|
    ensures IsPartition(rest, lines[n..]) && |rest| <= |parts|
    ensures parts != [] && |parts[0]| <= n ==> |rest| < |parts|
  {
    if parts == [] {
      rest := [];
    } else {
      var first, others := parts[0], Flatten(parts[1..]);
      assert lines == first + others;
      if |first| <= n {
        rest := DropLines(parts[1..], others, n - |first|);
        assert lines[n..] == others[n - |first|..];
      } else {
        assert first == first[..n] + first[n..];
        PartOfFittingFits(first[..n], first[n..]);
        rest := [first[n..]] + parts[1..];
        assert rest[1..] == parts[1..];
        assert lines[n..] == first[n..] + others;
      }
    }
  }

  /** No partition uses fewer buffers than the greedy one. */
  lemma {:induction false} GreedyIsOptimal(lines: seq<string>, parts: seq<seq<string>>)
    requires IsPartition(parts, lines)
    ensures |Buffers(lines)| <= |parts|
    decreases |lines|
  {
    if lines != [] {
      var n := PrefixFrom(lines, 1);
      assert parts != [];
      FirstPartIsNoLonger(lines, parts, n);
      var rest := DropLines(parts, lines, n);
      GreedyIsOptimal(lines[n..], rest);
    }
  }

  lemma FirstPartIsNoLonger(lines: seq<string>, parts: seq<seq<string>>, n: nat)
    requires IsPartition(parts, lines) && lines != [] && parts != [] && n == PrefixFrom(lines, 1)
    ensures |parts[0]| <= n
  {
    PrefixFits(lines, 1);
    if |parts[0]| > n {
      var first := parts[0];
      assert lines == first + Flatten(parts[1..]);
      assert lines[..n + 1] == first[..n + 1];
      assert first == first[..n + 1] + first[n + 1..];
      PartOfFittingFits(first[..n + 1], first[n + 1..]);
      assert false;
    }
  }
}
