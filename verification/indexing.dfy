/** Incremental indexing of one revision (backend/app/services/github_indexing.py). */
module Indexing {
  import opened Options
  import opened Text
  import opened Chunking
  import opened Embedding

  /** SHA-256 of a text, treated as injective. */
  datatype Digest = Digest(payload: string)

  type Vector = seq<real>

  datatype Slot = Slot(filePath: string, chunkIndex: nat)

  datatype ChunkRow = ChunkRow(jobId: nat, content: string, contentHash: Option<Digest>, embedding: Option<Vector>)

  /** The rows of one revision; the table's unique key is (revision, path, chunk index). */
  type Rows = map<Slot, ChunkRow>

  /** The indexable files of a revision, in the order they are read. */
  type Files = seq<(string, string)>

  datatype Mode = Full | Diff

  /** The answer of the base-to-head comparison. */
  datatype Comparison = Compared(pathsToIndex: set<string>, pathsToRemove: set<string>) | CompareFailed(reason: string)

  datatype Plan = Plan(diff: bool, changed: set<string>, removed: set<string>)

  datatype RunResult = Stored | Failed(message: string) | UniqueViolation

  // ---------- Chunks of a revision ----------

  ghost predicate DistinctPaths(files: Files) {
    forall i, j | 0 <= i < j < |files| :: files[i].0 != files[j].0
  }

  /** Chunk contents of a path at a revision; none when the path is not an indexable file there. */
  function ChunksOf(files: Files, filePath: string): seq<CodeChunk> {
    if files == [] then []
    else if files[0].0 == filePath then Chunks(filePath, files[0].1)
    else ChunksOf(files[1..], filePath)
  }

  function Selected(plan: Plan, filePath: string): bool {
    !plan.diff || filePath in plan.changed
  }

  function RawChunks(files: Files, plan: Plan): seq<CodeChunk> {
    if files == [] then []
    else (if Selected(plan, files[0].0) then Chunks(files[0].0, files[0].1) else []) + RawChunks(files[1..], plan)
  }

  function SlotOf(chunk: CodeChunk): Slot {
    Slot(chunk.filePath, chunk.chunkIndex)
  }

  // ---------- Specification of the stored rows ----------

  function RowHash(row: ChunkRow): Digest {
    if row.contentHash.Some? then row.contentHash.value else Digest(row.content)
  }

  /** A parent row whose embedding serves for the same chunk again. */
  predicate Reusable(parent: Rows, chunk: CodeChunk) {
    && SlotOf(chunk) in parent
    && RowHash(parent[SlotOf(chunk)]) == Digest(chunk.content)
    && parent[SlotOf(chunk)].embedding.Some?
  }

  function FreshRow(jobId: nat, parent: Rows, chunk: CodeChunk, embed: string -> Vector): ChunkRow {
    ChunkRow(jobId, chunk.content, Some(Digest(chunk.content)),
             if Reusable(parent, chunk) then parent[SlotOf(chunk)].embedding else Some(embed(chunk.content)))
  }

  function Carry(jobId: nat, row: ChunkRow): ChunkRow {
    ChunkRow(jobId, row.content, Some(RowHash(row)), row.embedding)
  }

  /** Rows of the parent revision copied without looking at the files. */
  function CarriedRows(jobId: nat, parent: Rows, plan: Plan): Rows {
    if plan.diff then
      map slot | slot in parent && slot.filePath !in plan.changed && slot.filePath !in plan.removed
        :: Carry(jobId, parent[slot])
    else map[]
  }

  /** Rows an earlier job left for this revision that the job keeps. */
  function SurvivingRows(prior: Rows, parent: Rows, plan: Plan): Rows {
    if plan.diff && parent == map[] then
      map slot | slot in prior && slot.filePath !in plan.changed && slot.filePath !in plan.removed :: prior[slot]
    else map[]
  }

  predicate IsFresh(files: Files, plan: Plan, slot: Slot) {
    Selected(plan, slot.filePath) && slot.chunkIndex < |ChunksOf(files, slot.filePath)|
  }

  function ChunkAt(files: Files, slot: Slot): CodeChunk
    requires slot.chunkIndex < |ChunksOf(files, slot.filePath)|
  {
    ChunksOf(files, slot.filePath)[slot.chunkIndex]
  }

  function SlotsOf(chunks: seq<CodeChunk>): set<Slot> {
    set chunk | chunk in chunks :: SlotOf(chunk)
  }

  /** Rows written for the chunks of the files that were read. */
  function FreshRows(jobId: nat, parent: Rows, files: Files, plan: Plan, embed: string -> Vector): Rows {
    map slot | slot in SlotsOf(RawChunks(files, plan)) && IsFresh(files, plan, slot)
      :: FreshRow(jobId, parent, ChunkAt(files, slot), embed)
  }

  /** The rows of the revision once the job has stored its work. */
  function IndexedRows(jobId: nat, prior: Rows, parent: Rows, files: Files, plan: Plan, embed: string -> Vector): Rows {
    SurvivingRows(prior, parent, plan)
      + (CarriedRows(jobId, parent, plan) + FreshRows(jobId, parent, files, plan, embed))
  }

  // ---------- Facts about the raw chunks ----------

  lemma {:induction false} ChunksOfShape(files: Files, filePath: string)
    ensures forall k | 0 <= k < |ChunksOf(files, filePath)| ::
      ChunksOf(files, filePath)[k].filePath == filePath && ChunksOf(files, filePath)[k].chunkIndex == k
  {
    if files != [] {
      if files[0].0 == filePath {
        forall k | 0 <= k < |Chunks(filePath, files[0].1)|
          ensures Chunks(filePath, files[0].1)[k].filePath == filePath
          ensures Chunks(filePath, files[0].1)[k].chunkIndex == k
        {
          ChunksBounded(filePath, files[0].1, k);
        }
      } else {
        ChunksOfShape(files[1..], filePath);
      }
    }
  }

  lemma {:induction false} NoOtherFile(files: Files, filePath: string)
    requires forall i | 0 <= i < |files| :: files[i].0 != filePath
    ensures ChunksOf(files, filePath) == []
  {
    if files != [] {
      NoOtherFile(files[1..], filePath);
    }
  }

  ghost predicate DistinctSlots(chunks: seq<CodeChunk>) {
    forall i, j | 0 <= i < j < |chunks| :: SlotOf(chunks[i]) != SlotOf(chunks[j])
  }

  /** The raw chunks are the chunks of the selected files, each once. */
  lemma {:induction false} RawChunksExact(files: Files, plan: Plan)
    requires DistinctPaths(files)
    ensures DistinctSlots(RawChunks(files, plan))
    ensures forall chunk | chunk in RawChunks(files, plan) ::
      IsFresh(files, plan, SlotOf(chunk)) && ChunkAt(files, SlotOf(chunk)) == chunk
    ensures forall slot | IsFresh(files, plan, slot) :: ChunkAt(files, slot) in RawChunks(files, plan)
  {
    if files != [] {
      var rest := files[1..];
      RawChunksExact(rest, plan);
      NoOtherFile(rest, files[0].0);
      ChunksOfShape(files, files[0].0);
      var own := Chunks(files[0].0, files[0].1);
      assert ChunksOf(files, files[0].0) == own;
      var first := if Selected(plan, files[0].0) then own else [];
      var raw := RawChunks(rest, plan);
      assert RawChunks(files, plan) == first + raw;
      forall chunk | chunk in first
        ensures IsFresh(files, plan, SlotOf(chunk)) && ChunkAt(files, SlotOf(chunk)) == chunk
      {
        var k :| 0 <= k < |own| && own[k] == chunk;
        assert SlotOf(chunk) == Slot(files[0].0, k);
      }
      forall chunk | chunk in raw
        ensures IsFresh(files, plan, SlotOf(chunk)) && ChunkAt(files, SlotOf(chunk)) == chunk
        ensures chunk.filePath != files[0].0
      {
        assert IsFresh(rest, plan, SlotOf(chunk));
      }
      forall slot | IsFresh(files, plan, slot) ensures ChunkAt(files, slot) in first + raw {
        if slot.filePath != files[0].0 {
          assert IsFresh(rest, plan, slot);
        }
      }
      DistinctSlotsConcat(first, raw, files[0].0);
    }
  }

  lemma DistinctSlotsConcat(first: seq<CodeChunk>, raw: seq<CodeChunk>, filePath: string)
    requires DistinctSlots(raw)
    requires forall k | 0 <= k < |first| :: SlotOf(first[k]) == Slot(filePath, k)
    requires forall chunk | chunk in raw :: chunk.filePath != filePath
    ensures DistinctSlots(first + raw)
  {
    var both := first + raw;
    forall i, j | 0 <= i < j < |both| ensures SlotOf(both[i]) != SlotOf(both[j]) {
      if j < |first| {
        assert both[i] == first[i] && both[j] == first[j];
      } else {
        assert both[j] == raw[j - |first|] && both[j] in raw;
        if i < |first| {
          assert both[i] == first[i];
        } else {
          assert both[i] == raw[i - |first|];
        }
      }
    }
  }

  lemma FreshRowSlots(jobId: nat, parent: Rows, files: Files, plan: Plan, embed: string -> Vector)
    requires DistinctPaths(files)
    ensures forall slot :: slot in FreshRows(jobId, parent, files, plan, embed) <==> IsFresh(files, plan, slot)
  {
    RawChunksExact(files, plan);
    ChunksOfShapes(files);
  }

  /**
   * One row per chunk of the files read, with that chunk's text and hash. It has the parent's embedding when the
   * parent's row in the same slot has the same hash and an embedding, and a computed one otherwise.
   */
  lemma FreshRowsExact(jobId: nat, parent: Rows, files: Files, plan: Plan, embed: string -> Vector)
    requires DistinctPaths(files)
    ensures forall slot :: slot in FreshRows(jobId, parent, files, plan, embed) <==> IsFresh(files, plan, slot)
    ensures forall slot | IsFresh(files, plan, slot) ::
      var row := FreshRows(jobId, parent, files, plan, embed)[slot];
      && row.content == ChunkAt(files, slot).content && row.contentHash == Some(Digest(row.content))
      && row.embedding ==
           if slot in parent && RowHash(parent[slot]) == Digest(row.content) && parent[slot].embedding.Some?
           then parent[slot].embedding else Some(embed(row.content))
  {
    FreshRowSlots(jobId, parent, files, plan, embed);
    ChunksOfShapes(files);
  }

  lemma ChunksOfShapes(files: Files)
    ensures forall slot: Slot | slot.chunkIndex < |ChunksOf(files, slot.filePath)| ::
      SlotOf(ChunkAt(files, slot)) == slot
  {
    forall slot: Slot | slot.chunkIndex < |ChunksOf(files, slot.filePath)|
      ensures SlotOf(ChunkAt(files, slot)) == slot
    {
      ChunksOfShape(files, slot.filePath);
    }
  }
}
