/** The work of one index job on the rows of its revision (backend/app/services/github_indexing.py). */
module IndexJobs {
  import opened Options
  import opened Text
  import opened Chunking
  import opened Embedding
  import opened Indexing

  /** Two rows that agree, except perhaps on the embedding when the endpoint cannot be trusted. */
  predicate Matches(row: ChunkRow, expected: ChunkRow, aligned: bool) {
    && row.(embedding := None) == expected.(embedding := None)
    && (aligned ==> row == expected)
  }

  ghost predicate RowsMatch(rows: Rows, expected: Rows, aligned: bool) {
    rows.Keys == expected.Keys && forall slot | slot in rows :: Matches(rows[slot], expected[slot], aligned)
  }

  /** No reply of the endpoint is longer than its batch, and what it contains embeds the batch in order. */
  ghost predicate EndpointEmbeds(post: (nat, seq<string>) -> Reply<Vector>, embed: string -> Vector) {
    forall texts: seq<string> :: RepliesOwn(Batches(texts), 0, post, embed) && NeverOverlong(Batches(texts), 0, post)
  }

  function ChunkTexts(chunks: seq<CodeChunk>): (texts: seq<string>)
    ensures |texts| == |chunks|
  {
    seq(|chunks|, k requires 0 <= k < |chunks| => chunks[k].content)
  }

  /** The chunks whose embedding has to be computed. */
  function ToEmbed(raw: seq<CodeChunk>, parent: Rows): seq<CodeChunk> {
    if raw == [] then []
    else
      var front, last := raw[..|raw| - 1], raw[|raw| - 1];
      ToEmbed(front, parent) + if Reusable(parent, last) then [] else [last]
  }

  lemma {:induction false} ToEmbedExact(raw: seq<CodeChunk>, parent: Rows)
    requires DistinctSlots(raw)
    ensures DistinctSlots(ToEmbed(raw, parent))
    ensures forall chunk :: chunk in ToEmbed(raw, parent) <==> chunk in raw && !Reusable(parent, chunk)
  {
    if raw != [] {
      var front, last := raw[..|raw| - 1], raw[|raw| - 1];
      ToEmbedExact(front, parent);
      assert raw == front + [last];
      var queue := ToEmbed(front, parent);
      forall i | 0 <= i < |queue| ensures SlotOf(queue[i]) != SlotOf(last) {
        assert queue[i] in queue && queue[i] in front;
        var k :| 0 <= k < |front| && front[k] == queue[i];
        assert raw[k] == front[k] && raw[|raw| - 1] == last;
      }
    }
  }

  /** Queued rows after the chunks with a reusable embedding have been added. */
  function WithReused(jobId: nat, queued: Rows, raw: seq<CodeChunk>, parent: Rows): Rows {
    if raw == [] then queued
    else
      var last := raw[|raw| - 1];
      var before := WithReused(jobId, queued, raw[..|raw| - 1], parent);
      if Reusable(parent, last) then before[SlotOf(last) := ReusedRow(jobId, parent, last)] else before
  }

  function ReusedRow(jobId: nat, parent: Rows, chunk: CodeChunk): ChunkRow
    requires Reusable(parent, chunk)
  {
    ChunkRow(jobId, chunk.content, Some(Digest(chunk.content)), parent[SlotOf(chunk)].embedding)
  }

  /** Queued rows after the embedded chunks have been added. */
  function WithVectors(jobId: nat, queued: Rows, chunks: seq<CodeChunk>, vectors: seq<Vector>): Rows
    requires |chunks| == |vectors|
  {
    if chunks == [] then queued
    else
      var n := |chunks| - 1;
      WithVectors(jobId, queued, chunks[..n],
                  vectors[..n])[SlotOf(chunks[n]) := EmbeddedRow(jobId, chunks[n], vectors[n])]
  }

  function EmbeddedRow(jobId: nat, chunk: CodeChunk, vector: Vector): ChunkRow {
    ChunkRow(jobId, chunk.content, Some(Digest(chunk.content)), Some(vector))
  }

  lemma {:induction false} WithReusedExact(jobId: nat, queued: Rows, raw: seq<CodeChunk>, parent: Rows)
    requires DistinctSlots(raw)
    ensures var rows := WithReused(jobId, queued, raw, parent);
      && (forall slot | slot in rows :: slot in queued || slot in SlotsOf(raw))
      && (forall slot | slot in queued && slot !in SlotsOf(raw) :: slot in rows && rows[slot] == queued[slot])
      && (forall chunk | chunk in raw && Reusable(parent, chunk) ::
            SlotOf(chunk) in rows && rows[SlotOf(chunk)] == ReusedRow(jobId, parent, chunk))
      && (forall chunk | chunk in raw && !Reusable(parent, chunk) && SlotOf(chunk) !in queued :: SlotOf(chunk) !in rows)
  {
    if raw != [] {
      var front, last := raw[..|raw| - 1], raw[|raw| - 1];
      assert raw == front + [last];
      WithReusedExact(jobId, queued, front, parent);
      LastSlotIsNew(raw);
      assert SlotsOf(raw) == SlotsOf(front) + {SlotOf(last)};
    }
  }

  /** Rows with the first chunks' vectors added: the queued ones are kept, and each chunk has its own vector. */
  ghost predicate HasVectors(jobId: nat, queued: Rows, chunks: seq<CodeChunk>, vectors: seq<Vector>, rows: Rows)
    requires |chunks| == |vectors|
  {
    && rows.Keys == queued.Keys + SlotsOf(chunks)
    && (forall slot | slot in queued && slot !in SlotsOf(chunks) :: rows[slot] == queued[slot])
    && (forall k | 0 <= k < |chunks| ::
          SlotOf(chunks[k]) in rows && rows[SlotOf(chunks[k])] == EmbeddedRow(jobId, chunks[k], vectors[k]))
  }

  lemma OneMoreVector(jobId: nat, queued: Rows, chunks: seq<CodeChunk>, vectors: seq<Vector>, rows: Rows)
    requires chunks != [] && |chunks| == |vectors| && DistinctSlots(chunks)
    requires HasVectors(jobId, queued, chunks[..|chunks| - 1], vectors[..|chunks| - 1], rows)
    ensures var n := |chunks| - 1;
      HasVectors(jobId, queued, chunks, vectors, rows[SlotOf(chunks[n]) := EmbeddedRow(jobId, chunks[n], vectors[n])])
  {
    hide EmbeddedRow, SlotsOf, SlotOf, DistinctSlots;
    var n := |chunks| - 1;
    LastSlotIsNew(chunks);
    SlotsOfLast(chunks);
    var after := rows[SlotOf(chunks[n]) := EmbeddedRow(jobId, chunks[n], vectors[n])];
    forall k | 0 <= k < |chunks|
      ensures SlotOf(chunks[k]) in after && after[SlotOf(chunks[k])] == EmbeddedRow(jobId, chunks[k], vectors[k])
    {
      if k < n {
        SlotIsListed(chunks[..n], k);
      }
    }
  }

  lemma SlotsOfLast(chunks: seq<CodeChunk>)
    requires chunks != []
    ensures SlotsOf(chunks) == SlotsOf(chunks[..|chunks| - 1]) + {SlotOf(chunks[|chunks| - 1])}
  {
    hide SlotOf;
    assert chunks == chunks[..|chunks| - 1] + [chunks[|chunks| - 1]];
  }

  lemma SlotIsListed(chunks: seq<CodeChunk>, k: nat)
    requires k < |chunks|
    ensures SlotOf(chunks[k]) in SlotsOf(chunks)
  {
    hide SlotOf;
  }

  lemma {:induction false} WithVectorsExact(jobId: nat, queued: Rows, chunks: seq<CodeChunk>, vectors: seq<Vector>)
    requires DistinctSlots(chunks) && |chunks| == |vectors|
    ensures HasVectors(jobId, queued, chunks, vectors, WithVectors(jobId, queued, chunks, vectors))
  {
    if chunks != [] {
      var n := |chunks| - 1;
      WithVectorsExact(jobId, queued, chunks[..n], vectors[..n]);
      OneMoreVector(jobId, queued, chunks, vectors, WithVectors(jobId, queued, chunks[..n], vectors[..n]));
    }
  }

  lemma LastSlotIsNew(chunks: seq<CodeChunk>)
    requires DistinctSlots(chunks) && chunks != []
    ensures SlotOf(chunks[|chunks| - 1]) !in SlotsOf(chunks[..|chunks| - 1])
  {
    var front := chunks[..|chunks| - 1];
    forall chunk | chunk in front ensures SlotOf(chunk) != SlotOf(chunks[|chunks| - 1]) {
      var k :| 0 <= k < |front| && front[k] == chunk;
      assert chunks[k] == chunk;
    }
  }

  /** In a list of distinct slots, no earlier chunk occupies the slot of a later one. */
  lemma NextSlotIsFree(jobId: nat, queued: Rows, raw: seq<CodeChunk>, parent: Rows, i: nat)
    requires DistinctSlots(raw) && i < |raw| && SlotOf(raw[i]) !in queued
    ensures SlotOf(raw[i]) !in WithReused(jobId, queued, raw[..i], parent)
  {
    WithReusedExact(jobId, queued, raw[..i], parent);
    assert raw[..i + 1][..i] == raw[..i];
    LastSlotIsNew(raw[..i + 1]);
  }

  lemma NextVectorSlotIsFree(jobId: nat, queued: Rows, chunks: seq<CodeChunk>, vectors: seq<Vector>, i: nat)
    requires DistinctSlots(chunks) && |vectors| == |chunks| && i < |chunks| && SlotOf(chunks[i]) !in queued
    ensures SlotOf(chunks[i]) !in WithVectors(jobId, queued, chunks[..i], vectors[..i])
  {
    WithVectorsExact(jobId, queued, chunks[..i], vectors[..i]);
    assert chunks[..i + 1][..i] == chunks[..i];
    LastSlotIsNew(chunks[..i + 1]);
  }

  class IndexJob {
    const jobId: nat
    const incremental: bool
    var mode: Mode
    var fallbackReason: Option<string>
    var rows: Rows
    var pending: Rows
    var collided: bool
    var reusedCount: nat
    var newCount: nat
    var embedBatches: nat
    var chunkCount: nat

    constructor (jobId: nat, mode: Mode, incremental: bool, rows: Rows)
      ensures this.jobId == jobId && this.mode == mode && this.incremental == incremental && this.rows == rows
      ensures pending == map[] && !collided && reusedCount == newCount == embedBatches == chunkCount == 0
      ensures fallbackReason == None
    {
      this.jobId, this.mode, this.incremental, this.rows := jobId, mode, incremental, rows;
      fallbackReason, pending, collided := None, map[], false;
      reusedCount, newCount, embedBatches, chunkCount := 0, 0, 0, 0;
    }

    /** Diff mode survives only a successful comparison; otherwise the job becomes a full one and says why. */
    method ResolvePlan(hasBaseSha: bool, comparison: Comparison) returns (plan: Plan)
      modifies `mode, `fallbackReason
      ensures plan.diff <==> old(mode) == Diff && hasBaseSha && comparison.Compared?
      ensures plan.diff ==> plan.changed == comparison.pathsToIndex && plan.removed == comparison.pathsToRemove
      ensures mode == if plan.diff then Diff else Full
      ensures fallbackReason ==
        if old(mode) == Full || plan.diff then old(fallbackReason)
        else Some(FallbackReason(hasBaseSha, comparison))
    {
      plan := Plan(false, {}, {});
      if mode == Diff {
        if !hasBaseSha {
          mode, fallbackReason := Full, Some("missing_base_sha");
        } else {
          match comparison {
            case Compared(pathsToIndex, pathsToRemove) => plan := Plan(true, pathsToIndex, pathsToRemove);
            case CompareFailed(reason) => mode, fallbackReason := Full, Some(reason);
          }
        }
      }
    }

    /** The recorded numbers of embedded chunks and of embedding batches are the real ones. */
    predicate EmbeddingAccounted(files: Files, plan: Plan, parent: Rows)
      reads `newCount, `embedBatches
    {
      newCount == |ToEmbed(RawChunks(files, plan), parent)| && embedBatches == BatchCount(newCount)
    }

    lemma QueueAccounted(files: Files, plan: Plan, parent: Rows)
      requires newCount == |ToEmbed(RawChunks(files, plan), parent)| && embedBatches == BatchCount(newCount)
      ensures EmbeddingAccounted(files, plan, parent)
    {
    }

    method DeleteAll()
      modifies `rows
      ensures rows == map[]
    {
      rows := map[];
    }

    method DeletePaths(paths: set<string>)
      modifies `rows
      ensures rows == map slot | slot in old(rows) && slot.filePath !in paths :: old(rows)[slot]
    {
      rows := map slot | slot in rows && slot.filePath !in paths :: rows[slot];
    }

    /** Queues a row; the table accepts one row for each slot. */
    method Add(slot: Slot, row: ChunkRow)
      modifies `pending, `collided
      ensures pending == old(pending)[slot := row]
      ensures collided == (old(collided) || slot in old(pending))
    {
      collided := collided || slot in pending;
      pending := pending[slot := row];
    }

    method DeleteStale(parent: Rows, plan: Plan)
      requires parent != map[] ==> incremental
      modifies `rows
      ensures rows == SurvivingRows(old(rows), parent, plan)
    {
      if incremental && parent != map[] {
        DeleteAll();
      } else if plan.diff && plan.removed != {} {
        DeletePaths(plan.removed);
      }
      if !(incremental && parent != map[]) {
        if plan.diff {
          if plan.changed != {} {
            DeletePaths(plan.changed);
          }
        } else {
          DeleteAll();
        }
      }
    }

    method CarryParentRows(parent: Rows, plan: Plan)
      requires parent != map[] ==> incremental
      requires pending == map[] && !collided && reusedCount == 0
      modifies `pending, `collided, `reusedCount
      ensures pending == CarriedRows(jobId, parent, plan) && !collided && reusedCount == |pending|
    {
      if incremental && parent != map[] && plan.diff {
        var remaining := parent.Keys;
        while remaining != {}
          invariant remaining <= parent.Keys
          invariant !collided && reusedCount == |pending|
          invariant forall slot :: slot in pending <==>
            slot in parent.Keys - remaining && slot.filePath !in plan.changed && slot.filePath !in plan.removed
          invariant forall slot | slot in pending :: pending[slot] == Carry(jobId, parent[slot])
          decreases remaining
        {
          var slot :| slot in remaining;
          remaining := remaining - {slot};
          if !(slot.filePath in plan.changed || slot.filePath in plan.removed) {
            Add(slot, Carry(jobId, parent[slot]));
            reusedCount := reusedCount + 1;
          }
        }
        assert pending.Keys == CarriedRows(jobId, parent, plan).Keys;
      }
    }

    /** Rows whose embedding is already known are queued at once; the other chunks are returned. */
    method ReuseOrQueue(raw: seq<CodeChunk>, parent: Rows) returns (queue: seq<CodeChunk>)
      requires parent != map[] ==> incremental
      requires DistinctSlots(raw)
      requires forall chunk | chunk in raw :: SlotOf(chunk) !in pending
      requires !collided && reusedCount == |pending|
      modifies `pending, `collided, `reusedCount
      ensures queue == ToEmbed(raw, parent)
      ensures pending == WithReused(jobId, old(pending), raw, parent)
      ensures !collided && reusedCount == |pending|
    {
      queue := [];
      for i := 0 to |raw|
        invariant queue == ToEmbed(raw[..i], parent)
        invariant pending == WithReused(jobId, old(pending), raw[..i], parent)
        invariant !collided && reusedCount == |pending|
      {
        var chunk := raw[i];
        assert raw[..i + 1][..i] == raw[..i];
        if incremental && Reusable(parent, chunk) {
          NextSlotIsFree(jobId, old(pending), raw, parent, i);
          Add(SlotOf(chunk), ReusedRow(jobId, parent, chunk));
          reusedCount := reusedCount + 1;
        } else {
          queue := queue + [chunk];
        }
      }
      assert raw[..|raw|] == raw;
    }

    /** Vectors for the queued chunks; nothing when the endpoint raised or returned a wrong count. */
    method RequestVectors(queue: seq<CodeChunk>, post: (nat, seq<string>) -> Reply<Vector>,
                          ghost embed: string -> Vector) returns (vectors: Option<seq<Vector>>)
      ensures vectors.Some? ==> |vectors.value| == |queue|
      ensures Answers(post) ==> vectors.Some?
      ensures vectors.Some? && EndpointEmbeds(post, embed) ==>
        forall k | 0 <= k < |queue| :: vectors.value[k] == embed(queue[k].content)
    {
      if queue == [] {
        return Some([]);
      }
      var texts := ChunkTexts(queue);
      var outcome := EmbedTexts(texts, post);
      if Answers(post) {
        BatchesPartition(texts);
        AnswersAreCollected(Batches(texts), 0, post);
      }
      if outcome.Raised? || |outcome.vectors| != |queue| {
        return None;
      }
      vectors := Some(outcome.vectors);
      if EndpointEmbeds(post, embed) {
        BatchesPartition(texts);
        VectorsMeanAnswers(Batches(texts), 0, post);
        CountCheckAligns(Batches(texts), 0, ReplyLengths(Batches(texts), 0, post), post, embed);
        assert vectors.value == Map(texts, embed);
      }
    }

    method AddVectors(queue: seq<CodeChunk>, vectors: seq<Vector>)
      requires DistinctSlots(queue) && |vectors| == |queue|
      requires forall chunk | chunk in queue :: SlotOf(chunk) !in pending
      requires !collided && newCount == 0
      modifies `pending, `collided, `newCount
      ensures pending == WithVectors(jobId, old(pending), queue, vectors)
      ensures !collided && newCount == |queue| && |pending| == |old(pending)| + newCount
    {
      for i := 0 to |queue|
        invariant pending == WithVectors(jobId, old(pending), queue[..i], vectors[..i])
        invariant !collided && newCount == i && |pending| == |old(pending)| + i
      {
        assert queue[..i + 1][..i] == queue[..i] && vectors[..i + 1][..i] == vectors[..i];
        NextVectorSlotIsFree(jobId, old(pending), queue, vectors, i);
        Add(SlotOf(queue[i]), EmbeddedRow(jobId, queue[i], vectors[i]));
        newCount := newCount + 1;
      }
      assert queue[..|queue|] == queue && vectors[..|queue|] == vectors;
    }

    /** Queues the carried, the reused and the newly embedded rows; a failed embedding stops the job. */
    method QueueRows(files: Files, plan: Plan, parent: Rows, post: (nat, seq<string>) -> Reply<Vector>,
                     ghost embed: string -> Vector) returns (ok: bool)
      requires DistinctPaths(files)
      requires parent != map[] ==> incremental
      requires pending == map[] && !collided && reusedCount == newCount == embedBatches == 0
      modifies `pending, `collided, `reusedCount, `newCount, `embedBatches
      ensures Answers(post) ==> ok
      ensures ok ==> !collided && |pending| == reusedCount + newCount
      ensures ok ==> EmbeddingAccounted(files, plan, parent)
      ensures ok ==>
        RowsMatch(pending, CarriedRows(jobId, parent, plan) + FreshRows(jobId, parent, files, plan, embed),
                  EndpointEmbeds(post, embed))
    {
      hide *;
      var raw := RawChunks(files, plan);
      RawChunksExact(files, plan);
      CarryParentRows(parent, plan);
      ghost var carried := pending;
      CarriedAvoidsRaw(jobId, parent, files, plan);
      var queue := ReuseOrQueue(raw, parent);
      QueueAvoidsReused(jobId, carried, raw, parent);
      var vectors := RequestVectors(queue, post, embed);
      if vectors.None? {
        return false;
      }
      AddVectors(queue, vectors.value);
      embedBatches := BatchCount(newCount);
      assert EmbeddingAccounted(files, plan, parent) by { QueueAccounted(files, plan, parent); }
      QueuedExact(jobId, parent, files, plan, embed, vectors.value, EndpointEmbeds(post, embed));
      return true;
    }

    /** Sends the queued rows to the table; two rows in one slot violate its unique key. */
    method FlushPending() returns (ok: bool)
      modifies `rows, `pending
      ensures ok <==> !collided && old(pending).Keys !! old(rows).Keys
      ensures ok ==> rows == old(rows) + old(pending) && pending == map[]
      ensures !ok ==> rows == old(rows)
    {
      ok := !collided && pending.Keys !! rows.Keys;
      if ok {
        rows := rows + pending;
        pending := map[];
      }
    }

    /** The clean-up of an empty index, the flush and the row count; nothing is left to delete here. */
    method StoreQueued(raw: seq<CodeChunk>, plan: Plan, parent: Rows) returns (ok: bool)
      requires parent != map[] ==> incremental
      requires forall slot | slot in rows :: slot.filePath !in plan.removed + plan.changed
      requires !plan.diff ==> rows == map[]
      modifies `rows, `pending, `chunkCount
      ensures ok <==> !collided && old(pending).Keys !! old(rows).Keys
      ensures ok ==> rows == old(rows) + old(pending) && pending == map[] && chunkCount == |old(rows)| + |old(pending)|
    {
      if raw == [] && reusedCount == 0 {
        if plan.diff {
          DeletePaths(plan.removed + plan.changed);
        } else if !incremental || parent == map[] {
          DeleteAll();
        }
      }
      assert rows == old(rows);
      ok := FlushPending();
      if ok {
        UnionSize(old(rows), old(pending));
        chunkCount := |rows|;
      }
    }

    /** `run_index_job` between its claim and its completion. An error restores the rows of the revision. */
    method BuildRevisionIndex(archive: Option<Files>, hasBaseSha: bool, comparison: Comparison,
                              parentRevision: Option<Rows>, post: (nat, seq<string>) -> Reply<Vector>,
                              ghost embed: string -> Vector)
        returns (result: RunResult, plan: Plan)
      requires archive.Some? ==> DistinctPaths(archive.value)
      requires pending == map[] && !collided && reusedCount == newCount == embedBatches == chunkCount == 0
      modifies this
      ensures plan.diff <==> old(mode) == Diff && hasBaseSha && comparison.Compared?
      ensures plan.diff ==> plan.changed == comparison.pathsToIndex && plan.removed == comparison.pathsToRemove
      ensures !result.UniqueViolation?
      ensures result.Failed? ==> rows == old(rows)
      ensures result.Stored? ==> archive.Some?
      ensures archive.Some? && Answers(post) ==> result.Stored?
      ensures result.Stored? ==>
        var parent := if incremental && parentRevision.Some? then parentRevision.value else map[];
        RowsMatch(rows, IndexedRows(jobId, old(rows), parent, archive.value, plan, embed), EndpointEmbeds(post, embed))
      ensures result.Stored? ==>
        var parent := if incremental && parentRevision.Some? then parentRevision.value else map[];
        && reusedCount + newCount + |SurvivingRows(old(rows), parent, plan)| == chunkCount
        && EmbeddingAccounted(archive.value, plan, parent)
    {
      var prior := rows;
      plan := ResolvePlan(hasBaseSha, comparison);
      if archive.None? {
        return Failed("archive"), plan;
      }
      var parent := ParentChunks(incremental, parentRevision);
      result := IndexFiles(archive.value, plan, parent, post, embed);
      if result.Failed? {
        rows, pending := prior, map[];
      }
    }

    method IndexFiles(files: Files, plan: Plan, parent: Rows, post: (nat, seq<string>) -> Reply<Vector>,
                      ghost embed: string -> Vector) returns (result: RunResult)
      requires DistinctPaths(files)
      requires parent != map[] ==> incremental
      requires pending == map[] && !collided && reusedCount == newCount == embedBatches == chunkCount == 0
      modifies `rows, `pending, `collided, `reusedCount, `newCount, `embedBatches, `chunkCount
      ensures !result.UniqueViolation?
      ensures Answers(post) ==> result.Stored?
      ensures result.Stored? ==>
        RowsMatch(rows, IndexedRows(jobId, old(rows), parent, files, plan, embed), EndpointEmbeds(post, embed))
      ensures result.Stored? ==> reusedCount + newCount + |SurvivingRows(old(rows), parent, plan)| == chunkCount
      ensures result.Stored? ==> EmbeddingAccounted(files, plan, parent)
    {
      hide *;
      ghost var prior := rows;
      DeleteStale(parent, plan);
      var queued := QueueRows(files, plan, parent, post, embed);
      if !queued {
        return Failed("embedding");
      }
      StoredExact(jobId, prior, parent, files, plan, embed, pending, EndpointEmbeds(post, embed));
      SurvivorsShape(prior, parent, plan);
      var stored := StoreQueued(RawChunks(files, plan), plan, parent);
      assert stored;
      return Stored;
    }
  }

  lemma SurvivorsShape(prior: Rows, parent: Rows, plan: Plan)
    ensures forall slot | slot in SurvivingRows(prior, parent, plan) :: slot.filePath !in plan.removed + plan.changed
    ensures !plan.diff ==> SurvivingRows(prior, parent, plan) == map[]
  {
  }

  lemma UnionSize<K, V>(a: map<K, V>, b: map<K, V>)
    requires a.Keys !! b.Keys
    ensures |a + b| == |a| + |b|
  {
    assert (a + b).Keys == a.Keys + b.Keys;
  }

  function FallbackReason(hasBaseSha: bool, comparison: Comparison): string {
    if !hasBaseSha then "missing_base_sha" else if comparison.CompareFailed? then comparison.reason else ""
  }

  lemma CarriedAvoidsRaw(jobId: nat, parent: Rows, files: Files, plan: Plan)
    requires DistinctPaths(files)
    ensures forall chunk | chunk in RawChunks(files, plan) :: SlotOf(chunk) !in CarriedRows(jobId, parent, plan)
  {
    RawChunksExact(files, plan);
  }

  /** The parent revision's rows, looked at only by an incremental job. */
  function ParentChunks(incremental: bool, parentRevision: Option<Rows>): (parent: Rows)
    ensures parent != map[] ==> incremental
  {
    if incremental && parentRevision.Some? then parentRevision.value else map[]
  }

  lemma QueueAvoidsReused(jobId: nat, queued: Rows, raw: seq<CodeChunk>, parent: Rows)
    requires DistinctSlots(raw)
    requires forall chunk | chunk in raw :: SlotOf(chunk) !in queued
    ensures DistinctSlots(ToEmbed(raw, parent))
    ensures forall chunk | chunk in ToEmbed(raw, parent) :: SlotOf(chunk) !in WithReused(jobId, queued, raw, parent)
  {
    WithReusedExact(jobId, queued, raw, parent);
    ToEmbedExact(raw, parent);
  }

  /** What has been queued is the carried rows and the fresh rows, and these do not overlap. */
  lemma PendingExact(jobId: nat, parent: Rows, files: Files, plan: Plan, embed: string -> Vector,
                     carried: Rows, pending: Rows, aligned: bool)
    requires DistinctPaths(files)
    requires carried == CarriedRows(jobId, parent, plan)
    requires forall slot | slot in carried :: slot in pending && pending[slot] == carried[slot]
    requires forall slot | slot in pending ::
      slot in carried || exists chunk | chunk in RawChunks(files, plan) :: SlotOf(chunk) == slot
    requires forall chunk | chunk in RawChunks(files, plan) ::
      SlotOf(chunk) in pending && Matches(pending[SlotOf(chunk)], FreshRow(jobId, parent, chunk, embed), aligned)
    ensures RowsMatch(pending, carried + FreshRows(jobId, parent, files, plan, embed), aligned)
  {
    var computed := FreshRows(jobId, parent, files, plan, embed);
    forall slot | slot in computed
      ensures slot in pending && Matches(pending[slot], computed[slot], aligned)
    {
      var chunk := ComputedChunk(jobId, parent, files, plan, embed, slot);
    }
    forall chunk | chunk in RawChunks(files, plan) ensures SlotOf(chunk) in computed {
      RawChunkIsComputed(jobId, parent, files, plan, embed, chunk);
    }
    hide FreshRows, FreshRow, RawChunks, CarriedRows;
    forall slot | slot in carried ensures Matches(pending[slot], carried[slot], aligned) {
    }
  }

  /** Every computed row is that of one collected chunk, and the other way round. */
  lemma ComputedChunk(jobId: nat, parent: Rows, files: Files, plan: Plan, embed: string -> Vector, slot: Slot)
    returns (chunk: CodeChunk)
    requires DistinctPaths(files) && slot in FreshRows(jobId, parent, files, plan, embed)
    ensures chunk in RawChunks(files, plan) && SlotOf(chunk) == slot
    ensures FreshRows(jobId, parent, files, plan, embed)[slot] == FreshRow(jobId, parent, chunk, embed)
  {
    hide FreshRow;
    RawChunksExact(files, plan);
    ChunksOfShapes(files);
    chunk := ChunkAt(files, slot);
  }

  lemma RawChunkIsComputed(jobId: nat, parent: Rows, files: Files, plan: Plan, embed: string -> Vector,
                           chunk: CodeChunk)
    requires DistinctPaths(files) && chunk in RawChunks(files, plan)
    ensures SlotOf(chunk) in FreshRows(jobId, parent, files, plan, embed)
  {
    hide FreshRow;
    RawChunksExact(files, plan);
  }

  lemma QueuedExact(jobId: nat, parent: Rows, files: Files, plan: Plan, embed: string -> Vector,
                    vectors: seq<Vector>, aligned: bool)
    requires DistinctPaths(files)
    requires |vectors| == |ToEmbed(RawChunks(files, plan), parent)|
    requires aligned ==>
      forall k | 0 <= k < |vectors| :: vectors[k] == embed(ToEmbed(RawChunks(files, plan), parent)[k].content)
    ensures var raw := RawChunks(files, plan);
      var carried := CarriedRows(jobId, parent, plan);
      var pending := WithVectors(jobId, WithReused(jobId, carried, raw, parent), ToEmbed(raw, parent), vectors);
      RowsMatch(pending, carried + FreshRows(jobId, parent, files, plan, embed), aligned)
  {
    var raw := RawChunks(files, plan);
    var carried := CarriedRows(jobId, parent, plan);
    var queue := ToEmbed(raw, parent);
    var reused := WithReused(jobId, carried, raw, parent);
    var pending := WithVectors(jobId, reused, queue, vectors);
    RawChunksExact(files, plan);
    ToEmbedExact(raw, parent);
    WithReusedExact(jobId, carried, raw, parent);
    WithVectorsExact(jobId, reused, queue, vectors);
    CarriedAvoidsRaw(jobId, parent, files, plan);
    QueueAvoidsReused(jobId, carried, raw, parent);
    forall chunk | chunk in raw
      ensures SlotOf(chunk) in pending
      ensures Matches(pending[SlotOf(chunk)], FreshRow(jobId, parent, chunk, embed), aligned)
    {
      if Reusable(parent, chunk) {
        assert SlotOf(chunk) in reused;
        assert SlotOf(chunk) !in SlotsOf(queue);
      } else {
        assert chunk in queue;
        var k :| 0 <= k < |queue| && queue[k] == chunk;
        assert SlotOf(queue[k]) in SlotsOf(queue);
      }
    }
    PendingExact(jobId, parent, files, plan, embed, carried, pending, aligned);
  }

  /** The queued rows meet no row that survives the job, and together they are the specified rows. */
  lemma StoredExact(jobId: nat, prior: Rows, parent: Rows, files: Files, plan: Plan, embed: string -> Vector,
                    pending: Rows, aligned: bool)
    requires DistinctPaths(files)
    requires RowsMatch(pending, CarriedRows(jobId, parent, plan) + FreshRows(jobId, parent, files, plan, embed),
                       aligned)
    ensures pending.Keys !! SurvivingRows(prior, parent, plan).Keys
    ensures RowsMatch(SurvivingRows(prior, parent, plan) + pending,
                      IndexedRows(jobId, prior, parent, files, plan, embed), aligned)
  {
    FreshRowSlots(jobId, parent, files, plan, embed);
    var survivors := SurvivingRows(prior, parent, plan);
    var queued := CarriedRows(jobId, parent, plan) + FreshRows(jobId, parent, files, plan, embed);
    assert survivors.Keys !! queued.Keys;
    RowsMatchUnion(survivors, pending, queued, aligned);
  }

  lemma RowsMatchUnion(survivors: Rows, pending: Rows, queued: Rows, aligned: bool)
    requires RowsMatch(pending, queued, aligned) && survivors.Keys !! queued.Keys
    ensures RowsMatch(survivors + pending, survivors + queued, aligned)
  {
    assert (survivors + pending).Keys == (survivors + queued).Keys;
  }
}
