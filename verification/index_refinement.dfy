/** Incremental indexing against indexing from scratch, over one job and over every sequence of jobs of a history. */
module IndexRefinement {
  import opened Options
  import opened Chunking
  import opened Indexing

  // ---------- What it means for stored rows to be right ----------

  /** The stored hash and embedding, when present, are those of the stored content. */
  predicate RowOk(row: ChunkRow, embed: string -> Vector) {
    && (row.contentHash.Some? ==> row.contentHash.value == Digest(row.content))
    && (row.embedding.Some? ==> row.embedding.value == embed(row.content))
  }

  ghost predicate RowsOk(rows: Rows, embed: string -> Vector) {
    forall slot | slot in rows :: RowOk(rows[slot], embed)
  }

  /** The rows of a path are exactly a fresh chunking of the file. */
  ghost predicate PathExact(rows: Rows, files: Files, filePath: string) {
    var chunks := ChunksOf(files, filePath);
    && (forall k: nat :: Slot(filePath, k) in rows <==> k < |chunks|)
    && (forall k | 0 <= k < |chunks| :: rows[Slot(filePath, k)].content == chunks[k].content)
  }

  /** Every path that has rows has exactly the rows of a fresh chunking. */
  ghost predicate Consistent(rows: Rows, files: Files) {
    forall slot | slot in rows :: PathExact(rows, files, slot.filePath)
  }

  /** The chunk texts of a path agree at two revisions; equal file contents suffice. */
  ghost predicate SameChunks(before: Files, after: Files, filePath: string) {
    ChunksOf(before, filePath) == ChunksOf(after, filePath)
  }

  predicate IsCarried(parent: Rows, plan: Plan, slot: Slot) {
    plan.diff && slot in parent && slot.filePath !in plan.changed && slot.filePath !in plan.removed
  }

  /** The caller-checkable condition: the files whose rows are carried over did not change since the parent. */
  ghost predicate CarriedUnchanged(parent: Rows, plan: Plan, before: Files, after: Files) {
    forall slot | IsCarried(parent, plan, slot) :: SameChunks(before, after, slot.filePath)
  }

  // ---------- One job ----------

  /** Where a stored row comes from. */
  lemma RowSource(jobId: nat, prior: Rows, parent: Rows, files: Files, plan: Plan, embed: string -> Vector, slot: Slot)
    requires DistinctPaths(files) && slot in IndexedRows(jobId, prior, parent, files, plan, embed)
    ensures var row := IndexedRows(jobId, prior, parent, files, plan, embed)[slot];
      || (slot in SurvivingRows(prior, parent, plan) && row == prior[slot])
      || (IsCarried(parent, plan, slot) && row == Carry(jobId, parent[slot]))
      || (IsFresh(files, plan, slot) && row == FreshRow(jobId, parent, ChunkAt(files, slot), embed))
  {
    FreshRowSlots(jobId, parent, files, plan, embed);
  }

  /**
   * Which rows a job leaves, and what they say: the chunks of the files it reads; in diff mode beside them the rows of
   * the parent for the paths the comparison does not list, or, when the parent has no rows, those already stored.
   */
  lemma RowsExact(jobId: nat, prior: Rows, parent: Rows, files: Files, plan: Plan, embed: string -> Vector, slot: Slot)
    requires DistinctPaths(files)
    ensures var rows := IndexedRows(jobId, prior, parent, files, plan, embed);
      var unlisted := plan.diff && slot.filePath !in plan.changed && slot.filePath !in plan.removed;
      var read := !plan.diff || slot.filePath in plan.changed;
      if read && slot.chunkIndex < |ChunksOf(files, slot.filePath)| then
        slot in rows && rows[slot].jobId == jobId
        && rows[slot].content == ChunksOf(files, slot.filePath)[slot.chunkIndex].content
      else if unlisted && slot in parent then
        && slot in rows && rows[slot].jobId == jobId && rows[slot].content == parent[slot].content
        && rows[slot].embedding == parent[slot].embedding
        && rows[slot].contentHash == Some(if parent[slot].contentHash.Some? then parent[slot].contentHash.value
                                          else Digest(parent[slot].content))
      else if unlisted && parent == map[] && slot in prior then slot in rows && rows[slot] == prior[slot]
      else slot !in rows
  {
    FreshRowSlots(jobId, parent, files, plan, embed);
  }

  /** Reuse never attaches a wrong embedding: whatever the mode, rows stay right about their own content. */
  lemma IndexedRowsOk(jobId: nat, prior: Rows, parent: Rows, files: Files, plan: Plan, embed: string -> Vector)
    requires DistinctPaths(files) && RowsOk(prior, embed) && RowsOk(parent, embed)
    ensures RowsOk(IndexedRows(jobId, prior, parent, files, plan, embed), embed)
  {
    hide IndexedRows;
    forall slot | slot in IndexedRows(jobId, prior, parent, files, plan, embed)
      ensures RowOk(IndexedRows(jobId, prior, parent, files, plan, embed)[slot], embed)
    {
      RowSource(jobId, prior, parent, files, plan, embed, slot);
      if IsFresh(files, plan, slot) {
        ReuseIsFresh(jobId, parent, ChunkAt(files, slot), embed);
      }
    }
  }

  /** A row without an embedding was carried or kept from a row without one. */
  lemma NullEmbeddingIsOld(jobId: nat, prior: Rows, parent: Rows, files: Files, plan: Plan, embed: string -> Vector,
                           slot: Slot)
    requires DistinctPaths(files) && slot in IndexedRows(jobId, prior, parent, files, plan, embed)
    requires IndexedRows(jobId, prior, parent, files, plan, embed)[slot].embedding.None?
    ensures || (slot in SurvivingRows(prior, parent, plan) && prior[slot].embedding.None?)
            || (IsCarried(parent, plan, slot) && parent[slot].embedding.None?)
  {
    hide IndexedRows;
    RowSource(jobId, prior, parent, files, plan, embed, slot);
  }

  /** A full job stores exactly the rows of a job that ignores the parent, embeddings included. */
  lemma FullEqualsFromScratch(jobId: nat, prior: Rows, parent: Rows, files: Files, plan: Plan, embed: string -> Vector)
    requires DistinctPaths(files) && !plan.diff && RowsOk(parent, embed)
    ensures var rows := IndexedRows(jobId, prior, parent, files, plan, embed);
      && rows == IndexedRows(jobId, map[], map[], files, plan, embed)
      && (forall filePath: string :: PathExact(rows, files, filePath))
      && (forall slot | slot in rows :: rows[slot].embedding == Some(embed(rows[slot].content)))
  {
    FreshRowSlots(jobId, parent, files, plan, embed);
    FreshRowSlots(jobId, map[], files, plan, embed);
    ChunksOfShapes(files);
    var rows := IndexedRows(jobId, prior, parent, files, plan, embed);
    var scratch := IndexedRows(jobId, map[], map[], files, plan, embed);
    forall slot | slot in rows ensures rows[slot] == scratch[slot] {
      ReuseIsFresh(jobId, parent, ChunkAt(files, slot), embed);
    }
    assert rows.Keys == scratch.Keys;
  }

  lemma ReuseIsFresh(jobId: nat, parent: Rows, chunk: CodeChunk, embed: string -> Vector)
    requires RowsOk(parent, embed)
    ensures FreshRow(jobId, parent, chunk, embed)
         == ChunkRow(jobId, chunk.content, Some(Digest(chunk.content)), Some(embed(chunk.content)))
  {
    if Reusable(parent, chunk) {
      assert RowOk(parent[SlotOf(chunk)], embed);
    }
  }

  /** Paths the job reads get exactly their fresh chunks, whatever was stored before. */
  lemma ReadPathsExact(jobId: nat, prior: Rows, parent: Rows, files: Files, plan: Plan, embed: string -> Vector,
                       filePath: string)
    requires DistinctPaths(files) && Selected(plan, filePath)
    ensures PathExact(IndexedRows(jobId, prior, parent, files, plan, embed), files, filePath)
  {
    FreshRowSlots(jobId, parent, files, plan, embed);
    ChunksOfShapes(files);
    var rows := IndexedRows(jobId, prior, parent, files, plan, embed);
    forall k | 0 <= k < |ChunksOf(files, filePath)|
      ensures rows[Slot(filePath, k)].content == ChunksOf(files, filePath)[k].content
    {
      assert IsFresh(files, plan, Slot(filePath, k));
    }
  }

  /**
   * In diff mode the index of HEAD agrees with a fresh chunking if and only if the carried-over files are
   * unchanged between the parent and HEAD: the comparison is made against the base of the pull request, so a
   * file put back to its base text is in neither list and keeps the parent's rows.
   */
  lemma DiffConsistentIff(jobId: nat, prior: Rows, parent: Rows, before: Files, after: Files, plan: Plan,
                          embed: string -> Vector)
    requires DistinctPaths(after) && Consistent(parent, before) && Consistent(prior, after)
    ensures Consistent(IndexedRows(jobId, prior, parent, after, plan, embed), after)
       <==> CarriedUnchanged(parent, plan, before, after)
  {
    var rows := IndexedRows(jobId, prior, parent, after, plan, embed);
    FreshRowSlots(jobId, parent, after, plan, embed);
    if CarriedUnchanged(parent, plan, before, after) {
      forall slot | slot in rows ensures PathExact(rows, after, slot.filePath) {
        if Selected(plan, slot.filePath) {
          ReadPathsExact(jobId, prior, parent, after, plan, embed, slot.filePath);
        } else if IsCarried(parent, plan, slot) {
          CarriedPathExact(jobId, prior, parent, before, after, plan, embed, slot);
        } else {
          SurvivingPathExact(jobId, prior, parent, after, plan, embed, slot);
        }
      }
    }
    if Consistent(rows, after) {
      forall slot | IsCarried(parent, plan, slot) ensures SameChunks(before, after, slot.filePath) {
        CarriedPathExact(jobId, prior, parent, before, after, plan, embed, slot);
      }
    }
  }

  /** A carried path keeps the parent's rows, so it is exact at HEAD just when its chunks are the same. */
  lemma CarriedPathExact(jobId: nat, prior: Rows, parent: Rows, before: Files, after: Files, plan: Plan,
                         embed: string -> Vector, slot: Slot)
    requires DistinctPaths(after) && Consistent(parent, before) && IsCarried(parent, plan, slot)
    ensures var rows := IndexedRows(jobId, prior, parent, after, plan, embed);
      && slot in rows
      && (PathExact(rows, after, slot.filePath) <==> SameChunks(before, after, slot.filePath))
  {
    var rows := IndexedRows(jobId, prior, parent, after, plan, embed);
    var filePath := slot.filePath;
    FreshRowSlots(jobId, parent, after, plan, embed);
    forall k: nat
      ensures Slot(filePath, k) in rows <==> Slot(filePath, k) in parent
      ensures Slot(filePath, k) in rows ==> rows[Slot(filePath, k)].content == parent[Slot(filePath, k)].content
    {
    }
    assert PathExact(parent, before, filePath);
    if PathExact(rows, after, filePath) {
      ExactDetermines(parent, rows, before, after, filePath);
    }
  }

  lemma ExactDetermines(parent: Rows, rows: Rows, before: Files, after: Files, filePath: string)
    requires PathExact(parent, before, filePath) && PathExact(rows, after, filePath)
    requires forall k: nat :: Slot(filePath, k) in rows <==> Slot(filePath, k) in parent
    requires forall k: nat | Slot(filePath, k) in rows ::
      rows[Slot(filePath, k)].content == parent[Slot(filePath, k)].content
    ensures SameChunks(before, after, filePath)
  {
    var a, b := ChunksOf(before, filePath), ChunksOf(after, filePath);
    ChunksOfShape(before, filePath);
    ChunksOfShape(after, filePath);
    assert Slot(filePath, |a|) in rows <==> Slot(filePath, |a|) in parent;
    assert Slot(filePath, |b|) in rows <==> Slot(filePath, |b|) in parent;
    assert |a| == |b|;
    forall k | 0 <= k < |a| ensures a[k] == b[k] {
      assert Slot(filePath, k) in rows;
    }
  }

  lemma SurvivingPathExact(jobId: nat, prior: Rows, parent: Rows, after: Files, plan: Plan, embed: string -> Vector,
                           slot: Slot)
    requires DistinctPaths(after) && Consistent(prior, after)
    requires slot in IndexedRows(jobId, prior, parent, after, plan, embed)
    requires !Selected(plan, slot.filePath) && !IsCarried(parent, plan, slot)
    ensures PathExact(IndexedRows(jobId, prior, parent, after, plan, embed), after, slot.filePath)
  {
    var rows := IndexedRows(jobId, prior, parent, after, plan, embed);
    var filePath := slot.filePath;
    FreshRowSlots(jobId, parent, after, plan, embed);
    assert parent == map[] && slot in prior;
    forall k: nat
      ensures Slot(filePath, k) in rows <==> Slot(filePath, k) in prior
      ensures Slot(filePath, k) in rows ==> rows[Slot(filePath, k)] == prior[Slot(filePath, k)]
    {
    }
    assert PathExact(prior, after, filePath);
  }

  // ---------- Complete diff indexes ----------

  /** What the comparison says about a path the job does not read: gone at HEAD, or the same as at the parent. */
  ghost predicate ToldRight(plan: Plan, before: Files, after: Files, filePath: string) {
    filePath in plan.changed ||
    if filePath in plan.removed then ChunksOf(after, filePath) == [] else SameChunks(before, after, filePath)
  }

  lemma UnreadPathExact(jobId: nat, prior: Rows, parent: Rows, before: Files, after: Files, plan: Plan,
                        embed: string -> Vector, filePath: string)
    requires DistinctPaths(after) && plan.diff && parent != map[] && filePath !in plan.changed
    requires PathExact(parent, before, filePath)
    ensures PathExact(IndexedRows(jobId, prior, parent, after, plan, embed), after, filePath)
       <==> ToldRight(plan, before, after, filePath)
  {
    var rows := IndexedRows(jobId, prior, parent, after, plan, embed);
    FreshRowSlots(jobId, parent, after, plan, embed);
    if filePath in plan.removed {
      assert forall k: nat :: Slot(filePath, k) !in rows;
      NoRowsMeansNoChunks(rows, after, filePath);
    } else {
      assert forall k: nat :: Slot(filePath, k) in rows <==> Slot(filePath, k) in parent;
      assert forall k: nat | Slot(filePath, k) in rows ::
        rows[Slot(filePath, k)].content == parent[Slot(filePath, k)].content;
      hide IndexedRows;
      if PathExact(rows, after, filePath) {
        ExactDetermines(parent, rows, before, after, filePath);
      }
    }
  }

  lemma NoRowsMeansNoChunks(rows: Rows, files: Files, filePath: string)
    requires forall k: nat :: Slot(filePath, k) !in rows
    ensures PathExact(rows, files, filePath) <==> ChunksOf(files, filePath) == []
  {
    if PathExact(rows, files, filePath) {
      assert Slot(filePath, 0) in rows <==> 0 < |ChunksOf(files, filePath)|;
    }
  }

  /**
   * From a parent index that is exact on every path, a diff job that carries rows over leaves an index that is exact
   * on every path if and only if the comparison told right about every path it does not list as changed.
   */
  lemma DiffCompleteIff(jobId: nat, prior: Rows, parent: Rows, before: Files, after: Files, plan: Plan,
                        embed: string -> Vector)
    requires DistinctPaths(after) && plan.diff && parent != map[]
    requires forall filePath: string :: PathExact(parent, before, filePath)
    ensures var rows := IndexedRows(jobId, prior, parent, after, plan, embed);
      (forall filePath: string :: PathExact(rows, after, filePath))
        <==> (forall filePath: string :: ToldRight(plan, before, after, filePath))
  {
    var rows := IndexedRows(jobId, prior, parent, after, plan, embed);
    forall filePath: string ensures PathExact(rows, after, filePath) <==> ToldRight(plan, before, after, filePath) {
      hide PathExact, IndexedRows, SameChunks;
      if filePath in plan.changed {
        ReadPathsExact(jobId, prior, parent, after, plan, embed, filePath);
      } else {
        UnreadPathExact(jobId, prior, parent, before, after, plan, embed, filePath);
      }
    }
  }

  /**
   * Without parent rows a diff job works on what is stored for the revision: the index is exact on every path if and
   * only if each removed path is gone and each other path it does not read was exact before.
   */
  lemma DiffUpdateCompleteIff(jobId: nat, prior: Rows, after: Files, plan: Plan, embed: string -> Vector)
    requires DistinctPaths(after) && plan.diff
    ensures var rows := IndexedRows(jobId, prior, map[], after, plan, embed);
      (forall filePath: string :: PathExact(rows, after, filePath))
        <==> (forall filePath: string | filePath !in plan.changed ::
                if filePath in plan.removed then ChunksOf(after, filePath) == [] else PathExact(prior, after, filePath))
  {
    var rows := IndexedRows(jobId, prior, map[], after, plan, embed);
    forall filePath: string
      ensures filePath in plan.changed ==> PathExact(rows, after, filePath)
      ensures filePath !in plan.changed ==>
        (PathExact(rows, after, filePath) <==>
         if filePath in plan.removed then ChunksOf(after, filePath) == [] else PathExact(prior, after, filePath))
    {
      if filePath in plan.changed {
        ReadPathsExact(jobId, prior, map[], after, plan, embed, filePath);
      } else {
        UpdatedPathExact(jobId, prior, after, plan, embed, filePath);
      }
      hide PathExact, IndexedRows;
    }
  }

  lemma UpdatedPathExact(jobId: nat, prior: Rows, after: Files, plan: Plan, embed: string -> Vector, filePath: string)
    requires DistinctPaths(after) && plan.diff && filePath !in plan.changed
    ensures PathExact(IndexedRows(jobId, prior, map[], after, plan, embed), after, filePath)
       <==> if filePath in plan.removed then ChunksOf(after, filePath) == [] else PathExact(prior, after, filePath)
  {
    var rows := IndexedRows(jobId, prior, map[], after, plan, embed);
    forall k: nat
      ensures Slot(filePath, k) in rows <==> filePath !in plan.removed && Slot(filePath, k) in prior
      ensures Slot(filePath, k) in rows ==> rows[Slot(filePath, k)] == prior[Slot(filePath, k)]
    {
      RowsExact(jobId, prior, map[], after, plan, embed, Slot(filePath, k));
    }
    hide IndexedRows;
    if filePath in plan.removed {
      NoRowsMeansNoChunks(rows, after, filePath);
    }
  }

  // ---------- Every sequence of jobs over a history ----------

  /**
   * One index job on a revision of the pull request that committed: it completed, or it found itself superseded
   * and deleted the rows it had added.
   */
  datatype Job = Job(jobId: nat, revision: nat, incremental: bool, plan: Plan, abandoned: bool)

  ghost predicate ValidHistory(history: seq<Files>, jobs: seq<Job>) {
    && (forall r | 0 <= r < |history| :: DistinctPaths(history[r]))
    && (forall i | 0 <= i < |jobs| :: jobs[i].revision < |history|)
  }

  function ParentOf(index: seq<Rows>, job: Job): Rows
    requires job.revision < |index|
  {
    if job.incremental && job.revision > 0 then index[job.revision - 1] else map[]
  }

  function Apply(index: seq<Rows>, history: seq<Files>, job: Job, embed: string -> Vector): (after: seq<Rows>)
    requires job.revision < |index| == |history|
    ensures |after| == |index|
  {
    var prior, parent := index[job.revision], ParentOf(index, job);
    index[job.revision :=
      if job.abandoned then SurvivingRows(prior, parent, job.plan)
      else IndexedRows(job.jobId, prior, parent, history[job.revision], job.plan, embed)]
  }

  /** Index of the whole history after the jobs, taken in order. */
  function Replay(index: seq<Rows>, history: seq<Files>, jobs: seq<Job>, embed: string -> Vector): (after: seq<Rows>)
    requires |index| == |history| && forall i | 0 <= i < |jobs| :: jobs[i].revision < |history|
    ensures |after| == |index|
    decreases |jobs|
  {
    if jobs == [] then index else Replay(Apply(index, history, jobs[0], embed), history, jobs[1..], embed)
  }

  /**
   * An abandoned job deletes the rows tagged with it: what remains of the rows it stored are those of other jobs, and
   * no other revision is touched.
   */
  lemma AbandonedLeavesOthers(index: seq<Rows>, history: seq<Files>, job: Job, embed: string -> Vector)
    requires job.revision < |index| == |history| && DistinctPaths(history[job.revision]) && job.abandoned
    requires forall slot | slot in index[job.revision] :: index[job.revision][slot].jobId != job.jobId
    ensures var stored := Apply(index, history, job.(abandoned := false), embed);
      Apply(index, history, job, embed)
        == stored[job.revision := map slot | slot in stored[job.revision]
                                             && stored[job.revision][slot].jobId != job.jobId
                                    :: stored[job.revision][slot]]
  {
    var prior, parent, files := index[job.revision], ParentOf(index, job), history[job.revision];
    var rows := IndexedRows(job.jobId, prior, parent, files, job.plan, embed);
    var left := SurvivingRows(prior, parent, job.plan);
    forall slot
      ensures slot in left <==> slot in rows && rows[slot].jobId != job.jobId
      ensures slot in left ==> left[slot] == rows[slot]
    {
      RowsExact(job.jobId, prior, parent, files, job.plan, embed, slot);
    }
    hide IndexedRows, SurvivingRows;
    assert left == map slot | slot in rows && rows[slot].jobId != job.jobId :: rows[slot];
  }

  lemma SurvivorsConsistent(prior: Rows, parent: Rows, files: Files, plan: Plan)
    requires Consistent(prior, files)
    ensures Consistent(SurvivingRows(prior, parent, plan), files)
  {
    var rows := SurvivingRows(prior, parent, plan);
    forall slot | slot in rows ensures PathExact(rows, files, slot.filePath) {
      assert PathExact(prior, files, slot.filePath);
    }
  }

  /** Along the run, every diff job finds its carried-over files unchanged since the parent. */
  ghost predicate RunCarriesUnchanged(index: seq<Rows>, history: seq<Files>, jobs: seq<Job>, embed: string -> Vector)
    requires |index| == |history| && forall i | 0 <= i < |jobs| :: jobs[i].revision < |history|
    decreases |jobs|
  {
    jobs != [] ==>
      && (jobs[0].revision > 0 ==>
            CarriedUnchanged(ParentOf(index, jobs[0]), jobs[0].plan, history[jobs[0].revision - 1],
                             history[jobs[0].revision]))
      && RunCarriesUnchanged(Apply(index, history, jobs[0], embed), history, jobs[1..], embed)
  }

  /** Over any sequence of jobs, in any mode and order, no stored row ever gets a hash or embedding of another text. */
  lemma {:induction false} ReplayRowsOk(index: seq<Rows>, history: seq<Files>, jobs: seq<Job>, embed: string -> Vector)
    requires ValidHistory(history, jobs) && |index| == |history|
    requires forall r | 0 <= r < |index| :: RowsOk(index[r], embed)
    ensures forall r | 0 <= r < |index| :: RowsOk(Replay(index, history, jobs, embed)[r], embed)
    decreases |jobs|
  {
    if jobs != [] {
      var job := jobs[0];
      assert RowsOk(ParentOf(index, job), embed);
      IndexedRowsOk(job.jobId, index[job.revision], ParentOf(index, job), history[job.revision], job.plan, embed);
      ReplayRowsOk(Apply(index, history, job, embed), history, jobs[1..], embed);
    }
  }

  ghost predicate NullIn(index: seq<Rows>, slot: Slot, content: string) {
    exists q ::
      0 <= q < |index| && slot in index[q] && index[q][slot].embedding.None? && index[q][slot].content == content
  }

  /** Along any sequence of jobs a row without an embedding goes back to one that lacked it before the first job. */
  lemma {:induction false} ReplayNullIsOld(index: seq<Rows>, history: seq<Files>, jobs: seq<Job>,
                                           embed: string -> Vector, r: nat, slot: Slot)
    requires ValidHistory(history, jobs) && |index| == |history| && r < |index|
    requires slot in Replay(index, history, jobs, embed)[r]
    requires Replay(index, history, jobs, embed)[r][slot].embedding.None?
    ensures NullIn(index, slot, Replay(index, history, jobs, embed)[r][slot].content)
    decreases |jobs|
  {
    if jobs == [] {
      assert Replay(index, history, jobs, embed) == index;
    } else {
      var job := jobs[0];
      var next := Apply(index, history, job, embed);
      ReplayNullIsOld(next, history, jobs[1..], embed, r, slot);
      var content := Replay(index, history, jobs, embed)[r][slot].content;
      hide Replay, IndexedRows;
      var q :| 0 <= q < |next| && slot in next[q] && next[q][slot].embedding.None? && next[q][slot].content == content;
      if q == job.revision {
        NullComesFrom(index, history, job, embed, slot);
      }
    }
  }

  lemma NullComesFrom(index: seq<Rows>, history: seq<Files>, job: Job, embed: string -> Vector, slot: Slot)
    requires job.revision < |index| == |history| && DistinctPaths(history[job.revision])
    requires var rows := Apply(index, history, job, embed)[job.revision]; slot in rows && rows[slot].embedding.None?
    ensures NullIn(index, slot, Apply(index, history, job, embed)[job.revision][slot].content)
  {
    var prior, parent := index[job.revision], ParentOf(index, job);
    if !job.abandoned {
      RowSource(job.jobId, prior, parent, history[job.revision], job.plan, embed, slot);
      hide IndexedRows;
      if IsCarried(parent, job.plan, slot) {
        assert parent == index[job.revision - 1];
      }
    }
  }

  /**
   * Incremental refines from scratch along any sequence of jobs over a history: when carried-over files are
   * unchanged, every path with rows has exactly the rows of a fresh chunking at its revision.
   */
  lemma {:induction false} ReplayConsistent(index: seq<Rows>, history: seq<Files>, jobs: seq<Job>,
                                            embed: string -> Vector)
    requires ValidHistory(history, jobs) && |index| == |history|
    requires forall r | 0 <= r < |index| :: Consistent(index[r], history[r])
    requires RunCarriesUnchanged(index, history, jobs, embed)
    ensures forall r | 0 <= r < |index| :: Consistent(Replay(index, history, jobs, embed)[r], history[r])
    decreases |jobs|
  {
    if jobs != [] {
      var job := jobs[0];
      var r := job.revision;
      var before := if r > 0 then history[r - 1] else history[r];
      var parent := ParentOf(index, job);
      assert Consistent(parent, before);
      assert CarriedUnchanged(parent, job.plan, before, history[r]);
      SurvivorsConsistent(index[r], parent, history[r], job.plan);
      hide Consistent, CarriedUnchanged;
      DiffConsistentIff(job.jobId, index[r], parent, before, history[r], job.plan, embed);
      ReplayConsistent(Apply(index, history, job, embed), history, jobs[1..], embed);
    }
  }

  // ---------- The stale carry-over ----------

  /**
   * The failing case: revision 1 changed a file, revision 2 put it back, so comparing revision 2 with the base
   * lists nothing and the diff job keeps the rows of revision 1.
   */
  lemma RevertedFileIsStale(filePath: string, content: string, embed: string -> Vector)
    requires Chunks(filePath, content) != []
    ensures var before, after := [(filePath, content)], [];
      var index := Replay([map[], map[]], [before, after],
                          [Job(0, 0, true, Plan(false, {}, {}), false),
                           Job(1, 1, true, Plan(true, {}, {}), false)], embed);
      && Slot(filePath, 0) in index[1]
      && !Consistent(index[1], after)
  {
    var before, after: Files := [(filePath, content)], [];
    var history := [before, after];
    var first, second := Job(0, 0, true, Plan(false, {}, {}), false), Job(1, 1, true, Plan(true, {}, {}), false);
    var jobs := [first, second];
    var start: seq<Rows> := [map[], map[]];
    var middle := Apply(start, history, first, embed);
    assert jobs[1..] == [second] && [second][1..] == [];
    var index := Apply(middle, history, second, embed);
    assert Replay(middle, history, [second], embed) == Replay(index, history, [], embed) == index;
    assert Replay(start, history, jobs, embed) == index;
    FullEqualsFromScratch(0, map[], map[], before, first.plan, embed);
    var slot := Slot(filePath, 0);
    assert ChunksOf(before, filePath) == Chunks(filePath, content);
    assert PathExact(middle[0], before, filePath);
    assert slot in middle[0];
    assert IsCarried(middle[0], second.plan, slot);
    assert slot in CarriedRows(1, middle[0], second.plan);
    assert slot in index[1];
    assert |ChunksOf(after, filePath)| == 0;
    assert !PathExact(index[1], after, filePath);
  }
}
