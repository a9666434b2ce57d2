/** The two inline-thread maps of a publish surface and their keys (backend/app/services/github_publish.py). */
module ThreadMaps {
  import opened Options

  function Mapped<T, U>(o: Option<T>, f: T -> U): Option<U> {
    if o.Some? then Some(f(o.value)) else None
  }

  /**
   * A key as text: some spelling of a group id (0 is the canonical one), a legacy fingerprint of 64 hexadecimal
   * digits, or anything else. No text is two of these.
   */
  datatype Key = IdKey(group: nat, spelling: nat) | HexKey(text: string) | OtherKey(text: string)

  // ---------- Ordered dictionaries ----------

  type Dict<V> = seq<(Key, V)>

  predicate Keyed<V>(d: Dict<V>) {
    forall i, j | 0 <= i < j < |d| :: d[i].0 != d[j].0
  }

  function IndexOf<V>(d: Dict<V>, k: Key): (i: nat)
    ensures i <= |d| && (i < |d| ==> d[i].0 == k)
    ensures forall j | 0 <= j < i :: d[j].0 != k
  {
    if d == [] || d[0].0 == k then 0 else IndexOf(d[1..], k) + 1
  }

  function Get<V>(d: Dict<V>, k: Key): Option<V> {
    var i := IndexOf(d, k);
    if i < |d| then Some(d[i].1) else None
  }

  function Put<V>(d: Dict<V>, k: Key, v: V): Dict<V> {
    var i := IndexOf(d, k);
    if i < |d| then d[i := (k, v)] else d + [(k, v)]
  }

  function SetDefault<V>(d: Dict<V>, k: Key, v: V): Dict<V> {
    if Get(d, k).Some? then d else Put(d, k, v)
  }

  /** `d.update(e)`. */
  function Update<V>(d: Dict<V>, e: Dict<V>): Dict<V>
    decreases |e|
  {
    if e == [] then d else Update(Put(d, e[0].0, e[0].1), e[1..])
  }

  lemma GetFirst<V>(d: Dict<V>, i: nat)
    requires i < |d| && forall j | 0 <= j < i :: d[j].0 != d[i].0
    ensures Get(d, d[i].0) == Some(d[i].1)
  {
  }

  lemma GetAbsent<V>(d: Dict<V>, k: Key)
    ensures Get(d, k) == None <==> forall i | 0 <= i < |d| :: d[i].0 != k
  {
  }

  lemma PutGet<V>(d: Dict<V>, k: Key, v: V)
    requires Keyed(d)
    ensures Keyed(Put(d, k, v))
    ensures forall other :: Get(Put(d, k, v), other) == if other == k then Some(v) else Get(d, other)
  {
    var p := Put(d, k, v);
    forall other ensures Get(p, other) == if other == k then Some(v) else Get(d, other) {
      var i := IndexOf(d, other);
      GetAbsent(d, other);
      GetAbsent(p, other);
      if i < |d| {
        GetFirst(p, i);
      } else if other == k {
        GetFirst(p, |d|);
      }
    }
  }

  lemma GetSnoc<V>(d: Dict<V>, k: Key, v: V, other: Key)
    ensures Get(d + [(k, v)], other)
         == if Get(d, other).Some? then Get(d, other) else if other == k then Some(v) else None
  {
    var e := d + [(k, v)];
    GetAbsent(d, other);
    GetAbsent(e, other);
    if IndexOf(d, other) < |d| {
      GetFirst(e, IndexOf(d, other));
    } else if other == k {
      GetFirst(e, |d|);
    }
  }

  // ---------- Re-keying to group ids ----------

  /** The last entry under any spelling of this group id. */
  function LastId<V>(d: Dict<V>, group: nat): Option<V> {
    if d == [] then None
    else
      var (k, v) := d[|d| - 1];
      if k.IdKey? && k.group == group then Some(v) else LastId(d[..|d| - 1], group)
  }

  predicate IsLegacyOf(ids: map<string, nat>, k: Key, group: nat) {
    k.HexKey? && k.text in ids && ids[k.text] == group
  }

  /** The first entry under a legacy fingerprint of this group. */
  function FirstLegacy<V>(d: Dict<V>, ids: map<string, nat>, group: nat): Option<V> {
    if d == [] then None
    else
      var before := FirstLegacy(d[..|d| - 1], ids, group);
      var (k, v) := d[|d| - 1];
      if before.Some? then before else if IsLegacyOf(ids, k, group) then Some(v) else None
  }

  /** What a key means after re-keying: group-id keys win over legacy ones, other keys stay, fingerprints go. */
  function Rekeyed<V>(d: Dict<V>, ids: map<string, nat>, k: Key): Option<V> {
    match k
    case OtherKey(_) => Get(d, k)
    case HexKey(_) => None
    case IdKey(group, spelling) =>
      if spelling != 0 then None
      else if LastId(d, group).Some? then LastId(d, group)
      else FirstLegacy(d, ids, group)
  }

  ghost predicate IsRekeyingOf<V(!new)>(r: Dict<V>, d: Dict<V>, ids: map<string, nat>) {
    Keyed(r) && forall k :: Get(r, k) == Rekeyed(d, ids, k)
  }

  function AfterLegacy<V>(d: Dict<V>, ids: map<string, nat>, k: Key): Option<V> {
    if k.IdKey? && k.spelling == 0 then FirstLegacy(d, ids, k.group) else None
  }

  function AfterIds<V>(d: Dict<V>, done: Dict<V>, ids: map<string, nat>, k: Key): Option<V> {
    match k
    case OtherKey(_) => Get(done, k)
    case HexKey(_) => None
    case IdKey(group, spelling) =>
      if spelling != 0 then None
      else if LastId(done, group).Some? then LastId(done, group)
      else FirstLegacy(d, ids, group)
  }

  /** First the legacy fingerprints, where the first entry of a group wins; then group ids and other keys overwrite. */
  method RekeyToGroupIds<V(!new)>(d: Dict<V>, ids: map<string, nat>) returns (rekeyed: Dict<V>)
    requires Keyed(d)
    ensures IsRekeyingOf(rekeyed, d, ids)
  {
    hide Get, Put, IndexOf, Keyed;
    rekeyed := RekeyLegacy(d, ids);
    for i := 0 to |d|
      invariant Keyed(rekeyed) && forall k :: Get(rekeyed, k) == AfterIds(d, d[..i], ids, k)
    {
      var (key, value) := d[i];
      assert d[..i + 1] == d[..i] + [(key, value)];
      PrefixHasNot(d, i);
      forall k { GetSnoc(d[..i], key, value, k); }
      if key.IdKey? {
        PutGet(rekeyed, IdKey(key.group, 0), value);
        rekeyed := Put(rekeyed, IdKey(key.group, 0), value);
      } else if !key.HexKey? {
        PutGet(rekeyed, key, value);
        rekeyed := Put(rekeyed, key, value);
      }
    }
    assert d[..|d|] == d;
  }

  method RekeyLegacy<V(!new)>(d: Dict<V>, ids: map<string, nat>) returns (rekeyed: Dict<V>)
    ensures Keyed(rekeyed) && forall k :: Get(rekeyed, k) == AfterLegacy(d, ids, k)
    ensures forall k :: Get(rekeyed, k) == AfterIds(d, d[..0], ids, k)
  {
    rekeyed := [];
    for i := 0 to |d|
      invariant Keyed(rekeyed) && forall k :: Get(rekeyed, k) == AfterLegacy(d[..i], ids, k)
    {
      hide Get, Put, IndexOf, Keyed;
      var (key, value) := d[i];
      assert d[..i + 1] == d[..i] + [(key, value)];
      assert (d[..i] + [(key, value)])[..i] == d[..i];
      if key.HexKey? && key.text in ids {
        PutGet(rekeyed, IdKey(ids[key.text], 0), value);
        rekeyed := SetDefault(rekeyed, IdKey(ids[key.text], 0), value);
      }
    }
    assert d[..|d|] == d;
  }

  lemma PrefixHasNot<V>(d: Dict<V>, i: nat)
    requires Keyed(d) && i < |d|
    ensures Get(d[..i], d[i].0) == None
  {
    GetAbsent(d[..i], d[i].0);
  }

  // ---------- Laws of re-keying ----------

  predicate Canonical(k: Key) { k.OtherKey? || (k.IdKey? && k.spelling == 0) }

  lemma RekeyedIsCanonical<V(!new)>(r: Dict<V>, d: Dict<V>, ids: map<string, nat>)
    requires IsRekeyingOf(r, d, ids)
    ensures forall i | 0 <= i < |r| :: Canonical(r[i].0)
  {
    forall i | 0 <= i < |r| ensures Canonical(r[i].0) {
      GetFirst(r, i);
      assert Get(r, r[i].0) == Rekeyed(d, ids, r[i].0);
    }
  }

  lemma {:induction false} CanonicalIds<V>(r: Dict<V>, group: nat)
    requires Keyed(r) && forall i | 0 <= i < |r| :: Canonical(r[i].0)
    ensures LastId(r, group) == Get(r, IdKey(group, 0))
  {
    if r == [] {
      GetAbsent(r, IdKey(group, 0));
    } else {
      var front, last := r[..|r| - 1], r[|r| - 1];
      CanonicalIds(front, group);
      assert r == front + [(last.0, last.1)];
      GetSnoc(front, last.0, last.1, IdKey(group, 0));
      GetAbsent(front, IdKey(group, 0));
    }
  }

  lemma {:induction false} NoLegacyLeft<V>(r: Dict<V>, ids: map<string, nat>, group: nat)
    requires forall i | 0 <= i < |r| :: Canonical(r[i].0)
    ensures FirstLegacy(r, ids, group) == None
  {
    if r != [] {
      NoLegacyLeft(r[..|r| - 1], ids, group);
    }
  }

  /** Re-keying again, under any other fingerprints, changes nothing. */
  lemma RekeyIsIdempotent<V(!new)>(d: Dict<V>, ids: map<string, nat>, r: Dict<V>, later: map<string, nat>,
                            again: Dict<V>)
    requires IsRekeyingOf(r, d, ids) && IsRekeyingOf(again, r, later)
    ensures forall k :: Get(again, k) == Get(r, k)
  {
    RekeyedIsCanonical(r, d, ids);
    forall k ensures Get(again, k) == Get(r, k) {
      assert Get(again, k) == Rekeyed(r, later, k);
      assert Get(r, k) == Rekeyed(d, ids, k);
      if k.IdKey? {
        CanonicalIds(r, k.group);
        NoLegacyLeft(r, later, k.group);
      }
    }
  }

  /** An entry stored under a group id is what the re-keyed map holds, whatever the legacy entries say. */
  lemma {:induction false} IdKeysWin<V(!new)>(d: Dict<V>, ids: map<string, nat>, r: Dict<V>, i: nat)
    requires IsRekeyingOf(r, d, ids) && i < |d| && d[i].0.IdKey?
    requires forall j | i < j < |d| :: !(d[j].0.IdKey? && d[j].0.group == d[i].0.group)
    ensures Get(r, IdKey(d[i].0.group, 0)) == Some(d[i].1)
  {
    LastIdAt(d, i);
    assert Get(r, IdKey(d[i].0.group, 0)) == Rekeyed(d, ids, IdKey(d[i].0.group, 0));
  }

  lemma {:induction false} LastIdAt<V>(d: Dict<V>, i: nat)
    requires i < |d| && d[i].0.IdKey?
    requires forall j | i < j < |d| :: !(d[j].0.IdKey? && d[j].0.group == d[i].0.group)
    ensures LastId(d, d[i].0.group) == Some(d[i].1)
  {
    if i < |d| - 1 {
      LastIdAt(d[..|d| - 1], i);
    }
  }

  function MapValues<V, W>(d: Dict<V>, f: V -> W): (r: Dict<W>)
    ensures |r| == |d| && forall i | 0 <= i < |d| :: r[i] == (d[i].0, f(d[i].1))
  {
    seq(|d|, i requires 0 <= i < |d| => (d[i].0, f(d[i].1)))
  }

  lemma GetMapValues<V, W>(d: Dict<V>, f: V -> W, k: Key)
    ensures Get(MapValues(d, f), k) == Mapped(Get(d, k), f)
  {
    var i := IndexOf(d, k);
    GetAbsent(d, k);
    GetAbsent(MapValues(d, f), k);
    if i < |d| {
      GetFirst(MapValues(d, f), i);
    }
  }

  lemma {:induction false} LookupsMapValues<V, W>(d: Dict<V>, f: V -> W, ids: map<string, nat>, group: nat)
    ensures LastId(MapValues(d, f), group) == Mapped(LastId(d, group), f)
    ensures FirstLegacy(MapValues(d, f), ids, group) == Mapped(FirstLegacy(d, ids, group), f)
  {
    if d != [] {
      var n := |d| - 1;
      assert MapValues(d, f)[..n] == MapValues(d[..n], f);
      LookupsMapValues(d[..n], f, ids, group);
    }
  }

  /** Re-keying commutes with reading a part of every entry. */
  lemma RekeyCommutes<V(!new), W(!new)>(d: Dict<V>, f: V -> W, ids: map<string, nat>, r: Dict<V>, s: Dict<W>)
    requires IsRekeyingOf(r, d, ids) && IsRekeyingOf(s, MapValues(d, f), ids)
    ensures forall k :: Get(s, k) == Mapped(Get(r, k), f)
  {
    forall k ensures Get(s, k) == Mapped(Get(r, k), f) {
      assert Get(r, k) == Rekeyed(d, ids, k);
      assert Get(s, k) == Rekeyed(MapValues(d, f), ids, k);
      GetMapValues(d, f, k);
      if k.IdKey? {
        LookupsMapValues(d, f, ids, k.group);
      }
    }
  }

  // ---------- Stored entries ----------

  type CommentId = int

  /** A JSON value under a thread-map key. */
  datatype Raw = LegacyInt(id: CommentId) | Object(comment: Option<CommentId>, thread: Option<string>) | Junk

  /** A v2 entry; a thread id is kept only when it is not empty. */
  datatype Entry = Entry(comment: CommentId, thread: Option<string>)

  function CommentOf(raw: Raw): Option<CommentId> {
    match raw
    case LegacyInt(id) => Some(id)
    case Object(comment, _) => comment
    case Junk => None
  }

  function NonEmpty(thread: Option<string>): Option<string> {
    if thread == Some("") then None else thread
  }

  function EntryOf(raw: Raw): Option<Entry> {
    match raw
    case LegacyInt(id) => Some(Entry(id, None))
    case Object(comment, thread) => if comment.Some? then Some(Entry(comment.value, NonEmpty(thread))) else None
    case Junk => None
  }

  /** The entries that `read` accepts, in order. */
  function Kept<V>(raw: Dict<Raw>, read: Raw -> Option<V>): Dict<V> {
    if raw == [] then []
    else
      var (k, v) := raw[|raw| - 1];
      Kept(raw[..|raw| - 1], read) + if read(v).Some? then [(k, read(v).value)] else []
  }

  lemma KeptSnoc<V>(raw: Dict<Raw>, i: nat, read: Raw -> Option<V>)
    requires i < |raw|
    ensures Kept(raw[..i + 1], read)
         == if read(raw[i].1).Some?
            then Kept(raw[..i], read) + [(raw[i].0, read(raw[i].1).value)] else Kept(raw[..i], read)
  {
    assert raw[..i + 1][..i] == raw[..i];
  }

  lemma {:induction false} KeptAbsent<V>(raw: Dict<Raw>, read: Raw -> Option<V>, k: Key)
    requires Get(raw, k) == None
    ensures Get(Kept(raw, read), k) == None
  {
    if raw == [] {
      assert Kept(raw, read) == [];
    } else {
      var n := |raw| - 1;
      GetAbsent(raw, k);
      GetAbsent(raw[..n], k);
      KeptAbsent(raw[..n], read, k);
      assert raw[..n + 1] == raw;
      KeptSnoc(raw, n, read);
      if read(raw[n].1).Some? {
        GetSnoc(Kept(raw[..n], read), raw[n].0, read(raw[n].1).value, k);
      }
    }
  }

  method DeserializeInlineThreadMap(raw: Dict<Raw>) returns (merged: Dict<CommentId>)
    requires Keyed(raw)
    ensures merged == Kept(raw, CommentOf)
  {
    merged := [];
    for i := 0 to |raw|
      invariant merged == Kept(raw[..i], CommentOf)
    {
      var (key, value) := raw[i];
      KeptSnoc(raw, i, CommentOf);
      var read: Option<CommentId> := None;
      match value {
        case LegacyInt(id) => read := Some(id);
        case Object(comment, _) => read := comment;
        case Junk =>
      }
      if read.Some? {
        KeptFresh(raw, i, CommentOf);
        merged := Put(merged, key, read.value);
      }
    }
    assert raw[..|raw|] == raw;
  }

  lemma KeptFresh<V>(raw: Dict<Raw>, i: nat, read: Raw -> Option<V>)
    requires Keyed(raw) && i < |raw|
    ensures Get(Kept(raw[..i], read), raw[i].0) == None
  {
    PrefixHasNot(raw, i);
    KeptAbsent(raw[..i], read, raw[i].0);
  }

  /** Maps of several jobs merged in order, later ones overwriting. */
  function Merged<V>(jobs: seq<Dict<Raw>>, read: Raw -> Option<V>): Dict<V> {
    if jobs == [] then [] else Update(Merged(jobs[..|jobs| - 1], read), Kept(jobs[|jobs| - 1], read))
  }

  method LoadInlineThreadMap(jobs: seq<Dict<Raw>>) returns (merged: Dict<CommentId>)
    requires forall i | 0 <= i < |jobs| :: Keyed(jobs[i])
    ensures merged == Merged(jobs, CommentOf)
  {
    merged := [];
    for i := 0 to |jobs|
      invariant merged == Merged(jobs[..i], CommentOf)
    {
      assert jobs[..i + 1][..i] == jobs[..i];
      var read := DeserializeInlineThreadMap(jobs[i]);
      merged := Update(merged, read);
    }
    assert jobs[..|jobs|] == jobs;
  }

  method LoadV2InlineThreadMap(jobs: seq<Dict<Raw>>) returns (merged: Dict<Entry>)
    requires forall i | 0 <= i < |jobs| :: Keyed(jobs[i])
    ensures merged == Merged(jobs, EntryOf)
  {
    merged := [];
    for i := 0 to |jobs|
      invariant merged == Merged(jobs[..i], EntryOf)
    {
      assert jobs[..i + 1][..i] == jobs[..i];
      var job := jobs[i];
      ghost var before := merged;
      for j := 0 to |job|
        invariant merged == Update(before, Kept(job[..j], EntryOf))
      {
        var (key, value) := job[j];
        KeptSnoc(job, j, EntryOf);
        match value {
          case LegacyInt(id) =>
            merged := Put(merged, key, Entry(id, None));
          case Object(comment, thread) =>
            if comment.Some? {
              var entry := Entry(comment.value, None);
              if thread.Some? && thread.value != "" {
                entry := entry.(thread := thread);
              }
              merged := Put(merged, key, entry);
            }
          case Junk =>
        }
        if EntryOf(value).Some? {
          UpdateSnoc(before, Kept(job[..j], EntryOf), key, EntryOf(value).value);
        }
      }
      assert job[..|job|] == job;
    }
    assert jobs[..|jobs|] == jobs;
  }

  lemma {:induction false} UpdateSnoc<V>(d: Dict<V>, e: Dict<V>, k: Key, v: V)
    ensures Update(d, e + [(k, v)]) == Put(Update(d, e), k, v)
    decreases |e|
  {
    if e == [] {
      assert e + [(k, v)] == [(k, v)];
      assert [(k, v)][1..] == [];
    } else {
      assert (e + [(k, v)])[1..] == e[1..] + [(k, v)];
      UpdateSnoc(Put(d, e[0].0, e[0].1), e[1..], k, v);
    }
  }

  // ---------- The two maps agree ----------

  function EntryComment(e: Entry): CommentId { e.comment }

  lemma {:induction false} KeptAgrees(raw: Dict<Raw>)
    ensures Kept(raw, CommentOf) == MapValues(Kept(raw, EntryOf), EntryComment)
  {
    if raw != [] {
      KeptAgrees(raw[..|raw| - 1]);
    }
  }

  lemma PutMapValues<V, W>(d: Dict<V>, f: V -> W, k: Key, v: V)
    ensures Put(MapValues(d, f), k, f(v)) == MapValues(Put(d, k, v), f)
  {
    var i, j := IndexOf(d, k), IndexOf(MapValues(d, f), k);
    assert forall x | 0 <= x < |d| :: MapValues(d, f)[x].0 == d[x].0;
    assert i == j;
  }

  lemma {:induction false} UpdateMapValues<V, W>(d: Dict<V>, e: Dict<V>, f: V -> W)
    ensures Update(MapValues(d, f), MapValues(e, f)) == MapValues(Update(d, e), f)
    decreases |e|
  {
    if e != [] {
      PutMapValues(d, f, e[0].0, e[0].1);
      assert MapValues(e, f)[1..] == MapValues(e[1..], f);
      UpdateMapValues(Put(d, e[0].0, e[0].1), e[1..], f);
    }
  }

  /** The merged v2 map and the merged comment-id map have the same keys in the same order, and the same comments. */
  lemma {:induction false} MergedMapsAgree(jobs: seq<Dict<Raw>>)
    ensures Merged(jobs, CommentOf) == MapValues(Merged(jobs, EntryOf), EntryComment)
  {
    if jobs != [] {
      MergedMapsAgree(jobs[..|jobs| - 1]);
      KeptAgrees(jobs[|jobs| - 1]);
      UpdateMapValues(Merged(jobs[..|jobs| - 1], EntryOf), Kept(jobs[|jobs| - 1], EntryOf), EntryComment);
    }
  }

  /** They still agree after both are re-keyed. */
  lemma RekeyedMapsAgree(jobs: seq<Dict<Raw>>, ids: map<string, nat>, comments: Dict<CommentId>, entries: Dict<Entry>)
    requires IsRekeyingOf(comments, Merged(jobs, CommentOf), ids) && IsRekeyingOf(entries, Merged(jobs, EntryOf), ids)
    ensures forall k :: Get(comments, k) == Mapped(Get(entries, k), EntryComment)
  {
    MergedMapsAgree(jobs);
    RekeyCommutes(Merged(jobs, EntryOf), EntryComment, ids, entries, comments);
  }

  // ---------- Writing ----------

  function PriorThread(prior: Dict<Entry>, k: Key, comment: CommentId): Option<string> {
    var entry := Get(prior, k);
    if entry.Some? && entry.value.comment == comment then NonEmpty(entry.value.thread) else None
  }

  /** The given thread id of a key, else the one it had for the same comment. */
  function Serialized(comments: Dict<CommentId>, prior: Dict<Entry>, threads: map<Key, string>): Dict<Entry> {
    if comments == [] then []
    else
      var (k, c) := comments[|comments| - 1];
      Serialized(comments[..|comments| - 1], prior, threads)
        + [(k, Entry(c, if k in threads then Some(threads[k]) else PriorThread(prior, k, c)))]
  }

  /**
   * Each key keeps its comment. It gets the given thread id, else the one stored for it when that was for the same
   * comment and not empty, else none.
   */
  lemma {:induction false} SerializedAt(comments: Dict<CommentId>, prior: Dict<Entry>, threads: map<Key, string>,
                                        i: nat)
    requires i < |comments|
    ensures var (k, c) := comments[i];
      var s, was := Serialized(comments, prior, threads), Get(prior, k);
      && |s| == |comments| && s[i].0 == k && s[i].1.comment == c
      && s[i].1.thread ==
           if k in threads then Some(threads[k])
           else if was.Some? && was.value.comment == c && was.value.thread != Some("") then was.value.thread
           else None
  {
    SerializedKeys(comments, prior, threads);
    if i < |comments| - 1 {
      SerializedAt(comments[..|comments| - 1], prior, threads, i);
    }
  }

  method SerializeInlineThreadMap(comments: Dict<CommentId>, prior: Dict<Entry>,
                                  threads: map<Key, string>) returns (result: Dict<Entry>)
    requires Keyed(comments)
    ensures result == Serialized(comments, prior, threads)
  {
    result := [];
    for i := 0 to |comments|
      invariant result == Serialized(comments[..i], prior, threads)
    {
      var (key, comment) := comments[i];
      assert comments[..i + 1][..i] == comments[..i];
      var entry := Entry(comment, None);
      if key in threads {
        entry := entry.(thread := Some(threads[key]));
      } else {
        var before := Get(prior, key);
        if before.Some? && before.value.comment == comment
           && before.value.thread.Some? && before.value.thread.value != "" {
          entry := entry.(thread := before.value.thread);
        }
      }
      SerializedKeys(comments[..i], prior, threads);
      GetAbsent(result, key);
      result := Put(result, key, entry);
    }
    assert comments[..|comments|] == comments;
  }

  lemma {:induction false} SerializedKeys(comments: Dict<CommentId>, prior: Dict<Entry>, threads: map<Key, string>)
    ensures var s := Serialized(comments, prior, threads);
      |s| == |comments| && forall i | 0 <= i < |s| :: s[i].0 == comments[i].0 && s[i].1.comment == comments[i].1
  {
    if comments != [] {
      SerializedKeys(comments[..|comments| - 1], prior, threads);
    }
  }

  function Stored(e: Entry): Raw { Object(Some(e.comment), e.thread) }

  lemma {:induction false} KeptStored(d: Dict<Entry>)
    ensures Kept(MapValues(d, Stored), CommentOf) == MapValues(d, EntryComment)
  {
    if d != [] {
      var n := |d| - 1;
      assert MapValues(d, Stored)[..n] == MapValues(d[..n], Stored);
      KeptStored(d[..n]);
    }
  }

  /** Deserializing the merged v2 map gives the merged comment-id map. */
  lemma DeserializedMergeAgrees(jobs: seq<Dict<Raw>>)
    ensures Kept(MapValues(Merged(jobs, EntryOf), Stored), CommentOf) == Merged(jobs, CommentOf)
  {
    KeptStored(Merged(jobs, EntryOf));
    MergedMapsAgree(jobs);
  }

  /** Writing a comment map and reading it back is the identity. */
  lemma SerializeRoundTrip(comments: Dict<CommentId>, prior: Dict<Entry>, threads: map<Key, string>)
    ensures Kept(MapValues(Serialized(comments, prior, threads), Stored), CommentOf) == comments
  {
    SerializedKeys(comments, prior, threads);
    KeptStored(Serialized(comments, prior, threads));
  }

  /** Reading what was written as v2 entries gives them back, with the thread ids, when those supplied are not empty. */
  lemma {:induction false} SerializeKeepsEntries(comments: Dict<CommentId>, prior: Dict<Entry>,
                                                 threads: map<Key, string>)
    requires forall k | k in threads :: threads[k] != ""
    ensures Kept(MapValues(Serialized(comments, prior, threads), Stored), EntryOf)
         == Serialized(comments, prior, threads)
  {
    if comments != [] {
      var n := |comments| - 1;
      SerializeKeepsEntries(comments[..n], prior, threads);
      var s := Serialized(comments, prior, threads);
      assert MapValues(s, Stored)[..|s| - 1] == MapValues(s[..|s| - 1], Stored);
      assert s[..|s| - 1] == Serialized(comments[..n], prior, threads);
    }
  }
}
