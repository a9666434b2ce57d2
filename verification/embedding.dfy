/** Batched embedding requests (backend/app/integrations/voyage_embeddings.py). */
module Embedding {
  import opened Text

  const BATCH_SIZE := 128

  /** What the embeddings endpoint can answer to one batch. */
  datatype Reply<V> = HttpFailure | Malformed | Items(items: seq<V>)

  datatype Outcome<V> = Vectors(vectors: seq<V>) | Raised

  function Min(a: nat, b: nat): nat { if a <= b then a else b }

  /** The slices sent to the endpoint, one request each. */
  function Batches(texts: seq<string>): seq<seq<string>>
    decreases |texts|
  {
    if texts == [] then []
    else
      var n := Min(BATCH_SIZE, |texts|);
      [texts[..n]] + Batches(texts[n..])
  }

  /** Vectors in order of arrival; the first failed batch raises. */
  function Collect<V>(batches: seq<seq<string>>, first: nat, post: (nat, seq<string>) -> Reply<V>): Outcome<V> {
    if batches == [] then Vectors([])
    else
      match post(first, batches[0])
      case Items(items) =>
        (match Collect(batches[1..], first + 1, post)
         case Vectors(rest) => Vectors(items + rest)
         case Raised => Raised)
      case _ => Raised
  }

  method EmbedTexts<V>(texts: seq<string>, post: (nat, seq<string>) -> Reply<V>) returns (outcome: Outcome<V>)
    ensures outcome == Collect(Batches(texts), 0, post)
  {
    var vectors: seq<V> := [];
    var start, batchIndex := 0, 0;
    while start < |texts|
      invariant 0 <= start <= |texts|
      invariant Collect(Batches(texts), 0, post)
             == Prepend(vectors, Collect(Batches(texts[start..]), batchIndex, post))
    {
      var batch := texts[start..Min(start + BATCH_SIZE, |texts|)];
      var reply := post(batchIndex, batch);
      CollectSlice(texts, start, batchIndex, post, vectors);
      if !reply.Items? {
        return Raised;
      }
      vectors := vectors + reply.items;
      start := start + |batch|;
      batchIndex := batchIndex + 1;
    }
    assert texts[start..] == [];
    return Vectors(vectors);
  }

  function Prepend<V>(vectors: seq<V>, outcome: Outcome<V>): Outcome<V> {
    if outcome.Vectors? then Vectors(vectors + outcome.vectors) else Raised
  }

  lemma CollectUnfold<V>(texts: seq<string>, first: nat, post: (nat, seq<string>) -> Reply<V>)
    requires texts != []
    ensures var n := Min(BATCH_SIZE, |texts|);
      var reply := post(first, texts[..n]);
      Collect(Batches(texts), first, post)
        == if reply.Items? then Prepend(reply.items, Collect(Batches(texts[n..]), first + 1, post)) else Raised
  {
    var n := Min(BATCH_SIZE, |texts|);
    var batches := Batches(texts);
    assert batches == [texts[..n]] + Batches(texts[n..]);
    assert batches[0] == texts[..n] && batches[1..] == Batches(texts[n..]);
  }

  lemma PrependTwice<V>(a: seq<V>, b: seq<V>, outcome: Outcome<V>)
    ensures Prepend(a, Prepend(b, outcome)) == Prepend(a + b, outcome)
  {
    if outcome.Vectors? {
      assert a + (b + outcome.vectors) == (a + b) + outcome.vectors;
    }
  }

  lemma CollectSlice<V>(texts: seq<string>, start: nat, first: nat, post: (nat, seq<string>) -> Reply<V>,
                        vectors: seq<V>)
    requires start < |texts|
    ensures var batch := texts[start..Min(start + BATCH_SIZE, |texts|)];
      var reply := post(first, batch);
      Prepend(vectors, Collect(Batches(texts[start..]), first, post))
        == if reply.Items?
           then Prepend(vectors + reply.items, Collect(Batches(texts[start + |batch|..]), first + 1, post))
           else Raised
  {
    var batch := texts[start..Min(start + BATCH_SIZE, |texts|)];
    var rest := texts[start + |batch|..];
    CollectUnfold(texts[start..], first, post);
    assert texts[start..][..|batch|] == batch && texts[start..][|batch|..] == rest;
    if post(first, batch).Items? {
      PrependTwice(vectors, post(first, batch).items, Collect(Batches(rest), first + 1, post));
    }
  }

  /** Every call is answered, with one item for each text. */
  ghost predicate Answers<V(!new)>(post: (nat, seq<string>) -> Reply<V>) {
    forall first: nat, batch: seq<string> :: post(first, batch).Items? && |post(first, batch).items| == |batch|
  }

  lemma {:induction false} AnswersAreCollected<V(!new)>(batches: seq<seq<string>>, first: nat,
                                                  post: (nat, seq<string>) -> Reply<V>)
    requires Answers(post)
    ensures var outcome := Collect(batches, first, post);
      outcome.Vectors? && |outcome.vectors| == |Flatten(batches)|
  {
    if batches != [] {
      AnswersAreCollected(batches[1..], first + 1, post);
      assert post(first, batches[0]).Items?;
    }
  }

  // ---------- Batch accounting ----------

  /** `ceil(len(texts) / BATCH_SIZE)`. */
  function BatchCount(texts: nat): nat {
    (texts + BATCH_SIZE - 1) / BATCH_SIZE
  }

  /** In-order concatenation of the batches is the text list, and their number is the recorded `embed_batches`. */
  lemma {:induction false} BatchesPartition(texts: seq<string>)
    ensures Flatten(Batches(texts)) == texts
    ensures |Batches(texts)| == BatchCount(|texts|) == (|texts| + 127) / 128
    ensures forall k | 0 <= k < |Batches(texts)| :: 1 <= |Batches(texts)[k]| <= 128
    decreases |texts|
  {
    if texts != [] {
      var n := Min(BATCH_SIZE, |texts|);
      BatchesPartition(texts[n..]);
      assert texts == texts[..n] + texts[n..];
    }
  }

  // ---------- Alignment of vectors with texts ----------

  function Map<V>(texts: seq<string>, embed: string -> V): seq<V> {
    seq(|texts|, i requires 0 <= i < |texts| => embed(texts[i]))
  }

  /** Provenance: the k-th item of a reply, where the batch has a k-th text, is the vector of that text. */
  predicate OwnItems<V(==)>(batch: seq<string>, items: seq<V>, embed: string -> V) {
    forall k | 0 <= k < |items| && k < |batch| :: items[k] == embed(batch[k])
  }

  ghost predicate RepliesOwn<V>(batches: seq<seq<string>>, first: nat, post: (nat, seq<string>) -> Reply<V>,
                                embed: string -> V) {
    forall k | 0 <= k < |batches| ::
      var reply := post(first + k, batches[k]);
      reply.Items? ==> OwnItems(batches[k], reply.items, embed)
  }

  /** Every batch is answered, with these numbers of items. */
  ghost predicate RepliesCount<V>(batches: seq<seq<string>>, first: nat, post: (nat, seq<string>) -> Reply<V>,
                                  lengths: seq<nat>) {
    |lengths| == |batches| && forall k | 0 <= k < |batches| ::
      var reply := post(first + k, batches[k]);
      reply.Items? && |reply.items| == lengths[k]
  }

  /** No reply is longer than its batch. */
  predicate NoOverlong(batches: seq<seq<string>>, lengths: seq<nat>) {
    |lengths| == |batches| && forall k | 0 <= k < |lengths| :: lengths[k] <= |batches[k]|
  }

  function Sum(lengths: seq<nat>): nat {
    if lengths == [] then 0 else lengths[0] + Sum(lengths[1..])
  }

  lemma RepliesTail<V>(batches: seq<seq<string>>, first: nat, post: (nat, seq<string>) -> Reply<V>, lengths: seq<nat>)
    requires batches != [] && RepliesCount(batches, first, post, lengths)
    ensures RepliesCount(batches[1..], first + 1, post, lengths[1..])
    ensures post(first, batches[0]).Items? && |post(first, batches[0]).items| == lengths[0]
  {
    assert post(first + 0, batches[0]) == post(first, batches[0]);
    forall k | 0 <= k < |batches[1..]|
      ensures post(first + 1 + k, batches[1..][k]).Items?
      ensures |post(first + 1 + k, batches[1..][k]).items| == lengths[1..][k]
    {
      assert post(first + (k + 1), batches[k + 1]) == post(first + 1 + k, batches[1..][k]);
    }
  }

  lemma OwnTail<V>(batches: seq<seq<string>>, first: nat, post: (nat, seq<string>) -> Reply<V>, embed: string -> V)
    requires batches != [] && RepliesOwn(batches, first, post, embed)
    ensures RepliesOwn(batches[1..], first + 1, post, embed)
    ensures post(first, batches[0]).Items? ==> OwnItems(batches[0], post(first, batches[0]).items, embed)
  {
    assert post(first + 0, batches[0]) == post(first, batches[0]);
    forall k | 0 <= k < |batches[1..]| && post(first + 1 + k, batches[1..][k]).Items?
      ensures OwnItems(batches[1..][k], post(first + 1 + k, batches[1..][k]).items, embed)
    {
      assert post(first + (k + 1), batches[k + 1]) == post(first + 1 + k, batches[1..][k]);
    }
  }

  /**
   * The only check made on the answer is that there are as many vectors as texts. When no reply is longer than its
   * batch it is enough: at the right total every reply has its batch's length and every text its own vector.
   */
  lemma {:induction false} CountCheckAligns<V>(batches: seq<seq<string>>, first: nat, lengths: seq<nat>,
                                               post: (nat, seq<string>) -> Reply<V>, embed: string -> V)
    requires RepliesOwn(batches, first, post, embed) && RepliesCount(batches, first, post, lengths)
    requires NoOverlong(batches, lengths)
    ensures Collect(batches, first, post).Vectors?
    ensures var vectors := Collect(batches, first, post).vectors;
      |vectors| == Sum(lengths) <= |Flatten(batches)|
      && (|vectors| == |Flatten(batches)| ==>
            vectors == Map(Flatten(batches), embed) && forall k | 0 <= k < |lengths| :: lengths[k] == |batches[k]|)
  {
    if batches != [] {
      RepliesTail(batches, first, post, lengths);
      OwnTail(batches, first, post, embed);
      CountCheckAligns(batches[1..], first + 1, lengths[1..], post, embed);
      var items := post(first, batches[0]).items;
      var rest := Collect(batches[1..], first + 1, post).vectors;
      assert Collect(batches, first, post) == Vectors(items + rest);
      if |items + rest| == |Flatten(batches)| {
        assert items == Map(batches[0], embed);
        assert Map(batches[0] + Flatten(batches[1..]), embed)
            == Map(batches[0], embed) + Map(Flatten(batches[1..]), embed);
      }
    }
  }

  /** No batch has a reply longer than itself. */
  ghost predicate NeverOverlong<V>(batches: seq<seq<string>>, first: nat, post: (nat, seq<string>) -> Reply<V>) {
    forall k | 0 <= k < |batches| ::
      var reply := post(first + k, batches[k]);
      reply.Items? ==> |reply.items| <= |batches[k]|
  }

  function ReplyLengths<V>(batches: seq<seq<string>>, first: nat, post: (nat, seq<string>) -> Reply<V>): seq<nat> {
    if batches == [] then []
    else
      var reply := post(first, batches[0]);
      [if reply.Items? then |reply.items| else 0] + ReplyLengths(batches[1..], first + 1, post)
  }

  /** When the loop returns vectors, every batch was answered. */
  lemma {:induction false} VectorsMeanAnswers<V>(batches: seq<seq<string>>, first: nat,
                                                 post: (nat, seq<string>) -> Reply<V>)
    requires Collect(batches, first, post).Vectors?
    ensures RepliesCount(batches, first, post, ReplyLengths(batches, first, post))
    ensures NeverOverlong(batches, first, post) ==> NoOverlong(batches, ReplyLengths(batches, first, post))
  {
    if batches != [] {
      VectorsMeanAnswers(batches[1..], first + 1, post);
      var lengths, rest := ReplyLengths(batches, first, post), ReplyLengths(batches[1..], first + 1, post);
      assert lengths[1..] == rest;
      forall k | 0 <= k < |batches|
        ensures post(first + k, batches[k]).Items? && |post(first + k, batches[k]).items| == lengths[k]
      {
        if k > 0 {
          assert post(first + 1 + (k - 1), batches[1..][k - 1]) == post(first + k, batches[k]);
          assert rest[k - 1] == lengths[k];
        }
      }
    }
  }

  // ---------- The check fails for every overlong reply ----------

  /** An endpoint with these reply lengths that is right about every text and puts `surplus` in all other places. */
  function Padded<V>(lengths: seq<nat>, embed: string -> V, surplus: V): (nat, seq<string>) -> Reply<V> {
    (index: nat, batch: seq<string>) =>
      if index < |lengths|
      then Items(seq(lengths[index], k requires 0 <= k => if k < |batch| then embed(batch[k]) else surplus))
      else Malformed
  }

  lemma PaddedReplies<V>(batches: seq<seq<string>>, lengths: seq<nat>, embed: string -> V, surplus: V)
    requires |lengths| == |batches|
    ensures RepliesOwn(batches, 0, Padded(lengths, embed, surplus), embed)
    ensures RepliesCount(batches, 0, Padded(lengths, embed, surplus), lengths)
  {
  }

  /** Where the items of the k-th reply end up. */
  lemma {:induction false} CollectAt<V>(batches: seq<seq<string>>, first: nat, post: (nat, seq<string>) -> Reply<V>,
                                        lengths: seq<nat>, k: nat, j: nat)
    requires RepliesCount(batches, first, post, lengths) && k < |batches| && j < lengths[k]
    ensures var outcome := Collect(batches, first, post);
      && outcome.Vectors? && |outcome.vectors| == Sum(lengths)
      && Sum(lengths[..k]) + j < Sum(lengths)
      && post(first + k, batches[k]).Items? && |post(first + k, batches[k]).items| == lengths[k]
      && outcome.vectors[Sum(lengths[..k]) + j] == post(first + k, batches[k]).items[j]
    decreases k
  {
    RepliesTail(batches, first, post, lengths);
    var items := post(first, batches[0]).items;
    AllAnswered(batches[1..], first + 1, post, lengths[1..]);
    var rest := Collect(batches[1..], first + 1, post).vectors;
    assert Collect(batches, first, post) == Vectors(items + rest);
    assert Sum(lengths) == lengths[0] + Sum(lengths[1..]);
    assert RepliesCount(batches, first, post, lengths) && post(first + k, batches[k]).Items?;
    hide Collect, RepliesCount;
    if k == 0 {
      assert lengths[..0] == [];
    } else {
      CollectAt(batches[1..], first + 1, post, lengths[1..], k - 1, j);
      assert batches[1..][k - 1] == batches[k] && first + 1 + (k - 1) == first + k;
      assert lengths[..k][0] == lengths[0] && lengths[..k][1..] == lengths[1..][..k - 1];
    }
  }

  lemma {:induction false} AllAnswered<V>(batches: seq<seq<string>>, first: nat, post: (nat, seq<string>) -> Reply<V>,
                                          lengths: seq<nat>)
    requires RepliesCount(batches, first, post, lengths)
    ensures var outcome := Collect(batches, first, post); outcome.Vectors? && |outcome.vectors| == Sum(lengths)
  {
    if batches != [] {
      RepliesTail(batches, first, post, lengths);
      AllAnswered(batches[1..], first + 1, post, lengths[1..]);
    }
  }

  ghost predicate Aligned<V>(batches: seq<seq<string>>, post: (nat, seq<string>) -> Reply<V>, embed: string -> V) {
    Collect(batches, 0, post) == Vectors(Map(Flatten(batches), embed))
  }

  ghost predicate Trustworthy<V>(batches: seq<seq<string>>, post: (nat, seq<string>) -> Reply<V>, embed: string -> V,
                                 lengths: seq<nat>) {
    RepliesOwn(batches, 0, post, embed) && RepliesCount(batches, 0, post, lengths)
  }

  lemma SurplusAt<V>(batches: seq<seq<string>>, lengths: seq<nat>, embed: string -> V, k: nat, surplus: V)
    requires |lengths| == |batches| && k < |lengths| && lengths[k] > |batches[k]|
    ensures var at, post := Sum(lengths[..k]) + |batches[k]|, Padded(lengths, embed, surplus);
      var outcome := Collect(batches, 0, post);
      && Trustworthy(batches, post, embed, lengths)
      && outcome.Vectors? && at < Sum(lengths) == |outcome.vectors| && outcome.vectors[at] == surplus
  {
    var post := Padded(lengths, embed, surplus);
    PaddedReplies(batches, lengths, embed, surplus);
    CollectAt(batches, 0, post, lengths, k, |batches[k]|);
    assert post(0 + k, batches[k]).items[|batches[k]|] == surplus;
  }

  lemma OverlongMisaligns<V>(batches: seq<seq<string>>, lengths: seq<nat>, embed: string -> V, k: nat, a: V, b: V)
    requires a != b && |lengths| == |batches| && Sum(lengths) == |Flatten(batches)|
    requires k < |lengths| && lengths[k] > |batches[k]|
    ensures exists post :: Trustworthy(batches, post, embed, lengths) && !Aligned(batches, post, embed)
  {
    hide Sum, Collect, Padded, Trustworthy, Flatten;
    var at := Sum(lengths[..k]) + |batches[k]|;
    SurplusAt(batches, lengths, embed, k, a);
    var right := Map(Flatten(batches), embed)[at];
    var surplus := if right == a then b else a;
    SurplusAt(batches, lengths, embed, k, surplus);
    var post := Padded(lengths, embed, surplus);
    assert Trustworthy(batches, post, embed, lengths) && !Aligned(batches, post, embed);
  }

  /**
   * For reply lengths that pass the total count, every endpoint that is right about each text it answers gives each
   * text its own vector if and only if no reply is longer than its batch.
   */
  lemma CountCheckSoundIff<V(!new)>(batches: seq<seq<string>>, lengths: seq<nat>, embed: string -> V, a: V, b: V)
    requires a != b && |lengths| == |batches| && Sum(lengths) == |Flatten(batches)|
    ensures (forall post :: Trustworthy(batches, post, embed, lengths) ==> Aligned(batches, post, embed))
       <==> NoOverlong(batches, lengths)
  {
    if NoOverlong(batches, lengths) {
      forall post | Trustworthy(batches, post, embed, lengths) ensures Aligned(batches, post, embed) {
        CountCheckAligns(batches, 0, lengths, post, embed);
      }
    } else {
      var k :| 0 <= k < |lengths| && lengths[k] > |batches[k]|;
      OverlongMisaligns(batches, lengths, embed, k, a, b);
    }
  }
}
