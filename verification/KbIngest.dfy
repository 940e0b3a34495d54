/**
  Embedding and storing the chunks of one knowledge-base document: the chunks go to the embedding
  service in batches, the vectors of all replies are appended, and chunk and vector lists are zipped.
 */
module KbIngest {
  import opened Common
  import Chunker

  const EMBED_BATCH_SIZE := 32

  /** A row of `kb_chunks`. */
  datatype Row<V> = Row(index: nat, text: string, tokens: nat, vector: V)

  /** `reported` is the chunk count the job returns, `rows` what is stored. */
  datatype Outcome<V> = Stored(rows: seq<Row<V>>, reported: nat) | EmbedFailed

  /** The number of batches for `n` chunks. */
  function Batches(n: nat): nat { (n + EMBED_BATCH_SIZE - 1) / EMBED_BATCH_SIZE }

  /**
    The embedding part of `kb_ingest_document`; `replies[k]` is what the service answers to batch `k`.
    One failed batch stores nothing. Otherwise chunk `i` gets the `i`-th vector of all replies, as far as there are any.
   */
  method Ingest<V>(texts: seq<string>, replies: seq<Option<seq<V>>>) returns (out: Outcome<V>, ghost vectors: seq<seq<V>>)
    requires |replies| == Batches(|texts|)
    ensures out.EmbedFailed? <==> exists k :: 0 <= k < |replies| && replies[k] == None
    ensures out.Stored? ==> |vectors| == |replies| && forall k | 0 <= k < |replies| :: replies[k] == Some(vectors[k])
    ensures out.Stored? ==> out.reported == |texts| && |out.rows| == Min(|texts|, |Flatten(vectors)|)
    ensures out.Stored? ==> forall i | 0 <= i < |out.rows| ::
              out.rows[i] == Row(i, texts[i], Chunker.Tokens(texts[i]), Flatten(vectors)[i])
  {
    hide Chunker.Tokens, Flatten;
    var all: seq<V> := [];
    vectors := [];
    FlattenOfNone<V>();
    var i, k := 0, 0;
    while i < |texts|
      invariant i == EMBED_BATCH_SIZE * k && k <= |replies|
      invariant |vectors| == k && forall j | 0 <= j < k :: replies[j] == Some(vectors[j])
      invariant all == Flatten(vectors)
    {
      if replies[k].None? {
        return EmbedFailed, vectors;
      }
      FlattenSnoc(vectors, replies[k].value);
      all := all + replies[k].value;
      vectors := vectors + [replies[k].value];
      i, k := i + EMBED_BATCH_SIZE, k + 1;
    }
    var rows := seq(Min(|texts|, |all|), n requires 0 <= n < Min(|texts|, |all|) =>
      Row(n, texts[n], Chunker.Tokens(texts[n]), all[n]));
    out := Stored(rows, |texts|);
  }

  lemma {:induction false} FlattenOfNone<V>()
    ensures Flatten<V>([]) == []
  {
  }

  // ---------------------------------------------------------------------
  // Every chunk gets its own vector
  // ---------------------------------------------------------------------

  /** A vector known only by the batch it answers and its place in the reply. */
  datatype Tag = Tag(batch: nat, place: nat)

  /** Replies of the given lengths. */
  function Reply(k: nat, length: nat): (r: seq<Tag>)
    ensures |r| == length && forall p | 0 <= p < length :: r[p] == Tag(k, p)
  {
    seq(length, p requires 0 <= p < length => Tag(k, p))
  }

  ghost predicate Tagged(vectors: seq<seq<Tag>>) {
    forall k | 0 <= k < |vectors| :: vectors[k] == Reply(k, |vectors[k]|)
  }

  /** All `n` chunks are stored, each with the vector its batch answered at its place. */
  ghost predicate OwnVectors(vectors: seq<seq<Tag>>, n: nat) {
    && |Flatten(vectors)| >= n
    && forall i | 0 <= i < n :: Flatten(vectors)[i] == Tag(i / EMBED_BATCH_SIZE, i % EMBED_BATCH_SIZE)
  }

  /** The condition on the reply lengths: no batch but the last may be answered short or long. */
  predicate RightLengths(vectors: seq<seq<Tag>>, n: nat) {
    && |vectors| == Batches(n)
    && (forall k | 0 <= k < |vectors| - 1 :: |vectors[k]| == EMBED_BATCH_SIZE)
    && (n > 0 ==> |vectors[|vectors|-1]| >= n - EMBED_BATCH_SIZE * (|vectors| - 1))
  }

  lemma {:induction false} FlattenSplit<V>(vs: seq<seq<V>>, k: nat)
    requires k < |vs|
    ensures Flatten(vs) == Flatten(vs[..k]) + (vs[k] + Flatten(vs[k + 1..]))
  {
    assert vs == vs[..k] + vs[k..] && vs[k..][1..] == vs[k + 1..];
    FlattenAppend(vs[..k], vs[k..]);
  }

  lemma {:induction false} FullPrefix(vectors: seq<seq<Tag>>, k: nat)
    requires k <= |vectors| && forall j | 0 <= j < k :: |vectors[j]| == EMBED_BATCH_SIZE
    ensures |Flatten(vectors[..k])| == EMBED_BATCH_SIZE * k
  {
    if k > 0 {
      FullPrefix(vectors, k - 1);
      assert vectors[..k] == vectors[..k - 1] + [vectors[k - 1]];
      FlattenSnoc(vectors[..k - 1], vectors[k - 1]);
    }
  }

  /** Where the vectors of batch `k` start when all batches before it were full. */
  lemma {:induction false} AtPlace(vectors: seq<seq<Tag>>, k: nat, p: nat)
    requires Tagged(vectors) && k < |vectors| && p < |vectors[k]|
    requires forall j | 0 <= j < k :: |vectors[j]| == EMBED_BATCH_SIZE
    ensures EMBED_BATCH_SIZE * k + p < |Flatten(vectors)| && Flatten(vectors)[EMBED_BATCH_SIZE * k + p] == Tag(k, p)
  {
    FullPrefix(vectors, k);
    FlattenSplit(vectors, k);
    assert vectors[k] == Reply(k, |vectors[k]|);
  }

  lemma {:induction false} AllLater(vectors: seq<seq<Tag>>, k: nat)
    requires Tagged(vectors) && k <= |vectors|
    ensures forall i | 0 <= i < |Flatten(vectors[k..])| :: Flatten(vectors[k..])[i].batch >= k
    decreases |vectors| - k
  {
    if k < |vectors| {
      AllLater(vectors, k + 1);
      assert vectors[k..][1..] == vectors[k + 1..];
      assert vectors[k] == Reply(k, |vectors[k]|);
    }
  }

  /** The first batch but the last that is not answered in full puts a foreign vector, or none, beside some chunk. */
  lemma {:induction false} WrongLengthShifts(vectors: seq<seq<Tag>>, n: nat, k: nat)
    requires Tagged(vectors) && |vectors| == Batches(n) && k < |vectors| - 1
    requires forall j | 0 <= j < k :: |vectors[j]| == EMBED_BATCH_SIZE
    requires |vectors[k]| != EMBED_BATCH_SIZE
    ensures !OwnVectors(vectors, n)
  {
    if |vectors[k]| > EMBED_BATCH_SIZE {
      AtPlace(vectors, k, EMBED_BATCH_SIZE);
    } else {
      FullPrefix(vectors, k);
      FlattenSplit(vectors, k);
      AllLater(vectors, k + 1);
      var i := EMBED_BATCH_SIZE * k + |vectors[k]|;
      assert i / EMBED_BATCH_SIZE == k;
      if |Flatten(vectors)| > i {
        assert Flatten(vectors)[i] == Flatten(vectors[k + 1..])[0];
      }
    }
  }

  /** Every chunk is stored with its own vector exactly when every reply but the last has one vector per chunk and the last at least that. */
  lemma {:induction false} OwnVectorsExactly(vectors: seq<seq<Tag>>, n: nat)
    requires Tagged(vectors) && |vectors| == Batches(n)
    ensures OwnVectors(vectors, n) <==> RightLengths(vectors, n)
  {
    if k: nat :| k < |vectors| - 1 && |vectors[k]| != EMBED_BATCH_SIZE {
      var first := 0;
      while |vectors[first]| == EMBED_BATCH_SIZE
        invariant first <= k && forall j | 0 <= j < first :: |vectors[j]| == EMBED_BATCH_SIZE
        decreases k - first
      {
        first := first + 1;
      }
      WrongLengthShifts(vectors, n, first);
    } else if n > 0 {
      LastReply(vectors, n);
    }
  }

  lemma {:induction false} LastReply(vectors: seq<seq<Tag>>, n: nat)
    requires Tagged(vectors) && |vectors| == Batches(n) && n > 0
    requires forall k | 0 <= k < |vectors| - 1 :: |vectors[k]| == EMBED_BATCH_SIZE
    ensures OwnVectors(vectors, n) <==> |vectors[|vectors|-1]| >= n - EMBED_BATCH_SIZE * (|vectors| - 1)
  {
    var last := |vectors| - 1;
    FullPrefix(vectors, last);
    FlattenSplit(vectors, last);
    FlattenOfNone<Tag>();
    assert vectors[last + 1..] == [];
    if |vectors[last]| >= n - EMBED_BATCH_SIZE * last {
      forall i | 0 <= i < n
        ensures Flatten(vectors)[i] == Tag(i / EMBED_BATCH_SIZE, i % EMBED_BATCH_SIZE)
      {
        AtPlace(vectors, i / EMBED_BATCH_SIZE, i % EMBED_BATCH_SIZE);
      }
    }
  }
}
