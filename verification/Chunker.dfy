/**
  The knowledge-base chunker: consecutive sentences are packed into chunks of about `target` tokens,
  each chunk starting with a tail of the one before.
 */
module Chunker {
  import opened Common

  /** `_approx_tokens`. */
  function Tokens(text: string): nat { Max(1, |text| / 4) }

  /** Sum of the sentence token counts. */
  function Sum(ss: seq<string>): nat {
    if ss == [] then 0 else Sum(ss[..|ss|-1]) + Tokens(ss[|ss|-1])
  }

  /** `" ".join(ss)`. */
  function Joined(ss: seq<string>): string {
    if ss == [] then ""
    else if |ss| == 1 then ss[0]
    else Joined(ss[..|ss|-1]) + " " + ss[|ss|-1]
  }

  function Reversed(ss: seq<string>): (r: seq<string>) {
    if ss == [] then [] else Reversed(ss[1..]) + [ss[0]]
  }

  /** A chunk: the sentences from `from` up to `to`. */
  datatype Span = Span(from: nat, to: nat)

  function Size(sents: seq<string>, a: nat, b: nat): nat
    requires a <= b <= |sents|
  {
    Sum(sents[a..b])
  }

  // ---------------------------------------------------------------------
  // What a chunking is
  // ---------------------------------------------------------------------

  /** `t` starts the longest run of sentences that ends at `b`, starts no earlier than `a` and fits in `overlap`. */
  ghost predicate LongestTail(sents: seq<string>, a: nat, b: nat, overlap: int, t: nat) {
    && a <= t <= b <= |sents|
    && (t < b ==> Size(sents, t, b) <= overlap)
    && (a < t ==> Size(sents, t - 1, b) > overlap)
  }

  /** Sentences were added after the first new one only while they fitted the target, and the next one does not. */
  ghost predicate FilledUp(sents: seq<string>, target: int, span: Span, firstNew: nat) {
    && span.from <= firstNew < span.to <= |sents|
    && (forall e | firstNew < e < span.to :: Size(sents, span.from, e) + Tokens(sents[e]) <= target)
    && (span.to < |sents| ==> Size(sents, span.from, span.to) + Tokens(sents[span.to]) > target)
  }

  /** The first sentence of chunk `k` that no earlier chunk contains. */
  function FirstNew(spans: seq<Span>, k: nat): nat
    requires k < |spans|
  {
    if k == 0 then 0 else spans[k - 1].to
  }

  /** One chunk follows from the one before. */
  ghost predicate ChunkAt(sents: seq<string>, target: int, overlap: int, spans: seq<Span>, k: nat)
    requires k < |spans|
  {
    && FilledUp(sents, target, spans[k], FirstNew(spans, k))
    && (if k == 0 then spans[0].from == 0
        else LongestTail(sents, spans[k - 1].from, spans[k - 1].to, overlap, spans[k].from))
  }

  ghost predicate Chunking(sents: seq<string>, target: int, overlap: int, spans: seq<Span>) {
    && (forall k | 0 <= k < |spans| :: ChunkAt(sents, target, overlap, spans, k))
    && (if sents == [] then spans == [] else spans != [] && spans[|spans|-1].to == |sents|)
  }

  // ---------------------------------------------------------------------
  // The generator
  // ---------------------------------------------------------------------

  lemma {:induction false} SumSnoc(ss: seq<string>, s: string)
    ensures Sum(ss + [s]) == Sum(ss) + Tokens(s)
  {
    assert (ss + [s])[..|ss + [s]|-1] == ss;
  }

  lemma {:induction false} SumAppend(a: seq<string>, b: seq<string>)
    ensures Sum(a + b) == Sum(a) + Sum(b)
  {
    if b == [] {
      assert a + b == a;
    } else {
      SumAppend(a, b[..|b|-1]);
      assert (a + b)[..|a + b|-1] == a + b[..|b|-1];
    }
  }

  lemma {:induction false} SizeSplit(sents: seq<string>, a: nat, m: nat, b: nat)
    requires a <= m <= b <= |sents|
    ensures Size(sents, a, b) == Size(sents, a, m) + Size(sents, m, b)
  {
    assert sents[a..b] == sents[a..m] + sents[m..b];
    SumAppend(sents[a..m], sents[m..b]);
  }

  lemma {:induction false} SizeOne(sents: seq<string>, a: nat)
    requires a < |sents|
    ensures Size(sents, a, a) == 0 && Size(sents, a, a + 1) == Tokens(sents[a])
  {
    assert sents[a..a + 1] == [] + [sents[a]];
    SumSnoc([], sents[a]);
  }

  lemma {:induction false} ReversedSnoc(ss: seq<string>, s: string)
    ensures Reversed(ss + [s]) == [s] + Reversed(ss)
  {
    if ss == [] {
      assert ss + [s] == [s];
    } else {
      assert (ss + [s])[1..] == ss[1..] + [s];
      ReversedSnoc(ss[1..], s);
    }
  }

  lemma {:induction false} ReversedTwice(ss: seq<string>)
    ensures Reversed(Reversed(ss)) == ss
  {
    if ss != [] {
      ReversedTwice(ss[1..]);
      ReversedSnoc(Reversed(ss[1..]), ss[0]);
    }
  }

  /** The inner loop: the longest tail of the finished chunk that fits, and its token count. */
  method Tail(ghost sents: seq<string>, ghost a: nat, ghost b: nat, cur: seq<string>, overlap: int)
    returns (kept: seq<string>, tailTok: nat, ghost t: nat)
    requires a <= b <= |sents| && cur == sents[a..b]
    ensures LongestTail(sents, a, b, overlap, t) && kept == sents[t..b] && tailTok == Size(sents, t, b)
    ensures IsTail(cur, overlap, kept) && tailTok == Sum(kept)
  {
    var tail: seq<string> := [];
    tailTok := 0;
    t := b;
    SizeEmpty(sents, b);
    hide *;
    var j: nat := |cur|;
    while j > 0
      invariant j <= |cur| && t == a + j
      invariant tail == Reversed(sents[t..b])
      invariant tailTok == Size(sents, t, b)
      invariant t < b ==> tailTok <= overlap
    {
      var prev := cur[j - 1];
      var ptk := Tokens(prev);
      OneMore(sents, t - 1, b);
      if tailTok + ptk > overlap {
        break;
      }
      tail := tail + [prev];
      tailTok := tailTok + ptk;
      j := j - 1;
      t := t - 1;
    }
    ReversedTwice(sents[t..b]);
    kept := Reversed(tail);
    if j > 0 {
      OneMore(sents, t - 1, b);
    }
    IsLongest(sents, a, b, overlap, t);
    TailOfChunk(sents, a, b, cur, overlap, t);
  }

  /** The longest suffix of `cur` of at most `overlap` tokens. */
  ghost predicate IsTail(cur: seq<string>, overlap: int, kept: seq<string>) {
    && |kept| <= |cur| && kept == cur[|cur| - |kept|..]
    && (kept != [] ==> Sum(kept) <= overlap)
    && forall j | 0 <= j < |cur| - |kept| :: Sum(cur[j..]) > overlap
  }

  lemma {:induction false} TailOfChunk(sents: seq<string>, a: nat, b: nat, cur: seq<string>, overlap: int, t: nat)
    requires a <= b <= |sents| && cur == sents[a..b] && LongestTail(sents, a, b, overlap, t)
    ensures IsTail(cur, overlap, sents[t..b]) && Size(sents, t, b) == Sum(sents[t..b])
  {
    hide Sum, Tokens;
    assert cur[|cur| - (b - t)..] == sents[t..b];
    forall j | 0 <= j < t - a
      ensures Sum(cur[j..]) > overlap
    {
      SizeMonotone(sents, a + j, t - 1, b, b);
      assert cur[j..] == sents[a + j..b];
    }
  }

  lemma {:induction false} SizeEmpty(sents: seq<string>, b: nat)
    requires b <= |sents|
    ensures Size(sents, b, b) == 0 && Reversed(sents[b..b]) == []
  {
  }

  lemma {:induction false} OneMore(sents: seq<string>, t: nat, b: nat)
    requires t < b <= |sents|
    ensures Size(sents, t, b) == Size(sents, t + 1, b) + Tokens(sents[t])
    ensures Reversed(sents[t..b]) == Reversed(sents[t + 1..b]) + [sents[t]]
  {
    SizeSplit(sents, t, t + 1, b);
    SizeOne(sents, t);
    assert sents[t..b][1..] == sents[t + 1..b];
  }

  lemma {:induction false} IsLongest(sents: seq<string>, a: nat, b: nat, overlap: int, t: nat)
    requires a <= t <= b <= |sents| && (t < b ==> Size(sents, t, b) <= overlap)
    requires a < t ==> Size(sents, t - 1, b) > overlap
    ensures LongestTail(sents, a, b, overlap, t)
  {
  }

  /** The texts of the chunks of `sents`. */
  ghost predicate AreChunks(sents: seq<string>, target: int, overlap: int, texts: seq<string>) {
    exists spans :: Chunking(sents, target, overlap, spans) && Rendered(sents, spans, texts)
  }

  lemma {:induction false} TextsAreChunks(sents: seq<string>, target: int, overlap: int, spans: seq<Span>, texts: seq<string>)
    requires Chunking(sents, target, overlap, spans) && Rendered(sents, spans, texts)
    ensures AreChunks(sents, target, overlap, texts)
  {
  }

  /** `_chunk`, from the list of sentences on; the job calls it with a target of 380 and an overlap of 60. */
  method Chunk(sents: seq<string>, target: int, overlap: int) returns (texts: seq<string>, ghost spans: seq<Span>)
    ensures Chunking(sents, target, overlap, spans)
    ensures Rendered(sents, spans, texts)
    ensures AreChunks(sents, target, overlap, texts)
  {
    hide *;
    texts, spans := [], [];
    var cur: seq<string> := [];
    var curTok := 0;
    ghost var from: nat, firstNew: nat := 0, 0;
    NothingYet(sents, target, overlap);
    for i := 0 to |sents|
      invariant from <= firstNew <= i && (i > 0 ==> firstNew < i)
      invariant cur == sents[from..i]
      invariant curTok == Size(sents, from, i)
      invariant Filling(sents, target, overlap, spans, texts, from, firstNew, i)
    {
      var s := sents[i];
      var sTok := Tokens(s);
      if cur != [] && curTok + sTok > target {
        texts := texts + [Joined(cur)];
        CutChunk(sents, target, overlap, spans, texts, from, firstNew, i);
        spans := spans + [Span(from, i)];
        ghost var t;
        cur, curTok, t := Tail(sents, from, i, cur, overlap);
        Restart(sents, target, overlap, spans, texts, from, t, i);
        from, firstNew := t, i;
      }
      AddSentence(sents, target, overlap, spans, texts, from, firstNew, i);
      cur := cur + [s];
      curTok := curTok + sTok;
    }
    if cur != [] {
      texts := texts + [Joined(cur)];
      CutChunk(sents, target, overlap, spans, texts, from, firstNew, |sents|);
      spans := spans + [Span(from, |sents|)];
      LastChunk(sents, target, overlap, spans, texts);
    } else {
      NothingLeft(sents, target, overlap, spans, texts, from, firstNew);
    }
    TextsAreChunks(sents, target, overlap, spans, texts);
  }

  ghost predicate Cut(sents: seq<string>, target: int, overlap: int, spans: seq<Span>, texts: seq<string>) {
    (forall k | 0 <= k < |spans| :: ChunkAt(sents, target, overlap, spans, k)) && Rendered(sents, spans, texts)
  }

  /** Sentences up to `i` have been handled: finished chunks, and one being filled. */
  ghost predicate Filling(
      sents: seq<string>, target: int, overlap: int, spans: seq<Span>, texts: seq<string>, from: nat, firstNew: nat, i: nat) {
    && from <= firstNew <= i <= |sents| && (spans != [] ==> firstNew > 0)
    && Follows(sents, overlap, spans, from, firstNew)
    && (forall e | firstNew < e < i :: Size(sents, from, e) + Tokens(sents[e]) <= target)
    && Cut(sents, target, overlap, spans, texts)
  }

  lemma {:induction false} NothingYet(sents: seq<string>, target: int, overlap: int)
    ensures Filling(sents, target, overlap, [], [], 0, 0, 0) && Size(sents, 0, 0) == 0 && sents[0..0] == []
  {
  }

  lemma {:induction false} CutChunk(
      sents: seq<string>, target: int, overlap: int, spans: seq<Span>, texts: seq<string>, from: nat, firstNew: nat, i: nat)
    requires texts != [] && Filling(sents, target, overlap, spans, texts[..|texts|-1], from, firstNew, i)
    requires firstNew < i && texts[|texts|-1] == Joined(sents[from..i])
    requires i < |sents| ==> Size(sents, from, i) + Tokens(sents[i]) > target
    ensures Cut(sents, target, overlap, spans + [Span(from, i)], texts)
  {
    hide Size, Tokens, Joined, LongestTail;
    assert FilledUp(sents, target, Span(from, i), firstNew);
    OneMoreChunk(sents, target, overlap, spans, Span(from, i), firstNew);
  }

  lemma {:induction false} Restart(
      sents: seq<string>, target: int, overlap: int, spans: seq<Span>, texts: seq<string>, from: nat, t: nat, i: nat)
    requires Cut(sents, target, overlap, spans, texts) && spans != [] && spans[|spans|-1] == Span(from, i)
    requires LongestTail(sents, from, i, overlap, t) && i > 0
    ensures t <= i && Filling(sents, target, overlap, spans, texts, t, i, i)
  {
    hide ChunkAt, Size, Tokens, Joined;
  }

  lemma {:induction false} AddSentence(
      sents: seq<string>, target: int, overlap: int, spans: seq<Span>, texts: seq<string>, from: nat, firstNew: nat, i: nat)
    requires Filling(sents, target, overlap, spans, texts, from, firstNew, i) && i < |sents|
    requires firstNew < i ==> Size(sents, from, i) + Tokens(sents[i]) <= target
    ensures Filling(sents, target, overlap, spans, texts, from, firstNew, i + 1)
    ensures Size(sents, from, i + 1) == Size(sents, from, i) + Tokens(sents[i])
    ensures sents[from..i + 1] == sents[from..i] + [sents[i]]
  {
    hide Cut, Follows;
    SizeSplit(sents, from, i, i + 1);
    SizeOne(sents, i);
  }

  lemma {:induction false} LastChunk(sents: seq<string>, target: int, overlap: int, spans: seq<Span>, texts: seq<string>)
    requires Cut(sents, target, overlap, spans, texts) && sents != [] && spans != [] && spans[|spans|-1].to == |sents|
    ensures Chunking(sents, target, overlap, spans) && Rendered(sents, spans, texts)
  {
    hide ChunkAt, Rendered;
  }

  lemma {:induction false} NothingLeft(
      sents: seq<string>, target: int, overlap: int, spans: seq<Span>, texts: seq<string>, from: nat, firstNew: nat)
    requires Filling(sents, target, overlap, spans, texts, from, firstNew, |sents|)
    requires sents[from..|sents|] == [] && (|sents| > 0 ==> firstNew < |sents|)
    ensures Chunking(sents, target, overlap, spans) && Rendered(sents, spans, texts)
  {
    hide Size, Tokens;
    assert from == |sents|;
  }

  /** The chunk being filled starts at `from`, where the chunk before it says, and adds sentences from `firstNew` on. */
  ghost predicate Follows(sents: seq<string>, overlap: int, spans: seq<Span>, from: nat, firstNew: nat) {
    if spans == [] then from == firstNew == 0
    else
      var prev := spans[|spans|-1];
      firstNew == prev.to && LongestTail(sents, prev.from, prev.to, overlap, from)
  }

  ghost predicate Rendered(sents: seq<string>, spans: seq<Span>, texts: seq<string>) {
    && |texts| == |spans|
    && forall k | 0 <= k < |spans| ::
         spans[k].from <= spans[k].to <= |sents| && texts[k] == Joined(sents[spans[k].from..spans[k].to])
  }

  lemma {:induction false} OneMoreChunk(
      sents: seq<string>, target: int, overlap: int, spans: seq<Span>, span: Span, firstNew: nat)
    requires forall k | 0 <= k < |spans| :: ChunkAt(sents, target, overlap, spans, k)
    requires Follows(sents, overlap, spans, span.from, firstNew) && FilledUp(sents, target, span, firstNew)
    ensures forall k | 0 <= k < |spans| + 1 :: ChunkAt(sents, target, overlap, spans + [span], k)
  {
    hide FilledUp, LongestTail;
    var more := spans + [span];
    forall k | 0 <= k < |more|
      ensures ChunkAt(sents, target, overlap, more, k)
    {
      assert k < |spans| ==> ChunkAt(sents, target, overlap, spans, k);
    }
  }

  // ---------------------------------------------------------------------
  // Structure
  // ---------------------------------------------------------------------

  /** Chunks are contiguous, start and end in order, and each adds at least one sentence. */
  lemma {:induction false} ChunksAdvance(sents: seq<string>, target: int, overlap: int, spans: seq<Span>, k: nat)
    requires Chunking(sents, target, overlap, spans) && k < |spans|
    ensures spans[k].from <= FirstNew(spans, k) < spans[k].to <= |sents|
    ensures k > 0 ==> spans[k - 1].from <= spans[k].from && spans[k - 1].to < spans[k].to
  {
    assert ChunkAt(sents, target, overlap, spans, k);
  }

  /** The sentences that chunk `k` adds: it without the tail of the chunk before. */
  function NewPart(sents: seq<string>, spans: seq<Span>, k: nat): seq<string>
    requires k < |spans| && FirstNew(spans, k) <= spans[k].to <= |sents|
  {
    sents[FirstNew(spans, k)..spans[k].to]
  }

  lemma {:induction false} OnePartMore(sents: seq<string>, spans: seq<Span>, parts: seq<seq<string>>, k: nat)
    requires k < |spans| && k < |parts| && FirstNew(spans, k) <= spans[k].to <= |sents| && parts[k] == NewPart(sents, spans, k)
    requires Flatten(parts[..k]) == sents[..FirstNew(spans, k)]
    ensures Flatten(parts[..k + 1]) == sents[..spans[k].to]
  {
    hide Flatten;
    assert parts[..k + 1] == parts[..k] + [parts[k]];
    FlattenSnoc(parts[..k], parts[k]);
    assert sents[..spans[k].to] == sents[..FirstNew(spans, k)] + parts[k];
  }

  /** Leaving out the overlaps gives back the sentence list. */
  lemma {:induction false} OverlapsRemoved(sents: seq<string>, target: int, overlap: int, spans: seq<Span>, parts: seq<seq<string>>)
    requires Chunking(sents, target, overlap, spans) && |parts| == |spans|
    requires forall k | 0 <= k < |spans| :: FirstNew(spans, k) <= spans[k].to <= |sents| && parts[k] == NewPart(sents, spans, k)
    ensures Flatten(parts) == sents
  {
    hide Flatten, ChunkAt, NewPart;
    var k := 0;
    FlattenNone<string>();
    assert parts[..0] == [] && sents[..0] == [];
    while k < |spans|
      invariant k <= |spans|
      invariant Flatten(parts[..k]) == sents[..if k == 0 then 0 else spans[k - 1].to]
    {
      OnePartMore(sents, spans, parts, k);
      k := k + 1;
    }
    assert parts[..|parts|] == parts && sents[..|sents|] == sents;
  }

  lemma {:induction false} FlattenNone<T>()
    ensures Flatten<T>([]) == []
  {
  }

  lemma {:induction false} SizeMonotone(sents: seq<string>, a: nat, b: nat, c: nat, d: nat)
    requires a <= b <= c <= d <= |sents|
    ensures Size(sents, b, c) <= Size(sents, a, d)
  {
    SizeSplit(sents, a, b, d);
    SizeSplit(sents, b, c, d);
  }

  lemma {:induction false} LongestTailUnique(sents: seq<string>, a: nat, b: nat, overlap: int, t: nat, u: nat)
    requires LongestTail(sents, a, b, overlap, t) && LongestTail(sents, a, b, overlap, u)
    ensures t == u
  {
    if t < u {
      SizeMonotone(sents, t, u - 1, b, b);
    } else if u < t {
      SizeMonotone(sents, u, t - 1, b, b);
    }
  }

  /** These rules leave no choice: a list of sentences has exactly one chunking. */
  lemma {:induction false} ChunkingIsUnique(sents: seq<string>, target: int, overlap: int, s1: seq<Span>, s2: seq<Span>)
    requires Chunking(sents, target, overlap, s1) && Chunking(sents, target, overlap, s2)
    ensures s1 == s2
  {
    var k := 0;
    while k < |s1| && k < |s2|
      invariant k <= |s1| && k <= |s2| && s1[..k] == s2[..k]
    {
      assert ChunkAt(sents, target, overlap, s1, k) && ChunkAt(sents, target, overlap, s2, k);
      SameNext(sents, target, overlap, s1, s2, k);
      assert s1[..k + 1] == s1[..k] + [s1[k]] && s2[..k + 1] == s2[..k] + [s2[k]];
      k := k + 1;
    }
    SameLength(sents, target, overlap, s1, s2, k);
    SameLength(sents, target, overlap, s2, s1, k);
    assert s1[..k] == s1 && s2[..k] == s2;
  }

  lemma {:induction false} SameNext(sents: seq<string>, target: int, overlap: int, s1: seq<Span>, s2: seq<Span>, k: nat)
    requires k < |s1| && k < |s2| && s1[..k] == s2[..k]
    requires ChunkAt(sents, target, overlap, s1, k) && ChunkAt(sents, target, overlap, s2, k)
    ensures s1[k] == s2[k]
  {
    if k > 0 {
      assert s1[k - 1] == s1[..k][k - 1] == s2[..k][k - 1] == s2[k - 1];
      LongestTailUnique(sents, s1[k - 1].from, s1[k - 1].to, overlap, s1[k].from, s2[k].from);
    }
  }

  lemma {:induction false} SameLength(sents: seq<string>, target: int, overlap: int, s1: seq<Span>, s2: seq<Span>, k: nat)
    requires Chunking(sents, target, overlap, s1) && Chunking(sents, target, overlap, s2)
    requires k <= |s1| && k <= |s2| && s1[..k] == s2[..k] && (k == |s1| || k == |s2|)
    ensures k == |s2|
  {
    if k < |s2| {
      if k > 0 {
        assert s1[k - 1] == s1[..k][k - 1] == s2[..k][k - 1] == s2[k - 1];
      }
      ChunksAdvance(sents, target, overlap, s2, k);
    }
  }

  // ---------------------------------------------------------------------
  // No short passage is torn apart
  // ---------------------------------------------------------------------

  /** If a passage that fits in the overlap begins before chunk `k`, it ends before the chunk before ends. */
  lemma {:induction false} StartsInTime(sents: seq<string>, target: int, overlap: int, spans: seq<Span>, k: nat, i: nat, j: nat)
    requires Chunking(sents, target, overlap, spans) && k < |spans|
    requires i < j <= |sents| && Size(sents, i, j) <= overlap
    requires k > 0 ==> spans[k - 1].to < j
    ensures spans[k].from <= i || (k > 0 && spans[k - 1].to <= i)
  {
    assert ChunkAt(sents, target, overlap, spans, k);
    if k > 0 && i < spans[k - 1].to && i < spans[k].from {
      var prev := spans[k - 1];
      ChunksAdvance(sents, target, overlap, spans, k - 1);
      StartsInTime(sents, target, overlap, spans, k - 1, i, j);
      if prev.from <= i {
        SizeMonotone(sents, i, spans[k].from - 1, prev.to, j);
      }
    }
  }

  /**
    What the overlap is for: every run of consecutive sentences of at most `overlap` tokens lies whole
    inside some chunk, however the chunk boundaries fall.
   */
  lemma {:induction false} ShortPassagesSurvive(sents: seq<string>, target: int, overlap: int, spans: seq<Span>, i: nat, j: nat)
    returns (k: nat)
    requires Chunking(sents, target, overlap, spans)
    requires i < j <= |sents| && Size(sents, i, j) <= overlap
    ensures k < |spans| && spans[k].from <= i && j <= spans[k].to
  {
    k := 0;
    while spans[k].to < j
      invariant k < |spans| && (k > 0 ==> spans[k - 1].to < j)
      decreases |spans| - k
    {
      k := k + 1;
    }
    StartsInTime(sents, target, overlap, spans, k, i, j);
    ChunksAdvance(sents, target, overlap, spans, k);
  }

  // ---------------------------------------------------------------------
  // Sizes
  // ---------------------------------------------------------------------

  /** A chunk exceeds the target only when the overlap and one sentence together do. */
  lemma {:induction false} ChunkSizeBound(sents: seq<string>, target: int, overlap: int, spans: seq<Span>, k: nat, largest: nat)
    requires Chunking(sents, target, overlap, spans) && k < |spans|
    requires spans[k].from <= spans[k].to <= |sents|
    requires forall e | spans[k].from <= e < spans[k].to :: Tokens(sents[e]) <= largest
    ensures Size(sents, spans[k].from, spans[k].to) <= Max(target, Max(overlap, 0) + largest)
  {
    assert ChunkAt(sents, target, overlap, spans, k);
    var from, to, first := spans[k].from, spans[k].to, FirstNew(spans, k);
    SizeSplit(sents, from, to - 1, to);
    SizeOne(sents, to - 1);
    if to - 1 == first {
      SizeOne(sents, first);
    } else {
      assert Size(sents, from, to - 1) + Tokens(sents[to - 1]) <= target;
    }
  }

  /** A chunk exceeds the target exactly when the tail it repeats and its first new sentence together do. */
  lemma {:induction false} OverTargetExactly(sents: seq<string>, target: int, overlap: int, spans: seq<Span>, k: nat)
    requires Chunking(sents, target, overlap, spans) && k < |spans|
    ensures spans[k].from <= FirstNew(spans, k) < spans[k].to <= |sents|
    ensures Size(sents, spans[k].from, spans[k].to) > target
       <==> Size(sents, spans[k].from, FirstNew(spans, k)) + Tokens(sents[FirstNew(spans, k)]) > target
  {
    assert ChunkAt(sents, target, overlap, spans, k);
    var from, to, first := spans[k].from, spans[k].to, FirstNew(spans, k);
    SizeSplit(sents, from, first, first + 1);
    SizeOne(sents, first);
    SizeMonotone(sents, from, from, first + 1, to);
    SizeSplit(sents, from, to - 1, to);
    SizeOne(sents, to - 1);
    if to - 1 > first {
      assert Size(sents, from, to - 1) + Tokens(sents[to - 1]) <= target;
    }
  }

  /** So no chunk exceeds the target if no sentence exceeds what the overlap leaves of it. */
  lemma {:induction false} ShortSentencesFit(sents: seq<string>, target: int, overlap: int, spans: seq<Span>, k: nat)
    requires Chunking(sents, target, overlap, spans) && k < |spans|
    requires forall e | 0 <= e < |sents| :: Tokens(sents[e]) <= target - Max(overlap, 0)
    ensures spans[k].from <= spans[k].to <= |sents| && Size(sents, spans[k].from, spans[k].to) <= target
  {
    ChunksAdvance(sents, target, overlap, spans, k);
    assert Tokens(sents[FirstNew(spans, k)]) <= target - Max(overlap, 0);
    ChunkSizeBound(sents, target, overlap, spans, k, target - Max(overlap, 0));
  }

  /** And some chunk exceeds it if some sentence does alone. */
  lemma {:induction false} LongSentenceExceeds(sents: seq<string>, target: int, overlap: int, spans: seq<Span>, i: nat) returns (k: nat)
    requires Chunking(sents, target, overlap, spans) && i < |sents| && Tokens(sents[i]) > target
    ensures k < |spans| && spans[k].from <= i < spans[k].to <= |sents|
    ensures Size(sents, spans[k].from, spans[k].to) > target
  {
    hide Chunking, Tokens;
    k := SentencesStayWhole(sents, target, overlap, spans, i);
    SizeOne(sents, i);
    SizeMonotone(sents, spans[k].from, i, i + 1, spans[k].to);
  }

  lemma {:induction false} JoinedLength(ss: seq<string>)
    requires ss != []
    ensures |Joined(ss)| <= 4 * Sum(ss) + 4 * |ss| - 1 && Sum(ss) >= |ss|
  {
    if |ss| == 1 {
      assert ss == [] + [ss[0]];
      SumSnoc([], ss[0]);
    } else {
      JoinedLength(ss[..|ss|-1]);
    }
  }

  /** The count stored for a chunk's text: joining `n` sentences costs at most `n - 1` tokens more, never as much again. */
  lemma {:induction false} StoredTokensBound(ss: seq<string>)
    requires ss != []
    ensures Tokens(Joined(ss)) <= Sum(ss) + |ss| - 1 < 2 * Sum(ss)
  {
    JoinedLength(ss);
  }

  /** A text of less than eight characters has one token, any other one for each four whole characters. */
  lemma {:induction false} TokensExactly(text: string)
    ensures if |text| < 8 then Tokens(text) == 1 else 4 * Tokens(text) <= |text| < 4 * Tokens(text) + 4
  {
  }

  /** Joining keeps the order and puts one blank between two sentences. */
  lemma {:induction false} JoinedConcat(a: seq<string>, b: seq<string>)
    requires a != [] && b != []
    ensures Joined(a + b) == Joined(a) + (" " + Joined(b))
    decreases |b|
  {
    var last := b[|b|-1];
    if |b| == 1 {
      assert (a + b)[..|a + b|-1] == a;
    } else {
      var init := b[..|b|-1];
      JoinedConcat(a, init);
      assert (a + b)[..|a + b|-1] == a + init;
      assert Joined(a) + (" " + Joined(init)) + " " + last == Joined(a) + (" " + (Joined(init) + " " + last));
    }
  }

  lemma {:induction false} JoinedOne(s: string)
    ensures Joined([s]) == s && Joined([]) == ""
  {
  }

  /** All characters of the sentences. */
  function Characters(ss: seq<string>): nat {
    if ss == [] then 0 else Characters(ss[..|ss|-1]) + |ss[|ss|-1]|
  }

  lemma {:induction false} JoinedCharacters(ss: seq<string>)
    ensures ss != [] ==> |Joined(ss)| == Characters(ss) + |ss| - 1
    ensures ss == [] ==> Characters(ss) == 0
  {
    if |ss| == 1 {
      assert ss[..0] == [] && Characters(ss[..0]) == 0;
    } else if |ss| > 1 {
      JoinedCharacters(ss[..|ss|-1]);
    }
  }

  /** Sentence `i` stands in the text after the sentences before it, each followed by one blank. */
  lemma {:induction false} SentenceInText(ss: seq<string>, i: nat)
    requires i < |ss|
    ensures var at := Characters(ss[..i]) + i;
            at + |ss[i]| <= |Joined(ss)| && Joined(ss)[at..at + |ss[i]|] == ss[i]
  {
    hide Joined, Characters;
    var before, here, after := ss[..i], [ss[i]], ss[i + 1..];
    JoinedOne(ss[i]);
    JoinedCharacters(before);
    var first := if before == [] then "" else Joined(before) + " ";
    var rest := if after == [] then "" else " " + Joined(after);
    assert |first| == Characters(before) + i;
    if before != [] {
      JoinedConcat(before, here);
      assert Joined(before + here) == first + ss[i];
    } else {
      assert before + here == here && first + ss[i] == ss[i];
    }
    if after != [] {
      JoinedConcat(before + here, after);
      assert ss == before + here + after;
    } else {
      assert ss == before + here && first + ss[i] + rest == first + ss[i];
    }
    assert Joined(ss) == first + ss[i] + rest;
  }

  /** No sentence is split: each lies in some chunk, and stands whole in its text, whatever the target. */
  lemma {:induction false} SentencesStayWhole(sents: seq<string>, target: int, overlap: int, spans: seq<Span>, i: nat) returns (k: nat)
    requires Chunking(sents, target, overlap, spans) && i < |sents|
    ensures k < |spans| && FirstNew(spans, k) <= i < spans[k].to <= |sents| && spans[k].from <= i
    ensures var text, at := Joined(sents[spans[k].from..spans[k].to]), Characters(sents[spans[k].from..i]) + (i - spans[k].from);
            at + |sents[i]| <= |text| && text[at..at + |sents[i]|] == sents[i]
  {
    k := 0;
    while k < |spans| && spans[k].to <= i
      invariant k <= |spans| && (k < |spans| ==> FirstNew(spans, k) <= i)
      invariant k == |spans| ==> spans[|spans|-1].to <= i
    {
      k := k + 1;
    }
    ChunksAdvance(sents, target, overlap, spans, k);
    var span := spans[k];
    assert sents[span.from..span.to][i - span.from] == sents[i];
    assert sents[span.from..span.to][..i - span.from] == sents[span.from..i];
    SentenceInText(sents[span.from..span.to], i - span.from);
  }
}
