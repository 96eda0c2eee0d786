/**
 * The chunker: greedy accumulation of sentences into chunks of a target
 * size, an overlap seed carried from one chunk into the next, a hard split
 * of sentences longer than the size, and a final filter of blank chunks.
 * Sentence segmentation is a collaborator: its output is an input here.
 */
module TextSplitter {
  import opened Text

  /** The configured defaults `chunk_text` is called with. */
  const ChunkSize: int := 500
  const ChunkOverlap: int := 50

  /** The overlap budget after the coercion of an overlap that is not below the size. */
  function EffectiveOverlap(size: int, overlap: int): (r: int)
    requires size > 0
    ensures r < size
    ensures overlap < size ==> r == overlap
    ensures overlap >= size ==> 0 <= 4 * r <= size < 4 * (r + 1)
  {
    if overlap >= size then size / 4 else overlap
  }

  // ---------------------------------------------------------------------------
  // The overlap seed: a suffix of the closed chunk's sentences within budget.
  // ---------------------------------------------------------------------------

  /**
   * How many sentences at the end of `cur` the backward walk collects: it
   * takes sentences while their total length stays within `budget`.
   */
  function SeedCount(cur: seq<string>, budget: int): (n: nat)
    ensures n <= |cur|
    decreases |cur|
  {
    if cur == [] || |cur[|cur| - 1]| > budget then 0
    else 1 + SeedCount(cur[..|cur| - 1], budget - |cur[|cur| - 1]|)
  }

  /** The overlap seed: the collected sentences, in their original order. */
  function Seed(cur: seq<string>, budget: int): seq<string>
  {
    cur[|cur| - SeedCount(cur, budget)..]
  }

  /**
   * The seed stays within the budget, and it is the longest suffix that
   * does: one more sentence from the closed chunk would exceed it.
   */
  lemma {:induction false} SeedSpec(cur: seq<string>, budget: int)
    ensures Seed(cur, budget) != [] ==> SumLen(Seed(cur, budget)) <= budget
    ensures var n := SeedCount(cur, budget);
      n < |cur| ==> SumLen(Seed(cur, budget)) + |cur[|cur| - n - 1]| > budget
    decreases |cur|
  {
    if cur != [] && |cur[|cur| - 1]| <= budget {
      var last := cur[|cur| - 1];
      var front := cur[..|cur| - 1];
      SeedSpec(front, budget - |last|);
      var m := SeedCount(front, budget - |last|);
      var seed := Seed(cur, budget);
      assert seed == Seed(front, budget - |last|) + [last];
      assert seed[..|seed| - 1] == Seed(front, budget - |last|);
      if m < |front| {
        assert front[|front| - m - 1] == cur[|cur| - (m + 1) - 1];
      }
    } else if cur != [] {
      assert Seed(cur, budget) == [];
    }
  }

  /** The backward walk over the closed chunk's sentences that builds the seed. */
  method OverlapSeed(cur: seq<string>, budget: int) returns (seed: seq<string>, seedLen: int)
    ensures seed == Seed(cur, budget)
    ensures seedLen == SumLen(seed)
  {
    seed, seedLen := [], 0;
    var j := |cur|;
    assert cur[..j] == cur;
    while j > 0
      invariant 0 <= j <= |cur|
      invariant seed == cur[j..] && seedLen == SumLen(seed)
      invariant SeedCount(cur, budget) == (|cur| - j) + SeedCount(cur[..j], budget - seedLen)
    {
      var s := cur[j - 1];
      if seedLen + |s| <= budget {
        assert cur[..j][..j - 1] == cur[..j - 1] && cur[..j][j - 1] == s;
        SumLenConcat([s], seed);
        SumLenSingle(s);
        assert cur[j - 1..] == [s] + seed;
        seed := [s] + seed;
        seedLen := seedLen + |s|;
        j := j - 1;
      } else {
        assert cur[..j][j - 1] == s;
        break;
      }
    }
  }

  // ---------------------------------------------------------------------------
  // The hard split of a sentence longer than the chunk size.
  // ---------------------------------------------------------------------------

  /**
   * Where the hard-split piece starting at `start` ends and where the next
   * one starts: the window is at most `size` characters, and it is cut at
   * its last space (which is dropped) when it has one and does not reach
   * the end of the sentence.
   */
  function Cut(s: string, size: int, start: nat): (r: (nat, nat))
    requires size > 0 && start < |s|
    ensures start <= r.0 <= r.1 <= |s| && start < r.1
    ensures r.0 - start <= size
    ensures r.1 == r.0 || (r.1 == r.0 + 1 && s[r.0] == ' ')
  {
    var end := if start + size < |s| then start + size else |s|;
    var splitPos := RFind(s, ' ', start, end);
    if splitPos != -1 && end < |s| then (splitPos, splitPos + 1) else (end, end)
  }

  /** The pieces the hard split appends from position `start` on. */
  function SplitFrom(s: string, size: int, start: nat): (parts: seq<string>)
    requires size > 0 && start <= |s|
    decreases |s| - start
  {
    if start >= |s| then []
    else
      var (cut, next) := Cut(s, size, start);
      [Strip(s[start..cut])] + SplitFrom(s, size, next)
  }

  /** Every hard-split piece fits the chunk size. */
  lemma {:induction false} SplitFromBounded(s: string, size: int, start: nat)
    requires size > 0 && start <= |s|
    ensures forall k :: 0 <= k < |SplitFrom(s, size, start)| ==> |SplitFrom(s, size, start)[k]| <= size
    decreases |s| - start
  {
    if start < |s| {
      SplitFromBounded(s, size, Cut(s, size, start).1);
    }
  }

  /** One pass of the hard-split loop: the next piece and where the one after it starts. */
  method NextPiece(sentence: string, size: int, start: nat) returns (piece: string, next: nat)
    requires size > 0 && start < |sentence|
    ensures start < next <= |sentence|
    ensures SplitFrom(sentence, size, start) == [piece] + SplitFrom(sentence, size, next)
  {
    var end := if start + size < |sentence| then start + size else |sentence|;
    var splitPos := RFind(sentence, ' ', start, end);
    var cut;
    if splitPos != -1 && end < |sentence| {
      cut, next := splitPos, splitPos + 1;
    } else {
      cut, next := end, end;
    }
    assert (cut, next) == Cut(sentence, size, start);
    piece := Strip(sentence[start..cut]);
  }

  /** The `while start < sentence_length` loop of the hard split. */
  method HardSplit(sentence: string, size: int) returns (parts: seq<string>)
    requires size > 0
    ensures parts == SplitFrom(sentence, size, 0)
    ensures forall k :: 0 <= k < |parts| ==> |parts[k]| <= size
  {
    parts := [];
    var start := 0;
    while start < |sentence|
      invariant 0 <= start <= |sentence|
      invariant parts + SplitFrom(sentence, size, start) == SplitFrom(sentence, size, 0)
      decreases |sentence| - start
    {
      var piece, next := NextPiece(sentence, size, start);
      assert parts + [piece] + SplitFrom(sentence, size, next) == parts + ([piece] + SplitFrom(sentence, size, next));
      parts := parts + [piece];
      start := next;
    }
    assert parts + [] == parts;
    SplitFromBounded(sentence, size, 0);
  }

  /** `"".join(parts)` */
  function Flatten(parts: seq<string>): string
  {
    if parts == [] then "" else parts[0] + Flatten(parts[1..])
  }

  /**
   * For a sentence without whitespace the hard split never finds a space
   * and never strips anything: its pieces put back together give the
   * sentence.
   */
  lemma {:induction false} SplitWithoutSpaces(s: string, size: int, start: nat)
    requires size > 0 && start <= |s|
    requires forall c :: c in s ==> !IsSpace(c)
    ensures Flatten(SplitFrom(s, size, start)) == s[start..]
    decreases |s| - start
  {
    if start < |s| {
      var cut := Cut(s, size, start).1;
      CutWithoutSpaces(s, size, start);
      SplitWithoutSpaces(s, size, cut);
      var rest := SplitFrom(s, size, cut);
      var parts := [s[start..cut]] + rest;
      assert SplitFrom(s, size, start) == parts;
      assert parts[0] == s[start..cut] && parts[1..] == rest;
      assert Flatten(parts) == s[start..cut] + Flatten(rest);
      assert s[start..cut] + s[cut..] == s[start..];
    }
  }

  /** For a sentence without whitespace every hard-split piece is non-empty. */
  lemma {:induction false} SplitPiecesNonEmpty(s: string, size: int, start: nat)
    requires size > 0 && start <= |s|
    requires forall c :: c in s ==> !IsSpace(c)
    ensures forall k :: 0 <= k < |SplitFrom(s, size, start)| ==> SplitFrom(s, size, start)[k] != []
    decreases |s| - start
  {
    if start < |s| {
      var cut := Cut(s, size, start).1;
      CutWithoutSpaces(s, size, start);
      SplitPiecesNonEmpty(s, size, cut);
      assert SplitFrom(s, size, start) == [s[start..cut]] + SplitFrom(s, size, cut);
    }
  }

  /** Without whitespace, a window is never cut at a space and its piece is not stripped. */
  lemma CutWithoutSpaces(s: string, size: int, start: nat)
    requires size > 0 && start < |s|
    requires forall c :: c in s ==> !IsSpace(c)
    ensures var (cut, next) := Cut(s, size, start);
      cut == next && Strip(s[start..cut]) == s[start..cut]
  {
    var (cut, next) := Cut(s, size, start);
    assert next == cut by {
      if next != cut { assert s[cut] in s && IsSpace(s[cut]); }
    }
    var piece := s[start..cut];
    assert piece[0] in s && piece[|piece| - 1] in s;
    StripNoop(piece);
  }

  // ---------------------------------------------------------------------------
  // Filters.
  // ---------------------------------------------------------------------------

  /** `[p for p in parts if p]` */
  function KeepNonEmpty(parts: seq<string>): (r: seq<string>)
    ensures forall p :: p in r <==> p in parts && p != []
  {
    if parts == [] then []
    else (if parts[0] != [] then [parts[0]] else []) + KeepNonEmpty(parts[1..])
  }

  /** `[c for c in chunks if c.strip()]` */
  function KeepNonBlank(chunks: seq<string>): (r: seq<string>)
    ensures forall c :: c in r <==> c in chunks && !IsBlank(c)
  {
    if chunks == [] then []
    else (if !IsBlank(chunks[0]) then [chunks[0]] else []) + KeepNonBlank(chunks[1..])
  }

  // ---------------------------------------------------------------------------
  // The main loop, as a fold over the sentences.
  // ---------------------------------------------------------------------------

  /** The loop state: closed chunks, the open chunk's sentences and its running length. */
  datatype Acc = Acc(chunks: seq<string>, cur: seq<string>, curLen: int)

  /** One iteration of the `for sentence in sentences` loop. */
  function Step(acc: Acc, s: string, size: int, overlap: int): Acc
    requires size > 0
  {
    if acc.curLen + |s| <= size then Acc(acc.chunks, acc.cur + [s], acc.curLen + |s|)
    else
      var closed := if acc.cur != [] then acc.chunks + [Join(" ", acc.cur)] else acc.chunks;
      var seed := Seed(acc.cur, overlap);
      if seed == [] && |s| > size then Acc(closed + KeepNonEmpty(SplitFrom(s, size, 0)), [], 0)
      else Acc(closed, seed + [s], SumLen(seed) + |s|)
  }

  /** The loop state after the given sentences. */
  function Run(sentences: seq<string>, size: int, overlap: int): Acc
    requires size > 0
  {
    if sentences == [] then Acc([], [], 0)
    else Step(Run(sentences[..|sentences| - 1], size, overlap), sentences[|sentences| - 1], size, overlap)
  }

  lemma RunSnoc(sentences: seq<string>, i: nat, size: int, overlap: int)
    requires size > 0 && i < |sentences|
    ensures Run(sentences[..i + 1], size, overlap) == Step(Run(sentences[..i], size, overlap), sentences[i], size, overlap)
  {
    assert sentences[..i + 1][..i] == sentences[..i];
  }

  /** The list `chunk_text(text)` returns when `sent_tokenize(text)` is `sentences`. */
  function Chunks(text: string, sentences: seq<string>, size: int, overlap: int): seq<string>
  {
    if text == [] || size <= 0 then []
    else
      var acc := Run(sentences, size, EffectiveOverlap(size, overlap));
      KeepNonBlank(if acc.cur != [] then acc.chunks + [Join(" ", acc.cur)] else acc.chunks)
  }

  /** `chunk_text(text, chunk_size, chunk_overlap)` given the sentences of `text`. */
  method ChunkText(text: string, sentences: seq<string>, chunkSize: int, chunkOverlap: int)
    returns (chunks: seq<string>)
    ensures text == [] || chunkSize <= 0 ==> chunks == []
    ensures forall k :: 0 <= k < |chunks| ==> !IsBlank(chunks[k])
    ensures chunks == Chunks(text, sentences, chunkSize, chunkOverlap)
  {
    if text == [] || chunkSize <= 0 {
      return [];
    }
    var overlap := chunkOverlap;
    if overlap >= chunkSize {
      overlap := chunkSize / 4;
    }
    chunks := [];
    var cur: seq<string> := [];
    var curLen := 0;
    for i := 0 to |sentences|
      invariant Acc(chunks, cur, curLen) == Run(sentences[..i], chunkSize, overlap)
    {
      RunSnoc(sentences, i, chunkSize, overlap);
      var sentence := sentences[i];
      var sentenceLen := |sentence|;
      if curLen + sentenceLen <= chunkSize {
        cur := cur + [sentence];
        curLen := curLen + sentenceLen;
      } else {
        if cur != [] {
          chunks := chunks + [Join(" ", cur)];
        }
        var seed, seedLen := OverlapSeed(cur, overlap);
        cur := seed + [sentence];
        curLen := seedLen + sentenceLen;
        if seed == [] && sentenceLen > chunkSize {
          var parts := HardSplit(sentence, chunkSize);
          chunks := chunks + KeepNonEmpty(parts);
          cur := [];
          curLen := 0;
        }
      }
    }
    assert sentences[..|sentences|] == sentences;
    if cur != [] {
      chunks := chunks + [Join(" ", cur)];
    }
    chunks := KeepNonBlank(chunks);
  }

  // ---------------------------------------------------------------------------
  // Properties of the loop.
  // ---------------------------------------------------------------------------

  /** The running length always equals the total length of the open chunk's sentences. */
  predicate Tracked(acc: Acc) {
    acc.curLen == SumLen(acc.cur)
  }

  lemma SumLenSingle(s: string)
    ensures SumLen([s]) == |s|
  {
    assert [s][..0] == [];
  }

  /**
   * The fit check: a sentence is appended to the open chunk, with no chunk
   * emitted, exactly when the running length plus the sentence's length
   * stays within the size.
   */
  lemma FitCheck(acc: Acc, s: string, size: int, overlap: int)
    requires size > 0 && Tracked(acc)
    ensures var next := Step(acc, s, size, overlap);
      (next.chunks == acc.chunks && next.cur == acc.cur + [s]) <==> acc.curLen + |s| <= size
  {
    var next := Step(acc, s, size, overlap);
    if acc.curLen + |s| > size && acc.cur != [] {
      assert |next.chunks| > |acc.chunks|;
    }
  }

  /**
   * What closing a chunk leaves open: the overlap seed (a suffix of the
   * closed chunk within the overlap budget) followed by the new sentence,
   * or, when there is no seed and the sentence is too long, nothing at all,
   * after appending hard-split pieces that each fit the size.
   */
  lemma CloseStep(acc: Acc, s: string, size: int, overlap: int)
    requires size > 0 && Tracked(acc) && acc.curLen + |s| > size
    ensures var next := Step(acc, s, size, overlap);
      var emitted := if acc.cur != [] then [Join(" ", acc.cur)] else [];
      && next.chunks[..|acc.chunks| + |emitted|] == acc.chunks + emitted
      && Tracked(next)
      && (next.cur == [] ||
          (var seed := next.cur[..|next.cur| - 1];
           && next.cur[|next.cur| - 1] == s
           && |seed| <= |acc.cur| && seed == acc.cur[|acc.cur| - |seed|..]
           && (seed != [] ==> SumLen(seed) <= overlap)))
      && (next.cur == [] ==> |s| > size && forall k :: |acc.chunks| + |emitted| <= k < |next.chunks| ==> |next.chunks[k]| <= size)
      && (next.cur == [] <==> Seed(acc.cur, overlap) == [] && |s| > size)
      && (next.cur == [] ==> next.curLen == 0)
      && (next.cur != [] ==> next.cur == Seed(acc.cur, overlap) + [s])
  {
    if Seed(acc.cur, overlap) == [] && |s| > size {
      CloseWithSplit(acc, s, size, overlap);
    } else {
      CloseWithSeed(acc, s, size, overlap);
    }
  }

  /** The closing branch without a seed and with a too-long sentence. */
  lemma CloseWithSplit(acc: Acc, s: string, size: int, overlap: int)
    requires size > 0 && acc.curLen + |s| > size
    requires Seed(acc.cur, overlap) == [] && |s| > size
    ensures var next := Step(acc, s, size, overlap);
      var closed := if acc.cur != [] then acc.chunks + [Join(" ", acc.cur)] else acc.chunks;
      && next.cur == [] && next.curLen == 0
      && next.chunks[..|closed|] == closed
      && forall k :: |closed| <= k < |next.chunks| ==> |next.chunks[k]| <= size
  {
    var next := Step(acc, s, size, overlap);
    var closed := if acc.cur != [] then acc.chunks + [Join(" ", acc.cur)] else acc.chunks;
    var pieces := KeepNonEmpty(SplitFrom(s, size, 0));
    SplitFromBounded(s, size, 0);
    assert next == Acc(closed + pieces, [], 0);
    forall k | |closed| <= k < |next.chunks| ensures |next.chunks[k]| <= size {
      assert next.chunks[k] in pieces;
    }
  }

  /** The closing branch that opens the seed followed by the sentence. */
  lemma CloseWithSeed(acc: Acc, s: string, size: int, overlap: int)
    requires size > 0 && Tracked(acc) && acc.curLen + |s| > size
    requires !(Seed(acc.cur, overlap) == [] && |s| > size)
    ensures var next := Step(acc, s, size, overlap);
      var seed := Seed(acc.cur, overlap);
      && next.chunks == (if acc.cur != [] then acc.chunks + [Join(" ", acc.cur)] else acc.chunks)
      && next.cur == seed + [s] && Tracked(next)
      && next.cur[..|next.cur| - 1] == seed && next.cur[|next.cur| - 1] == s
      && |seed| <= |acc.cur| && seed == acc.cur[|acc.cur| - |seed|..]
      && (seed != [] ==> SumLen(seed) <= overlap)
  {
    var next := Step(acc, s, size, overlap);
    var seed := Seed(acc.cur, overlap);
    assert next.cur == seed + [s];
    SeedSpec(acc.cur, overlap);
    assert next.cur[..|next.cur| - 1] == seed;
    SumLenConcat(seed, [s]);
    SumLenSingle(s);
  }

  /**
   * The open chunk exceeds the size only when it is a non-empty overlap
   * seed, itself within the overlap budget, followed by the one sentence
   * that closed the previous chunk.
   */
  lemma {:induction false} OpenChunkBound(sentences: seq<string>, size: int, overlap: int)
    requires size > 0
    ensures var acc := Run(sentences, size, overlap);
      && Tracked(acc)
      && (acc.curLen <= size || (|acc.cur| >= 2 && SumLen(acc.cur[..|acc.cur| - 1]) <= overlap))
    decreases |sentences|
  {
    if sentences != [] {
      var prev := Run(sentences[..|sentences| - 1], size, overlap);
      var s := sentences[|sentences| - 1];
      OpenChunkBound(sentences[..|sentences| - 1], size, overlap);
      var acc := Step(prev, s, size, overlap);
      if prev.curLen + |s| <= size {
        assert acc.cur[..|acc.cur| - 1] == prev.cur;
      } else {
        CloseStep(prev, s, size, overlap);
        var seed := Seed(prev.cur, overlap);
        if !(seed == [] && |s| > size) && seed != [] {
          assert acc.cur[..|acc.cur| - 1] == seed;
        }
      }
    }
  }

  /** When every sentence fits, the loop never closes a chunk. */
  lemma {:induction false} RunWithinSize(sentences: seq<string>, size: int, overlap: int)
    requires size > 0 && SumLen(sentences) <= size
    ensures Run(sentences, size, overlap) == Acc([], sentences, SumLen(sentences))
    decreases |sentences|
  {
    if sentences != [] {
      var front := sentences[..|sentences| - 1];
      RunWithinSize(front, size, overlap);
      assert front + [sentences[|sentences| - 1]] == sentences;
    }
  }

  /**
   * Text whose sentences add up to at most the size becomes the single
   * chunk `" ".join(sentences)`, unless that is blank.
   */
  lemma SmallTextSingleChunk(text: string, sentences: seq<string>, size: int, overlap: int)
    requires text != [] && size > 0 && SumLen(sentences) <= size
    ensures var joined := Join(" ", sentences);
      Chunks(text, sentences, size, overlap) == if IsBlank(joined) then [] else [joined]
  {
    RunWithinSize(sentences, size, EffectiveOverlap(size, overlap));
    var joined := Join(" ", sentences);
    if sentences == [] {
      assert KeepNonBlank([]) == [];
    } else {
      assert [] + [joined] == [joined];
      assert KeepNonBlank([joined]) == (if IsBlank(joined) then [] else [joined]) by {
        assert [joined][1..] == [];
      }
    }
  }

  /**
   * The size bounds the sum of sentence lengths, not the chunk: two
   * one-character sentences fit a size of 2 and give one chunk of 3.
   */
  lemma JoiningSpacesExceedSize()
    ensures Chunks("a a", ["a", "a"], 2, 1) == ["a a"]
    ensures |"a a"| > 2
  {
    var ss := ["a", "a"];
    assert ss[..1] == ["a"] && ss[..1][..0] == [];
    assert SumLen(ss) == 2;
    SmallTextSingleChunk("a a", ss, 2, 1);
    assert Join(" ", ss) == "a a" by {
      assert Join(" ", ss[..1]) == "a";
    }
    assert !IsBlank("a a") by {
      assert !IsSpace("a a"[0]);
    }
  }

  /** The loop state of the example below after its two sentences. */
  lemma SeedExampleRun()
    ensures Run(["a", "bbb"], 3, 1) == Acc(["a"], ["a", "bbb"], 4)
  {
    var ss := ["a", "bbb"];
    assert ss[..1] == ["a"] && ss[..1][..0] == [];
    var first := Run(ss[..1], 3, 1);
    assert first == Acc([], ["a"], 1) by {
      assert Run([], 3, 1) == Acc([], [], 0);
      assert [] + ["a"] == ["a"];
    }
    assert SeedCount(["a"], 1) == 1 by {
      assert ["a"][..0] == [];
    }
    assert Seed(["a"], 1) == ["a"];
    SumLenSingle("a");
    assert Join(" ", ["a"]) == "a";
    assert [] + ["a"] == ["a"];
  }

  lemma JoinExample()
    ensures Join(" ", ["a", "bbb"]) == "a bbb"
  {
    var cur := ["a", "bbb"];
    assert cur[..1] == ["a"];
    assert Join(" ", cur[..1]) == "a";
  }

  /**
   * An overlap seed plus the sentence that closed the chunk can exceed the
   * size: with size 3 and overlap 1, "a" is carried into the next chunk in
   * front of a three-character sentence, and that chunk has 5 characters.
   */
  lemma SeedPlusSentenceExceedsSize()
    ensures Chunks("a bbb", ["a", "bbb"], 3, 1) == ["a", "a bbb"]
    ensures |"a bbb"| > 3
  {
    SeedExampleChunks();
    SeedExampleNonBlank();
  }

  lemma SeedExampleChunks()
    ensures Chunks("a bbb", ["a", "bbb"], 3, 1) == KeepNonBlank(["a", "a bbb"])
  {
    assert EffectiveOverlap(3, 1) == 1;
    SeedExampleRun();
    ChunksOfRun("a bbb", ["a", "bbb"], 3, 1, Acc(["a"], ["a", "bbb"], 4));
    JoinExample();
    assert ["a"] + [Join(" ", ["a", "bbb"])] == ["a", "a bbb"];
  }

  lemma ChunksOfRun(text: string, sentences: seq<string>, size: int, overlap: int, acc: Acc)
    requires text != [] && size > 0 && acc.cur != []
    requires Run(sentences, size, EffectiveOverlap(size, overlap)) == acc
    ensures Chunks(text, sentences, size, overlap) == KeepNonBlank(acc.chunks + [Join(" ", acc.cur)])
  {
  }

  lemma SeedExampleNonBlank()
    ensures KeepNonBlank(["a", "a bbb"]) == ["a", "a bbb"]
  {
    var all := ["a", "a bbb"];
    assert !IsBlank(all[0]) by { assert !IsSpace(all[0][0]); }
    assert !IsBlank(all[1]) by { assert !IsSpace(all[1][0]); }
    assert all[1..] == ["a bbb"] && all[1..][1..] == [];
    assert KeepNonBlank(all[1..]) == ["a bbb"];
  }
}
