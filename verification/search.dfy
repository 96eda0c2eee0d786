/**
 * `retrieve_context`: load the session's index, search it for the question,
 * and turn the id slots the search returns into the stored chunks, in the
 * order the search ranked them. The embedding model and the nearest-
 * neighbour search are collaborators: what they return (or that they
 * raise) is an input.
 */
module Search {
  import opened Maybe
  import opened Models
  import opened Indexer

  /**
   * What embedding the question and searching the index gave: the query
   * embedding raised, the search raised, or the row of `top_k` id slots,
   * best first, padded with -1 when the index has fewer vectors.
   */
  datatype SearchOutcome = EmbedFails | SearchFails | Found(ids: seq<int>)

  /** The FAISS id used for an empty slot. */
  const Sentinel: int := -1

  /**
   * What one slot contributes: nothing for the sentinel, an id the mapping
   * lacks or maps to the empty string, or a chunk id with no stored
   * details; otherwise the stored chunk.
   */
  function ResolveSlot(id: int, idMap: map<int, string>, details: map<string, map<string, DocumentChunk>>, sessionId: string): (r: seq<DocumentChunk>)
    ensures |r| <= 1
    ensures r != [] <==> id != Sentinel && id in idMap && idMap[id] != "" && ChunkDetails(details, sessionId, idMap[id]).Some?
    ensures r != [] ==> r[0] == details[sessionId][idMap[id]]
  {
    if id == Sentinel || id !in idMap || idMap[id] == "" then []
    else
      match ChunkDetails(details, sessionId, idMap[id])
      case None => []
      case Some(chunk) => [chunk]
  }

  /** The resolution walk over the slots, in order. */
  function Resolve(ids: seq<int>, idMap: map<int, string>, details: map<string, map<string, DocumentChunk>>, sessionId: string): seq<DocumentChunk>
  {
    if ids == [] then []
    else Resolve(ids[..|ids| - 1], idMap, details, sessionId) + ResolveSlot(ids[|ids| - 1], idMap, details, sessionId)
  }

  /**
   * The chunks `retrieve_context` returns for a disk, a detail store and
   * a search outcome.
   */
  function Retrieve(disk: Disk, details: map<string, map<string, DocumentChunk>>, sessionId: string, outcome: SearchOutcome): (r: seq<DocumentChunk>)
    ensures Load(disk, sessionId).None? ==> r == []
    ensures Load(disk, sessionId).Some? && |Load(disk, sessionId).value.vectors| == 0 ==> r == []
    ensures !outcome.Found? ==> r == []
  {
    match Load(disk, sessionId)
    case None => []
    case Some(index) =>
      if |index.vectors| == 0 then []
      else
        match outcome
        case EmbedFails => []
        case SearchFails => []
        case Found(ids) => Resolve(ids, index.idMap, details, sessionId)
  }

  /** The resolution of a concatenation is the concatenation of the resolutions: order is kept. */
  lemma {:induction false} ResolveAppend(a: seq<int>, b: seq<int>, idMap: map<int, string>, details: map<string, map<string, DocumentChunk>>, sessionId: string)
    ensures Resolve(a + b, idMap, details, sessionId) == Resolve(a, idMap, details, sessionId) + Resolve(b, idMap, details, sessionId)
    decreases |b|
  {
    if b == [] {
      assert a + b == a;
    } else {
      var b' := b[..|b| - 1];
      assert (a + b)[..|a + b| - 1] == a + b';
      ResolveAppend(a, b', idMap, details, sessionId);
    }
  }

  /** At most one chunk per slot. */
  lemma {:induction false} ResolveLength(ids: seq<int>, idMap: map<int, string>, details: map<string, map<string, DocumentChunk>>, sessionId: string)
    ensures |Resolve(ids, idMap, details, sessionId)| <= |ids|
    decreases |ids|
  {
    if ids != [] {
      ResolveLength(ids[..|ids| - 1], idMap, details, sessionId);
    }
  }

  /** Slot `id` leads, through the mapping and the detail store, to chunk `c`. */
  predicate Yields(id: int, idMap: map<int, string>, details: map<string, map<string, DocumentChunk>>, sessionId: string, c: DocumentChunk)
  {
    && id != Sentinel && id in idMap && idMap[id] != ""
    && sessionId in details && idMap[id] in details[sessionId] && c == details[sessionId][idMap[id]]
  }

  /** Every returned chunk is the stored chunk for the chunk id some non-sentinel slot maps to. */
  lemma {:induction false} ResolveSound(ids: seq<int>, idMap: map<int, string>, details: map<string, map<string, DocumentChunk>>, sessionId: string)
    ensures forall c :: c in Resolve(ids, idMap, details, sessionId) ==>
      exists i :: 0 <= i < |ids| && Yields(ids[i], idMap, details, sessionId, c)
    decreases |ids|
  {
    if ids != [] {
      var front := ids[..|ids| - 1];
      ResolveSound(front, idMap, details, sessionId);
      forall c | c in Resolve(ids, idMap, details, sessionId)
        ensures exists i :: 0 <= i < |ids| && Yields(ids[i], idMap, details, sessionId, c)
      {
        if c in Resolve(front, idMap, details, sessionId) {
          var i :| 0 <= i < |front| && Yields(front[i], idMap, details, sessionId, c);
          assert ids[i] == front[i];
        } else {
          assert c in ResolveSlot(ids[|ids| - 1], idMap, details, sessionId);
          assert Yields(ids[|ids| - 1], idMap, details, sessionId, c);
        }
      }
    }
  }

  /** A slot that leads to a stored chunk always contributes that chunk. */
  lemma ResolveComplete(ids: seq<int>, k: int, idMap: map<int, string>, details: map<string, map<string, DocumentChunk>>, sessionId: string, c: DocumentChunk)
    requires 0 <= k < |ids| && Yields(ids[k], idMap, details, sessionId, c)
    ensures c in Resolve(ids, idMap, details, sessionId)
  {
    assert ids == ids[..k] + [ids[k]] + ids[k + 1..];
    ResolveAppend(ids[..k] + [ids[k]], ids[k + 1..], idMap, details, sessionId);
    ResolveAppend(ids[..k], [ids[k]], idMap, details, sessionId);
    assert Resolve([ids[k]], idMap, details, sessionId) == ResolveSlot(ids[k], idMap, details, sessionId) by {
      assert [ids[k]][..0] == [];
    }
  }

  /** A row of sentinels only (an index searched for more than it holds, and nothing found) gives nothing. */
  lemma {:induction false} ResolveAllSentinels(ids: seq<int>, idMap: map<int, string>, details: map<string, map<string, DocumentChunk>>, sessionId: string)
    requires forall i :: 0 <= i < |ids| ==> ids[i] == Sentinel
    ensures Resolve(ids, idMap, details, sessionId) == []
    decreases |ids|
  {
    if ids != [] {
      ResolveAllSentinels(ids[..|ids| - 1], idMap, details, sessionId);
    }
  }

  /** The search returns `top_k` slots, so at most `top_k` chunks come back. */
  lemma RetrieveAtMostTopK(disk: Disk, details: map<string, map<string, DocumentChunk>>, sessionId: string, outcome: SearchOutcome, topK: nat)
    requires outcome.Found? ==> |outcome.ids| == topK
    ensures |Retrieve(disk, details, sessionId, outcome)| <= topK
  {
    if outcome.Found? && Load(disk, sessionId).Some? {
      ResolveLength(outcome.ids, Load(disk, sessionId).value.idMap, details, sessionId);
    }
  }

  /**
   * `retrieve_context` over the store: reads the disk and the detail
   * store and changes neither.
   */
  method RetrieveContext(store: IndexStore, sessionId: string, outcome: SearchOutcome) returns (chunks: seq<DocumentChunk>)
    ensures chunks == Retrieve(store.disk, store.details, sessionId, outcome)
  {
    var loaded := Load(store.disk, sessionId);
    if loaded.None? {
      return [];
    }
    var index := loaded.value;
    if |index.vectors| == 0 {
      return [];
    }
    if !outcome.Found? {
      return [];
    }
    var ids := outcome.ids;
    chunks := [];
    for i := 0 to |ids|
      invariant chunks == Resolve(ids[..i], index.idMap, store.details, sessionId)
    {
      assert ids[..i + 1][..i] == ids[..i];
      var id := ids[i];
      if id == Sentinel {
        continue;
      }
      if id in index.idMap && index.idMap[id] != "" {
        var detail := store.GetChunkDetails(sessionId, index.idMap[id]);
        if detail.Some? {
          chunks := chunks + [detail.value];
        }
      }
    }
    assert ids[..|ids|] == ids;
  }
}
