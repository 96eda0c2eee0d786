/**
 * The per-session vector index store: a registry of session locks, the
 * in-memory detail store (session -> chunk id -> chunk) and the two files
 * each session keeps on disk, the vector index and the id -> chunk-id
 * mapping. The embedding model is a collaborator: the vectors it returns
 * (or its failure) are an input of `IndexContent`.
 */
module Indexer {
  import opened Maybe
  import opened Models
  import Decimal

  /** An embedding vector, treated as an opaque value. */
  datatype Embedding = Embedding(components: seq<real>)

  /**
   * The disk as seen by the index store: vector index files and mapping
   * files, each keyed by path. A mapping file is a JSON object, so its keys
   * are strings.
   */
  datatype Disk = Disk(vectors: map<string, seq<Embedding>>, mappings: map<string, map<string, string>>)

  /** An index in memory: its vectors (position = dense id) and the id -> chunk-id map. */
  datatype Index = Index(vectors: seq<Embedding>, idMap: map<int, string>)

  /**
   * Where writing the two files of a session can fail: before the file is
   * opened for writing (the old file stays), or after it was truncated
   * (what is left cannot be read back).
   */
  datatype SaveFault = NoSaveFault | IndexOpenFails | IndexWriteFails | MappingOpenFails | MappingWriteFails

  /** Where removing the two files of a session can fail. */
  datatype RemoveFault = NoRemoveFault | IndexRemoveFails | MappingRemoveFails

  /** The configured index directory (the project-root prefix is not modelled). */
  const IndexDir: string := "data/index_store"

  // ---------------------------------------------------------------------------
  // Paths.
  // ---------------------------------------------------------------------------

  /** `os.path.join(dir, name)`: an absolute `name` replaces the directory. */
  function JoinPath(dir: string, name: string): string
  {
    if |name| > 0 && name[0] == '/' then name else dir + "/" + name
  }

  function IndexPath(sessionId: string): string
  {
    JoinPath(IndexDir, sessionId + ".faiss")
  }

  function MappingPath(sessionId: string): string
  {
    JoinPath(IndexDir, sessionId + ".json")
  }

  /**
   * A session's index file and mapping file are different paths, and no
   * session's index file is another session's mapping file.
   */
  lemma IndexAndMappingPathsDiffer(s1: string, s2: string)
    ensures IndexPath(s1) != MappingPath(s2)
  {
    var p1, p2 := IndexPath(s1), MappingPath(s2);
    assert p1[|p1| - 1] == 's';
    assert p2[|p2| - 1] == 'n';
  }

  /** Two relative session ids with the same index file are the same id. */
  lemma IndexPathInjective(s1: string, s2: string)
    requires |s1| > 0 && s1[0] != '/' && |s2| > 0 && s2[0] != '/'
    requires IndexPath(s1) == IndexPath(s2)
    ensures s1 == s2
  {
    var pre := IndexDir + "/";
    assert IndexPath(s1) == pre + s1 + ".faiss" && IndexPath(s2) == pre + s2 + ".faiss";
    assert |s1| == |s2|;
    assert s1 == IndexPath(s1)[|pre|..|pre| + |s1|];
  }

  // ---------------------------------------------------------------------------
  // The mapping file: integer ids written as decimal strings and read back.
  // ---------------------------------------------------------------------------

  /** `f` sends different keys of `m` to different values. */
  predicate InjectiveOn<K(==), L(==), V>(m: map<K, V>, f: K -> L) {
    forall k1, k2 :: k1 in m && k2 in m && f(k1) == f(k2) ==> k1 == k2
  }

  /** The dictionary comprehension `{f(k): v for k, v in m.items()}` for an `f` that loses no key. */
  function ReKey<K(==), L(==), V>(m: map<K, V>, f: K -> L): (r: map<L, V>)
    requires InjectiveOn(m, f)
    ensures forall k :: k in m ==> f(k) in r && r[f(k)] == m[k]
    ensures forall l :: l in r ==> exists k :: k in m && f(k) == l
  {
    map k | k in m :: f(k) := m[k]
  }

  /** Re-keying with `f` and then with a left inverse `g` of `f` gives the map back. */
  lemma ReKeyRoundTrip<K, L, V>(m: map<K, V>, f: K -> L, g: L -> K)
    requires forall k :: k in m ==> g(f(k)) == k
    ensures InjectiveOn(m, f)
    ensures InjectiveOn(ReKey(m, f), g) && ReKey(ReKey(m, f), g) == m
  {
    var e := ReKey(m, f);
    assert InjectiveOn(e, g) by {
      forall l1, l2 | l1 in e && l2 in e && g(l1) == g(l2) ensures l1 == l2 {
        var k1 :| k1 in m && f(k1) == l1;
        var k2 :| k2 in m && f(k2) == l2;
      }
    }
    var d := ReKey(e, g);
    forall k | k in m ensures k in d && d[k] == m[k] {
      assert f(k) in e;
    }
    forall j | j in d ensures j in m {
      var l :| l in e && g(l) == j;
      var k :| k in m && f(k) == l;
    }
    assert d == m;
  }

  /** `int(s)` on a key known to read back; 0 stands in for the keys that do not. */
  function ParseKey(s: string): int {
    Decimal.Parse(s).GetOr(0)
  }

  /** Every key of the file reads back as an integer. */
  predicate AllKeysParse(ms: map<string, string>)
  {
    forall s :: s in ms ==> Decimal.Parse(s).Some?
  }

  /** `str(k)` never gives the same text for two ids. */
  lemma ShowInjectiveOn(m: map<int, string>)
    ensures InjectiveOn(m, Decimal.Show)
  {
    forall k1, k2 | k1 in m && k2 in m && Decimal.Show(k1) == Decimal.Show(k2) ensures k1 == k2 {
      Decimal.ShowInjective(k1, k2);
    }
  }

  /** Keys that read back as the same integer are the same text. */
  lemma ParseKeyInjectiveOn(ms: map<string, string>)
    requires AllKeysParse(ms)
    ensures InjectiveOn(ms, ParseKey)
  {
    forall s1, s2 | s1 in ms && s2 in ms && ParseKey(s1) == ParseKey(s2) ensures s1 == s2 {
      Decimal.ShowParse(s1);
      Decimal.ShowParse(s2);
    }
  }

  /** `{str(k): v for k, v in m.items()}`: the mapping as the JSON file holds it. */
  function EncodeMapping(m: map<int, string>): (r: map<string, string>)
    ensures forall k :: k in m ==> Decimal.Show(k) in r && r[Decimal.Show(k)] == m[k]
    ensures forall s :: s in r ==> exists k :: k in m && Decimal.Show(k) == s
  {
    ShowInjectiveOn(m);
    ReKey(m, Decimal.Show)
  }

  /** `{int(k): v for k, v in ms.items()}`, or `None` when some `int(k)` raises. */
  function DecodeMapping(ms: map<string, string>): (r: Option<map<int, string>>)
    ensures r.Some? <==> AllKeysParse(ms)
    ensures r.Some? ==> forall s :: s in ms ==> Decimal.Parse(s).value in r.value && r.value[Decimal.Parse(s).value] == ms[s]
  {
    if AllKeysParse(ms) then
      ParseKeyInjectiveOn(ms);
      Some(ReKey(ms, ParseKey))
    else None
  }

  /** Writing the mapping and reading it back gives the same map. */
  lemma MappingRoundTrip(m: map<int, string>)
    ensures DecodeMapping(EncodeMapping(m)) == Some(m)
  {
    forall k | k in m ensures ParseKey(Decimal.Show(k)) == k {
      Decimal.ParseShow(k);
    }
    ReKeyRoundTrip(m, Decimal.Show, ParseKey);
    var e := EncodeMapping(m);
    assert AllKeysParse(e) by {
      forall s | s in e ensures Decimal.Parse(s).Some? {
        var k :| k in m && Decimal.Show(k) == s;
        Decimal.ParseShow(k);
      }
    }
  }

  // ---------------------------------------------------------------------------
  // Load, save and remove, as functions of the disk.
  // ---------------------------------------------------------------------------

  /**
   * `_load_faiss_index`: absent when either file is missing or the mapping
   * has a key that does not read back as an integer. The number of vectors
   * and the number of map entries are not compared.
   */
  function Load(disk: Disk, sessionId: string): (r: Option<Index>)
    ensures IndexPath(sessionId) !in disk.vectors || MappingPath(sessionId) !in disk.mappings ==> r.None?
    ensures r.Some? ==> r.value.vectors == disk.vectors[IndexPath(sessionId)]
    ensures r.Some? ==> DecodeMapping(disk.mappings[MappingPath(sessionId)]) == Some(r.value.idMap)
  {
    var ip, mp := IndexPath(sessionId), MappingPath(sessionId);
    if ip !in disk.vectors || mp !in disk.mappings then None
    else
      match DecodeMapping(disk.mappings[mp])
      case None => None
      case Some(m) => Some(Index(disk.vectors[ip], m))
  }

  /**
   * `_save_faiss_index`: the index file is written first, then the mapping
   * file, and the error of a failing write is swallowed. A file that could
   * not be opened stays as it was, and the later file is not written. A
   * file truncated by a write that then fails holds something no reader
   * accepts; it is modelled as a missing file, which `Load`, a later save
   * and the removal treat alike.
   */
  function Save(disk: Disk, sessionId: string, index: Index, fault: SaveFault): (r: Disk)
    ensures fault == IndexOpenFails ==> r == disk
    ensures fault == IndexWriteFails ==> r == disk.(vectors := disk.vectors - {IndexPath(sessionId)})
    ensures fault in {NoSaveFault, MappingOpenFails, MappingWriteFails} ==> r.vectors == disk.vectors[IndexPath(sessionId) := index.vectors]
    ensures fault == MappingOpenFails ==> r.mappings == disk.mappings
    ensures fault == MappingWriteFails ==> r.mappings == disk.mappings - {MappingPath(sessionId)}
    ensures fault == NoSaveFault ==> r.mappings == disk.mappings[MappingPath(sessionId) := EncodeMapping(index.idMap)]
  {
    var ip, mp := IndexPath(sessionId), MappingPath(sessionId);
    match fault
    case IndexOpenFails => disk
    case IndexWriteFails => disk.(vectors := disk.vectors - {ip})
    case MappingOpenFails => disk.(vectors := disk.vectors[ip := index.vectors])
    case MappingWriteFails => Disk(disk.vectors[ip := index.vectors], disk.mappings - {mp})
    case NoSaveFault => Disk(disk.vectors[ip := index.vectors], disk.mappings[mp := EncodeMapping(index.idMap)])
  }

  /**
   * What loads after a failing save: the old index when the index file
   * could not be opened, nothing after a write that truncated a file, and
   * the new vectors with the old mapping file, if there is a readable one,
   * when only the mapping file could not be opened.
   */
  lemma SaveFaultThenLoad(disk: Disk, sessionId: string, index: Index, fault: SaveFault)
    ensures fault == IndexOpenFails ==> Load(Save(disk, sessionId, index, fault), sessionId) == Load(disk, sessionId)
    ensures fault == IndexWriteFails || fault == MappingWriteFails ==> Load(Save(disk, sessionId, index, fault), sessionId) == None
    ensures fault == MappingOpenFails ==>
      var prior := if MappingPath(sessionId) in disk.mappings then DecodeMapping(disk.mappings[MappingPath(sessionId)]) else None;
      Load(Save(disk, sessionId, index, fault), sessionId) == (if prior.Some? then Some(Index(index.vectors, prior.value)) else None)
  {
  }

  /** Loading what was saved without a fault gives back the saved index. */
  lemma SaveThenLoad(disk: Disk, sessionId: string, index: Index)
    ensures Load(Save(disk, sessionId, index, NoSaveFault), sessionId) == Some(index)
  {
    var ip, mp := IndexPath(sessionId), MappingPath(sessionId);
    var saved := Save(disk, sessionId, index, NoSaveFault);
    assert ip in saved.vectors && saved.vectors[ip] == index.vectors;
    assert mp in saved.mappings && saved.mappings[mp] == EncodeMapping(index.idMap);
    MappingRoundTrip(index.idMap);
  }

  /** Saving one session's files does not change what another session loads. */
  lemma SaveKeepsOtherSessions(disk: Disk, s: string, other: string, index: Index, fault: SaveFault)
    requires IndexPath(s) != IndexPath(other) && MappingPath(s) != MappingPath(other)
    ensures Load(Save(disk, s, index, fault), other) == Load(disk, other)
  {
  }

  /**
   * The file removal of `clear_session_data`: each existing file is removed
   * in turn; a failing removal ends the removal and the error is swallowed.
   */
  function RemoveFiles(disk: Disk, sessionId: string, fault: RemoveFault): (r: Disk)
    ensures fault == NoRemoveFault ==> IndexPath(sessionId) !in r.vectors && MappingPath(sessionId) !in r.mappings
    ensures fault == IndexRemoveFails ==> r == disk
    ensures r.vectors.Keys <= disk.vectors.Keys && r.mappings.Keys <= disk.mappings.Keys
    ensures forall p :: p in r.vectors ==> r.vectors[p] == disk.vectors[p]
    ensures forall p :: p in r.mappings ==> r.mappings[p] == disk.mappings[p]
    ensures forall p :: p in disk.vectors && p != IndexPath(sessionId) ==> p in r.vectors
    ensures forall p :: p in disk.mappings && p != MappingPath(sessionId) ==> p in r.mappings
  {
    match fault
    case IndexRemoveFails => disk
    case MappingRemoveFails => disk.(vectors := disk.vectors - {IndexPath(sessionId)})
    case NoRemoveFault =>
      Disk(disk.vectors - {IndexPath(sessionId)}, disk.mappings - {MappingPath(sessionId)})
  }

  /** After a clean removal nothing loads for the session. */
  lemma RemoveThenLoad(disk: Disk, sessionId: string)
    ensures Load(RemoveFiles(disk, sessionId, NoRemoveFault), sessionId) == None
  {
  }

  /** Removing twice is removing once. */
  lemma RemoveFilesIdempotent(disk: Disk, sessionId: string)
    ensures RemoveFiles(RemoveFiles(disk, sessionId, NoRemoveFault), sessionId, NoRemoveFault)
         == RemoveFiles(disk, sessionId, NoRemoveFault)
  {
  }

  // ---------------------------------------------------------------------------
  // Adding a batch: dense ids, the mapping and the detail store.
  // ---------------------------------------------------------------------------

  /** The keys of `m` are exactly the ids `0 .. n - 1`. */
  ghost predicate DenseKeys(m: map<int, string>, n: int)
  {
    forall k :: k in m <==> 0 <= k < n
  }

  /** The chunk ids of a batch. */
  function ChunkIds(chunks: seq<DocumentChunk>): set<string>
  {
    set i | 0 <= i < |chunks| :: chunks[i].chunkId
  }

  /** No two chunks of the batch share a chunk id (each id is a fresh uuid4). */
  predicate DistinctIds(chunks: seq<DocumentChunk>)
  {
    forall i, j :: 0 <= i < j < |chunks| ==> chunks[i].chunkId != chunks[j].chunkId
  }

  /** `id_to_chunk_id_map[next_id + i] = chunk.chunk_id` for the chunks in order. */
  function AddIds(m: map<int, string>, next: int, chunks: seq<DocumentChunk>): map<int, string>
  {
    if chunks == [] then m
    else AddIds(m, next, chunks[..|chunks| - 1])[next + |chunks| - 1 := chunks[|chunks| - 1].chunkId]
  }

  /**
   * Chunk `i` of the batch is mapped from dense id `next + i`; every other
   * key keeps its entry.
   */
  lemma {:induction false} AddIdsSpec(m: map<int, string>, next: int, chunks: seq<DocumentChunk>)
    ensures forall k :: k in AddIds(m, next, chunks) <==> k in m || next <= k < next + |chunks|
    ensures forall i :: 0 <= i < |chunks| ==> AddIds(m, next, chunks)[next + i] == chunks[i].chunkId
    ensures forall k :: k in m && !(next <= k < next + |chunks|) ==> AddIds(m, next, chunks)[k] == m[k]
    decreases |chunks|
  {
    if chunks != [] {
      var front := chunks[..|chunks| - 1];
      AddIdsSpec(m, next, front);
      assert forall i :: 0 <= i < |front| ==> front[i] == chunks[i];
    }
  }

  /** The ids of a batch are those of all but its last chunk, plus the last one's. */
  lemma ChunkIdsSnoc(chunks: seq<DocumentChunk>)
    requires chunks != []
    ensures ChunkIds(chunks) == ChunkIds(chunks[..|chunks| - 1]) + {chunks[|chunks| - 1].chunkId}
  {
    var front := chunks[..|chunks| - 1];
    forall c | c in ChunkIds(chunks) ensures c in ChunkIds(front) + {chunks[|chunks| - 1].chunkId} {
      var i :| 0 <= i < |chunks| && chunks[i].chunkId == c;
      if i < |front| { assert front[i].chunkId == c; }
    }
    forall c | c in ChunkIds(front) ensures c in ChunkIds(chunks) {
      var i :| 0 <= i < |front| && front[i].chunkId == c;
      assert chunks[i].chunkId == c;
    }
  }

  /** `CHUNK_DETAIL_STORE[session_id][chunk.chunk_id] = chunk` for the chunks in order. */
  function AddDetails(d: map<string, DocumentChunk>, chunks: seq<DocumentChunk>): map<string, DocumentChunk>
  {
    if chunks == [] then d
    else AddDetails(d, chunks[..|chunks| - 1])[chunks[|chunks| - 1].chunkId := chunks[|chunks| - 1]]
  }

  /** After the batch the detail store's keys are its old keys and the batch's chunk ids. */
  lemma {:induction false} AddDetailsKeys(d: map<string, DocumentChunk>, chunks: seq<DocumentChunk>)
    ensures AddDetails(d, chunks).Keys == d.Keys + ChunkIds(chunks)
    decreases |chunks|
  {
    if chunks != [] {
      AddDetailsKeys(d, chunks[..|chunks| - 1]);
      ChunkIdsSnoc(chunks);
    }
  }

  /** An entry the batch does not name keeps its chunk. */
  lemma {:induction false} AddDetailsKeeps(d: map<string, DocumentChunk>, chunks: seq<DocumentChunk>)
    ensures forall k :: k in d && k !in ChunkIds(chunks) ==> k in AddDetails(d, chunks) && AddDetails(d, chunks)[k] == d[k]
    decreases |chunks|
  {
    if chunks != [] {
      AddDetailsKeeps(d, chunks[..|chunks| - 1]);
      ChunkIdsSnoc(chunks);
    }
  }

  /** When the batch's ids are distinct, each of its chunks is stored under its own id. */
  lemma {:induction false} AddDetailsStores(d: map<string, DocumentChunk>, chunks: seq<DocumentChunk>)
    requires DistinctIds(chunks)
    ensures forall i :: 0 <= i < |chunks| ==> chunks[i].chunkId in AddDetails(d, chunks) && AddDetails(d, chunks)[chunks[i].chunkId] == chunks[i]
    decreases |chunks|
  {
    if chunks != [] {
      var front := chunks[..|chunks| - 1];
      var last := chunks[|chunks| - 1];
      assert DistinctIds(front) by {
        forall i, j | 0 <= i < j < |front| ensures front[i].chunkId != front[j].chunkId {
          assert front[i] == chunks[i] && front[j] == chunks[j];
        }
      }
      AddDetailsStores(d, front);
      forall i | 0 <= i < |front| ensures chunks[i].chunkId != last.chunkId && front[i] == chunks[i] {
      }
    }
  }

  /** The index after a batch: its vectors appended, its chunks mapped from the next dense ids. */
  function AddBatch(index: Index, chunks: seq<DocumentChunk>, vectors: seq<Embedding>): Index
  {
    Index(index.vectors + vectors, AddIds(index.idMap, |index.vectors|, chunks))
  }

  /**
   * An index whose keys are exactly `0 .. n - 1` for its `n` vectors keeps
   * that shape when `m` vectors are added for `m` chunks, and chunk `i` of
   * the batch is found under id `n + i`.
   */
  lemma AddBatchKeepsDense(index: Index, chunks: seq<DocumentChunk>, vectors: seq<Embedding>)
    requires DenseKeys(index.idMap, |index.vectors|)
    requires |vectors| == |chunks|
    ensures |AddBatch(index, chunks, vectors).vectors| == |index.vectors| + |chunks|
    ensures DenseKeys(AddBatch(index, chunks, vectors).idMap, |index.vectors| + |chunks|)
    ensures forall i :: 0 <= i < |chunks| ==> AddBatch(index, chunks, vectors).idMap[|index.vectors| + i] == chunks[i].chunkId
  {
    AddIdsSpec(index.idMap, |index.vectors|, chunks);
  }

  /** The index `index_content` adds to: the one on disk, or a fresh empty one. */
  function LoadOrFresh(disk: Disk, sessionId: string): (r: Index)
    ensures Load(disk, sessionId).Some? ==> r == Load(disk, sessionId).value
    ensures Load(disk, sessionId).None? ==> r == Index([], map[])
  {
    match Load(disk, sessionId)
    case Some(index) => index
    case None => Index([], map[])
  }

  /** The detail map of one session, empty when the session has none. */
  function SessionDetails(details: map<string, map<string, DocumentChunk>>, sessionId: string): map<string, DocumentChunk>
  {
    if sessionId in details then details[sessionId] else map[]
  }

  /**
   * `get_chunk_details`: the chunk stored for the session under that id, or
   * `None` (also when the session's map is empty).
   */
  function ChunkDetails(details: map<string, map<string, DocumentChunk>>, sessionId: string, chunkId: string): (r: Option<DocumentChunk>)
    ensures r.Some? <==> sessionId in details && chunkId in details[sessionId]
    ensures r.Some? ==> r.value == details[sessionId][chunkId]
  {
    if sessionId in details && details[sessionId] != map[] && chunkId in details[sessionId] then
      Some(details[sessionId][chunkId])
    else None
  }

  /**
   * The `for i, chunk in enumerate(content_chunks)` loop of `index_content`:
   * maps dense id `next + i` to chunk `i`'s id and stores each chunk under
   * its id, in order.
   */
  method MapBatch(idMap0: map<int, string>, next: int, details0: map<string, DocumentChunk>, chunks: seq<DocumentChunk>)
    returns (idMap: map<int, string>, details: map<string, DocumentChunk>)
    ensures idMap == AddIds(idMap0, next, chunks)
    ensures details == AddDetails(details0, chunks)
  {
    idMap, details := idMap0, details0;
    for i := 0 to |chunks|
      invariant idMap == AddIds(idMap0, next, chunks[..i])
      invariant details == AddDetails(details0, chunks[..i])
    {
      assert chunks[..i + 1][..i] == chunks[..i];
      idMap := idMap[next + i := chunks[i].chunkId];
      details := details[chunks[i].chunkId := chunks[i]];
    }
    assert chunks[..|chunks|] == chunks;
  }

  // ---------------------------------------------------------------------------
  // The store.
  // ---------------------------------------------------------------------------

  class IndexStore {
    /** The sessions with an entry in the lock registry. */
    var locks: set<string>
    /** `CHUNK_DETAIL_STORE` */
    var details: map<string, map<string, DocumentChunk>>
    /** The index files and mapping files on disk. */
    var disk: Disk

    /** A process start: no locks, no details, whatever is on disk. */
    constructor(disk0: Disk)
      ensures locks == {} && details == map[] && disk == disk0
    {
      locks := {};
      details := map[];
      disk := disk0;
    }

    /** `_get_lock`: registers the session's lock unless it already has one. */
    method GetLock(sessionId: string)
      modifies this
      ensures locks == old(locks) + {sessionId}
      ensures sessionId in old(locks) ==> locks == old(locks)
      ensures details == old(details) && disk == old(disk)
    {
      if sessionId !in locks {
        locks := locks + {sessionId};
      }
    }

    /** `get_chunk_details` over the current store. */
    function GetChunkDetails(sessionId: string, chunkId: string): Option<DocumentChunk>
      reads this
    {
      ChunkDetails(details, sessionId, chunkId)
    }

    /**
     * `index_content`. `encoded` is what the embedding model returns for the
     * batch's texts, `None` when encoding (or adding to the index) raises;
     * `fault` says where saving the files fails, if anywhere.
     */
    method IndexContent(chunks: seq<DocumentChunk>, sessionId: string, encoded: Option<seq<Embedding>>, fault: SaveFault)
      returns (ok: bool)
      modifies this
      ensures ok <==> chunks == [] || encoded.Some?
      ensures chunks == [] ==> locks == old(locks) && details == old(details) && disk == old(disk)
      ensures chunks != [] ==> locks == old(locks) + {sessionId}
      ensures chunks != [] && encoded.Some? && |encoded.value| > 0 ==>
        && details == old(details)[sessionId := AddDetails(SessionDetails(old(details), sessionId), chunks)]
        && disk == Save(old(disk), sessionId, AddBatch(LoadOrFresh(old(disk), sessionId), chunks, encoded.value), fault)
      ensures chunks == [] || encoded.None? || |encoded.value| == 0 ==> details == old(details) && disk == old(disk)
    {
      if chunks == [] {
        return true;
      }
      GetLock(sessionId);
      var index: Index;
      var next: int;
      var loaded := Load(disk, sessionId);
      if loaded.Some? {
        index := loaded.value;
        next := |index.vectors|;
      } else {
        index := Index([], map[]);
        next := 0;
      }
      if encoded.None? {
        return false;
      }
      var vectors := encoded.value;
      if |vectors| > 0 {
        var idMap, sessionDetails := MapBatch(index.idMap, next, SessionDetails(details, sessionId), chunks);
        details := details[sessionId := sessionDetails];
        disk := Save(disk, sessionId, Index(index.vectors + vectors, idMap), fault);
      }
      return true;
    }

    /**
     * `clear_session_data`: drops the session's details and lock entry and
     * removes its files; always `True`.
     */
    method ClearSessionData(sessionId: string, fault: RemoveFault) returns (cleared: bool)
      modifies this
      ensures cleared
      ensures details == old(details) - {sessionId}
      ensures locks == old(locks) - {sessionId}
      ensures disk == RemoveFiles(old(disk), sessionId, fault)
    {
      GetLock(sessionId);
      if sessionId in details {
        details := details - {sessionId};
      }
      if sessionId in locks {
        locks := locks - {sessionId};
      }
      disk := RemoveFiles(disk, sessionId, fault);
      return true;
    }
  }

  /** A fresh index (nothing loads) starts the dense ids at 0. */
  lemma FreshIndexStartsAtZero(disk: Disk, sessionId: string)
    requires Load(disk, sessionId).None?
    ensures LoadOrFresh(disk, sessionId).vectors == [] && DenseKeys(LoadOrFresh(disk, sessionId).idMap, 0)
  {
  }

  /**
   * Load does not compare the number of vectors with the number of mapping
   * entries: one vector and an empty mapping load as an index.
   */
  lemma LoadSkipsCardinalityCheck()
    ensures var disk := Disk(map[IndexPath("s") := [Embedding([])]], map[MappingPath("s") := map[]]);
      Load(disk, "s").Some? && |Load(disk, "s").value.vectors| != |Load(disk, "s").value.idMap|
  {
    var disk := Disk(map[IndexPath("s") := [Embedding([])]], map[MappingPath("s") := map[]]);
    assert AllKeysParse(map[]);
    assert Load(disk, "s") == Some(Index([Embedding([])], map[]));
  }
}
