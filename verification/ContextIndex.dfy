/** The chunk index and the service that keeps it in step with the files. */
module ContextIndexes {
  import opened Chunking
  import opened Options

  datatype ModuleKey = ModuleKey(workspace: string, repo: string, modulePath: string)

  datatype ChunkKey = ChunkKey(owner: ModuleKey, index: nat)

  datatype Chunk = Chunk(text: string, updatedAt: int)

  const MAX_CHARS := 320
  const OVERLAP := 40

  function Parts(redact: string -> string, content: string): seq<string> {
    Chunks(redact(content), MAX_CHARS, OVERLAP)
  }

  /** The text stored under a key when each module has this content: a chunk of it that is not empty. */
  function Expected(redact: string -> string, contents: map<ModuleKey, string>, k: ChunkKey): Option<string> {
    if k.owner !in contents then None
    else
      var parts := Parts(redact, contents[k.owner]);
      if k.index < |parts| && parts[k.index] != "" then Some(parts[k.index]) else None
  }

  /** Every stored chunk is one that is expected. */
  ghost predicate Right(redact: string -> string, contents: map<ModuleKey, string>, chunks: map<ChunkKey, Chunk>) {
    forall k :: k in chunks ==> Expected(redact, contents, k) == Some(chunks[k].text)
  }

  /** Every expected chunk is stored. */
  ghost predicate Complete(redact: string -> string, contents: map<ModuleKey, string>, chunks: map<ChunkKey, Chunk>) {
    forall k :: Expected(redact, contents, k).Some? ==> k in chunks
  }

  function Bound(maxChunks: int): nat {
    if maxChunks > 0 then maxChunks else 0
  }

  /** What is left are at most so many of the chunks, and none older than one that was removed. */
  ghost predicate IsTrimmed(before: map<ChunkKey, Chunk>, after: map<ChunkKey, Chunk>, maxChunks: int) {
    && (forall k :: k in after ==> k in before && after[k] == before[k])
    && |after| == (if |before| <= maxChunks then |before| else Bound(maxChunks))
    && (|before| <= maxChunks ==> after == before)
    && forall e, k :: e in before && e !in after && k in after ==> before[e].updatedAt <= before[k].updatedAt
  }

  /** The chunks of one module replaced by these parts, without the empty ones. */
  ghost predicate IsUpsert(before: map<ChunkKey, Chunk>, after: map<ChunkKey, Chunk>, owner: ModuleKey, parts: seq<string>, now: int) {
    && (forall k: ChunkKey :: k.owner != owner ==>
          (k in after <==> k in before) && (k in after ==> after[k] == before[k]))
    && forall k: ChunkKey :: k.owner == owner ==>
         (k in after <==> k.index < |parts| && parts[k.index] != "") && (k in after ==> after[k] == Chunk(parts[k.index], now))
  }

  lemma UpsertKeeps(redact: string -> string, contents: map<ModuleKey, string>, before: map<ChunkKey, Chunk>,
                    after: map<ChunkKey, Chunk>, owner: ModuleKey, sourceText: string, now: int)
    requires Right(redact, contents, before)
    requires IsUpsert(before, after, owner, Parts(redact, sourceText), now)
    ensures Right(redact, contents[owner := sourceText], after)
    ensures Complete(redact, contents, before) ==> Complete(redact, contents[owner := sourceText], after)
  {
    var contents' := contents[owner := sourceText];
    forall k | k in after ensures Expected(redact, contents', k) == Some(after[k].text) {
      UpsertAt(redact, contents, before, after, owner, sourceText, now, k);
    }
    if Complete(redact, contents, before) {
      forall k | Expected(redact, contents', k).Some? ensures k in after {
        UpsertAt(redact, contents, before, after, owner, sourceText, now, k);
      }
    }
  }

  lemma UpsertAt(redact: string -> string, contents: map<ModuleKey, string>, before: map<ChunkKey, Chunk>,
                 after: map<ChunkKey, Chunk>, owner: ModuleKey, sourceText: string, now: int, k: ChunkKey)
    requires IsUpsert(before, after, owner, Parts(redact, sourceText), now)
    ensures var contents' := contents[owner := sourceText];
      if k.owner == owner then Expected(redact, contents', k) == if k in after then Some(after[k].text) else None
      else Expected(redact, contents', k) == Expected(redact, contents, k)
           && (k in after <==> k in before) && (k in after ==> after[k] == before[k])
  {
  }

  class LocalEmbeddingIndex {
    const maxChunks: int
    const redact: string -> string
    var chunks: map<ChunkKey, Chunk>
    ghost var contents: map<ModuleKey, string>   // what each module held when it was last indexed
    ghost var evicted: bool                      // the capacity has cost a chunk

    ghost predicate Valid()
      reads this
    {
      && Right(redact, contents, chunks)
      && (!evicted ==> Complete(redact, contents, chunks))
      && |chunks| <= Bound(maxChunks)
    }

    constructor (maxChunks: int, redact: string -> string)
      ensures Valid() && chunks == map[] && contents == map[] && !evicted
      ensures this.maxChunks == maxChunks && this.redact == redact
    {
      this.maxChunks, this.redact := maxChunks, redact;
      chunks, contents, evicted := map[], map[], false;
    }

    method DeleteModule(owner: ModuleKey)
      modifies `chunks
      ensures forall k :: k in chunks <==> k in old(chunks) && k.owner != owner
      ensures forall k :: k in chunks ==> chunks[k] == old(chunks)[k]
    {
      var keys := chunks.Keys;
      while keys != {}
        invariant forall k :: k in chunks <==> k in old(chunks) && (k.owner != owner || k in keys)
        invariant forall k :: k in chunks ==> chunks[k] == old(chunks)[k]
        decreases |keys|
      {
        var key :| key in keys;
        if key.owner == owner {
          chunks := chunks - {key};
        }
        keys := keys - {key};
      }
    }

    method StoreParts(owner: ModuleKey, parts: seq<string>, now: int)
      requires forall k :: k in chunks ==> k.owner != owner
      modifies `chunks
      ensures forall k: ChunkKey :: k.owner != owner ==> (k in chunks <==> k in old(chunks))
      ensures forall k :: k in old(chunks) ==> k in chunks && chunks[k] == old(chunks)[k]
      ensures forall i: nat :: ChunkKey(owner, i) in chunks <==> i < |parts| && parts[i] != ""
      ensures forall i: nat :: ChunkKey(owner, i) in chunks ==> chunks[ChunkKey(owner, i)] == Chunk(parts[i], now)
    {
      for index := 0 to |parts|
        invariant forall k: ChunkKey :: k.owner != owner ==> (k in chunks <==> k in old(chunks))
        invariant forall k :: k in old(chunks) ==> k in chunks && chunks[k] == old(chunks)[k]
        invariant forall i: nat :: ChunkKey(owner, i) in chunks <==> i < index && parts[i] != ""
        invariant forall i: nat :: ChunkKey(owner, i) in chunks ==> chunks[ChunkKey(owner, i)] == Chunk(parts[i], now)
      {
        var text := parts[index];
        if text != "" {
          chunks := chunks[ChunkKey(owner, index) := Chunk(text, now)];
        }
      }
    }

    method ReplaceModule(owner: ModuleKey, parts: seq<string>, now: int)
      modifies `chunks
      ensures IsUpsert(old(chunks), chunks, owner, parts, now)
    {
      DeleteModule(owner);
      StoreParts(owner, parts, now);
      assert forall k: ChunkKey :: k.owner == owner ==> k == ChunkKey(owner, k.index);
    }

    /** A key of the oldest chunk. */
    method Oldest() returns (oldest: ChunkKey)
      requires |chunks| > 0
      ensures oldest in chunks && forall k :: k in chunks ==> chunks[oldest].updatedAt <= chunks[k].updatedAt
    {
      var keys := chunks.Keys;
      assert |keys| > 0;
      oldest :| oldest in keys;
      keys := keys - {oldest};
      while keys != {}
        invariant oldest in chunks && keys <= chunks.Keys
        invariant forall k :: k in chunks && k !in keys ==> chunks[oldest].updatedAt <= chunks[k].updatedAt
        decreases |keys|
      {
        var key :| key in keys;
        if chunks[key].updatedAt < chunks[oldest].updatedAt {
          oldest := key;
        }
        keys := keys - {key};
      }
    }

    method TrimToCapacity()
      modifies `chunks
      ensures IsTrimmed(old(chunks), chunks, maxChunks)
    {
      while |chunks| > maxChunks && |chunks| > 0
        invariant forall k :: k in chunks ==> k in old(chunks) && chunks[k] == old(chunks)[k]
        invariant |chunks| <= |old(chunks)|
        invariant chunks == old(chunks) || (|old(chunks)| > maxChunks && |chunks| >= Bound(maxChunks))
        invariant forall e, k :: e in old(chunks) && e !in chunks && k in chunks ==>
                    old(chunks)[e].updatedAt <= old(chunks)[k].updatedAt
        decreases |chunks|
      {
        var key := Oldest();
        assert (chunks - {key}).Keys == chunks.Keys - {key};
        chunks := chunks - {key};
      }
    }

    method UpsertModule(owner: ModuleKey, sourceText: string, now: int) returns (ghost full: map<ChunkKey, Chunk>)
      requires Valid()
      modifies this
      ensures IsUpsert(old(chunks), full, owner, Parts(redact, sourceText), now) && IsTrimmed(full, chunks, maxChunks)
      ensures evicted == (old(evicted) || |full| > maxChunks)
      ensures Valid() && contents == old(contents)[owner := sourceText] && (old(evicted) ==> evicted)
    {
      var parts := SplitIntoChunks(redact(sourceText), MAX_CHARS, OVERLAP);
      ReplaceModule(owner, parts, now);
      UpsertKeeps(redact, contents, old(chunks), chunks, owner, sourceText, now);
      contents := contents[owner := sourceText];
      full := chunks;
      TrimToCapacity();
      evicted := evicted || |full| > maxChunks;
    }
  }

  // ---- The service ----------------------------------------------------------------------------------------

  datatype IndexedFile = IndexedFile(path: string, content: string)

  /** The files of a refresh: the last one of each path. */
  function Current(files: seq<IndexedFile>): map<string, string> {
    if files == [] then map[]
    else Current(files[..|files| - 1])[files[|files| - 1].path := files[|files| - 1].content]
  }

  /** What a full rebuild would index. */
  function Owned(ownerOf: string -> ModuleKey, files: seq<IndexedFile>): map<ModuleKey, string> {
    if files == [] then map[]
    else Owned(ownerOf, files[..|files| - 1])[ownerOf(files[|files| - 1].path) := files[|files| - 1].content]
  }

  /** No two paths belong to the same module. */
  ghost predicate OneOwnerEach(ownerOf: string -> ModuleKey) {
    forall a, b :: ownerOf(a) == ownerOf(b) ==> a == b
  }

  /** The recorded content of a file is what its module was last indexed with. */
  ghost predicate Tracks(ownerOf: string -> ModuleKey, fileState: map<string, string>, contents: map<ModuleKey, string>) {
    forall path :: path in fileState ==> ownerOf(path) in contents && contents[ownerOf(path)] == fileState[path]
  }

  class ContextIndexService {
    const embeddings: LocalEmbeddingIndex
    const ownerOf: string -> ModuleKey
    var fileState: map<string, string>   // per path, the hash of the content; the content stands for it

    ghost predicate Valid()
      reads this, embeddings
    {
      embeddings.Valid() && OneOwnerEach(ownerOf) && Tracks(ownerOf, fileState, embeddings.contents)
    }

    constructor (embeddings: LocalEmbeddingIndex, ownerOf: string -> ModuleKey)
      requires embeddings.Valid() && OneOwnerEach(ownerOf)
      ensures Valid() && fileState == map[] && this.embeddings == embeddings && this.ownerOf == ownerOf
    {
      this.embeddings, this.ownerOf, fileState := embeddings, ownerOf, map[];
    }

    method RefreshFile(file: IndexedFile, now: int)
      requires Valid()
      modifies this, embeddings
      ensures Valid() && (old(embeddings.evicted) ==> embeddings.evicted)
      ensures fileState == old(fileState)[file.path := file.content]
      ensures embeddings.contents == old(embeddings.contents)[ownerOf(file.path) := file.content]
    {
      if file.path in fileState && fileState[file.path] == file.content {
        assert embeddings.contents == embeddings.contents[ownerOf(file.path) := file.content];
        return;
      }
      ghost var _ := embeddings.UpsertModule(ownerOf(file.path), file.content, now);
      fileState := fileState[file.path := file.content];
    }

    method DropUnseen(seenPaths: set<string>)
      modifies `fileState
      ensures forall path :: path in fileState <==> path in old(fileState) && path in seenPaths
      ensures forall path :: path in fileState ==> fileState[path] == old(fileState)[path]
    {
      var paths := fileState.Keys;
      while paths != {}
        invariant forall path :: path in fileState <==> path in old(fileState) && (path in seenPaths || path in paths)
        invariant forall path :: path in fileState ==> fileState[path] == old(fileState)[path]
        decreases |paths|
      {
        var path :| path in paths;
        if path !in seenPaths {
          fileState := fileState - {path};
        }
        paths := paths - {path};
      }
    }

    /** One round of the loop. */
    method RefreshNext(files: seq<IndexedFile>, k: nat, now: int, seen: set<string>,
                       ghost before: map<string, string>, ghost contents: map<ModuleKey, string>)
      returns (seenPaths: set<string>)
      requires Valid() && k < |files|
      requires CaughtUp(ownerOf, before, contents, files[..k], fileState, embeddings.contents, seen)
      modifies this, embeddings
      ensures Valid() && (old(embeddings.evicted) ==> embeddings.evicted)
      ensures CaughtUp(ownerOf, before, contents, files[..k + 1], fileState, embeddings.contents, seenPaths)
    {
      CatchUp(ownerOf, before, contents, files, k, fileState, embeddings.contents, seen);
      RefreshFile(files[k], now);
      seenPaths := seen + {files[k].path};
    }

    /** The loop over the files. */
    method RefreshFiles(files: seq<IndexedFile>, now: int) returns (seenPaths: set<string>)
      requires Valid()
      modifies this, embeddings
      ensures Valid() && (old(embeddings.evicted) ==> embeddings.evicted)
      ensures CaughtUp(ownerOf, old(fileState), old(embeddings.contents), files, fileState, embeddings.contents, seenPaths)
    {
      seenPaths := {};
      ghost var before, contents := fileState, embeddings.contents;
      var k: nat := 0;
      while k < |files|
        invariant k <= |files| && Valid() && (old(embeddings.evicted) ==> embeddings.evicted)
        invariant CaughtUp(ownerOf, before, contents, files[..k], fileState, embeddings.contents, seenPaths)
      {
        seenPaths := RefreshNext(files, k, now, seenPaths, before, contents);
        k := k + 1;
      }
      assert files[..k] == files;
    }

    /** Afterwards the state matches the files exactly, their modules hold their contents, and all other
      * modules hold what they were last indexed with. */
    method RefreshFromFiles(files: seq<IndexedFile>, now: int)
      requires Valid()
      modifies this, embeddings
      ensures Valid() && (old(embeddings.evicted) ==> embeddings.evicted)
      ensures fileState == Current(files)
      ensures embeddings.contents == old(embeddings.contents) + Owned(ownerOf, files)
    {
      var seenPaths := RefreshFiles(files, now);
      DropUnseen(seenPaths);
      assert fileState == Current(files);
    }
  }

  /** What the files so far have done to the recorded contents and to the modules. */
  ghost predicate CaughtUp(ownerOf: string -> ModuleKey, before: map<string, string>, contents: map<ModuleKey, string>,
                           files: seq<IndexedFile>, after: map<string, string>, contents': map<ModuleKey, string>, seenPaths: set<string>)
  {
    && after == before + Current(files)
    && contents' == contents + Owned(ownerOf, files)
    && seenPaths == Current(files).Keys
  }

  lemma OneMore<K, V>(a: map<K, V>, b: map<K, V>, k: K, v: V)
    ensures (a + b)[k := v] == a + b[k := v]
    ensures b[k := v].Keys == b.Keys + {k}
  {
  }

  lemma CatchUp(ownerOf: string -> ModuleKey, before: map<string, string>, contents: map<ModuleKey, string>, files: seq<IndexedFile>,
                k: nat, after: map<string, string>, contents': map<ModuleKey, string>, seenPaths: set<string>)
    requires k < |files| && CaughtUp(ownerOf, before, contents, files[..k], after, contents', seenPaths)
    ensures var f := files[k];
      CaughtUp(ownerOf, before, contents, files[..k + 1], after[f.path := f.content],
               contents'[ownerOf(f.path) := f.content], seenPaths + {f.path})
  {
    var f := files[k];
    assert files[..k + 1][..k] == files[..k];
    OneMore(before, Current(files[..k]), f.path, f.content);
    OneMore(contents, Owned(ownerOf, files[..k]), ownerOf(f.path), f.content);
  }

  // ---- Incremental refresh and full rebuild ---------------------------------------------------------------

  ghost predicate SameTexts(redact: string -> string, a: map<ModuleKey, string>, b: map<ModuleKey, string>) {
    forall k :: Expected(redact, a, k) == Expected(redact, b, k)
  }

  lemma FirstPart(redact: string -> string, content: string)
    ensures Parts(redact, content)[0] == "" <==> redact(content) == ""
    ensures forall i :: 0 <= i < |Parts(redact, content)| ==> (Parts(redact, content)[i] == "" <==> redact(content) == "")
  {
    forall i | 0 <= i < |Parts(redact, content)| ensures Parts(redact, content)[i] == "" <==> redact(content) == "" {
      ChunksAreShort(redact(content), MAX_CHARS, OVERLAP, i);
    }
  }

  /** Two sets of contents are expected to give the same texts exactly when every module that only the larger
    * one has was empty. */
  lemma ExpectedAlike(redact: string -> string, before: map<ModuleKey, string>, owned: map<ModuleKey, string>)
    ensures SameTexts(redact, before + owned, owned)
       <==> forall owner :: owner in before && owner !in owned ==> redact(before[owner]) == ""
  {
    var after := before + owned;
    if forall owner :: owner in before && owner !in owned ==> redact(before[owner]) == "" {
      forall k: ChunkKey ensures Expected(redact, after, k) == Expected(redact, owned, k) {
        if k.owner in before && k.owner !in owned {
          FirstPart(redact, before[k.owner]);
        }
      }
    }
    if SameTexts(redact, after, owned) {
      forall owner | owner in before && owner !in owned ensures redact(before[owner]) == "" {
        FirstPart(redact, before[owner]);
        assert Expected(redact, after, ChunkKey(owner, 0)) == Expected(redact, owned, ChunkKey(owner, 0)) == None;
      }
    }
  }

  function TextAt(chunks: map<ChunkKey, Chunk>, k: ChunkKey): Option<string> {
    if k in chunks then Some(chunks[k].text) else None
  }

  /** The same texts are stored under the same keys. */
  ghost predicate StoreAlike(a: map<ChunkKey, Chunk>, b: map<ChunkKey, Chunk>) {
    forall k :: TextAt(a, k) == TextAt(b, k)
  }

  /** Right and complete chunks are exactly the expected texts. */
  lemma StoredAsExpected(redact: string -> string, contents: map<ModuleKey, string>, chunks: map<ChunkKey, Chunk>, k: ChunkKey)
    requires Right(redact, contents, chunks) && Complete(redact, contents, chunks)
    ensures TextAt(chunks, k) == Expected(redact, contents, k)
  {
  }

  lemma StoresFollowContents(redact: string -> string, a: map<ModuleKey, string>, b: map<ModuleKey, string>,
                             chunks: map<ChunkKey, Chunk>, chunks': map<ChunkKey, Chunk>)
    requires Right(redact, a, chunks) && Complete(redact, a, chunks)
    requires Right(redact, b, chunks') && Complete(redact, b, chunks')
    ensures StoreAlike(chunks, chunks') <==> SameTexts(redact, a, b)
  {
    forall k ensures TextAt(chunks, k) == Expected(redact, a, k) && TextAt(chunks', k) == Expected(redact, b, k) {
      StoredAsExpected(redact, a, chunks, k);
      StoredAsExpected(redact, b, chunks', k);
    }
    if SameTexts(redact, a, b) {
      forall k ensures TextAt(chunks, k) == TextAt(chunks', k) {
        assert Expected(redact, a, k) == Expected(redact, b, k);
      }
    }
    if StoreAlike(chunks, chunks') {
      forall k ensures Expected(redact, a, k) == Expected(redact, b, k) {
        assert TextAt(chunks, k) == TextAt(chunks', k);
      }
    }
  }

  /** A service that was refreshed, with modules indexed `before`, and one rebuilt from the same files and empty
    * (both as RefreshFromFiles leaves them, and neither having evicted anything) store the same chunks if and
    * only if every module that has no file any more was empty when last indexed: the chunks of removed files
    * stay. */
  lemma RefreshIsRebuildUnlessFilesLeft(refreshed: ContextIndexService, rebuilt: ContextIndexService,
                                        before: map<ModuleKey, string>, files: seq<IndexedFile>)
    requires refreshed.Valid() && rebuilt.Valid()
    requires refreshed.ownerOf == rebuilt.ownerOf && refreshed.embeddings.redact == rebuilt.embeddings.redact
    requires !refreshed.embeddings.evicted && !rebuilt.embeddings.evicted
    requires refreshed.embeddings.contents == before + Owned(refreshed.ownerOf, files)
    requires rebuilt.embeddings.contents == map[] + Owned(rebuilt.ownerOf, files)
    ensures var owned := Owned(refreshed.ownerOf, files);
      StoreAlike(refreshed.embeddings.chunks, rebuilt.embeddings.chunks)
      <==> forall owner :: owner in before && owner !in owned ==> refreshed.embeddings.redact(before[owner]) == ""
  {
    var redact, owned := refreshed.embeddings.redact, Owned(refreshed.ownerOf, files);
    assert map[] + owned == owned;
    StoresFollowContents(redact, before + owned, owned, refreshed.embeddings.chunks, rebuilt.embeddings.chunks);
    ExpectedAlike(redact, before, owned);
  }

  /** A module's texts are pieces of 320 characters that share 40 with the next, the last one shorter. */
  lemma PartsAreFull(redact: string -> string, content: string, k: nat)
    requires k + 1 < |Parts(redact, content)|
    ensures var parts := Parts(redact, content); |parts[k]| == 320 && parts[k][280..] <= parts[k + 1] && |parts[k + 1]| <= 320
  {
    ChunksAreFull(redact(content), MAX_CHARS, OVERLAP, k);
    ChunksAreShort(redact(content), MAX_CHARS, OVERLAP, k + 1);
  }
}
