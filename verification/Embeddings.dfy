/** Chunks, their embeddings and the vector cache (speechtotext/api/library_db.py), with the
    background worker that reads a batch, embeds it and stores it without holding the lock in
    between (speechtotext/api/embed_worker.py). */
module Embeddings {
  import opened Wrappers

  type Vector = seq<real>

  /** The embedding model: what it makes of a text, under a model's name. */
  type Embedder = (string, string) -> Vector

  datatype Chunk = Chunk(tid: string, idx: nat, text: string)

  datatype Embedding = Embedding(model: string, vector: Vector)

  /** One line of the vector matrix with its chunk. */
  datatype Line = Line(vector: Vector, chunk: Chunk)

  datatype Cache = Cache(model: string, lines: map<nat, Line>)

  /** `nextId` is AUTOINCREMENT's counter. `tids`: the transcripts that have a row. */
  datatype Db = Db(tids: set<string>, chunks: map<nat, Chunk>, nextId: nat, embeddings: map<nat, Embedding>,
                   cache: Option<Cache>)

  datatype Item = Item(id: nat, text: string)

  const BATCH: nat := 64

  // ---------------------------------------------------------------- the operations as functions

  function NewChunks(tid: string, texts: seq<string>, id: nat, idx: nat): map<nat, Chunk>
    decreases |texts|
  {
    if texts == [] then map[] else NewChunks(tid, texts[1..], id + 1, idx + 1)[id := Chunk(tid, idx, texts[0])]
  }

  function ChunksWithout(chunks: map<nat, Chunk>, tid: string): map<nat, Chunk> {
    map id | id in chunks && chunks[id].tid != tid :: chunks[id]
  }

  /** The foreign key's cascade. */
  function Cascaded(embeddings: map<nat, Embedding>, chunks: map<nat, Chunk>): map<nat, Embedding> {
    map id | id in embeddings && id in chunks :: embeddings[id]
  }

  /** `upsert_path` on a transcript that parses: its chunks are replaced wholesale. */
  function Upserted(db: Db, tid: string, texts: seq<string>): Db {
    var kept := ChunksWithout(db.chunks, tid);
    Db(db.tids + {tid}, kept + NewChunks(tid, texts, db.nextId, 0), db.nextId + |texts|,
       Cascaded(db.embeddings, kept), None)
  }

  /** On one that does not parse, the chunks of its last good version stay, and so does the cache. */
  function UpsertedError(db: Db, tid: string): Db {
    db.(tids := db.tids + {tid})
  }

  function Deleted(db: Db, tid: string): Db {
    if tid !in db.tids then db
    else
      var kept := ChunksWithout(db.chunks, tid);
      db.(tids := db.tids - {tid}, chunks := kept, embeddings := Cascaded(db.embeddings, kept), cache := None)
  }

  ghost function Pending(db: Db, model: string): set<nat> {
    set id | id in db.chunks && !(id in db.embeddings && db.embeddings[id].model == model)
  }

  function WithVectors(f: Embedder, embeddings: map<nat, Embedding>, model: string, batch: seq<Item>): map<nat, Embedding> {
    if batch == [] then embeddings
    else
      var last := batch[|batch| - 1];
      WithVectors(f, embeddings, model, batch[..|batch| - 1])[last.id := Embedding(model, f(model, last.text))]
  }

  ghost predicate Live(db: Db, batch: seq<Item>) {
    forall i :: 0 <= i < |batch| ==> batch[i].id in db.chunks
  }

  /** `store_embeddings`: one dead chunk fails the foreign key and rolls the whole batch back, before
      the cache is dropped. */
  ghost function Stored(f: Embedder, db: Db, model: string, batch: seq<Item>): Db {
    if Live(db, batch) then db.(embeddings := WithVectors(f, db.embeddings, model, batch), cache := None) else db
  }

  function Join(db: Db, model: string): map<nat, Line> {
    map id | id in db.embeddings && id in db.chunks && db.embeddings[id].model == model
      :: Line(db.embeddings[id].vector, db.chunks[id])
  }

  function Cached(db: Db, model: string): Db {
    if db.cache.Some? && db.cache.value.model == model then db
    else db.(cache := Some(Cache(model, Join(db, model))))
  }

  ghost predicate DistinctIds(batch: seq<Item>) {
    forall i, j :: 0 <= i < j < |batch| ==> batch[i].id != batch[j].id
  }

  ghost predicate InBatch(batch: seq<Item>, id: nat) {
    exists i :: 0 <= i < |batch| && batch[i].id == id
  }

  /** A batch the worker may have been given: pending chunks with their texts, all of them if they
      are fewer than the limit. */
  ghost predicate IsBatch(db: Db, model: string, limit: nat, batch: seq<Item>) {
    && DistinctIds(batch)
    && (forall i :: 0 <= i < |batch| ==> batch[i].id in Pending(db, model) && db.chunks[batch[i].id].text == batch[i].text)
    && |batch| <= limit
    && (|batch| < limit ==> forall id :: id in Pending(db, model) ==> InBatch(batch, id))
  }

  // ---------------------------------------------------------------- interleavings

  datatype Worker = Resting | Holding(batch: seq<Item>)

  datatype Sys = Sys(db: Db, worker: Worker)

  datatype Event =
    | Upsert(tid: string, texts: seq<string>)
    | UpsertError(tid: string)
    | Delete(tid: string)
    | Read(batch: seq<Item>)
    | EmbedFails
    | Store
    | Query(model: string)

  ghost predicate Enabled(model: string, s: Sys, ev: Event) {
    match ev
    case Read(batch) => s.worker == Resting && batch != [] && IsBatch(s.db, model, BATCH, batch)
    case EmbedFails => s.worker.Holding?
    case Store => s.worker.Holding?
    case _ => true
  }

  /** `model` is the worker's model. */
  ghost function Apply(f: Embedder, model: string, s: Sys, ev: Event): Sys {
    match ev
    case Upsert(tid, texts) => s.(db := Upserted(s.db, tid, texts))
    case UpsertError(tid) => s.(db := UpsertedError(s.db, tid))
    case Delete(tid) => s.(db := Deleted(s.db, tid))
    case Read(batch) => s.(worker := Holding(batch))
    case EmbedFails => s.(worker := Resting)
    case Store => if s.worker.Holding? then Sys(Stored(f, s.db, model, s.worker.batch), Resting) else s
    case Query(m) => s.(db := Cached(s.db, m))
  }

  /** The embedding belongs to a live chunk and is that of its own text. */
  ghost predicate EmbedsItsChunk(f: Embedder, db: Db, id: nat)
    requires id in db.embeddings
  {
    id in db.chunks && db.embeddings[id].vector == f(db.embeddings[id].model, db.chunks[id].text)
  }

  ghost predicate DbInv(f: Embedder, db: Db) {
    && (forall id :: id in db.chunks ==> id < db.nextId && db.chunks[id].tid in db.tids)
    && (forall id :: id in db.embeddings ==> EmbedsItsChunk(f, db, id))
    && (db.cache.Some? ==> db.cache.value.lines == Join(db, db.cache.value.model))
  }

  /** What the worker holds: an id is dead for good or still has the text that was read. */
  ghost predicate BatchInv(db: Db, batch: seq<Item>) {
    DistinctIds(batch) && forall i :: 0 <= i < |batch| ==> ItemInv(db, batch[i])
  }

  ghost predicate ItemInv(db: Db, item: Item) {
    item.id < db.nextId && (item.id in db.chunks ==> db.chunks[item.id].text == item.text)
  }

  ghost predicate Inv(f: Embedder, s: Sys) {
    DbInv(f, s.db) && (s.worker.Holding? ==> BatchInv(s.db, s.worker.batch))
  }

  lemma {:induction false} NewChunksAre(tid: string, texts: seq<string>, id: nat, idx: nat)
    ensures forall n: nat :: n in NewChunks(tid, texts, id, idx) <==> id <= n < id + |texts|
    ensures forall n: nat ::
        (id <= n < id + |texts| ==> NewChunks(tid, texts, id, idx)[n] == Chunk(tid, idx + n - id, texts[n - id]))
    decreases |texts|
  {
    if texts != [] {
      NewChunksAre(tid, texts[1..], id + 1, idx + 1);
    }
  }

  /** Re-indexing a transcript: its old chunks go and its new ones get the next ids, in order; other
      chunks stay; embeddings of chunks that went go with them, and no other; the cache is dropped. */
  lemma UpsertReplaces(db: Db, tid: string, texts: seq<string>)
    ensures var t := Upserted(db, tid, texts);
            && t.tids == db.tids + {tid} && t.nextId == db.nextId + |texts| && t.cache == None
            && (forall id: nat :: id in t.chunks <==> Stays(db, tid, id) || IsNew(db, texts, id))
            && (forall id: nat :: IsNew(db, texts, id) ==> t.chunks[id] == Chunk(tid, id - db.nextId, texts[id - db.nextId]))
            && (forall id: nat :: Stays(db, tid, id) && !IsNew(db, texts, id) ==> t.chunks[id] == db.chunks[id])
            && (forall id: nat :: id in t.embeddings <==> id in db.embeddings && Stays(db, tid, id))
            && (forall id: nat :: id in t.embeddings ==> t.embeddings[id] == db.embeddings[id])
  {
    NewChunksAre(tid, texts, db.nextId, 0);
  }

  ghost predicate Stays(db: Db, tid: string, id: nat) {
    id in db.chunks && db.chunks[id].tid != tid
  }

  ghost predicate IsNew(db: Db, texts: seq<string>, id: nat) {
    db.nextId <= id < db.nextId + |texts|
  }

  lemma InBatchSplit(batch: seq<Item>, id: nat)
    requires batch != []
    ensures InBatch(batch, id) <==> InBatch(batch[..|batch| - 1], id) || id == batch[|batch| - 1].id
  {
    var before := batch[..|batch| - 1];
    assert forall i :: 0 <= i < |before| ==> before[i] == batch[i];
    if i :| 0 <= i < |batch| && batch[i].id == id {
      assert i < |before| ==> before[i].id == id;
    }
  }

  lemma {:induction false} WithVectorsAt(f: Embedder, embeddings: map<nat, Embedding>, model: string, batch: seq<Item>)
    requires DistinctIds(batch)
    ensures var now := WithVectors(f, embeddings, model, batch);
            && (forall i :: 0 <= i < |batch| ==> batch[i].id in now && now[batch[i].id] == Embedding(model, f(model, batch[i].text)))
            && (forall id :: !InBatch(batch, id) ==> (id in now <==> id in embeddings) && (id in now ==> now[id] == embeddings[id]))
  {
    if batch != [] {
      var before, last := batch[..|batch| - 1], batch[|batch| - 1];
      WithVectorsAt(f, embeddings, model, before);
      var now := WithVectors(f, embeddings, model, batch);
      forall i | 0 <= i < |batch| ensures batch[i].id in now && now[batch[i].id] == Embedding(model, f(model, batch[i].text)) {
        assert i < |before| ==> before[i] == batch[i];
      }
      forall id ensures InBatch(batch, id) <==> InBatch(before, id) || id == last.id {
        InBatchSplit(batch, id);
      }
    }
  }

  lemma UpsertKeepsInv(f: Embedder, db: Db, tid: string, texts: seq<string>)
    requires DbInv(f, db)
    ensures DbInv(f, Upserted(db, tid, texts))
  {
    NewChunksAre(tid, texts, db.nextId, 0);
    var t := Upserted(db, tid, texts);
    forall id | id in t.embeddings ensures EmbedsItsChunk(f, t, id) {
      assert EmbedsItsChunk(f, db, id);
    }
  }

  lemma DeleteKeepsInv(f: Embedder, db: Db, tid: string)
    requires DbInv(f, db)
    ensures DbInv(f, Deleted(db, tid))
  {
    var t := Deleted(db, tid);
    forall id | id in t.embeddings ensures EmbedsItsChunk(f, t, id) {
      assert EmbedsItsChunk(f, db, id);
    }
  }

  lemma StoreKeepsInv(f: Embedder, db: Db, model: string, batch: seq<Item>)
    requires DbInv(f, db) && BatchInv(db, batch)
    ensures DbInv(f, Stored(f, db, model, batch))
  {
    WithVectorsAt(f, db.embeddings, model, batch);
    var t := Stored(f, db, model, batch);
    if Live(db, batch) {
      forall id | id in t.embeddings ensures EmbedsItsChunk(f, t, id) {
        if i :| 0 <= i < |batch| && batch[i].id == id {
          assert ItemInv(db, batch[i]);
        } else {
          assert !InBatch(batch, id) && EmbedsItsChunk(f, db, id);
        }
      }
    }
  }

  /** A re-index gives its chunks new ids, so what a stale batch holds can only have died. */
  lemma UpsertKeepsBatch(db: Db, tid: string, texts: seq<string>, batch: seq<Item>)
    requires BatchInv(db, batch)
    ensures BatchInv(Upserted(db, tid, texts), batch)
  {
    NewChunksAre(tid, texts, db.nextId, 0);
    var t := Upserted(db, tid, texts);
    forall i | 0 <= i < |batch| ensures ItemInv(t, batch[i]) {
      assert ItemInv(db, batch[i]);
    }
  }

  lemma OthersKeepBatch(f: Embedder, model: string, s: Sys, ev: Event, batch: seq<Item>)
    requires BatchInv(s.db, batch) && !ev.Upsert?
    ensures BatchInv(Apply(f, model, s, ev).db, batch)
  {
    var t := Apply(f, model, s, ev).db;
    forall i | 0 <= i < |batch| ensures ItemInv(t, batch[i]) {
      assert ItemInv(s.db, batch[i]);
    }
  }

  lemma StepKeepsInv(f: Embedder, model: string, s: Sys, ev: Event)
    requires Inv(f, s) && Enabled(model, s, ev)
    ensures Inv(f, Apply(f, model, s, ev))
  {
    match ev
    case Upsert(tid, texts) =>
      UpsertKeepsInv(f, s.db, tid, texts);
      if s.worker.Holding? {
        UpsertKeepsBatch(s.db, tid, texts, s.worker.batch);
      }
    case Delete(tid) =>
      DeleteKeepsInv(f, s.db, tid);
      if s.worker.Holding? {
        OthersKeepBatch(f, model, s, ev, s.worker.batch);
      }
    case Store =>
      if s.worker.Holding? {
        StoreKeepsInv(f, s.db, model, s.worker.batch);
      }
    case Read(batch) =>
      assert forall i :: 0 <= i < |batch| ==> batch[i].id in Pending(s.db, model);
    case EmbedFails =>
    case _ =>
      assert forall id :: id in s.db.embeddings ==> EmbedsItsChunk(f, s.db, id);
      match s.worker
      case Resting =>
      case Holding(batch) => OthersKeepBatch(f, model, s, ev, batch);
  }

  ghost predicate Run(f: Embedder, model: string, ss: seq<Sys>, es: seq<Event>) {
    && |ss| == |es| + 1
    && forall i :: 0 <= i < |es| ==> Enabled(model, ss[i], es[i]) && ss[i + 1] == Apply(f, model, ss[i], es[i])
  }

  const START := Sys(Db({}, map[], 1, map[], None), Resting)

  lemma {:induction false} RunKeepsInv(f: Embedder, model: string, ss: seq<Sys>, es: seq<Event>, i: nat)
    requires Run(f, model, ss, es) && ss[0] == START && i < |ss|
    ensures Inv(f, ss[i])
  {
    if i > 0 {
      RunKeepsInv(f, model, ss, es, i - 1);
      StepKeepsInv(f, model, ss[i - 1], es[i - 1]);
    }
  }

  /** Main result: in every interleaving of re-indexing, deletion and the worker's read, embed and
      store, each stored embedding belongs to a live chunk and is the embedding of its own text. */
  lemma EmbeddingsAreRight(f: Embedder, model: string, ss: seq<Sys>, es: seq<Event>, i: nat, id: nat)
    requires Run(f, model, ss, es) && ss[0] == START && i < |ss|
    requires id in ss[i].db.embeddings
    ensures id in ss[i].db.chunks && ss[i].db.chunks[id].tid in ss[i].db.tids
    ensures ss[i].db.embeddings[id].vector == f(ss[i].db.embeddings[id].model, ss[i].db.chunks[id].text)
  {
    RunKeepsInv(f, model, ss, es, i);
    assert EmbedsItsChunk(f, ss[i].db, id);
  }

  /** The vector cache, when there is one, is the join computed afresh. */
  lemma CacheIsFresh(f: Embedder, model: string, ss: seq<Sys>, es: seq<Event>, i: nat)
    requires Run(f, model, ss, es) && ss[0] == START && i < |ss|
    requires ss[i].db.cache.Some?
    ensures var db, lines, m := ss[i].db, ss[i].db.cache.value.lines, ss[i].db.cache.value.model;
            && (forall id :: id in lines <==> id in db.embeddings && id in db.chunks && db.embeddings[id].model == m)
            && (forall id :: id in lines ==> lines[id] == Line(db.embeddings[id].vector, db.chunks[id]))
  {
    RunKeepsInv(f, model, ss, es, i);
  }

  /** Ids are never reused: a chunk that has an id now was there with the same text at any earlier
      time at which that id had been given out. */
  lemma {:induction false} IdsAreNeverReused(f: Embedder, model: string, ss: seq<Sys>, es: seq<Event>, i: nat, j: nat, id: nat)
    requires Run(f, model, ss, es) && ss[0] == START && i <= j < |ss|
    requires id < ss[i].db.nextId && id in ss[j].db.chunks
    ensures id in ss[i].db.chunks && ss[i].db.chunks[id] == ss[j].db.chunks[id]
    decreases j
  {
    if i < j {
      NextIdGrows(f, model, ss, es, i, j - 1);
      StepKeepsChunk(f, model, ss[j - 1], es[j - 1], id);
      IdsAreNeverReused(f, model, ss, es, i, j - 1, id);
    }
  }

  lemma {:induction false} NextIdGrows(f: Embedder, model: string, ss: seq<Sys>, es: seq<Event>, i: nat, j: nat)
    requires Run(f, model, ss, es) && i <= j < |ss|
    ensures ss[i].db.nextId <= ss[j].db.nextId
    decreases j
  {
    if i < j {
      NextIdGrows(f, model, ss, es, i, j - 1);
      assert ss[j] == Apply(f, model, ss[j - 1], es[j - 1]);
    }
  }

  lemma StepKeepsChunk(f: Embedder, model: string, s: Sys, ev: Event, id: nat)
    requires id < s.db.nextId && id in Apply(f, model, s, ev).db.chunks
    ensures id in s.db.chunks && s.db.chunks[id] == Apply(f, model, s, ev).db.chunks[id]
  {
    if ev.Upsert? {
      NewChunksAre(ev.tid, ev.texts, s.db.nextId, 0);
    }
  }

  /** A store is all or nothing: every item of the batch has its vector afterwards, or one of its
      chunks was gone and nothing changed. */
  lemma StoreIsAllOrNothing(f: Embedder, db: Db, model: string, batch: seq<Item>)
    requires DistinctIds(batch)
    ensures var t := Stored(f, db, model, batch);
            if exists i :: 0 <= i < |batch| && batch[i].id !in db.chunks then t == db
            else forall i :: 0 <= i < |batch| ==>
                   batch[i].id in t.embeddings && t.embeddings[batch[i].id] == Embedding(model, f(model, batch[i].text))
  {
    WithVectorsAt(f, db.embeddings, model, batch);
  }

  /** With no writer in between, a store clears its whole batch from the pending chunks. */
  lemma StoreClearsItsBatch(f: Embedder, db: Db, model: string, batch: seq<Item>)
    requires IsBatch(db, model, BATCH, batch)
    ensures forall id :: id in Pending(Stored(f, db, model, batch), model) <==> id in Pending(db, model) && !InBatch(batch, id)
  {
    WithVectorsAt(f, db.embeddings, model, batch);
    assert Live(db, batch) by {
      forall i | 0 <= i < |batch| ensures batch[i].id in db.chunks {
        assert batch[i].id in Pending(db, model);
      }
    }
    var t := Stored(f, db, model, batch);
    forall id ensures id in Pending(t, model) <==> id in Pending(db, model) && !InBatch(batch, id) {
      if InBatch(batch, id) {
        var i :| 0 <= i < |batch| && batch[i].id == id;
      }
    }
  }

  // ---------------------------------------------------------------- the store

  class LibraryDB {
    var tids: set<string>
    var chunks: map<nat, Chunk>
    var nextId: nat
    var embeddings: map<nat, Embedding>
    var cache: Option<Cache>

    function State(): Db
      reads this
    {
      Db(tids, chunks, nextId, embeddings, cache)
    }

    constructor ()
      ensures State() == START.db
    {
      tids, chunks, nextId, embeddings, cache := {}, map[], 1, map[], None;
    }

    /** Replace the chunks of one transcript. */
    method Upsert(tid: string, texts: seq<string>)
      modifies this
      ensures State() == Upserted(old(State()), tid, texts)
    {
      tids := tids + {tid};
      ghost var kept := ChunksWithout(chunks, tid);
      chunks := map id | id in chunks && chunks[id].tid != tid :: chunks[id];
      embeddings := Cascaded(embeddings, chunks);
      ghost var first := nextId;
      for i := 0 to |texts|
        invariant nextId == first + i && tids == old(tids) + {tid}
        invariant embeddings == Cascaded(old(embeddings), kept)
        invariant chunks + NewChunks(tid, texts[i..], nextId, i) == kept + NewChunks(tid, texts, first, 0)
      {
        InsertChunk(chunks, tid, texts[i..], nextId, i);
        assert texts[i..][1..] == texts[i + 1..];
        chunks, nextId := chunks[nextId := Chunk(tid, i, texts[i])], nextId + 1;
      }
      cache := None;
    }

    method DeleteByTid(tid: string)
      modifies this
      ensures State() == Deleted(old(State()), tid)
      ensures tid !in old(tids) ==> State() == old(State())
      ensures tid in old(tids) ==>
                && tids == old(tids) - {tid} && cache == None && nextId == old(nextId)
                && (forall id :: id in chunks <==> id in old(chunks) && old(chunks)[id].tid != tid)
                && (forall id :: id in chunks ==> chunks[id] == old(chunks)[id])
                && (forall id :: id in embeddings <==> id in old(embeddings) && id in chunks)
                && (forall id :: id in embeddings ==> embeddings[id] == old(embeddings)[id])
    {
      if tid !in tids {
        return;
      }
      tids := tids - {tid};
      chunks := ChunksWithout(chunks, tid);
      embeddings := Cascaded(embeddings, chunks);
      cache := None;
    }

    /** Up to `limit` chunks without an embedding by `model`. */
    method PendingChunks(model: string, limit: nat) returns (batch: seq<Item>)
      ensures IsBatch(State(), model, limit, batch)
    {
      batch := [];
      var left := set id | id in chunks && !(id in embeddings && embeddings[id].model == model);
      while left != {} && |batch| < limit
        invariant left <= Pending(State(), model) && DistinctIds(batch) && |batch| <= limit
        invariant forall i :: 0 <= i < |batch| ==>
            batch[i].id in Pending(State(), model) && batch[i].id !in left && chunks[batch[i].id].text == batch[i].text
        invariant forall id :: id in Pending(State(), model) ==> id in left || InBatch(batch, id)
        decreases left
      {
        var id :| id in left;
        ghost var was := batch;
        batch, left := batch + [Item(id, chunks[id].text)], left - {id};
        forall d ensures InBatch(batch, d) <==> InBatch(was, d) || d == id {
          InBatchSplit(batch, d);
          assert batch[..|batch| - 1] == was;
        }
      }
    }

    /** In one transaction: each row is inserted or replaced; one that has no chunk undoes all. */
    method StoreEmbeddings(f: Embedder, model: string, batch: seq<Item>) returns (ok: bool)
      modifies this
      ensures State() == Stored(f, old(State()), model, batch)
      ensures ok == Live(old(State()), batch)
    {
      var before := embeddings;
      for i := 0 to |batch|
        invariant tids == old(tids) && chunks == old(chunks) && nextId == old(nextId) && cache == old(cache)
        invariant embeddings == WithVectors(f, before, model, batch[..i])
        invariant forall j :: 0 <= j < i ==> batch[j].id in chunks
      {
        if batch[i].id !in chunks {
          embeddings := before;
          return false;
        }
        assert batch[..i + 1][..i] == batch[..i];
        embeddings := embeddings[batch[i].id := Embedding(model, f(model, batch[i].text))];
      }
      assert batch[..|batch|] == batch;
      cache := None;
      ok := true;
    }

    /** The vector matrix, from the cache if it is for `model`. */
    method VecMatrix(f: Embedder, model: string) returns (lines: map<nat, Line>)
      requires DbInv(f, State())
      modifies this
      ensures forall id :: id in lines <==> id in embeddings && id in chunks && embeddings[id].model == model
      ensures forall id :: id in lines ==> lines[id] == Line(embeddings[id].vector, chunks[id])
      ensures tids == old(tids) && chunks == old(chunks) && nextId == old(nextId) && embeddings == old(embeddings)
      ensures cache == Some(Cache(model, lines))
      ensures State() == Cached(old(State()), model)
    {
      if cache.Some? && cache.value.model == model {
        return cache.value.lines;
      }
      lines := Join(State(), model);
      cache := Some(Cache(model, lines));
    }
  }

  lemma InsertChunk(chunks: map<nat, Chunk>, tid: string, texts: seq<string>, id: nat, idx: nat)
    requires texts != []
    ensures chunks + NewChunks(tid, texts, id, idx)
            == chunks[id := Chunk(tid, idx, texts[0])] + NewChunks(tid, texts[1..], id + 1, idx + 1)
  {
    NewChunksAre(tid, texts[1..], id + 1, idx + 1);
  }

  /** One sweep of the worker with nothing else going on: it reports work exactly if something was
      pending, and then fewer chunks are. */
  method Drain(db: LibraryDB, f: Embedder, model: string) returns (worked: bool)
    requires DbInv(f, db.State())
    modifies db
    ensures DbInv(f, db.State()) && db.chunks == old(db.chunks)
    ensures worked <==> Pending(old(db.State()), model) != {}
    ensures if worked then Pending(db.State(), model) < Pending(old(db.State()), model) else db.State() == old(db.State())
  {
    var batch := db.PendingChunks(model, BATCH);
    ghost var before := db.State();
    if batch == [] {
      assert forall id :: id in Pending(before, model) ==> InBatch(batch, id);
      return false;
    }
    assert batch[0].id in Pending(before, model) && InBatch(batch, batch[0].id);
    StoreClearsItsBatch(f, before, model, batch);
    forall i | 0 <= i < |batch| ensures ItemInv(before, batch[i]) {
      assert batch[i].id in Pending(before, model);
    }
    StoreKeepsInv(f, before, model, batch);
    var _ := db.StoreEmbeddings(f, model, batch);
    worked := true;
  }

  /** The worker's sweeps end with every chunk embedded from its own text. */
  method Sweep(db: LibraryDB, f: Embedder, model: string)
    requires DbInv(f, db.State())
    modifies db
    ensures db.chunks == old(db.chunks)
    ensures forall id :: id in db.chunks ==>
        id in db.embeddings && db.embeddings[id] == Embedding(model, f(model, db.chunks[id].text))
  {
    var worked := true;
    while worked
      invariant DbInv(f, db.State()) && db.chunks == old(db.chunks)
      invariant !worked ==> Pending(db.State(), model) == {}
      decreases worked, Pending(db.State(), model)
    {
      worked := Drain(db, f, model);
    }
    forall id | id in db.chunks ensures id in db.embeddings && db.embeddings[id] == Embedding(model, f(model, db.chunks[id].text)) {
      assert id !in Pending(db.State(), model);
      assert EmbedsItsChunk(f, db.State(), id);
    }
  }
}
