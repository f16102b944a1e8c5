/**
  The use cases over mutable objects: the repository, the caching decorator that hands out the very
  entity it caches, the file storage, and the retention use case.
 */
module ImageService {
  import opened Basics
  import opened ImageEntity
  import opened ImageCache
  import opened ImageFiles
  import Protocol = IdempotencyProtocol

  /** The PostgreSQL repository: saves copy the entity into a row, loads build a new entity. */
  class ImageRepository {
    var rows: map<ImageId, Row>

    constructor ()
      ensures rows == map[]
    {
      rows := map[];
    }

    /** `up` is false when the call raises, in which case the transaction is rolled back. */
    method Save(image: Image, up: bool) returns (ok: bool)
      modifies this
      ensures ok == up
      ensures rows == if ok then SaveRow(old(rows), image.Value()) else old(rows)
    {
      ok := up;
      if up {
        var prior := if image.id in rows then Some(rows[image.id]) else None;
        var v := ImageValue(image.id, image.filename, image.originalPath, image.thumbnailPath, image.metadata,
                            image.status, image.tags, image.createdAt, image.updatedAt, image.expiresAt);
        rows := rows[image.id := EntityToModel(v, prior)];
      }
    }

    method GetById(id: ImageId) returns (image: Option<Image>)
      ensures image.Some? <==> id in rows
      ensures image.Some? ==> fresh(image.value) && image.value.Value() == ModelToEntity(id, rows[id])
    {
      if id !in rows {
        return None;
      }
      var loaded := new Image(ModelToEntity(id, rows[id]));
      return Some(loaded);
    }

    /** None when the call raises; otherwise whether there was a row to delete. */
    method Delete(id: ImageId, up: bool) returns (deleted: Option<bool>)
      modifies this
      ensures deleted == if up then Some(id in old(rows)) else None
      ensures rows == if up then old(rows) - {id} else old(rows)
    {
      if !up {
        return None;
      }
      deleted := Some(id in rows);
      rows := rows - {id};
    }

    /** delete_expired_batch: `picked` is the database's choice among the expired, unlocked rows. */
    method DeleteExpiredBatch(picked: seq<ImageId>, batchSize: nat, now: real) returns (deleted: seq<Row>)
      requires |picked| <= batchSize && forall id <- picked :: id in rows && IsExpired(rows[id].expiresAt, now)
      modifies this
      ensures rows == old(rows) - IdSet(picked)
      ensures deleted == RowsOf(old(rows), picked)
    {
      deleted := RowsOf(rows, picked);
      rows := rows - IdSet(picked);
    }
  }

  /** The idempotency operations of the repository; `up` is false when the call raises. */
  class IdempotencyTable {
    var records: map<Protocol.Slot, Protocol.Record>

    constructor ()
      ensures records == map[]
    {
      records := map[];
    }

    /** None when the call raises. */
    method Get(slot: Protocol.Slot, up: bool) returns (found: Option<Option<Protocol.Record>>)
      ensures found == if up then Some(Protocol.RowAt(records, slot)) else None
    {
      found := if up then Some(if slot in records then Some(records[slot]) else None) else None;
    }

    /** Some(false) stands for the IntegrityError of a row that exists already. */
    method Create(slot: Protocol.Slot, record: Protocol.Record, up: bool) returns (claimed: Option<bool>)
      modifies this
      ensures claimed == if up then Some(slot !in old(records)) else None
      ensures records == if claimed == Some(true) then old(records)[slot := record] else old(records)
    {
      if !up {
        return None;
      }
      if slot in records {
        return Some(false);
      }
      records := records[slot := record];
      return Some(true);
    }

    method Complete(slot: Protocol.Slot, id: ImageId, up: bool)
      modifies this
      ensures records == if up && slot in old(records)
                         then old(records)[slot := old(records)[slot].(status := Protocol.Completed, imageId := Some(id))]
                         else old(records)
    {
      if up && slot in records {
        records := records[slot := records[slot].(status := Protocol.Completed, imageId := Some(id))];
      }
    }

    method Delete(slot: Protocol.Slot, up: bool)
      modifies this
      ensures records == if up then old(records) - {slot} else old(records)
    {
      if up {
        records := records - {slot};
      }
    }
  }

  /** The caching decorator. */
  class CachedImageRepository {
    const inner: ImageRepository
    const cache: InMemoryImageCache<Image>

    constructor (inner: ImageRepository, cache: InMemoryImageCache<Image>)
      ensures this.inner == inner && this.cache == cache
    {
      this.inner, this.cache := inner, cache;
    }

    ghost function Cached(): set<Image>
      reads cache
    {
      set id | id in cache.store :: cache.store[id].image
    }

    /** Every cached entity stands under its own id.  Other processes may have changed or deleted its row. */
    ghost predicate Valid()
      reads this, cache, Cached()
    {
      forall id <- cache.store :: cache.store[id].image.id == id
    }

    /** Every cached entity agrees with its row, except perhaps in status and date. */
    ghost predicate InStep()
      reads this, inner, cache, Cached()
    {
      forall id <- cache.store ::
        id in inner.rows && SameButStatus(cache.store[id].image.Value(), ModelToEntity(id, inner.rows[id]))
    }

    /** Save, then invalidate; a save that raises leaves the cache alone. */
    method Save(image: Image, up: bool) returns (ok: bool)
      requires Valid()
      modifies inner, cache
      ensures Valid() && ok == up && (old(InStep()) ==> InStep())
      ensures ok ==> inner.rows == SaveRow(old(inner.rows), image.Value()) && cache.store == old(cache.store) - {image.id}
      ensures !ok ==> inner.rows == old(inner.rows) && cache.store == old(cache.store)
    {
      ok := inner.Save(image, up);
      if ok {
        cache.Invalidate(image.id);
      }
    }

    /**
      A live entry is returned as the cached object itself, whatever became of its row; a miss loads a
      new object from the row and caches it.  Either way the caller and the cache share the object.  Only
      a miss reaches the database, where the call may raise.
     */
    method GetById(id: ImageId, now: real, up: bool, t1: real, t2: real) returns (image: Option<Image>, raised: bool)
      requires Valid()
      modifies cache
      ensures Valid() && (old(InStep()) ==> InStep())
      ensures
        var hit := id in Hits(old(cache.store), now);
        && (raised <==> !hit && !up)
        && (image.Some? <==> hit || (up && id in inner.rows))
        && (hit ==> image.value == old(cache.store)[id].image)
        && (image.Some? && !hit ==> fresh(image.value) && image.value.Value() == ModelToEntity(id, inner.rows[id]))
      ensures image.Some? ==> image.value.id == id && id in cache.store && cache.store[id].image == image.value
      ensures image.None? ==> id !in cache.store
      ensures forall other <- cache.store ::
                other != id ==> other in old(cache.store) && cache.store[other] == old(cache.store)[other]
    {
      hide SameButStatus, ModelToEntity;
      raised := false;
      image := cache.Get(id, now);
      if image.None? {
        if up {
          image := Load(id, t1, t2);
        } else {
          raised := true;
        }
      }
    }

    /** The miss: load from the row and cache what was loaded. */
    method Load(id: ImageId, t1: real, t2: real) returns (image: Option<Image>)
      requires Valid() && id !in cache.store
      modifies cache
      ensures Valid() && (old(InStep()) ==> InStep())
      ensures image.Some? <==> id in inner.rows
      ensures image.Some? ==>
                && fresh(image.value) && image.value.Value() == ModelToEntity(id, inner.rows[id])
                && id in cache.store && cache.store[id].image == image.value
      ensures image.None? ==> cache.store == old(cache.store)
      ensures forall other <- cache.store ::
                other != id ==> other in old(cache.store) && cache.store[other] == old(cache.store)[other]
    {
      hide SameButStatus, ModelToEntity, SetStep;
      image := inner.GetById(id);
      if image.Some? {
        SameAsItself(image.value.Value());
        ghost var before := cache.store;
        cache.Set(id, image.value, t1, t2);
        SetInserts(cache.limits, before, cache.store, id, image.value, t1, t2);
      }
    }

    /** Invalidates first: the entry is gone even when the delete raises. */
    method Delete(id: ImageId, up: bool) returns (deleted: Option<bool>)
      requires Valid()
      modifies inner, cache
      ensures Valid() && (old(InStep()) ==> InStep())
      ensures deleted == if up then Some(id in old(inner.rows)) else None
      ensures inner.rows == if up then old(inner.rows) - {id} else old(inner.rows)
      ensures cache.store == old(cache.store) - {id}
    {
      hide SameButStatus, ModelToEntity;
      cache.Invalidate(id);
      deleted := inner.Delete(id, up);
    }

    /** Deletes the rows, then invalidates each deleted image in turn. */
    method DeleteExpiredBatch(picked: seq<ImageId>, batchSize: nat, now: real) returns (deleted: seq<Row>)
      requires Valid()
      requires |picked| <= batchSize
      requires forall id <- picked :: id in inner.rows && IsExpired(inner.rows[id].expiresAt, now)
      modifies inner, cache
      ensures Valid() && (old(InStep()) ==> InStep())
      ensures inner.rows == old(inner.rows) - IdSet(picked)
      ensures cache.store == old(cache.store) - IdSet(picked)
      ensures deleted == RowsOf(old(inner.rows), picked)
    {
      hide IsExpired, SameButStatus, ModelToEntity;
      deleted := inner.DeleteExpiredBatch(picked, batchSize, now);
      var i := 0;
      while i < |picked|
        invariant 0 <= i <= |picked|
        invariant inner.rows == old(inner.rows) - IdSet(picked)
        invariant cache.store == old(cache.store) - IdSet(picked[..i])
      {
        assert IdSet(picked[..i + 1]) == IdSet(picked[..i]) + {picked[i]};
        cache.Invalidate(picked[i]);
        i := i + 1;
      }
      assert picked[..i] == picked;
    }
  }

  /** Others change records and rows while a request waits. */
  method Await(table: IdempotencyTable, repository: ImageRepository, recordsThen: map<Protocol.Slot, Protocol.Record>,
               rowsThen: map<ImageId, Row>)
    modifies table, repository
    ensures table.records == recordsThen && repository.rows == rowsThen
  {
    table.records := recordsThen;
    repository.rows := rowsThen;
  }

  /** The images a cache still shows at a time. */
  ghost function Hits(store: Store<Image>, now: real): set<ImageId> {
    set id | id in store && now <= store[id].expiresAt
  }

  /** Content-addressed files. */
  class LocalImageStorage {
    const digest: Bytes -> string
    var files: map<Path, Bytes>

    constructor (digest: Bytes -> string)
      ensures this.digest == digest && files == map[]
    {
      this.digest, files := digest, map[];
    }

    /** None when the write raises, having changed nothing or torn the file. */
    method Store(filename: string, data: Bytes, how: Writing) returns (path: Option<Path>)
      modifies this
      ensures path == if how.Writes? then Some(PathOf(digest, filename, data)) else None
      ensures files == Written(old(files), PathOf(digest, filename, data), data, how)
    {
      var dest := PathOf(digest, filename, data);
      match how {
        case Writes =>
          files := files[dest := data];
          return Some(dest);
        case Refuses =>
          return None;
        case Tears(written) =>
          files := files[dest := written];
          return None;
      }
    }

    /** A missing file raises like a failing read. */
    method Retrieve(path: Path, up: bool) returns (data: Option<Bytes>)
      ensures data == if up && path in files then Some(files[path]) else None
    {
      data := if up && path in files then Some(files[path]) else None;
    }

    method Delete(path: Path, how: Deletion)
      modifies this
      ensures files == Deleted(old(files), path, how)
    {
      if how.Deletes? {
        files := files - {path};
      }
    }
  }

  class ApplyRetentionUseCase {
    const repository: CachedImageRepository
    const storage: LocalImageStorage

    constructor (repository: CachedImageRepository, storage: LocalImageStorage)
      ensures this.repository == repository && this.storage == storage
    {
      this.repository, this.storage := repository, storage;
    }

    /** One image of the sweep: its original, then its thumbnail unless the original's delete raised. */
    method DeleteFiles(row: Row, original: Deletion, thumb: Deletion) returns (worst: Deletion)
      modifies storage
      ensures storage.files == SweepOne(old(storage.files), row, original, thumb)
      ensures worst.FailsOther? <==> Aborts(row, original, thumb)
      ensures worst.FailsOs? <==> FailsForOs(row, original, thumb)
    {
      storage.Delete(row.originalPath, original);
      worst := original;
      if original.Deletes? && row.thumbnailPath.Some? {
        storage.Delete(row.thumbnailPath.value, thumb);
        worst := thumb;
      }
    }

    /** The loop over the deleted images. */
    method DeleteAll(rows: seq<Row>, how: seq<(Deletion, Deletion)>) returns (errors: nat, finished: bool)
      requires |rows| == |how|
      modifies storage
      ensures storage.files == Sweep(old(storage.files), rows, how) && errors == SweepErrors(rows, how)
      ensures finished <==> forall i :: 0 <= i < |rows| ==> !Aborts(rows[i], how[i].0, how[i].1)
    {
      errors, finished := 0, true;
      var i := 0;
      while i < |rows|
        invariant 0 <= i <= |rows| && finished
        invariant errors + SweepErrors(rows[i..], how[i..]) == SweepErrors(rows, how)
        invariant forall j :: 0 <= j < i ==> !Aborts(rows[j], how[j].0, how[j].1)
        invariant Sweep(storage.files, rows[i..], how[i..]) == Sweep(old(storage.files), rows, how)
      {
        assert rows[i..][1..] == rows[i + 1..] && how[i..][1..] == how[i + 1..];
        var worst := DeleteFiles(rows[i], how[i].0, how[i].1);
        if worst.FailsOther? {
          finished := false;
          return;
        }
        if worst.FailsOs? {
          errors := errors + 1;
        }
        i := i + 1;
      }
    }

    /** The sweep; `errors` counts OSErrors, `finished` is false when another exception ended the loop. */
    method Execute(picked: seq<ImageId>, batchSize: nat, now: real, how: seq<(Deletion, Deletion)>)
      returns (errors: nat, finished: bool)
      requires repository.Valid() && |how| == |picked| <= batchSize
      requires forall id <- picked ::
                 id in repository.inner.rows && IsExpired(repository.inner.rows[id].expiresAt, now)
      modifies repository.inner, repository.cache, storage
      ensures repository.Valid() && (old(repository.InStep()) ==> repository.InStep())
      ensures
        var rows := RowsOf(old(repository.inner.rows), picked);
        && errors == SweepErrors(rows, how)
        && (finished <==> forall i :: 0 <= i < |rows| ==> !Aborts(rows[i], how[i].0, how[i].1))
      ensures World(repository.inner.rows, storage.files)
              == RetentionEffect(World(old(repository.inner.rows), old(storage.files)), picked, how)
      ensures forall id <- picked :: id !in repository.inner.rows && id !in repository.cache.store
      ensures forall id <- old(repository.inner.rows) ::
                old(repository.inner.rows)[id].expiresAt.None? || now < old(repository.inner.rows)[id].expiresAt.value ==>
                  id in repository.inner.rows && repository.inner.rows[id] == old(repository.inner.rows)[id]
    {
      hide SameButStatus, ModelToEntity, Sweep, SweepErrors;
      var rows := repository.DeleteExpiredBatch(picked, batchSize, now);
      errors, finished := DeleteAll(rows, how);
    }
  }
}
