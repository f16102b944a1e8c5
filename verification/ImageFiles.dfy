/**
  What uploads, processing runs and retention sweeps do to the image rows and the stored files, call
  by call, when they do not overlap and any repository or storage call may fail.
 */
module ImageFiles {
  import opened Basics
  import opened ImageEntity
  import Sanitize

  datatype World = World(rows: map<ImageId, Row>, files: map<Path, Bytes>)

  /** How a storage write ends; a torn write raises after part of the data is in the file. */
  datatype Writing = Writes | Refuses | Tears(written: Bytes)

  /** How a storage delete ends; deleting a missing file is not an error. */
  datatype Deletion = Deletes | FailsOs | FailsOther

  /** The base name under which storage keeps a file. */
  function StoredName(filename: string): string {
    var name := Sanitize.PosixName(filename);
    if name == "" then "unnamed" else name
  }

  /** The content-addressed path storage gives to a file. */
  function PathOf(digest: Bytes -> string, filename: string, data: Bytes): Path {
    Path(digest(data), StoredName(filename))
  }

  function ThumbnailName(filename: string): string { "thumb_" + filename }

  function SaveRow(rows: map<ImageId, Row>, v: ImageValue): map<ImageId, Row> {
    rows[v.id := EntityToModel(v, if v.id in rows then Some(rows[v.id]) else None)]
  }

  function Written(files: map<Path, Bytes>, path: Path, data: Bytes, how: Writing): map<Path, Bytes> {
    match how
    case Writes => files[path := data]
    case Refuses => files
    case Tears(written) => files[path := written]
  }

  function Deleted(files: map<Path, Bytes>, path: Path, how: Deletion): map<Path, Bytes> {
    if how.Deletes? then files - {path} else files
  }

  // ---------------------------------------------------------------------------------------
  // Upload
  // ---------------------------------------------------------------------------------------

  datatype Upload = Upload(id: ImageId, filename: string, data: Bytes, tags: seq<string>, expiresAt: Option<real>,
                           store: Writing, saveUp: bool, now: real)

  function NewImage(u: Upload, path: Path): ImageValue {
    ImageValue(u.id, u.filename, path, None, None, Pending, u.tags, u.now, u.now, u.expiresAt)
  }

  function UploadEffect(digest: Bytes -> string, w: World, u: Upload): World {
    var path := PathOf(digest, u.filename, u.data);
    var stored := w.(files := Written(w.files, path, u.data, u.store));
    if !u.store.Writes? || !u.saveUp then stored else stored.(rows := SaveRow(w.rows, NewImage(u, path)))
  }

  // ---------------------------------------------------------------------------------------
  // Process
  // ---------------------------------------------------------------------------------------

  datatype Thumbnail = Thumbnail(data: Bytes, metadata: Metadata)

  /** How the calls of one processing run end, and the clock at its three status changes. */
  datatype Calls = Calls(
    saveProcessingUp: bool, retrieveUp: bool, thumbnail: Option<Thumbnail>, store: Writing, saveCompletedUp: bool,
    cleanup: Deletion, saveFailedUp: bool, t1: real, t2: real, t3: real)

  /** How far the try block got: the entity, the stored thumbnail if any, and which saves went through. */
  datatype Tried = Tried(world: World, entity: ImageValue, thumb: Option<Path>, anySave: bool, ok: bool)

  /** The try block after the first save: read the original, make and store the thumbnail, save the row COMPLETED. */
  function ProduceEffect(digest: Bytes -> string, w: World, processing: ImageValue, p: Calls): Tried {
    if !(p.retrieveUp && processing.originalPath in w.files) || p.thumbnail.None? then
      Tried(w, processing, None, true, false)
    else
      var thumb := p.thumbnail.value;
      var path := PathOf(digest, ThumbnailName(processing.filename), thumb.data);
      var stored := w.(files := Written(w.files, path, thumb.data, p.store));
      var completed := MarkedCompleted(processing, path, thumb.metadata, p.t2);
      if !p.store.Writes? then Tried(stored, processing, None, true, false)
      else if !p.saveCompletedUp then Tried(stored, completed, Some(path), true, false)
      else Tried(stored.(rows := SaveRow(w.rows, completed)), completed, Some(path), true, true)
  }

  function TryEffect(digest: Bytes -> string, w: World, seen: ImageValue, p: Calls): Tried {
    var processing := MarkedProcessing(seen, p.t1);
    if !p.saveProcessingUp then Tried(w, processing, None, false, false)
    else ProduceEffect(digest, w.(rows := SaveRow(w.rows, processing)), processing, p)
  }

  datatype Processed = Processed(world: World, entity: ImageValue, anySave: bool, lastSave: bool, ok: bool)

  /** The except block: clean up the thumbnail, mark the image failed, save it, re-raise. */
  function HandleEffect(tried: Tried, p: Calls): Processed {
    var files := if tried.thumb.Some? then Deleted(tried.world.files, tried.thumb.value, p.cleanup)
                 else tried.world.files;
    if tried.thumb.Some? && p.cleanup.FailsOther? then
      Processed(tried.world, tried.entity, tried.anySave, false, false)
    else
      var failed := MarkedFailed(tried.entity, p.t3);
      if p.saveFailedUp then
        Processed(World(SaveRow(tried.world.rows, failed), files), failed, true, true, false)
      else Processed(World(tried.world.rows, files), failed, tried.anySave, false, false)
  }

  /**
    One processing run on an entity as get_by_id returned it.  The entity comes from a cache, so it may
    be any value the row ever had, and the row may be gone.
   */
  function ProcessEffect(digest: Bytes -> string, w: World, seen: ImageValue, p: Calls): Processed {
    var tried := TryEffect(digest, w, seen, p);
    if tried.ok then Processed(tried.world, tried.entity, true, true, true) else HandleEffect(tried, p)
  }

  lemma OnlyTheTrySucceeds(digest: Bytes -> string, w: World, seen: ImageValue, p: Calls)
    ensures
      var tried := TryEffect(digest, w, seen, p);
      (tried.ok ==> tried.anySave) && !HandleEffect(tried, p).ok
  {
    hide PathOf, SaveRow;
  }

  // ---------------------------------------------------------------------------------------
  // Retention
  // ---------------------------------------------------------------------------------------

  /** The files of one deleted image; an OSError skips the rest of this image. */
  function SweepOne(files: map<Path, Bytes>, row: Row, original: Deletion, thumb: Deletion): map<Path, Bytes> {
    var without := Deleted(files, row.originalPath, original);
    if original.Deletes? && row.thumbnailPath.Some? then Deleted(without, row.thumbnailPath.value, thumb) else without
  }

  predicate Aborts(row: Row, original: Deletion, thumb: Deletion) {
    original.FailsOther? || (original.Deletes? && row.thumbnailPath.Some? && thumb.FailsOther?)
  }

  /** The loop over the deleted images, until something other than an OSError ends it. */
  function Sweep(files: map<Path, Bytes>, rows: seq<Row>, how: seq<(Deletion, Deletion)>): map<Path, Bytes>
    requires |rows| == |how|
  {
    if rows == [] then files
    else
      var rest := SweepOne(files, rows[0], how[0].0, how[0].1);
      if Aborts(rows[0], how[0].0, how[0].1) then rest else Sweep(rest, rows[1..], how[1..])
  }

  /** An OSError ended one of the two deletes. */
  predicate FailsForOs(row: Row, original: Deletion, thumb: Deletion) {
    original.FailsOs? || (original.Deletes? && row.thumbnailPath.Some? && thumb.FailsOs?)
  }

  /** How many images of the sweep are counted as errors before it ends. */
  function SweepErrors(rows: seq<Row>, how: seq<(Deletion, Deletion)>): nat
    requires |rows| == |how|
  {
    if rows == [] || Aborts(rows[0], how[0].0, how[0].1) then 0
    else (if FailsForOs(rows[0], how[0].0, how[0].1) then 1 else 0) + SweepErrors(rows[1..], how[1..])
  }

  /** The images that the sweep gets to and that meet an OSError. */
  ghost function OsFailures(rows: seq<Row>, how: seq<(Deletion, Deletion)>): set<nat>
    requires |rows| == |how|
  {
    set i: nat | i < |rows| && Reaches(rows, how, i) && FailsForOs(rows[i], how[i].0, how[i].1)
  }

  lemma ReachesStep(rows: seq<Row>, how: seq<(Deletion, Deletion)>, i: nat)
    requires |rows| == |how| && 0 < i <= |rows|
    ensures Reaches(rows, how, i) <==> !Aborts(rows[0], how[0].0, how[0].1) && Reaches(rows[1..], how[1..], i - 1)
  {
    var rows', how' := rows[1..], how[1..];
    hide Aborts;
    if Reaches(rows, how, i) {
      forall j | 0 <= j < i - 1 ensures !Aborts(rows'[j], how'[j].0, how'[j].1) {
        assert rows'[j] == rows[j + 1] && how'[j] == how[j + 1];
      }
    }
    if !Aborts(rows[0], how[0].0, how[0].1) && Reaches(rows', how', i - 1) {
      forall j | 0 <= j < i ensures !Aborts(rows[j], how[j].0, how[j].1) {
        assert j > 0 ==> rows'[j - 1] == rows[j] && how'[j - 1] == how[j];
      }
    }
  }

  function Shifted(places: set<nat>): set<nat> {
    set i | i in places :: i + 1
  }

  lemma {:induction false} ShiftKeepsSize(places: set<nat>)
    ensures |Shifted(places)| == |places|
  {
    if places == {} {
      assert Shifted(places) == {};
    } else {
      var x :| x in places;
      ShiftKeepsSize(places - {x});
      ShiftedOne(places, x);
    }
  }

  lemma ShiftedOne(places: set<nat>, x: nat)
    requires x in places
    ensures Shifted(places) == Shifted(places - {x}) + {x + 1} && x + 1 !in Shifted(places - {x})
  {
    forall i: nat ensures i in Shifted(places) <==> i in Shifted(places - {x}) + {x + 1} {
      assert i in Shifted(places) <==> i > 0 && i - 1 in places;
      assert i in Shifted(places - {x}) <==> i > 0 && i - 1 in places - {x};
    }
  }

  /** The error count is the number of images the sweep gets to that meet an OSError. */
  lemma {:induction false} ErrorsAreOsFailures(rows: seq<Row>, how: seq<(Deletion, Deletion)>)
    requires |rows| == |how|
    ensures SweepErrors(rows, how) == |OsFailures(rows, how)|
  {
    if rows == [] {
      assert OsFailures(rows, how) == {};
    } else if Aborts(rows[0], how[0].0, how[0].1) {
      AbortedAtOnce(rows, how);
    } else {
      ErrorsAreOsFailures(rows[1..], how[1..]);
      ShiftKeepsSize(OsFailures(rows[1..], how[1..]));
      OsFailuresStep(rows, how);
    }
  }

  lemma AbortedAtOnce(rows: seq<Row>, how: seq<(Deletion, Deletion)>)
    requires |rows| == |how| && rows != [] && Aborts(rows[0], how[0].0, how[0].1)
    ensures OsFailures(rows, how) == {}
  {
    forall i | 0 < i < |rows| ensures !Reaches(rows, how, i) {
      ReachesStep(rows, how, i);
    }
    assert !FailsForOs(rows[0], how[0].0, how[0].1);
  }

  lemma OsFailuresStep(rows: seq<Row>, how: seq<(Deletion, Deletion)>)
    requires |rows| == |how| && rows != [] && !Aborts(rows[0], how[0].0, how[0].1)
    ensures
      var shifted := Shifted(OsFailures(rows[1..], how[1..]));
      && 0 !in shifted
      && OsFailures(rows, how) == (if FailsForOs(rows[0], how[0].0, how[0].1) then {0} else {}) + shifted
  {
    hide Aborts, FailsForOs, Reaches;
    var rest := OsFailures(rows[1..], how[1..]);
    ReachesFirst(rows, how);
    forall i: nat | 0 < i < |rows| ensures i in OsFailures(rows, how) <==> i - 1 in rest {
      ReachesStep(rows, how, i);
      assert rows[1..][i - 1] == rows[i] && how[1..][i - 1] == how[i];
    }
    forall i: nat ensures i in Shifted(rest) <==> i > 0 && i - 1 in rest {
      assert i > 0 && i - 1 in rest ==> i - 1 + 1 in Shifted(rest);
    }
  }

  function RowsOf(rows: map<ImageId, Row>, ids: seq<ImageId>): (picked: seq<Row>)
    requires forall id <- ids :: id in rows
    ensures |picked| == |ids| && forall i :: 0 <= i < |ids| ==> picked[i] == rows[ids[i]]
  {
    seq(|ids|, i requires 0 <= i < |ids| => rows[ids[i]])
  }

  function IdSet(ids: seq<ImageId>): set<ImageId> {
    set id | id in ids
  }

  function RetentionEffect(w: World, ids: seq<ImageId>, how: seq<(Deletion, Deletion)>): World
    requires |ids| == |how| && forall id <- ids :: id in w.rows
  {
    World(w.rows - IdSet(ids), Sweep(w.files, RowsOf(w.rows, ids), how))
  }

  /** The sweep of this image deletes the path: as its original, or as its thumbnail. */
  predicate DeletesPath(row: Row, original: Deletion, thumb: Deletion, path: Path) {
    original.Deletes? && (row.originalPath == path || (row.thumbnailPath == Some(path) && thumb.Deletes?))
  }

  /** The sweep gets as far as image i. */
  predicate Reaches(rows: seq<Row>, how: seq<(Deletion, Deletion)>, i: nat)
    requires |rows| == |how| && i <= |rows|
  {
    forall j :: 0 <= j < i ==> !Aborts(rows[j], how[j].0, how[j].1)
  }

  /** Some image that the sweep gets to deletes the path. */
  predicate SweptAway(rows: seq<Row>, how: seq<(Deletion, Deletion)>, path: Path)
    requires |rows| == |how|
  {
    exists i :: 0 <= i < |rows| && Reaches(rows, how, i) && DeletesPath(rows[i], how[i].0, how[i].1, path)
  }

  /** A file survives a sweep exactly when no image that the sweep gets to deletes it, and then unchanged. */
  lemma {:induction false} SweepKeepsExactly(files: map<Path, Bytes>, rows: seq<Row>, how: seq<(Deletion, Deletion)>,
                                             path: Path)
    requires |rows| == |how|
    ensures path in Sweep(files, rows, how) <==> path in files && !SweptAway(rows, how, path)
    ensures path in Sweep(files, rows, how) ==> Sweep(files, rows, how)[path] == files[path]
  {
    if rows != [] {
      var rest := SweepOne(files, rows[0], how[0].0, how[0].1);
      SweepKeepsExactly(rest, rows[1..], how[1..], path);
      SweptAwayStep(rows, how, path);
    }
  }

  lemma SweptAwayStep(rows: seq<Row>, how: seq<(Deletion, Deletion)>, path: Path)
    requires |rows| == |how| && rows != []
    ensures SweptAway(rows, how, path)
            <==> DeletesPath(rows[0], how[0].0, how[0].1, path)
                 || (!Aborts(rows[0], how[0].0, how[0].1) && SweptAway(rows[1..], how[1..], path))
  {
    var rows', how' := rows[1..], how[1..];
    hide DeletesPath, Aborts, Reaches;
    if SweptAway(rows, how, path) {
      var i :| 0 <= i < |rows| && Reaches(rows, how, i) && DeletesPath(rows[i], how[i].0, how[i].1, path);
      if i > 0 {
        ReachesStep(rows, how, i);
        assert rows'[i - 1] == rows[i] && how'[i - 1] == how[i];
      }
    }
    if DeletesPath(rows[0], how[0].0, how[0].1, path) {
      ReachesFirst(rows, how);
    }
    if !Aborts(rows[0], how[0].0, how[0].1) && SweptAway(rows', how', path) {
      var i :| 0 <= i < |rows'| && Reaches(rows', how', i) && DeletesPath(rows'[i], how'[i].0, how'[i].1, path);
      ReachesStep(rows, how, i + 1);
      assert rows'[i] == rows[i + 1] && how'[i] == how[i + 1];
    }
  }

  lemma ReachesFirst(rows: seq<Row>, how: seq<(Deletion, Deletion)>)
    requires |rows| == |how|
    ensures Reaches(rows, how, 0)
  {
  }

  // ---------------------------------------------------------------------------------------
  // Consistency of rows and files
  // ---------------------------------------------------------------------------------------

  /** The original file is there; a COMPLETED row has metadata and a thumbnail file that is there. */
  predicate RowOk(row: Row, files: map<Path, Bytes>) {
    && row.originalPath in files
    && (row.status == Completed ==>
          row.width.Some? && row.thumbnailPath.Some? && row.thumbnailPath.value in files)
  }

  predicate Uses(row: Row, path: Path) {
    row.originalPath == path || row.thumbnailPath == Some(path)
  }

  /** No other image's row refers to the path. */
  predicate Unshared(rows: map<ImageId, Row>, id: ImageId, path: Path) {
    forall other <- rows :: other != id ==> !Uses(rows[other], path)
  }

  predicate OwnPaths(rows: map<ImageId, Row>, id: ImageId)
    requires id in rows
  {
    && Unshared(rows, id, rows[id].originalPath)
    && (rows[id].thumbnailPath.Some? ==> Unshared(rows, id, rows[id].thumbnailPath.value))
  }

  predicate Consistent(w: World) {
    forall id <- w.rows :: RowOk(w.rows[id], w.files) && OwnPaths(w.rows, id)
  }

  /** Entities that agree with their row except that the row may be behind in status and date. */
  predicate SameButStatus(v: ImageValue, u: ImageValue) {
    v.(status := u.status, updatedAt := u.updatedAt) == u
  }

  lemma SameAsItself(v: ImageValue)
    ensures SameButStatus(v, v)
  {
  }

  /** The path of the thumbnail the processor made. */
  function ThumbnailPath(digest: Bytes -> string, seen: ImageValue, p: Calls): Path
    requires p.thumbnail.Some?
  {
    PathOf(digest, ThumbnailName(seen.filename), p.thumbnail.value.data)
  }

  /** The run gets as far as writing the thumbnail. */
  predicate MakesThumbnail(w: World, seen: ImageValue, p: Calls) {
    p.saveProcessingUp && p.retrieveUp && seen.originalPath in w.files && p.thumbnail.Some?
  }

  /** The run gets as far as a stored thumbnail and an entity marked COMPLETED. */
  predicate StoresThumbnail(w: World, seen: ImageValue, p: Calls) {
    MakesThumbnail(w, seen, p) && p.store.Writes?
  }

  /** No other image uses a path of the entity or of its new thumbnail. */
  predicate OwnsItsPaths(digest: Bytes -> string, w: World, seen: ImageValue, p: Calls) {
    && Unshared(w.rows, seen.id, seen.originalPath)
    && (seen.thumbnailPath.Some? ==> Unshared(w.rows, seen.id, seen.thumbnailPath.value))
    && (p.thumbnail.Some? ==> Unshared(w.rows, seen.id, ThumbnailPath(digest, seen, p)))
  }

  /**
    What a run that saves anything needs: the original is there, and is not itself the thumbnail that
    the cleanup deletes.
   */
  predicate OriginalSurvives(digest: Bytes -> string, w: World, seen: ImageValue, p: Calls) {
    p.saveProcessingUp || p.saveFailedUp ==>
      && seen.originalPath in w.files
      && !(StoresThumbnail(w, seen, p) && !p.saveCompletedUp && p.cleanup.Deletes?
           && ThumbnailPath(digest, seen, p) == seen.originalPath)
  }

  /** Saving an entity whose paths nobody else uses keeps the world consistent if its files are there. */
  lemma SaveKeepsConsistent(w: World, v: ImageValue)
    requires Consistent(w)
    requires Unshared(w.rows, v.id, v.originalPath) && v.originalPath in w.files
    requires v.thumbnailPath.Some? ==> Unshared(w.rows, v.id, v.thumbnailPath.value)
    requires v.status == Completed ==>
               v.metadata.Some? && v.thumbnailPath.Some? && v.thumbnailPath.value in w.files
    ensures Consistent(World(SaveRow(w.rows, v), w.files))
  {
    var rows := SaveRow(w.rows, v);
    forall id <- rows ensures RowOk(rows[id], w.files) && OwnPaths(rows, id) {
      if id != v.id {
        assert OwnPaths(w.rows, id);
      }
    }
  }

  lemma WriteKeepsConsistent(w: World, path: Path, data: Bytes, how: Writing)
    requires Consistent(w)
    ensures Consistent(World(w.rows, Written(w.files, path, data, how)))
  {
    forall id <- w.rows ensures RowOk(w.rows[id], Written(w.files, path, data, how)) {
      assert RowOk(w.rows[id], w.files);
    }
  }

  /** Deleting a file that only a row not COMPLETED may name as its thumbnail keeps the world consistent. */
  lemma DeleteKeepsConsistent(w: World, id: ImageId, path: Path)
    requires Consistent(w) && Unshared(w.rows, id, path)
    requires id in w.rows ==> w.rows[id].originalPath != path && w.rows[id].status != Completed
    ensures Consistent(World(w.rows, w.files - {path}))
  {
    forall other <- w.rows ensures RowOk(w.rows[other], w.files - {path}) {
      assert RowOk(w.rows[other], w.files);
    }
  }

  lemma ProduceKeepsConsistent(digest: Bytes -> string, w: World, v: ImageValue, p: Calls)
    requires Consistent(w) && OwnsItsPaths(digest, w, v, p) && v.originalPath in w.files
    requires v.id in w.rows && w.rows[v.id].status == Processing && w.rows[v.id].originalPath == v.originalPath
    requires v.status == Processing
    ensures
      var tried := ProduceEffect(digest, w, v, p);
      && Consistent(tried.world) && OwnsItsPaths(digest, tried.world, tried.entity, p)
      && v.id in tried.world.rows && tried.world.rows[v.id].originalPath == v.originalPath
      && v.originalPath in tried.world.files
      && (tried.thumb.Some? ==> Unshared(tried.world.rows, v.id, tried.thumb.value))
      && (!tried.ok ==> tried.world.rows == w.rows)
  {
    hide PathOf;
    if p.retrieveUp && p.thumbnail.Some? {
      var thumb, path := p.thumbnail.value, ThumbnailPath(digest, v, p);
      WriteKeepsConsistent(w, path, thumb.data, p.store);
      var stored := w.(files := Written(w.files, path, thumb.data, p.store));
      if p.store.Writes? && p.saveCompletedUp {
        SaveKeepsConsistent(stored, MarkedCompleted(v, path, thumb.metadata, p.t2));
      }
    }
  }

  /** The try block, on any entity whose original is there. */
  lemma TryKeepsConsistent(digest: Bytes -> string, w: World, seen: ImageValue, p: Calls)
    requires Consistent(w) && OwnsItsPaths(digest, w, seen, p) && seen.originalPath in w.files
    ensures
      var tried := TryEffect(digest, w, seen, p);
      && Consistent(tried.world) && OwnsItsPaths(digest, tried.world, tried.entity, p)
      && tried.entity.id == seen.id && tried.entity.originalPath == seen.originalPath
      && seen.originalPath in tried.world.files
      && (tried.thumb.Some? ==>
            && Unshared(tried.world.rows, seen.id, tried.thumb.value)
            && StoresThumbnail(w, seen, p) && tried.thumb.value == ThumbnailPath(digest, seen, p))
      && (tried.thumb.Some? && !tried.ok ==>
            !p.saveCompletedUp && seen.id in tried.world.rows
            && tried.world.rows[seen.id].originalPath == seen.originalPath
            && tried.world.rows[seen.id].status == Processing)
  {
    hide PathOf;
    var processing := MarkedProcessing(seen, p.t1);
    if p.saveProcessingUp {
      SaveKeepsConsistent(w, processing);
      SaveKeepsOwnership(digest, w, seen, p);
      hide Consistent, OwnsItsPaths, Unshared;
      ProduceKeepsConsistent(digest, w.(rows := SaveRow(w.rows, processing)), processing, p);
    }
  }

  lemma SaveKeepsOwnership(digest: Bytes -> string, w: World, seen: ImageValue, p: Calls)
    requires OwnsItsPaths(digest, w, seen, p)
    ensures
      var processing := MarkedProcessing(seen, p.t1);
      OwnsItsPaths(digest, w.(rows := SaveRow(w.rows, processing)), processing, p)
  {
    hide PathOf;
  }

  /** A processing run on an entity whose original survives keeps rows and files consistent, whatever fails. */
  lemma {:induction false} ProcessKeepsConsistent(digest: Bytes -> string, w: World, seen: ImageValue, p: Calls)
    requires Consistent(w) && OwnsItsPaths(digest, w, seen, p) && OriginalSurvives(digest, w, seen, p)
    requires seen.originalPath in w.files
    ensures Consistent(ProcessEffect(digest, w, seen, p).world)
  {
    var tried := TryEffect(digest, w, seen, p);
    TryKeepsConsistent(digest, w, seen, p);
    if !tried.ok && !(tried.thumb.Some? && p.cleanup.FailsOther?) {
      var w' := tried.world;
      if tried.thumb.Some? && p.cleanup.Deletes? {
        assert p.saveProcessingUp && tried.thumb.value != seen.originalPath;
        hide TryEffect, PathOf, Consistent;
        DeleteKeepsConsistent(w', seen.id, tried.thumb.value);
        w' := World(w'.rows, w'.files - {tried.thumb.value});
      }
      hide TryEffect, PathOf, Consistent;
      if p.saveFailedUp {
        SaveKeepsConsistent(w', MarkedFailed(tried.entity, p.t3));
      }
    }
  }

  /** Nothing is written or deleted when neither of the first saves goes through. */
  lemma NoSaveNoChange(digest: Bytes -> string, w: World, seen: ImageValue, p: Calls)
    requires !p.saveProcessingUp && !p.saveFailedUp
    ensures ProcessEffect(digest, w, seen, p).world == w
  {
  }

  /** A run that saves something without the original surviving leaves a row whose original is missing. */
  lemma LostOriginal(digest: Bytes -> string, w: World, seen: ImageValue, p: Calls)
    requires !OriginalSurvives(digest, w, seen, p)
    ensures
      var done := ProcessEffect(digest, w, seen, p).world;
      seen.id in done.rows && done.rows[seen.id].originalPath !in done.files
  {
    hide PathOf;
  }

  /**
    Exactly when a processing run keeps rows and files consistent, for any entity a cache may have
    handed out: when it saves nothing, or the entity's original is there and survives the cleanup.
   */
  lemma {:induction false} ProcessConsistentExactly(digest: Bytes -> string, w: World, seen: ImageValue, p: Calls)
    requires Consistent(w) && OwnsItsPaths(digest, w, seen, p)
    ensures Consistent(ProcessEffect(digest, w, seen, p).world) <==> OriginalSurvives(digest, w, seen, p)
  {
    hide ProcessEffect, OwnsItsPaths;
    if !OriginalSurvives(digest, w, seen, p) {
      LostOriginal(digest, w, seen, p);
    } else if p.saveProcessingUp || p.saveFailedUp {
      ProcessKeepsConsistent(digest, w, seen, p);
    } else {
      NoSaveNoChange(digest, w, seen, p);
    }
  }

  /** An upload whose path no other image uses keeps rows and files consistent. */
  lemma UploadKeepsConsistent(digest: Bytes -> string, w: World, u: Upload)
    requires Consistent(w) && Unshared(w.rows, u.id, PathOf(digest, u.filename, u.data))
    ensures Consistent(UploadEffect(digest, w, u))
  {
    hide PathOf;
    var path := PathOf(digest, u.filename, u.data);
    WriteKeepsConsistent(w, path, u.data, u.store);
    if u.store.Writes? && u.saveUp {
      SaveKeepsConsistent(w.(files := w.files[path := u.data]), NewImage(u, path));
    }
  }

  lemma NobodySweepsIt(rows: seq<Row>, how: seq<(Deletion, Deletion)>, path: Path)
    requires |rows| == |how| && forall row <- rows :: !Uses(row, path)
    ensures !SweptAway(rows, how, path)
  {
    forall i | 0 <= i < |rows| ensures !DeletesPath(rows[i], how[i].0, how[i].1, path) {
      assert !Uses(rows[i], path);
    }
  }

  /** And a retention sweep: it deletes only files that no remaining row uses. */
  lemma RetentionKeepsConsistent(w: World, ids: seq<ImageId>, how: seq<(Deletion, Deletion)>)
    requires Consistent(w) && |ids| == |how| && forall id <- ids :: id in w.rows
    ensures Consistent(RetentionEffect(w, ids, how))
  {
    var w', victims := RetentionEffect(w, ids, how), RowsOf(w.rows, ids);
    forall id <- w'.rows ensures RowOk(w'.rows[id], w'.files) && OwnPaths(w'.rows, id) {
      assert RowOk(w.rows[id], w.files) && OwnPaths(w.rows, id);
      forall path | Uses(w.rows[id], path) && path in w.files ensures path in w'.files {
        forall row <- victims ensures !Uses(row, path) {
          var i :| 0 <= i < |ids| && victims[i] == row;
          assert ids[i] in ids && ids[i] != id;
        }
        NobodySweepsIt(victims, how, path);
        SweepKeepsExactly(w.files, victims, how, path);
      }
    }
  }

  /** No image that the sweep gets to deletes a file the row needs. */
  predicate Spared(row: Row, victims: seq<Row>, how: seq<(Deletion, Deletion)>)
    requires |victims| == |how|
  {
    && !SweptAway(victims, how, row.originalPath)
    && (row.status == Completed && row.thumbnailPath.Some? ==> !SweptAway(victims, how, row.thumbnailPath.value))
  }

  /** Even when images share paths: the remaining rows keep their files exactly when the sweep spares them. */
  lemma RetentionPresentExactly(w: World, ids: seq<ImageId>, how: seq<(Deletion, Deletion)>)
    requires (forall id <- w.rows :: RowOk(w.rows[id], w.files)) && |ids| == |how| && forall id <- ids :: id in w.rows
    ensures
      var w', victims := RetentionEffect(w, ids, how), RowsOf(w.rows, ids);
      (forall id <- w'.rows :: RowOk(w'.rows[id], w'.files)) <==> (forall id <- w'.rows :: Spared(w'.rows[id], victims, how))
  {
    var w', victims := RetentionEffect(w, ids, how), RowsOf(w.rows, ids);
    forall id <- w'.rows ensures RowOk(w'.rows[id], w'.files) <==> Spared(w'.rows[id], victims, how) {
      var row := w.rows[id];
      assert RowOk(row, w.files);
      SweepKeepsExactly(w.files, victims, how, row.originalPath);
      if row.status == Completed {
        SweepKeepsExactly(w.files, victims, how, row.thumbnailPath.value);
      }
    }
  }

  // ---------------------------------------------------------------------------------------
  // Whole runs
  // ---------------------------------------------------------------------------------------

  datatype Operation =
    | UploadOp(upload: Upload)
    | ProcessOp(seen: ImageValue, calls: Calls)  // on the entity that get_by_id returned, from any cache
    | RetentionOp(ids: seq<ImageId>, how: seq<(Deletion, Deletion)>, now: real)

  /** A sweep takes expired rows. */
  predicate Sweepable(w: World, ids: seq<ImageId>, how: seq<(Deletion, Deletion)>, now: real) {
    |ids| == |how| && forall id <- ids :: id in w.rows && IsExpired(w.rows[id].expiresAt, now)
  }

  function Apply(digest: Bytes -> string, w: World, op: Operation): World {
    match op
    case UploadOp(u) => UploadEffect(digest, w, u)
    case ProcessOp(seen, calls) => ProcessEffect(digest, w, seen, calls).world
    case RetentionOp(ids, how, now) => if Sweepable(w, ids, how, now) then RetentionEffect(w, ids, how) else w
  }

  function Run(digest: Bytes -> string, ops: seq<Operation>): World {
    if ops == [] then World(map[], map[]) else Apply(digest, Run(digest, ops[..|ops| - 1]), ops[|ops| - 1])
  }

  /** The operation uses no path that another image uses. */
  predicate SharesNoPath(digest: Bytes -> string, w: World, op: Operation) {
    match op
    case UploadOp(u) => Unshared(w.rows, u.id, PathOf(digest, u.filename, u.data))
    case ProcessOp(seen, calls) => OwnsItsPaths(digest, w, seen, calls)
    case RetentionOp(_, _, _) => true
  }

  predicate FindsItsOriginal(digest: Bytes -> string, w: World, op: Operation) {
    op.ProcessOp? ==> OriginalSurvives(digest, w, op.seen, op.calls)
  }

  lemma ApplyConsistentExactly(digest: Bytes -> string, w: World, op: Operation)
    requires Consistent(w) && SharesNoPath(digest, w, op)
    ensures Consistent(Apply(digest, w, op)) <==> FindsItsOriginal(digest, w, op)
  {
    hide Consistent, UploadEffect, ProcessEffect, RetentionEffect, OriginalSurvives;
    match op
    case UploadOp(u) => UploadKeepsConsistent(digest, w, u);
    case ProcessOp(seen, calls) => ProcessConsistentExactly(digest, w, seen, calls);
    case RetentionOp(ids, how, now) =>
      if Sweepable(w, ids, how, now) { RetentionKeepsConsistent(w, ids, how); }
  }

  lemma RunStep(digest: Bytes -> string, ops: seq<Operation>, k: nat)
    requires k < |ops|
    ensures Run(digest, ops[..k + 1]) == Apply(digest, Run(digest, ops[..k]), ops[k])
  {
    hide Apply;
    assert ops[..k + 1][..k] == ops[..k];
  }

  /** Up to the first operation that does not find its original, everything is in place. */
  lemma {:induction false} PresentSoFar(digest: Bytes -> string, ops: seq<Operation>, k: nat)
    requires k <= |ops|
    requires forall i :: 0 <= i < |ops| ==> SharesNoPath(digest, Run(digest, ops[..i]), ops[i])
    requires forall i :: 0 <= i < k ==> FindsItsOriginal(digest, Run(digest, ops[..i]), ops[i])
    ensures Consistent(Run(digest, ops[..k]))
  {
    if k > 0 {
      PresentSoFar(digest, ops, k - 1);
      RunStep(digest, ops, k - 1);
      hide Run, Apply, Consistent, SharesNoPath, FindsItsOriginal;
      assert SharesNoPath(digest, Run(digest, ops[..k - 1]), ops[k - 1]);
      ApplyConsistentExactly(digest, Run(digest, ops[..k - 1]), ops[k - 1]);
    }
  }

  /**
    In every run of non-overlapping uploads, processing runs and retention sweeps with arbitrarily
    failing calls, on entities from any cache, if no storage path is used by two images: every row's
    original is present throughout, and every COMPLETED row has metadata and a thumbnail file that is
    present, if and only if every processing run that saves anything finds its original.
   */
  lemma {:induction false} FilesArePresentExactly(digest: Bytes -> string, ops: seq<Operation>)
    requires forall i :: 0 <= i < |ops| ==> SharesNoPath(digest, Run(digest, ops[..i]), ops[i])
    ensures (forall k :: 0 <= k <= |ops| ==> Consistent(Run(digest, ops[..k])))
            <==> (forall i :: 0 <= i < |ops| ==> FindsItsOriginal(digest, Run(digest, ops[..i]), ops[i]))
  {
    hide Run, Apply, Consistent, SharesNoPath, FindsItsOriginal;
    if forall i :: 0 <= i < |ops| ==> FindsItsOriginal(digest, Run(digest, ops[..i]), ops[i]) {
      forall k | 0 <= k <= |ops| ensures Consistent(Run(digest, ops[..k])) {
        PresentSoFar(digest, ops, k);
      }
    } else {
      var i :| 0 <= i < |ops| && !FindsItsOriginal(digest, Run(digest, ops[..i]), ops[i]);
      if Consistent(Run(digest, ops[..i])) {
        RunStep(digest, ops, i);
        ApplyConsistentExactly(digest, Run(digest, ops[..i]), ops[i]);
        assert !Consistent(Run(digest, ops[..i + 1]));
      }
    }
  }

  /**
    The condition is needed: another process's cache can still hold an image after a sweep took its row
    and file, and processing that image brings back a row whose original is gone.
   */
  lemma StaleEntityLosesOriginal(digest: Bytes -> string, u: Upload, now: real, p: Calls)
    requires u.store.Writes? && u.saveUp && IsExpired(u.expiresAt, now) && (p.saveProcessingUp || p.saveFailedUp)
    ensures
      var seen := NewImage(u, PathOf(digest, u.filename, u.data));
      var w := Run(digest, [UploadOp(u), RetentionOp([u.id], [(Deletes, Deletes)], now), ProcessOp(seen, p)]);
      u.id in w.rows && w.rows[u.id].originalPath !in w.files
  {
    var path := PathOf(digest, u.filename, u.data);
    var seen := NewImage(u, path);
    var o1, o2, o3 := UploadOp(u), RetentionOp([u.id], [(Deletes, Deletes)], now), ProcessOp(seen, p);
    RunThree(digest, o1, o2, o3);
    hide PathOf, Run, ProcessEffect;
    var w1 := Apply(digest, World(map[], map[]), o1);
    var row := EntityToModel(seen, None);
    assert w1.rows[u.id] == row;
    assert RowsOf(w1.rows, [u.id]) == [row];
    var w2 := Apply(digest, w1, o2);
    OneVictim(w1.files, row);
    assert path !in w2.files;
    LostOriginal(digest, w2, seen, p);
  }

  // ---------------------------------------------------------------------------------------
  // When the conditions hold by themselves
  // ---------------------------------------------------------------------------------------

  /** Something in the name stands after a slash. */
  predicate Nested(filename: string) {
    exists k :: 0 <= k < |filename| && filename[k] == '/' && Sanitize.PosixName(filename[k + 1..]) != ""
  }

  lemma PlainName(filename: string)
    requires '/' !in filename
    ensures Sanitize.PosixName(filename) == if filename == "." then "" else filename
  {
    Sanitize.NothingToDrop(filename, '/');
    assert filename == "." ==> Sanitize.AfterLast(filename, '/') == ".";
  }

  lemma {:induction false} FirstSlash(filename: string) returns (k: nat)
    requires '/' in filename
    ensures k < |filename| && filename[k] == '/' && '/' !in filename[..k]
  {
    if filename[0] == '/' {
      k := 0;
    } else {
      var rest := FirstSlash(filename[1..]);
      k := rest + 1;
      assert filename[..k] == [filename[0]] + filename[1..][..rest];
    }
  }

  lemma PlainThumbnailDiffers(filename: string)
    requires '/' !in filename
    ensures StoredName(ThumbnailName(filename)) != StoredName(filename)
  {
    PlainName(filename);
    PlainName(ThumbnailName(filename));
    assert |ThumbnailName(filename)| == |filename| + 6;
    assert ThumbnailName(filename)[0] == 't';
  }

  lemma SplitAt(filename: string, k: nat)
    requires k < |filename| && filename[k] == '/'
    ensures
      var head, tail := filename[..k], filename[k + 1..];
      && Sanitize.PosixName(filename)
         == (if Sanitize.PosixName(tail) != "" then Sanitize.PosixName(tail) else Sanitize.PosixName(head))
      && Sanitize.PosixName(ThumbnailName(filename))
         == (if Sanitize.PosixName(tail) != "" then Sanitize.PosixName(tail)
             else Sanitize.PosixName(ThumbnailName(head)))
  {
    var head, tail := filename[..k], filename[k + 1..];
    assert filename == head + "/" + tail && ThumbnailName(filename) == ThumbnailName(head) + "/" + tail;
    Sanitize.PosixNameOfJoin(head, tail);
    Sanitize.PosixNameOfJoin(ThumbnailName(head), tail);
  }

  /** A thumbnail's base name differs from the original's exactly when nothing in the name stands after a slash. */
  lemma ThumbnailNameDiffersExactly(filename: string)
    ensures StoredName(ThumbnailName(filename)) != StoredName(filename) <==> !Nested(filename)
  {
    hide ThumbnailName, Sanitize.PosixName;
    if Nested(filename) {
      var k :| 0 <= k < |filename| && filename[k] == '/' && Sanitize.PosixName(filename[k + 1..]) != "";
      SplitAt(filename, k);
    } else if '/' in filename {
      var k := FirstSlash(filename);
      SplitAt(filename, k);
      PlainThumbnailDiffers(filename[..k]);
    } else {
      PlainThumbnailDiffers(filename);
    }
  }

  /** Names as the upload endpoint makes them are not nested. */
  lemma SanitizedIsNotNested(s: string)
    ensures !Nested(Sanitize.SanitizeFilename(s))
  {
    Sanitize.SanitizedIsSafe(s);
  }

  /** Whatever the file name, storage keeps the file as one component of its directory, so no path leads out of it. */
  lemma StoredNameIsOneComponent(filename: string)
    ensures '/' !in StoredName(filename) && StoredName(filename) != ""
  {
    Sanitize.PosixNameIsOneComponent(filename);
  }

  /**
    Within one process the condition holds by itself: an entity that agrees with its row up to status
    and date, whose file is named after it, finds its original, unless its name is nested.
   */
  lemma AgreeingEntityFindsOriginal(digest: Bytes -> string, w: World, seen: ImageValue, p: Calls)
    requires Consistent(w)
    requires seen.id in w.rows && SameButStatus(seen, ModelToEntity(seen.id, w.rows[seen.id]))
    requires seen.originalPath.name == StoredName(seen.filename) && !Nested(seen.filename)
    ensures OriginalSurvives(digest, w, seen, p)
  {
    assert RowOk(w.rows[seen.id], w.files);
    ThumbnailNameDiffersExactly(seen.filename);
    hide StoredName, Nested;
  }

  /** The row's original is named after its file name, which is not nested. */
  predicate NamedAfterFile(row: Row) {
    row.originalPath.name == StoredName(row.filename) && !Nested(row.filename)
  }

  predicate AllNamed(w: World) {
    forall id <- w.rows :: NamedAfterFile(w.rows[id])
  }

  /** An upload of a name that is not nested; a processing run on an entity that agrees with its row up to status and date. */
  predicate Ordinary(w: World, op: Operation) {
    match op
    case UploadOp(u) => !Nested(u.filename)
    case ProcessOp(seen, _) => seen.id in w.rows && SameButStatus(seen, ModelToEntity(seen.id, w.rows[seen.id]))
    case RetentionOp(_, _, _) => true
  }

  /** Every row is as it was, or is the entity's and carries its names. */
  predicate TouchedBy(rows: map<ImageId, Row>, rows': map<ImageId, Row>, v: ImageValue) {
    forall id <- rows' ::
      (id in rows && rows'[id] == rows[id])
      || (id == v.id && rows'[id].filename == v.filename && rows'[id].originalPath == v.originalPath)
  }

  lemma SaveTouches(rows: map<ImageId, Row>, rows': map<ImageId, Row>, v: ImageValue, saved: ImageValue)
    requires TouchedBy(rows, rows', v)
    requires saved.id == v.id && saved.filename == v.filename && saved.originalPath == v.originalPath
    ensures TouchedBy(rows, SaveRow(rows', saved), v)
  {
  }

  /** A processing run touches only the entity's row. */
  lemma ProcessTouches(digest: Bytes -> string, w: World, seen: ImageValue, p: Calls)
    ensures TouchedBy(w.rows, ProcessEffect(digest, w, seen, p).world.rows, seen)
  {
    var processing := MarkedProcessing(seen, p.t1);
    assert TouchedBy(w.rows, w.rows, seen);
    hide PathOf, SaveRow, TouchedBy;
    var tried := TryEffect(digest, w, seen, p);
    SaveTouches(w.rows, w.rows, seen, processing);
    if p.thumbnail.Some? {
      SaveTouches(w.rows, SaveRow(w.rows, processing), seen,
                  MarkedCompleted(processing, ThumbnailPath(digest, seen, p), p.thumbnail.value.metadata, p.t2));
    }
    SaveTouches(w.rows, tried.world.rows, seen, MarkedFailed(tried.entity, p.t3));
  }

  lemma ApplyKeepsNames(digest: Bytes -> string, w: World, op: Operation)
    requires AllNamed(w) && Ordinary(w, op)
    ensures AllNamed(Apply(digest, w, op))
  {
    hide Nested, StoredName, ProcessEffect, Sweep;
    if op.ProcessOp? {
      ProcessTouches(digest, w, op.seen, op.calls);
      assert NamedAfterFile(w.rows[op.seen.id]);
    }
  }

  lemma OrdinaryFindsOriginal(digest: Bytes -> string, w: World, op: Operation)
    requires Consistent(w) && AllNamed(w) && Ordinary(w, op)
    ensures FindsItsOriginal(digest, w, op)
  {
    hide Nested, StoredName, OriginalSurvives, Consistent;
    if op.ProcessOp? {
      assert NamedAfterFile(w.rows[op.seen.id]);
      AgreeingEntityFindsOriginal(digest, w, op.seen, op.calls);
    }
  }

  /**
    In every run of non-overlapping uploads of names that are not nested, processing runs on entities
    that agree with their rows up to status and date, and sweeps, with arbitrarily failing calls, if no
    storage path is used by two images: at every point every row's original is present and every
    COMPLETED row has metadata and a thumbnail file that is present.
   */
  lemma {:induction false} FilesArePresent(digest: Bytes -> string, ops: seq<Operation>, k: nat)
    requires k <= |ops|
    requires forall i :: 0 <= i < |ops| ==> SharesNoPath(digest, Run(digest, ops[..i]), ops[i])
    requires forall i :: 0 <= i < |ops| ==> Ordinary(Run(digest, ops[..i]), ops[i])
    ensures Consistent(Run(digest, ops[..k])) && AllNamed(Run(digest, ops[..k]))
  {
    if k > 0 {
      hide Apply, Consistent, AllNamed, SharesNoPath, Ordinary, FindsItsOriginal;
      var w, op := Run(digest, ops[..k - 1]), ops[k - 1];
      FilesArePresent(digest, ops, k - 1);
      RunStep(digest, ops, k - 1);
      assert SharesNoPath(digest, w, op) && Ordinary(w, op);
      OrdinaryFindsOriginal(digest, w, op);
      ApplyConsistentExactly(digest, w, op);
      ApplyKeepsNames(digest, w, op);
    }
  }

  // ---------------------------------------------------------------------------------------
  // What is in the files
  // ---------------------------------------------------------------------------------------

  /** Every file's bytes have the digest its path names. */
  predicate ContentAddressed(digest: Bytes -> string, files: map<Path, Bytes>) {
    forall path <- files :: digest(files[path]) == path.digest
  }

  /** Even when torn, the write leaves bytes of the digest it was to write. */
  predicate WritesWhole(digest: Bytes -> string, how: Writing, data: Bytes) {
    how.Tears? ==> digest(how.written) == digest(data)
  }

  predicate NeverTorn(digest: Bytes -> string, op: Operation) {
    match op
    case UploadOp(u) => WritesWhole(digest, u.store, u.data)
    case ProcessOp(_, calls) => calls.thumbnail.Some? ==> WritesWhole(digest, calls.store, calls.thumbnail.value.data)
    case RetentionOp(_, _, _) => true
  }

  lemma {:induction false} SweepKeepsContent(digest: Bytes -> string, files: map<Path, Bytes>, rows: seq<Row>,
                                             how: seq<(Deletion, Deletion)>)
    requires ContentAddressed(digest, files) && |rows| == |how|
    ensures ContentAddressed(digest, Sweep(files, rows, how))
  {
    forall path <- Sweep(files, rows, how) ensures digest(Sweep(files, rows, how)[path]) == path.digest {
      SweepKeepsExactly(files, rows, how, path);
    }
  }

  lemma ProcessKeepsContent(digest: Bytes -> string, w: World, seen: ImageValue, p: Calls)
    requires ContentAddressed(digest, w.files)
    requires p.thumbnail.Some? ==> WritesWhole(digest, p.store, p.thumbnail.value.data)
    ensures ContentAddressed(digest, ProcessEffect(digest, w, seen, p).world.files)
  {
    hide StoredName, SaveRow;
  }

  /** In every run without torn writes, processing on any entities, every file holds what its path says. */
  lemma {:induction false} FilesHoldTheirContent(digest: Bytes -> string, ops: seq<Operation>)
    requires forall op <- ops :: NeverTorn(digest, op)
    ensures ContentAddressed(digest, Run(digest, ops).files)
  {
    if ops != [] {
      var w, op := Run(digest, ops[..|ops| - 1]), ops[|ops| - 1];
      FilesHoldTheirContent(digest, ops[..|ops| - 1]);
      assert NeverTorn(digest, op);
      hide ProcessEffect, StoredName, SaveRow, Sweep;
      match op {
        case UploadOp(u) =>
        case ProcessOp(seen, calls) => ProcessKeepsContent(digest, w, seen, calls);
        case RetentionOp(ids, how, now) =>
          if Sweepable(w, ids, how, now) {
            SweepKeepsContent(digest, w.files, RowsOf(w.rows, ids), how);
          }
      }
    }
  }

  /** Nothing but the data itself is left in a file whose path carries the data's digest. */
  predicate NoCollision(digest: Bytes -> string, intended: Bytes, how: Writing, data: Bytes) {
    digest(intended) == digest(data) ==>
      match how
      case Writes => intended == data
      case Refuses => true
      case Tears(written) => written == data
  }

  predicate OpNoCollision(digest: Bytes -> string, op: Operation, data: Bytes) {
    match op
    case UploadOp(u) => NoCollision(digest, u.data, u.store, data)
    case ProcessOp(_, calls) =>
      calls.thumbnail.Some? ==> NoCollision(digest, calls.thumbnail.value.data, calls.store, data)
    case RetentionOp(_, _, _) => true
  }

  /** Every file under the data's digest holds the data. */
  predicate Holds(digest: Bytes -> string, files: map<Path, Bytes>, data: Bytes) {
    forall path <- files :: path.digest == digest(data) ==> files[path] == data
  }

  lemma ProcessKeepsHeld(digest: Bytes -> string, w: World, seen: ImageValue, p: Calls, data: Bytes)
    requires Holds(digest, w.files, data)
    requires p.thumbnail.Some? ==> NoCollision(digest, p.thumbnail.value.data, p.store, data)
    ensures Holds(digest, ProcessEffect(digest, w, seen, p).world.files, data)
  {
    hide StoredName, SaveRow;
  }

  lemma ApplyKeepsHeld(digest: Bytes -> string, w: World, op: Operation, data: Bytes)
    requires Holds(digest, w.files, data) && OpNoCollision(digest, op, data)
    ensures Holds(digest, Apply(digest, w, op).files, data)
  {
    hide StoredName, SaveRow, Sweep, ProcessEffect;
    if op.ProcessOp? {
      ProcessKeepsHeld(digest, w, op.seen, op.calls, data);
    } else if op.RetentionOp? && Sweepable(w, op.ids, op.how, op.now) {
      var victims := RowsOf(w.rows, op.ids);
      forall path <- Sweep(w.files, victims, op.how) ensures path.digest == digest(data) ==> Sweep(w.files, victims, op.how)[path] == data {
        SweepKeepsExactly(w.files, victims, op.how, path);
      }
    }
  }

  /**
    What was stored comes back: whatever ran, a file present under the path an upload got holds the
    uploaded bytes, provided no write of this run left other bytes under their digest.
   */
  lemma {:induction false} RetrievedIsUploaded(digest: Bytes -> string, ops: seq<Operation>, filename: string, data: Bytes)
    requires forall op <- ops :: OpNoCollision(digest, op, data)
    ensures Holds(digest, Run(digest, ops).files, data)
    ensures
      var files, path := Run(digest, ops).files, PathOf(digest, filename, data);
      path in files ==> files[path] == data
  {
    hide Apply, OpNoCollision;
    if ops != [] {
      RetrievedIsUploaded(digest, ops[..|ops| - 1], filename, data);
      assert ops[|ops| - 1] in ops;
      ApplyKeepsHeld(digest, Run(digest, ops[..|ops| - 1]), ops[|ops| - 1], data);
    }
  }

  // ---------------------------------------------------------------------------------------
  // How single runs end
  // ---------------------------------------------------------------------------------------

  /** The metadata columns are those of the metadata. */
  predicate HasMetadata(row: Row, m: Metadata) {
    && row.width == Some(m.width) && row.height == Some(m.height) && row.format == Some(m.format)
    && row.sizeBytes == Some(m.sizeBytes) && row.channels == Some(m.channels)
  }

  predicate SameMetadata(row: Row, other: Row) {
    && row.width == other.width && row.height == other.height && row.format == other.format
    && row.sizeBytes == other.sizeBytes && row.channels == other.channels
  }

  /** The columns that processing leaves as the entity has them. */
  predicate KeepsIdentity(row: Row, seen: ImageValue) {
    && row.filename == seen.filename && row.originalPath == seen.originalPath && row.tags == seen.tags
    && row.createdAt == seen.createdAt && row.expiresAt == seen.expiresAt
  }

  /**
    A run succeeds only with the row COMPLETED, the new thumbnail stored and recorded under the prefixed
    name, the processor's metadata in its columns, the date of the completion, and all else as it was.
   */
  lemma SuccessfulRun(digest: Bytes -> string, w: World, seen: ImageValue, p: Calls)
    requires ProcessEffect(digest, w, seen, p).ok
    ensures
      var done := ProcessEffect(digest, w, seen, p);
      && p.thumbnail.Some? && seen.id in done.world.rows
      && var row, thumb := done.world.rows[seen.id], p.thumbnail.value;
         && row.status == Completed && HasMetadata(row, thumb.metadata) && KeepsIdentity(row, seen) && row.updatedAt == p.t2
         && row.thumbnailPath.Some?
         && var path := row.thumbnailPath.value;
            && path.digest == digest(thumb.data) && path in done.world.files && done.world.files[path] == thumb.data
            && ('/' !in seen.filename ==> path.name == "thumb_" + seen.filename)
  {
    hide StoredName, SaveRow;
    if '/' !in seen.filename {
      PlainStoredName(ThumbnailName(seen.filename));
    }
    SavedColumns(MarkedCompleted(MarkedProcessing(seen, p.t1), ThumbnailPath(digest, seen, p), p.thumbnail.value.metadata, p.t2),
                 SaveRow(w.rows, MarkedProcessing(seen, p.t1)));
  }

  /** Storage keeps a name without a slash as it is, but for those that name nothing. */
  lemma PlainStoredName(filename: string)
    requires '/' !in filename
    ensures StoredName(filename) == if filename == "" || filename == "." then "unnamed" else filename
  {
    PlainName(filename);
  }

  /** What a save leaves in the columns. */
  lemma SavedColumns(v: ImageValue, rows: map<ImageId, Row>)
    ensures
      var rows' := SaveRow(rows, v);
      && rows'.Keys == rows.Keys + {v.id} && (forall id <- rows :: id != v.id ==> rows'[id] == rows[id])
      && var row := rows'[v.id];
         && KeepsIdentity(row, v) && row.status == v.status && row.thumbnailPath == v.thumbnailPath
         && row.updatedAt == v.updatedAt
         && (v.metadata.Some? ==> HasMetadata(row, v.metadata.value))
         && (v.metadata.None? && v.id in rows ==> SameMetadata(row, rows[v.id]))
         && (v.metadata.None? && v.id !in rows ==>
               row.width.None? && row.height.None? && row.format.None? && row.sizeBytes.None? && row.channels.None?)
  {
  }

  /**
    A failed run leaves the row FAILED at the date of the failure whenever its last save went through;
    if it saved only the start, PROCESSING at that date; the rest as the entity has it, but for the
    thumbnail and metadata of a run that got so far.  It never leaves COMPLETED by its own doing, and
    with no save leaves everything as it was.
   */
  lemma FailedRun(digest: Bytes -> string, w: World, seen: ImageValue, p: Calls)
    requires !ProcessEffect(digest, w, seen, p).ok
    ensures
      var done := ProcessEffect(digest, w, seen, p);
      && (!done.anySave ==> done.world == w)
      && (done.anySave ==>
            && seen.id in done.world.rows
            && var row := done.world.rows[seen.id];
               && KeepsIdentity(row, seen)
               && (done.lastSave ==> row.status == Failed && row.updatedAt == p.t3)
               && (!done.lastSave ==> row.status == Processing && row.updatedAt == p.t1)
               && (done.lastSave && StoresThumbnail(w, seen, p) ==>
                     HasMetadata(row, p.thumbnail.value.metadata) && row.thumbnailPath == Some(ThumbnailPath(digest, seen, p)))
               && (!(done.lastSave && StoresThumbnail(w, seen, p)) ==>
                     && row.thumbnailPath == seen.thumbnailPath
                     && (seen.metadata.Some? ==> HasMetadata(row, seen.metadata.value))
                     && (seen.metadata.None? && seen.id in w.rows ==> SameMetadata(row, w.rows[seen.id]))))
  {
    hide PathOf, SaveRow, HasMetadata, SameMetadata, KeepsIdentity, TryEffect;
    TriedRow(digest, w, seen, p);
    var tried := TryEffect(digest, w, seen, p);
    if p.saveFailedUp {
      FailedRow(digest, w, seen, p);
    }
  }

  /** The row after a try block that failed. */
  lemma TriedRow(digest: Bytes -> string, w: World, seen: ImageValue, p: Calls)
    requires !TryEffect(digest, w, seen, p).ok
    ensures
      var tried := TryEffect(digest, w, seen, p);
      && tried.anySave == p.saveProcessingUp && (tried.thumb.Some? <==> StoresThumbnail(w, seen, p))
      && (!tried.anySave ==> tried.world == w)
      && (tried.anySave ==>
            && tried.world.rows == SaveRow(w.rows, MarkedProcessing(seen, p.t1)) && seen.id in tried.world.rows
            && var row := tried.world.rows[seen.id];
               && KeepsIdentity(row, seen) && row.status == Processing && row.updatedAt == p.t1
               && row.thumbnailPath == seen.thumbnailPath
               && (seen.metadata.Some? ==> HasMetadata(row, seen.metadata.value))
               && (seen.metadata.None? && seen.id in w.rows ==> SameMetadata(row, w.rows[seen.id])))
  {
    hide PathOf, SaveRow, HasMetadata, SameMetadata, KeepsIdentity;
    SavedColumns(MarkedProcessing(seen, p.t1), w.rows);
    assert KeepsIdentity(MarkedRow(seen, w.rows, p.t1), seen) by { SameIdentity(seen, w.rows, p.t1); }
  }

  function MarkedRow(seen: ImageValue, rows: map<ImageId, Row>, t: real): Row {
    SaveRow(rows, MarkedProcessing(seen, t))[seen.id]
  }

  lemma SameIdentity(seen: ImageValue, rows: map<ImageId, Row>, t: real)
    ensures KeepsIdentity(MarkedRow(seen, rows, t), seen)
  {
  }

  /** The row after the FAILED save. */
  lemma FailedRow(digest: Bytes -> string, w: World, seen: ImageValue, p: Calls)
    requires !TryEffect(digest, w, seen, p).ok
    ensures
      var tried := TryEffect(digest, w, seen, p);
      var rows := SaveRow(tried.world.rows, MarkedFailed(tried.entity, p.t3));
      && seen.id in rows
      && var row := rows[seen.id];
         && KeepsIdentity(row, seen) && row.status == Failed && row.updatedAt == p.t3
         && (StoresThumbnail(w, seen, p) ==>
               HasMetadata(row, p.thumbnail.value.metadata) && row.thumbnailPath == Some(ThumbnailPath(digest, seen, p)))
         && (!StoresThumbnail(w, seen, p) ==>
               && row.thumbnailPath == seen.thumbnailPath
               && (seen.metadata.Some? ==> HasMetadata(row, seen.metadata.value))
               && (seen.metadata.None? && seen.id in w.rows ==> SameMetadata(row, w.rows[seen.id])))
  {
    hide PathOf;
    var tried := TryEffect(digest, w, seen, p);
    SameMetadataChains(w.rows, seen, p, MarkedFailed(tried.entity, p.t3));
  }

  /** Saving twice without metadata leaves the columns as they were. */
  lemma SameMetadataChains(rows: map<ImageId, Row>, seen: ImageValue, p: Calls, failed: ImageValue)
    ensures
      var rows1 := SaveRow(rows, MarkedProcessing(seen, p.t1));
      seen.metadata.None? && failed.metadata.None? && failed.id == seen.id && seen.id in rows ==>
        SameMetadata(SaveRow(rows1, failed)[seen.id], rows[seen.id])
  {
  }

  /**
    Loading the row after a run whose last save went through gives back the entity as the run left it
    exactly when the metadata it holds does not claim zero channels (read back as three) and, if it
    holds none, the row had none.
   */
  lemma NextLoadAgreesExactly(digest: Bytes -> string, w: World, seen: ImageValue, p: Calls)
    requires ProcessEffect(digest, w, seen, p).lastSave
    ensures
      var done := ProcessEffect(digest, w, seen, p);
      && seen.id in done.world.rows && done.anySave
      && (ModelToEntity(seen.id, done.world.rows[seen.id]) == done.entity <==> LoadsBack(w, seen, p))
  {
    hide PathOf;
    var done := ProcessEffect(digest, w, seen, p);
    SaveLoadExactly(done.entity, if seen.id in w.rows then Some(w.rows[seen.id]) else None);
  }

  predicate LoadsBack(w: World, seen: ImageValue, p: Calls) {
    if StoresThumbnail(w, seen, p) then p.thumbnail.value.metadata.channels != 0
    else if seen.metadata.Some? then seen.metadata.value.channels != 0
    else seen.id !in w.rows || w.rows[seen.id].width.None?
  }

  /**
    A FAILED row can name a thumbnail that is gone: exactly when the thumbnail was stored, the COMPLETED
    save failed and the cleanup worked, or the run made none and the entity already named a missing one.
   */
  lemma DanglingThumbnailExactly(digest: Bytes -> string, w: World, seen: ImageValue, p: Calls)
    requires !ProcessEffect(digest, w, seen, p).ok && ProcessEffect(digest, w, seen, p).lastSave
    ensures
      var done := ProcessEffect(digest, w, seen, p);
      && seen.id in done.world.rows
      && var thumb := done.world.rows[seen.id].thumbnailPath;
         (thumb.Some? && thumb.value !in done.world.files)
         <==> if StoresThumbnail(w, seen, p) then p.cleanup.Deletes?
              else seen.thumbnailPath.Some? && seen.thumbnailPath.value !in w.files
                   && !(MakesThumbnail(w, seen, p) && p.store.Tears?
                        && ThumbnailPath(digest, seen, p) == seen.thumbnailPath.value)
  {
    hide PathOf;
  }

  /** The assumption on paths is needed: two uploads of the same file share a path, and expiring one takes the other's file. */
  lemma SharedPathLosesFile(digest: Bytes -> string, u: Upload, other: ImageId, now: real)
    requires u.store.Writes? && u.saveUp && other != u.id && IsExpired(u.expiresAt, now)
    ensures
      var o1, o2 := UploadOp(u), UploadOp(u.(id := other, expiresAt := None));
      var w := Run(digest, [o1, o2, RetentionOp([u.id], [(Deletes, Deletes)], now)]);
      other in w.rows && w.rows[other].originalPath !in w.files
  {
    var v := u.(id := other, expiresAt := None);
    var o1, o2, o3 := UploadOp(u), UploadOp(v), RetentionOp([u.id], [(Deletes, Deletes)], now);
    var path := PathOf(digest, u.filename, u.data);
    RunThree(digest, o1, o2, o3);
    hide PathOf, Run;
    var w2 := Apply(digest, Apply(digest, World(map[], map[]), o1), o2);
    var row := EntityToModel(NewImage(u, path), None);
    assert w2.rows[u.id] == row && w2.rows[other] == EntityToModel(NewImage(v, path), None);
    assert w2.files == map[path := u.data];
    OneVictim(w2.files, row);
    assert RowsOf(w2.rows, [u.id]) == [row];
  }

  lemma OneVictim(files: map<Path, Bytes>, row: Row)
    ensures row.originalPath !in Sweep(files, [row], [(Deletes, Deletes)])
  {
    var rows, how := [row], [(Deletes, Deletes)];
    SweepKeepsExactly(files, rows, how, row.originalPath);
    assert Reaches(rows, how, 0) && DeletesPath(rows[0], how[0].0, how[0].1, row.originalPath);
  }

  lemma RunThree(digest: Bytes -> string, a: Operation, b: Operation, c: Operation)
    ensures Run(digest, [a, b, c]) == Apply(digest, Apply(digest, Apply(digest, World(map[], map[]), a), b), c)
  {
    hide Apply;
    assert [a, b, c][..2] == [a, b] && [a, b][..1] == [a] && [a][..0] == [];
    assert Run(digest, [a]) == Apply(digest, Run(digest, []), a);
    assert Run(digest, [a, b]) == Apply(digest, Run(digest, [a]), b);
  }
}
