/** The image entity, its database row, and the mapping between the two. */
module ImageEntity {
  import opened Basics

  /** A storage path: the content hash prefix and the base name, under the storage directory. */
  datatype Path = Path(digest: string, name: string)

  datatype Status = Pending | Processing | Completed | Failed

  datatype Metadata = Metadata(width: int, height: int, format: string, sizeBytes: int, channels: int)

  /** The state of an image entity as a value. */
  datatype ImageValue = ImageValue(
    id: ImageId, filename: string, originalPath: Path, thumbnailPath: Option<Path>, metadata: Option<Metadata>,
    status: Status, tags: seq<string>, createdAt: real, updatedAt: real, expiresAt: Option<real>)

  function MarkedProcessing(v: ImageValue, now: real): ImageValue {
    v.(status := Processing, updatedAt := now)
  }

  function MarkedCompleted(v: ImageValue, thumbnail: Path, metadata: Metadata, now: real): ImageValue {
    v.(status := Completed, thumbnailPath := Some(thumbnail), metadata := Some(metadata), updatedAt := now)
  }

  function MarkedFailed(v: ImageValue, now: real): ImageValue {
    v.(status := Failed, updatedAt := now)
  }

  /** The mutable entity that the repositories and the cache hand around by reference. */
  class Image {
    const id: ImageId
    const filename: string
    const originalPath: Path
    const tags: seq<string>
    const createdAt: real
    const expiresAt: Option<real>
    var thumbnailPath: Option<Path>
    var metadata: Option<Metadata>
    var status: Status
    var updatedAt: real

    constructor (v: ImageValue)
      ensures Value() == v
    {
      id, filename, originalPath, tags := v.id, v.filename, v.originalPath, v.tags;
      createdAt, expiresAt, updatedAt := v.createdAt, v.expiresAt, v.updatedAt;
      thumbnailPath, metadata, status := v.thumbnailPath, v.metadata, v.status;
    }

    ghost function Value(): (v: ImageValue)
      reads this
      ensures v.id == id
    {
      ImageValue(id, filename, originalPath, thumbnailPath, metadata, status, tags, createdAt, updatedAt, expiresAt)
    }

    method MarkProcessing(now: real)
      modifies this
      ensures Value() == MarkedProcessing(old(Value()), now)
    {
      status := Processing;
      Touch(now);
    }

    method MarkCompleted(thumbnail: Path, metadata: Metadata, now: real)
      modifies this
      ensures Value() == MarkedCompleted(old(Value()), thumbnail, metadata, now)
    {
      status := Completed;
      thumbnailPath := Some(thumbnail);
      this.metadata := Some(metadata);
      Touch(now);
    }

    method MarkFailed(now: real)
      modifies this
      ensures Value() == MarkedFailed(old(Value()), now)
    {
      status := Failed;
      Touch(now);
    }

    method Touch(now: real)
      modifies this`updatedAt
      ensures updatedAt == now
    {
      updatedAt := now;
    }
  }

  predicate IsExpired(expiresAt: Option<real>, now: real) {
    expiresAt.Some? && now >= expiresAt.value
  }

  /** A row of the images table, without its id. */
  datatype Row = Row(
    filename: string, originalPath: Path, thumbnailPath: Option<Path>, status: Status,
    width: Option<int>, height: Option<int>, format: Option<string>, sizeBytes: Option<int>, channels: Option<int>,
    tags: seq<string>, createdAt: real, updatedAt: real, expiresAt: Option<real>)

  /** _entity_to_model: an entity without metadata leaves the metadata columns as they were. */
  function EntityToModel(v: ImageValue, prior: Option<Row>): Row {
    var blank := Row(v.filename, v.originalPath, v.thumbnailPath, v.status, None, None, None, None, None,
                     v.tags, v.createdAt, v.updatedAt, v.expiresAt);
    match v.metadata
    case Some(m) =>
      blank.(width := Some(m.width), height := Some(m.height), format := Some(m.format),
             sizeBytes := Some(m.sizeBytes), channels := Some(m.channels))
    case None =>
      if prior.None? then blank
      else blank.(width := prior.value.width, height := prior.value.height, format := prior.value.format,
                  sizeBytes := prior.value.sizeBytes, channels := prior.value.channels)
  }

  /** Python's `x or default` on an optional integer column. */
  function OrInt(x: Option<int>, default: int): int {
    if x.Some? && x.value != 0 then x.value else default
  }

  function OrText(x: Option<string>, default: string): string {
    if x.Some? && x.value != "" then x.value else default
  }

  /** _model_to_entity */
  function ModelToEntity(id: ImageId, row: Row): (v: ImageValue)
    ensures v.id == id
  {
    var metadata :=
      if row.width.None? then None
      else Some(Metadata(row.width.value, OrInt(row.height, 0), OrText(row.format, ""), OrInt(row.sizeBytes, 0),
                         OrInt(row.channels, 3)));
    ImageValue(id, row.filename, row.originalPath, row.thumbnailPath, metadata, row.status, row.tags,
               row.createdAt, row.updatedAt, row.expiresAt)
  }

  /**
    Saving and loading gives the entity back exactly when its metadata does not claim zero channels
    (read back as three) and, if it has no metadata, the row had none either.
   */
  lemma SaveLoadExactly(v: ImageValue, prior: Option<Row>)
    ensures ModelToEntity(v.id, EntityToModel(v, prior)) == v
            <==> (if v.metadata.Some? then v.metadata.value.channels != 0
                  else prior.None? || prior.value.width.None?)
  {
    var row := EntityToModel(v, prior);
    if v.metadata.Some? {
      var m := v.metadata.value;
      assert ModelToEntity(v.id, row).metadata
             == Some(Metadata(m.width, m.height, m.format, m.sizeBytes, OrInt(Some(m.channels), 3)));
    }
  }

  /**
    What a row loads as: the same columns; no metadata without a width; and for missing or empty metadata
    columns a height and size of 0, an empty format and three channels.
   */
  lemma LoadedImage(id: ImageId, row: Row)
    ensures
      var v := ModelToEntity(id, row);
      && v.id == id && v.filename == row.filename && v.originalPath == row.originalPath
      && v.thumbnailPath == row.thumbnailPath && v.status == row.status && v.tags == row.tags
      && v.createdAt == row.createdAt && v.updatedAt == row.updatedAt && v.expiresAt == row.expiresAt
      && (v.metadata.None? <==> row.width.None?)
      && (row.width.Some? ==>
            var m := v.metadata.value;
            && m.width == row.width.value
            && (if row.height.Some? then m.height == row.height.value else m.height == 0)
            && (if row.format.Some? then m.format == row.format.value else m.format == "")
            && (if row.sizeBytes.Some? then m.sizeBytes == row.sizeBytes.value else m.sizeBytes == 0)
            && (if row.channels.Some? && row.channels.value != 0 then m.channels == row.channels.value else m.channels == 3))
  {
  }
}
