/**
 Images of products and shops: the storage provider holds the assets, the rows hold their
 handles.  A call reads its row and uploads first, then writes the row and discards what the
 write made useless; other calls may run in between.
 */
module AssetModel {
  import opened Faults
  import opened Options

  /** Handles are issued in order and never twice. */
  type Handle = nat
  datatype Kind = Product | Shop
  datatype Id = Id(kind: Kind, n: nat)

  /** A row's images; a row from before handles were recorded has no cover handle. */
  datatype Row = Row(cover: Option<Handle>, gallery: seq<Handle>)

  /** What the provider makes of a file; a shop's form may have empty slots. */
  datatype File = Stored | Rejected | Missing

  /** A call between its uploads and its write; `row` is what it uploaded, `existing` the row it read. */
  datatype Call =
    | Creating(kind: Kind, row: Row)
    | Updating(id: Id, existing: Row, row: Row, replaceGallery: bool)
    | Deleting(id: Id, existing: Row)

  /**
   `valid` is the verdict of every check made before the uploads, `readable` whether the row
   could be loaded.  A repository call that is Lost commits but reports an error, for instance
   because reading the row back failed.
   */
  datatype Request =
    | Create(kind: Kind, valid: bool, cover: Option<bool>, gallery: seq<File>)
    | Update(id: Id, readable: bool, valid: bool, cover: Option<bool>, gallery: seq<File>, replaceGallery: bool)
    | Delete(id: Id, allowed: bool, readable: bool)

  datatype State = State(
    provider: set<Handle>, next: Handle, rows: map<Id, Row>, born: nat, pending: map<nat, Call>, calls: nat)

  datatype Op = Begin(request: Request) | Finish(call: nat, fate: Fate)

  function Empty(): State {
    State({}, 0, map[], 0, map[], 0)
  }

  function CoverOf(row: Row): set<Handle> {
    if row.cover.Some? then {row.cover.value} else {}
  }

  function SetOf(handles: seq<Handle>): set<Handle> {
    set h | h in handles
  }

  function GalleryOf(row: Row): set<Handle> {
    SetOf(row.gallery)
  }

  function Handles(row: Row): set<Handle> {
    CoverOf(row) + GalleryOf(row)
  }

  // --- uploading ---------------------------------------------------------------------------

  /** The handles issued, or None when a file was rejected; and the next handle to issue. */
  datatype Uploaded<T> = Uploaded(result: Option<T>, next: Handle)

  function UploadAll(next: Handle, files: seq<File>): Uploaded<seq<Handle>>
    decreases |files|
  {
    if files == [] then Uploaded(Some([]), next)
    else
      match files[0]
      case Missing => UploadAll(next, files[1..])
      case Rejected => Uploaded(None, next)
      case Stored =>
        var r := UploadAll(next + 1, files[1..]);
        Uploaded(if r.result.None? then None else Some([next] + r.result.value), r.next)
  }

  /** The cover first, if there is one, then the gallery. */
  function UploadImages(next: Handle, cover: Option<bool>, gallery: seq<File>): Uploaded<Row> {
    if cover == Some(false) then Uploaded(None, next)
    else
      var r := UploadAll(if cover.Some? then next + 1 else next, gallery);
      Uploaded(if r.result.None? then None else Some(Row(if cover.Some? then Some(next) else None, r.result.value)), r.next)
  }

  /** Whatever was stored before a rejection is discarded again. */
  function Upload(s: State, cover: Option<bool>, gallery: seq<File>): (State, Option<Row>) {
    var r := UploadImages(s.next, cover, gallery);
    (s.(next := r.next, provider := if r.result.None? then s.provider else s.provider + Handles(r.result.value)), r.result)
  }

  function Suspend(s: State, c: Call): State {
    s.(pending := s.pending[s.calls := c], calls := s.calls + 1)
  }

  function BeginRequest(s: State, request: Request): State {
    match request
    case Create(kind, valid, cover, gallery) =>
      if !valid || cover.None? then s
      else
        var (s', row) := Upload(s, cover, gallery);
        if row.None? then s' else Suspend(s', Creating(kind, row.value))
    case Update(id, readable, valid, cover, gallery, replaceGallery) =>
      if !readable || id !in s.rows || !valid then s
      else
        var (s', row) := Upload(s, cover, gallery);
        if row.None? then s' else Suspend(s', Updating(id, s.rows[id], row.value, replaceGallery))
    case Delete(id, allowed, readable) =>
      if !allowed || !readable || id !in s.rows then s else Suspend(s, Deleting(id, s.rows[id]))
  }

  // --- writing -----------------------------------------------------------------------------

  function Written(row: Row, c: Call): Row
    requires c.Updating?
  {
    Row(if c.row.cover.Some? then c.row.cover else row.cover,
        (if c.replaceGallery then [] else row.gallery) + c.row.gallery)
  }

  predicate Possible(s: State, c: Call) {
    c.Creating? || c.id in s.rows
  }

  /** The repository's transaction. */
  function Apply(s: State, c: Call): State
    requires Possible(s, c)
  {
    match c
    case Creating(kind, row) => s.(rows := s.rows[Id(kind, s.born) := row], born := s.born + 1)
    case Updating(id, _, _, _) => s.(rows := s.rows[id := Written(s.rows[id], c)])
    case Deleting(id, _) => s.(rows := s.rows - {id})
  }

  /** What the call uploaded. */
  function Uploads(c: Call): set<Handle> {
    if c.Deleting? then {} else Handles(c.row)
  }

  /** What its write makes unreachable, judged by the row it read. */
  function Replaced(c: Call): set<Handle> {
    match c
    case Creating(_, _) => {}
    case Updating(_, existing, row, replaceGallery) =>
      (if row.cover.Some? then CoverOf(existing) else {}) + (if replaceGallery then GalleryOf(existing) else {})
    case Deleting(_, existing) => Handles(existing)
  }

  function FinishCall(s: State, call: nat, fate: Fate): State
    requires call in s.pending
  {
    var c := s.pending[call];
    var s' := s.(pending := s.pending - {call});
    var commits := !fate.Fails? && Possible(s, c);
    var written := if commits then Apply(s', c) else s';
    written.(provider := s.provider - if commits && fate.Works? then Replaced(c) else Uploads(c))
  }

  function Step(s: State, op: Op): State {
    match op
    case Begin(request) => BeginRequest(s, request)
    case Finish(call, fate) => if call in s.pending then FinishCall(s, call, fate) else s
  }

  function Run(s: State, ops: seq<Op>): State
    decreases |ops|
  {
    if ops == [] then s else Run(Step(s, ops[0]), ops[1..])
  }

  /** One call with nothing in between. */
  function Serve(s: State, request: Request, fate: Fate): State {
    var begun := BeginRequest(s, request);
    if s.calls in begun.pending then FinishCall(begun, s.calls, fate) else begun
  }

  /** What the caller is told: yes only if the write landed and was seen to. */
  predicate Answer(s: State, request: Request, fate: Fate) {
    var begun := BeginRequest(s, request);
    s.calls in begun.pending && Possible(begun, begun.pending[s.calls]) && fate.Works?
  }
}
