/** What a request does to the rows, and what it takes for one to be done. */
module AssetRequests {
  import opened Faults
  import opened Options
  import opened AssetModel

  // --- uploads -----------------------------------------------------------------------------

  function StoredIn(files: seq<File>): nat {
    if files == [] then 0 else StoredIn(files[1..]) + if files[0].Stored? then 1 else 0
  }

  /** The next n handles, in order. */
  function NextHandles(next: Handle, n: nat): seq<Handle> {
    seq(n, i requires 0 <= i => next + i)
  }

  /** A gallery goes up exactly when no slot is rejected, one new handle for each filled slot, in order. */
  lemma {:induction false} GalleryUploads(next: Handle, files: seq<File>)
    ensures UploadAll(next, files).result ==
            if Rejected in files then None else Some(NextHandles(next, StoredIn(files)))
    decreases |files|
  {
    if files == [] {
      assert NextHandles(next, 0) == [];
    } else {
      assert Rejected in files <==> files[0] == Rejected || Rejected in files[1..];
      match files[0]
      case Missing => GalleryUploads(next, files[1..]);
      case Rejected =>
      case Stored =>
        GalleryUploads(next + 1, files[1..]);
        assert [next] + NextHandles(next + 1, StoredIn(files[1..])) == NextHandles(next, StoredIn(files));
    }
  }

  // --- what a create, an edit and a delete come to -----------------------------------------

  /** The uploaded row: the cover has the first new handle. */
  lemma ImagesUpload(s: State, cover: Option<bool>, gallery: seq<File>)
    ensures var first := if cover.Some? then s.next + 1 else s.next;
      Upload(s, cover, gallery).1 ==
      if cover == Some(false) || Rejected in gallery then None
      else Some(Row(if cover.Some? then Some(s.next) else None, NextHandles(first, StoredIn(gallery))))
    ensures var t := Upload(s, cover, gallery).0; t == s.(next := t.next, provider := t.provider)
  {
    GalleryUploads(if cover.Some? then s.next + 1 else s.next, gallery);
  }

  /** A call finished at once writes exactly what its transaction writes. */
  lemma FinishedAtOnce(s: State, c: Call, fate: Fate)
    requires s.pending == map[]
    ensures var begun := Suspend(s, c);
      var t := FinishCall(begun, s.calls, fate);
      var lands := !fate.Fails? && Possible(s, c);
      && s.calls in begun.pending && begun.pending[s.calls] == c && (Possible(begun, c) <==> Possible(s, c))
      && t.rows == (if lands then Apply(s, c).rows else s.rows)
      && t.born == (if lands then Apply(s, c).born else s.born)
  {}

  /** A create makes its row exactly when it is valid, every file is accepted, and the insert takes effect. */
  lemma CreateMakesItsRowIff(s: State, kind: Kind, valid: bool, cover: Option<bool>, gallery: seq<File>, fate: Fate)
    requires s.pending == map[]
    ensures var t := Serve(s, Create(kind, valid, cover, gallery), fate);
      var done := valid && cover == Some(true) && Rejected !in gallery && !fate.Fails?;
      && t.rows == (if done
                    then s.rows[Id(kind, s.born) := Row(Some(s.next), NextHandles(s.next + 1, StoredIn(gallery)))]
                    else s.rows)
      && t.born == (if done then s.born + 1 else s.born)
      && (Answer(s, Create(kind, valid, cover, gallery), fate) <==> done && fate.Works?)
  {
    if valid && cover.Some? {
      assert cover == if cover.value then Some(true) else Some(false);
      var (uploaded, row) := Upload(s, cover, gallery);
      ImagesUpload(s, cover, gallery);
      if row.Some? { FinishedAtOnce(uploaded, Creating(kind, row.value), fate); }
    }
  }

  /** What an edit stores: the new cover if one was sent, and its images after the old ones or instead of them. */
  function Edited(row: Row, next: Handle, cover: bool, stored: nat, replaceGallery: bool): Row {
    if cover then Row(Some(next), (if replaceGallery then [] else row.gallery) + NextHandles(next + 1, stored))
    else Row(row.cover, (if replaceGallery then [] else row.gallery) + NextHandles(next, stored))
  }

  lemma EditStoresIff(
    s: State, id: Id, readable: bool, valid: bool, cover: Option<bool>, gallery: seq<File>, replaceGallery: bool, fate: Fate)
    requires s.pending == map[]
    ensures var request := Update(id, readable, valid, cover, gallery, replaceGallery);
      var done := readable && id in s.rows && valid && cover != Some(false) && Rejected !in gallery && !fate.Fails?;
      && Serve(s, request, fate).rows ==
         (if done then s.rows[id := Edited(s.rows[id], s.next, cover.Some?, StoredIn(gallery), replaceGallery)] else s.rows)
      && (Answer(s, request, fate) <==> done && fate.Works?)
  {
    if readable && id in s.rows && valid {
      var (uploaded, row) := Upload(s, cover, gallery);
      ImagesUpload(s, cover, gallery);
      if row.Some? { FinishedAtOnce(uploaded, Updating(id, s.rows[id], row.value, replaceGallery), fate); }
    }
  }

  /** A delete takes its row exactly when it is allowed, the row could be read, and the delete takes effect. */
  lemma DeleteTakesItsRowIff(s: State, id: Id, allowed: bool, readable: bool, fate: Fate)
    requires s.pending == map[]
    ensures var t := Serve(s, Delete(id, allowed, readable), fate);
      var done := allowed && readable && id in s.rows && !fate.Fails?;
      && t.rows == (if done then s.rows - {id} else s.rows)
      && (Answer(s, Delete(id, allowed, readable), fate) <==> done && fate.Works?)
  {}

  // --- rows that nobody may delete ---------------------------------------------------------

  ghost predicate NoDeleteOf(s: State, id: Id) {
    forall c :: c in s.pending ==> !(s.pending[c].Deleting? && s.pending[c].id == id)
  }

  /** No request to delete the row is allowed: the shop has orders throughout. */
  ghost predicate NeverAllowed(ops: seq<Op>, id: Id) {
    forall op :: op in ops && op.Begin? && op.request.Delete? && op.request.id == id ==> !op.request.allowed
  }

  lemma StepKeepsRow(s: State, op: Op, id: Id)
    requires id in s.rows && NoDeleteOf(s, id)
    requires op.Begin? && op.request.Delete? && op.request.id == id ==> !op.request.allowed
    ensures id in Step(s, op).rows && NoDeleteOf(Step(s, op), id)
  {}

  /** A row whose deletion is never allowed is there after any run, whatever else is edited, deleted or fails. */
  lemma {:induction false} KeptWhileNotAllowed(s: State, ops: seq<Op>, id: Id)
    requires id in s.rows && NoDeleteOf(s, id) && NeverAllowed(ops, id)
    ensures id in Run(s, ops).rows
    decreases |ops|
  {
    if ops != [] {
      StepKeepsRow(s, ops[0], id);
      KeptWhileNotAllowed(Step(s, ops[0]), ops[1..], id);
    }
  }
}
