/** The product and shop services over one store: the provider's assets and the rows. */
module AssetService {
  import opened Faults
  import opened Options
  import opened AssetModel

  lemma SetOfOneMore(handles: seq<Handle>, h: Handle)
    ensures SetOf(handles + [h]) == SetOf(handles) + {h}
  {}

  /** What uploading more files comes to once `images` are stored. */
  ghost function After(images: seq<Handle>, r: Uploaded<seq<Handle>>): Uploaded<seq<Handle>> {
    Uploaded(if r.result.None? then None else Some(images + r.result.value), r.next)
  }

  lemma AfterOneMore(images: seq<Handle>, next: Handle, files: seq<File>)
    ensures After([], UploadAll(next, files)) == UploadAll(next, files)
    ensures files == [] || After(images, UploadAll(next, files)) == match files[0] {
              case Missing => After(images, UploadAll(next, files[1..]))
              case Rejected => Uploaded(None, next)
              case Stored => After(images + [next], UploadAll(next + 1, files[1..]))
            }
  {
    var r := UploadAll(next, files);
    assert r.result.Some? ==> [] + r.result.value == r.result.value;
    if files != [] && files[0].Stored? {
      var rest := UploadAll(next + 1, files[1..]).result;
      assert rest.Some? ==> images + ([next] + rest.value) == images + [next] + rest.value;
    }
  }

  /** A call that nothing interrupts, as one update of the state. */
  lemma FinishAtOnce(s: State, c: Call, fate: Fate)
    requires s.pending == map[]
    ensures var t := s.(calls := s.calls + 1);
      var lands := !fate.Fails? && Possible(s, c);
      FinishCall(Suspend(s, c), s.calls, fate) ==
      (if lands then Apply(t, c) else t).(
        provider := s.provider - if lands && fate.Works? then Replaced(c) else Uploads(c))
  {}

  /** The storage provider and the tables; both services hold the same one. */
  class Store {
    var provider: set<Handle>
    var next: Handle
    var rows: map<Id, Row>
    var born: nat
    ghost var calls: nat

    constructor ()
      ensures Valid() && Contents() == Empty()
    {
      provider, next, rows, born, calls := {}, 0, map[], 0, 0;
    }

    /** A handle not issued yet names no asset. */
    ghost predicate Valid()
      reads this
    {
      forall h :: h in provider ==> h < next
    }

    ghost function Contents(): State
      reads this
    {
      State(provider, next, rows, born, map[], calls)
    }

    // --- the provider ----------------------------------------------------------------------

    method Upload(accepted: bool) returns (handle: Option<Handle>)
      modifies `provider, `next
      ensures accepted ==> handle == Some(old(next)) && next == old(next) + 1 && provider == old(provider) + {old(next)}
      ensures !accepted ==> handle == None && next == old(next) && provider == old(provider)
    {
      if !accepted {
        return None;
      }
      handle := Some(next);
      provider, next := provider + {next}, next + 1;
    }

    /** An empty handle names nothing. */
    method Discard(handle: Option<Handle>)
      modifies `provider
      ensures provider == old(provider) - if handle.Some? then {handle.value} else {}
    {
      if handle.Some? {
        provider := provider - {handle.value};
      }
    }

    method DiscardAll(handles: seq<Handle>)
      modifies `provider
      ensures provider == old(provider) - SetOf(handles)
    {
      for i := 0 to |handles|
        invariant provider == old(provider) - SetOf(handles[..i])
      {
        assert handles[..i + 1] == handles[..i] + [handles[i]];
        SetOfOneMore(handles[..i], handles[i]);
        Discard(Some(handles[i]));
      }
      assert handles[..|handles|] == handles;
    }

    /** Store a gallery in order, skipping empty slots; at the first rejection drop what was stored. */
    method UploadGallery(files: seq<File>) returns (uploads: Option<seq<Handle>>)
      requires Valid()
      modifies `provider, `next
      ensures Valid() && Uploaded(uploads, next) == UploadAll(old(next), files)
      ensures provider == old(provider) + if uploads.Some? then SetOf(uploads.value) else {}
      ensures uploads.Some? ==> SetOf(uploads.value) !! old(provider)
    {
      var images := [];
      AfterOneMore([], next, files);
      assert files[0..] == files;
      for i := 0 to |files|
        invariant UploadAll(old(next), files) == After(images, UploadAll(next, files[i..]))
        invariant old(next) <= next && Valid()
        invariant provider == old(provider) + SetOf(images) && SetOf(images) !! old(provider)
      {
        AfterOneMore(images, next, files[i..]);
        assert files[i..][0] == files[i] && files[i..][1..] == files[i + 1..];
        if files[i].Missing? {
          continue;
        }
        var stored := Upload(files[i].Stored?);
        if stored.None? {
          DiscardAll(images);
          assert provider == old(provider);
          return None;
        }
        SetOfOneMore(images, stored.value);
        images := images + [stored.value];
      }
      assert images + [] == images;
      uploads := Some(images);
    }

    // --- the repositories ------------------------------------------------------------------

    method FindByID(id: Id, readable: bool) returns (row: Option<Row>)
      ensures row == if readable && id in rows then Some(rows[id]) else None
    {
      row := if readable && id in rows then Some(rows[id]) else None;
    }

    method Insert(kind: Kind, row: Row, fate: Fate) returns (ok: bool)
      modifies `rows, `born
      ensures ok == fate.Works?
      ensures rows == if fate.Fails? then old(rows) else old(rows)[Id(kind, old(born)) := row]
      ensures born == if fate.Fails? then old(born) else old(born) + 1
    {
      if !fate.Fails? {
        rows, born := rows[Id(kind, born) := row], born + 1;
      }
      ok := fate.Works?;
    }

    /** No cover keeps the stored one; the gallery is cleared only when asked, and always added to. */
    method Edit(id: Id, cover: Option<Handle>, gallery: seq<Handle>, replaceGallery: bool, fate: Fate) returns (ok: bool)
      modifies `rows
      ensures ok <==> fate.Works? && id in old(rows)
      ensures rows == if fate.Fails? || id !in old(rows) then old(rows)
                      else old(rows)[id := Row(if cover.Some? then cover else old(rows)[id].cover,
                                               (if replaceGallery then [] else old(rows)[id].gallery) + gallery)]
    {
      if fate.Fails? || id !in rows {
        return false;
      }
      var row := rows[id];
      if cover.Some? {
        row := row.(cover := cover);
      }
      if replaceGallery {
        row := row.(gallery := []);
      }
      row := row.(gallery := row.gallery + gallery);
      rows := rows[id := row];
      ok := fate.Works?;
    }

    method Remove(id: Id, fate: Fate) returns (ok: bool)
      modifies `rows
      ensures ok <==> fate.Works? && id in old(rows)
      ensures rows == if fate.Fails? then old(rows) else old(rows) - {id}
    {
      if fate.Fails? || id !in rows {
        return false;
      }
      rows := rows - {id};
      ok := fate.Works?;
    }

    /** The cover, then the gallery: all of them stored, or none left behind. */
    method UploadImages(cover: Option<bool>, gallery: seq<File>) returns (row: Option<Row>)
      requires Valid()
      modifies `provider, `next
      ensures Valid()
      ensures AssetModel.Upload(old(Contents()), cover, gallery) == (Contents(), row)
    {
      var stored := None;
      if cover.Some? {
        stored := Upload(cover.value);
        if stored.None? {
          return None;
        }
      }
      var images := UploadGallery(gallery);
      if images.None? {
        Discard(stored);
        assert provider == old(provider);
        return None;
      }
      row := Some(Row(stored, images.value));
      assert provider == old(provider) + Handles(row.value);
    }
  }

  /** The product service or the shop service: they differ in what may keep a row from being deleted. */
  class Catalogue {
    const kind: Kind
    const store: Store

    constructor (kind: Kind, store: Store)
      ensures this.kind == kind && this.store == store
    {
      this.kind, this.store := kind, store;
    }

    method Create(valid: bool, cover: Option<bool>, gallery: seq<File>, fate: Fate) returns (ok: bool)
      requires store.Valid()
      modifies store
      ensures store.Valid()
      ensures store.Contents() == Serve(old(store.Contents()), Request.Create(kind, valid, cover, gallery), fate)
      ensures ok == Answer(old(store.Contents()), Request.Create(kind, valid, cover, gallery), fate)
    {
      if !valid {
        return false;
      }
      if cover.None? {
        return false;
      }
      var uploaded := store.UploadImages(cover, gallery);
      if uploaded.None? {
        return false;
      }
      FinishAtOnce(store.Contents(), Creating(kind, uploaded.value), fate);
      store.calls := store.calls + 1;
      ok := store.Insert(kind, uploaded.value, fate);
      if !ok {
        store.Discard(uploaded.value.cover);
        store.DiscardAll(uploaded.value.gallery);
      }
    }

    /** Sending no cover keeps the stored one; the old images go only once the row points at the new. */
    method Update(
      id: Id, readable: bool, valid: bool, cover: Option<bool>, gallery: seq<File>, replaceGallery: bool, fate: Fate)
      returns (ok: bool)
      requires store.Valid()
      modifies store
      ensures store.Valid()
      ensures store.Contents() ==
              Serve(old(store.Contents()), Request.Update(id, readable, valid, cover, gallery, replaceGallery), fate)
      ensures ok ==
              Answer(old(store.Contents()), Request.Update(id, readable, valid, cover, gallery, replaceGallery), fate)
    {
      var existing := store.FindByID(id, readable);
      if existing.None? || !valid {
        return false;
      }
      var uploaded := store.UploadImages(cover, gallery);
      if uploaded.None? {
        return false;
      }
      var row := uploaded.value;
      FinishAtOnce(store.Contents(), Updating(id, existing.value, row, replaceGallery), fate);
      store.calls := store.calls + 1;
      ok := store.Edit(id, row.cover, row.gallery, replaceGallery, fate);
      Settle(id, existing.value, row, replaceGallery, ok);
    }

    /** The new images go if the write failed, else the old ones it replaced. */
    method Settle(id: Id, existing: Row, row: Row, replaceGallery: bool, ok: bool)
      requires store.Valid()
      modifies store`provider
      ensures store.Valid()
      ensures store.provider == old(store.provider) -
              if ok then Replaced(Updating(id, existing, row, replaceGallery)) else Handles(row)
    {
      if !ok {
        store.Discard(row.cover);
        store.DiscardAll(row.gallery);
      } else {
        if row.cover.Some? && existing.cover.Some? {
          store.Discard(existing.cover);
        }
        if replaceGallery {
          store.DiscardAll(existing.gallery);
        }
      }
    }

    /** A shop with orders is kept; a product may always go. */
    method Delete(id: Id, hasOrders: bool, readable: bool, fate: Fate) returns (ok: bool)
      requires store.Valid()
      modifies store
      ensures store.Valid()
      ensures var request := Request.Delete(id, kind == Product || !hasOrders, readable);
        store.Contents() == Serve(old(store.Contents()), request, fate) && ok == Answer(old(store.Contents()), request, fate)
      ensures ok <==> !(kind == Shop && hasOrders) && readable && id in old(store.rows) && fate.Works?
      ensures store.rows == if (kind == Shop && hasOrders) || !readable || fate.Fails? then old(store.rows) else old(store.rows) - {id}
    {
      if kind == Shop && hasOrders {
        return false;
      }
      var existing := store.FindByID(id, readable);
      if existing.None? {
        return false;
      }
      FinishAtOnce(store.Contents(), Deleting(id, existing.value), fate);
      store.calls := store.calls + 1;
      ok := store.Remove(id, fate);
      if ok {
        store.Discard(existing.value.cover);
        store.DiscardAll(existing.value.gallery);
      }
    }
  }
}
