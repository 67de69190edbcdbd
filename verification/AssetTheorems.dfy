/** The conservation law between the provider and the rows. */
module AssetTheorems {
  import opened Faults
  import opened Options
  import opened AssetModel

  // --- families of handle sets -------------------------------------------------------------

  function RowUnion(rows: map<Id, Row>): set<Handle> {
    set id, h | id in rows && h in Handles(rows[id]) :: h
  }

  function CallUnion(pending: map<nat, Call>): set<Handle> {
    set c, h | c in pending && h in Uploads(pending[c]) :: h
  }

  ghost predicate RowsApart(rows: map<Id, Row>) {
    forall i, j :: i in rows && j in rows && i != j ==> Handles(rows[i]) !! Handles(rows[j])
  }

  ghost predicate CallsApart(pending: map<nat, Call>) {
    forall i, j :: i in pending && j in pending && i != j ==> Uploads(pending[i]) !! Uploads(pending[j])
  }

  /** A row's cover is not also in its gallery. */
  ghost predicate RowSound(row: Row) {
    CoverOf(row) !! GalleryOf(row)
  }

  ghost predicate CallSound(s: State, c: Call) {
    && (!c.Deleting? ==> RowSound(c.row))
    && (!c.Creating? ==> c.id.n < s.born)
    && (c.Creating? ==> c.row.cover.Some?)
  }

  ghost predicate Wellformed(s: State) {
    && (forall id :: id in s.rows ==> RowSound(s.rows[id]) && id.n < s.born)
    && (forall c :: c in s.pending ==> c < s.calls && CallSound(s, s.pending[c]))
  }

  /** What the rows and the calls under way point at. */
  function Points(s: State): set<Handle> {
    RowUnion(s.rows) + CallUnion(s.pending)
  }

  /** Each handle is in one place. */
  ghost predicate Apart(s: State) {
    RowUnion(s.rows) !! CallUnion(s.pending) && RowsApart(s.rows) && CallsApart(s.pending)
  }

  /** Nothing dangles: the provider holds all that is pointed at. */
  ghost predicate Held(s: State) {
    Points(s) <= s.provider && Apart(s) && forall h :: h in s.provider ==> h < s.next
  }

  /** And nothing is leaked: it holds no more than that. */
  ghost predicate Conserved(s: State) {
    Held(s) && s.provider == Points(s)
  }

  /** Every call under way on a row still there read that row as it is now. */
  ghost predicate Current(s: State) {
    forall c :: c in s.pending && !s.pending[c].Creating? && s.pending[c].id in s.rows ==>
      s.pending[c].existing == s.rows[s.pending[c].id]
  }

  lemma RowUnionWith(rows: map<Id, Row>, id: Id, row: Row)
    ensures RowUnion(rows[id := row]) == RowUnion(rows - {id}) + Handles(row)
  {
    var after := rows[id := row];
    forall h | h in RowUnion(rows - {id}) + Handles(row)
      ensures h in RowUnion(after)
    {
      if h in Handles(row) {
        assert id in after && h in Handles(after[id]);
      } else {
        var i :| i in rows - {id} && h in Handles((rows - {id})[i]);
        assert i in after && h in Handles(after[i]);
      }
    }
    forall h | h in RowUnion(after)
      ensures h in RowUnion(rows - {id}) + Handles(row)
    {
      var i :| i in after && h in Handles(after[i]);
      if i != id { assert i in rows - {id} && h in Handles((rows - {id})[i]); }
    }
  }

  lemma RowUnionWithout(rows: map<Id, Row>, id: Id)
    requires RowsApart(rows) && id in rows
    ensures RowUnion(rows - {id}) == RowUnion(rows) - Handles(rows[id])
    ensures Handles(rows[id]) <= RowUnion(rows)
  {
    forall h | h in RowUnion(rows) - Handles(rows[id])
      ensures h in RowUnion(rows - {id})
    {
      var i :| i in rows && h in Handles(rows[i]);
      assert i in rows - {id} && h in Handles((rows - {id})[i]);
    }
  }

  lemma CallUnionWith(pending: map<nat, Call>, call: nat, c: Call)
    requires call !in pending
    ensures CallUnion(pending[call := c]) == CallUnion(pending) + Uploads(c)
  {
    var after := pending[call := c];
    forall h | h in CallUnion(pending) + Uploads(c)
      ensures h in CallUnion(after)
    {
      if h in Uploads(c) {
        assert call in after && h in Uploads(after[call]);
      } else {
        var i :| i in pending && h in Uploads(pending[i]);
        assert i in after && h in Uploads(after[i]);
      }
    }
    forall h | h in CallUnion(after)
      ensures h in CallUnion(pending) + Uploads(c)
    {
      var i :| i in after && h in Uploads(after[i]);
      if i != call { assert i in pending && h in Uploads(pending[i]); }
    }
  }

  lemma CallUnionWithout(pending: map<nat, Call>, call: nat)
    requires CallsApart(pending) && call in pending
    ensures CallUnion(pending - {call}) == CallUnion(pending) - Uploads(pending[call])
    ensures Uploads(pending[call]) <= CallUnion(pending)
  {
    forall h | h in CallUnion(pending) - Uploads(pending[call])
      ensures h in CallUnion(pending - {call})
    {
      var i :| i in pending && h in Uploads(pending[i]);
      assert i in pending - {call} && h in Uploads((pending - {call})[i]);
    }
  }

  // --- uploads -----------------------------------------------------------------------------

  lemma {:induction false} UploadAllIssues(next: Handle, files: seq<File>)
    ensures var r := UploadAll(next, files);
      next <= r.next && (r.result.Some? ==> forall h :: h in r.result.value ==> next <= h < r.next)
    decreases |files|
  {
    if files != [] {
      match files[0]
      case Missing => UploadAllIssues(next, files[1..]);
      case Rejected =>
      case Stored => UploadAllIssues(next + 1, files[1..]);
    }
  }

  lemma UploadIssues(next: Handle, cover: Option<bool>, gallery: seq<File>)
    ensures var r := UploadImages(next, cover, gallery);
      && next <= r.next
      && (r.result.Some? ==> RowSound(r.result.value) && forall h :: h in Handles(r.result.value) ==> next <= h < r.next)
  {
    UploadAllIssues(if cover.Some? then next + 1 else next, gallery);
  }

  /** New uploads are nobody else's. */
  lemma SuspendKeepsHeld(s: State, next: Handle, c: Call)
    requires Held(s) && s.calls !in s.pending && s.next <= next
    requires forall h :: h in Uploads(c) ==> s.next <= h < next
    ensures var t := Suspend(s.(next := next, provider := s.provider + Uploads(c)), c);
      Held(t) && Points(t) == Points(s) + Uploads(c)
  {
    CallUnionWith(s.pending, s.calls, c);
    var t := Suspend(s.(next := next, provider := s.provider + Uploads(c)), c);
    assert Uploads(c) !! RowUnion(s.rows) && Uploads(c) !! CallUnion(s.pending);
    forall i, j | i in t.pending && j in t.pending && i != j
      ensures Uploads(t.pending[i]) !! Uploads(t.pending[j])
    {
      if i == s.calls {
        assert forall h :: h in Uploads(s.pending[j]) ==> h in CallUnion(s.pending);
      } else if j == s.calls {
        assert forall h :: h in Uploads(s.pending[i]) ==> h in CallUnion(s.pending);
      }
    }
  }

  // --- what a write makes useless, and what is discarded -----------------------------------

  /** What the write takes out of the rows, judged by the row as it is when it is written. */
  function Dropped(s: State, c: Call): set<Handle>
    requires Possible(s, c)
  {
    match c
    case Creating(_, _) => {}
    case Updating(id, _, row, replaceGallery) =>
      (if row.cover.Some? then CoverOf(s.rows[id]) else {}) + (if replaceGallery then GalleryOf(s.rows[id]) else {})
    case Deleting(id, _) => Handles(s.rows[id])
  }

  predicate Lands(s: State, c: Call, fate: Fate) {
    !fate.Fails? && Possible(s, c)
  }

  function Useless(s: State, c: Call, fate: Fate): set<Handle> {
    if Lands(s, c, fate) then Dropped(s, c) else Uploads(c)
  }

  function Discarded(s: State, c: Call, fate: Fate): set<Handle> {
    if Lands(s, c, fate) && fate.Works? then Replaced(c) else Uploads(c)
  }

  lemma WrittenHandles(row: Row, c: Call)
    requires c.Updating? && RowSound(row)
    ensures var dropped := (if c.row.cover.Some? then CoverOf(row) else {}) + (if c.replaceGallery then GalleryOf(row) else {});
      Handles(Written(row, c)) == Handles(row) - dropped + Handles(c.row)
  {}

  lemma ApplyMoves(s: State, c: Call)
    requires Wellformed(s) && RowsApart(s.rows) && Possible(s, c)
    requires Uploads(c) !! RowUnion(s.rows)
    ensures RowUnion(Apply(s, c).rows) == RowUnion(s.rows) - Dropped(s, c) + Uploads(c)
    ensures Dropped(s, c) <= RowUnion(s.rows)
  {
    match c
    case Creating(kind, row) =>
      assert s.rows - {Id(kind, s.born)} == s.rows;
      RowUnionWith(s.rows, Id(kind, s.born), row);
    case Updating(id, _, row, _) =>
      RowUnionWith(s.rows, id, Written(s.rows[id], c));
      RowUnionWithout(s.rows, id);
      WrittenHandles(s.rows[id], c);
    case Deleting(id, _) =>
      RowUnionWithout(s.rows, id);
  }

  lemma RowInUnion(rows: map<Id, Row>, id: Id)
    requires id in rows
    ensures Handles(rows[id]) <= RowUnion(rows)
  {}

  lemma ApartWith(rows: map<Id, Row>, id: Id, row: Row, more: set<Handle>)
    requires RowsApart(rows) && more !! RowUnion(rows)
    requires Handles(row) <= more + if id in rows then Handles(rows[id]) else {}
    ensures RowsApart(rows[id := row])
  {}

  lemma ApplyKeepsApart(s: State, c: Call)
    requires Wellformed(s) && RowsApart(s.rows) && Possible(s, c)
    requires Uploads(c) !! RowUnion(s.rows)
    ensures RowsApart(Apply(s, c).rows)
  {
    match c
    case Creating(kind, row) => ApartWith(s.rows, Id(kind, s.born), row, Uploads(c));
    case Updating(id, _, row, _) =>
      WrittenHandles(s.rows[id], c);
      ApartWith(s.rows, id, Written(s.rows[id], c), Uploads(c));
    case Deleting(id, _) =>
  }

  /** After the write, the rows and the other calls point at everything but what the write made useless. */
  lemma FinishPointsAt(s: State, call: nat, fate: Fate)
    requires Wellformed(s) && Apart(s) && call in s.pending
    ensures var c, t := s.pending[call], FinishCall(s, call, fate);
      && Points(t) == Points(s) - Useless(s, c, fate)
      && Useless(s, c, fate) <= Points(s)
      && Apart(t)
  {
    var c := s.pending[call];
    CallUnionWithout(s.pending, call);
    if Lands(s, c, fate) {
      var rest := s.(pending := s.pending - {call});
      assert Apply(rest, c).rows == Apply(s, c).rows;
      ApplyMoves(s, c);
      ApplyKeepsApart(s, c);
    }
  }

  /**
   The law survives a finished call exactly when the call discards, of what the provider still
   has, just what its write made useless.
   */
  lemma FinishConservesIff(s: State, call: nat, fate: Fate)
    requires Wellformed(s) && Conserved(s) && call in s.pending
    ensures var c := s.pending[call];
      Conserved(FinishCall(s, call, fate)) <==> Discarded(s, c, fate) * s.provider == Useless(s, c, fate)
  {
    var c, t := s.pending[call], FinishCall(s, call, fate);
    FinishPointsAt(s, call, fate);
    assert t.provider == s.provider - Discarded(s, c, fate);
    DifferencesAgree(s.provider, Discarded(s, c, fate), Useless(s, c, fate));
  }

  lemma DifferencesAgree(all: set<Handle>, a: set<Handle>, b: set<Handle>)
    requires b <= all
    ensures all - a == all - b <==> a * all == b
  {}

  // --- what a call read before -------------------------------------------------------------

  /**
   Whatever ran since a call read its row, a handle it read is in no other row and in no upload,
   and if its row still shows it, then in the same place.
   */
  ghost predicate ReadSound(s: State, c: Call) {
    !c.Creating? ==>
      && Handles(c.existing) !! CallUnion(s.pending)
      && (forall h :: h in Handles(c.existing) ==> h < s.next)
      && (forall j :: j in s.rows ==> SamePlaces(c, j, s.rows[j]))
  }

  ghost predicate SamePlaces(c: Call, j: Id, row: Row)
    requires !c.Creating?
  {
    && CoverOf(c.existing) !! GalleryOf(row) && GalleryOf(c.existing) !! CoverOf(row)
    && (j != c.id ==> Handles(c.existing) !! Handles(row))
  }

  ghost predicate ReadsSound(s: State) {
    forall c :: c in s.pending ==> ReadSound(s, s.pending[c])
  }

  /** What a row shows is what it showed, in the same places, and the call's uploads. */
  ghost predicate Grown(before: map<Id, Row>, after: map<Id, Row>, more: set<Handle>) {
    forall j :: j in after ==>
      && CoverOf(after[j]) <= more + (if j in before then CoverOf(before[j]) else {})
      && GalleryOf(after[j]) <= more + (if j in before then GalleryOf(before[j]) else {})
  }

  lemma ApplyGrows(s: State, c: Call)
    requires Wellformed(s) && Possible(s, c)
    ensures Grown(s.rows, Apply(s, c).rows, Uploads(c))
  {}

  lemma PlacesStay(c: Call, j: Id, before: map<Id, Row>, after: map<Id, Row>, more: set<Handle>)
    requires !c.Creating? && Grown(before, after, more) && j in after && Handles(c.existing) !! more
    requires j in before ==> SamePlaces(c, j, before[j])
    ensures SamePlaces(c, j, after[j])
  {}

  /** `more` was uploaded by others before, or is newer than all the call read. */
  lemma ReadStays(s: State, t: State, d: Call, more: set<Handle>)
    requires ReadSound(s, d) && s.next <= t.next
    requires more <= CallUnion(s.pending) && Grown(s.rows, t.rows, more)
    requires forall h :: h in CallUnion(t.pending) ==> h in CallUnion(s.pending) || s.next <= h
    ensures ReadSound(t, d)
  {
    if !d.Creating? {
      forall j | j in t.rows
        ensures SamePlaces(d, j, t.rows[j])
      {
        PlacesStay(d, j, s.rows, t.rows, more);
      }
    }
  }

  lemma FinishKeepsReads(s: State, call: nat, fate: Fate)
    requires Wellformed(s) && Apart(s) && ReadsSound(s) && call in s.pending
    ensures ReadsSound(FinishCall(s, call, fate))
  {
    var c, t := s.pending[call], FinishCall(s, call, fate);
    CallUnionWithout(s.pending, call);
    if Lands(s, c, fate) { ApplyGrows(s, c); }
    forall d | d in t.pending
      ensures ReadSound(t, t.pending[d])
    {
      ReadStays(s, t, s.pending[d], Uploads(c));
    }
  }

  lemma OwnReadSound(s: State, id: Id)
    requires Wellformed(s) && Apart(s) && id in s.rows
    ensures forall j :: j in s.rows ==> SamePlaces(Deleting(id, s.rows[id]), j, s.rows[j])
    ensures Handles(s.rows[id]) !! CallUnion(s.pending)
  {
    RowInUnion(s.rows, id);
  }

  /** A landed write no longer shows what the call then discards. */
  lemma ReplacedIsNotShown(s: State, c: Call)
    requires Wellformed(s) && Possible(s, c) && ReadSound(s, c) && Uploads(c) <= CallUnion(s.pending)
    ensures Replaced(c) !! RowUnion(Apply(s, c).rows)
  {
    if !c.Creating? {
      forall h | h in Replaced(c)
        ensures h !in RowUnion(Apply(s, c).rows)
      {
        forall j | j in Apply(s, c).rows
          ensures h !in Handles(Apply(s, c).rows[j])
        {
          assert SamePlaces(c, j, s.rows[j]);
        }
      }
    }
  }

  /** A write that lands although the caller is told it failed, by a call that uploaded images. */
  predicate LosesUploads(s: State, c: Call, fate: Fate) {
    fate.Lost? && Possible(s, c) && Uploads(c) != {}
  }

  lemma LostUploadsDangle(s: State, call: nat)
    requires Wellformed(s) && Apart(s) && call in s.pending && LosesUploads(s, s.pending[call], Lost)
    ensures var t := FinishCall(s, call, Lost);
      Uploads(s.pending[call]) <= RowUnion(t.rows) && Uploads(s.pending[call]) !! t.provider
  {
    var c := s.pending[call];
    CallUnionWithout(s.pending, call);
    ApplyMoves(s, c);
    assert Apply(s.(pending := s.pending - {call}), c).rows == Apply(s, c).rows;
  }

  lemma DiscardsNothingShown(s: State, call: nat, fate: Fate)
    requires Wellformed(s) && Apart(s) && ReadsSound(s) && call in s.pending
    requires !LosesUploads(s, s.pending[call], fate)
    ensures Discarded(s, s.pending[call], fate) !! Points(FinishCall(s, call, fate))
  {
    var c, t := s.pending[call], FinishCall(s, call, fate);
    CallUnionWithout(s.pending, call);
    FinishPointsAt(s, call, fate);
    if Lands(s, c, fate) && fate.Works? {
      ReplacedIsNotShown(s, c);
      assert t.rows == Apply(s, c).rows;
      if !c.Creating? { assert Replaced(c) <= Handles(c.existing); }
    }
  }

  /** Finishing a call leaves a row that points at a missing image exactly when it loses uploads. */
  lemma FinishDanglesIff(s: State, call: nat, fate: Fate)
    requires Wellformed(s) && Held(s) && ReadsSound(s) && call in s.pending
    ensures var t := FinishCall(s, call, fate);
      && (RowUnion(t.rows) <= t.provider <==> !LosesUploads(s, s.pending[call], fate))
      && (!LosesUploads(s, s.pending[call], fate) ==> Held(t))
  {
    if LosesUploads(s, s.pending[call], fate) {
      LostUploadsDangle(s, call);
    } else {
      FinishPointsAt(s, call, fate);
      DiscardsNothingShown(s, call, fate);
    }
  }

  // --- the row the call read, and the row it finds -----------------------------------------

  /** The images the write replaces are all still the ones the call read. */
  predicate StillThere(s: State, c: Call)
    requires !c.Creating? && c.id in s.rows
  {
    var row := s.rows[c.id];
    && (c.Deleting? || c.row.cover.Some? ==> CoverOf(row) <= CoverOf(c.existing))
    && (c.Deleting? || c.replaceGallery ==> GalleryOf(row) <= GalleryOf(c.existing))
  }

  /**
   An edit or delete that lands keeps the law exactly when every image it replaces is one that
   the row held when the call read it.
   */
  lemma LandedConservesIff(s: State, call: nat)
    requires Wellformed(s) && Conserved(s) && ReadsSound(s) && call in s.pending
    requires !s.pending[call].Creating? && s.pending[call].id in s.rows
    ensures Conserved(FinishCall(s, call, Works)) <==> StillThere(s, s.pending[call])
  {
    var c := s.pending[call];
    FinishConservesIff(s, call, Works);
    StillHeld(s, c);
    DroppedIff(s, c);
  }

  /** Of what a call read, the provider still has just what its row still shows. */
  lemma StillHeld(s: State, c: Call)
    requires Conserved(s) && !c.Creating? && ReadSound(s, c) && c.id in s.rows
    ensures Replaced(c) * s.provider == Replaced(c) * Handles(s.rows[c.id])
  {
    RowInUnion(s.rows, c.id);
    forall h | h in Replaced(c) * s.provider
      ensures h in Handles(s.rows[c.id])
    {
      assert h in RowUnion(s.rows);
      var j :| j in s.rows && h in Handles(s.rows[j]);
      assert SamePlaces(c, j, s.rows[j]);
    }
  }

  lemma DroppedIff(s: State, c: Call)
    requires !c.Creating? && c.id in s.rows && SamePlaces(c, c.id, s.rows[c.id]) && RowSound(s.rows[c.id])
    ensures Replaced(c) * Handles(s.rows[c.id]) == Dropped(s, c) <==> StillThere(s, c)
  {
    var row, read := s.rows[c.id], c.existing;
    var covers, galleries := c.Deleting? || c.row.cover.Some?, c.Deleting? || c.replaceGallery;
    var dropped := (if covers then CoverOf(row) else {}) + (if galleries then GalleryOf(row) else {});
    assert Dropped(s, c) == dropped;
    var replaced := (if covers then CoverOf(read) else {}) + (if galleries then GalleryOf(read) else {});
    assert Replaced(c) == replaced;
    PartsAgree(CoverOf(read), GalleryOf(read), CoverOf(row), GalleryOf(row), covers, galleries);
  }

  lemma PartsAgree(
    a: set<Handle>, b: set<Handle>, x: set<Handle>, y: set<Handle>, covers: bool, galleries: bool)
    requires a !! y && b !! x && x !! y
    ensures ((if covers then a else {}) + (if galleries then b else {})) * (x + y) ==
            (if covers then x else {}) + (if galleries then y else {}) <==>
            (covers ==> x <= a) && (galleries ==> y <= b)
  {
    var left := ((if covers then a else {}) + (if galleries then b else {})) * (x + y);
    var right := (if covers then x else {}) + (if galleries then y else {});
    assert left <= right;
    if left == right {
      assert covers ==> forall h :: h in x ==> h in left;
      assert galleries ==> forall h :: h in y ==> h in left;
    }
  }

  // --- runs --------------------------------------------------------------------------------

  predicate On(c: Call, id: Id) {
    !c.Creating? && c.id == id
  }

  ghost predicate OnePerRow(s: State) {
    forall c, d :: c in s.pending && d in s.pending && c != d && !s.pending[c].Creating? && !s.pending[d].Creating? ==>
      s.pending[c].id != s.pending[d].id
  }

  /** Kept by every interleaving in which no uploads are lost. */
  ghost predicate Sound(s: State) {
    Wellformed(s) && Held(s) && ReadsSound(s)
  }

  /** Kept by orderly runs. */
  ghost predicate Inv(s: State) {
    Sound(s) && Conserved(s) && Current(s) && OnePerRow(s)
  }

  ghost predicate Unclaimed(s: State, id: Id) {
    forall c :: c in s.pending ==> !On(s.pending[c], id)
  }

  /**
   No call on a row starts while another on it is under way; and a write whose outcome is lost
   touches no image.
   */
  ghost predicate Orderly(s: State, op: Op) {
    match op
    case Begin(Update(id, _, _, _, _, _)) => Unclaimed(s, id)
    case Begin(Delete(id, _, _)) => Unclaimed(s, id)
    case Begin(Create(_, _, _, _)) => true
    case Finish(call, fate) =>
      fate.Lost? && call in s.pending && Possible(s, s.pending[call]) ==>
        Uploads(s.pending[call]) == {} && Replaced(s.pending[call]) == {}
  }

  /** No write lands with images although its caller is told it failed. */
  ghost predicate LosesNothing(s: State, op: Op) {
    op.Finish? && op.call in s.pending ==> !LosesUploads(s, s.pending[op.call], op.fate)
  }

  ghost predicate LossFree(s: State, ops: seq<Op>)
    decreases |ops|
  {
    ops == [] || (LosesNothing(s, ops[0]) && LossFree(Step(s, ops[0]), ops[1..]))
  }

  ghost predicate OrderlyRun(s: State, ops: seq<Op>)
    decreases |ops|
  {
    ops == [] || (Orderly(s, ops[0]) && OrderlyRun(Step(s, ops[0]), ops[1..]))
  }

  lemma FinishKeepsRest(s: State, call: nat, fate: Fate)
    requires Wellformed(s) && OnePerRow(s) && Current(s) && call in s.pending
    ensures var t := FinishCall(s, call, fate); OnePerRow(t) && Current(t)
  {}

  lemma FinishKeepsWellformed(s: State, call: nat, fate: Fate)
    requires Wellformed(s) && call in s.pending
    requires Uploads(s.pending[call]) !! RowUnion(s.rows)
    ensures Wellformed(FinishCall(s, call, fate))
  {
    var c, t := s.pending[call], FinishCall(s, call, fate);
    assert CallSound(s, c);
    if c.Updating? && c.id in s.rows {
      RowInUnion(s.rows, c.id);
      WrittenSound(s.rows[c.id], c);
    }
    forall id | id in t.rows
      ensures RowSound(t.rows[id]) && id.n < t.born
    {}
    forall d | d in t.pending
      ensures d < t.calls && CallSound(t, t.pending[d])
    {
      assert CallSound(s, s.pending[d]);
    }
  }

  lemma WrittenSound(row: Row, c: Call)
    requires c.Updating? && RowSound(row) && RowSound(c.row) && Handles(c.row) !! Handles(row)
    ensures RowSound(Written(row, c))
  {}

  /** A call that read its row as it still is discards exactly what it should, unless its outcome is lost. */
  lemma CurrentCallDiscardsRightly(s: State, call: nat, fate: Fate)
    requires Conserved(s) && Current(s) && call in s.pending
    requires Orderly(s, Finish(call, fate))
    ensures var c := s.pending[call]; Discarded(s, c, fate) * s.provider == Useless(s, c, fate)
  {
    var c := s.pending[call];
    CallUnionWithout(s.pending, call);
    if Possible(s, c) && !c.Creating? { RowInUnion(s.rows, c.id); }
  }

  lemma FinishKeepsSound(s: State, call: nat, fate: Fate)
    requires Sound(s) && call in s.pending && !LosesUploads(s, s.pending[call], fate)
    ensures Sound(FinishCall(s, call, fate))
  {
    CallUnionWithout(s.pending, call);
    FinishKeepsWellformed(s, call, fate);
    FinishKeepsReads(s, call, fate);
    FinishDanglesIff(s, call, fate);
  }

  lemma FinishKeeps(s: State, call: nat, fate: Fate)
    requires Inv(s) && call in s.pending && Orderly(s, Finish(call, fate))
    ensures Inv(FinishCall(s, call, fate))
  {
    FinishKeepsSound(s, call, fate);
    CurrentCallDiscardsRightly(s, call, fate);
    FinishConservesIff(s, call, fate);
    FinishKeepsRest(s, call, fate);
  }

  lemma UploadResults(s: State, cover: Option<bool>, gallery: seq<File>)
    requires forall h :: h in s.provider ==> h < s.next
    ensures var (t, row) := Upload(s, cover, gallery);
      && s.next <= t.next && t == s.(next := t.next, provider := t.provider)
      && (row.None? ==> t.provider == s.provider)
      && (row.Some? ==> RowSound(row.value) && (row.value.cover.Some? <==> cover.Some?)
                        && t.provider == s.provider + Handles(row.value)
                        && forall h :: h in Handles(row.value) ==> s.next <= h < t.next)
  {
    UploadIssues(s.next, cover, gallery);
  }

  /** The state in which a call has its uploads, or none of them. */
  ghost predicate NewCall(s: State, next: Handle, c: Call) {
    && s.next <= next && CallSound(s, c)
    && (forall h :: h in Uploads(c) ==> s.next <= h < next)
    && (!c.Creating? ==> c.id in s.rows && c.existing == s.rows[c.id])
  }

  function Suspended(s: State, next: Handle, c: Call): State {
    Suspend(s.(next := next, provider := s.provider + Uploads(c)), c)
  }

  lemma SuspendKeepsReads(s: State, next: Handle, c: Call)
    requires Sound(s) && NewCall(s, next, c)
    ensures ReadsSound(Suspended(s, next, c))
  {
    var t := Suspended(s, next, c);
    if s.calls in s.pending { assert false; }
    CallUnionWith(s.pending, s.calls, c);
    forall d | d in t.pending
      ensures ReadSound(t, t.pending[d])
    {
      if d != s.calls {
        ReadStays(s, t, s.pending[d], {});
      } else if !c.Creating? {
        OwnReadSound(s, c.id);
        RowInUnion(s.rows, c.id);
        assert forall j :: j in s.rows ==> SamePlaces(Deleting(c.id, s.rows[c.id]), j, s.rows[j]) ==> SamePlaces(c, j, s.rows[j]);
      }
    }
  }

  lemma SuspendKeepsSound(s: State, next: Handle, c: Call)
    requires Sound(s) && NewCall(s, next, c)
    ensures Sound(Suspended(s, next, c)) && (Conserved(s) ==> Conserved(Suspended(s, next, c)))
  {
    if s.calls in s.pending { assert false; }
    SuspendKeepsHeld(s, next, c);
    SuspendKeepsReads(s, next, c);
    var t := Suspended(s, next, c);
    forall d | d in t.pending
      ensures d < t.calls && CallSound(t, t.pending[d])
    {
      if d != s.calls { assert CallSound(s, s.pending[d]); }
    }
  }

  lemma SuspendKeeps(s: State, next: Handle, c: Call)
    requires Inv(s) && NewCall(s, next, c)
    requires !c.Creating? ==> Unclaimed(s, c.id)
    ensures Inv(Suspended(s, next, c))
  {
    SuspendKeepsSound(s, next, c);
    var t := Suspended(s, next, c);
    forall d, e | d in t.pending && e in t.pending && d != e && !t.pending[d].Creating? && !t.pending[e].Creating?
      ensures t.pending[d].id != t.pending[e].id
    {
      if d == s.calls {
        assert !On(s.pending[e], c.id);
      } else if e == s.calls {
        assert !On(s.pending[d], c.id);
      }
    }
  }

  /** Beginning a call suspends it with its uploads, or changes nothing but the next handle. */
  lemma BeginSuspends(s: State, request: Request) returns (next: Handle, c: Option<Call>)
    requires Wellformed(s) && forall h :: h in s.provider ==> h < s.next
    ensures s.next <= next
    ensures BeginRequest(s, request) == if c.None? then s.(next := next) else Suspended(s, next, c.value)
    ensures c.Some? ==> NewCall(s, next, c.value)
    ensures c.Some? && !c.value.Creating? ==> !request.Create? && c.value.id == request.id
  {
    next, c := s.next, None;
    match request
    case Create(kind, valid, cover, gallery) =>
      if valid && cover.Some? {
        var (t, row) := Upload(s, cover, gallery);
        UploadResults(s, cover, gallery);
        next, c := t.next, if row.None? then None else Some(Creating(kind, row.value));
      }
    case Update(id, readable, valid, cover, gallery, replaceGallery) =>
      if readable && id in s.rows && valid {
        var (t, row) := Upload(s, cover, gallery);
        UploadResults(s, cover, gallery);
        next, c := t.next, if row.None? then None else Some(Updating(id, s.rows[id], row.value, replaceGallery));
      }
    case Delete(id, allowed, readable) =>
      if allowed && readable && id in s.rows {
        c := Some(Deleting(id, s.rows[id]));
        assert s.provider + {} == s.provider;
      }
  }

  lemma SkippedHandlesKeep(s: State, next: Handle)
    requires Sound(s) && s.next <= next
    ensures Sound(s.(next := next)) && (Inv(s) ==> Inv(s.(next := next)))
  {
    var t := s.(next := next);
    assert Held(t);
    forall c | c in t.pending
      ensures ReadSound(t, t.pending[c]) && CallSound(t, t.pending[c])
    {
      assert ReadSound(s, s.pending[c]) && CallSound(s, s.pending[c]);
    }
  }

  lemma BeginKeepsSound(s: State, request: Request)
    requires Sound(s)
    ensures Sound(BeginRequest(s, request))
  {
    var next, c := BeginSuspends(s, request);
    if c.None? { SkippedHandlesKeep(s, next); } else { SuspendKeepsSound(s, next, c.value); }
  }

  lemma BeginKeeps(s: State, request: Request)
    requires Inv(s) && Orderly(s, Begin(request))
    ensures Inv(BeginRequest(s, request))
  {
    var next, c := BeginSuspends(s, request);
    if c.None? { SkippedHandlesKeep(s, next); } else { SuspendKeeps(s, next, c.value); }
  }

  lemma StepKeeps(s: State, op: Op)
    requires Inv(s) && Orderly(s, op)
    ensures Inv(Step(s, op))
  {
    match op
    case Begin(request) => BeginKeeps(s, request);
    case Finish(call, fate) => if call in s.pending { FinishKeeps(s, call, fate); }
  }

  lemma {:induction false} RunKeepsSound(s: State, ops: seq<Op>)
    requires Sound(s) && LossFree(s, ops)
    ensures Sound(Run(s, ops))
    decreases |ops|
  {
    if ops != [] {
      match ops[0] {
        case Begin(request) => BeginKeepsSound(s, request);
        case Finish(call, fate) => if call in s.pending { FinishKeepsSound(s, call, fate); }
      }
      RunKeepsSound(Step(s, ops[0]), ops[1..]);
    }
  }

  lemma {:induction false} RunKeeps(s: State, ops: seq<Op>)
    requires Inv(s) && OrderlyRun(s, ops)
    ensures Inv(Run(s, ops))
    decreases |ops|
  {
    if ops != [] {
      StepKeeps(s, ops[0]);
      RunKeeps(Step(s, ops[0]), ops[1..]);
    }
  }

  // --- theorems ----------------------------------------------------------------------------

  lemma EmptyInv()
    ensures Inv(Empty())
  {}

  /**
   Whatever uploads and writes fail, as long as calls on one row do not overlap and no write with
   images is lost: the provider holds exactly the images that rows show and that calls under way
   have just uploaded, each in one place; so once no call is under way, those of live rows.
   */
  lemma AssetsAreConserved(ops: seq<Op>)
    requires OrderlyRun(Empty(), ops)
    ensures var s := Run(Empty(), ops);
      && s.provider == Points(s) && Apart(s)
      && (s.pending == map[] ==> s.provider == RowUnion(s.rows))
  {
    EmptyInv();
    RunKeeps(Empty(), ops);
    assert CallUnion(map[]) == {};
  }

  /**
   Nothing a row shows is ever missing, in any interleaving, with overlapping calls on one row as
   well, unless a write with images is lost.
   */
  lemma NothingDangles(ops: seq<Op>)
    requires LossFree(Empty(), ops)
    ensures var s := Run(Empty(), ops); RowUnion(s.rows) <= s.provider && RowsApart(s.rows)
  {
    EmptyInv();
    RunKeepsSound(Empty(), ops);
  }

  datatype Served = Served(request: Request, fate: Fate)

  function ServeAll(s: State, calls: seq<Served>): State
    decreases |calls|
  {
    if calls == [] then s else ServeAll(Serve(s, calls[0].request, calls[0].fate), calls[1..])
  }

  lemma BeginAddsAtMostOne(s: State, request: Request)
    requires s.pending == map[]
    ensures BeginRequest(s, request).pending.Keys <= {s.calls}
  {}

  lemma ServeKeeps(s: State, request: Request, fate: Fate)
    requires Inv(s) && s.pending == map[] && !fate.Lost?
    ensures Inv(Serve(s, request, fate)) && Serve(s, request, fate).pending == map[]
  {
    var begun := BeginRequest(s, request);
    BeginKeeps(s, request);
    BeginAddsAtMostOne(s, request);
    if s.calls in begun.pending {
      FinishKeeps(begun, s.calls, fate);
    } else {
      assert begun.pending.Keys == {};
    }
  }

  lemma {:induction false} ServeAllKeeps(s: State, calls: seq<Served>)
    requires Inv(s) && s.pending == map[] && forall i :: 0 <= i < |calls| ==> !calls[i].fate.Lost?
    ensures Inv(ServeAll(s, calls)) && ServeAll(s, calls).pending == map[]
    decreases |calls|
  {
    if calls != [] {
      ServeKeeps(s, calls[0].request, calls[0].fate);
      ServeAllKeeps(Serve(s, calls[0].request, calls[0].fate), calls[1..]);
    }
  }

  /** After any sequence of calls, any of whose uploads or writes may fail with an error that means no row changed. */
  lemma SerialCallsConserve(calls: seq<Served>)
    requires forall i :: 0 <= i < |calls| ==> !calls[i].fate.Lost?
    ensures var s := ServeAll(Empty(), calls); s.provider == RowUnion(s.rows) && RowsApart(s.rows)
  {
    EmptyInv();
    ServeAllKeeps(Empty(), calls);
    assert CallUnion(map[]) == {};
  }

  // --- where it fails ----------------------------------------------------------------------

  /** A write that commits but reports an error keeps the law exactly when the call neither uploaded nor replaced an image. */
  lemma LostConservesIff(s: State, call: nat)
    requires Inv(s) && call in s.pending && Possible(s, s.pending[call])
    ensures var c := s.pending[call];
      Conserved(FinishCall(s, call, Lost)) <==> Uploads(c) == {} && Replaced(c) == {}
  {
    var c := s.pending[call];
    FinishConservesIff(s, call, Lost);
    CallUnionWithout(s.pending, call);
    if !c.Creating? { RowInUnion(s.rows, c.id); }
    assert Uploads(c) * s.provider == Uploads(c) && Dropped(s, c) == Replaced(c) && Uploads(c) !! Replaced(c);
  }

  /** A create always uploads a cover, so one whose read-back fails leaves a row pointing at discarded images. */
  lemma LostCreateDangles(s: State, call: nat)
    requires Sound(s) && call in s.pending && s.pending[call].Creating?
    ensures var t := FinishCall(s, call, Lost); !(RowUnion(t.rows) <= t.provider)
  {
    assert CallSound(s, s.pending[call]);
    assert s.pending[call].row.cover.value in Uploads(s.pending[call]);
    FinishDanglesIff(s, call, Lost);
  }

  /** Two edits of one row that both read it before either writes: the first one's cover is leaked. */
  lemma OverlappingUpdatesLeak(s: State, a: nat, b: nat)
    requires Sound(s) && Conserved(s) && Current(s) && a in s.pending && b in s.pending && a != b
    requires s.pending[a].Updating? && s.pending[b].Updating? && s.pending[a].id == s.pending[b].id && s.pending[a].id in s.rows
    requires s.pending[a].row.cover.Some? && s.pending[b].row.cover.Some?
    ensures var t := FinishCall(FinishCall(s, a, Works), b, Works);
      var cover := s.pending[a].row.cover.value;
      cover in t.provider && cover !in RowUnion(t.rows)
  {
    var ca, cb := s.pending[a], s.pending[b];
    var cover := ca.row.cover.value;
    var r := FinishCall(s, a, Works);
    CallUnionWithout(s.pending, a);
    RowInUnion(s.rows, ca.id);
    assert cover in Uploads(ca) && cover !in RowUnion(s.rows);
    CurrentCallDiscardsRightly(s, a, Works);
    FinishConservesIff(s, a, Works);
    FinishKeepsWellformed(s, a, Works);
    FinishPointsAt(r, b, Works);
    assert cover in CoverOf(r.rows[cb.id]) && cover in Dropped(r, cb);
    assert cover !in Replaced(cb);
    RowInUnion(r.rows, cb.id);
  }
}
