/** The annotation workbench: a gesture state machine over one image's
    ordered region list. A press on the image starts a draw, a press on a
    region starts a move, a press on its corner handle starts a resize;
    pointer moves update the draft or the region; a release ends a resize,
    else a move, else turns a large enough draw into a pending draft that a
    clause must be attached to before it joins the list. */
module AnnotationEngine {

  import opened Common
  import opened Geometry
  import opened KnowledgeTree
  import opened ServerTables

  /** The smallest draft, in ratio units on each axis, that opens the
      clause dialog. */
  const MinDraftSide: real := 0.02

  // ---------------------------------------------------------------------
  // Edits of the region list

  /** Every region with id `id` gets the resized box; the others are kept. */
  function ResizeRegions(rs: seq<Region>, id: string, dx: real, dy: real, locked: bool, b: DisplayedBox): (r: seq<Region>)
    ensures |r| == |rs|
    ensures forall i :: 0 <= i < |rs| && rs[i].id != id ==> r[i] == rs[i]
    ensures forall i :: 0 <= i < |rs| && rs[i].id == id ==>
              && r[i] == rs[i].(rect := r[i].rect)
              && r[i].rect.x == rs[i].rect.x && r[i].rect.y == rs[i].rect.y
              && r[i].rect.w >= 0.01 && r[i].rect.h >= 0.01
              && r[i].rect.w >= rs[i].rect.w + dx && r[i].rect.h >= rs[i].rect.h + dy
              && (locked ==> SquareOn(r[i].rect, b))
    ensures forall i :: 0 <= i < |rs| && rs[i].id == id ==>
              r[i] == rs[i].(rect := ResizedRect(rs[i].rect, dx, dy, locked, b))
  {
    seq(|rs|, i requires 0 <= i < |rs| =>
      if rs[i].id == id then rs[i].(rect := ResizedRect(rs[i].rect, dx, dy, locked, b)) else rs[i])
  }

  /** Every region with id `id` is translated and clamped; the others are kept. */
  function MoveRegions(rs: seq<Region>, id: string, dx: real, dy: real): (r: seq<Region>)
    ensures |r| == |rs|
    ensures forall i :: 0 <= i < |rs| && rs[i].id != id ==> r[i] == rs[i]
    ensures forall i :: 0 <= i < |rs| && rs[i].id == id ==>
              && r[i] == rs[i].(rect := r[i].rect)
              && r[i].rect.w == rs[i].rect.w && r[i].rect.h == rs[i].rect.h
              && 0.0 <= r[i].rect.x && 0.0 <= r[i].rect.y
              && (rs[i].rect.w <= 1.0 ==> r[i].rect.x + r[i].rect.w <= 1.0)
              && (rs[i].rect.h <= 1.0 ==> r[i].rect.y + r[i].rect.h <= 1.0)
              && (0.0 <= rs[i].rect.x + dx <= 1.0 - rs[i].rect.w ==> r[i].rect.x == rs[i].rect.x + dx)
              && (0.0 <= rs[i].rect.y + dy <= 1.0 - rs[i].rect.h ==> r[i].rect.y == rs[i].rect.y + dy)
    ensures forall i :: 0 <= i < |rs| && rs[i].id == id ==>
              r[i] == rs[i].(rect := MovedRect(rs[i].rect, dx, dy))
  {
    seq(|rs|, i requires 0 <= i < |rs| =>
      if rs[i].id == id then rs[i].(rect := MovedRect(rs[i].rect, dx, dy)) else rs[i])
  }

  /** The list after the delete button of region `id`: every region with
      that id is gone and the others stay, in order. */
  function Without(rs: seq<Region>, id: string): (r: seq<Region>)
    ensures |r| <= |rs|
    ensures forall i :: 0 <= i < |r| ==> r[i].id != id && r[i] in rs
    ensures forall i :: 0 <= i < |rs| && rs[i].id != id ==> rs[i] in r
  {
    Filter(rs, (a: Region) => a.id != id)
  }

  /** Deleting works piecewise, so the survivors keep their relative order. */
  lemma WithoutAppend(a: seq<Region>, b: seq<Region>, id: string)
    ensures Without(a + b, id) == Without(a, id) + Without(b, id)
  {
    FilterAppend(a, b, (x: Region) => x.id != id);
  }

  /** Deleting an id nobody carries changes nothing. */
  lemma WithoutAbsent(rs: seq<Region>, id: string)
    requires id !in RegionIds(rs)
    ensures Without(rs, id) == rs
  {
    forall i | 0 <= i < |rs| ensures rs[i].id != id {
      assert RegionIds(rs)[i] == rs[i].id;
    }
    FilterKeepsAll(rs, (x: Region) => x.id != id);
  }

  /** Confirming a draft with a fresh id and then deleting it restores the
      list. */
  lemma ConfirmThenDelete(rs: seq<Region>, d: Region)
    requires d.id !in RegionIds(rs)
    ensures Without(rs + [d], d.id) == rs
  {
    WithoutAppend(rs, [d], d.id);
    WithoutAbsent(rs, d.id);
    FilterSingle(d, (x: Region) => x.id != d.id);
  }

  // ---------------------------------------------------------------------
  // The image list's search and status filter

  datatype StatusFilter = AllImages | AnnotatedOnly | UnannotatedOnly

  predicate StatusMatches(a: Asset, f: StatusFilter)
  {
    f == AllImages || (f == AnnotatedOnly && a.isAnnotated) || (f == UnannotatedOnly && !a.isAnnotated)
  }

  /** The images whose name matches the search (case-insensitive substring
      search, given here as `matchesQuery`) and whose status matches the
      filter, in list order. */
  function FilteredImages(images: seq<Asset>, matchesQuery: string -> bool, f: StatusFilter): (r: seq<Asset>)
    ensures forall i :: 0 <= i < |r| ==> r[i] in images && matchesQuery(r[i].name) && StatusMatches(r[i], f)
    ensures forall i :: 0 <= i < |images| && matchesQuery(images[i].name) && StatusMatches(images[i], f)
              ==> images[i] in r
  {
    Filter(images, (a: Asset) => matchesQuery(a.name) && StatusMatches(a, f))
  }

  /** The annotated and the unannotated lists split the full list between
      them. */
  lemma {:induction false} StatusFiltersPartition(images: seq<Asset>, matchesQuery: string -> bool)
    ensures |FilteredImages(images, matchesQuery, AnnotatedOnly)| + |FilteredImages(images, matchesQuery, UnannotatedOnly)|
            == |FilteredImages(images, matchesQuery, AllImages)|
  {
    if images != [] {
      StatusFiltersPartition(images[1..], matchesQuery);
    }
  }

  // ---------------------------------------------------------------------
  // The workbench

  class Engine {
    /** The image being annotated, by name. */
    var activeImage: Option<string>
    /** The image's regions, in list order. */
    var annotations: seq<Region>
    var drawMode: Shape
    var isDrawing: bool
    var startPos: Option<RatioPoint>
    var currentRect: Option<Rect>
    /** The region being resized; "" when none. */
    var resizingId: string
    var resizeStart: Option<RatioPoint>
    /** The region being moved; "" when none. */
    var movingId: string
    var moveStart: Option<RatioPoint>
    /** The draft waiting in the clause dialog; the dialog is open exactly
        while there is one. */
    var pending: Option<Region>
    /** The item picked in the dialog's last list; "" when none. */
    var mItem: string

    /** A draw in progress has a start point and a candidate box; a pending
        draft blocks drawing and is larger than the minimum on both axes. */
    predicate Valid()
      reads this
    {
      && (isDrawing ==> startPos.Some? && currentRect.Some?)
      && (pending.Some? ==> !isDrawing && pending.value.rect.w > MinDraftSide && pending.value.rect.h > MinDraftSide)
    }

    constructor()
      ensures Valid()
      ensures activeImage == None && annotations == [] && drawMode == RectShape
      ensures !isDrawing && startPos == None && currentRect == None
      ensures resizingId == "" && resizeStart == None && movingId == "" && moveStart == None
      ensures pending == None && mItem == ""
    {
      activeImage := None;
      annotations := [];
      drawMode := RectShape;
      isDrawing := false;
      startPos := None;
      currentRect := None;
      resizingId := "";
      resizeStart := None;
      movingId := "";
      moveStart := None;
      pending := None;
      mItem := "";
    }

    /** Picking an image from the list loads its stored regions. */
    method SelectImage(name: string, stored: seq<Region>)
      requires Valid()
      modifies this
      ensures Valid()
      ensures activeImage == Some(name) && annotations == stored
      ensures isDrawing == old(isDrawing) && startPos == old(startPos) && currentRect == old(currentRect)
      ensures resizingId == old(resizingId) && resizeStart == old(resizeStart)
      ensures movingId == old(movingId) && moveStart == old(moveStart)
      ensures pending == old(pending) && mItem == old(mItem) && drawMode == old(drawMode)
    {
      activeImage := Some(name);
      annotations := stored;
    }

    method SetDrawMode(m: Shape)
      modifies this`drawMode
      ensures drawMode == m
    {
      drawMode := m;
    }

    /** A press on the image: with the left button, an image open and no
        dialog, a draw starts at the pointer with an empty candidate box. */
    method MouseDownOnImage(e: PointerEvent, image: Option<DisplayedBox>)
      requires Valid()
      modifies this`isDrawing, this`startPos, this`currentRect
      ensures Valid()
      ensures if activeImage.Some? && pending.None? && e.button == 0 && image.Some? then
                var p := RatioPos(e, image.value);
                isDrawing && startPos == Some(p) && currentRect == Some(Rect(p.xRatio, p.yRatio, 0.0, 0.0))
              else
                isDrawing == old(isDrawing) && startPos == old(startPos) && currentRect == old(currentRect)
    {
      if activeImage.None? || pending.Some? {
        return;
      }
      if e.button != 0 {
        return;
      }
      var pos := RatioPosOf(e, image);
      if pos.None? {
        return;
      }
      isDrawing := true;
      startPos := pos;
      currentRect := Some(Rect(pos.value.xRatio, pos.value.yRatio, 0.0, 0.0));
    }

    /** A left-button press on a region's body starts moving it. */
    method MouseDownOnRegion(id: string, e: PointerEvent, image: Option<DisplayedBox>)
      modifies this`movingId, this`moveStart
      ensures e.button == 0 ==> movingId == id && moveStart == RatioPosOf(e, image)
      ensures e.button != 0 ==> movingId == old(movingId) && moveStart == old(moveStart)
    {
      if e.button == 0 {
        movingId := id;
        moveStart := RatioPosOf(e, image);
      }
    }

    /** A press on a region's corner handle, with any button, starts resizing it. */
    method MouseDownOnResizeHandle(id: string, e: PointerEvent, image: Option<DisplayedBox>)
      modifies this`resizingId, this`resizeStart
      ensures resizingId == id && resizeStart == RatioPosOf(e, image)
    {
      resizingId := id;
      resizeStart := RatioPosOf(e, image);
    }

    /** A press on a region's delete button, with any button, removes it. */
    method MouseDownOnDeleteButton(id: string)
      modifies this`annotations
      ensures annotations == Without(old(annotations), id)
    {
      annotations := Without(annotations, id);
    }

    /** A pointer move. Without an image nothing happens. Otherwise a resize
        in progress takes precedence, then a move, then a draw; each step's
        delta is taken from the last recorded point. */
    method MouseMove(e: PointerEvent, image: Option<DisplayedBox>)
      requires Valid()
      modifies this`annotations, this`resizeStart, this`moveStart, this`currentRect
      ensures Valid()
      ensures image.None? ==>
                annotations == old(annotations) && resizeStart == old(resizeStart)
                && moveStart == old(moveStart) && currentRect == old(currentRect)
      ensures image.Some? && resizingId != "" && old(resizeStart).Some? ==>
                var p, s := RatioPos(e, image.value), old(resizeStart).value;
                && annotations == ResizeRegions(old(annotations), resizingId, p.xRatio - s.xRatio,
                                                p.yRatio - s.yRatio, AspectLocked(e), image.value)
                && resizeStart == (if resizingId in RegionIds(old(annotations)) then Some(p) else old(resizeStart))
                && moveStart == old(moveStart) && currentRect == old(currentRect)
      ensures image.Some? && !(resizingId != "" && old(resizeStart).Some?) && movingId != "" && old(moveStart).Some? ==>
                var p, s := RatioPos(e, image.value), old(moveStart).value;
                && annotations == MoveRegions(old(annotations), movingId, p.xRatio - s.xRatio, p.yRatio - s.yRatio)
                && moveStart == Some(p)
                && resizeStart == old(resizeStart) && currentRect == old(currentRect)
      ensures image.Some? && !(resizingId != "" && old(resizeStart).Some?) && !(movingId != "" && old(moveStart).Some?) ==>
                && annotations == old(annotations) && resizeStart == old(resizeStart) && moveStart == old(moveStart)
                && currentRect == (if isDrawing then Some(DrawCandidate(startPos.value, RatioPos(e, image.value),
                                                                        AspectLocked(e), image.value))
                                   else old(currentRect))
    {
      var pos := RatioPosOf(e, image);
      if pos.None? {
        return;
      }
      var p := pos.value;
      if resizingId != "" && resizeStart.Some? {
        var s := resizeStart.value;
        if resizingId in RegionIds(annotations) {
          resizeStart := pos;
        }
        annotations := ResizeRegions(annotations, resizingId, p.xRatio - s.xRatio, p.yRatio - s.yRatio,
                                     AspectLocked(e), image.value);
        return;
      }
      if movingId != "" && moveStart.Some? {
        var s := moveStart.value;
        moveStart := pos;
        annotations := MoveRegions(annotations, movingId, p.xRatio - s.xRatio, p.yRatio - s.yRatio);
        return;
      }
      if !isDrawing || startPos.None? {
        return;
      }
      currentRect := Some(DrawCandidate(startPos.value, p, AspectLocked(e), image.value));
    }

    /** A release (or the pointer leaving the workbench). A resize ends
        first, else a move; in those cases no draft appears. Otherwise a draw
        ends, and a candidate larger than the minimum on both axes becomes
        the pending draft, with id `newId`, the current shape, no clause and
        weight 10. */
    method MouseUp(newId: string)
      requires Valid()
      modifies this`resizingId, this`resizeStart, this`movingId, this`moveStart,
               this`isDrawing, this`currentRect, this`pending, this`mItem
      ensures Valid()
      ensures old(resizingId) != "" ==>
                && resizingId == "" && resizeStart == None
                && movingId == old(movingId) && moveStart == old(moveStart)
                && isDrawing == old(isDrawing) && currentRect == old(currentRect)
                && pending == old(pending) && mItem == old(mItem)
      ensures old(resizingId) == "" && old(movingId) != "" ==>
                && resizingId == "" && resizeStart == old(resizeStart)
                && movingId == "" && moveStart == None
                && isDrawing == old(isDrawing) && currentRect == old(currentRect)
                && pending == old(pending) && mItem == old(mItem)
      ensures old(resizingId) == "" && old(movingId) == "" ==>
                && resizingId == "" && resizeStart == old(resizeStart)
                && movingId == "" && moveStart == old(moveStart)
                && !isDrawing
                && currentRect == (if old(isDrawing) then None else old(currentRect))
                && (if old(isDrawing) && DraftSized(old(currentRect).value) then
                      pending == Some(Region(newId, old(currentRect).value, drawMode, "", "", DefaultWeight)) && mItem == ""
                    else
                      pending == old(pending) && mItem == old(mItem))
    {
      if resizingId != "" {
        resizingId := "";
        resizeStart := None;
        return;
      }
      if movingId != "" {
        movingId := "";
        moveStart := None;
        return;
      }
      if !isDrawing {
        return;
      }
      isDrawing := false;
      if currentRect.Some? && DraftSized(currentRect.value) {
        pending := Some(Region(newId, currentRect.value, drawMode, "", "", DefaultWeight));
        mItem := "";
      }
      currentRect := None;
    }

    /** Picking an item in the dialog: when it is one of the listed items of
        the current category and a draft is pending, the draft takes the
        item's id as clause, its description and its weight (10 when the
        weight is falsy). */
    method ItemChange(itemId: string, typeItems: seq<KnowledgeItem>)
      requires Valid()
      modifies this`mItem, this`pending
      ensures Valid()
      ensures mItem == itemId
      ensures match PickItem(typeItems, itemId)
              case None => pending == old(pending)
              case Some(it) =>
                pending == (if old(pending).Some? then Some(WithClause(old(pending).value, it)) else None)
    {
      mItem := itemId;
      var found := PickItem(typeItems, itemId);
      if found.Some? && pending.Some? {
        pending := Some(WithClause(pending.value, found.value));
      }
    }

    /** The weight field of the dialog: a number that does not parse gives 0. */
    method WeightInput(parsed: Option<int>)
      requires Valid() && pending.Some?
      modifies this`pending
      ensures Valid()
      ensures pending == Some(old(pending).value.(scoreWeight := if parsed.Some? then parsed.value else 0))
    {
      pending := Some(pending.value.(scoreWeight := if parsed.Some? then parsed.value else 0));
    }

    /** Discarding the draft. */
    method Cancel()
      requires Valid()
      modifies this`pending
      ensures Valid() && pending == None
    {
      pending := None;
    }

    /** Committing the draft: without a clause it is refused and nothing
        changes; otherwise it is appended to the list and the dialog closes. */
    method Confirm()
      requires Valid() && pending.Some?
      modifies this`annotations, this`pending
      ensures Valid()
      ensures old(pending).value.clauseId == "" ==> annotations == old(annotations) && pending == old(pending)
      ensures old(pending).value.clauseId != "" ==>
                annotations == old(annotations) + [old(pending).value] && pending == None
    {
      if pending.value.clauseId == "" {
        return;
      }
      annotations := annotations + [pending.value];
      pending := None;
    }
  }

  /** A candidate box large enough to become a draft. */
  predicate DraftSized(r: Rect)
  {
    r.w > MinDraftSide && r.h > MinDraftSide
  }

  /** The first item of the list with the given id. */
  function PickItem(items: seq<KnowledgeItem>, id: string): (r: Option<KnowledgeItem>)
    ensures r.Some? ==> r.value in items && r.value.id == id
    ensures r.None? <==> forall k :: 0 <= k < |items| ==> items[k].id != id
    ensures r.Some? ==> exists k :: 0 <= k < |items| && items[k] == r.value && forall j :: 0 <= j < k ==> items[j].id != id
  {
    if items == [] then None
    else if items[0].id == id then Some(items[0])
    else
      var rest := PickItem(items[1..], id);
      assert rest.Some? ==> exists k :: 0 <= k < |items| && items[k] == rest.value && forall j :: 0 <= j < k ==> items[j].id != id by {
        if rest.Some? {
          var k :| 0 <= k < |items[1..]| && items[1..][k] == rest.value && forall j :: 0 <= j < k ==> items[1..][j].id != id;
          assert items[k + 1] == rest.value;
          assert forall j :: 0 < j < k + 1 ==> items[j].id == items[1..][j - 1].id;
        }
      }
      assert rest.None? ==> forall k :: 0 <= k < |items| ==> items[k].id != id by {
        if rest.None? {
          forall k | 0 < k < |items| ensures items[k].id != id {
            assert items[k] == items[1..][k - 1];
          }
        }
      }
      rest
  }

  /** The draft with the item attached: the item's id becomes the clause. */
  function WithClause(d: Region, it: KnowledgeItem): (r: Region)
    ensures r.id == d.id && r.rect == d.rect && r.shape == d.shape
    ensures r.clauseId == it.id && r.description == it.desc
    ensures r.scoreWeight != 0 && (it.weight != 0 ==> r.scoreWeight == it.weight)
    ensures it.weight == 0 ==> r.scoreWeight == DefaultWeight
  {
    d.(clauseId := it.id, description := it.desc, scoreWeight := OrDefault(it.weight, DefaultWeight))
  }
}
