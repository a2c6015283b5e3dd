/** The exam builder: the administrator picks annotated images into an
    ordered selection and publishes it, under a name and a description, as
    an exam whose slides are the selected images in selection order. */
module TestAssembler {

  import opened Common
  import opened ServerTables

  /** The names of a selection, in selection order. */
  function Names(sel: seq<Asset>): seq<string>
  {
    seq(|sel|, i requires 0 <= i < |sel| => sel[i].name)
  }

  /** No two selected entries share a name. */
  predicate DistinctNames(sel: seq<Asset>)
  {
    forall i, j :: 0 <= i < j < |sel| ==> sel[i].name != sel[j].name
  }

  /** The images offered for selection: the annotated ones, in list order. */
  function Offered(data: seq<Asset>): (r: seq<Asset>)
    ensures forall i :: 0 <= i < |r| ==> r[i].isAnnotated && r[i] in data
    ensures forall i :: 0 <= i < |data| && data[i].isAnnotated ==> data[i] in r
  {
    Filter(data, (a: Asset) => a.isAnnotated)
  }

  /** Entries not named `name`. */
  function OtherName(name: string): Asset -> bool
  {
    (s: Asset) => s.name != name
  }

  /** The selection without the entries named `name`. */
  function Unselect(sel: seq<Asset>, name: string): seq<Asset>
  {
    Filter(sel, OtherName(name))
  }

  /** Unselecting works piece by piece, so the remaining entries keep their
      selection order. */
  lemma UnselectAppend(a: seq<Asset>, b: seq<Asset>, name: string)
    ensures Unselect(a + b, name) == Unselect(a, name) + Unselect(b, name)
  {
    FilterAppend(a, b, OtherName(name));
  }

  /** The names left after unselecting `name` are the other selected names. */
  lemma UnselectNames(sel: seq<Asset>, name: string, n: string)
    ensures n in Names(Unselect(sel, name)) <==> n != name && n in Names(sel)
  {
    var r := Unselect(sel, name);
    if n in Names(r) {
      var i :| 0 <= i < |r| && Names(r)[i] == n;
      var j :| 0 <= j < |sel| && sel[j] == r[i];
      assert Names(sel)[j] == n;
    }
    if n != name && n in Names(sel) {
      var j :| 0 <= j < |sel| && Names(sel)[j] == n;
      var i :| 0 <= i < |r| && r[i] == sel[j];
      assert Names(r)[i] == n;
    }
  }

  /** A click on an image: a selected image (by name) is dropped, together
      with every entry of that name; any other image is added at the end. */
  function Toggled(sel: seq<Asset>, img: Asset): (r: seq<Asset>)
    ensures img.name !in Names(sel) ==> r == sel + [img]
    ensures img.name in Names(sel) ==> r == Unselect(sel, img.name)
    ensures img.name in Names(sel) ==>
              && (forall i :: 0 <= i < |r| ==> r[i].name != img.name && r[i] in sel)
              && (forall i :: 0 <= i < |sel| && sel[i].name != img.name ==> sel[i] in r)
    ensures img.name in Names(r) <==> img.name !in Names(sel)
    ensures forall n :: n != img.name ==> (n in Names(r) <==> n in Names(sel))
  {
    if img.name in Names(sel) then
      var r := Unselect(sel, img.name);
      assert forall n :: n in Names(r) <==> n != img.name && n in Names(sel) by {
        forall n ensures n in Names(r) <==> n != img.name && n in Names(sel) {
          UnselectNames(sel, img.name, n);
        }
      }
      r
    else
      assert Names(sel + [img]) == Names(sel) + [img.name];
      sel + [img]
  }

  lemma {:induction false} UnselectKeepsDistinct(sel: seq<Asset>, name: string)
    requires DistinctNames(sel)
    ensures DistinctNames(Unselect(sel, name))
  {
    if sel != [] {
      UnselectKeepsDistinct(sel[1..], name);
      var rest := Unselect(sel[1..], name);
      forall i | 0 <= i < |rest| ensures rest[i].name != sel[0].name {
        var k :| 0 <= k < |sel[1..]| && sel[1..][k] == rest[i];
        assert sel[k + 1] == rest[i];
      }
    }
  }

  /** Toggling keeps the selection free of repeated names. */
  lemma ToggleKeepsDistinct(sel: seq<Asset>, img: Asset)
    requires DistinctNames(sel)
    ensures DistinctNames(Toggled(sel, img))
  {
    if img.name in Names(sel) {
      UnselectKeepsDistinct(sel, img.name);
    } else {
      forall i | 0 <= i < |sel| ensures sel[i].name != img.name {
        assert Names(sel)[i] == sel[i].name;
      }
    }
  }

  /** Toggling an unselected image twice gives the selection back. */
  lemma ToggleTwice(sel: seq<Asset>, img: Asset)
    requires img.name !in Names(sel)
    ensures Toggled(Toggled(sel, img), img) == sel
  {
    var p := OtherName(img.name);
    assert Names(sel + [img]) == Names(sel) + [img.name];
    forall i | 0 <= i < |sel| ensures p(sel[i]) {
      assert Names(sel)[i] == sel[i].name;
    }
    FilterAppend(sel, [img], p);
    FilterKeepsAll(sel, p);
    FilterSingle(img, p);
  }

  /** The answer to the publish request: accepted, refused, or lost to a
      network error. */
  datatype Response = Accepted | Refused | NetworkError

  /** The request body of a publish. */
  datatype Payload = Payload(examName: string, description: string, createdAt: int, slides: seq<string>)

  datatype PublishOutcome = NameMissing | NothingSelected | Sent(payload: Payload)

  class Assembler {
    /** The images offered for selection. */
    var images: seq<Asset>
    /** The selection, in selection order. */
    var selectedImages: seq<Asset>
    var paperName: string
    var paperDesc: string

    predicate Valid()
      reads this
    {
      DistinctNames(selectedImages)
    }

    constructor(name: string, desc: string)
      ensures Valid()
      ensures images == [] && selectedImages == [] && paperName == name && paperDesc == desc
    {
      images := [];
      selectedImages := [];
      paperName := name;
      paperDesc := desc;
    }

    /** Loading the image list keeps only the annotated images. */
    method FetchImages(data: seq<Asset>)
      modifies this`images
      ensures images == Offered(data)
    {
      images := Offered(data);
    }

    method ToggleSelect(img: Asset)
      requires Valid()
      modifies this`selectedImages
      ensures Valid()
      ensures selectedImages == Toggled(old(selectedImages), img)
    {
      ToggleKeepsDistinct(selectedImages, img);
      if img.name in Names(selectedImages) {
        selectedImages := Unselect(selectedImages, img.name);
      } else {
        selectedImages := selectedImages + [img];
      }
    }

    /** Publishing: a name that trims to nothing is refused, an empty
        selection does nothing; otherwise the trimmed name and description
        and the selected names in order are sent (`trim` is the string trim,
        `now` the clock). Only an accepted request clears the selection. */
    method HandlePublish(trim: string -> string, now: int, response: Response) returns (outcome: PublishOutcome)
      requires Valid()
      modifies this`selectedImages
      ensures Valid()
      ensures trim(paperName) == "" ==> outcome == NameMissing && selectedImages == old(selectedImages)
      ensures trim(paperName) != "" && |old(selectedImages)| == 0 ==>
                outcome == NothingSelected && selectedImages == old(selectedImages)
      ensures trim(paperName) != "" && |old(selectedImages)| > 0 ==>
                && outcome == Sent(Payload(trim(paperName), trim(paperDesc), now, Names(old(selectedImages))))
                && selectedImages == (if response == Accepted then [] else old(selectedImages))
    {
      if trim(paperName) == "" {
        return NameMissing;
      }
      if |selectedImages| == 0 {
        return NothingSelected;
      }
      var slides := Names(selectedImages);
      outcome := Sent(Payload(trim(paperName), trim(paperDesc), now, slides));
      if response == Accepted {
        selectedImages := [];
      }
    }
  }

  /** What the server stores for a sent payload reads back as the selected
      names in selection order (the payload has no status, so the exam is
      "published"; `serverNow` is the server's clock). */
  lemma PublishedSelectionReadsBack(db: Db, sel: seq<Asset>, name: string, desc: string, now: int, serverNow: int)
    ensures var p := Payload(name, desc, now, Names(sel));
            ExamSlides(Published(db, p.examName, p.description, p.slides, "", serverNow), p.examName) == Names(sel)
  {
    PublishThenRead(db, name, desc, Names(sel), "", serverNow);
  }
}
