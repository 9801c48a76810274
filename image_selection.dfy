/**
 * The picked-image lists of the document pages (pages/Assignment.tsx and
 * pages/Report.tsx, cap 3) and of the presentation page
 * (pages/PresentationPage.tsx, cap 8). The pages update these lists through
 * functional updaters (`some`, `filter`, spread), so they are functions here;
 * an image is identified by its `link`.
 */
module ImageSelection {
  import opened Common

  datatype SearchImage = SearchImage(title: string, link: string, thumbnail: string, contextLink: string)

  /** At most this many images go into an assignment or a report. */
  const DOCUMENT_IMAGE_CAP: nat := 3

  /** `list.some(i => i.link === link)` */
  predicate Selected(images: seq<SearchImage>, link: string) {
    |images| > 0 && (images[0].link == link || Selected(images[1..], link))
  }

  /** An image is picked exactly when some position of the list holds its link. */
  lemma {:induction false} SelectedIffAt(images: seq<SearchImage>, link: string)
    ensures Selected(images, link) <==> exists k :: 0 <= k < |images| && images[k].link == link
  {
    if |images| > 0 {
      SelectedIffAt(images[1..], link);
      if Selected(images[1..], link) {
        var k :| 0 <= k < |images[1..]| && images[1..][k].link == link;
        assert images[k + 1].link == link;
      }
      if exists k :: 0 <= k < |images| && images[k].link == link {
        var k :| 0 <= k < |images| && images[k].link == link;
        if k > 0 {
          assert images[1..][k - 1].link == link;
        }
      }
    }
  }

  lemma {:induction false} SelectedAppend(prev: seq<SearchImage>, image: SearchImage, link: string)
    ensures Selected(prev + [image], link) <==> Selected(prev, link) || image.link == link
  {
    if |prev| > 0 {
      assert (prev + [image])[1..] == prev[1..] + [image];
      SelectedAppend(prev[1..], image, link);
    }
  }

  /** `list.filter(i => i.link !== link)` */
  function Without(images: seq<SearchImage>, link: string): (r: seq<SearchImage>)
    ensures |r| <= |images|
    ensures !Selected(r, link)
    ensures forall other :: other != link ==> (Selected(r, other) <==> Selected(images, other))
    ensures !Selected(images, link) ==> r == images
    ensures Selected(images, link) ==> |r| < |images|
  {
    if |images| == 0 then []
    else
      var rest := Without(images[1..], link);
      if images[0].link == link then rest
      else
        var r := [images[0]] + rest;
        assert r[1..] == rest;
        assert !Selected(images, link) ==> r == [images[0]] + images[1..] == images;
        r
  }

  /** Filtering keeps the images of the two halves in their order. */
  lemma {:induction false} WithoutConcat(a: seq<SearchImage>, b: seq<SearchImage>, link: string)
    ensures Without(a + b, link) == Without(a, link) + Without(b, link)
  {
    if |a| > 0 {
      assert (a + b)[1..] == a[1..] + b;
      WithoutConcat(a[1..], b, link);
    } else {
      assert a + b == b;
    }
  }

  /** One image is kept exactly when it does not carry the link. */
  lemma WithoutOne(x: SearchImage, link: string)
    ensures Without([x], link) == if x.link == link then [] else [x]
  {
    assert [x][1..] == [];
  }

  /**
   * `toggleImageSelection`: a picked image is filtered out, any other is
   * appended while fewer than `cap` are picked, and the toggle is refused at
   * the cap.
   */
  function Toggle(prev: seq<SearchImage>, image: SearchImage, cap: nat): (r: seq<SearchImage>)
    ensures Selected(r, image.link) <==> !Selected(prev, image.link) && |prev| < cap
    ensures forall other :: other != image.link ==> (Selected(r, other) <==> Selected(prev, other))
    ensures |prev| <= cap ==> |r| <= cap
    ensures Selected(prev, image.link) ==> r == Without(prev, image.link)
    ensures !Selected(prev, image.link) && |prev| < cap ==> r == prev + [image]
    ensures !Selected(prev, image.link) && |prev| >= cap ==> r == prev
  {
    if Selected(prev, image.link) then Without(prev, image.link)
    else if |prev| >= cap then prev
    else
      var r := prev + [image];
      assert forall other :: Selected(r, other) <==> Selected(prev, other) || image.link == other by {
        forall other ensures Selected(r, other) <==> Selected(prev, other) || image.link == other {
          SelectedAppend(prev, image, other);
        }
      }
      r
  }

  /** Picking an image and toggling it again gives back the list it was picked into. */
  lemma ToggleTwice(prev: seq<SearchImage>, image: SearchImage, cap: nat)
    requires !Selected(prev, image.link) && |prev| < cap
    ensures Toggle(Toggle(prev, image, cap), image, cap) == prev
  {
    WithoutLast(prev, image);
  }

  lemma {:induction false} WithoutLast(prev: seq<SearchImage>, image: SearchImage)
    requires !Selected(prev, image.link)
    ensures Without(prev + [image], image.link) == prev
  {
    if |prev| == 0 {
      assert prev + [image] == [image];
      assert [image][1..] == [];
    } else {
      assert (prev + [image])[1..] == prev[1..] + [image];
      WithoutLast(prev[1..], image);
      assert [prev[0]] + prev[1..] == prev;
    }
  }

  /** No link appears twice. */
  predicate DistinctLinks(images: seq<SearchImage>) {
    forall i, j :: 0 <= i < j < |images| ==> images[i].link != images[j].link
  }

  /** Toggling keeps the links of the list distinct. */
  lemma ToggleKeepsDistinct(prev: seq<SearchImage>, image: SearchImage, cap: nat)
    requires DistinctLinks(prev)
    ensures DistinctLinks(Toggle(prev, image, cap))
  {
    if Selected(prev, image.link) {
      WithoutKeepsDistinct(prev, image.link);
    } else if |prev| < cap {
      SelectedIffAt(prev, image.link);
      var r := prev + [image];
      forall i, j | 0 <= i < j < |r| ensures r[i].link != r[j].link {
        if j == |prev| {
          assert r[i] == prev[i];
        }
      }
    }
  }

  lemma {:induction false} WithoutKeepsDistinct(images: seq<SearchImage>, link: string)
    requires DistinctLinks(images)
    ensures DistinctLinks(Without(images, link))
  {
    if |images| > 0 {
      WithoutKeepsDistinct(images[1..], link);
      var rest := Without(images[1..], link);
      if images[0].link != link {
        var r := [images[0]] + rest;
        SelectedIffAt(images[1..], images[0].link);
        assert !Selected(images[1..], images[0].link) by {
          forall k | 0 <= k < |images[1..]| ensures images[1..][k].link != images[0].link {
            assert images[1..][k] == images[k + 1];
          }
        }
        assert !Selected(rest, images[0].link);
        SelectedIffAt(rest, images[0].link);
        forall i, j | 0 <= i < j < |r| ensures r[i].link != r[j].link {
          if i == 0 {
            assert r[j] == rest[j - 1];
          } else {
            assert r[i] == rest[i - 1] && r[j] == rest[j - 1];
          }
        }
      }
    }
  }

  /**
   * `toggleTempImageSelection`: a picked candidate is dropped, even at the
   * cap; another is added only while the picked images and the candidates
   * together stay below the cap.
   */
  function ToggleCandidate(selectedCount: nat, prev: seq<SearchImage>, image: SearchImage, cap: nat): (r: seq<SearchImage>)
    ensures Selected(r, image.link) <==> !Selected(prev, image.link) && selectedCount + |prev| < cap
    ensures selectedCount + |prev| <= cap ==> selectedCount + |r| <= cap
    ensures |r| <= |prev| + 1
    ensures Selected(prev, image.link) ==> |r| < |prev|
    ensures Selected(prev, image.link) ==> r == Without(prev, image.link)
    ensures !Selected(prev, image.link) && selectedCount + |prev| < cap ==> r == prev + [image]
    ensures !Selected(prev, image.link) && selectedCount + |prev| >= cap ==> r == prev
  {
    if Selected(prev, image.link) then Without(prev, image.link)
    else if selectedCount + |prev| >= cap then prev
    else
      SelectedAppend(prev, image, image.link);
      prev + [image]
  }

  /** `handleFileUpload`: the upload is refused once `cap` images are picked, else it is appended. */
  function Upload(prev: seq<SearchImage>, image: SearchImage, cap: nat): (r: Option<seq<SearchImage>>)
    ensures r.None? <==> |prev| >= cap
    ensures r.Some? ==> |r.value| == |prev| + 1 && r.value[..|prev|] == prev && r.value[|prev|] == image
  {
    if |prev| >= cap then None else Some(prev + [image])
  }

  /** The images of a batch that loaded. */
  function Loaded(results: seq<Option<SearchImage>>): (r: seq<SearchImage>)
    ensures |r| <= |results|
  {
    if |results| == 0 then []
    else (if results[0].Some? then [results[0].value] else []) + Loaded(results[1..])
  }

  /**
   * `handleAddBatchImages`: the candidates that loaded are appended to the
   * picked images; the second result says whether anything was added (the
   * dialog closes then).
   */
  function AddBatch(selected: seq<SearchImage>, results: seq<Option<SearchImage>>): (r: (seq<SearchImage>, bool))
    ensures r.1 <==> |Loaded(results)| > 0
    ensures |r.0| == |selected| + |Loaded(results)|
    ensures r.0[..|selected|] == selected && r.0[|selected|..] == Loaded(results)
    ensures |r.0| <= |selected| + |results|
  {
    var ok := Loaded(results);
    if |ok| > 0 then (selected + ok, true) else (selected, false)
  }

  /**
   * The candidates toggled within the cap and then added as a batch never
   * take the picked list over the cap, whichever of them fail to load.
   */
  lemma BatchWithinCap(selected: seq<SearchImage>, candidates: seq<SearchImage>,
                       results: seq<Option<SearchImage>>, cap: nat)
    requires |selected| + |candidates| <= cap && |results| == |candidates|
    ensures |AddBatch(selected, results).0| <= cap
  {
  }

  /** The picture limit of the presentation page. */
  const PRESENTATION_IMAGE_CAP: nat := 8

  /**
   * The picture state of a page: the picked images, the candidates ticked in
   * the search dialog, and whether the dialog is open. `clearsCandidates`
   * says whether a successful batch also empties the candidates (it does on
   * the presentation page only).
   */
  class ImagePicker {
    const cap: nat
    const clearsCandidates: bool
    var selected: seq<SearchImage>
    var candidates: seq<SearchImage>
    var dialogOpen: bool

    constructor(cap: nat, clearsCandidates: bool)
      ensures this.cap == cap && this.clearsCandidates == clearsCandidates
      ensures selected == [] && candidates == [] && !dialogOpen
    {
      this.cap := cap;
      this.clearsCandidates := clearsCandidates;
      selected := [];
      candidates := [];
      dialogOpen := false;
    }

    /** The picked images stay within the page's limit. */
    predicate WithinCap()
      reads this
    {
      |selected| <= cap
    }

    /** Opening the dialog starts with no candidates. */
    method OpenDialog()
      modifies this`candidates, this`dialogOpen
      ensures candidates == [] && dialogOpen
    {
      candidates := [];
      dialogOpen := true;
    }

    /** `handleFileUpload`: an uploaded picture is appended unless the limit is reached. */
    method HandleFileUpload(image: SearchImage) returns (accepted: bool)
      modifies this`selected
      ensures accepted <==> |old(selected)| < cap
      ensures selected == (if accepted then old(selected) + [image] else old(selected))
      ensures old(WithinCap()) ==> WithinCap()
    {
      var r := Upload(selected, image, cap);
      accepted := r.Some?;
      if accepted {
        selected := r.value;
        assert selected == old(selected) + [image];
      }
    }

    /** `toggleImageSelection` */
    method ToggleImageSelection(image: SearchImage)
      modifies this`selected
      ensures selected == Toggle(old(selected), image, cap)
      ensures Selected(selected, image.link) <==> !Selected(old(selected), image.link) && |old(selected)| < cap
      ensures Selected(old(selected), image.link) ==> selected == Without(old(selected), image.link)
      ensures !Selected(old(selected), image.link) && |old(selected)| < cap ==> selected == old(selected) + [image]
      ensures old(WithinCap()) ==> WithinCap()
    {
      selected := Toggle(selected, image, cap);
    }

    /** `toggleTempImageSelection` */
    method ToggleTempImageSelection(image: SearchImage)
      modifies this`candidates
      ensures candidates == ToggleCandidate(|selected|, old(candidates), image, cap)
      ensures Selected(old(candidates), image.link) ==> candidates == Without(old(candidates), image.link)
      ensures !Selected(old(candidates), image.link) && |selected| + |old(candidates)| < cap ==> candidates == old(candidates) + [image]
      ensures |selected| + |old(candidates)| <= cap ==> |selected| + |candidates| <= cap
    {
      candidates := ToggleCandidate(|selected|, candidates, image, cap);
    }

    /**
     * `handleAddBatchImages`, given what loading each candidate gave: nothing
     * happens without candidates; otherwise the loaded ones are appended, and
     * when any loaded the dialog closes.
     */
    method HandleAddBatchImages(loads: seq<Option<SearchImage>>) returns (added: bool)
      requires |loads| == |candidates|
      modifies this`selected, this`candidates, this`dialogOpen
      ensures added <==> |Loaded(loads)| > 0
      ensures selected == AddBatch(old(selected), loads).0
      ensures dialogOpen == (old(dialogOpen) && !added)
      ensures candidates == (if added && clearsCandidates then [] else old(candidates))
      ensures |old(selected)| + |old(candidates)| <= cap ==> WithinCap()
    {
      if |candidates| == 0 {
        return false;
      }
      var r := AddBatch(selected, loads);
      selected := r.0;
      added := r.1;
      if added {
        dialogOpen := false;
        if clearsCandidates {
          candidates := [];
        }
      }
    }

    /** The presentation page's remove button: `prev.filter((_, i) => i !== idx)`. */
    method RemoveAt(idx: nat)
      modifies this`selected
      ensures idx < |old(selected)| ==> selected == old(selected)[..idx] + old(selected)[idx + 1..]
      ensures idx >= |old(selected)| ==> selected == old(selected)
      ensures old(WithinCap()) ==> WithinCap()
    {
      selected := WithoutIndex(selected, idx);
    }
  }

  /** Every position but `idx`, in order. */
  function WithoutIndex(images: seq<SearchImage>, idx: nat): (r: seq<SearchImage>)
    ensures idx < |images| ==> |r| == |images| - 1
    ensures idx >= |images| ==> r == images
    ensures forall k :: 0 <= k < |r| ==> r[k] == (if k < idx then images[k] else images[k + 1])
  {
    if idx < |images| then images[..idx] + images[idx + 1..] else images
  }
}
