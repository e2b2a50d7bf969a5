/** The gallery carousel (GallerySection.tsx): a large preview of one item
    that advances every five seconds, a grid of thumbnails that select the
    preview, and a lightbox that shows the preview full size and pauses the
    advance while open. Time is abstracted into `Tick(id)` events: one
    firing of the interval with that id. */
module Gallery {
  import opened Wrappers

  datatype MediaKind = Image | Video

  /** One entry of the gallery; `src` names the imported asset. */
  datatype GalleryItem = GalleryItem(src: string, alt: string, kind: MediaKind, thumbnail: Option<string>)

  function Picture(src: string, alt: string): GalleryItem {
    GalleryItem(src, alt, Image, None)
  }

  /** The active entries, in display order. */
  const Items: seq<GalleryItem> := [
    Picture("cultural_heritage.jpeg", "Cultural Heritage"),
    Picture("landmark.jpeg", "Landmark"),
    Picture("wildlife_safari.jpeg", "Wildlife Safari"),
    Picture("desert_landscape.jpeg", "Desert Landscape"),
    Picture("city_panorama.jpeg", "City Panorama"),
    Picture("tourist_group.jpeg", "Tourist Group"),
    Picture("snow_party.jpeg", "Snow Party"),
    Picture("snow_party_1.jpeg", "Snow Party 1"),
    Picture("trip1.jpeg", "Trip"),
    Picture("trip2.jpeg", "Trip"),
    Picture("trip3.jpeg", "Trip"),
    Picture("trip4.jpeg", "Trip")]

  /** The gallery has twelve entries, all of them pictures. */
  lemma ItemsShape()
    ensures |Items| == 12
    ensures forall k :: 0 <= k < |Items| ==> Items[k].kind == Image
  {
  }

  /** The preview after one interval firing. */
  function Next(i: nat): (j: nat)
    requires i < |Items|
    ensures j < |Items|
    ensures j == 0 <==> i == |Items| - 1
  {
    (i + 1) % |Items|
  }

  /** The preview after `k` firings in a row. */
  function Advance(i: nat, k: nat): (j: nat)
    requires i < |Items|
    ensures j < |Items|
  {
    if k == 0 then i else Next(Advance(i, k - 1))
  }

  /** `k` firings move the preview `k` places on, wrapping around. */
  lemma {:induction false} AdvanceIsRotation(i: nat, k: nat)
    requires i < |Items|
    ensures Advance(i, k) == (i + k) % |Items|
  {
    ItemsShape();
    if k > 0 {
      AdvanceIsRotation(i, k - 1);
      var before := Advance(i, k - 1);
      assert Advance(i, k) == (before + 1) % 12;
      StepWraps(i + k - 1);
    }
  }

  /** Stepping from a remainder is stepping from the number itself. */
  lemma StepWraps(x: nat)
    ensures (x % 12 + 1) % 12 == (x + 1) % 12
  {
    var m := x % 12;
    assert x == (x / 12) * 12 + m;
    if m + 1 < 12 {
      assert (x + 1) % 12 == m + 1;
    } else {
      assert (x + 1) % 12 == 0;
    }
  }

  /** A full round of firings brings the preview back where it started. */
  lemma FullRoundReturns(i: nat)
    requires i < |Items|
    ensures Advance(i, |Items|) == i
  {
    ItemsShape();
    AdvanceIsRotation(i, 12);
  }

  /** During one round every entry is previewed ... */
  lemma RoundReachesEvery(i: nat, j: nat)
    requires i < |Items| && j < |Items|
    ensures exists k :: 0 <= k < |Items| && Advance(i, k) == j
  {
    ItemsShape();
    var k := if i <= j then j - i else j + 12 - i;
    AdvanceIsRotation(i, k);
    if i <= j {
      assert i + k == j;
    } else {
      assert i + k == j + 12;
      assert (j + 12) % 12 == j;
    }
    assert Advance(i, k) == j;
  }

  /** ... and no entry twice. */
  lemma RoundNeverRepeats(i: nat, k1: nat, k2: nat)
    requires i < |Items| && k1 < k2 < |Items|
    ensures Advance(i, k1) != Advance(i, k2)
  {
    AdvanceIsRotation(i, k1);
    AdvanceIsRotation(i, k2);
    RemaindersDiffer(i + k1, i + k2);
  }

  /** Two positions less than a round apart wrap to different entries. */
  lemma RemaindersDiffer(a: nat, b: nat)
    requires a < b < a + |Items|
    ensures a % |Items| != b % |Items|
  {
    ItemsShape();
    var r, d := a % 12, b - a;
    assert a == (a / 12) * 12 + r;
    if r + d < 12 {
      assert b % 12 == r + d;
    } else {
      assert b % 12 == r + d - 12;
    }
  }

  /** The component's state: the preview index, the lightbox item, the
      interval id the ref holds, and the intervals the browser has
      scheduled. Interval ids are positive and never reused. */
  class Carousel {
    var index: nat
    var lightbox: Option<GalleryItem>
    /** The ref's current value: the id of the last interval started. */
    var timerRef: Option<nat>
    /** The intervals that are still scheduled to fire. */
    var running: set<nat>
    /** The id the next `setInterval` returns. */
    var nextId: nat

    /** The preview exists, and the only interval that can be running is
        the one the ref holds. */
    ghost predicate Valid()
      reads this
    {
      && index < |Items|
      && 1 <= nextId
      && (forall id :: id in running ==> timerRef == Some(id))
      && (timerRef.Some? ==> 1 <= timerRef.value < nextId)
    }

    /** The preview advances on its own exactly while an interval is running. */
    predicate TimerActive()
      reads this
    {
      running != {}
    }

    /** Mounting: the first entry, no lightbox, one interval running. */
    constructor Mount()
      ensures Valid()
      ensures index == 0 && lightbox == None && TimerActive()
      ensures timerRef.Some? && running == {timerRef.value}
    {
      index := 0;
      lightbox := None;
      timerRef := Some(1);
      running := {1};
      nextId := 2;
    }

    /** The entry the preview shows. */
    function CurrentItem(): (item: GalleryItem)
      reads this
      requires Valid()
      ensures item in Items
      ensures item == Items[index]
    {
      Items[index]
    }

    /** The ref's interval is cleared, then a fresh one started and kept
        in the ref: afterwards exactly one interval runs. */
    method StartAutoChange()
      requires Valid()
      modifies this
      ensures Valid()
      ensures timerRef == Some(old(nextId)) && running == {old(nextId)} && nextId == old(nextId) + 1
      ensures index == old(index) && lightbox == old(lightbox)
    {
      if timerRef.Some? {
        running := running - {timerRef.value};
      }
      timerRef := Some(nextId);
      running := running + {nextId};
      nextId := nextId + 1;
    }

    /** One firing of interval `id`: a running interval advances the
        preview by one place, wrapping to the first entry after the last;
        a cleared one does nothing. */
    method Tick(id: nat)
      requires Valid()
      modifies this
      ensures Valid()
      ensures id in old(running) ==> index == Next(old(index))
      ensures id !in old(running) ==> index == old(index)
      ensures lightbox == old(lightbox) && timerRef == old(timerRef)
      ensures running == old(running) && nextId == old(nextId)
    {
      if id in running {
        index := Next(index);
      }
    }

    /** Clicking thumbnail `i` previews that entry and restarts the interval. */
    method ThumbnailClick(i: nat)
      requires Valid() && i < |Items|
      modifies this
      ensures Valid()
      ensures index == i && lightbox == old(lightbox)
      ensures timerRef == Some(old(nextId)) && running == {old(nextId)}
    {
      index := i;
      StartAutoChange();
    }

    /** Clicking the preview shows it in the lightbox and pauses the
        advance. The ref keeps the id of the interval it cleared. */
    method OpenLightbox()
      requires Valid()
      modifies this
      ensures Valid()
      ensures lightbox == Some(Items[index]) && index == old(index)
      ensures !TimerActive()
      ensures timerRef == old(timerRef) && nextId == old(nextId)
    {
      lightbox := Some(Items[index]);
      if timerRef.Some? {
        running := running - {timerRef.value};
      }
    }

    /** Closing the lightbox empties it and restarts the advance. */
    method CloseLightbox()
      requires Valid()
      modifies this
      ensures Valid()
      ensures lightbox == None && index == old(index)
      ensures timerRef == Some(old(nextId)) && running == {old(nextId)}
    {
      lightbox := None;
      StartAutoChange();
    }

    /** The effect's cleanup when the section unmounts: the ref's interval
        is cleared, so nothing fires any more. */
    method Unmount()
      requires Valid()
      modifies this
      ensures Valid() && !TimerActive()
      ensures index == old(index) && lightbox == old(lightbox) && timerRef == old(timerRef)
    {
      if timerRef.Some? {
        running := running - {timerRef.value};
      }
    }
  }

  /** Whatever happens, at most one interval is running. */
  lemma AtMostOneTimer(c: Carousel)
    requires c.Valid()
    ensures |c.running| <= 1
    ensures c.running != {} ==> c.running == {c.timerRef.value}
  {
    if c.running != {} {
      var id :| id in c.running;
      assert c.timerRef == Some(id);
      assert c.running == {id};
    }
  }

  /** While the lightbox is open after `OpenLightbox`, firings leave the
      preview where it is; once closed, the new interval advances it again. */
  method PauseWhileOpen(c: Carousel, id: nat)
    requires c.Valid()
    modifies c
    ensures c.Valid()
    ensures c.index == old(c.index) && c.lightbox == Some(Items[old(c.index)])
  {
    c.OpenLightbox();
    c.Tick(id);
  }
}
