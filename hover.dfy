/** Hover highlighting of the tracked sphere.  Once per frame the pointer ray
    is intersected with the scene; the result is the list of the ids of the
    objects it hits, nearest first.  The sphere turns blue while it is among
    them and is reset to red on every other frame: the highlight is never
    latched. */
module Hover {

  /** The colour the tracked sphere takes while the pointer ray hits it. */
  const Highlight: int := 0x0000ff

  /** The colour the tracked sphere is reset to on every frame the ray misses it. */
  const Default: int := 0xff0000

  /** The colour a frame leaves on the sphere whose id is `id`. */
  function ColourFor(intersects: seq<nat>, id: nat): int {
    if id in intersects then Highlight else Default
  }

  class Sphere {
    const id: nat
    var colour: int

    constructor (id: nat)
      ensures this.id == id && colour == Default
    {
      this.id := id;
      colour := Default;
    }

    /** The hover step of one frame: scan the hits nearest first, highlight
        the sphere at the first hit on it and stop; if none was found,
        reset its colour. */
    method UpdateHover(intersects: seq<nat>)
      modifies this
      ensures colour == ColourFor(intersects, id)
      ensures colour == Highlight <==> id in intersects
    {
      var hovered := false;
      var i := 0;
      while i < |intersects|
        invariant 0 <= i <= |intersects|
        invariant !hovered
        invariant forall k :: 0 <= k < i ==> intersects[k] != id
      {
        if intersects[i] == id {
          colour := Highlight;
          hovered := true;
          break;
        }
        i := i + 1;
      }
      if !hovered {
        colour := Default;
      }
    }
  }

  /** The sphere's colour after a run of frames, starting from `initial`
      (whatever colour the sphere had, however it was set). */
  function AfterFrames(initial: int, frames: seq<seq<nat>>, id: nat): int
    decreases |frames|
  {
    if frames == [] then initial else AfterFrames(ColourFor(frames[0], id), frames[1..], id)
  }

  /** Non-latching: after any run of frames the sphere's colour is decided by
      the last frame alone, whatever the earlier frames and the starting colour. */
  lemma {:induction false} NotLatched(initial: int, frames: seq<seq<nat>>, id: nat)
    requires frames != []
    ensures AfterFrames(initial, frames, id) == ColourFor(frames[|frames| - 1], id)
    decreases |frames|
  {
    if |frames| > 1 {
      NotLatched(ColourFor(frames[0], id), frames[1..], id);
    }
  }

  /** A frame that misses the sphere resets it, even right after a frame
      that hit it. */
  lemma MissResetsHighlight(initial: int, frames: seq<seq<nat>>, id: nat)
    requires frames != [] && id !in frames[|frames| - 1]
    ensures AfterFrames(initial, frames, id) == Default
  {
    NotLatched(initial, frames, id);
  }
}
