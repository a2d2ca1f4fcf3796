/** The ordered, growable list of sprites that the server and the remote facade
    share: one object, held by reference by both. */
module SpriteLists {
  import opened Sprites

  /** No sprite object occurs twice in the list. */
  predicate Distinct(ss: seq<Sprite>) {
    forall i, j :: 0 <= i < j < |ss| ==> ss[i] != ss[j]
  }

  /** The snapshot of every sprite in the list, in list order. */
  ghost function States(ss: seq<Sprite>): (r: seq<SpriteState>)
    reads ss
    ensures |r| == |ss|
    ensures forall k :: 0 <= k < |ss| ==> r[k] == ss[k].State()
  {
    seq(|ss|, k requires 0 <= k < |ss| reads ss => ss[k].State())
  }

  class SpriteList {
    var items: seq<Sprite>

    /** A list holding `initial`, in order (the result of loading the stored sprites). */
    constructor (initial: seq<Sprite>)
      ensures items == initial
    {
      items := initial;
    }

    /** Appends one sprite at the end. */
    method Add(s: Sprite)
      modifies this
      ensures items == old(items) + [s]
    {
      items := items + [s];
    }
  }
}
