/**
 The display colour handed to each participant on join. The broker draws it from a fixed
 palette of twelve colours by scaling a pseudo-random number from [0, 1) to an index.
 The random number itself is an input of the model.
 */
module Palette {

  /** The twelve colours, in the order the broker lists them. */
  const Colors: seq<string> := [
    "#FF6B6B", "#4ECDC4", "#45B7D1", "#FFA07A",
    "#98D8C8", "#F7DC6F", "#BB8FCE", "#85C1E2",
    "#48C9B0", "#F39C12", "#9B59B6", "#3498DB"
  ]

  /** A number the random source may produce: at least 0 and below 1. */
  predicate IsRandom(rand: real) {
    0.0 <= rand < 1.0
  }

  /** `Math.floor(rand * colors.length)`: always a valid palette position. */
  function ColorIndex(rand: real): (i: nat)
    requires IsRandom(rand)
    ensures i < |Colors|
    ensures i as real <= rand * 12.0 < i as real + 1.0
  {
    (rand * (|Colors| as real)).Floor
  }

  /** The colour for a draw of the random source; always one of the twelve. */
  function RandomColor(rand: real): (c: string)
    requires IsRandom(rand)
    ensures c in Colors
  {
    Colors[ColorIndex(rand)]
  }

  /** Every colour of the palette is drawn for some random number, so no colour is unreachable. */
  lemma EveryColorReachable(i: nat)
    requires i < |Colors|
    ensures IsRandom(i as real / 12.0)
    ensures RandomColor(i as real / 12.0) == Colors[i]
  {
    var rand := i as real / 12.0;
    assert rand * 12.0 == i as real;
    assert ColorIndex(rand) == i;
  }
}
