/** The six-colour palette the sidebar and the grid index by a worker's position in the
    worker list, so that a worker has the same colour in both. */
module Palette {

  const Size: nat := 6

  /** `colors[index % colors.length]`. */
  function ColorIndex(index: nat): (c: nat)
    ensures c < Size
    ensures index < Size ==> c == index
  {
    index % Size
  }
}
