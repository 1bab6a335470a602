/**
 * A road of the trip planner's map, the edge label of its graph: a name, a
 * length, the vertex the road is described from and the compass direction it
 * runs in from there. The length is a floating-point number in the source and is
 * only carried here, never computed with.
 */
module Roads {

  /** The four directions `opposite` pairs up. */
  const Compass: set<string> := {"north", "south", "east", "west"}

  /**
   * A road. Its fields are set once by the constructor, so the getters weight(),
   * start(), direction() and name() give back the constructor's arguments: they
   * are this datatype's destructors.
   */
  datatype Distance<V(==), W> = Distance(name: string, weight: W, start: V, dir: string)
  {
    /** The direction of the road seen from `from`: as built from its start vertex, reversed from any other vertex. */
    function Direction(from: V): (r: string)
      ensures from == start ==> r == dir
      ensures from != start ==> r == Opposite(dir)
      ensures from != start ==> r in Compass
    {
      if from == start then dir else Opposite(dir)
    }
  }

  /** north and south swap, east becomes west, and every other string becomes east. */
  function Opposite(x: string): (r: string)
    ensures r in Compass && r != x
    ensures r == "south" <==> x == "north"
    ensures r == "north" <==> x == "south"
    ensures r == "west" <==> x == "east"
    ensures r == "east" <==> x !in {"north", "south", "east"}
  {
    if x == "north" then "south"
    else if x == "south" then "north"
    else if x == "east" then "west"
    else "east"
  }

  /** On the four compass directions `opposite` undoes itself. */
  lemma OppositeInvolution(x: string)
    requires x in Compass
    ensures Opposite(Opposite(x)) == x
  {
  }

  /** Off the compass, reversing twice lands on west, not where it started. */
  lemma OppositeOffCompass(x: string)
    requires x !in Compass
    ensures Opposite(Opposite(x)) == "west" != x
  {
  }

  /** For a road built with a compass direction, the directions seen from its two ends are mutual opposites. */
  lemma DirectionsFromBothEnds<V, W>(d: Distance<V, W>, other: V)
    requires d.dir in Compass && other != d.start
    ensures d.Direction(other) == Opposite(d.Direction(d.start))
    ensures d.Direction(d.start) == Opposite(d.Direction(other))
  {
    OppositeInvolution(d.dir);
  }
}
