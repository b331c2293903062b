/**
 * The coverage-click logic of the Earth view: picking the scene objects
 * related to a coverage area, recolouring the satellite meshes, and
 * rebuilding the connector lines between the related objects.
 *
 * A scene object is a record. The scene is a class whose `children`
 * field holds those records in scene order; its methods update that field
 * in place. A reference to a child, as `relatedSat` holds it, is the
 * child's index in `children`. The specification function `Click` gives
 * the children a click leaves behind.
 */
module Renderer {
  import opened Segments

  /** A position in world space. The model only copies positions. */
  datatype Vec3 = Vec3(x: real, y: real, z: real)

  /** Where a freshly created three.js object sits. */
  const Origin: Vec3 := Vec3(0.0, 0.0, 0.0)

  /** Colour of a satellite related to the clicked coverage area. */
  const Red: int := 0xff0000
  /** Colour of every other satellite after a click. */
  const Yellow: int := 0xffff00
  /** Colour of the material of a connector line. */
  const LineBlue: int := 0x0000ff

  /** Every satellite mesh is named this prefix followed by its id. */
  const SatellitePrefix: string := "satellite_"

  /** The name given to the mesh of satellite `id`. */
  function SatelliteName(id: string): (r: string) {
    SatellitePrefix + id
  }

  /**
   * A scene object: its name, whether it is a `THREE.Line`, whether it has
   * a material, its position, the vertices of its geometry (used for
   * lines) and the colour of its material.
   */
  datatype Object3D = Object3D(
    name: string,
    isLine: bool,
    hasMaterial: bool,
    position: Vec3,
    points: seq<Vec3>,
    color: int)

  /** Whether the id in a name (its second `_` segment) is one of the coverage area's satellites. */
  predicate IsRelated(name: string, coverage: seq<string>) {
    match SecondSegment(name)
    case None => false
    case Some(id) => id in coverage
  }

  /** A mesh with a material whose name starts with the satellite prefix. */
  predicate IsSatelliteMesh(x: Object3D) {
    x.hasMaterial && StartsWith(x.name, SatellitePrefix)
  }

  /**
   * The colour a click on `coverage` leaves an object with: red for a
   * related satellite mesh, yellow for any other satellite mesh, and the
   * old colour for everything else.
   */
  function ClickColour(x: Object3D, coverage: seq<string>): (r: int) {
    if !IsSatelliteMesh(x) then x.color
    else if IsRelated(x.name, coverage) then Red
    else Yellow
  }

  /** Every object of the scene with its colour after a click. */
  function Recolour(s: seq<Object3D>, coverage: seq<string>): (r: seq<Object3D>) {
    seq(|s|, k requires 0 <= k < |s| => s[k].(color := ClickColour(s[k], coverage)))
  }

  /** The objects related to `coverage`, in scene order. */
  function Related(s: seq<Object3D>, coverage: seq<string>): (r: seq<Object3D>)
    ensures |r| <= |s|
  {
    if s == [] then []
    else
      var last := s[|s| - 1];
      assert s == s[..|s| - 1] + [last];
      Related(s[..|s| - 1], coverage) + (if IsRelated(last.name, coverage) then [last] else [])
  }

  /**
   * The related objects as positions in `s`: `relatedSat`, with each
   * reference to a child written as the child's index.
   */
  function RelatedIndices(s: seq<Object3D>, coverage: seq<string>): (r: seq<nat>)
    ensures forall j | 0 <= j < |r| :: r[j] < |s|
    ensures forall k | 0 <= k < |s| :: k in r <==> IsRelated(s[k].name, coverage)
  {
    if s == [] then []
    else
      var n := |s| - 1;
      var init := RelatedIndices(s[..n], coverage);
      assert forall k | 0 <= k < n :: s[..n][k] == s[k];
      init + (if IsRelated(s[n].name, coverage) then [n] else [])
  }

  /** The objects of `s` at the given indices, in that order. */
  function Pick(s: seq<Object3D>, indices: seq<nat>): (r: seq<Object3D>)
    requires forall j | 0 <= j < |indices| :: indices[j] < |s|
  {
    seq(|indices|, j requires 0 <= j < |indices| => s[indices[j]])
  }

  /** The objects that are not lines, in scene order. */
  function NonLines(s: seq<Object3D>): (r: seq<Object3D>)
    ensures |r| <= |s|
  {
    if s == [] then []
    else
      var last := s[|s| - 1];
      assert s == s[..|s| - 1] + [last];
      NonLines(s[..|s| - 1]) + (if last.isLine then [] else [last])
  }

  /** The related objects are exactly the objects of the scene whose name's id is in the coverage area. */
  lemma {:induction false} RelatedMembers(s: seq<Object3D>, coverage: seq<string>)
    ensures forall x :: x in Related(s, coverage) <==> x in s && IsRelated(x.name, coverage)
  {
    if s != [] {
      var n := |s| - 1;
      RelatedMembers(s[..n], coverage);
      assert s == s[..n] + [s[n]];
    }
  }

  /** The objects kept by NonLines are exactly the objects of the scene that are not lines. */
  lemma {:induction false} NonLinesMembers(s: seq<Object3D>)
    ensures forall x :: x in NonLines(s) <==> x in s && !x.isLine
  {
    if s != [] {
      var n := |s| - 1;
      NonLinesMembers(s[..n]);
      assert s == s[..n] + [s[n]];
    }
  }

  function Positions(s: seq<Object3D>): (r: seq<Vec3>) {
    seq(|s|, k requires 0 <= k < |s| => s[k].position)
  }

  /** A new blue two-point `THREE.Line` from `a` to `b`, with the default (empty) name. */
  function NewLine(a: Vec3, b: Vec3): (r: Object3D) {
    Object3D("", true, true, Origin, [a, b], LineBlue)
  }

  /**
   * The lines that connect the first of `ps` to each of the others: a star
   * around `ps[0]`, one line per further position, in order.
   */
  function StarLines(ps: seq<Vec3>): (r: seq<Object3D>)
    ensures |ps| <= 1 ==> r == []
    ensures |ps| >= 1 ==> |r| == |ps| - 1
    ensures forall k | 0 <= k < |r| :: r[k] == NewLine(ps[0], ps[k + 1])
  {
    if |ps| <= 1 then []
    else StarLines(ps[..|ps| - 1]) + [NewLine(ps[0], ps[|ps| - 1])]
  }

  /** Taking one more position into the star adds one line, from the first position to the new one. */
  lemma StarLinesGrow(ps: seq<Vec3>, n: nat)
    requires 1 <= n < |ps|
    ensures StarLines(ps[..n + 1]) == StarLines(ps[..n]) + [NewLine(ps[0], ps[n])]
  {
    assert ps[..n + 1][..n] == ps[..n];
  }

  /**
   * The scene after a click on `coverage`: every object recoloured, every
   * line dropped, and a star of new lines over the related objects appended.
   */
  function Click(s: seq<Object3D>, coverage: seq<string>): (r: seq<Object3D>) {
    NonLines(Recolour(s, coverage)) + StarLines(Positions(Related(s, coverage)))
  }

  lemma PickAppend(s: seq<Object3D>, a: seq<nat>, b: seq<nat>)
    requires forall j | 0 <= j < |a| :: a[j] < |s|
    requires forall j | 0 <= j < |b| :: b[j] < |s|
    ensures Pick(s, a + b) == Pick(s, a) + Pick(s, b)
  {
  }

  lemma PickPrefix(s: seq<Object3D>, n: nat, a: seq<nat>)
    requires n <= |s|
    requires forall j | 0 <= j < |a| :: a[j] < n
    ensures Pick(s[..n], a) == Pick(s, a)
  {
  }

  /** Picking the related indices gives the related objects. */
  lemma {:induction false} PickRelated(s: seq<Object3D>, coverage: seq<string>)
    ensures Pick(s, RelatedIndices(s, coverage)) == Related(s, coverage)
  {
    if s != [] {
      var n := |s| - 1;
      var init := RelatedIndices(s[..n], coverage);
      var tail := if IsRelated(s[n].name, coverage) then [n] else [];
      PickRelated(s[..n], coverage);
      PickPrefix(s, n, init);
      PickAppend(s, init, tail);
    }
  }

  /** The top-level children of the three.js scene. */
  class Scene {
    var children: seq<Object3D>

    constructor (children: seq<Object3D>)
      ensures this.children == children
    {
      this.children := children;
    }

    /**
     * A click on a coverage area: pick the related children, paint the
     * satellite meshes that are not related yellow, then the related ones
     * red, then rebuild the lines.
     */
    method HandleCoverageClick(coverage: seq<string>)
      modifies this
      ensures children == Click(old(children), coverage)
    {
      var relatedSat := RelatedIndices(children, coverage);
      PickRelated(children, coverage);
      PaintUnrelated(relatedSat);
      PaintRelated(relatedSat);
      assert children == Recolour(old(children), coverage);
      assert Positions(Pick(children, relatedSat)) == Positions(Related(old(children), coverage));
      CreateLinesBetweenSatellites(Pick(children, relatedSat));
    }

    /** Paint yellow every satellite mesh whose index is not in `relatedSat`. */
    method PaintUnrelated(relatedSat: seq<nat>)
      modifies this
      ensures |children| == |old(children)|
      ensures forall k | 0 <= k < |children| ::
        children[k] == if k !in relatedSat && IsSatelliteMesh(old(children)[k]) then old(children)[k].(color := Yellow)
                       else old(children)[k]
    {
      var i := 0;
      while i < |children|
        invariant 0 <= i <= |children| == |old(children)|
        invariant forall k | 0 <= k < |children| ::
          children[k] == if k < i && k !in relatedSat && IsSatelliteMesh(old(children)[k]) then old(children)[k].(color := Yellow)
                         else old(children)[k]
      {
        var mesh := children[i];
        if i !in relatedSat && mesh.hasMaterial && StartsWith(mesh.name, SatellitePrefix) {
          children := children[i := mesh.(color := Yellow)];
        }
        i := i + 1;
      }
    }

    /** Paint red every satellite mesh whose index is in `relatedSat`. */
    method PaintRelated(relatedSat: seq<nat>)
      requires forall j | 0 <= j < |relatedSat| :: relatedSat[j] < |children|
      modifies this
      ensures |children| == |old(children)|
      ensures forall k | 0 <= k < |children| ::
        children[k] == if k in relatedSat && IsSatelliteMesh(old(children)[k]) then old(children)[k].(color := Red)
                       else old(children)[k]
    {
      var j := 0;
      while j < |relatedSat|
        invariant 0 <= j <= |relatedSat|
        invariant |children| == |old(children)|
        invariant forall k | 0 <= k < |children| ::
          children[k] == if k in relatedSat[..j] && IsSatelliteMesh(old(children)[k]) then old(children)[k].(color := Red)
                         else old(children)[k]
      {
        var index := relatedSat[j];
        var mesh := children[index];
        if mesh.hasMaterial && StartsWith(mesh.name, SatellitePrefix) {
          children := children[index := mesh.(color := Red)];
        }
        assert forall k | 0 <= k < |children| :: k in relatedSat[..j + 1] <==> k in relatedSat[..j] || k == index;
        j := j + 1;
      }
      assert relatedSat[..j] == relatedSat;
    }

    /**
     * Rebuild the connector lines: drop every line from the scene, keeping
     * the other children in order, then add one line from the first
     * related object to each of the others.
     */
    method CreateLinesBetweenSatellites(relatedSat: seq<Object3D>)
      modifies this
      ensures children == NonLines(old(children)) + StarLines(Positions(relatedSat))
    {
      children := NonLines(children);
      ghost var kept := children;
      ghost var positions := Positions(relatedSat);
      var index := 0;
      while index < |relatedSat|
        invariant 0 <= index <= |relatedSat|
        invariant children == kept + StarLines(positions[..index])
      {
        if index != 0 {
          var line := NewLine(relatedSat[0].position, relatedSat[index].position);
          StarLinesGrow(positions, index);
          children := children + [line];
        } else {
          assert StarLines(positions[..1]) == [];
        }
        index := index + 1;
      }
      assert positions[..index] == positions;
    }
  }
}
