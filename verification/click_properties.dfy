/**
 * What a coverage click guarantees: which children survive and in which
 * order, what colour each one ends with, how many connector lines are
 * added and where they run, and what a second click on the same coverage
 * area does.
 */
module ClickProperties {
  import opened Segments
  import opened Renderer

  /** No line in the scene has a name whose id is in the coverage area. */
  predicate NoRelatedLine(s: seq<Object3D>, coverage: seq<string>) {
    forall x | x in s && x.isLine :: !IsRelated(x.name, coverage)
  }

  /** A name without `_` has no id, so it is never related. */
  lemma {:induction false} UnderscoreFreeUnrelated(name: string, coverage: seq<string>)
    requires '_' !in name
    ensures !IsRelated(name, coverage)
  {
    assert SecondSegment(name).None?;
  }

  /**
   * The mesh of satellite `id` is a satellite mesh when it has a material,
   * and it is related exactly when `id` is in the coverage area.
   */
  lemma SatelliteNameRelated(id: string, coverage: seq<string>)
    requires '_' !in id
    ensures IsRelated(SatelliteName(id), coverage) <==> id in coverage
    ensures StartsWith(SatelliteName(id), SatellitePrefix)
  {
    assert SatelliteName(id) == "satellite" + "_" + id + "";
    SecondSegmentBetween("satellite", id, "");
  }

  /** The related indices are strictly increasing: relatedSat keeps scene order. */
  lemma {:induction false} RelatedIndicesInOrder(s: seq<Object3D>, coverage: seq<string>)
    ensures forall i, j | 0 <= i < j < |RelatedIndices(s, coverage)| ::
      RelatedIndices(s, coverage)[i] < RelatedIndices(s, coverage)[j]
  {
    if s != [] {
      RelatedIndicesInOrder(s[..|s| - 1], coverage);
    }
  }

  /** Selecting the related objects commutes with splitting the scene in two. */
  lemma {:induction false} RelatedAppend(a: seq<Object3D>, b: seq<Object3D>, coverage: seq<string>)
    ensures Related(a + b, coverage) == Related(a, coverage) + Related(b, coverage)
  {
    if b != [] {
      var n := |b| - 1;
      assert (a + b)[..|a + b| - 1] == a + b[..n];
      RelatedAppend(a, b[..n], coverage);
    } else {
      assert a + b == a;
    }
  }

  /** Dropping the lines commutes with splitting the scene in two. */
  lemma {:induction false} NonLinesAppend(a: seq<Object3D>, b: seq<Object3D>)
    ensures NonLines(a + b) == NonLines(a) + NonLines(b)
  {
    if b != [] {
      var n := |b| - 1;
      assert (a + b)[..|a + b| - 1] == a + b[..n];
      NonLinesAppend(a, b[..n]);
    } else {
      assert a + b == a;
    }
  }

  lemma RecolourAppend(a: seq<Object3D>, b: seq<Object3D>, coverage: seq<string>)
    ensures Recolour(a + b, coverage) == Recolour(a, coverage) + Recolour(b, coverage)
  {
  }

  /** Painting twice paints the same colours as painting once. */
  lemma RecolourTwice(s: seq<Object3D>, coverage: seq<string>)
    ensures Recolour(Recolour(s, coverage), coverage) == Recolour(s, coverage)
  {
  }

  /** Painting never moves an object. */
  lemma RecolourPositions(s: seq<Object3D>, coverage: seq<string>)
    ensures Positions(Recolour(s, coverage)) == Positions(s)
  {
  }

  /** Painting does not change which objects are lines, so it commutes with dropping them. */
  lemma {:induction false} NonLinesRecolour(s: seq<Object3D>, coverage: seq<string>)
    ensures NonLines(Recolour(s, coverage)) == Recolour(NonLines(s), coverage)
  {
    if s != [] {
      var n := |s| - 1;
      assert Recolour(s, coverage)[..n] == Recolour(s[..n], coverage);
      NonLinesRecolour(s[..n], coverage);
      var last := if s[n].isLine then [] else [s[n]];
      RecolourAppend(NonLines(s[..n]), last, coverage);
    }
  }

  /** Painting does not change names, so it commutes with selecting the related objects. */
  lemma {:induction false} RelatedRecolour(s: seq<Object3D>, coverage: seq<string>)
    ensures Related(Recolour(s, coverage), coverage) == Recolour(Related(s, coverage), coverage)
  {
    if s != [] {
      var n := |s| - 1;
      assert Recolour(s, coverage)[..n] == Recolour(s[..n], coverage);
      RelatedRecolour(s[..n], coverage);
      var last := if IsRelated(s[n].name, coverage) then [s[n]] else [];
      RecolourAppend(Related(s[..n], coverage), last, coverage);
    }
  }

  /** A scene without lines loses nothing when the lines are dropped. */
  lemma {:induction false} NonLinesOfNoLines(s: seq<Object3D>)
    requires forall x | x in s :: !x.isLine
    ensures NonLines(s) == s
  {
    if s != [] {
      var n := |s| - 1;
      assert s == s[..n] + [s[n]];
      NonLinesOfNoLines(s[..n]);
    }
  }

  /** A scene of lines only is empty once the lines are dropped. */
  lemma {:induction false} NonLinesOfLines(s: seq<Object3D>)
    requires forall x | x in s :: x.isLine
    ensures NonLines(s) == []
  {
    if s != [] {
      var n := |s| - 1;
      assert s == s[..n] + [s[n]];
      NonLinesOfLines(s[..n]);
    }
  }

  /** When no line is related, dropping the lines keeps every related object. */
  lemma {:induction false} RelatedNonLines(s: seq<Object3D>, coverage: seq<string>)
    requires NoRelatedLine(s, coverage)
    ensures Related(NonLines(s), coverage) == Related(s, coverage)
  {
    if s != [] {
      var n := |s| - 1;
      assert s == s[..n] + [s[n]];
      RelatedNonLines(s[..n], coverage);
      var last := if s[n].isLine then [] else [s[n]];
      RelatedAppend(NonLines(s[..n]), last, coverage);
    }
  }

  /** No object is related when none of their names has an `_`. */
  lemma {:induction false} RelatedOfUnnamed(s: seq<Object3D>, coverage: seq<string>)
    requires forall x | x in s :: '_' !in x.name
    ensures Related(s, coverage) == []
  {
    if s != [] {
      var n := |s| - 1;
      assert s == s[..n] + [s[n]];
      RelatedOfUnnamed(s[..n], coverage);
      UnderscoreFreeUnrelated(s[n].name, coverage);
    }
  }

  /**
   * The new lines are blue two-point lines with an empty name: they are
   * lines, they are never related to any coverage area, they are not
   * satellite meshes, painting leaves them unchanged and the line filter removes them.
   */
  lemma NewLinesInert(ps: seq<Vec3>, coverage: seq<string>)
    ensures forall x | x in StarLines(ps) ::
      x.isLine && x.name == "" && !IsRelated(x.name, coverage) && !IsSatelliteMesh(x) && |x.points| == 2
    ensures Recolour(StarLines(ps), coverage) == StarLines(ps)
    ensures Related(StarLines(ps), coverage) == []
    ensures NonLines(StarLines(ps)) == []
  {
    UnderscoreFreeUnrelated("", coverage);
    RelatedOfUnnamed(StarLines(ps), coverage);
    NonLinesOfLines(StarLines(ps));
  }

  /**
   * The children a click leaves: the old children that are not lines, in
   * their old order and each recoloured, followed by one new line per
   * related object after the first.
   */
  lemma ClickShape(s: seq<Object3D>, coverage: seq<string>)
    ensures Click(s, coverage) == Recolour(NonLines(s), coverage) + StarLines(Positions(Related(s, coverage)))
    ensures |Click(s, coverage)| == |NonLines(s)| + if |Related(s, coverage)| == 0 then 0 else |Related(s, coverage)| - 1
    ensures forall k | |NonLines(s)| <= k < |Click(s, coverage)| ::
      Click(s, coverage)[k] == NewLine(Related(s, coverage)[0].position, Related(s, coverage)[k - |NonLines(s)| + 1].position)
  {
    NonLinesRecolour(s, coverage);
  }

  /**
   * The colours a click leaves on the surviving children: a satellite mesh
   * turns red when related and yellow otherwise; any other child keeps its
   * colour, related or not. Nothing but the colour changes.
   */
  lemma ClickColours(s: seq<Object3D>, coverage: seq<string>)
    ensures |NonLines(s)| <= |Click(s, coverage)|
    ensures forall k | 0 <= k < |NonLines(s)| ::
      var x := NonLines(s)[k];
      && Click(s, coverage)[k] == x.(color := Click(s, coverage)[k].color)
      && (IsSatelliteMesh(x) && IsRelated(x.name, coverage) ==> Click(s, coverage)[k].color == Red)
      && (IsSatelliteMesh(x) && !IsRelated(x.name, coverage) ==> Click(s, coverage)[k].color == Yellow)
      && (!IsSatelliteMesh(x) ==> Click(s, coverage)[k].color == x.color)
  {
    ClickShape(s, coverage);
  }

  /** A click removes every line that was there before it. */
  lemma OldLinesRemoved(s: seq<Object3D>, coverage: seq<string>)
    ensures forall x | x in Click(s, coverage) && x.isLine :: x in StarLines(Positions(Related(s, coverage)))
  {
    NonLinesMembers(Recolour(s, coverage));
  }

  /** With at most one related object no line is added, and the old lines are still gone. */
  lemma FewRelatedNoLines(s: seq<Object3D>, coverage: seq<string>)
    requires |Related(s, coverage)| <= 1
    ensures forall x | x in Click(s, coverage) :: !x.isLine
  {
    NonLinesMembers(Recolour(s, coverage));
  }

  /** After a click no line is related to the coverage area clicked. */
  lemma ClickLeavesNoRelatedLine(s: seq<Object3D>, coverage: seq<string>)
    ensures NoRelatedLine(Click(s, coverage), coverage)
  {
    NonLinesMembers(Recolour(s, coverage));
    NewLinesInert(Positions(Related(s, coverage)), coverage);
  }

  /** A second click leaves the surviving children as the first click left them. */
  lemma RepaintSurvivors(s: seq<Object3D>, coverage: seq<string>)
    ensures NonLines(Recolour(Click(s, coverage), coverage)) == NonLines(Recolour(s, coverage))
  {
    var kept := NonLines(Recolour(s, coverage));
    var lines := StarLines(Positions(Related(s, coverage)));
    NewLinesInert(Positions(Related(s, coverage)), coverage);
    RecolourAppend(kept, lines, coverage);
    calc {
      Recolour(kept, coverage);
      { NonLinesRecolour(Recolour(s, coverage), coverage); }
      NonLines(Recolour(Recolour(s, coverage), coverage));
      { RecolourTwice(s, coverage); }
      kept;
    }
    NonLinesAppend(kept, lines);
    NonLinesMembers(Recolour(s, coverage));
    NonLinesOfNoLines(kept);
  }

  /**
   * A second click picks the related objects at the same positions as the
   * first, provided no line in the scene was related.
   */
  lemma ReselectRelated(s: seq<Object3D>, coverage: seq<string>)
    requires NoRelatedLine(s, coverage)
    ensures Positions(Related(Click(s, coverage), coverage)) == Positions(Related(s, coverage))
  {
    var painted := Recolour(s, coverage);
    var lines := StarLines(Positions(Related(s, coverage)));
    NewLinesInert(Positions(Related(s, coverage)), coverage);
    RelatedAppend(NonLines(painted), lines, coverage);
    assert NoRelatedLine(painted, coverage);
    RelatedNonLines(painted, coverage);
    RelatedRecolour(s, coverage);
    RecolourPositions(Related(s, coverage), coverage);
  }

  /**
   * Clicking the same coverage area twice gives the same scene as clicking
   * it once, provided no line already in the scene is related to it.
   */
  lemma ClickIdempotent(s: seq<Object3D>, coverage: seq<string>)
    requires NoRelatedLine(s, coverage)
    ensures Click(Click(s, coverage), coverage) == Click(s, coverage)
  {
    RepaintSurvivors(s, coverage);
    ReselectRelated(s, coverage);
  }

  /** Whatever the scene held before, the second click on the same coverage area changes nothing. */
  lemma ClickSettles(s: seq<Object3D>, coverage: seq<string>)
    ensures Click(Click(Click(s, coverage), coverage), coverage) == Click(Click(s, coverage), coverage)
  {
    ClickLeavesNoRelatedLine(s, coverage);
    ClickIdempotent(Click(s, coverage), coverage);
  }

  /** A first click on a related line ahead of a related object keeps the object and joins the two. */
  lemma FirstClickOnRelatedLine(line: Object3D, sat: Object3D, coverage: seq<string>)
    requires line.isLine && IsRelated(line.name, coverage)
    requires !sat.isLine && IsRelated(sat.name, coverage)
    ensures Click([line, sat], coverage) == [sat.(color := ClickColour(sat, coverage)), NewLine(line.position, sat.position)]
  {
    var s := [line, sat];
    var sat' := sat.(color := ClickColour(sat, coverage));
    var ps := [line.position, sat.position];
    calc {
      Click(s, coverage);
      NonLines(Recolour(s, coverage)) + StarLines(Positions(Related(s, coverage)));
      { NonLinesRecolour(s, coverage); }
      Recolour(NonLines(s), coverage) + StarLines(Positions(Related(s, coverage)));
      { assert s[..1] == [line] && [line][..0] == [];
        assert NonLines(s) == [sat];
        assert Related(s, coverage) == s; }
      Recolour([sat], coverage) + StarLines(Positions(s));
      { assert Positions(s) == ps; }
      Recolour([sat], coverage) + StarLines(ps);
      { assert StarLines(ps) == [NewLine(ps[0], ps[1])]; }
      [sat'] + [NewLine(line.position, sat.position)];
    }
  }

  /**
   * Without the precondition of ClickIdempotent a second click can differ.
   * A related line ahead of a related object gives the first click two
   * related objects, so it draws a line between them; that click also
   * removes the old line, so the second click finds one related object and
   * draws no line.
   */
  lemma RelatedLineBreaksIdempotence(line: Object3D, sat: Object3D, coverage: seq<string>)
    requires line.isLine && IsRelated(line.name, coverage)
    requires !sat.isLine && IsRelated(sat.name, coverage)
    ensures Click(Click([line, sat], coverage), coverage) != Click([line, sat], coverage)
  {
    FirstClickOnRelatedLine(line, sat, coverage);
    var sat' := sat.(color := ClickColour(sat, coverage));
    var lines := [NewLine(line.position, sat.position)];
    assert lines == StarLines([line.position, sat.position]);
    var once := [sat'] + lines;
    assert Click([line, sat], coverage) == once;
    NonLinesRecolour(once, coverage);
    NewLinesInert([line.position, sat.position], coverage);
    RelatedAppend([sat'], lines, coverage);
    NonLinesAppend([sat'], lines);
    assert [sat'][..0] == [];
    assert |Click(once, coverage)| == 1;
  }

  /** A line named `link_A` is related to a coverage area holding satellite `A`. */
  lemma NamedLineRelated()
    ensures IsRelated("link_A", ["A"])
  {
    assert "link_A" == "link" + "_" + "A" + "";
    SecondSegmentBetween("link", "A", "");
  }
}
