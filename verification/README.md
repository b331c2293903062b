# Coverage click in the Earth view

This project models the click handler of the Earth view's 3D scene (`src/section/Renderer.jsx`). Clicking a coverage area does three things:

1. It picks the top-level scene children that are *related* to the area. A child is related when the id in its name is one of the area's satellites. The id is the second `_`-separated segment of the name.
2. It paints satellite meshes that have a material: unrelated ones turn yellow, and then related ones turn red.
3. It rebuilds the connector lines. Every `THREE.Line` is removed from the scene. Then a star of new blue lines is drawn from the first related object to each of the others.

The Dafny project has three modules.

- `Segments` (`segments.dfy`) models JavaScript's `split` on a one-character separator and `startsWith`. It proves that split and join are inverses of each other. On top of these it defines `SecondSegment`, the model of `name.split('_')[1]`. It returns `None` where JavaScript yields `undefined`.
- `Renderer` (`renderer.dfy`) holds the scene.
  - A scene object is an `Object3D` record: name, line or not, material or not, position, line vertices and colour.
  - The scene is the class `Scene`. Its `children` field is updated in place by the methods `HandleCoverageClick`, `PaintUnrelated`, `PaintRelated` and `CreateLinesBetweenSatellites`.
  - The specification function `Click` says which children a click leaves, and `HandleCoverageClick` is proved to leave exactly `Click(old(children), coverage)`.
  - `relatedSat` is an array of references to scene children. The model holds those references as indices into `children`: the list `RelatedIndices`. `PickRelated` shows that the objects at these indices are the related objects, `Related`.
- `ClickProperties` (`click_properties.dfy`) proves what a click guarantees:
  - which children survive, and in what order;
  - the colours they end with;
  - how many lines are drawn, and between which points;
  - that clicking the same coverage area twice changes nothing more, as long as no line in the scene was already related to it;
  - that from the second click on, further clicks on the same area change nothing.

The coverage area is modelled by its `satellites` list, a `seq<string>`. Positions are only copied, never computed, so `Vec3` carries them unchanged (but see the Float32 note under "Left out"). Colours are integers, with the hex constants of the source.

A related child is not always a satellite. Any child whose name has a matching second segment is related, including a line such as `link_A`. Its position then still anchors or ends a new line, even though the line itself is removed. This is why idempotence needs a precondition. `RelatedLineBreaksIdempotence` shows that without the precondition a second click can differ from the first.

## Model

| member | source | states |
|---|---|---|
| Segments.Split | src/section/Renderer.jsx:57 | `split('_')` gives at least one segment, no segment contains the separator, and there is a single segment exactly when the string has no separator |
| Segments.JoinSplit | src/section/Renderer.jsx:57 | joining the segments of a split with the separator gives the original name back, so splitting loses nothing |
| Segments.SplitJoin | src/section/Renderer.jsx:57 | splitting the join of separator-free segments gives the segments back |
| Segments.SecondSegment | src/section/Renderer.jsx:57 | `name.split('_')[1]` is undefined (None) exactly when the name has no `_`, and otherwise is a segment without `_` |
| Segments.SecondSegmentBetween | src/section/Renderer.jsx:57 | the second segment is the text between the first `_` and the next `_` or the end of the name |
| Renderer.RelatedIndices | src/section/Renderer.jsx:56-58 | `relatedSat` as indices: every index is in range, and an index is listed exactly when the child there is related to the coverage area |
| Renderer.Related | src/section/Renderer.jsx:56-58 | the related objects are a filter of the scene and no longer than it |
| Renderer.RelatedMembers | src/section/Renderer.jsx:56-58 | an object is among the related objects exactly when it is a child whose name's second segment is in the coverage list |
| Renderer.PickRelated | src/section/Renderer.jsx:56-58 | the children at the related indices, in index order, are the related objects, so the references and the filtered values agree |
| Renderer.NonLines | src/section/Renderer.jsx:75 | dropping the lines never makes the scene longer |
| Renderer.NonLinesMembers | src/section/Renderer.jsx:75 | an object survives the line filter exactly when it is a child that is not a line |
| Renderer.StarLines | src/section/Renderer.jsx:76-86 | no line for zero or one related object, otherwise one fewer line than related objects, the k-th running from the first related position to the (k+1)-th |
| Renderer.StarLinesGrow | src/section/Renderer.jsx:76-86 | each further related object adds exactly one line to the star, from the first related position to its own, at the end |
| Renderer.Scene.HandleCoverageClick | src/section/Renderer.jsx:55-72 | the children after the click are `Click` of the children before it |
| Renderer.Scene.PaintUnrelated | src/section/Renderer.jsx:60-64 | each satellite mesh whose index is not in `relatedSat` turns yellow, and every other child is unchanged |
| Renderer.Scene.PaintRelated | src/section/Renderer.jsx:66-70 | each satellite mesh whose index is in `relatedSat` turns red, and every other child is unchanged |
| Renderer.Scene.CreateLinesBetweenSatellites | src/section/Renderer.jsx:74-88 | the new children are the old non-line children in order, followed by the star of lines over the given objects' positions |
| ClickProperties.UnderscoreFreeUnrelated | src/section/Renderer.jsx:56-58 | a name without `_` is never related, whatever the coverage list |
| ClickProperties.SatelliteNameRelated | src/section/Renderer.jsx:148 | a mesh named `satellite_<id>`, with no `_` in the id, carries the satellite prefix and is related exactly when the id is in the coverage list |
| ClickProperties.RelatedIndicesInOrder | src/section/Renderer.jsx:56-58 | the related indices strictly increase, so `relatedSat` keeps scene order |
| ClickProperties.RelatedAppend | src/section/Renderer.jsx:56-58 | selecting the related objects of two scene parts gives the two selections concatenated, so scene order is kept |
| ClickProperties.NonLinesAppend | src/section/Renderer.jsx:75 | dropping the lines of two scene parts gives the two results concatenated, so relative order is kept |
| ClickProperties.RecolourTwice | src/section/Renderer.jsx:60-70 | painting after painting changes no colour |
| ClickProperties.NonLinesRecolour | src/section/Renderer.jsx:60-75 | painting and then dropping lines equals dropping lines and then painting |
| ClickProperties.RelatedRecolour | src/section/Renderer.jsx:56-70 | painting does not change which objects are related |
| ClickProperties.RelatedNonLines | src/section/Renderer.jsx:56-75 | when no line is related, removing the lines keeps every related object |
| ClickProperties.NewLinesInert | src/section/Renderer.jsx:77-84 | every new line is a two-point line with an empty name. It is never related and never a satellite mesh; painting leaves it unchanged, and the line filter removes it |
| ClickProperties.ClickShape | src/section/Renderer.jsx:74-86 | after a click the children are the old non-line children, recoloured in their old order, followed by max(related − 1, 0) new lines. Line k runs from the first related position to the (k+1)-th |
| ClickProperties.ClickColours | src/section/Renderer.jsx:60-70 | each surviving child changes only in colour: a satellite mesh is red if related and yellow otherwise, and any other child keeps its colour even when related |
| ClickProperties.OldLinesRemoved | src/section/Renderer.jsx:75 | every line left after a click is one of the new star lines |
| ClickProperties.FewRelatedNoLines | src/section/Renderer.jsx:75-77 | with at most one related object, no line at all is left after a click |
| ClickProperties.ClickLeavesNoRelatedLine | src/section/Renderer.jsx:55-88 | after a click no line is related to the clicked coverage area |
| ClickProperties.RepaintSurvivors | src/section/Renderer.jsx:60-75 | a second click leaves the surviving children exactly as the first click left them |
| ClickProperties.ReselectRelated | src/section/Renderer.jsx:56-82 | when no line was related, a second click selects related objects at the same positions as the first |
| ClickProperties.ClickIdempotent | src/section/Renderer.jsx:55-88 | when no line in the scene is related, clicking the same coverage area twice gives the same children as clicking once |
| ClickProperties.FirstClickOnRelatedLine | src/section/Renderer.jsx:55-88 | a click on a related line ahead of a related object removes the line, paints the object and joins the two with one new line |
| ClickProperties.RelatedLineBreaksIdempotence | src/section/Renderer.jsx:56-75 | a related line ahead of a related non-line makes the second click differ from the first |
| ClickProperties.NamedLineRelated | src/section/Renderer.jsx:57 | a line named `link_A` is related to a coverage area holding `A`, so the precondition above can be met |
| ClickProperties.ClickSettles | src/section/Renderer.jsx:55-88 | from any scene, a third click on the same area gives the same children as the second |

## Left out

- `randomAxisPoints` and `randomValue` (src/section/Renderer.jsx:11-18, 129-131) draw random points using floating-point trigonometry, so they are not modelled. A position is only ever copied.
- `TextBoard`, the rotation of the Earth in `useFrame`, texture loading and the JSX scene composition are rendering glue, so they are not modelled.
- `src/section/Hero.jsx` holds page layout only.
- three.js is not modelled as a library.
  - `material.color.set` is a record update of `color`.
  - `new THREE.Line(...)` with `setFromPoints` is the record `NewLine`. `setFromPoints` stores the vertices in a Float32 buffer, so the real line holds single-precision roundings of the positions; `NewLine` stores the positions exactly. No proved property depends on that rounding.
  - `scene.add` is an append to `children`.
  - `instanceof THREE.Line` is the `isLine` flag.
  - A missing `material` is `hasMaterial == false`.
- The click event `e` is not modelled: the handler never reads it.
- Object identity is modelled by index. A child reference in `relatedSat` is the child's index in `children`, and a scene never holds the same object twice. Identity beyond that is not modelled: an object that is reachable from elsewhere as well as from the scene is outside the model.
- The model does not check that coverage entries and ids are well-formed. Names are strings, and a child with no name has the empty name, which is the three.js default.
- ClickIdempotent: holds only when no line in the scene is related to the clicked area. `RelatedLineBreaksIdempotence` shows that the unconditional form fails. `ClickSettles` shows that any scene is stable from the second click on.
