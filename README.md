# Scene-graph core of glut_simple_example, in Dafny

This project models the scene-graph data model of the glut_simple_example engine. It has three parts.

- **Transform**: a node's local pose, one 4x4 affine matrix.
  - `left`, `up`, `fwd` and `pos` are views of the matrix's columns 0 to 3.
  - The default Transform is the identity.
  - `a * b` is the matrix product, with `a`'s matrix on the left.
- **BoundingBox**: an axis-aligned box held as its two extreme corners `min` and `max`.
  - It has a centre, a size, the eight named corners `v000` to `v111`, and `vertices()`, which lists all eight.
- **GraphicObject**: a tree node.
  - It carries a local Transform, an 8-bit colour, a texture and an optional shared mesh.
  - Its world transform is its parent's world transform composed with its own. A root's world transform is its own transform.

## How the model is built

The tree is an arena: a sequence of nodes in which each node names its parent by index. Children are only ever created under a parent that already exists. So every parent index is smaller than its child's index. This property is `WellFormed`, and it is why the upward walk of `WorldTransform` terminates.

Scalars are mathematical reals. A `mat4` is four columns of four reals, because glm stores matrices column-major. The product is written out explicitly.

The parts of the code that are values are datatypes and functions:
- `Transform`, `BoundingBox` and `GraphicObject`;
- the column views, composition, the box algebra and the world transform.

The parts that change state are methods of the class `GraphicObjects.Scene`, whose field `nodes` is the arena. These are:
- `emplaceChild`;
- `setMesh` and `setTextureImage`;
- the assignments callers make through the references that `transform()`, `transform().pos()`, `color()` and `texture()` hand out.

`pos()` hands out a reference into the matrix. Assignment through it is therefore modelled twice:
- the value-level `Transforms.Transform.WithPos`;
- the in-place `GraphicObjects.Scene.SetPos`.

Two operations are declared in the headers but have no body there: `localBoundingBox()` and `mat4 * BoundingBox`. `GraphicObjects.GraphicObject.BoxInParent` therefore takes the local box and the box-transforming operation as parameters.

The module `TreeTransformsExample` replays the scene that `class_exercises_2024/03_TreeTransforms/main.cpp` builds. That scene is a chain of a triangle, a textured triangle and a textured quad under the root. The module derives where they end up in world space.

## Model

| member | source | states |
|---|---|---|
| `LinearAlgebra.IdentityEntry` | glut_simple_example/glut_simple_example/Transform.h:8 | `mat4(1.0)` has ones on the diagonal and zeros everywhere else |
| `LinearAlgebra.Identity` | glut_simple_example/glut_simple_example/Transform.h:8 | glm's `mat4(1.0)`, the default matrix, leaves every vector unchanged |
| `LinearAlgebra.Apply` | glut_simple_example/glut_simple_example/Transform.h:34-35 | glm's `mat4 * vec4`: component `r` of the image is row `r` of the matrix dotted with the vector |
| `LinearAlgebra.Mul` | glut_simple_example/glut_simple_example/Transform.h:35 | glm's `mat4 * mat4`: each entry of the product is the matching row of the left factor dotted with the matching column of the right factor |
| `LinearAlgebra.MulIdentityLeft` | glut_simple_example/glut_simple_example/Transform.h:8 | the identity is a left unit of the matrix product |
| `LinearAlgebra.MulIdentityRight` | glut_simple_example/glut_simple_example/Transform.h:8 | the identity is a right unit of the matrix product |
| `LinearAlgebra.ApplyMul` | glut_simple_example/glut_simple_example/Transform.h:35 | the product matrix maps a vector as the right factor followed by the left factor |
| `LinearAlgebra.MulAssoc` | glut_simple_example/glut_simple_example/Transform.h:35 | the matrix product is associative |
| `Transforms.Transform.Left` | glut_simple_example/glut_simple_example/Transform.h:19 | `left()` is rows 0 to 2 of matrix column 0 |
| `Transforms.Transform.Up` | glut_simple_example/glut_simple_example/Transform.h:20 | `up()` is rows 0 to 2 of matrix column 1 |
| `Transforms.Transform.Fwd` | glut_simple_example/glut_simple_example/Transform.h:21 | `fwd()` is rows 0 to 2 of matrix column 2 |
| `Transforms.Transform.Pos` | glut_simple_example/glut_simple_example/Transform.h:22 | `pos()` is rows 0 to 2 of matrix column 3, the translation column |
| `Transforms.Transform.Data` | glut_simple_example/glut_simple_example/Transform.h:25 | `data()` is the 16 entries in memory order: entry `k` is row `k % 4` of column `k / 4` |
| `Transforms.Transform.WithPos` | glut_simple_example/glut_simple_example/Transform.h:23 | after assigning `p` through `pos()`, reading `pos()` gives `p`, and every entry outside rows 0 to 2 of column 3 is unchanged (all four w components included) |
| `Transforms.Default` | glut_simple_example/glut_simple_example/Transform.h:8-15 | the default Transform's matrix is the identity; its basis is the unit axes and its position is the origin |
| `Transforms.Compose` | glut_simple_example/glut_simple_example/Transform.h:35 | `a * b` has `a`'s matrix times `b`'s, so the origin of `b`'s frame lands where `a` maps `b`'s position |
| `Transforms.ComposeActsInOrder` | glut_simple_example/glut_simple_example/Transform.h:35 | `a * b` maps a point given in `b`'s frame as `b` and then `a` do |
| `Transforms.TimesMat` | glut_simple_example/glut_simple_example/Transform.h:34 | `t * m` equals `t` composed with `Transform(m)` |
| `Transforms.MatTimes` | glut_simple_example/glut_simple_example/Transform.h:38 | `m * t` equals `Transform(m)` composed with `t` |
| `Transforms.ViewsCoverMatrix` | glut_simple_example/glut_simple_example/Transform.h:7-15 | the four column views and the w row together rebuild the whole matrix, so the views are not separate state |
| `Transforms.WithPosLaws` | glut_simple_example/glut_simple_example/Transform.h:23 | assigning the position leaves the basis unchanged; a second assignment overrides the first; assigning the current position changes nothing |
| `Transforms.ComposeDefault` | glut_simple_example/glut_simple_example/Transform.h:35 | composing with the default Transform on either side gives back the other operand |
| `Transforms.ComposeAssoc` | glut_simple_example/glut_simple_example/Transform.h:35 | Transform composition is associative |
| `BoundingBoxes.BoundingBox.Center` | glut_simple_example/glut_simple_example/BoundingBox.h:11 | `center()` is the componentwise midpoint of `min` and `max`, and equals `min` plus half of `size()` |
| `BoundingBoxes.BoundingBox.Size` | glut_simple_example/glut_simple_example/BoundingBox.h:12 | `min + size()` is `max`, and `size()` has no negative component when `min <= max` |
| `BoundingBoxes.BoundingBox.V000` | glut_simple_example/glut_simple_example/BoundingBox.h:14 | `v000()` is the corner taking x, y and z all from `min` |
| `BoundingBoxes.BoundingBox.V001` | glut_simple_example/glut_simple_example/BoundingBox.h:15 | `v001()` takes only z from `max` |
| `BoundingBoxes.BoundingBox.V010` | glut_simple_example/glut_simple_example/BoundingBox.h:16 | `v010()` takes only y from `max` |
| `BoundingBoxes.BoundingBox.V011` | glut_simple_example/glut_simple_example/BoundingBox.h:17 | `v011()` takes y and z from `max` |
| `BoundingBoxes.BoundingBox.V100` | glut_simple_example/glut_simple_example/BoundingBox.h:18 | `v100()` takes only x from `max` |
| `BoundingBoxes.BoundingBox.V101` | glut_simple_example/glut_simple_example/BoundingBox.h:19 | `v101()` takes x and z from `max` |
| `BoundingBoxes.BoundingBox.V110` | glut_simple_example/glut_simple_example/BoundingBox.h:20 | `v110()` takes x and y from `max` |
| `BoundingBoxes.BoundingBox.V111` | glut_simple_example/glut_simple_example/BoundingBox.h:21 | `v111()` is the corner taking x, y and z all from `max` |
| `BoundingBoxes.BoundingBox.Vertices` | glut_simple_example/glut_simple_example/BoundingBox.h:23 | `vertices()` has exactly eight entries; entry `n` is the corner whose x, y and z choices are bits 4, 2 and 1 of `n`, which is the order v000 to v111 |
| `BoundingBoxes.Lowest` | glut_simple_example/glut_simple_example/BoundingBox.h:14-23 | the componentwise minimum of a non-empty list of points is below every point, and each of its components is attained by some point |
| `BoundingBoxes.Highest` | glut_simple_example/glut_simple_example/BoundingBox.h:14-23 | the componentwise maximum of a non-empty list of points is above every point, and each of its components is attained by some point |
| `BoundingBoxes.VerticesInside` | glut_simple_example/glut_simple_example/BoundingBox.h:14-23 | on a box with `min <= max`, every vertex lies inside the box |
| `BoundingBoxes.VerticesSpanBox` | glut_simple_example/glut_simple_example/BoundingBox.h:14-23 | on a box with `min <= max`, the componentwise minimum and maximum over `vertices()` are exactly `min` and `max` |
| `GraphicObjects.GraphicObject.IsRoot` | glut_simple_example/glut_simple_example/GraphicObject.h:29 | `isRoot()` holds exactly when the node has no parent link |
| `GraphicObjects.GraphicObject.HasMesh` | glut_simple_example/glut_simple_example/GraphicObject.h:40 | `hasMesh()` holds exactly when the mesh slot is not null |
| `GraphicObjects.GraphicObject.Mesh` | glut_simple_example/glut_simple_example/GraphicObject.h:26-27 | `mesh()` may only be called when the node has a mesh, and it returns the mesh held in the slot |
| `GraphicObjects.GraphicObject.BoxInParent` | glut_simple_example/glut_simple_example/GraphicObject.h:32 | `boundingBox()` is the matrix-times-box operation applied to the node's own local matrix and its own local box; `RootBoxIsWorldBox` and `BoxIgnoresOtherTransforms` state its relation to the tree |
| `GraphicObjects.NewObject` | glut_simple_example/glut_simple_example/GraphicObject.h:14-17 | a fresh node has the requested parent, the identity transform, colour (255, 255, 255), no texture image and no mesh |
| `GraphicObjects.WorldTransform` | glut_simple_example/glut_simple_example/GraphicObject.h:29 | `worldTransform()`: a root's world transform is its own transform; any other node's is its parent's world transform composed with its own, the parent's on the left |
| `GraphicObjects.Path` | glut_simple_example/glut_simple_example/GraphicObject.h:29 | the ancestor path starts at a root and ends at the node; each entry is the parent of the next; no entry exceeds the node |
| `GraphicObjects.WorldIsPathProduct` | glut_simple_example/glut_simple_example/GraphicObject.h:29 | the world matrix is the product of the local matrices along the ancestor path, with the root's matrix outermost |
| `GraphicObjects.WorldLocality` | glut_simple_example/glut_simple_example/GraphicObject.h:29 | a world transform depends only on the parent links and local transforms of the nodes on its ancestor path |
| `GraphicObjects.SetTransformElsewhere` | glut_simple_example/glut_simple_example/GraphicObject.h:29 | changing the transform of a node off `i`'s ancestor path leaves `i`'s world transform unchanged |
| `GraphicObjects.DescendantNotOnPath` | glut_simple_example/glut_simple_example/GraphicObject.h:29 | a strict descendant of a node is never on that node's ancestor path, so changing it cannot move the node |
| `GraphicObjects.SiblingNotOnPath` | glut_simple_example/glut_simple_example/GraphicObject.h:29 | a sibling of a node is never on that node's ancestor path, so changing it cannot move the node |
| `GraphicObjects.SameTreeSameWorlds` | glut_simple_example/glut_simple_example/GraphicObject.h:29 | arenas that agree on every parent link and local transform agree on every world transform |
| `GraphicObjects.AppendKeepsWorlds` | glut_simple_example/glut_simple_example/GraphicObject.h:29 | appending a node under an existing parent keeps the arena well formed and keeps every existing world transform |
| `GraphicObjects.FreshChildWorld` | glut_simple_example/glut_simple_example/GraphicObject.h:29 | a newly appended child starts at its parent's world transform |
| `GraphicObjects.RootBoxIsWorldBox` | glut_simple_example/glut_simple_example/GraphicObject.h:29-32 | on a root, `boundingBox()` is the local box moved by the node's world matrix, since a root's parent frame is world space |
| `GraphicObjects.BoxIgnoresOtherTransforms` | glut_simple_example/glut_simple_example/GraphicObject.h:32 | `boundingBox()` depends only on the node's own matrix and local box: changing any other node's transform leaves it unchanged, because it reads the local matrix and never the world transform |
| `GraphicObjects.Scene.constructor` | glut_simple_example/glut_simple_example/GraphicObject.h:14-17 | a new scene holds one fresh root node |
| `GraphicObjects.Scene.EmplaceChild` | class_exercises_2024/03_TreeTransforms/main.cpp:95 | appends a fresh child of `p` at the end of the arena and returns its index; existing world transforms are kept, and the child starts at its parent's world transform |
| `GraphicObjects.Scene.SetTransform` | glut_simple_example/glut_simple_example/GraphicObject.h:21 | assignment through `transform()` replaces only node `i`'s transform; a world transform whose ancestor path avoids `i` is unchanged |
| `GraphicObjects.Scene.SetPos` | glut_simple_example/glut_simple_example/Transform.h:23 | assignment through `transform().pos()` changes only node `i`'s position, which then reads back as `p`; worlds off `i`'s subtree are unchanged |
| `GraphicObjects.Scene.SetColor` | glut_simple_example/glut_simple_example/GraphicObject.h:23 | assignment through `color()` replaces only node `i`'s colour; every world transform is unchanged |
| `GraphicObjects.Scene.SetTexture` | glut_simple_example/glut_simple_example/GraphicObject.h:25 | assignment through `texture()` replaces only node `i`'s texture; every world transform is unchanged |
| `GraphicObjects.Scene.SetTextureImage` | glut_simple_example/glut_simple_example/GraphicObject.h:36 | `setTextureImage` gives node `i`'s texture the image and changes nothing else |
| `GraphicObjects.Scene.SetMesh` | glut_simple_example/glut_simple_example/GraphicObject.h:37 | `setMesh` replaces only node `i`'s mesh slot; afterwards `hasMesh()` holds exactly when the pointer given was not null; every world transform is unchanged |
| `TreeTransformsExample.ChainOfFour` | class_exercises_2024/03_TreeTransforms/main.cpp:95-113 | for a root with a chain of three descendants, the last node's world matrix is scene times triangle times child times quad |
| `TreeTransformsExample.PlacedChild` | class_exercises_2024/03_TreeTransforms/main.cpp:101-106 | a node made by one construction step has the given parent, position, mesh and image, and keeps the default basis |
| `TreeTransformsExample.AddPlacedChild` | class_exercises_2024/03_TreeTransforms/main.cpp:101-106 | one construction step (emplace a child, assign its position, set its mesh, hand its texture the image) appends exactly that node |
| `TreeTransformsExample.InitScene` | class_exercises_2024/03_TreeTransforms/main.cpp:89-113 | the scene built has the root, then the triangle, the textured triangle and the textured quad at indices 1, 2 and 3, each under the one before, with their meshes and images |
| `TreeTransformsExample.ExampleTriangleWorld` | class_exercises_2024/03_TreeTransforms/main.cpp:95-96 | the triangle, placed at its parent's origin under the root, has the default world transform |
| `TreeTransformsExample.ExampleTexturedTrianglePos` | class_exercises_2024/03_TreeTransforms/main.cpp:101-102 | the textured triangle sits at x = 2 in world space |
| `TreeTransformsExample.ExampleQuadPos` | class_exercises_2024/03_TreeTransforms/main.cpp:108-109 | the textured quad sits at x = 4 in world space: its own offset of 2 added to its parent's |

## Left out

- `translate` and `rotate` are declared in `Transform.h` but have no body there. `rotate` would also need trigonometry over the reals.
- `Transform(const mat4&)` is the datatype constructor `Transforms.Transform`, which stores the matrix unchanged. So `Transform(m).mat() == m` holds by construction and needs no lemma.
- The `BoundingBox` point-cloud constructor, `BoundingBox::operator+` and `mat4 * BoundingBox` are declared without bodies. `boundingBox()` takes the last one as a parameter.
- `localBoundingBox()` and `worldBoundingBox()` are declared without bodies. The local box is a parameter of `BoxInParent`, and `worldBoundingBox()` is not modelled.
- `draw()` issues OpenGL calls. It has no body in the header and is not modelled.
- `hasTexture()` tests an OpenGL texture id, which only exists after upload to the GPU. A texture is modelled only by the image it was given.
- Floating point: scalars are exact reals. Rounding, NaN, infinities and approximate orthonormality are not modelled.
- `TreeExt`, the tree base class, is not part of this model. Its storage, its reference stability and its child lists are replaced by the parent-index arena.
- Reference counting of the shared meshes and images is not modelled. A mesh or image is an opaque handle, and an empty slot stands for a null pointer.
- Mutation of a mesh through the non-const `mesh()` is not modelled, because `Mesh` is not part of this model.
- `setDefaultMaterial()` and `material()`, called by `class_exercises_2024/03_TreeTransforms/main.cpp`, do not exist in the `GraphicObject.h` modelled here. The example replay leaves out the material colours.
- The mesh and image factories, GLUT, the camera and the frame loop of the example program are I/O. The meshes and image become handles passed to `InitScene`.
- InitScene: does not itself state the world matrix chain or the world positions. They follow from `ExampleShape`, which it ensures, through `ChainOfFour`, `ExampleTexturedTrianglePos` and `ExampleQuadPos`.
