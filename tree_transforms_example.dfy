/**
 * The scene built by the tree-transforms exercise: a root scene, a triangle
 * under it, a textured triangle under that one and a textured quad at the
 * bottom, each child placed two units along x from its parent.
 */
module TreeTransformsExample {
  import opened LinearAlgebra
  import opened Transforms
  import opened GraphicObjects

  /** In a root-to-leaf chain of four nodes the leaf's world matrix is the product of the four local matrices in root-first order. */
  lemma ChainOfFour(nodes: seq<GraphicObject>)
    requires WellFormed(nodes) && |nodes| >= 4
    requires nodes[0].IsRoot()
    requires nodes[1].parent == Some(0) && nodes[2].parent == Some(1) && nodes[3].parent == Some(2)
    ensures WorldTransform(nodes, 3).mat ==
      Mul(Mul(Mul(nodes[0].transform.mat, nodes[1].transform.mat), nodes[2].transform.mat), nodes[3].transform.mat)
  {
  }

  /** The matrix of a pure translation by `x` along the x axis. */
  function TranslationX(x: real): Mat4 {
    Identity().(c3 := Vec4(x, 0.0, 0.0, 1.0))
  }

  /** Two translations along x compose to one by the sum. */
  lemma TranslationsAdd(a: real, b: real)
    ensures Mul(TranslationX(a), TranslationX(b)) == TranslationX(a + b)
  {
  }

  /**
   * The shape the exercise builds: a root with a chain of three descendants,
   * the first at the origin of its parent and the other two two units along
   * their parent's x axis.
   */
  predicate ExampleShape(nodes: seq<GraphicObject>) {
    && WellFormed(nodes) && |nodes| == 4
    && nodes[0].IsRoot() && nodes[0].transform == Default()
    && nodes[1].parent == Some(0) && nodes[1].transform.mat == TranslationX(0.0)
    && nodes[2].parent == Some(1) && nodes[2].transform.mat == TranslationX(2.0)
    && nodes[3].parent == Some(2) && nodes[3].transform.mat == TranslationX(2.0)
  }

  /** The triangle sits at its parent's origin under a default root, so its world transform is the default one. */
  lemma ExampleTriangleWorld(nodes: seq<GraphicObject>)
    requires ExampleShape(nodes)
    ensures WorldTransform(nodes, 1) == Default()
  {
    assert TranslationX(0.0) == Identity();
    ComposeDefault(nodes[1].transform);
  }

  /** Proof step for `ExampleTexturedTrianglePos`: the world transform of the textured triangle is its local one. */
  lemma ExampleTexturedTriangleWorld(nodes: seq<GraphicObject>)
    requires ExampleShape(nodes)
    ensures WorldTransform(nodes, 2) == nodes[2].transform
  {
    ExampleTriangleWorld(nodes);
    ComposeDefault(nodes[2].transform);
  }

  /** Proof step for `ExampleQuadPos`: the quad's world transform is its parent's local one composed with its own. */
  lemma ExampleQuadWorld(nodes: seq<GraphicObject>)
    requires ExampleShape(nodes)
    ensures WorldTransform(nodes, 3) == Compose(nodes[2].transform, nodes[3].transform)
  {
    ExampleTexturedTriangleWorld(nodes);
  }

  /** Proof step for `ExampleQuadPos`: the quad's world matrix is the translation by 4 along x. */
  lemma ExampleQuadWorldMatrix(nodes: seq<GraphicObject>)
    requires ExampleShape(nodes)
    ensures WorldTransform(nodes, 3).mat == TranslationX(4.0)
  {
    ExampleQuadWorld(nodes);
    TranslationsAdd(2.0, 2.0);
  }

  /** Proof step for `ExampleTexturedTrianglePos`: the translation column of the textured triangle's world matrix. */
  lemma ExampleTexturedTriangleColumn(nodes: seq<GraphicObject>)
    requires ExampleShape(nodes)
    ensures WorldTransform(nodes, 2).mat.c3 == Vec4(2.0, 0.0, 0.0, 1.0)
  {
    ExampleTexturedTriangleWorld(nodes);
  }

  /** Proof step for `ExampleQuadPos`: the translation column of the quad's world matrix. */
  lemma ExampleQuadColumn(nodes: seq<GraphicObject>)
    requires ExampleShape(nodes)
    ensures WorldTransform(nodes, 3).mat.c3 == Vec4(4.0, 0.0, 0.0, 1.0)
  {
    ExampleQuadWorldMatrix(nodes);
  }

  /** In the exercise's scene the textured triangle sits at x = 2 in world space. */
  lemma ExampleTexturedTrianglePos(nodes: seq<GraphicObject>)
    requires ExampleShape(nodes)
    ensures WorldTransform(nodes, 2).Pos() == Vec3(2.0, 0.0, 0.0)
  {
    ExampleTexturedTriangleColumn(nodes);
  }

  /** In the exercise's scene the textured quad sits at x = 4 in world space: its own offset added to its parent's. */
  lemma ExampleQuadPos(nodes: seq<GraphicObject>)
    requires ExampleShape(nodes)
    ensures WorldTransform(nodes, 3).Pos() == Vec3(4.0, 0.0, 0.0)
  {
    ExampleQuadColumn(nodes);
  }

  /** The node one step of the exercise adds: a fresh child of `p`, moved to `pos`, with a mesh and optionally an image. */
  function PlacedChild(p: nat, pos: Vec3, mesh: MeshId, img: Option<ImageId>): (o: GraphicObject)
    ensures o.parent == Some(p) && o.transform.Pos() == pos
    ensures o.transform.Left() == Vec3(1.0, 0.0, 0.0) && o.transform.Up() == Vec3(0.0, 1.0, 0.0) && o.transform.Fwd() == Vec3(0.0, 0.0, 1.0)
    ensures o.HasMesh() && o.Mesh() == mesh && o.texture.image == img
  {
    var o0 := NewObject(Some(p));
    o0.(transform := o0.transform.WithPos(pos), mesh := Some(mesh), texture := Texture(img))
  }

  /**
   * One step of the exercise's construction: emplace a child of `p`, assign
   * its position, set its mesh and, when there is one, hand its texture the image.
   */
  method AddPlacedChild(scene: Scene, p: nat, pos: Vec3, mesh: MeshId, img: Option<ImageId>) returns (c: nat)
    requires scene.Valid() && p < |scene.nodes|
    modifies scene
    ensures scene.Valid()
    ensures c == |old(scene.nodes)| && scene.nodes == old(scene.nodes) + [PlacedChild(p, pos, mesh, img)]
  {
    c := scene.EmplaceChild(p);
    scene.SetPos(c, pos);
    scene.SetMesh(c, Some(mesh));
    if img.Some? {
      scene.SetTextureImage(c, img);
    }
  }

  /** Builds the exercise's scene, as its scene-construction code does: the shape above, with the meshes and images it hands out. */
  method InitScene(triangleMesh: MeshId, quadMesh: MeshId, chessImage: ImageId)
    returns (scene: Scene, triangle: nat, texturedTriangle: nat, texturedQuad: nat)
    ensures fresh(scene) && scene.Valid() && ExampleShape(scene.nodes)
    ensures triangle == 1 && texturedTriangle == 2 && texturedQuad == 3
    ensures scene.nodes[triangle].mesh == Some(triangleMesh) && scene.nodes[triangle].texture.image.None?
    ensures scene.nodes[texturedTriangle].mesh == Some(triangleMesh)
    ensures scene.nodes[texturedTriangle].texture.image == Some(chessImage)
    ensures scene.nodes[texturedQuad].mesh == Some(quadMesh)
    ensures scene.nodes[texturedQuad].texture.image == Some(chessImage)
  {
    scene := new Scene();
    triangle := AddPlacedChild(scene, 0, Vec3(0.0, 0.0, 0.0), triangleMesh, None);
    texturedTriangle := AddPlacedChild(scene, triangle, Vec3(2.0, 0.0, 0.0), triangleMesh, Some(chessImage));
    texturedQuad := AddPlacedChild(scene, texturedTriangle, Vec3(2.0, 0.0, 0.0), quadMesh, Some(chessImage));
  }
}
