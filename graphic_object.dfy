/**
 * The scene-graph node. A node owns a local Transform, a colour, a texture and
 * an optional shared mesh; its world transform is derived on demand by walking
 * up the parent chain.
 *
 * Nodes live in an arena, a sequence in which a node refers to its parent by
 * index. Children are only ever created under a parent that already exists,
 * so every parent index is smaller than its child's index: the arena is a
 * forest by construction and the upward walk terminates.
 */
module GraphicObjects {
  import opened LinearAlgebra
  import opened Transforms
  import opened BoundingBoxes

  datatype Option<T> = None | Some(value: T)

  newtype byte = x: int | 0 <= x < 256

  /** An 8-bit-per-channel colour (glm `u8vec3`). */
  datatype Color = Color(r: byte, g: byte, b: byte)

  /** Opaque handle to a shared mesh; `None` in a slot plays the null `shared_ptr`. */
  type MeshId = nat

  /** Opaque handle to a shared image. */
  type ImageId = nat

  /** A texture, seen only through the image it was given. */
  datatype Texture = Texture(image: Option<ImageId>)

  datatype GraphicObject = GraphicObject(
    parent: Option<nat>,
    transform: Transform,
    color: Color,
    texture: Texture,
    mesh: Option<MeshId>)
  {
    predicate IsRoot() {
      parent.None?
    }

    /** `hasMesh()`: the mesh slot is not null. */
    predicate HasMesh() {
      mesh.Some?
    }

    /** `mesh()` dereferences the mesh slot, so it may only be called on a node that has one. */
    function Mesh(): (m: MeshId)
      requires HasMesh()
      ensures mesh == Some(m)
    {
      mesh.value
    }

    /**
     * `boundingBox()`: this node's own box moved into its parent's frame by
     * its local matrix. The local box and the matrix-times-box operation are
     * declared in the headers without a body, so both are parameters.
     */
    function BoxInParent(localBox: BoundingBox, transformBox: (Mat4, BoundingBox) -> BoundingBox): BoundingBox
    {
      transformBox(transform.mat, localBox)
    }
  }

  /** A freshly constructed node: identity transform, white, no texture image and no mesh. */
  function NewObject(parent: Option<nat>): (o: GraphicObject)
    ensures o.parent == parent
    ensures o.transform.mat == Identity()
    ensures o.color == Color(255, 255, 255)
    ensures o.texture.image.None?
    ensures !o.HasMesh()
  {
    GraphicObject(parent, Default(), Color(255, 255, 255), Texture(None), None)
  }

  /** Every parent index refers to an earlier node. */
  predicate WellFormed(nodes: seq<GraphicObject>) {
    forall i :: 0 <= i < |nodes| && nodes[i].parent.Some? ==> nodes[i].parent.value < i
  }

  /**
   * `worldTransform()`: a root's own transform, otherwise the parent's world
   * transform composed with the local one.
   */
  function WorldTransform(nodes: seq<GraphicObject>, i: nat): (t: Transform)
    requires WellFormed(nodes) && i < |nodes|
    ensures nodes[i].IsRoot() ==> t == nodes[i].transform
    decreases i
  {
    match nodes[i].parent
    case None => nodes[i].transform
    case Some(p) => Compose(WorldTransform(nodes, p), nodes[i].transform)
  }

  /**
   * The ancestor path of node `i`, root first and `i` last: it starts at a
   * root, each entry is the parent of the next, and no entry exceeds `i`.
   */
  function Path(nodes: seq<GraphicObject>, i: nat): (path: seq<nat>)
    requires WellFormed(nodes) && i < |nodes|
    ensures |path| >= 1 && path[|path| - 1] == i
    ensures forall k :: 0 <= k < |path| ==> path[k] <= i
    ensures nodes[path[0]].IsRoot()
    ensures forall k :: 0 < k < |path| ==> nodes[path[k]].parent == Some(path[k - 1])
    decreases i
  {
    match nodes[i].parent
    case None => [i]
    case Some(p) => Path(nodes, p) + [i]
  }

  /** The left-to-right product of the local matrices of the nodes on `path`. */
  function PathProduct(nodes: seq<GraphicObject>, path: seq<nat>): Mat4
    requires forall k :: 0 <= k < |path| ==> path[k] < |nodes|
  {
    if path == [] then Identity()
    else Mul(PathProduct(nodes, path[..|path| - 1]), nodes[path[|path| - 1]].transform.mat)
  }

  /**
   * A node's world matrix is the product of the local matrices from its root
   * down to itself, the root's outermost.
   */
  lemma {:induction false} WorldIsPathProduct(nodes: seq<GraphicObject>, i: nat)
    requires WellFormed(nodes) && i < |nodes|
    ensures WorldTransform(nodes, i).mat == PathProduct(nodes, Path(nodes, i))
    decreases i
  {
    var path := Path(nodes, i);
    match nodes[i].parent
    case None =>
      assert path[..0] == [];
      MulIdentityLeft(nodes[i].transform.mat);
    case Some(p) =>
      WorldIsPathProduct(nodes, p);
      assert path[..|path| - 1] == Path(nodes, p);
  }

  /**
   * A node's world transform is fixed by the parents and local transforms of
   * the nodes on its ancestor path: any other arena agreeing on those gives
   * the same world transform.
   */
  lemma {:induction false} WorldLocality(nodes: seq<GraphicObject>, other: seq<GraphicObject>, i: nat)
    requires WellFormed(nodes) && WellFormed(other) && i < |nodes| && i < |other|
    requires forall k :: k in Path(nodes, i) ==>
      k < |other| && other[k].parent == nodes[k].parent && other[k].transform == nodes[k].transform
    ensures WorldTransform(other, i) == WorldTransform(nodes, i)
    decreases i
  {
    var path := Path(nodes, i);
    assert path[|path| - 1] == i;
    match nodes[i].parent
    case None =>
    case Some(p) =>
      assert Path(nodes, p) <= path;
      WorldLocality(nodes, other, p);
  }

  /**
   * Changing the local transform of a node that is not on `i`'s ancestor path
   * leaves `i`'s world transform unchanged.
   */
  lemma SetTransformElsewhere(nodes: seq<GraphicObject>, j: nat, t: Transform, i: nat)
    requires WellFormed(nodes) && j < |nodes| && i < |nodes|
    requires j !in Path(nodes, i)
    ensures WellFormed(nodes[j := nodes[j].(transform := t)])
    ensures WorldTransform(nodes[j := nodes[j].(transform := t)], i) == WorldTransform(nodes, i)
  {
    WorldLocality(nodes, nodes[j := nodes[j].(transform := t)], i);
  }

  /** A strict descendant of `i` is never on `i`'s ancestor path. */
  lemma DescendantNotOnPath(nodes: seq<GraphicObject>, i: nat, d: nat)
    requires WellFormed(nodes) && i < |nodes| && d < |nodes|
    requires i in Path(nodes, d) && d != i
    ensures d !in Path(nodes, i)
  {
  }

  /** A sibling of `i` (another node with the same parent, or another root) is never on `i`'s ancestor path. */
  lemma SiblingNotOnPath(nodes: seq<GraphicObject>, i: nat, s: nat)
    requires WellFormed(nodes) && i < |nodes| && s < |nodes|
    requires s != i && nodes[s].parent == nodes[i].parent
    ensures s !in Path(nodes, i)
  {
  }

  /** Two arenas of the same size whose nodes agree on parents and local transforms agree on every world transform. */
  lemma SameTreeSameWorlds(nodes: seq<GraphicObject>, other: seq<GraphicObject>)
    requires WellFormed(nodes) && |other| == |nodes|
    requires forall k :: 0 <= k < |nodes| ==> other[k].parent == nodes[k].parent && other[k].transform == nodes[k].transform
    ensures WellFormed(other)
    ensures forall k :: 0 <= k < |nodes| ==> WorldTransform(other, k) == WorldTransform(nodes, k)
  {
    forall k | 0 <= k < |nodes|
      ensures WorldTransform(other, k) == WorldTransform(nodes, k)
    {
      WorldLocality(nodes, other, k);
    }
  }

  /** Appending a node whose parent (if any) already exists keeps the arena well formed and every existing world transform. */
  lemma AppendKeepsWorlds(nodes: seq<GraphicObject>, o: GraphicObject)
    requires WellFormed(nodes)
    requires o.parent.Some? ==> o.parent.value < |nodes|
    ensures WellFormed(nodes + [o])
    ensures forall k :: 0 <= k < |nodes| ==> WorldTransform(nodes + [o], k) == WorldTransform(nodes, k)
  {
    var grown := nodes + [o];
    assert forall k :: 0 <= k < |nodes| ==> grown[k] == nodes[k];
    forall k | 0 <= k < |nodes|
      ensures WorldTransform(grown, k) == WorldTransform(nodes, k)
    {
      WorldLocality(nodes, grown, k);
    }
  }

  /** A freshly appended child of `p` starts with its parent's world transform. */
  lemma FreshChildWorld(nodes: seq<GraphicObject>, p: nat)
    requires WellFormed(nodes) && p < |nodes|
    ensures WellFormed(nodes + [NewObject(Some(p))])
    ensures WorldTransform(nodes + [NewObject(Some(p))], |nodes|) == WorldTransform(nodes, p)
  {
    var grown := nodes + [NewObject(Some(p))];
    AppendKeepsWorlds(nodes, NewObject(Some(p)));
    assert WorldTransform(grown, |nodes|) == Compose(WorldTransform(grown, p), Default());
    ComposeDefault(WorldTransform(nodes, p));
  }

  /**
   * On a root, `boundingBox()` is the box moved by the node's world matrix:
   * a root's parent frame is world space.
   */
  lemma RootBoxIsWorldBox(nodes: seq<GraphicObject>, i: nat,
                          localBox: BoundingBox, transformBox: (Mat4, BoundingBox) -> BoundingBox)
    requires WellFormed(nodes) && i < |nodes| && nodes[i].IsRoot()
    ensures nodes[i].BoxInParent(localBox, transformBox) == transformBox(WorldTransform(nodes, i).mat, localBox)
  {
  }

  /**
   * `boundingBox()` involves only the node's own transform and box: unlike
   * its world transform, it does not change when any other node's transform
   * does, ancestors included. This holds because `BoxInParent` reads the
   * node's local matrix and never its world transform.
   */
  lemma BoxIgnoresOtherTransforms(nodes: seq<GraphicObject>, j: nat, t: Transform, i: nat,
                                  localBox: BoundingBox, transformBox: (Mat4, BoundingBox) -> BoundingBox)
    requires j < |nodes| && i < |nodes| && j != i
    ensures nodes[j := nodes[j].(transform := t)][i].BoxInParent(localBox, transformBox) ==
            nodes[i].BoxInParent(localBox, transformBox)
  {
  }

  /**
   * The scene: the arena of every GraphicObject, updated in place by the
   * scene-construction API and by callers who assign through the references
   * the accessors hand out.
   */
  class Scene {
    var nodes: seq<GraphicObject>

    ghost predicate Valid()
      reads this
    {
      WellFormed(nodes)
    }

    /** A scene holding one default-constructed root. */
    constructor ()
      ensures Valid() && nodes == [NewObject(None)]
    {
      nodes := [NewObject(None)];
    }

    /** `emplaceChild()`: appends a fresh child of `p` and returns its index; existing world transforms are unchanged. */
    method EmplaceChild(p: nat) returns (c: nat)
      requires Valid() && p < |nodes|
      modifies this
      ensures Valid()
      ensures c == |old(nodes)| && nodes == old(nodes) + [NewObject(Some(p))]
      ensures forall k :: 0 <= k < c ==> WorldTransform(nodes, k) == old(WorldTransform(nodes, k))
      ensures WorldTransform(nodes, c) == WorldTransform(nodes, p)
    {
      AppendKeepsWorlds(nodes, NewObject(Some(p)));
      FreshChildWorld(nodes, p);
      c := |nodes|;
      nodes := nodes + [NewObject(Some(p))];
    }

    /**
     * Assignment through `transform()`: only node `i`'s transform changes,
     * and only the world transforms of `i` and its descendants can move.
     */
    method SetTransform(i: nat, t: Transform)
      requires Valid() && i < |nodes|
      modifies this
      ensures Valid()
      ensures nodes == old(nodes)[i := old(nodes)[i].(transform := t)]
      ensures forall k :: 0 <= k < |nodes| && i !in old(Path(nodes, k)) ==>
        WorldTransform(nodes, k) == old(WorldTransform(nodes, k))
    {
      forall k | 0 <= k < |nodes| && i !in Path(nodes, k)
        ensures WorldTransform(nodes[i := nodes[i].(transform := t)], k) == WorldTransform(nodes, k)
      {
        SetTransformElsewhere(nodes, i, t, k);
      }
      nodes := nodes[i := nodes[i].(transform := t)];
    }

    /** Assignment through `transform().pos()`: only rows 0 to 2 of column 3 of node `i`'s matrix change. */
    method SetPos(i: nat, p: Vec3)
      requires Valid() && i < |nodes|
      modifies this
      ensures Valid()
      ensures nodes == old(nodes)[i := old(nodes)[i].(transform := old(nodes)[i].transform.WithPos(p))]
      ensures nodes[i].transform.Pos() == p
      ensures forall k :: 0 <= k < |nodes| && i !in old(Path(nodes, k)) ==>
        WorldTransform(nodes, k) == old(WorldTransform(nodes, k))
    {
      SetTransform(i, nodes[i].transform.WithPos(p));
    }

    /** Assignment through `color()`: only node `i`'s colour changes. */
    method SetColor(i: nat, c: Color)
      requires Valid() && i < |nodes|
      modifies this
      ensures Valid()
      ensures nodes == old(nodes)[i := old(nodes)[i].(color := c)]
      ensures forall k :: 0 <= k < |nodes| ==> WorldTransform(nodes, k) == old(WorldTransform(nodes, k))
    {
      SameTreeSameWorlds(nodes, nodes[i := nodes[i].(color := c)]);
      nodes := nodes[i := nodes[i].(color := c)];
    }

    /** Assignment through `texture()`: only node `i`'s texture changes. */
    method SetTexture(i: nat, tex: Texture)
      requires Valid() && i < |nodes|
      modifies this
      ensures Valid()
      ensures nodes == old(nodes)[i := old(nodes)[i].(texture := tex)]
      ensures forall k :: 0 <= k < |nodes| ==> WorldTransform(nodes, k) == old(WorldTransform(nodes, k))
    {
      SameTreeSameWorlds(nodes, nodes[i := nodes[i].(texture := tex)]);
      nodes := nodes[i := nodes[i].(texture := tex)];
    }

    /** `setTextureImage(img)`: hands the image to node `i`'s texture; nothing else changes. */
    method SetTextureImage(i: nat, img: Option<ImageId>)
      requires Valid() && i < |nodes|
      modifies this
      ensures Valid()
      ensures nodes == old(nodes)[i := old(nodes)[i].(texture := Texture(img))]
      ensures forall k :: 0 <= k < |nodes| ==> WorldTransform(nodes, k) == old(WorldTransform(nodes, k))
    {
      SetTexture(i, Texture(img));
    }

    /** `setMesh(p)`: only node `i`'s mesh slot changes, and it has a mesh afterwards exactly when `p` is not null. */
    method SetMesh(i: nat, m: Option<MeshId>)
      requires Valid() && i < |nodes|
      modifies this
      ensures Valid()
      ensures nodes == old(nodes)[i := old(nodes)[i].(mesh := m)]
      ensures nodes[i].HasMesh() <==> m.Some?
      ensures forall k :: 0 <= k < |nodes| ==> WorldTransform(nodes, k) == old(WorldTransform(nodes, k))
    {
      SameTreeSameWorlds(nodes, nodes[i := nodes[i].(mesh := m)]);
      nodes := nodes[i := nodes[i].(mesh := m)];
    }
  }
}
