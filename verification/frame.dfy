/*
 * The voxel frame buffer: a dense 8 x 8 x 8 cube of brightness bytes,
 * stored layer-major as [y][x][z] and mutated in place by animations.
 */
module Frames {

  /** An unsigned byte (Rust `u8`). */
  type u8 = v: int | 0 <= v < 256

  /** Edge length of the cube (Frame::LAYERS, Frame::ROWS, Frame::COLUMNS). */
  const Size: nat := 8

  /** Number of voxels in a frame. */
  const Count: nat := 512

  /** One 8 x 8 layer, indexed [x][z]. */
  type Layer = seq<seq<u8>>

  /** The value of a whole frame, indexed [y][x][z] like the storage. */
  type Voxels = seq<seq<seq<u8>>>

  /** A traversal item: (x, y, z, value), in the order the iterator yields it. */
  type Pixel = (u8, u8, u8, u8)

  predicate InRange(x: int, y: int, z: int)
  {
    0 <= x < Size && 0 <= y < Size && 0 <= z < Size
  }

  ghost predicate IsLayer(l: Layer)
  {
    |l| == Size && forall x :: 0 <= x < Size ==> |l[x]| == Size
  }

  ghost predicate IsCube(v: Voxels)
  {
    |v| == Size && forall y :: 0 <= y < Size ==> IsLayer(v[y])
  }

  /** Position of voxel (x, y, z) in the traversal: y outermost, then x, then z. */
  function Index(x: nat, y: nat, z: nat): nat
  {
    y * 64 + x * 8 + z
  }

  /** The frame that Frame::new produces: every voxel off. */
  function Blank(): (v: Voxels)
    ensures IsCube(v)
    ensures forall y, x, z :: InRange(x, y, z) ==> v[y][x][z] == 0
  {
    seq(Size, y => seq(Size, x => seq(Size, z => 0)))
  }

  /** The frame `v` after `set(x, y, z, val)`. */
  function SetVoxel(v: Voxels, x: nat, y: nat, z: nat, val: u8): Voxels
    requires IsCube(v) && InRange(x, y, z)
  {
    v[y := v[y][x := v[y][x][z := val]]]
  }

  /** Reading back a voxel just written gives the written value; every other voxel is untouched. */
  lemma SetVoxelGetSet(v: Voxels, x: nat, y: nat, z: nat, val: u8)
    requires IsCube(v) && InRange(x, y, z)
    ensures IsCube(SetVoxel(v, x, y, z, val))
    ensures SetVoxel(v, x, y, z, val)[y][x][z] == val
    ensures forall x', y', z' :: InRange(x', y', z') && (x', y', z') != (x, y, z) ==>
              SetVoxel(v, x, y, z, val)[y'][x'][z'] == v[y'][x'][z']
  {
    var w := SetVoxel(v, x, y, z, val);
    assert IsLayer(w[y]) by {
      forall x' | 0 <= x' < Size ensures |w[y][x']| == Size {
        if x' != x { assert w[y][x'] == v[y][x']; }
      }
    }
    forall y' | 0 <= y' < Size ensures IsLayer(w[y']) {
      if y' != y { assert w[y'] == v[y']; }
    }
  }

  /** Row x of layer y after every voxel has been rewritten by `f(x, y, z, old value)`. */
  function MapRow(v: Voxels, f: (u8, u8, u8, u8) -> u8, y: nat, x: nat): (row: seq<u8>)
    requires IsCube(v) && y < Size && x < Size
    ensures |row| == Size
    ensures forall z :: 0 <= z < Size ==> row[z] == f(x, y, z, v[y][x][z])
  {
    seq(Size, z requires 0 <= z < Size => f(x, y, z, v[y][x][z]))
  }

  /** Layer y after every voxel has been rewritten by `f(x, y, z, old value)`. */
  function MapLayer(v: Voxels, f: (u8, u8, u8, u8) -> u8, y: nat): (l: Layer)
    requires IsCube(v) && y < Size
    ensures IsLayer(l)
    ensures forall x :: 0 <= x < Size ==> l[x] == MapRow(v, f, y, x)
  {
    seq(Size, x requires 0 <= x < Size => MapRow(v, f, y, x))
  }

  /** The frame `v` after every voxel has been rewritten by `f(x, y, z, old value)`. */
  function MapVoxels(v: Voxels, f: (u8, u8, u8, u8) -> u8): (w: Voxels)
    requires IsCube(v)
    ensures IsCube(w)
    ensures forall y, x, z :: InRange(x, y, z) ==> w[y][x][z] == f(x, y, z, v[y][x][z])
  {
    seq(Size, y requires 0 <= y < Size => MapLayer(v, f, y))
  }

  /** The update a caller makes when it writes `val` through the item for (x, y, z) only. */
  function PointWrite(x: nat, y: nat, z: nat, val: u8): (u8, u8, u8, u8) -> u8
  {
    (x': u8, y': u8, z': u8, prev: u8) => if (x', y', z') == (x, y, z) then val else prev
  }

  /**
   * Writing `val` through the pixels_mut item for (x, y, z), and leaving the
   * other items alone, changes the frame exactly as `set(x, y, z, val)` does.
   */
  lemma PointWriteIsSet(v: Voxels, x: nat, y: nat, z: nat, val: u8)
    requires IsCube(v) && InRange(x, y, z)
    ensures MapVoxels(v, PointWrite(x, y, z, val)) == SetVoxel(v, x, y, z, val)
  {
    var m := MapVoxels(v, PointWrite(x, y, z, val));
    var s := SetVoxel(v, x, y, z, val);
    SetVoxelGetSet(v, x, y, z, val);
    forall y' | 0 <= y' < Size ensures m[y'] == s[y'] {
      forall x' | 0 <= x' < Size ensures m[y'][x'] == s[y'][x'] {
        assert forall z' :: 0 <= z' < Size ==> m[y'][x'][z'] == s[y'][x'][z'];
      }
    }
  }

  /** Concatenation of a sequence of chunks (what `flat_map` does). */
  function Flatten<T>(chunks: seq<seq<T>>): seq<T>
  {
    if chunks == [] then [] else chunks[0] + Flatten(chunks[1..])
  }

  /** With chunks of equal length n, item b of chunk a lands at position a * n + b. */
  lemma {:induction false} FlattenAt<T>(chunks: seq<seq<T>>, n: nat, a: nat, b: nat)
    requires forall k :: 0 <= k < |chunks| ==> |chunks[k]| == n
    requires a < |chunks| && b < n
    ensures |Flatten(chunks)| == |chunks| * n
    ensures a * n + b < |Flatten(chunks)|
    ensures Flatten(chunks)[a * n + b] == chunks[a][b]
  {
    FlattenLength(chunks, n);
    if a > 0 {
      FlattenAt(chunks[1..], n, a - 1, b);
      assert a * n + b == n + ((a - 1) * n + b);
    }
  }

  lemma {:induction false} FlattenLength<T>(chunks: seq<seq<T>>, n: nat)
    requires forall k :: 0 <= k < |chunks| ==> |chunks[k]| == n
    ensures |Flatten(chunks)| == |chunks| * n
  {
    if chunks != [] {
      FlattenLength(chunks[1..], n);
    }
  }

  /** Appending one more chunk appends its items. */
  lemma FlattenSnoc<T>(chunks: seq<seq<T>>, n: nat)
    requires n < |chunks|
    ensures Flatten(chunks[..n + 1]) == Flatten(chunks[..n]) + chunks[n]
  {
    FlattenAppend(chunks[..n], [chunks[n]]);
    assert chunks[..n + 1] == chunks[..n] + [chunks[n]];
    assert Flatten([chunks[n]]) == chunks[n] + Flatten([]);
  }

  /** Flatten distributes over concatenation. */
  lemma {:induction false} FlattenAppend<T>(s: seq<seq<T>>, t: seq<seq<T>>)
    ensures Flatten(s + t) == Flatten(s) + Flatten(t)
  {
    if s == [] {
      assert s + t == t;
    } else {
      assert (s + t)[0] == s[0];
      assert (s + t)[1..] == s[1..] + t;
      FlattenAppend(s[1..], t);
    }
  }

  lemma AppendAssoc<T>(a: seq<T>, b: seq<T>, c: seq<T>)
    ensures a + b + c == a + (b + c)
  {
  }

  /** The items of row x of layer y, in z order. */
  function RowPixels(v: Voxels, y: nat, x: nat): (row: seq<Pixel>)
    requires IsCube(v) && y < Size && x < Size
    ensures |row| == Size
    ensures forall z :: 0 <= z < Size ==> row[z] == (x as u8, y as u8, z as u8, v[y][x][z])
  {
    seq(Size, z requires 0 <= z < Size => (x as u8, y as u8, z as u8, v[y][x][z]))
  }

  /** The rows of layer y, in x order. */
  function LayerRowPixels(v: Voxels, y: nat): (rows: seq<seq<Pixel>>)
    requires IsCube(v) && y < Size
    ensures |rows| == Size
    ensures forall x :: 0 <= x < Size ==> rows[x] == RowPixels(v, y, x)
  {
    seq(Size, x requires 0 <= x < Size => RowPixels(v, y, x))
  }

  /** The items of layer y: x outer, z inner. */
  function LayerPixels(v: Voxels, y: nat): (p: seq<Pixel>)
    requires IsCube(v) && y < Size
    ensures |p| == 64
  {
    FlattenLength(LayerRowPixels(v, y), Size);
    Flatten(LayerRowPixels(v, y))
  }

  /** The layers of the traversal, in y order. */
  function FrameLayerPixels(v: Voxels): (layers: seq<seq<Pixel>>)
    requires IsCube(v)
    ensures |layers| == Size
    ensures forall y :: 0 <= y < Size ==> layers[y] == LayerPixels(v, y)
  {
    seq(Size, y requires 0 <= y < Size => LayerPixels(v, y))
  }

  /** The whole traversal that `pixels()` yields. */
  function PixelsOf(v: Voxels): seq<Pixel>
    requires IsCube(v)
  {
    Flatten(FrameLayerPixels(v))
  }

  /** The traversal has 512 items; item Index(x, y, z) is (x, y, z, v[y][x][z]). */
  lemma {:induction false} PixelsAt(v: Voxels, x: nat, y: nat, z: nat)
    requires IsCube(v) && InRange(x, y, z)
    ensures |PixelsOf(v)| == Count
    ensures PixelsOf(v)[Index(x, y, z)] == (x as u8, y as u8, z as u8, v[y][x][z])
  {
    FlattenAt(LayerRowPixels(v, y), Size, x, z);
    FlattenAt(FrameLayerPixels(v), 64, y, x * 8 + z);
  }

  /** Every position of the traversal belongs to exactly the voxel that Index maps there. */
  lemma IndexDecode(i: nat)
    requires i < Count
    ensures InRange(i / 8 % 8, i / 64, i % 8)
    ensures Index(i / 8 % 8, i / 64, i % 8) == i
  {
  }

  /** Index is injective on the cube and orders voxels y first, then x, then z. */
  lemma IndexOrder(x: nat, y: nat, z: nat, x': nat, y': nat, z': nat)
    requires InRange(x, y, z) && InRange(x', y', z')
    ensures Index(x, y, z) < Index(x', y', z') <==>
              y < y' || (y == y' && x < x') || (y == y' && x == x' && z < z')
  {
  }

  /** The fixed-size voxel buffer. */
  class Frame {
    const cells: array3<u8>

    ghost predicate Valid()
      reads this
    {
      cells.Length0 == Size && cells.Length1 == Size && cells.Length2 == Size
    }

    /** Frame::new: a fresh frame with every voxel 0. */
    constructor ()
      ensures Valid() && fresh(cells)
      ensures Layers() == Blank()
    {
      cells := new u8[Size, Size, Size]((y, x, z) => 0);
      new;
      CubeExt(Layers(), Blank());
    }

    /** Frame::get: the value at (x, y, z); storage order is [y][x][z]. */
    function Get(x: nat, y: nat, z: nat): u8
      reads this, cells
      requires Valid() && InRange(x, y, z)
    {
      cells[y, x, z]
    }

    /** Frame::layers: the whole buffer as a value, layer-major. */
    function Layers(): (v: Voxels)
      reads this, cells
      requires Valid()
      ensures IsCube(v)
      ensures forall y, x, z :: InRange(x, y, z) ==> v[y][x][z] == Get(x, y, z)
    {
      seq(Size, y requires 0 <= y < Size reads this, cells =>
        seq(Size, x requires 0 <= x < Size reads this, cells =>
          seq(Size, z requires 0 <= z < Size reads this, cells => cells[y, x, z])))
    }

    /** Frame::pixels: 512 items, the one at Index(x, y, z) being (x, y, z, get(x, y, z)). */
    function Pixels(): (p: seq<Pixel>)
      reads this, cells
      requires Valid()
      ensures |p| == Count
      ensures forall x: nat, y: nat, z: nat :: InRange(x, y, z) ==>
                p[Index(x, y, z)] == (x as u8, y as u8, z as u8, Get(x, y, z))
    {
      var v := Layers();
      PixelsAt(v, 0, 0, 0);
      PixelsAtAll(v);
      PixelsOf(v)
    }

    /** Frame::set: overwrite one voxel. */
    method Set(x: nat, y: nat, z: nat, val: u8)
      requires Valid() && InRange(x, y, z)
      modifies cells
      ensures Valid()
      ensures Layers() == SetVoxel(old(Layers()), x, y, z, val)
      ensures Get(x, y, z) == val
      ensures forall x', y', z' :: InRange(x', y', z') && (x', y', z') != (x, y, z) ==>
                Get(x', y', z') == old(Get(x', y', z'))
    {
      ghost var before := Layers();
      cells[y, x, z] := val;
      SetVoxelGetSet(before, x, y, z, val);
      CubeExt(Layers(), SetVoxel(before, x, y, z, val));
    }

    /** Frame::zero: the frame becomes equal to Frame::new(), whatever it held. */
    method Zero()
      requires Valid()
      modifies cells
      ensures Valid()
      ensures Layers() == Blank()
    {
      forall y, x, z | 0 <= y < Size && 0 <= x < Size && 0 <= z < Size {
        cells[y, x, z] := 0;
      }
      CubeExt(Layers(), Blank());
    }

    /**
     * Frame::layer_mut: the borrowed layer n ends up holding `layer`
     * (whatever the caller wrote through the reference); no other layer changes.
     */
    method LayerMut(n: nat, layer: Layer)
      requires Valid() && n < Size && IsLayer(layer)
      modifies cells
      ensures Valid()
      ensures Layers() == old(Layers())[n := layer]
    {
      ghost var before := Layers();
      forall x, z | 0 <= x < Size && 0 <= z < Size {
        cells[n, x, z] := layer[x][z];
      }
      CubeExt(Layers(), before[n := layer]);
    }

    /**
     * Frame::pixels_mut, consumed by a caller that writes `f(x, y, z, old)`
     * through each item, in traversal order.
     */
    method PixelsMut(f: (u8, u8, u8, u8) -> u8)
      requires Valid()
      modifies cells
      ensures Valid()
      ensures Layers() == MapVoxels(old(Layers()), f)
    {
      ghost var before := Layers();
      var y := 0;
      while y < Size
        invariant 0 <= y <= Size
        invariant forall y', x', z' :: InRange(x', y', z') ==>
                    cells[y', x', z'] == if y' < y then f(x', y', z', before[y'][x'][z']) else before[y'][x'][z']
      {
        var x := 0;
        while x < Size
          invariant 0 <= x <= Size
          invariant forall y', x', z' :: InRange(x', y', z') ==>
                      cells[y', x', z'] ==
                        if y' < y || (y' == y && x' < x) then f(x', y', z', before[y'][x'][z'])
                        else before[y'][x'][z']
        {
          var z := 0;
          while z < Size
            invariant 0 <= z <= Size
            invariant forall y', x', z' :: InRange(x', y', z') ==>
                        cells[y', x', z'] ==
                          if y' < y || (y' == y && x' < x) || (y' == y && x' == x && z' < z)
                          then f(x', y', z', before[y'][x'][z'])
                          else before[y'][x'][z']
          {
            cells[y, x, z] := f(x, y, z, cells[y, x, z]);
            z := z + 1;
          }
          x := x + 1;
        }
        y := y + 1;
      }
      CubeExt(Layers(), MapVoxels(before, f));
    }
  }

  /** Two cubes that agree voxel by voxel are equal. */
  lemma CubeExt(v: Voxels, w: Voxels)
    requires IsCube(v) && IsCube(w)
    requires forall y, x, z :: InRange(x, y, z) ==> v[y][x][z] == w[y][x][z]
    ensures v == w
  {
    forall y | 0 <= y < Size ensures v[y] == w[y] {
      forall x | 0 <= x < Size ensures v[y][x] == w[y][x] {
        assert forall z :: 0 <= z < Size ==> v[y][x][z] == w[y][x][z];
      }
    }
  }

  lemma {:induction false} PixelsAtAll(v: Voxels)
    requires IsCube(v)
    ensures forall x: nat, y: nat, z: nat :: InRange(x, y, z) ==>
              Index(x, y, z) < |PixelsOf(v)| &&
              PixelsOf(v)[Index(x, y, z)] == (x as u8, y as u8, z as u8, v[y][x][z])
  {
    forall x: nat, y: nat, z: nat | InRange(x, y, z)
      ensures Index(x, y, z) < |PixelsOf(v)|
      ensures PixelsOf(v)[Index(x, y, z)] == (x as u8, y as u8, z as u8, v[y][x][z])
    {
      PixelsAt(v, x, y, z);
    }
  }
}
