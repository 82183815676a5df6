/**
 * `Ui`: a builder that collects interface elements, then `init` assembles one
 * vertex buffer and one index buffer out of all of them.
 *
 * `UiElement` is not part of this model. What `Ui` uses of it, `set_text_width`,
 * `vertices(dims, scale)` and `indices(offset)`, is given to the constructor
 * as three functions (`ElementOps`) about which nothing is assumed.
 */
module WindowUi {
  import opened Types

  /** Framebuffer dimensions, as `get_framebuffer_dimensions()` reports them. */
  datatype Dims = Dims(width: U32, height: U32)

  /** The `UiElement` methods `Ui` calls, for elements `E` with vertices `V`. */
  datatype ElementOps<!E, V> = ElementOps(
    setTextWidth: E -> E,
    vertices: (E, Dims) -> seq<V>,
    indices: (E, U16) -> seq<U16>)

  /** `vertices.len() as u16`: the cast keeps the low 16 bits. */
  function AsU16(n: nat): U16 {
    n % 0x1_0000
  }

  /** Every element after `set_text_width`. */
  function WithTextWidths<E, V>(ops: ElementOps<E, V>, es: seq<E>): seq<E> {
    seq(|es|, k requires 0 <= k < |es| => ops.setTextWidth(es[k]))
  }

  /** The vertices of the elements, one element after another. */
  function AllVertices<E, V>(ops: ElementOps<E, V>, es: seq<E>, dims: Dims): seq<V> {
    if es == [] then []
    else AllVertices(ops, es[..|es| - 1], dims) + ops.vertices(es[|es| - 1], dims)
  }

  /** The indices of the elements, one after another, each generated with the number of vertices before it (cast to `u16`). */
  function AllIndices<E, V>(ops: ElementOps<E, V>, es: seq<E>, dims: Dims): seq<U16> {
    if es == [] then []
    else
      var before := es[..|es| - 1];
      AllIndices(ops, before, dims) + ops.indices(es[|es| - 1], AsU16(|AllVertices(ops, before, dims)|))
  }

  /** The vertices of a prefix of the elements are a prefix of the vertices of all. */
  lemma {:induction false} AllVerticesPrefix<E, V>(ops: ElementOps<E, V>, es: seq<E>, dims: Dims, j: nat)
    requires j <= |es|
    ensures AllVertices(ops, es[..j], dims) <= AllVertices(ops, es, dims)
    decreases |es|
  {
    if j < |es| {
      assert es[..|es| - 1][..j] == es[..j];
      AllVerticesPrefix(ops, es[..|es| - 1], dims, j);
    } else {
      assert es[..j] == es;
    }
  }

  /** Likewise for the indices. */
  lemma {:induction false} AllIndicesPrefix<E, V>(ops: ElementOps<E, V>, es: seq<E>, dims: Dims, j: nat)
    requires j <= |es|
    ensures AllIndices(ops, es[..j], dims) <= AllIndices(ops, es, dims)
    decreases |es|
  {
    if j < |es| {
      assert es[..|es| - 1][..j] == es[..j];
      AllIndicesPrefix(ops, es[..|es| - 1], dims, j);
    } else {
      assert es[..j] == es;
    }
  }

  /**
   * Element `k`'s own vertices, and its own indices generated with offset the
   * vertex count of elements `0 .. k` (cast to `u16`), sit in the assembled
   * buffers right after those of elements `0 .. k`.
   */
  lemma ElementChunks<E, V>(ops: ElementOps<E, V>, es: seq<E>, dims: Dims, k: nat)
    requires k < |es|
    ensures var vs, before := ops.vertices(es[k], dims), |AllVertices(ops, es[..k], dims)|;
      && before + |vs| <= |AllVertices(ops, es, dims)|
      && AllVertices(ops, es, dims)[before .. before + |vs|] == vs
    ensures var offset := AsU16(|AllVertices(ops, es[..k], dims)|);
      var ix, before := ops.indices(es[k], offset), |AllIndices(ops, es[..k], dims)|;
      && before + |ix| <= |AllIndices(ops, es, dims)|
      && AllIndices(ops, es, dims)[before .. before + |ix|] == ix
  {
    assert es[..k + 1][..k] == es[..k];
    AllVerticesPrefix(ops, es, dims, k + 1);
    AllIndicesPrefix(ops, es, dims, k + 1);
  }

  /**
   * Below 65536 vertices in all, the `u16` cast never wraps: every element's
   * offset is exactly the number of vertices before it.
   */
  lemma OffsetsExact<E, V>(ops: ElementOps<E, V>, es: seq<E>, dims: Dims, k: nat)
    requires k <= |es| && |AllVertices(ops, es, dims)| < 0x1_0000
    ensures AsU16(|AllVertices(ops, es[..k], dims)|) == |AllVertices(ops, es[..k], dims)|
  {
    AllVerticesPrefix(ops, es, dims, k);
  }

  class Ui<E, V> {
    const ops: ElementOps<E, V>
    var vbo: Option<seq<V>>
    var ibo: Option<seq<U16>>
    var elements: seq<E>

    /** Both buffers exist, or neither: only `init` creates them, and it creates both. */
    ghost predicate Valid()
      reads this
    {
      vbo.Some? == ibo.Some?
    }

    /** `Ui::new`: no buffers and no elements yet. */
    constructor (ops: ElementOps<E, V>)
      ensures Valid() && this.ops == ops
      ensures vbo == None && ibo == None && elements == []
    {
      this.ops := ops;
      vbo := None;
      ibo := None;
      elements := [];
    }

    /** `element`: appends an element; once either buffer exists it panics instead. */
    method Element(element: E) returns (r: Outcome)
      requires Valid()
      modifies this`elements
      ensures Valid()
      ensures r == (if old(vbo).Some? || old(ibo).Some? then Panicked(AlreadyInitialized) else Done)
      ensures elements == (if r == Done then old(elements) + [element] else old(elements))
    {
      if vbo.Some? || ibo.Some? {
        return Panicked(AlreadyInitialized);
      }
      elements := elements + [element];
      r := Done;
    }

    /**
     * `init`: sets each element's text width, then builds the vertex buffer from
     * all elements' vertices and the index buffer from all elements' indices,
     * each with its running vertex offset. It checks nothing first, so a second
     * `init` rebuilds both buffers.
     */
    method Init(dims: Dims)
      modifies this`elements, this`vbo, this`ibo
      ensures Valid()
      ensures elements == WithTextWidths(ops, old(elements))
      ensures vbo == Some(AllVertices(ops, elements, dims))
      ensures ibo == Some(AllIndices(ops, elements, dims))
    {
      var vertices: seq<V> := [];
      var indices: seq<U16> := [];
      ghost var original := elements;
      var k := 0;
      while k < |elements|
        invariant 0 <= k <= |elements| == |original|
        invariant elements[..k] == WithTextWidths(ops, original[..k])
        invariant elements[k..] == original[k..]
        invariant vertices == AllVertices(ops, elements[..k], dims)
        invariant indices == AllIndices(ops, elements[..k], dims)
      {
        var element := ops.setTextWidth(elements[k]);
        assert elements[k..][0] == original[k..][0];
        elements := elements[k := element];
        assert elements[..k + 1][..k] == elements[..k];
        indices := indices + ops.indices(element, AsU16(|vertices|));
        vertices := vertices + ops.vertices(element, dims);
        k := k + 1;
      }
      assert elements[..k] == elements;
      assert original[..k] == original;
      vbo := Some(vertices);
      ibo := Some(indices);
    }

    /**
     * `resize`: before `init` it panics; afterwards the vertex buffer is rebuilt
     * from the elements, in order, for the new dimensions. The elements and the
     * index buffer stay as they are.
     */
    method Resize(dims: Dims) returns (r: Outcome)
      requires Valid()
      modifies this`vbo
      ensures Valid()
      ensures r == (if old(vbo).None? then Panicked(NotInitialized) else Done)
      ensures vbo == (if old(vbo).None? then old(vbo) else Some(AllVertices(ops, elements, dims)))
    {
      if vbo.None? {
        return Panicked(NotInitialized);
      }
      var vertices: seq<V> := [];
      for k := 0 to |elements|
        invariant vertices == AllVertices(ops, elements[..k], dims)
      {
        assert elements[..k + 1][..k] == elements[..k];
        vertices := vertices + ops.vertices(elements[k], dims);
      }
      assert elements[..|elements|] == elements;
      vbo := Some(vertices);
      r := Done;
    }

    /** `draw`: panics unless both buffers exist. */
    method Draw() returns (r: Outcome)
      ensures r == (if vbo.None? || ibo.None? then Panicked(BuffersNotInitialized) else Done)
    {
      if vbo.None? || ibo.None? {
        return Panicked(BuffersNotInitialized);
      }
      r := Done;
    }
  }

  /** The builder's lifecycle: add while uninitialised, `init`, then only `resize` and `draw`. */
  method LifecycleScenario<E, V>(ops: ElementOps<E, V>, a: E, b: E, dims: Dims) {
    var ui := new Ui(ops);
    var r := ui.Draw();
    assert r == Panicked(BuffersNotInitialized);
    r := ui.Resize(dims);
    assert r == Panicked(NotInitialized);
    r := ui.Element(a);
    r := ui.Element(b);
    assert ui.elements == [a, b];
    ui.Init(dims);
    assert ui.elements == [ops.setTextWidth(a), ops.setTextWidth(b)];
    r := ui.Draw();
    assert r == Done;
    r := ui.Element(a);
    assert r == Panicked(AlreadyInitialized) && |ui.elements| == 2;
  }
}
