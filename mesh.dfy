/**
 * `Mesh<VertexType, IndexType>`: a vertex array object with its vertex buffer
 * and its element buffer, and the number of indices last uploaded.
 */
module Meshes {
  import opened Ints
  import opened GlEnum
  import opened Mem
  import opened Vertex
  import opened Render
  import opened Buffers

  /** An implementation of `GlDataType` for index records of type `I`: its type tag and its memory image. */
  datatype IndexType<!I(!new)> = IndexType(tag: Scalar, layout: Layout<I>)

  /** The attribute-pointer registrations `Mesh::new` makes, one per descriptor, in `attrib_pointers()` order. */
  function AttribCmds<V(!new)>(vt: VertexType<V>): (cmds: seq<Cmd>)
    ensures |cmds| == |vt.attribPointers|
    ensures forall i :: 0 <= i < |cmds| ==> cmds[i] == AttribPointerCmd(vt.attribPointers[i], vt.layout.size)
  {
    seq(|vt.attribPointers|, i requires 0 <= i < |vt.attribPointers| => AttribPointerCmd(vt.attribPointers[i], vt.layout.size))
  }

  class Mesh<V(!new), I(!new)> {
    const gl: Gl
    const vertexType: VertexType<V>
    const indexType: IndexType<I>
    const vao: u32
    const vbo: Buffer<V>
    const ebo: Buffer<I>
    /** The number of indices of the last `set_indices`. */
    var elements: usize
    var destroyed: bool

    /** The two owned buffers talk to the same backend, have their own targets and record types, and live exactly as long as the mesh. */
    ghost predicate Valid()
      reads this, vbo, ebo
    {
      vbo.gl == gl && ebo.gl == gl && (vbo as object) != (ebo as object)
      && vbo.bufferType == ArrayBuffer && ebo.bufferType == ElementArrayBuffer
      && vbo.layout == vertexType.layout && ebo.layout == indexType.layout
      && vbo.destroyed == destroyed && ebo.destroyed == destroyed
    }

    /**
     * `Mesh::new`: the VAO, then the vertex buffer, then the element buffer
     * are generated (the field initialisers' order); the VAO and the vertex
     * buffer are bound, and every attribute pointer is registered in order.
     */
    constructor (gl: Gl, vertexType: VertexType<V>, indexType: IndexType<I>)
      modifies gl
      ensures Valid() && fresh(vbo) && fresh(ebo)
      ensures this.gl == gl && this.vertexType == vertexType && this.indexType == indexType
      ensures elements == 0 && !destroyed
      ensures vao == gl.oracle.handle(|old(gl.log)|)
      ensures vbo.handle == gl.oracle.handle(|old(gl.log)| + 1)
      ensures ebo.handle == gl.oracle.handle(|old(gl.log)| + 2)
      ensures gl.log == old(gl.log)
        + [GenVertexArrays(vao), GenBuffers(vbo.handle), GenBuffers(ebo.handle),
           Cmd.BindVertexArray(vao), Cmd.BindBuffer(ARRAY_BUFFER, vbo.handle)]
        + AttribCmds(vertexType)
    {
      var a := gl.GenVertexArray();
      var b := new Buffer(gl, ArrayBuffer, vertexType.layout);
      var c := new Buffer(gl, ElementArrayBuffer, indexType.layout);
      this.gl := gl;
      this.vertexType := vertexType;
      this.indexType := indexType;
      vao := a;
      vbo := b;
      ebo := c;
      elements := 0;
      destroyed := false;
      new;
      ghost var start := gl.log;
      Bind();
      vbo.Bind();
      var pointers := vertexType.attribPointers;
      for i := 0 to |pointers|
        modifies gl
        invariant gl.log == start + [Cmd.BindVertexArray(vao), Cmd.BindBuffer(ARRAY_BUFFER, vbo.handle)]
          + AttribCmds(vertexType)[..i]
      {
        gl.VertexAttribPointer(vertexType, pointers[i]);
        assert AttribCmds(vertexType)[..i + 1] == AttribCmds(vertexType)[..i] + [AttribCmds(vertexType)[i]];
      }
      assert AttribCmds(vertexType)[..|pointers|] == AttribCmds(vertexType);
    }

    /** `bind`: one bind of the VAO. */
    method Bind()
      requires !destroyed
      modifies gl
      ensures gl.log == old(gl.log) + [Cmd.BindVertexArray(vao)]
    {
      gl.BindVertexArray(vao);
    }

    /** `set_vertices`: binds the VAO, then uploads through the vertex buffer; `elements` is untouched. */
    method SetVertices(vertices: seq<V>, usage: BufferUsage)
      requires Valid() && !destroyed && |vertices| * vertexType.layout.size <= ISIZE_MAX
      modifies gl
      ensures elements == old(elements)
      ensures gl.log == old(gl.log) + [Cmd.BindVertexArray(vao), Cmd.BindBuffer(ARRAY_BUFFER, vbo.handle)]
        + UploadCmds(ARRAY_BUFFER, UsageHint(usage), |vertices| * vertexType.layout.size,
                     Flatten(vertices, vertexType.layout.image))
    {
      Bind();
      vbo.BufferData(vertices, usage);
    }

    /** `set_indices`: binds the VAO, uploads through the element buffer, and replaces `elements` with the new index count. */
    method SetIndices(indices: seq<I>, usage: BufferUsage)
      requires Valid() && !destroyed && |indices| * indexType.layout.size <= ISIZE_MAX
      requires |indices| < 0x1_0000_0000_0000_0000
      modifies this, gl
      ensures Valid() && !destroyed
      ensures elements == |indices|
      ensures gl.log == old(gl.log) + [Cmd.BindVertexArray(vao), Cmd.BindBuffer(ELEMENT_ARRAY_BUFFER, ebo.handle)]
        + UploadCmds(ELEMENT_ARRAY_BUFFER, UsageHint(usage), |indices| * indexType.layout.size,
                     Flatten(indices, indexType.layout.image))
    {
      Bind();
      var elementCount := |indices|;
      ebo.BufferData(indices, usage);
      elements := elementCount;
    }

    /**
     * `render`: nothing at all without indices; otherwise the VAO and the
     * element buffer are bound and the vertex type renders exactly
     * `elements` indices.
     */
    method Render()
      requires Valid() && !destroyed
      modifies gl
      ensures elements == 0 ==> gl.log == old(gl.log)
      ensures elements > 0 ==>
        gl.log == old(gl.log) + [Cmd.BindVertexArray(vao), Cmd.BindBuffer(ELEMENT_ARRAY_BUFFER, ebo.handle)]
                              + CallCmds(vertexType.render(elements))
    {
      if elements < 1 {
        return;
      }
      Bind();
      ebo.Bind();
      gl.IssueCalls(vertexType.render(elements));
    }

    /**
     * Dropping a mesh: `Mesh::drop` deletes the VAO, then the fields are
     * dropped in declaration order, deleting the vertex buffer and then the
     * element buffer, each once.
     */
    method Destroy()
      requires Valid() && !destroyed
      modifies this, vbo, ebo, gl
      ensures destroyed && vbo.destroyed && ebo.destroyed
      ensures gl.log == old(gl.log) + [DeleteVertexArrays(vao), DeleteBuffers(vbo.handle), DeleteBuffers(ebo.handle)]
    {
      gl.DeleteVertexArray(vao);
      vbo.Destroy();
      ebo.Destroy();
      destroyed := true;
    }
  }
}
