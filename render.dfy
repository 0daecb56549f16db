/**
 * The backend: the `Gl` wrapper around the OpenGL function table. What the
 * graphics API does with a call is outside the model; the model keeps the
 * sequence of raw API calls the wrapper has issued, in order, in `log`, and
 * takes what the API answers from an oracle (the n-th call's answer is a
 * function of n). Every resource object holds the same `Gl` object, as every
 * clone of the source's reference-counted wrapper refers to one context.
 */
module Render {
  import opened Ints
  import opened Wrappers
  import opened GlEnum
  import opened Mem
  import opened Vertex

  /** One raw graphics-API call, with the arguments it was given and, for a query, the value it returned. */
  datatype Cmd =
    | GenBuffers(handle: u32)
    | BindBuffer(target: GLenum, handle: u32)
    | BufferData(target: GLenum, size: isize, data: Option<seq<u8>>, usage: GLenum)
    | DeleteBuffers(handle: u32)
    | GenVertexArrays(handle: u32)
    | DeleteVertexArrays(handle: u32)
    | BindVertexArray(handle: u32)
    | VertexAttribPointer(index: u32, components: i32, dataType: GLenum, normalized: GLboolean, stride: i32, offset: usize)
    | EnableVertexAttribArray(index: u32)
    | DisableVertexAttribArray(index: u32)
    | DrawElements(mode: GLenum, count: i32, indexType: GLenum)
    | Clear(mask: bv32)
    | CreateShader(shaderType: GLenum, handle: u32)
    | ShaderSource(shader: u32, source: seq<u8>)
    | CompileShader(shader: u32)
    | GetShaderiv(shader: u32, pname: GLenum, value: i32)
    | GetShaderInfoLog(shader: u32, maxLength: i32)
    | DeleteShader(shader: u32)
    | CreateProgram(handle: u32)
    | AttachShader(program: u32, shader: u32)
    | DetachShader(program: u32, shader: u32)
    | LinkProgram(program: u32)
    | GetProgramiv(program: u32, pname: GLenum, value: i32)
    | GetProgramInfoLog(program: u32, maxLength: i32)
    | ValidateProgram(program: u32)
    | UseProgram(program: u32)
    | DeleteProgram(program: u32)

  /**
   * What the graphics API answers to the call issued at log position n: the
   * handle a Gen/Create call yields, the integer a Get*iv call writes, and the
   * bytes a Get*InfoLog call writes into the caller's buffer.
   */
  datatype Oracle = Oracle(handle: nat -> u32, param: nat -> i32, infoLog: nat -> seq<u8>)

  /** The raw call `vertex_attrib_pointer::<V>` makes for `p`, `stride` being `size_of::<V>()`. */
  function AttribPointerCmd(p: VertexAttribPointer, stride: usize): Cmd
  {
    Cmd.VertexAttribPointer(AsU32(p.index), AsI32(p.size), p.dataType, GlBool(p.normalized), AsI32(stride), p.offset)
  }

  /** Slot, component count, type tag, offset and stride reach the API unchanged whenever they fit its integer types. */
  lemma AttribPointerPassesThrough(p: VertexAttribPointer, stride: usize)
    requires p.index < 0x1_0000_0000 && p.size < 0x8000_0000 && stride < 0x8000_0000
    ensures var c := AttribPointerCmd(p, stride);
      c.index == p.index && c.components == p.size && c.dataType == p.dataType
      && c.offset == p.offset && c.stride == stride && (c.normalized == TRUE <==> p.normalized)
  {
  }

  /** The raw call a vertex type's handler call becomes. */
  function CallCmd(c: HandlerCall): Cmd
  {
    match c
    case EnableAttribArray(i) => Cmd.EnableVertexAttribArray(AsU32(i))
    case DisableAttribArray(i) => Cmd.DisableVertexAttribArray(AsU32(i))
    case DrawElements(mode, n, t) => Cmd.DrawElements(DrawMode(mode), AsI32(n), DataTypeTag(t))
  }

  function CallCmds(calls: seq<HandlerCall>): (cmds: seq<Cmd>)
    ensures |cmds| == |calls|
    ensures forall i :: 0 <= i < |calls| ==> cmds[i] == CallCmd(calls[i])
  {
    seq(|calls|, i requires 0 <= i < |calls| => CallCmd(calls[i]))
  }

  /** The invalidate-then-fill pair `buffer_data` issues: a null upload, then the bytes, with one target, size and usage. */
  function UploadCmds(target: GLenum, usage: GLenum, size: isize, bytes: seq<u8>): seq<Cmd>
  {
    [Cmd.BufferData(target, size, None, usage), Cmd.BufferData(target, size, Some(bytes), usage)]
  }

  /**
   * The pair `buffer_data` issues for records laid out by `layout`: same target,
   * usage and size in both, the first without data, the second with exactly
   * `size` bytes in which the k-th record's image is the k-th slice.
   */
  lemma UploadCarriesRecords<D(!new)>(target: GLenum, usage: GLenum, data: seq<D>, layout: Layout<D>)
    requires layout.Valid() && |data| * layout.size <= ISIZE_MAX
    ensures var c := UploadCmds(target, usage, |data| * layout.size, Flatten(data, layout.image));
      |c| == 2 && c[0].BufferData? && c[1].BufferData?
      && c[0].target == c[1].target == target && c[0].usage == c[1].usage == usage
      && c[0].data.None? && c[1].data.Some?
      && c[0].size == c[1].size == |c[1].data.value|
      && RecordsAt(c[1].data.value, data, layout)
  {
    FlattenRecords(data, layout);
  }

  /** Regrouping appended calls: appending `b` and then `c` appends `b + c`. */
  lemma LogAssoc(a: seq<Cmd>, b: seq<Cmd>, c: seq<Cmd>)
    ensures a + b + c == a + (b + c)
  {
  }

  /** The last `|b|` calls of `a + b` are `b`. */
  lemma LogEndsWith(a: seq<Cmd>, b: seq<Cmd>)
    ensures |b| <= |a + b| && (a + b)[|a + b| - |b|..] == b
  {
  }

  /** A call that does not occur in a log occurs zero times in it. */
  lemma NotInLog(s: seq<Cmd>, c: Cmd)
    requires c !in s
    ensures multiset(s)[c] == 0
  {
  }

  /** A call absent from `pre` and `post` occurs in `pre + mid + post` as often as in `mid`. */
  lemma CountBetween(pre: seq<Cmd>, mid: seq<Cmd>, post: seq<Cmd>, c: Cmd)
    requires c !in pre && c !in post
    ensures multiset(pre + mid + post)[c] == multiset(mid)[c]
  {
    NotInLog(pre, c);
    NotInLog(post, c);
    assert multiset(pre + mid + post) == multiset(pre) + multiset(mid) + multiset(post);
  }

  /**
   * The caller's buffer after a Get*InfoLog call: the API writes at most
   * `maxLength` bytes over its front and leaves the rest as it was.
   */
  function Overwrite(buf: seq<u8>, written: seq<u8>, maxLength: int): (r: seq<u8>)
    ensures |r| == |buf|
    ensures forall i :: 0 <= i < |r| ==> r[i] == if i < maxLength && i < |written| then written[i] else buf[i]
  {
    var k := if maxLength < 0 then 0 else Min(Min(maxLength, |written|), |buf|);
    written[..k] + buf[k..]
  }

  function Min(a: int, b: int): int {
    if a < b then a else b
  }

  class Gl {
    const oracle: Oracle
    var log: seq<Cmd>

    /** `Gl::new`: a fresh wrapper, before any call. */
    constructor (oracle: Oracle)
      ensures this.oracle == oracle && log == []
    {
      this.oracle := oracle;
      log := [];
    }

    // ------------------------------------------------------------ Gl itself

    /** `clear`: nothing at all when neither buffer is asked for, otherwise one Clear whose mask selects exactly the requested buffers. */
    method Clear(color: bool, depth: bool)
      modifies this
      ensures !color && !depth ==> log == old(log)
      ensures color || depth ==>
        |log| == |old(log)| + 1 && log[..|old(log)|] == old(log)
        && log[|old(log)|].Clear? && ClearMaskSelects(log[|old(log)|].mask, color, depth)
    {
      if !color && !depth {
        return;
      }
      var clearBits: bv32 := 0;
      if color {
        clearBits := clearBits | COLOR_BUFFER_BIT;
      }
      if depth {
        clearBits := clearBits | DEPTH_BUFFER_BIT;
      }
      log := log + [Cmd.Clear(clearBits)];
    }

    // ----------------------------------------------------- BufferHandler

    method GenBuffer() returns (handle: u32)
      modifies this
      ensures handle == oracle.handle(|old(log)|)
      ensures log == old(log) + [GenBuffers(handle)]
    {
      handle := oracle.handle(|log|);
      log := log + [GenBuffers(handle)];
    }

    method BindBuffer(bufferType: BufferType, handle: u32)
      modifies this
      ensures log == old(log) + [Cmd.BindBuffer(BufferTarget(bufferType), handle)]
    {
      log := log + [Cmd.BindBuffer(BufferTarget(bufferType), handle)];
    }

    /**
     * `buffer_data`: the byte size is `len × size_of` (the `as isize` cast is
     * the identity under the precondition); first the storage is invalidated
     * with a null upload of that size, then the records' bytes are uploaded.
     */
    method BufferData<D(!new)>(bufferType: BufferType, usage: BufferUsage, data: seq<D>, layout: Layout<D>)
      requires |data| * layout.size <= ISIZE_MAX
      modifies this
      ensures log == old(log) + UploadCmds(BufferTarget(bufferType), UsageHint(usage), |data| * layout.size, Flatten(data, layout.image))
    {
      var bufferSize: isize := |data| * layout.size;
      log := log + [Cmd.BufferData(BufferTarget(bufferType), bufferSize, None, UsageHint(usage))];
      log := log + [Cmd.BufferData(BufferTarget(bufferType), bufferSize, Some(Flatten(data, layout.image)), UsageHint(usage))];
    }

    method DeleteBuffer(handle: u32)
      modifies this
      ensures log == old(log) + [DeleteBuffers(handle)]
    {
      log := log + [DeleteBuffers(handle)];
    }

    // ------------------------------------------------------- MeshHandler

    method GenVertexArray() returns (handle: u32)
      modifies this
      ensures handle == oracle.handle(|old(log)|)
      ensures log == old(log) + [GenVertexArrays(handle)]
    {
      handle := oracle.handle(|log|);
      log := log + [GenVertexArrays(handle)];
    }

    method DeleteVertexArray(handle: u32)
      modifies this
      ensures log == old(log) + [DeleteVertexArrays(handle)]
    {
      log := log + [DeleteVertexArrays(handle)];
    }

    /** `vertex_attrib_pointer::<V>`: the stride is the record size of `V`. */
    method VertexAttribPointer<V(!new)>(vertexType: VertexType<V>, pointer: VertexAttribPointer)
      modifies this
      ensures log == old(log) + [AttribPointerCmd(pointer, vertexType.layout.size)]
    {
      log := log + [AttribPointerCmd(pointer, vertexType.layout.size)];
    }

    method EnableAttribArray(index: usize)
      modifies this
      ensures log == old(log) + [CallCmd(HandlerCall.EnableAttribArray(index))]
    {
      log := log + [Cmd.EnableVertexAttribArray(AsU32(index))];
    }

    method DisableAttribArray(index: usize)
      modifies this
      ensures log == old(log) + [CallCmd(HandlerCall.DisableAttribArray(index))]
    {
      log := log + [Cmd.DisableVertexAttribArray(AsU32(index))];
    }

    method BindVertexArray(handle: u32)
      modifies this
      ensures log == old(log) + [Cmd.BindVertexArray(handle)]
    {
      log := log + [Cmd.BindVertexArray(handle)];
    }

    /** `draw_elements::<IndexType>`: one draw of `indices` elements, tagged with the index type. */
    method DrawElements(mode: MeshMode, indices: usize, indexType: Scalar)
      modifies this
      ensures log == old(log) + [CallCmd(HandlerCall.DrawElements(mode, indices, indexType))]
    {
      log := log + [Cmd.DrawElements(DrawMode(mode), AsI32(indices), DataTypeTag(indexType))];
    }

    /**
     * What a vertex type's `render(handler, elements)` does to the handler: its
     * calls, issued one after another through the three methods above.
     */
    method IssueCalls(calls: seq<HandlerCall>)
      modifies this
      ensures log == old(log) + CallCmds(calls)
    {
      var i := 0;
      while i < |calls|
        invariant i <= |calls|
        invariant log == old(log) + CallCmds(calls[..i])
      {
        match calls[i] {
          case EnableAttribArray(index) => EnableAttribArray(index);
          case DisableAttribArray(index) => DisableAttribArray(index);
          case DrawElements(mode, n, t) => DrawElements(mode, n, t);
        }
        assert CallCmds(calls[..i + 1]) == CallCmds(calls[..i]) + [CallCmd(calls[i])];
        i := i + 1;
      }
      assert calls[..i] == calls;
    }

    // ------------------------------ raw calls made directly by shaders and the window

    method CreateShader(shaderType: GLenum) returns (handle: u32)
      modifies this
      ensures handle == oracle.handle(|old(log)|)
      ensures log == old(log) + [Cmd.CreateShader(shaderType, handle)]
    {
      handle := oracle.handle(|log|);
      log := log + [Cmd.CreateShader(shaderType, handle)];
    }

    method ShaderSource(shader: u32, source: seq<u8>)
      modifies this
      ensures log == old(log) + [Cmd.ShaderSource(shader, source)]
    {
      log := log + [Cmd.ShaderSource(shader, source)];
    }

    method CompileShader(shader: u32)
      modifies this
      ensures log == old(log) + [Cmd.CompileShader(shader)]
    {
      log := log + [Cmd.CompileShader(shader)];
    }

    method GetShaderiv(shader: u32, pname: GLenum) returns (value: i32)
      modifies this
      ensures value == oracle.param(|old(log)|)
      ensures log == old(log) + [Cmd.GetShaderiv(shader, pname, value)]
    {
      value := oracle.param(|log|);
      log := log + [Cmd.GetShaderiv(shader, pname, value)];
    }

    method GetShaderInfoLog(shader: u32, maxLength: i32, buf: array<u8>)
      requires maxLength <= buf.Length
      modifies this, buf
      ensures log == old(log) + [Cmd.GetShaderInfoLog(shader, maxLength)]
      ensures buf[..] == Overwrite(old(buf[..]), oracle.infoLog(|old(log)|), maxLength)
    {
      WriteInfoLog(buf, oracle.infoLog(|log|), maxLength);
      log := log + [Cmd.GetShaderInfoLog(shader, maxLength)];
    }

    method DeleteShader(shader: u32)
      modifies this
      ensures log == old(log) + [Cmd.DeleteShader(shader)]
    {
      log := log + [Cmd.DeleteShader(shader)];
    }

    method CreateProgram() returns (handle: u32)
      modifies this
      ensures handle == oracle.handle(|old(log)|)
      ensures log == old(log) + [Cmd.CreateProgram(handle)]
    {
      handle := oracle.handle(|log|);
      log := log + [Cmd.CreateProgram(handle)];
    }

    method AttachShader(program: u32, shader: u32)
      modifies this
      ensures log == old(log) + [Cmd.AttachShader(program, shader)]
    {
      log := log + [Cmd.AttachShader(program, shader)];
    }

    method DetachShader(program: u32, shader: u32)
      modifies this
      ensures log == old(log) + [Cmd.DetachShader(program, shader)]
    {
      log := log + [Cmd.DetachShader(program, shader)];
    }

    method LinkProgram(program: u32)
      modifies this
      ensures log == old(log) + [Cmd.LinkProgram(program)]
    {
      log := log + [Cmd.LinkProgram(program)];
    }

    method GetProgramiv(program: u32, pname: GLenum) returns (value: i32)
      modifies this
      ensures value == oracle.param(|old(log)|)
      ensures log == old(log) + [Cmd.GetProgramiv(program, pname, value)]
    {
      value := oracle.param(|log|);
      log := log + [Cmd.GetProgramiv(program, pname, value)];
    }

    method GetProgramInfoLog(program: u32, maxLength: i32, buf: array<u8>)
      requires maxLength <= buf.Length
      modifies this, buf
      ensures log == old(log) + [Cmd.GetProgramInfoLog(program, maxLength)]
      ensures buf[..] == Overwrite(old(buf[..]), oracle.infoLog(|old(log)|), maxLength)
    {
      WriteInfoLog(buf, oracle.infoLog(|log|), maxLength);
      log := log + [Cmd.GetProgramInfoLog(program, maxLength)];
    }

    method ValidateProgram(program: u32)
      modifies this
      ensures log == old(log) + [Cmd.ValidateProgram(program)]
    {
      log := log + [Cmd.ValidateProgram(program)];
    }

    method UseProgram(program: u32)
      modifies this
      ensures log == old(log) + [Cmd.UseProgram(program)]
    {
      log := log + [Cmd.UseProgram(program)];
    }

    method DeleteProgram(program: u32)
      modifies this
      ensures log == old(log) + [Cmd.DeleteProgram(program)]
    {
      log := log + [Cmd.DeleteProgram(program)];
    }
  }

  /** The API's side of a Get*InfoLog call: it copies up to `maxLength` bytes of its log into `buf`. */
  method WriteInfoLog(buf: array<u8>, written: seq<u8>, maxLength: int)
    modifies buf
    ensures buf[..] == Overwrite(old(buf[..]), written, maxLength)
  {
    var k := if maxLength < 0 then 0 else Min(Min(maxLength, |written|), buf.Length);
    for i := 0 to k
      invariant forall j :: 0 <= j < buf.Length ==> buf[j] == if j < i then written[j] else old(buf[j])
    {
      buf[i] := written[i];
    }
  }
}
