/**
 * `Buffer<DataType>`: an owned GPU buffer object. It draws its handle from the
 * backend once, binds itself before each upload and gives the handle back on
 * drop. Type, handle and record layout are fixed at construction; the Rust
 * fields are private and no method writes them, which here is `const`.
 */
module Buffers {
  import opened Ints
  import opened GlEnum
  import opened Mem
  import opened Render

  class Buffer<D(!new)> {
    const gl: Gl
    const bufferType: BufferType
    const handle: u32
    /** `size_of::<DataType>()` and the records' memory image. */
    const layout: Layout<D>
    /** Set once the Rust value has been dropped. */
    var destroyed: bool

    /** `Buffer::new`: one `gen_buffer`, whose answer becomes the handle. */
    constructor (gl: Gl, bufferType: BufferType, layout: Layout<D>)
      modifies gl
      ensures this.gl == gl && this.bufferType == bufferType && this.layout == layout && !destroyed
      ensures handle == gl.oracle.handle(|old(gl.log)|)
      ensures gl.log == old(gl.log) + [GenBuffers(handle)]
    {
      var h := gl.GenBuffer();
      this.gl := gl;
      this.bufferType := bufferType;
      this.handle := h;
      this.layout := layout;
      destroyed := false;
    }

    /** `bind`: one bind of this buffer's own target and handle. */
    method Bind()
      requires !destroyed
      modifies gl
      ensures gl.log == old(gl.log) + [Cmd.BindBuffer(BufferTarget(bufferType), handle)]
    {
      gl.BindBuffer(bufferType, handle);
    }

    /**
     * `buffer_data`: binds, then hands the records, unchanged and in order, to
     * the backend's upload for this buffer's target. A `Vec` never holds more
     * than `isize::MAX` bytes, which is the precondition.
     */
    method BufferData(data: seq<D>, usage: BufferUsage)
      requires !destroyed && |data| * layout.size <= ISIZE_MAX
      modifies gl
      ensures gl.log == old(gl.log) + [Cmd.BindBuffer(BufferTarget(bufferType), handle)]
        + UploadCmds(BufferTarget(bufferType), UsageHint(usage), |data| * layout.size, Flatten(data, layout.image))
    {
      Bind();
      gl.BufferData(bufferType, usage, data, layout);
    }

    /** `drop`: one `delete_buffer` of the handle; a dropped value is never used again. */
    method Destroy()
      requires !destroyed
      modifies this, gl
      ensures destroyed
      ensures gl.log == old(gl.log) + [DeleteBuffers(handle)]
    {
      gl.DeleteBuffer(handle);
      destroyed := true;
    }
  }
}
