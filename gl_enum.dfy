/**
 * The enumerations the resource types hand to the backend and their
 * `GlType` / `GlDataType` mappings onto OpenGL's GLenum constants. The values
 * are those of the Khronos registry; the model only relies on them being
 * distinct tags, and on the two clear bits being distinct single bits.
 */
module GlEnum {
  import opened Ints

  type GLenum = u32
  type GLboolean = x: int | 0 <= x < 0x100

  const ARRAY_BUFFER: GLenum := 0x8892
  const ELEMENT_ARRAY_BUFFER: GLenum := 0x8893
  const STATIC_DRAW: GLenum := 0x88E4
  const TRIANGLES: GLenum := 0x0004
  const UNSIGNED_SHORT: GLenum := 0x1403
  const FLOAT: GLenum := 0x1406
  const VERTEX_SHADER: GLenum := 0x8B31
  const FRAGMENT_SHADER: GLenum := 0x8B30
  const GEOMETRY_SHADER: GLenum := 0x8DD9
  const INFO_LOG_LENGTH: GLenum := 0x8B84

  const TRUE: GLboolean := 1
  const FALSE: GLboolean := 0

  const COLOR_BUFFER_BIT: bv32 := 0x4000
  const DEPTH_BUFFER_BIT: bv32 := 0x0100

  /** Which binding slot a buffer uses; fixed when the buffer is made. */
  datatype BufferType = ArrayBuffer | ElementArrayBuffer

  /** The usage hint handed to the backend with every upload. */
  datatype BufferUsage = StaticDraw

  /** The primitive an indexed draw assembles. */
  datatype MeshMode = Triangles

  /** The Rust scalar types that implement `GlDataType`. */
  datatype Scalar = F32 | U16

  /** `GlType for BufferType`: the two kinds go to the two distinct binding targets. */
  function BufferTarget(t: BufferType): (e: GLenum)
    ensures e == ARRAY_BUFFER <==> t == ArrayBuffer
    ensures e == ELEMENT_ARRAY_BUFFER <==> t == ElementArrayBuffer
  {
    match t
    case ArrayBuffer => ARRAY_BUFFER
    case ElementArrayBuffer => ELEMENT_ARRAY_BUFFER
  }

  /** `GlType for BufferUsage`. */
  function UsageHint(u: BufferUsage): (e: GLenum)
    ensures e == STATIC_DRAW
  {
    match u
    case StaticDraw => STATIC_DRAW
  }

  /** `GlType for MeshMode`. */
  function DrawMode(m: MeshMode): (e: GLenum)
    ensures e == TRIANGLES
  {
    match m
    case Triangles => TRIANGLES
  }

  /** `GlDataType::gl_data_type`: f32 is FLOAT and u16 is UNSIGNED_SHORT. */
  function DataTypeTag(s: Scalar): (e: GLenum)
    ensures e == FLOAT <==> s == F32
    ensures e == UNSIGNED_SHORT <==> s == U16
  {
    match s
    case F32 => FLOAT
    case U16 => UNSIGNED_SHORT
  }

  /** The `as GLboolean` of a Rust bool, as `vertex_attrib_pointer` writes it. */
  function GlBool(b: bool): (e: GLboolean)
    ensures e == TRUE <==> b
    ensures e == FALSE <==> !b
  {
    if b then TRUE else FALSE
  }

  /** A clear mask selects exactly the requested buffers and nothing else. */
  predicate ClearMaskSelects(mask: bv32, color: bool, depth: bool) {
    && (mask & COLOR_BUFFER_BIT != 0 <==> color)
    && (mask & DEPTH_BUFFER_BIT != 0 <==> depth)
    && mask & !(COLOR_BUFFER_BIT | DEPTH_BUFFER_BIT) == 0
  }

  /** At most one mask selects a given pair of buffers. */
  lemma ClearMaskUnique(m1: bv32, m2: bv32, color: bool, depth: bool)
    requires ClearMaskSelects(m1, color, depth) && ClearMaskSelects(m2, color, depth)
    ensures m1 == m2
  {
  }
}
