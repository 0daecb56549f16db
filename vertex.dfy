/**
 * Vertex layout descriptors: the attribute-pointer record, and the `Vertex`
 * trait that every vertex payload type implements. Dafny has no traits here,
 * so an implementation is passed as the dictionary of its members.
 */
module Vertex {
  import opened Ints
  import opened GlEnum
  import opened Mem

  /** How one attribute is packed in a record: slot, component count, numeric type tag, normalization, byte offset. */
  datatype VertexAttribPointer = VertexAttribPointer(
    index: usize, size: usize, dataType: GLenum, normalized: bool, offset: usize)

  /**
   * `VertexAttribPointer::new::<DataType>(index, size, normalized, offset)`:
   * takes any arguments without validation, keeps them as given and tags the
   * pointer with `DataType::gl_data_type()`.
   */
  function NewAttribPointer(dataType: Scalar, index: usize, size: usize, normalized: bool, offset: usize)
    : (p: VertexAttribPointer)
    ensures p.index == index && p.size == size && p.normalized == normalized && p.offset == offset
    ensures p.dataType == DataTypeTag(dataType)
    ensures dataType == F32 ==> p.dataType == FLOAT
  {
    VertexAttribPointer(index, size, DataTypeTag(dataType), normalized, offset)
  }

  /** A backend call that a vertex type's `render` makes through the handler it is given. */
  datatype HandlerCall =
    | EnableAttribArray(index: usize)
    | DisableAttribArray(index: usize)
    | DrawElements(mode: MeshMode, indices: usize, indexType: Scalar)

  /**
   * An implementation of the `Vertex` trait for records of type `V`: the
   * record's size and memory image (`Sized`), `attrib_pointers()` (a value,
   * since the trait function takes no arguments), and `render(handler, elements)`
   * as the calls it makes for a given element count.
   */
  datatype VertexType<!V(!new)> = VertexType(
    layout: Layout<V>,
    attribPointers: seq<VertexAttribPointer>,
    render: usize -> seq<HandlerCall>)

  /** Every slot a render enables is disabled again later in the same render. */
  predicate EnablesPaired(calls: seq<HandlerCall>) {
    forall i :: 0 <= i < |calls| && calls[i].EnableAttribArray? ==>
      exists j :: i < j < |calls| && calls[j] == DisableAttribArray(calls[i].index)
  }

  /** Every attribute starts inside one record. */
  predicate OffsetsWithinRecord<V(!new)>(vt: VertexType<V>) {
    forall i :: 0 <= i < |vt.attribPointers| ==> vt.attribPointers[i].offset < vt.layout.size
  }
}
