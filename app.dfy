/**
 * The demo application: the `PosVert` vertex type (a position and a colour,
 * each a `Vec3` of three f32), the demo triangle it renders, and the three
 * closures it hands to `start_loop`. Floats are carried as their IEEE 754
 * bit patterns; nothing here computes with them.
 */
module App {
  import opened Ints
  import opened Wrappers
  import opened GlEnum
  import opened Mem
  import opened Vertex
  import opened Render
  import opened Meshes
  import opened Shaders
  import Win = Window

  /** `glm::Vec3`: three f32 components, as bit patterns. */
  datatype Vec3 = Vec3(x: u32, y: u32, z: u32)

  /** `#[repr(C)] struct PosVert { position: Vec3, color: Vec3 }`. */
  datatype PosVert = PosVert(position: Vec3, color: Vec3)

  /** `size_of::<Vec3>()`. */
  const VEC3_SIZE: usize := 12

  /** A `Vec3` in memory: the three components in order, each little-endian. */
  function Vec3Bytes(v: Vec3): (r: seq<u8>)
    ensures |r| == VEC3_SIZE
    ensures r[0..4] == U32Bytes(v.x) && r[4..8] == U32Bytes(v.y) && r[8..12] == U32Bytes(v.z)
  {
    U32Bytes(v.x) + U32Bytes(v.y) + U32Bytes(v.z)
  }

  /** A `PosVert` in memory: the position's bytes, then the colour's, with no padding. */
  function PosVertBytes(v: PosVert): (r: seq<u8>)
    ensures |r| == 2 * VEC3_SIZE
    ensures r[..VEC3_SIZE] == Vec3Bytes(v.position) && r[VEC3_SIZE..] == Vec3Bytes(v.color)
  {
    Vec3Bytes(v.position) + Vec3Bytes(v.color)
  }

  const PosVertLayout: Layout<PosVert> := Layout(2 * VEC3_SIZE, PosVertBytes)

  /** `PosVert::attrib_pointers`: slot 0 is the position and slot 1 the colour, three floats each, not normalized. */
  function PosVertAttribPointers(): seq<VertexAttribPointer> {
    [NewAttribPointer(F32, 0, 3, false, 0), NewAttribPointer(F32, 1, 3, false, VEC3_SIZE)]
  }

  /**
   * The two descriptors: slot `i` holds three FLOAT components, not
   * normalized, and its bytes within a record are exactly those of field
   * `i` (the position for slot 0, the colour for slot 1).
   */
  lemma PosVertAttribPointersLocateFields(v: PosVert)
    ensures var ps := PosVertAttribPointers();
      |ps| == 2
      && (forall i :: 0 <= i < 2 ==>
            ps[i].index == i && ps[i].size == 3 && ps[i].dataType == FLOAT && !ps[i].normalized)
      && PosVertBytes(v)[ps[0].offset..ps[0].offset + 3 * 4] == Vec3Bytes(v.position)
      && PosVertBytes(v)[ps[1].offset..ps[1].offset + 3 * 4] == Vec3Bytes(v.color)
  {
    var r := PosVertBytes(v);
    assert r[VEC3_SIZE..VEC3_SIZE + 12] == r[VEC3_SIZE..];
  }

  /** `PosVert::render`: enable slots 0 and 1, one triangle draw of `elements` u16 indices, disable 0 and 1. */
  function PosVertRender(elements: usize): seq<HandlerCall> {
    [EnableAttribArray(0), EnableAttribArray(1), HandlerCall.DrawElements(Triangles, elements, U16),
     DisableAttribArray(0), DisableAttribArray(1)]
  }

  /**
   * A `PosVert` render enables exactly slots 0 and 1, disables each one it
   * enabled after enabling it, and draws once, triangles of `elements` u16
   * indices, while both slots are enabled.
   */
  lemma PosVertRenderPairsEnables(elements: usize)
    ensures var calls := PosVertRender(elements);
      EnablesPaired(calls)
      && (forall i :: 0 <= i < |calls| && calls[i].EnableAttribArray? ==> calls[i].index in {0, 1})
      && (forall i :: 0 <= i < |calls| && calls[i].DrawElements? ==> calls[i] == HandlerCall.DrawElements(Triangles, elements, U16))
      && (exists d :: 0 <= d < |calls| && calls[d].DrawElements?
            && (forall i :: 0 <= i < |calls| && calls[i].EnableAttribArray? ==> i < d)
            && (forall i :: 0 <= i < |calls| && calls[i].DisableAttribArray? ==> d < i))
  {
    var calls := PosVertRender(elements);
    assert calls[2].DrawElements?;
    assert calls[3] == DisableAttribArray(calls[0].index);
    assert calls[4] == DisableAttribArray(calls[1].index);
  }

  /** `impl Vertex for PosVert`. */
  const PosVertType: VertexType<PosVert> := VertexType(PosVertLayout, PosVertAttribPointers(), PosVertRender)

  /** `u16` as an index type. */
  const U16Index: IndexType<u16> := IndexType(U16, U16Layout)

  /**
   * Every `PosVert` record is 24 bytes, both attributes start inside it, and
   * `Mesh::new` registers them as slot 0 at offset 0 and slot 1 at offset
   * 12, three FLOATs each, not normalized, with a stride of 24 bytes.
   */
  lemma PosVertTypeRegisters()
    ensures PosVertType.layout.Valid() && OffsetsWithinRecord(PosVertType)
    ensures AttribCmds(PosVertType) ==
      [Cmd.VertexAttribPointer(0, 3, FLOAT, FALSE, 24, 0), Cmd.VertexAttribPointer(1, 3, FLOAT, FALSE, 24, 12)]
  {
    var cmds := AttribCmds(PosVertType);
    assert cmds[0] == AttribPointerCmd(PosVertType.attribPointers[0], 24);
    assert cmds[1] == AttribPointerCmd(PosVertType.attribPointers[1], 24);
  }

  /** The raw calls a `PosVert` mesh with three indices makes when rendered, once the casts are applied. */
  lemma DemoRenderCalls()
    ensures CallCmds(PosVertRender(3)) ==
      [EnableVertexAttribArray(0), EnableVertexAttribArray(1), Cmd.DrawElements(TRIANGLES, 3, UNSIGNED_SHORT),
       DisableVertexAttribArray(0), DisableVertexAttribArray(1)]
  {
    var cmds := CallCmds(PosVertRender(3));
    assert cmds[2] == CallCmd(HandlerCall.DrawElements(Triangles, 3, U16));
  }

  // ------------------------------------------------------------ the demo triangle

  const F32_ZERO: u32 := 0x0000_0000
  const F32_HALF: u32 := 0x3F00_0000
  const F32_MINUS_HALF: u32 := 0xBF00_0000
  const F32_ONE: u32 := 0x3F80_0000

  /** The three vertices of the demo mesh: top red, bottom-left green, bottom-right blue. */
  const DemoVertices: seq<PosVert> := [
    PosVert(Vec3(F32_ZERO, F32_HALF, F32_ZERO), Vec3(F32_ONE, F32_ZERO, F32_ZERO)),
    PosVert(Vec3(F32_MINUS_HALF, F32_MINUS_HALF, F32_ZERO), Vec3(F32_ZERO, F32_ONE, F32_ZERO)),
    PosVert(Vec3(F32_HALF, F32_MINUS_HALF, F32_ZERO), Vec3(F32_ZERO, F32_ZERO, F32_ONE))]

  const DemoIndices: seq<u16> := [0, 1, 2]

  /** The demo's index buffer holds 0, 1, 2 as little-endian u16s. */
  lemma DemoIndexBytes()
    ensures Flatten(DemoIndices, U16Bytes) == [0, 0, 1, 0, 2, 0]
  {
    assert DemoIndices[1..][1..][1..] == [];
  }

  /**
   * The demo mesh: a new `PosVert` mesh, its three vertices uploaded (72
   * bytes), then its three indices (6 bytes). It is left with three
   * elements to draw.
   */
  method BuildDemoMesh(gl: Gl) returns (mesh: Mesh<PosVert, u16>)
    modifies gl
    ensures fresh(mesh) && mesh.Valid() && !mesh.destroyed
    ensures mesh.gl == gl && mesh.vertexType == PosVertType && mesh.indexType == U16Index
    ensures mesh.elements == 3
    ensures gl.log == old(gl.log)
      + [GenVertexArrays(mesh.vao), GenBuffers(mesh.vbo.handle), GenBuffers(mesh.ebo.handle),
         Cmd.BindVertexArray(mesh.vao), Cmd.BindBuffer(ARRAY_BUFFER, mesh.vbo.handle)]
      + AttribCmds(PosVertType)
      + [Cmd.BindVertexArray(mesh.vao), Cmd.BindBuffer(ARRAY_BUFFER, mesh.vbo.handle)]
      + UploadCmds(ARRAY_BUFFER, STATIC_DRAW, 72, Flatten(DemoVertices, PosVertBytes))
      + [Cmd.BindVertexArray(mesh.vao), Cmd.BindBuffer(ELEMENT_ARRAY_BUFFER, mesh.ebo.handle)]
      + UploadCmds(ELEMENT_ARRAY_BUFFER, STATIC_DRAW, 6, [0, 0, 1, 0, 2, 0])
  {
    mesh := new Mesh(gl, PosVertType, U16Index);
    ghost var created := gl.log;
    mesh.SetVertices(DemoVertices, StaticDraw);
    ghost var filled := gl.log;
    assert filled == created + [Cmd.BindVertexArray(mesh.vao), Cmd.BindBuffer(ARRAY_BUFFER, mesh.vbo.handle)]
      + UploadCmds(ARRAY_BUFFER, STATIC_DRAW, 72, Flatten(DemoVertices, PosVertBytes));
    mesh.SetIndices(DemoIndices, StaticDraw);
    DemoIndexBytes();
    assert gl.log == filled + [Cmd.BindVertexArray(mesh.vao), Cmd.BindBuffer(ELEMENT_ARRAY_BUFFER, mesh.ebo.handle)]
      + UploadCmds(ELEMENT_ARRAY_BUFFER, STATIC_DRAW, 6, [0, 0, 1, 0, 2, 0]);
  }

  // ------------------------------------------------------------ the closures

  /** Whether the demo's event closure asks to quit on `e`: a window Close, or Escape pressed. */
  predicate IsQuit(e: Win.Event) {
    e == Win.Event.Window(Win.Close) || e == Win.KeyDown(Some(Win.Escape))
  }

  /** The demo's event closure: quit on a window Close or a key-down of Escape, go on for anything else. */
  function DemoHandleEvent(e: Win.Event): (stop: bool)
    ensures stop <==> IsQuit(e)
  {
    match e
    case Window(Close) => true
    case KeyDown(Some(Escape)) => true
    case _ => false
  }

  /** What the demo's callbacks answer: pre-render (`DemoPreRender`'s `stop`) and post-render (`DemoPostRender`) never stop the loop. */
  const DemoCallbacks: Win.Callbacks :=
    Win.Callbacks((k: nat) => false, DemoPostRender, (k: nat, j: nat, e: Win.Event) => DemoHandleEvent(e))

  /** The demo render a pre-render call issues for `mesh`: nothing without indices, else its bind and the `PosVert` render calls. */
  function MeshRenderCmds(vao: u32, ebo: u32, elements: usize): seq<Cmd> {
    if elements == 0 then []
    else [Cmd.BindVertexArray(vao), Cmd.BindBuffer(ELEMENT_ARRAY_BUFFER, ebo)] + CallCmds(PosVertRender(elements))
  }

  /**
   * The demo's pre-render closure: clears the colour buffer (the window's
   * context is always there), binds the program, renders the mesh, and
   * never asks the loop to stop.
   */
  method DemoPreRender(gl: Gl, program: ShaderProgram, mesh: Mesh<PosVert, u16>) returns (stop: bool)
    requires program.gl == gl && !program.destroyed
    requires mesh.gl == gl && mesh.Valid() && !mesh.destroyed && mesh.vertexType == PosVertType
    modifies gl
    ensures !stop
    ensures |gl.log| > |old(gl.log)| && gl.log[..|old(gl.log)|] == old(gl.log)
    ensures gl.log[|old(gl.log)|].Clear? && ClearMaskSelects(gl.log[|old(gl.log)|].mask, true, false)
    ensures gl.log[|old(gl.log)| + 1..] == [UseProgram(program.handle)] + MeshRenderCmds(mesh.vao, mesh.ebo.handle, mesh.elements)
  {
    gl.Clear(true, false);
    ghost var cleared := gl.log;
    program.Bind();
    mesh.Render();
    assert gl.log == cleared + [UseProgram(program.handle)] + MeshRenderCmds(mesh.vao, mesh.ebo.handle, mesh.elements);
    stop := false;
  }

  /** The demo's post-render closure: never asks the loop to stop. */
  function DemoPostRender(k: nat): (stop: bool)
    ensures !stop
  {
    false
  }

  // ------------------------------------------------------------ the demo loop

  /** The demo's handler stops a delivery exactly when one of the polled events is a quit. */
  lemma {:induction false} DemoDeliverStopsIffQuit(k: nat, events: seq<Win.Event>)
    ensures Win.Deliver(DemoCallbacks, k, events).stopped <==> exists j :: 0 <= j < |events| && IsQuit(events[j])
    decreases |events|
  {
    if |events| > 0 {
      var last := |events| - 1;
      var prefix := events[..last];
      DemoDeliverStopsIffQuit(k, prefix);
      if Win.Deliver(DemoCallbacks, k, prefix).stopped {
        var j :| 0 <= j < |prefix| && IsQuit(prefix[j]);
        assert events[j] == prefix[j];
      } else {
        assert forall j :: 0 <= j < last ==> events[j] == prefix[j];
      }
    }
  }

  lemma {:induction false} DemoRunStopsIffQuit(queue: nat -> seq<Win.Event>, n: nat)
    ensures Win.Run(DemoCallbacks, queue, n).stopped <==>
      exists k, j :: 0 <= k < n && 0 <= j < |queue(k)| && IsQuit(queue(k)[j])
  {
    if n > 0 {
      DemoRunStopsIffQuit(queue, n - 1);
      DemoDeliverStopsIffQuit(n - 1, queue(n - 1));
      if !Win.Run(DemoCallbacks, queue, n - 1).stopped {
        assert Win.Run(DemoCallbacks, queue, n).stopped == Win.Deliver(DemoCallbacks, n - 1, queue(n - 1)).stopped;
      }
    }
  }

  /**
   * The demo's loop returns (with Ok) exactly when some iteration it ran
   * polled a window Close or an Escape key-down; otherwise it keeps going.
   */
  lemma DemoLoopReturnsIffQuit(queue: nat -> seq<Win.Event>, fuel: nat)
    ensures Win.Loop(None, DemoCallbacks, queue, fuel).outcome == Win.Returned(Ok(())) <==>
      exists k, j :: 0 <= k < fuel && 0 <= j < |queue(k)| && IsQuit(queue(k)[j])
    ensures Win.Loop(None, DemoCallbacks, queue, fuel).outcome != Win.Returned(Ok(())) ==>
      Win.Loop(None, DemoCallbacks, queue, fuel).outcome == Win.StillRunning
  {
    DemoRunStopsIffQuit(queue, fuel);
  }

  /**
   * A resize to 640×480 and then Escape, with a Close still queued behind
   * them, during the first frame: the frame is drawn and swapped, the
   * viewport follows the resize before the handler sees it, the Escape
   * ends the loop with Ok, and the Close is never delivered.
   */
  lemma DemoResizeThenEscape(queue: nat -> seq<Win.Event>, fuel: nat)
    requires fuel >= 1
    requires queue(0) == [Win.Event.Window(Win.Resized(640, 480)), Win.KeyDown(Some(Win.Escape)), Win.Event.Window(Win.Close)]
    ensures Win.Loop(None, DemoCallbacks, queue, fuel) == Win.LoopResult(
      [Win.PreRender(0), Win.SwapWindow(0), Win.PostRender(0),
       Win.Viewport(0, 0, 640, 480), Win.HandleEvent(0, 0, Win.Event.Window(Win.Resized(640, 480))),
       Win.HandleEvent(0, 1, Win.KeyDown(Some(Win.Escape)))],
      Win.Returned(Ok(())))
  {
    var events := queue(0);
    assert events[..1][..0] == [];
    assert events[..2][..1] == events[..1];
    assert events[..3] == events;
    assert Win.Deliver(DemoCallbacks, 0, events[..1]) ==
      Win.Progress([Win.Viewport(0, 0, 640, 480), Win.HandleEvent(0, 0, events[0])], false);
    assert Win.Deliver(DemoCallbacks, 0, events[..2]).stopped;
    assert Win.Deliver(DemoCallbacks, 0, events) == Win.Deliver(DemoCallbacks, 0, events[..2]);
    assert Win.Run(DemoCallbacks, queue, 0) == Win.Progress([], false);
    Win.RunStaysStopped(DemoCallbacks, queue, 1, fuel);
  }
}
