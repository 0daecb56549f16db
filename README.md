# amazintosh_rs: a Dafny model of the GPU-resource layer and the frame loop

`amazintosh_rs` is a thin safety layer over OpenGL and SDL2, together with a
demo program (`src/main.rs`) that draws one coloured triangle. This project models
its resource-lifecycle and command-ordering contract, and proves properties of
that model.

The OpenGL backend is the class `Render.Gl`. Its `log` is the sequence of raw API
calls made so far. Its `oracle` gives what the API answers at each position in the
log:

- the handle a `Gen*`/`Create*` call returns;
- the integer a `Get*iv` query writes;
- the bytes an info-log fetch writes.

Every wrapper method is an ordered append to that log. Each component is a class
over the shared backend:

- `Buffers.Buffer` owns one buffer handle. It binds before every upload and
  deletes the handle once when dropped.
- `Meshes.Mesh` owns a vertex array object (VAO), a vertex buffer, an element
  buffer and an element count. Rendering does nothing while the count is 0.
- `Shaders.Shader` and `Shaders.ShaderProgram` run the info-log check (the
  `gl_error_check!` macro). The check queries the log length, fetches that many
  bytes into a buffer of spaces, decodes it as a NUL-terminated UTF-8 C string and
  trims it. `create_shader` has three error paths, each followed by the right
  cleanup. `from_shaders` attaches only the stages present, and detaches them
  again after a successful link.

Other parts of the model:

- **Vertex layouts.** The `Vertex` trait is the dictionary datatype
  `Vertex.VertexType`. It holds the record's byte image (`Mem.Layout`), the
  attribute descriptors and the render strategy.
- **The frame loop.** `SdlWindow::start_loop` is the method `Window.StartLoop`. It
  produces a trace of steps from the callbacks' answers and the events queued for
  each iteration. The specification it is proved against is the function
  `Window.Loop`.
- **The demo.** The demo's vertex type `PosVert`, its mesh and its three closures
  are in `App`.

Rust drop glue is modelled as explicit `Destroy()` methods plus a `destroyed`
flag. They are called exactly where the Rust code drops a value:

- An early `return` or a `?` inside `create_shader` drops the half-built
  `Shader`.
- A failed link check in `from_shaders` drops the program.
- The stage arguments of `from_shaders` are dropped when it returns, on every
  path, last argument first.
- A `Mesh` drops its VAO in its own `Drop`, then its buffer fields in declaration
  order.

Where the repository's written description and its code differ, the model
follows the code:

- **Mesh drop order.** The description says a mesh's buffers are released first
  and the VAO afterwards. In the code, `Drop for Mesh` deletes the VAO, and the
  fields `vbo` and `ebo` are dropped after it (`Meshes.Mesh.Destroy`).
- **Byte size overflow.** The description asks for a reported error when the byte
  size overflows. The code has no error path: it casts `len × size_of` with
  `as isize`, and that product never exceeds `isize::MAX` for a real slice. The
  model states that bound as a precondition.
- **Attribute offsets.** The description says attribute descriptors validate
  their offsets. `VertexAttribPointer::new` validates nothing.
  `Vertex.OffsetsWithinRecord` states the property, and it is proved for
  `PosVert` (`App.PosVertTypeRegisters`).
- **Link failures.** The description says a failed link is a link error. The
  code reports it as `ValidateError`. See "## Findings".
- **Allocation failure of buffers and meshes.** The description says a zero
  handle from the backend is a creation error. `Buffer::new`
  (amazintosh_rs/src/render/buffer.rs:39-46) and `Mesh::new`
  (amazintosh_rs/src/render/mesh.rs:55-62) store whatever `gen_buffer` and
  `gen_vertex_array` return, and have no error path. So
  `Buffers.Buffer.constructor` and `Meshes.Mesh.constructor` always succeed.
  Their `ensures` give the handles as exactly what the oracle answers, 0
  included, and a buffer or mesh holding handle 0 is live (`!destroyed`).
  Only the shader paths check for 0 (`CreateShaderFailed`,
  `CreateShaderProgramFailed`).

Integer widths follow the source:

- `usize` is 64 bits.
- `as u32` keeps the low 32 bits.
- `as GLsizei` / `as GLint` reads the low 32 bits as two's complement
  (`Ints.AsU32`, `Ints.AsI32`).

The GLenum constants carry their Khronos values and are used only as distinct
tags. Floats appear only as 32-bit patterns; no arithmetic is done on them.

Files:

| file | contents |
|---|---|
| `wrappers.dfy` | `Option`, `Result` |
| `ints.dfy` | integer types and casts |
| `gl_enum.dfy` | enums and their GL tags |
| `mem.dfy` | record layouts and byte images |
| `vertex.dfy` | attribute descriptors, the vertex dictionary |
| `rust_str.dfy` | UTF-8, `CString::from_vec_with_nul(..).to_str()`, `str::trim` |
| `render.dfy` | the call log and the `Gl` wrapper |
| `buffer.dfy`, `mesh.dfy`, `shader.dfy` | the resources |
| `window.dfy` | the frame loop |
| `app.dfy` | the demo |

## Model

| member | source | states |
|---|---|---|
| `Ints.AsU32` | amazintosh_rs/src/render/mod.rs:184 | the cast keeps `x` modulo 2^32, and is the identity exactly when `x < 2^32` |
| `Ints.AsI32` | amazintosh_rs/src/render/mod.rs:185 | the cast is congruent to `x` modulo 2^32, and is the identity exactly when `x < 2^31` |
| `GlEnum.BufferTarget` | amazintosh_rs/src/render/mod.rs:34-41 | ArrayBuffer maps to ARRAY_BUFFER and ElementArrayBuffer to ELEMENT_ARRAY_BUFFER, each an if-and-only-if, so the two targets are distinct |
| `GlEnum.UsageHint` | amazintosh_rs/src/render/mod.rs:43-49 | StaticDraw maps to STATIC_DRAW |
| `GlEnum.DrawMode` | amazintosh_rs/src/render/mod.rs:51-57 | Triangles maps to TRIANGLES |
| `GlEnum.DataTypeTag` | amazintosh_rs/src/render/mod.rs:63-73 | f32 maps to FLOAT and u16 to UNSIGNED_SHORT, each an if-and-only-if |
| `GlEnum.GlBool` | amazintosh_rs/src/render/mod.rs:187-191 | true maps to TRUE and false to FALSE, each an if-and-only-if |
| `GlEnum.ClearMaskUnique` | amazintosh_rs/src/render/mod.rs:101-108 | at most one mask has exactly COLOR_BUFFER_BIT iff color and DEPTH_BUFFER_BIT iff depth, so `clear`'s mask is determined by its arguments |
| `Mem.FlattenLength` | amazintosh_rs/src/render/mod.rs:138 | the byte image of a slice is `len × size_of` bytes long |
| `Mem.FlattenRecord` | amazintosh_rs/src/render/mod.rs:150-155 | record k occupies bytes `[k·size, (k+1)·size)` of the uploaded image, unchanged |
| `Mem.FlattenRecords` | amazintosh_rs/src/render/mod.rs:150-155 | the image holds every record at its place, in order |
| `Mem.U16Bytes` | amazintosh_rs/src/render/mod.rs:69-73 | a u16 in memory is 2 bytes whose little-endian value is the number |
| `Mem.U32Bytes` | src/main.rs:13-18 | a 32-bit word in memory is 4 bytes whose little-endian value is the word |
| `Vertex.NewAttribPointer` | amazintosh_rs/src/render/vertex.rs:15-28 | index, size, normalized and offset are stored unchanged without validation; the data type is the scalar's tag, FLOAT for f32 |
| `RustStr.DecodeFirst` | amazintosh_rs/src/render/shader.rs:41-42 | a decoded scalar occupies between 1 byte and the rest of the input |
| `RustStr.EncodeChar` | amazintosh_rs/src/render/shader.rs:115 | a scalar's UTF-8 encoding is 1 to 4 bytes, starts with a zero byte only for U+0000, and the rest are continuation bytes |
| `RustStr.DecodeFirstEncodeChar` | amazintosh_rs/src/render/shader.rs:41-42 | decoding the front of an encoded scalar gives back that scalar and its length |
| `RustStr.Utf8RoundTrip` | amazintosh_rs/src/render/shader.rs:41-42 | every string's UTF-8 bytes are valid and decode back to it |
| `RustStr.DecodeFirstIsEncoding` | amazintosh_rs/src/render/shader.rs:41-42 | whatever the decoder accepts at the front is exactly the encoding of what it yields |
| `RustStr.Utf8DecodeStep` | amazintosh_rs/src/render/shader.rs:41-42 | a valid non-empty byte string is one scalar's encoding followed by the encoding of the rest of the text |
| `RustStr.Utf8DecodeIsEncoding` | amazintosh_rs/src/render/shader.rs:41-42 | the decoder accepts only encodings: a valid byte string is the encoding of its decoding |
| `RustStr.Utf8EncodeNul` | amazintosh_rs/src/render/shader.rs:115 | the encoding holds a zero byte exactly when the string holds U+0000, which is what `CString::new` rejects |
| `RustStr.CStrToStr` | amazintosh_rs/src/render/shader.rs:39-43 | an accepted buffer is a NUL-free text's encoding followed by one NUL |
| `RustStr.CStrToStrAccepts` | amazintosh_rs/src/render/shader.rs:39-43 | every NUL-free text encoded with its terminating NUL is accepted and yields that text |
| `RustStr.CStrToStrComplete` | amazintosh_rs/src/render/shader.rs:39-43 | such a buffer ends with its only NUL, and the bytes before it decode to the text |
| `RustStr.TrimStart` | amazintosh_rs/src/render/shader.rs:47 | the result is a suffix, only whitespace was removed, and it starts with a non-whitespace character |
| `RustStr.TrimEnd` | amazintosh_rs/src/render/shader.rs:47 | the result is a prefix, only whitespace was removed, and it ends with a non-whitespace character |
| `RustStr.Trim` | amazintosh_rs/src/render/shader.rs:47 | only whitespace is removed, only at the two ends, and neither end of the result is whitespace |
| `Render.AttribPointerPassesThrough` | amazintosh_rs/src/render/mod.rs:181-196 | for in-range values, the raw call carries index, size, data type and offset unchanged, the stride given, and TRUE exactly when normalized |
| `Render.CallCmds` | amazintosh_rs/src/render/mod.rs:198-225 | a handler-call sequence becomes one raw call per handler call, in the same order: the i-th command is the i-th call's enable, disable or draw |
| `Render.UploadCarriesRecords` | amazintosh_rs/src/render/mod.rs:138-156 | an upload is two BufferData calls with the same target, usage and size; the first has a null payload, the second carries the records in place |
| `Render.Overwrite` | amazintosh_rs/src/render/shader.rs:30-35 | a fetch overwrites only the first `min(maxLength, written)` bytes and keeps the buffer's length |
| `Render.Gl.constructor` | amazintosh_rs/src/render/mod.rs:82-84 | a fresh backend has made no call |
| `Render.Gl.Clear` | amazintosh_rs/src/render/mod.rs:95-113 | `clear(false, false)` makes no call; otherwise exactly one Clear whose mask selects exactly the requested buffers |
| `Render.Gl.GenBuffer` | amazintosh_rs/src/render/mod.rs:117-123 | one GenBuffers; returns the handle the API answered |
| `Render.Gl.BindBuffer` | amazintosh_rs/src/render/mod.rs:125-129 | one BindBuffer of the type's target and the handle |
| `Render.Gl.BufferData` | amazintosh_rs/src/render/mod.rs:131-157 | the invalidate-then-fill pair, sized `len × size_of` |
| `Render.Gl.DeleteBuffer` | amazintosh_rs/src/render/mod.rs:159-163 | one DeleteBuffers of the handle |
| `Render.Gl.GenVertexArray` | amazintosh_rs/src/render/mod.rs:167-173 | one GenVertexArrays; returns the answered handle |
| `Render.Gl.DeleteVertexArray` | amazintosh_rs/src/render/mod.rs:175-179 | one DeleteVertexArrays of the handle |
| `Render.Gl.VertexAttribPointer` | amazintosh_rs/src/render/mod.rs:181-196 | one VertexAttribPointer whose stride is the vertex type's record size |
| `Render.Gl.EnableAttribArray` | amazintosh_rs/src/render/mod.rs:198-202 | one EnableVertexAttribArray of the index cast to u32 |
| `Render.Gl.DisableAttribArray` | amazintosh_rs/src/render/mod.rs:204-208 | one DisableVertexAttribArray of the index cast to u32 |
| `Render.Gl.BindVertexArray` | amazintosh_rs/src/render/mod.rs:210-214 | one BindVertexArray of the handle |
| `Render.Gl.DrawElements` | amazintosh_rs/src/render/mod.rs:216-225 | one DrawElements with the mode's tag, the count cast to GLsizei and the index type's tag |
| `Render.Gl.IssueCalls` | amazintosh_rs/src/render/vertex.rs:34 | a render strategy's handler calls reach the log in order, one raw call each |
| `Render.Gl.CreateShader` | amazintosh_rs/src/render/shader.rs:105 | one CreateShader of the kind; returns the answered handle |
| `Render.Gl.ShaderSource` | amazintosh_rs/src/render/shader.rs:119 | one ShaderSource of the handle and the C string |
| `Render.Gl.CompileShader` | amazintosh_rs/src/render/shader.rs:122 | one CompileShader |
| `Render.Gl.GetShaderiv` | amazintosh_rs/src/render/shader.rs:12-19 | one query; returns the answered value |
| `Render.Gl.GetShaderInfoLog` | amazintosh_rs/src/render/shader.rs:30-35 | one fetch of at most `maxLength` bytes written over the front of the buffer |
| `Render.Gl.DeleteShader` | amazintosh_rs/src/render/shader.rs:139-148 | one DeleteShader |
| `Render.Gl.CreateProgram` | amazintosh_rs/src/render/shader.rs:167 | one CreateProgram; returns the answered handle |
| `Render.Gl.AttachShader` | amazintosh_rs/src/render/shader.rs:182 | one AttachShader |
| `Render.Gl.DetachShader` | amazintosh_rs/src/render/shader.rs:214 | one DetachShader |
| `Render.Gl.LinkProgram` | amazintosh_rs/src/render/shader.rs:196 | one LinkProgram |
| `Render.Gl.GetProgramiv` | amazintosh_rs/src/render/shader.rs:12-19 | one query; returns the answered value |
| `Render.Gl.GetProgramInfoLog` | amazintosh_rs/src/render/shader.rs:30-35 | one fetch written over the front of the buffer |
| `Render.Gl.ValidateProgram` | amazintosh_rs/src/render/shader.rs:236 | one ValidateProgram |
| `Render.Gl.UseProgram` | amazintosh_rs/src/render/shader.rs:251 | one UseProgram |
| `Render.Gl.DeleteProgram` | amazintosh_rs/src/render/shader.rs:262 | one DeleteProgram |
| `Render.WriteInfoLog` | amazintosh_rs/src/render/shader.rs:30-35 | the array afterwards is the buffer with the written bytes over its front |
| `Buffers.Buffer.constructor` | amazintosh_rs/src/render/buffer.rs:39-46 | exactly one GenBuffers, whose answer becomes the handle; type and layout as given; handle and type never change afterwards (`const`) |
| `Buffers.Buffer.Bind` | amazintosh_rs/src/render/buffer.rs:48-51 | one bind of the buffer's own target and handle |
| `Buffers.Buffer.BufferData` | amazintosh_rs/src/render/buffer.rs:53-57 | bind first, then the invalidate-then-fill upload to the buffer's own target, carrying the records unchanged |
| `Buffers.Buffer.Destroy` | amazintosh_rs/src/render/buffer.rs:60-69 | exactly one DeleteBuffers of the handle; afterwards the buffer is dropped and cannot be used |
| `Meshes.AttribCmds` | amazintosh_rs/src/render/mesh.rs:67-69 | one attribute-pointer call per descriptor, in `attrib_pointers()` order, each with the record size as stride |
| `Meshes.Mesh.constructor` | amazintosh_rs/src/render/mesh.rs:55-72 | VAO, vbo, ebo generated in that order from the answered handles; vbo is an ArrayBuffer and ebo an ElementArrayBuffer; VAO then vbo bound; the pointers registered in order; `elements == 0` |
| `Meshes.Mesh.Bind` | amazintosh_rs/src/render/mesh.rs:102-104 | one bind of the VAO |
| `Meshes.Mesh.SetVertices` | amazintosh_rs/src/render/mesh.rs:74-78 | VAO bound before the vbo's bind and upload; `elements` unchanged |
| `Meshes.Mesh.SetIndices` | amazintosh_rs/src/render/mesh.rs:80-88 | VAO bound before the ebo's upload; `elements` becomes the new index count, replacing the old one |
| `Meshes.Mesh.Render` | amazintosh_rs/src/render/mesh.rs:90-100 | nothing when `elements == 0`; otherwise bind VAO, bind ebo, then the vertex type's render calls for exactly `elements` |
| `Meshes.Mesh.Destroy` | amazintosh_rs/src/render/mesh.rs:107-115 | the VAO is deleted once, then vbo and ebo once each, in field order |
| `Shaders.ShaderKind` | amazintosh_rs/src/render/shader.rs:61-68 | each stage maps to its own shader enum, each an if-and-only-if |
| `Shaders.Report` | amazintosh_rs/src/render/shader.rs:47 | the error variant is the one the check was given, carrying the text |
| `Shaders.Spaces` | amazintosh_rs/src/render/shader.rs:25-27 | the log buffer starts as exactly `length` spaces |
| `Shaders.CheckCmds` | amazintosh_rs/src/render/shader.rs:12-35 | the check makes only the length query exactly when the length is not positive |
| `Shaders.CheckOutcome` | amazintosh_rs/src/render/shader.rs:22-50 | the check succeeds exactly when the reported log length is not positive |
| `Shaders.CheckReportsTrimmedLog` | amazintosh_rs/src/render/shader.rs:22-47 | a failed check reports `Unknown` exactly when the fetched buffer is not a C string, and otherwise the decoded text, trimmed |
| `Shaders.WellFormedLogReported` | amazintosh_rs/src/render/shader.rs:22-47 | a log written as promised (text, NUL, `length` bytes) is reported as that text, trimmed, under the check's error variant |
| `Shaders.ShortLogIsUnknown` | amazintosh_rs/src/render/shader.rs:25-42 | a log shorter than its reported length leaves a trailing space, so `Unknown` |
| `Shaders.ErrorCheck` | amazintosh_rs/src/render/shader.rs:8-52 | the macro's calls and its result are those of the check at the current log position |
| `Shaders.CreateShaderStopsEarly` | amazintosh_rs/src/render/shader.rs:105-115 | a zero handle gives `CreateShaderFailed` after the one call; a NUL in the source gives `InvalidSourceString` with no source and no compile |
| `Shaders.CreateShaderCompiles` | amazintosh_rs/src/render/shader.rs:113-135 | with a live handle and a NUL-free source, `create_shader` goes on to source, compile and check |
| `Shaders.DeleteShaderCount` | amazintosh_rs/src/render/shader.rs:101-148 | the created shader is deleted once if the source holds a NUL or the compile check fails, and never otherwise |
| `Shaders.CreateShaderDeletesOnFailure` | amazintosh_rs/src/render/shader.rs:101-148 | a created shader is deleted exactly once when `create_shader` fails, and not at all when it succeeds |
| `Shaders.CompiledSourceIsTheText` | amazintosh_rs/src/render/shader.rs:115-119 | the bytes handed to ShaderSource decode back to the source text |
| `Shaders.Shader.constructor` | amazintosh_rs/src/render/shader.rs:101-111 | wraps the created handle as a live shader |
| `Shaders.Shader.CreateShader` | amazintosh_rs/src/render/shader.rs:94-136 | the calls and the result are those of `create_shader` at the current log position; a success is a fresh live shader |
| `Shaders.Shader.LoadAndCompile` | amazintosh_rs/src/render/shader.rs:117-135 | source, compile, check, and a DeleteShader only on failure; a success returns the same shader, still live |
| `Shaders.Shader.Destroy` | amazintosh_rs/src/render/shader.rs:139-148 | exactly one DeleteShader of the handle |
| `Shaders.DetachesMatchAttaches` | amazintosh_rs/src/render/shader.rs:177-221 | attaches and detaches have one entry per present stage; detach i undoes attach i; a handle is attached (detached) exactly when it is a present stage |
| `Shaders.DropStages` | amazintosh_rs/src/render/shader.rs:157-162 | the stage arguments are dropped last argument first, each present one once |
| `Shaders.AttachStage` | amazintosh_rs/src/render/shader.rs:177-189 | a present stage is attached and its handle returned; an absent one costs nothing |
| `Shaders.DetachStage` | amazintosh_rs/src/render/shader.rs:210-218 | a present handle is detached; an absent one costs nothing |
| `Shaders.AttachAll` | amazintosh_rs/src/render/shader.rs:190-192 | the attaches in the order vertex, geometry, fragment; returns the handles of the present stages |
| `Shaders.DetachAll` | amazintosh_rs/src/render/shader.rs:219-221 | the detaches in the same order |
| `Shaders.FromShadersCreated` | amazintosh_rs/src/render/shader.rs:163-174 | once the program exists, `from_shaders` proceeds from the next log position |
| `Shaders.FromShadersDropsStagesLast` | amazintosh_rs/src/render/shader.rs:157-227 | on every path the stage arguments are deleted last, after every other call |
| `Shaders.FromShadersAttachesPresentStages` | amazintosh_rs/src/render/shader.rs:176-192 | exactly the present stages are attached to the program |
| `Shaders.FromShadersPieces` | amazintosh_rs/src/render/shader.rs:163-227 | the full call order: create, attaches, link, check, then detaches or the program's delete, then the stage drops |
| `Shaders.FromShadersFailsIffCheckFails` | amazintosh_rs/src/render/shader.rs:199-206 | once the program exists, `from_shaders` fails exactly when the link check does not pass |
| `Shaders.FromShadersErrors` | amazintosh_rs/src/render/shader.rs:164-206 | every error `from_shaders` returns: `CreateShaderProgramFailed` when the program handle is 0, otherwise `Unknown` or the trimmed log under the check's variant |
| `Shaders.FromShadersNeverReportsLinkError` | amazintosh_rs/src/render/shader.rs:176-206 | as written, for every input: no failure of `from_shaders` is a `LinkError`, and a failed link is `Unknown` or a `ValidateError` |
| `Shaders.FromShadersReportingLinkErrors` | amazintosh_rs/src/render/shader.rs:176-206 | corrected, for every input: no failure is a `ValidateError`, and a failed link is `Unknown` or a `LinkError` |
| `Shaders.DeleteProgramCount` | amazintosh_rs/src/render/shader.rs:199-206 | the program is deleted once if the link check fails, and never otherwise |
| `Shaders.FromShadersDeletesProgramOnFailure` | amazintosh_rs/src/render/shader.rs:256-265 | a created program is deleted exactly once when `from_shaders` fails, and not at all when it succeeds |
| `Shaders.FromShadersFailureDetachesNothing` | amazintosh_rs/src/render/shader.rs:199-221 | a failed `from_shaders` detaches nothing |
| `Shaders.FromShadersDetachesAttached` | amazintosh_rs/src/render/shader.rs:176-221 | after a successful link, a stage is detached exactly when it was attached |
| `Shaders.LinkFailureReportedAsValidateError` | amazintosh_rs/src/render/shader.rs:200-206 | as written: a link leaving the log "error" fails with `ValidateError("error")`, never with `LinkError` |
| `Shaders.LinkFailureReportedAsLinkError` | amazintosh_rs/src/render/shader.rs:199-206 | corrected: the same link fails with `LinkError("error")`, never with `ValidateError` |
| `Shaders.ShaderProgram.constructor` | amazintosh_rs/src/render/shader.rs:163-174 | wraps the created program as live |
| `Shaders.ShaderProgram.Build` | amazintosh_rs/src/render/shader.rs:157-227 | the calls and the result are those of `from_shaders` with the given link error variant; every stage is dropped; a success is a fresh live program |
| `Shaders.ShaderProgram.LinkStages` | amazintosh_rs/src/render/shader.rs:176-227 | once the program exists: attach, link, check, then detach or drop the program, then drop the stages |
| `Shaders.ShaderProgram.CheckAftermath` | amazintosh_rs/src/render/shader.rs:206-221 | a passed check detaches the attached stages; a failed one deletes the program and marks it dropped |
| `Shaders.ShaderProgram.FromShaders` | amazintosh_rs/src/render/shader.rs:157-227 | `from_shaders` as written, with a failed link reported as `ValidateError` |
| `Shaders.ShaderProgram.FromShadersReportingLink` | amazintosh_rs/src/render/shader.rs:199-206 | `from_shaders` with a failed link reported as `LinkError` |
| `Shaders.ShaderProgram.Validate` | amazintosh_rs/src/render/shader.rs:233-247 | one ValidateProgram, then the check with `ValidateError` |
| `Shaders.ShaderProgram.Bind` | amazintosh_rs/src/render/shader.rs:249-253 | one UseProgram of the handle |
| `Shaders.ShaderProgram.Destroy` | amazintosh_rs/src/render/shader.rs:256-265 | exactly one DeleteProgram of the handle |
| `Window.StartLoop` | amazintosh_rs/src/window.rs:132-186 | the loop's trace and outcome are `Loop`'s for the same callbacks, events and fuel |
| `Window.RunIteration` | amazintosh_rs/src/window.rs:151-181 | one pass: pre-render, swap, post-render, then the events, stopping at the first callback that answers true |
| `Window.PollEvents` | amazintosh_rs/src/window.rs:166-181 | the events in order, a Viewport before each resize, ending at the first handler that answers true |
| `Window.RunStaysStopped` | amazintosh_rs/src/window.rs:151-155 | a stopped loop adds nothing in later iterations |
| `Window.DeliverStaysStopped` | amazintosh_rs/src/window.rs:178-180 | once a handler stops the delivery, the later events are not delivered |
| `Window.DeliverStopsAtEnd` | amazintosh_rs/src/window.rs:166-181 | in a delivery, only the last step can be a stop, and it is one exactly when the delivery stopped |
| `Window.IterationStopsAtEnd` | amazintosh_rs/src/window.rs:151-181 | the same for one iteration |
| `Window.RunStopsAtEnd` | amazintosh_rs/src/window.rs:151-182 | the same for any number of iterations |
| `Window.LoopStopsImmediately` | amazintosh_rs/src/window.rs:143-186 | `Err` exactly when the pump fails, with nothing run; every other return is `Ok(())` right after the first stop request; a running loop holds no stop request |
| `Window.EventStepsPiece` | amazintosh_rs/src/window.rs:166-180 | one event's steps fit the adjacency rules |
| `Window.DeliverPiece` | amazintosh_rs/src/window.rs:166-181 | a delivery's trace fits the rules |
| `Window.IterationPiece` | amazintosh_rs/src/window.rs:151-181 | an iteration's trace fits the rules |
| `Window.RunPiece` | amazintosh_rs/src/window.rs:151-182 | a run's trace fits the rules |
| `Window.PieceAdjacent` | amazintosh_rs/src/window.rs:153-174 | a trace fitting the rules has a passed pre-render directly followed by the swap and then post-render, and a Viewport exactly right before each resize |
| `Window.LoopStepsAdjacent` | amazintosh_rs/src/window.rs:151-182 | in the loop's trace, a passed pre-render is directly followed by the swap and the swap by post-render; the viewport follows a resize right before its handler, and at no other time |
| `Window.DeliverOrdered` | amazintosh_rs/src/window.rs:166-181 | a delivery's steps are ordered by polled position, within the event ranks of the iteration |
| `Window.IterationOrdered` | amazintosh_rs/src/window.rs:151-181 | an iteration's steps come in the order pre-render, swap, post-render, events |
| `Window.RunOrdered` | amazintosh_rs/src/window.rs:151-182 | a run's steps are ordered and belong to the iterations that ran |
| `Window.LoopStepsInOrder` | amazintosh_rs/src/window.rs:151-182 | the loop's trace is in strict (iteration, step) order |
| `Window.DeliverFaithful` | amazintosh_rs/src/window.rs:166-181 | the handler sees only the queued events, at their positions, and all of them unless it stops |
| `Window.IterationFaithful` | amazintosh_rs/src/window.rs:151-181 | the same for one iteration |
| `Window.RunHandledAsQueued` | amazintosh_rs/src/window.rs:151-182 | every event handled in a run is the one queued for that iteration and position |
| `Window.RunLosesNothing` | amazintosh_rs/src/window.rs:151-182 | a run that was not stopped delivered every event queued for the iterations it ran |
| `Window.LoopDeliversQueue` | amazintosh_rs/src/window.rs:166-181 | the handler sees exactly the polled events; a loop out of fuel but never stopped delivered all of them |
| `Window.IterationSwapCount` | amazintosh_rs/src/window.rs:153-158 | in an iteration, the swaps equal the pre-render calls that answered false |
| `Window.RunSwapCount` | amazintosh_rs/src/window.rs:151-182 | the same for a run |
| `Window.LoopSwapsMatchPassedPreRenders` | amazintosh_rs/src/window.rs:151-186 | the loop swaps once for every pre-render that answered false, and never otherwise |
| `App.Vec3Bytes` | src/main.rs:16-17 | a `Vec3` is 12 bytes: its three components in order, little-endian |
| `App.PosVertBytes` | src/main.rs:13-18 | a `PosVert` is the position's 12 bytes then the colour's, with no padding |
| `App.PosVertAttribPointersLocateFields` | src/main.rs:28-33 | exactly two descriptors: slot i holds three non-normalized FLOATs whose bytes in a record are field i's |
| `App.PosVertRenderPairsEnables` | src/main.rs:35-41 | a render enables only slots 0 and 1, draws once (triangles, u16, the given count) with both enabled, and disables every enabled slot after the draw |
| `App.PosVertTypeRegisters` | src/main.rs:28-33 | records are 24 bytes, offsets lie inside a record, and `Mesh::new` registers slot 0 at offset 0 and slot 1 at offset 12, stride 24 |
| `App.DemoRenderCalls` | src/main.rs:35-41 | the raw calls of rendering three indices: enable 0 and 1, a triangle draw of 3 unsigned shorts, disable 0 and 1 |
| `App.DemoIndexBytes` | src/main.rs:90 | the demo indices 0, 1, 2 are uploaded as six little-endian bytes |
| `App.BuildDemoMesh` | src/main.rs:82-96 | the demo mesh's full call log: creation, 72 vertex bytes, 6 index bytes; it is left with three elements |
| `App.DemoHandleEvent` | src/main.rs:118-128 | the event closure answers true exactly for a window Close or a key-down of Escape |
| `App.DemoPreRender` | src/main.rs:106-116 | clear the colour buffer only, bind the program, render the mesh, and answer false |
| `App.DemoPostRender` | src/main.rs:117 | always answers false |
| `App.DemoDeliverStopsIffQuit` | src/main.rs:118-128 | a delivery stops exactly when a polled event is a quit |
| `App.DemoRunStopsIffQuit` | src/main.rs:100-130 | a run stops exactly when some iteration polled a quit |
| `App.DemoLoopReturnsIffQuit` | src/main.rs:100-130 | the demo loop returns `Ok(())` exactly when a quit was polled; otherwise it is still running |
| `App.DemoResizeThenEscape` | src/main.rs:100-130 | resize then Escape (with a Close behind them) in the first frame: draw, swap, viewport, two handled events, `Ok(())`, and the Close is never delivered |

## Left out

- The generated GL bindings and the raw unsafe calls. Each is a log entry, and the oracle supplies what they answer. The API's own semantics (what a link or a draw actually does) are not modelled.
- `SdlWindow::new`, `set_title`, `set_size`, `hide` and `ctx`. These are SDL plumbing. `ctx()` always answers `Some`, so the demo's pre-render always clears. Swapping is a trace step, and the event pump is an input queue per iteration.
- `Gl::set_clear_color` and `render/types.rs`. These are floating-point colour conversions. Vertex floats are carried only as their bit patterns.
- The `Rc` sharing of the backend. All resources refer to one `Gl` object.
- The `println!` logging in the drops, and the unused `_uniforms` map.
- `main()`'s wiring: the shader source files (`include_str!`), the `.expect` calls, and the `AppState` record. The demo closures take the mesh and program directly.
- `lib.rs` and `build.rs`, which hold module declarations and the binding generator only.
- Render strategies are limited to enable, disable and draw, the calls the `Vertex` trait's `render` can make through the handler in this repository.
- Window events are limited to the kinds the loop and the demo tell apart: resize, close, a key-down with or without a key code, and a catch-all.
- Callbacks are functions of the iteration number (and, for the handler, of the event's position and the event). The callbacks' mutable `data` is not modelled. The demo's pre-render is proved on its own (`App.DemoPreRender`), and its answer (false) is what the loop uses.
- Window.StartLoop: the unbounded `'running` loop is cut off after a fuel bound of iterations, reported as `StillRunning`. Behaviour after that many iterations is not modelled.
- Render.Gl.BufferData: requires the byte size to fit in `isize`, which every Rust slice guarantees. The wrapping `as isize` cast is therefore not modelled.
- Buffers.Buffer.BufferData: carries the same `isize` bound on the byte size.
- Meshes.Mesh.SetVertices: carries the same `isize` bound on the byte size.
- Meshes.Mesh.SetIndices: carries the same `isize` bound, and the index count fits in a `usize`.
- RustStr.CStrToStr: its own contract states only that an accepted buffer is a C string. That every C string is accepted is the separate lemma `RustStr.CStrToStrAccepts`.
- Memory layout assumes a little-endian target and `#[repr(C)]` records without padding, as `PosVert` is.

## Findings

| source | as written | input that shows it | evidently intended | confidence | as-written member | corrected member |
|---|---|---|---|---|---|---|
| amazintosh_rs/src/render/shader.rs:205 | the link check of `from_shaders` reports a failed link as `ShaderError::ValidateError`; `LinkError` is never built anywhere | a vertex and a fragment stage whose link leaves the 6-byte info log `error` plus NUL | a failed link is reported as `LinkError` with the trimmed log, as the variant's name and the comment "Check for link errors" say | not executed | `Shaders.FromShadersNeverReportsLinkError` and the witness `Shaders.LinkFailureReportedAsValidateError` (about `Shaders.ShaderProgram.FromShaders`) | `Shaders.FromShadersReportingLinkErrors` and the witness `Shaders.LinkFailureReportedAsLinkError` (about `Shaders.ShaderProgram.FromShadersReportingLink`) |
