/**
 * Shader objects and shader programs, and the info-log check that follows a
 * compile, a link or a validation. A failed step is recognised by the
 * object's info log being non-empty; the log is fetched into a buffer of the
 * reported length, read back as a NUL-terminated UTF-8 string and reported
 * with surrounding whitespace trimmed.
 */
module Shaders {
  import opened Ints
  import opened Wrappers
  import opened GlEnum
  import opened RustStr
  import opened Render

  datatype ShaderType = VertexShader | GeometryShader | FragmentShader

  /** `ShaderType::gl_enum`. */
  function ShaderKind(t: ShaderType): (e: GLenum)
    ensures e == VERTEX_SHADER <==> t == VertexShader
    ensures e == GEOMETRY_SHADER <==> t == GeometryShader
    ensures e == FRAGMENT_SHADER <==> t == FragmentShader
  {
    match t
    case VertexShader => VERTEX_SHADER
    case GeometryShader => GEOMETRY_SHADER
    case FragmentShader => FRAGMENT_SHADER
  }

  datatype ShaderError =
    | CreateShaderFailed
    | InvalidSourceString
    | Unknown
    | CompileError(message: string)
    | CreateShaderProgramFailed
    | LinkError(message: string)
    | ValidateError(message: string)

  /** The error variant a failed check reports its text with. */
  datatype ErrorKind = Compile | Link | Validate

  function Report(kind: ErrorKind, text: string): (e: ShaderError)
    ensures e.CompileError? <==> kind == Compile
    ensures e.LinkError? <==> kind == Link
    ensures e.ValidateError? <==> kind == Validate
    ensures (e.CompileError? || e.LinkError? || e.ValidateError?) && e.message == text
  {
    match kind
    case Compile => CompileError(text)
    case Link => LinkError(text)
    case Validate => ValidateError(text)
  }

  /** Whose info log the check reads: a shader's (`GetShaderiv`/`GetShaderInfoLog`) or a program's. */
  datatype LogSource = ShaderLog | ProgramLog

  function LengthQuery(src: LogSource, handle: u32, value: i32): Cmd {
    match src
    case ShaderLog => GetShaderiv(handle, INFO_LOG_LENGTH, value)
    case ProgramLog => GetProgramiv(handle, INFO_LOG_LENGTH, value)
  }

  function LogFetch(src: LogSource, handle: u32, maxLength: i32): Cmd {
    match src
    case ShaderLog => GetShaderInfoLog(handle, maxLength)
    case ProgramLog => GetProgramInfoLog(handle, maxLength)
  }

  function Spaces(n: nat): (r: seq<u8>)
    ensures |r| == n && forall i :: 0 <= i < n ==> r[i] == SPACE
  {
    seq(n, _ => SPACE)
  }

  /**
   * The buffer the check decodes when the length query at log position `n`
   * answered `length`: `length` spaces, overwritten at the front by what the
   * fetch at position `n + 1` writes.
   */
  function FetchedLog(o: Oracle, n: nat, length: nat): seq<u8> {
    Overwrite(Spaces(length), o.infoLog(n + 1), length)
  }

  /** The check starting at log position `n` passes: the info-log length it is told is not positive. */
  predicate CheckPasses(o: Oracle, n: nat) {
    o.param(n) <= 0
  }

  /** The calls the check makes from log position `n`: the length query and, for a positive length, one fetch of that many bytes. */
  function CheckCmds(o: Oracle, n: nat, src: LogSource, handle: u32): (cmds: seq<Cmd>)
    ensures |cmds| == 1 <==> o.param(n) <= 0
  {
    var length := o.param(n);
    [LengthQuery(src, handle, length)] + if length > 0 then [LogFetch(src, handle, length)] else []
  }

  /** What the check returns when it starts at log position `n`. */
  function CheckOutcome(o: Oracle, n: nat, kind: ErrorKind): (r: Result<(), ShaderError>)
    ensures r.Ok? <==> CheckPasses(o, n)
  {
    var length := o.param(n);
    if length <= 0 then
      Ok(())
    else
      match CStrToStr(FetchedLog(o, n, length))
      case None => Err(Unknown)
      case Some(text) => Err(Report(kind, Trim(text)))
  }

  /** `v` is what `CString::from_vec_with_nul(..).to_str()` accepts: text without NUL, UTF-8 encoded, then one NUL. */
  ghost predicate IsCString(v: seq<u8>) {
    exists t :: v == Utf8Encode(t) + [NUL] && '\0' !in t
  }

  /**
   * A failed check reports `Unknown` exactly when the fetched buffer is not a
   * C string, and otherwise the decoded text with whitespace trimmed from
   * both ends.
   */
  lemma {:induction false} CheckReportsTrimmedLog(o: Oracle, n: nat, kind: ErrorKind)
    requires o.param(n) > 0
    ensures CheckOutcome(o, n, kind) == Err(Unknown) <==> !IsCString(FetchedLog(o, n, o.param(n)))
    ensures CheckOutcome(o, n, kind) != Err(Unknown) ==>
      exists t :: FetchedLog(o, n, o.param(n)) == Utf8Encode(t) + [NUL]
        && CheckOutcome(o, n, kind) == Err(Report(kind, Trim(t))) && StrippedAtEnds(t, Trim(t))
  {
    var v := FetchedLog(o, n, o.param(n));
    var d := CStrToStr(v);
    assert CheckOutcome(o, n, kind) == if d.None? then Err(Unknown) else Err(Report(kind, Trim(d.value)));
    if IsCString(v) {
      var t :| v == Utf8Encode(t) + [NUL] && '\0' !in t;
      CStrToStrAccepts(v, t);
      assert CheckOutcome(o, n, kind) == Err(Report(kind, Trim(t)));
    }
  }

  /**
   * When the API writes its log as the length query promised (the text, UTF-8
   * encoded, and a NUL, `length` bytes in all), the check reports exactly that
   * text, trimmed.
   */
  lemma {:induction false} WellFormedLogReported(o: Oracle, n: nat, kind: ErrorKind, text: string)
    requires '\0' !in text
    requires o.infoLog(n + 1) == Utf8Encode(text) + [NUL]
    requires o.param(n) == |Utf8Encode(text)| + 1
    ensures CheckOutcome(o, n, kind) == Err(Report(kind, Trim(text)))
  {
    var v := FetchedLog(o, n, o.param(n));
    assert v == Utf8Encode(text) + [NUL];
    CStrToStrAccepts(v, text);
  }

  /** A log shorter than the reported length leaves a trailing space in the buffer, which is then no C string: `Unknown`. */
  lemma {:induction false} ShortLogIsUnknown(o: Oracle, n: nat, kind: ErrorKind)
    requires o.param(n) > 0 && |o.infoLog(n + 1)| < o.param(n)
    ensures CheckOutcome(o, n, kind) == Err(Unknown)
  {
    var v := FetchedLog(o, n, o.param(n));
    assert v[|v| - 1] == SPACE;
  }

  /**
   * The `gl_error_check!` protocol on `handle`: query the info-log length; if it
   * is positive, fetch that many bytes into a buffer of spaces, decode it and
   * fail with `kind`, else succeed.
   */
  method ErrorCheck(gl: Gl, handle: u32, src: LogSource, kind: ErrorKind) returns (r: Result<(), ShaderError>)
    modifies gl
    ensures r == CheckOutcome(gl.oracle, |old(gl.log)|, kind)
    ensures gl.log == old(gl.log) + CheckCmds(gl.oracle, |old(gl.log)|, src, handle)
  {
    ghost var n := |gl.log|;
    var infoLogLength: i32;
    if src == ShaderLog {
      infoLogLength := gl.GetShaderiv(handle, INFO_LOG_LENGTH);
    } else {
      infoLogLength := gl.GetProgramiv(handle, INFO_LOG_LENGTH);
    }
    assert gl.log == old(gl.log) + [LengthQuery(src, handle, infoLogLength)];
    if infoLogLength > 0 {
      var buffer := new u8[infoLogLength](_ => SPACE);
      assert buffer[..] == Spaces(infoLogLength);
      if src == ShaderLog {
        gl.GetShaderInfoLog(handle, infoLogLength, buffer);
      } else {
        gl.GetProgramInfoLog(handle, infoLogLength, buffer);
      }
      assert buffer[..] == FetchedLog(gl.oracle, n, infoLogLength);
      assert gl.log == old(gl.log) + CheckCmds(gl.oracle, n, src, handle);
      var text := CStrToStr(buffer[..]);
      if text.None? {
        return Err(Unknown);
      }
      return Err(Report(kind, Trim(text.value)));
    }
    return Ok(());
  }


  /** What `LoadAndCompile` appends from log position `m`: source, compile, the check, and a DeleteShader if the check fails. */
  function CompileCmds(o: Oracle, m: nat, h: u32, bytes: seq<u8>): seq<Cmd> {
    [Cmd.ShaderSource(h, bytes), CompileShader(h)] + CheckCmds(o, m + 2, ShaderLog, h)
    + if CheckPasses(o, m + 2) then [] else [DeleteShader(h)]
  }

  /** The calls `create_shader` makes when `CreateShader` is the call at log position `n`. */
  function CreateShaderCmds(o: Oracle, n: nat, t: ShaderType, source: string): seq<Cmd> {
    var h := o.handle(n);
    if h == 0 then
      [Cmd.CreateShader(ShaderKind(t), 0)]
    else if '\0' in source then
      [Cmd.CreateShader(ShaderKind(t), h), DeleteShader(h)]
    else
      [Cmd.CreateShader(ShaderKind(t), h)] + CompileCmds(o, n + 1, h, Utf8Encode(source))
  }

  /** What `create_shader` returns then: the handle of the shader, or the error. */
  function CreateShaderOutcome(o: Oracle, n: nat, source: string): Result<u32, ShaderError> {
    var h := o.handle(n);
    if h == 0 then Err(CreateShaderFailed)
    else if '\0' in source then Err(InvalidSourceString)
    else CompileOutcome(o, n + 3, h)
  }

  /** What compiling shader `h` returns when its compile check starts at log position `m`. */
  function CompileOutcome(o: Oracle, m: nat, h: u32): Result<u32, ShaderError> {
    if CheckPasses(o, m) then Ok(h) else Err(CheckOutcome(o, m, Compile).error)
  }

  /** A shader result agrees with a modelled outcome: the same error, or a shader with the outcome's handle. */
  predicate ShaderReports(r: Result<Shader, ShaderError>, expected: Result<u32, ShaderError>) {
    && (r.Err? <==> expected.Err?)
    && (r.Err? ==> r.error == expected.error)
    && (r.Ok? ==> r.value.handle == expected.value)
  }

  /** A zero handle stops `create_shader` at once, and a source with a NUL is never compiled. */
  lemma {:induction false} CreateShaderStopsEarly(o: Oracle, n: nat, t: ShaderType, source: string)
    ensures o.handle(n) == 0 ==>
      CreateShaderCmds(o, n, t, source) == [Cmd.CreateShader(ShaderKind(t), 0)]
      && CreateShaderOutcome(o, n, source) == Err(CreateShaderFailed)
    ensures o.handle(n) != 0 && '\0' in source ==>
      (forall c :: c in CreateShaderCmds(o, n, t, source) ==> !c.ShaderSource? && !c.CompileShader?)
      && CreateShaderOutcome(o, n, source) == Err(InvalidSourceString)
  {
  }

  /** With a live handle and a source without NUL, `create_shader` goes on to compile from the next log position. */
  lemma CreateShaderCompiles(o: Oracle, n: nat, t: ShaderType, source: string)
    requires o.handle(n) != 0 && '\0' !in source
    ensures CreateShaderCmds(o, n, t, source) == [Cmd.CreateShader(ShaderKind(t), o.handle(n))] + CompileCmds(o, n + 1, o.handle(n), Utf8Encode(source))
    ensures CreateShaderOutcome(o, n, source) == CompileOutcome(o, n + 3, o.handle(n))
  {
  }

  /** The prefix of the `create_shader` log before the compile check's aftermath, which holds no DeleteShader. */
  function CompilePrefix(o: Oracle, n: nat, t: ShaderType, h: u32, source: string): seq<Cmd> {
    [Cmd.CreateShader(ShaderKind(t), h), Cmd.ShaderSource(h, Utf8Encode(source)), CompileShader(h)] + CheckCmds(o, n + 3, ShaderLog, h)
  }

  lemma ShaderLogSplit(o: Oracle, n: nat, t: ShaderType, source: string)
    requires o.handle(n) != 0 && '\0' !in source
    ensures var h := o.handle(n);
      CreateShaderCmds(o, n, t, source)
      == CompilePrefix(o, n, t, h, source) + (if CheckPasses(o, n + 3) then [] else [DeleteShader(h)]) + []
    ensures DeleteShader(o.handle(n)) !in CompilePrefix(o, n, t, o.handle(n), source)
  {
    CheckCmdsAreQueries(o, n + 3, ShaderLog, o.handle(n));
  }

  /** The shader's DeleteShader occurs once if the source holds a NUL or the compile check fails, and not at all otherwise. */
  lemma {:induction false} DeleteShaderCount(o: Oracle, n: nat, t: ShaderType, source: string)
    requires o.handle(n) != 0
    ensures multiset(CreateShaderCmds(o, n, t, source))[DeleteShader(o.handle(n))]
            == if '\0' in source || !CheckPasses(o, n + 3) then 1 else 0
  {
    var h := o.handle(n);
    if '\0' !in source {
      ShaderLogSplit(o, n, t, source);
      CountBetween(CompilePrefix(o, n, t, h, source), if CheckPasses(o, n + 3) then [] else [DeleteShader(h)], [], DeleteShader(h));
    }
  }

  /** A shader that was created is deleted exactly once when `create_shader` fails, and not at all when it succeeds. */
  lemma {:induction false} CreateShaderDeletesOnFailure(o: Oracle, n: nat, t: ShaderType, source: string)
    requires o.handle(n) != 0
    ensures multiset(CreateShaderCmds(o, n, t, source))[DeleteShader(o.handle(n))]
            == if CreateShaderOutcome(o, n, source).Err? then 1 else 0
  {
    DeleteShaderCount(o, n, t, source);
  }

  /** The text the API is given to compile is the source itself: its UTF-8 bytes decode back to it. */
  lemma {:induction false} CompiledSourceIsTheText(o: Oracle, n: nat, t: ShaderType, source: string)
    requires o.handle(n) != 0 && '\0' !in source
    ensures var cmds := CreateShaderCmds(o, n, t, source);
      cmds[1].ShaderSource? && cmds[1].shader == o.handle(n) && Utf8Decode(cmds[1].source) == Some(source)
  {
    Utf8RoundTrip(source);
  }

  class Shader {
    const gl: Gl
    const handle: u32
    var destroyed: bool

    /** The struct literal: this wraps a handle already created. */
    constructor (gl: Gl, handle: u32)
      ensures this.gl == gl && this.handle == handle && !destroyed
    {
      this.gl := gl;
      this.handle := handle;
      destroyed := false;
    }

    /**
     * `Shader::create_shader`. A zero handle fails before a `Shader` exists,
     * so nothing is deleted. Every later failure (a NUL in the source, a
     * compile log) drops the `Shader`, deleting the handle.
     */
    static method CreateShader(gl: Gl, shaderType: ShaderType, source: string) returns (r: Result<Shader, ShaderError>)
      modifies gl
      ensures gl.log == old(gl.log) + CreateShaderCmds(gl.oracle, |old(gl.log)|, shaderType, source)
      ensures ShaderReports(r, CreateShaderOutcome(gl.oracle, |old(gl.log)|, source))
      ensures r.Ok? ==> fresh(r.value) && r.value.gl == gl && !r.value.destroyed
    {
      var handle := gl.CreateShader(ShaderKind(shaderType));
      if handle == 0 {
        return Err(CreateShaderFailed);
      }
      ghost var n := |old(gl.log)|;
      assert |gl.log| == n + 1;
      var shader := new Shader(gl, handle);
      var bytes := Utf8Encode(source);
      Utf8EncodeNul(source);
      if NUL in bytes {
        shader.Destroy();
        LogAssoc(old(gl.log), [Cmd.CreateShader(ShaderKind(shaderType), handle)], [DeleteShader(handle)]);
        return Err(InvalidSourceString);
      }
      r := shader.LoadAndCompile(bytes);
      CreateShaderCompiles(gl.oracle, n, shaderType, source);
      LogAssoc(old(gl.log), [Cmd.CreateShader(ShaderKind(shaderType), handle)], CompileCmds(gl.oracle, n + 1, handle, bytes));
    }

    /** The rest of `create_shader` once the source is a C string: load and compile it, then check, dropping the shader on failure. */
    method LoadAndCompile(bytes: seq<u8>) returns (r: Result<Shader, ShaderError>)
      requires !destroyed
      modifies this, gl
      ensures gl.log == old(gl.log) + CompileCmds(gl.oracle, |old(gl.log)|, handle, bytes)
      ensures ShaderReports(r, CompileOutcome(gl.oracle, |old(gl.log)| + 2, handle))
      ensures r.Ok? ==> r.value == this && !destroyed
    {
      ghost var n := |gl.log|;
      gl.ShaderSource(handle, bytes);
      gl.CompileShader(handle);
      ghost var done := [Cmd.ShaderSource(handle, bytes), CompileShader(handle)];
      assert gl.log == old(gl.log) + done;
      var check := ErrorCheck(gl, handle, ShaderLog, Compile);
      LogAssoc(old(gl.log), done, CheckCmds(gl.oracle, n + 2, ShaderLog, handle));
      done := done + CheckCmds(gl.oracle, n + 2, ShaderLog, handle);
      if check.Err? {
        Destroy();
        LogAssoc(old(gl.log), done, [DeleteShader(handle)]);
        return Err(check.error);
      }
      return Ok(this);
    }

    /** `drop`: one DeleteShader of the handle. */
    method Destroy()
      requires !destroyed
      modifies this, gl
      ensures destroyed
      ensures gl.log == old(gl.log) + [DeleteShader(handle)]
    {
      gl.DeleteShader(handle);
      destroyed := true;
    }
  }

  function HandleOf(s: Option<Shader>): Option<u32> {
    if s.Some? then Some(s.value.handle) else None
  }

  function Attached(program: u32, s: Option<u32>): seq<Cmd> {
    if s.Some? then [AttachShader(program, s.value)] else []
  }

  function Detached(program: u32, s: Option<u32>): seq<Cmd> {
    if s.Some? then [DetachShader(program, s.value)] else []
  }

  function Deleted(s: Option<u32>): seq<Cmd> {
    if s.Some? then [DeleteShader(s.value)] else []
  }

  /** The stages that are present are attached in the order vertex, geometry, fragment. */
  function AttachCmds(program: u32, vs: Option<u32>, gs: Option<u32>, fs: Option<u32>): (cmds: seq<Cmd>)
  {
    Attached(program, vs) + Attached(program, gs) + Attached(program, fs)
  }

  function DetachCmds(program: u32, vs: Option<u32>, gs: Option<u32>, fs: Option<u32>): (cmds: seq<Cmd>)
  {
    Detached(program, vs) + Detached(program, gs) + Detached(program, fs)
  }

  /** The consumed stage arguments are dropped when `from_shaders` returns, last argument first. */
  function DropCmds(vs: Option<u32>, gs: Option<u32>, fs: Option<u32>): (cmds: seq<Cmd>)
  {
    Deleted(fs) + Deleted(gs) + Deleted(vs)
  }

  /** The attaches, detaches and stage drops are each made of one kind of call. */
  lemma StageCmdKinds(program: u32, vs: Option<u32>, gs: Option<u32>, fs: Option<u32>)
    ensures forall c :: c in AttachCmds(program, vs, gs, fs) ==> c.AttachShader?
    ensures forall c :: c in DetachCmds(program, vs, gs, fs) ==> c.DetachShader?
    ensures forall c :: c in DropCmds(vs, gs, fs) ==> c.DeleteShader?
  {
  }

  function Count(s: Option<u32>): nat {
    if s.Some? then 1 else 0
  }

  /** The detaches after a successful link undo exactly the attaches, one for one and in the same order. */
  lemma {:induction false} DetachesMatchAttaches(program: u32, vs: Option<u32>, gs: Option<u32>, fs: Option<u32>)
    ensures |AttachCmds(program, vs, gs, fs)| == |DetachCmds(program, vs, gs, fs)| == Count(vs) + Count(gs) + Count(fs)
    ensures forall i, h: u32 :: 0 <= i < |AttachCmds(program, vs, gs, fs)| ==>
      (AttachCmds(program, vs, gs, fs)[i] == AttachShader(program, h) <==> DetachCmds(program, vs, gs, fs)[i] == DetachShader(program, h))
    ensures forall h: u32 :: AttachShader(program, h) in AttachCmds(program, vs, gs, fs) <==> Some(h) in [vs, gs, fs]
    ensures forall h: u32 :: DetachShader(program, h) in DetachCmds(program, vs, gs, fs) <==> Some(h) in [vs, gs, fs]
  {
    var a := AttachCmds(program, vs, gs, fs);
    var d := DetachCmds(program, vs, gs, fs);
    forall i, h: u32 | 0 <= i < |a|
      ensures a[i] == AttachShader(program, h) <==> d[i] == DetachShader(program, h)
    {
      var c := Count(vs);
      if i < c {
        assert a[i] == AttachShader(program, vs.value) && d[i] == DetachShader(program, vs.value);
      } else if i < c + Count(gs) {
        assert a[i] == AttachShader(program, gs.value) && d[i] == DetachShader(program, gs.value);
      } else {
        assert a[i] == AttachShader(program, fs.value) && d[i] == DetachShader(program, fs.value);
      }
    }
  }

  /** The stage arguments `from_shaders` takes over: present ones are live, use its backend and are distinct values. */
  predicate StagesOwned(gl: Gl, vs: Option<Shader>, gs: Option<Shader>, fs: Option<Shader>)
    reads Stages(vs, gs, fs)
  {
    (vs.Some? ==> vs.value.gl == gl && !vs.value.destroyed)
    && (gs.Some? ==> gs.value.gl == gl && !gs.value.destroyed)
    && (fs.Some? ==> fs.value.gl == gl && !fs.value.destroyed)
    && (vs.Some? && gs.Some? ==> vs.value != gs.value)
    && (vs.Some? && fs.Some? ==> vs.value != fs.value)
    && (gs.Some? && fs.Some? ==> gs.value != fs.value)
  }

  function Stages(vs: Option<Shader>, gs: Option<Shader>, fs: Option<Shader>): set<Shader> {
    (if vs.Some? then {vs.value} else {}) + (if gs.Some? then {gs.value} else {}) + (if fs.Some? then {fs.value} else {})
  }

  predicate StagesDropped(vs: Option<Shader>, gs: Option<Shader>, fs: Option<Shader>)
    reads Stages(vs, gs, fs)
  {
    (vs.Some? ==> vs.value.destroyed) && (gs.Some? ==> gs.value.destroyed) && (fs.Some? ==> fs.value.destroyed)
  }

  /** The end of `from_shaders`: its three parameters go out of scope, last first. */
  method DropStages(gl: Gl, vs: Option<Shader>, gs: Option<Shader>, fs: Option<Shader>)
    requires StagesOwned(gl, vs, gs, fs)
    modifies gl, Stages(vs, gs, fs)
    ensures StagesDropped(vs, gs, fs)
    ensures gl.log == old(gl.log) + DropCmds(HandleOf(vs), HandleOf(gs), HandleOf(fs))
  {
    if fs.Some? {
      fs.value.Destroy();
    }
    if gs.Some? {
      gs.value.Destroy();
    }
    if vs.Some? {
      vs.value.Destroy();
    }
  }

  /** `attach_shader!`: attaches a present stage and yields its handle. */
  method AttachStage(gl: Gl, program: u32, s: Option<Shader>) returns (h: Option<u32>)
    modifies gl
    ensures h == HandleOf(s)
    ensures gl.log == old(gl.log) + Attached(program, h)
  {
    if s.Some? {
      gl.AttachShader(program, s.value.handle);
      return Some(s.value.handle);
    }
    return None;
  }

  /** `detach_shader!`. */
  method DetachStage(gl: Gl, program: u32, h: Option<u32>)
    modifies gl
    ensures gl.log == old(gl.log) + Detached(program, h)
  {
    if h.Some? {
      gl.DetachShader(program, h.value);
    }
  }

  /** The three `attach_shader!` uses, in parameter order. */
  method AttachAll(gl: Gl, program: u32, vs: Option<Shader>, gs: Option<Shader>, fs: Option<Shader>)
    returns (vh: Option<u32>, gh: Option<u32>, fh: Option<u32>)
    modifies gl
    ensures vh == HandleOf(vs) && gh == HandleOf(gs) && fh == HandleOf(fs)
    ensures gl.log == old(gl.log) + AttachCmds(program, vh, gh, fh)
  {
    vh := AttachStage(gl, program, vs);
    gh := AttachStage(gl, program, gs);
    fh := AttachStage(gl, program, fs);
  }

  /** The three `detach_shader!` uses, in the same order. */
  method DetachAll(gl: Gl, program: u32, vh: Option<u32>, gh: Option<u32>, fh: Option<u32>)
    modifies gl
    ensures gl.log == old(gl.log) + DetachCmds(program, vh, gh, fh)
  {
    DetachStage(gl, program, vh);
    DetachStage(gl, program, gh);
    DetachStage(gl, program, fh);
  }

  /** Where the link check starts when the attaches begin at log position `m`: after the attaches and LinkProgram. */
  function LinkCheckAt(m: nat, h: u32, vh: Option<u32>, gh: Option<u32>, fh: Option<u32>): nat {
    m + |AttachCmds(h, vh, gh, fh)| + 1
  }

  /** After a link check: the detaches if it passed, the program's DeleteProgram if it failed. */
  function AfterCheck(o: Oracle, c: nat, h: u32, vh: Option<u32>, gh: Option<u32>, fh: Option<u32>, failure: ErrorKind): seq<Cmd> {
    if CheckPasses(o, c) then DetachCmds(h, vh, gh, fh) else [DeleteProgram(h)]
  }

  /** What `LinkStages` appends for program `h` from log position `m` before the stage drops: attaches, link, check and the check's aftermath. */
  function LinkFront(o: Oracle, m: nat, h: u32, vh: Option<u32>, gh: Option<u32>, fh: Option<u32>, failure: ErrorKind): seq<Cmd> {
    var c := LinkCheckAt(m, h, vh, gh, fh);
    AttachCmds(h, vh, gh, fh) + [LinkProgram(h)] + CheckCmds(o, c, ProgramLog, h) + AfterCheck(o, c, h, vh, gh, fh, failure)
  }

  /** All that `LinkStages` appends: the front, then the stage drops. */
  function LinkCmds(o: Oracle, m: nat, h: u32, vh: Option<u32>, gh: Option<u32>, fh: Option<u32>, failure: ErrorKind): seq<Cmd> {
    LinkFront(o, m, h, vh, gh, fh, failure) + DropCmds(vh, gh, fh)
  }

  /**
   * The calls `from_shaders` makes when `CreateProgram` is the call at log
   * position `n`, given the handles of the stages passed in, and `failure`,
   * the variant its link check reports.
   */
  function FromShadersCmds(o: Oracle, n: nat, vh: Option<u32>, gh: Option<u32>, fh: Option<u32>, failure: ErrorKind): seq<Cmd> {
    var h := o.handle(n);
    if h == 0 then [CreateProgram(0)] + DropCmds(vh, gh, fh)
    else [CreateProgram(h)] + LinkCmds(o, n + 1, h, vh, gh, fh, failure)
  }

  /** What `from_shaders` returns then: the program handle, or the error. */
  function FromShadersOutcome(o: Oracle, n: nat, vh: Option<u32>, gh: Option<u32>, fh: Option<u32>, failure: ErrorKind)
    : Result<u32, ShaderError>
  {
    var h := o.handle(n);
    if h == 0 then Err(CreateShaderProgramFailed) else LinkOutcome(o, n + 1, h, vh, gh, fh, failure)
  }

  /** What `from_shaders` returns once program `h` exists and its calls start at log position `m`: the program, or the link check's error. */
  function LinkOutcome(o: Oracle, m: nat, h: u32, vh: Option<u32>, gh: Option<u32>, fh: Option<u32>, failure: ErrorKind)
    : Result<u32, ShaderError>
  {
    var c := LinkCheckAt(m, h, vh, gh, fh);
    if CheckPasses(o, c) then Ok(h) else Err(CheckOutcome(o, c, failure).error)
  }

  /** Once a program `h` exists, `from_shaders` continues as `LinkStages` does from the next log position. */
  lemma FromShadersCreated(o: Oracle, n: nat, vh: Option<u32>, gh: Option<u32>, fh: Option<u32>, failure: ErrorKind)
    requires o.handle(n) != 0
    ensures FromShadersCmds(o, n, vh, gh, fh, failure) == [CreateProgram(o.handle(n))] + LinkCmds(o, n + 1, o.handle(n), vh, gh, fh, failure)
    ensures FromShadersOutcome(o, n, vh, gh, fh, failure) == LinkOutcome(o, n + 1, o.handle(n), vh, gh, fh, failure)
  {
  }

  /** A program result agrees with a modelled outcome: the same error, or a program with the outcome's handle. */
  predicate Reports(r: Result<ShaderProgram, ShaderError>, expected: Result<u32, ShaderError>) {
    && (r.Err? <==> expected.Err?)
    && (r.Err? ==> r.error == expected.error)
    && (r.Ok? ==> r.value.handle == expected.value)
  }

  /** The info-log queries of a check. */
  predicate IsQuery(c: Cmd) {
    c.GetShaderiv? || c.GetShaderInfoLog? || c.GetProgramiv? || c.GetProgramInfoLog?
  }

  lemma CheckCmdsAreQueries(o: Oracle, n: nat, src: LogSource, h: u32)
    ensures forall c :: c in CheckCmds(o, n, src, h) ==> IsQuery(c)
  {
  }

  /** On every path the stages passed in are deleted last, after everything else. */
  lemma {:induction false} FromShadersDropsStagesLast(o: Oracle, n: nat, vh: Option<u32>, gh: Option<u32>, fh: Option<u32>, failure: ErrorKind)
    ensures var cmds := FromShadersCmds(o, n, vh, gh, fh, failure); var drops := DropCmds(vh, gh, fh);
      |drops| <= |cmds| && cmds[|cmds| - |drops|..] == drops
  {
    var h := o.handle(n);
    var drops := DropCmds(vh, gh, fh);
    if h == 0 {
      LogEndsWith([CreateProgram(0)], drops);
    } else {
      var front := LinkFront(o, n + 1, h, vh, gh, fh, failure);
      LogAssoc([CreateProgram(h)], front, drops);
      LogEndsWith([CreateProgram(h)] + front, drops);
    }
  }

  /** Once a program exists, exactly the present stages are attached to it. */
  lemma {:induction false} FromShadersAttachesPresentStages(o: Oracle, n: nat, vh: Option<u32>, gh: Option<u32>, fh: Option<u32>, failure: ErrorKind)
    requires o.handle(n) != 0
    ensures forall x: u32 :: AttachShader(o.handle(n), x) in FromShadersCmds(o, n, vh, gh, fh, failure) <==> Some(x) in [vh, gh, fh]
  {
    var h := o.handle(n);
    var c := LinkCheckAt(n + 1, h, vh, gh, fh);
    var attach := AttachCmds(h, vh, gh, fh);
    var check := CheckCmds(o, c, ProgramLog, h);
    var after := AfterCheck(o, c, h, vh, gh, fh, failure);
    var drops := DropCmds(vh, gh, fh);
    FromShadersPieces(o, n, vh, gh, fh, failure);
    CheckCmdsAreQueries(o, c, ProgramLog, h);
    StageCmdKinds(h, vh, gh, fh);
    assert forall x :: x in after ==> x.DetachShader? || x.DeleteProgram?;
    DetachesMatchAttaches(h, vh, gh, fh);
    forall x: u32
      ensures AttachShader(h, x) in FromShadersCmds(o, n, vh, gh, fh, failure) <==> AttachShader(h, x) in attach
    {
      var a := AttachShader(h, x);
      assert a !in check && a !in after && a !in drops;
    }
  }

  /** The log of `from_shaders` once a program `h` exists, cut at the pieces its steps append. */
  lemma FromShadersPieces(o: Oracle, n: nat, vh: Option<u32>, gh: Option<u32>, fh: Option<u32>, failure: ErrorKind)
    requires o.handle(n) != 0
    ensures var h := o.handle(n); var c := LinkCheckAt(n + 1, h, vh, gh, fh);
      FromShadersCmds(o, n, vh, gh, fh, failure)
      == [CreateProgram(h)] + AttachCmds(h, vh, gh, fh) + [LinkProgram(h)] + CheckCmds(o, c, ProgramLog, h)
         + AfterCheck(o, c, h, vh, gh, fh, failure) + DropCmds(vh, gh, fh)
  {
    var h := o.handle(n);
    var c := LinkCheckAt(n + 1, h, vh, gh, fh);
    var a, k, af := AttachCmds(h, vh, gh, fh), CheckCmds(o, c, ProgramLog, h), AfterCheck(o, c, h, vh, gh, fh, failure);
    var front := LinkFront(o, n + 1, h, vh, gh, fh, failure);
    assert front == a + [LinkProgram(h)] + k + af;
    LogAssoc([CreateProgram(h)], front, DropCmds(vh, gh, fh));
    LogAssoc([CreateProgram(h)], a + [LinkProgram(h)] + k, af);
    LogAssoc([CreateProgram(h)], a + [LinkProgram(h)], k);
    LogAssoc([CreateProgram(h)], a, [LinkProgram(h)]);
  }

  /** `from_shaders` fails, once its program exists, exactly when its link check does not pass. */
  lemma FromShadersFailsIffCheckFails(o: Oracle, n: nat, vh: Option<u32>, gh: Option<u32>, fh: Option<u32>, failure: ErrorKind)
    requires o.handle(n) != 0
    ensures FromShadersOutcome(o, n, vh, gh, fh, failure).Err? <==> !CheckPasses(o, LinkCheckAt(n + 1, o.handle(n), vh, gh, fh))
  {
  }

  /** The prefix of the `from_shaders` log before the check's aftermath, which holds no DeleteProgram. */
  function LinkPrefix(o: Oracle, n: nat, h: u32, vh: Option<u32>, gh: Option<u32>, fh: Option<u32>): seq<Cmd> {
    [CreateProgram(h)] + AttachCmds(h, vh, gh, fh) + [LinkProgram(h)] + CheckCmds(o, LinkCheckAt(n + 1, h, vh, gh, fh), ProgramLog, h)
  }

  lemma ProgramLogSplit(o: Oracle, n: nat, vh: Option<u32>, gh: Option<u32>, fh: Option<u32>, failure: ErrorKind)
    requires o.handle(n) != 0
    ensures var h := o.handle(n);
      FromShadersCmds(o, n, vh, gh, fh, failure)
      == LinkPrefix(o, n, h, vh, gh, fh) + AfterCheck(o, LinkCheckAt(n + 1, h, vh, gh, fh), h, vh, gh, fh, failure) + DropCmds(vh, gh, fh)
    ensures DeleteProgram(o.handle(n)) !in LinkPrefix(o, n, o.handle(n), vh, gh, fh)
  {
    var h := o.handle(n);
    FromShadersPieces(o, n, vh, gh, fh, failure);
    CheckCmdsAreQueries(o, LinkCheckAt(n + 1, h, vh, gh, fh), ProgramLog, h);
    StageCmdKinds(h, vh, gh, fh);
  }

  /** The program's DeleteProgram occurs once if its link check fails, and not at all otherwise. */
  lemma {:induction false} DeleteProgramCount(o: Oracle, n: nat, vh: Option<u32>, gh: Option<u32>, fh: Option<u32>, failure: ErrorKind)
    requires o.handle(n) != 0
    ensures multiset(FromShadersCmds(o, n, vh, gh, fh, failure))[DeleteProgram(o.handle(n))]
            == if CheckPasses(o, LinkCheckAt(n + 1, o.handle(n), vh, gh, fh)) then 0 else 1
  {
    var h := o.handle(n);
    var c := LinkCheckAt(n + 1, h, vh, gh, fh);
    var after := AfterCheck(o, c, h, vh, gh, fh, failure);
    ProgramLogSplit(o, n, vh, gh, fh, failure);
    StageCmdKinds(h, vh, gh, fh);
    CountBetween(LinkPrefix(o, n, h, vh, gh, fh), after, DropCmds(vh, gh, fh), DeleteProgram(h));
    if CheckPasses(o, c) {
      NotInLog(after, DeleteProgram(h));
    }
  }

  /** A program that was created is deleted exactly once when `from_shaders` fails, and not at all when it succeeds. */
  lemma {:induction false} FromShadersDeletesProgramOnFailure(o: Oracle, n: nat, vh: Option<u32>, gh: Option<u32>, fh: Option<u32>, failure: ErrorKind)
    requires o.handle(n) != 0
    ensures multiset(FromShadersCmds(o, n, vh, gh, fh, failure))[DeleteProgram(o.handle(n))]
            == if FromShadersOutcome(o, n, vh, gh, fh, failure).Err? then 1 else 0
  {
    FromShadersFailsIffCheckFails(o, n, vh, gh, fh, failure);
    DeleteProgramCount(o, n, vh, gh, fh, failure);
  }

  /** A failed `from_shaders` detaches nothing. */
  lemma {:induction false} FromShadersFailureDetachesNothing(o: Oracle, n: nat, vh: Option<u32>, gh: Option<u32>, fh: Option<u32>, failure: ErrorKind)
    requires FromShadersOutcome(o, n, vh, gh, fh, failure).Err?
    ensures forall x :: x in FromShadersCmds(o, n, vh, gh, fh, failure) ==> !x.DetachShader?
  {
    var h := o.handle(n);
    if h != 0 {
      var c := LinkCheckAt(n + 1, h, vh, gh, fh);
      var attach := AttachCmds(h, vh, gh, fh);
      var check := CheckCmds(o, c, ProgramLog, h);
      var after := AfterCheck(o, c, h, vh, gh, fh, failure);
      var drops := DropCmds(vh, gh, fh);
      FromShadersPieces(o, n, vh, gh, fh, failure);
      CheckCmdsAreQueries(o, c, ProgramLog, h);
      StageCmdKinds(h, vh, gh, fh);
      assert after == [DeleteProgram(h)];
      forall x | x in FromShadersCmds(o, n, vh, gh, fh, failure)
        ensures !x.DetachShader?
      {
        assert x in [CreateProgram(h)] || x in attach || x in [LinkProgram(h)] || x in check || x in after || x in drops;
      }
    }
  }

  /** After a successful link, a stage is detached exactly when it was attached. */
  lemma {:induction false} FromShadersDetachesAttached(o: Oracle, n: nat, vh: Option<u32>, gh: Option<u32>, fh: Option<u32>, failure: ErrorKind)
    requires FromShadersOutcome(o, n, vh, gh, fh, failure).Ok?
    ensures forall x: u32 :: DetachShader(o.handle(n), x) in FromShadersCmds(o, n, vh, gh, fh, failure)
                         <==> AttachShader(o.handle(n), x) in FromShadersCmds(o, n, vh, gh, fh, failure)
  {
    var h := o.handle(n);
    var c := LinkCheckAt(n + 1, h, vh, gh, fh);
    var attach := AttachCmds(h, vh, gh, fh);
    var check := CheckCmds(o, c, ProgramLog, h);
    var detach := DetachCmds(h, vh, gh, fh);
    var drops := DropCmds(vh, gh, fh);
    assert AfterCheck(o, c, h, vh, gh, fh, failure) == detach;
    FromShadersPieces(o, n, vh, gh, fh, failure);
    CheckCmdsAreQueries(o, c, ProgramLog, h);
    StageCmdKinds(h, vh, gh, fh);
    DetachesMatchAttaches(h, vh, gh, fh);
    forall x: u32
      ensures DetachShader(h, x) in FromShadersCmds(o, n, vh, gh, fh, failure) <==> DetachShader(h, x) in detach
      ensures AttachShader(h, x) in FromShadersCmds(o, n, vh, gh, fh, failure) <==> AttachShader(h, x) in attach
    {
      assert DetachShader(h, x) !in check && DetachShader(h, x) !in drops && DetachShader(h, x) !in attach;
      assert AttachShader(h, x) !in check && AttachShader(h, x) !in drops && AttachShader(h, x) !in detach;
    }
  }

  /**
   * The link check of `from_shaders` as written: for a vertex and a fragment
   * stage whose link leaves the 6-byte log "error" and its NUL, the call fails
   * with `ValidateError("error")`, never with `LinkError`.
   */
  lemma LinkFailureReportedAsValidateError(o: Oracle, n: nat)
    requires o.handle(n) == 1 && o.param(n + 4) == 6 && o.infoLog(n + 5) == [0x65, 0x72, 0x72, 0x6F, 0x72, NUL]
    ensures FromShadersOutcome(o, n, Some(2), None, Some(3), ErrorKind.Validate) == Err(ValidateError("error"))
    ensures forall k :: FromShadersOutcome(o, n, Some(2), None, Some(3), ErrorKind.Validate) != Err(LinkError(k))
  {
    LinkLogReported(o, n, ErrorKind.Validate);
  }

  /** The corrected link check: the same failing link is reported as `LinkError("error")`. */
  lemma LinkFailureReportedAsLinkError(o: Oracle, n: nat)
    requires o.handle(n) == 1 && o.param(n + 4) == 6 && o.infoLog(n + 5) == [0x65, 0x72, 0x72, 0x6F, 0x72, NUL]
    ensures FromShadersOutcome(o, n, Some(2), None, Some(3), Link) == Err(LinkError("error"))
    ensures forall k :: FromShadersOutcome(o, n, Some(2), None, Some(3), Link) != Err(ValidateError(k))
  {
    LinkLogReported(o, n, Link);
  }

  lemma LinkLogReported(o: Oracle, n: nat, kind: ErrorKind)
    requires o.handle(n) == 1 && o.param(n + 4) == 6 && o.infoLog(n + 5) == [0x65, 0x72, 0x72, 0x6F, 0x72, NUL]
    ensures FromShadersOutcome(o, n, Some(2), None, Some(3), kind) == Err(Report(kind, "error"))
  {
    assert AttachCmds(1, Some(2), None, Some(3)) == [AttachShader(1, 2), AttachShader(1, 3)];
    assert LinkCheckAt(n + 1, 1, Some(2), None, Some(3)) == n + 4;
    ErrorLogText();
    WellFormedLogReported(o, n + 4, kind, "error");
  }

  /**
   * Every error `from_shaders` returns: `CreateShaderProgramFailed` when no
   * program could be created, and otherwise the link check's, which is
   * `Unknown` or some trimmed log text under the variant the check was given.
   */
  lemma {:induction false} FromShadersErrors(o: Oracle, n: nat, vh: Option<u32>, gh: Option<u32>, fh: Option<u32>, failure: ErrorKind)
    ensures var r := FromShadersOutcome(o, n, vh, gh, fh, failure);
      r.Err? && o.handle(n) == 0 ==> r.error == CreateShaderProgramFailed
    ensures var r := FromShadersOutcome(o, n, vh, gh, fh, failure);
      r.Err? && o.handle(n) != 0 ==> r.error == Unknown || exists t :: r.error == Report(failure, Trim(t))
  {
    var r := FromShadersOutcome(o, n, vh, gh, fh, failure);
    if r.Err? && o.handle(n) != 0 {
      var c := LinkCheckAt(n + 1, o.handle(n), vh, gh, fh);
      assert r.error == CheckOutcome(o, c, failure).error;
      CheckReportsTrimmedLog(o, c, failure);
    }
  }

  /** As written, `from_shaders` never reports `LinkError`: a failed link is `ValidateError` (or `Unknown`), for every input. */
  lemma FromShadersNeverReportsLinkError(o: Oracle, n: nat, vh: Option<u32>, gh: Option<u32>, fh: Option<u32>)
    ensures var r := FromShadersOutcome(o, n, vh, gh, fh, ErrorKind.Validate);
      r.Err? ==> !r.error.LinkError?
    ensures var r := FromShadersOutcome(o, n, vh, gh, fh, ErrorKind.Validate);
      r.Err? && o.handle(n) != 0 ==> r.error == Unknown || r.error.ValidateError?
  {
    FromShadersErrors(o, n, vh, gh, fh, ErrorKind.Validate);
    var r := FromShadersOutcome(o, n, vh, gh, fh, ErrorKind.Validate);
    if r.Err? && o.handle(n) != 0 && r.error != Unknown {
      var t :| r.error == Report(ErrorKind.Validate, Trim(t));
    }
  }

  /** Corrected, a failed link is reported as `LinkError` (or `Unknown`), never as `ValidateError`, for every input. */
  lemma FromShadersReportingLinkErrors(o: Oracle, n: nat, vh: Option<u32>, gh: Option<u32>, fh: Option<u32>)
    ensures var r := FromShadersOutcome(o, n, vh, gh, fh, Link);
      r.Err? ==> !r.error.ValidateError?
    ensures var r := FromShadersOutcome(o, n, vh, gh, fh, Link);
      r.Err? && o.handle(n) != 0 ==> r.error == Unknown || r.error.LinkError?
  {
    FromShadersErrors(o, n, vh, gh, fh, Link);
    var r := FromShadersOutcome(o, n, vh, gh, fh, Link);
    if r.Err? && o.handle(n) != 0 && r.error != Unknown {
      var t :| r.error == Report(Link, Trim(t));
    }
  }

  /** The text "error" is five ASCII bytes, has no NUL and no whitespace to trim. */
  lemma ErrorLogText()
    ensures Utf8Encode("error") + [NUL] == [0x65, 0x72, 0x72, 0x6F, 0x72, NUL]
    ensures |Utf8Encode("error")| + 1 == 6
    ensures '\0' !in "error"
    ensures Trim("error") == "error"
  {
    assert Utf8Encode("error") == [0x65, 0x72, 0x72, 0x6F, 0x72];
    assert "error" == ['e'] + "rror";
    assert !IsWhitespace('e') && !IsWhitespace('r');
  }

  class ShaderProgram {
    const gl: Gl
    const handle: u32
    var destroyed: bool

    constructor (gl: Gl, handle: u32)
      ensures this.gl == gl && this.handle == handle && !destroyed
    {
      this.gl := gl;
      this.handle := handle;
      destroyed := false;
    }

    /**
     * The body of `from_shaders`, with the error variant its link check
     * reports as a parameter. A zero program handle fails with only the
     * stage drops. Otherwise the present stages are attached, the program is
     * linked and checked; a failed check drops the program (DeleteProgram), a
     * passed one detaches exactly the attached stages and returns the
     * program. The stages are dropped last on every path.
     */
    static method Build(gl: Gl, vs: Option<Shader>, gs: Option<Shader>, fs: Option<Shader>, failure: ErrorKind)
      returns (r: Result<ShaderProgram, ShaderError>)
      requires StagesOwned(gl, vs, gs, fs)
      modifies gl, Stages(vs, gs, fs)
      ensures StagesDropped(vs, gs, fs)
      ensures gl.log == old(gl.log) + FromShadersCmds(gl.oracle, |old(gl.log)|, HandleOf(vs), HandleOf(gs), HandleOf(fs), failure)
      ensures Reports(r, FromShadersOutcome(gl.oracle, |old(gl.log)|, HandleOf(vs), HandleOf(gs), HandleOf(fs), failure))
      ensures r.Ok? ==> fresh(r.value) && r.value.gl == gl && !r.value.destroyed
    {
      var handle := gl.CreateProgram();
      if handle == 0 {
        DropStages(gl, vs, gs, fs);
        LogAssoc(old(gl.log), [CreateProgram(0)], DropCmds(HandleOf(vs), HandleOf(gs), HandleOf(fs)));
        return Err(CreateShaderProgramFailed);
      }
      ghost var n := |old(gl.log)|;
      assert |gl.log| == n + 1;
      var program := new ShaderProgram(gl, handle);
      r := program.LinkStages(vs, gs, fs, failure);
      FromShadersCreated(gl.oracle, n, HandleOf(vs), HandleOf(gs), HandleOf(fs), failure);
      LogAssoc(old(gl.log), [CreateProgram(handle)], LinkCmds(gl.oracle, n + 1, handle, HandleOf(vs), HandleOf(gs), HandleOf(fs), failure));
    }

    /** The rest of `from_shaders` once the program exists: attach, link, check, then detach or drop the program, and drop the stages. */
    method LinkStages(vs: Option<Shader>, gs: Option<Shader>, fs: Option<Shader>, failure: ErrorKind)
      returns (r: Result<ShaderProgram, ShaderError>)
      requires !destroyed && StagesOwned(gl, vs, gs, fs)
      modifies this, gl, Stages(vs, gs, fs)
      ensures StagesDropped(vs, gs, fs)
      ensures gl.log == old(gl.log) + LinkCmds(gl.oracle, |old(gl.log)|, handle, HandleOf(vs), HandleOf(gs), HandleOf(fs), failure)
      ensures Reports(r, LinkOutcome(gl.oracle, |old(gl.log)|, handle, HandleOf(vs), HandleOf(gs), HandleOf(fs), failure))
      ensures r.Ok? ==> r.value == this && !destroyed
    {
      ghost var n := |gl.log|;
      var vh, gh, fh := AttachAll(gl, handle, vs, gs, fs);
      ghost var c := LinkCheckAt(n, handle, vh, gh, fh);
      ghost var done := AttachCmds(handle, vh, gh, fh);
      gl.LinkProgram(handle);
      LogAssoc(old(gl.log), done, [LinkProgram(handle)]);
      done := done + [LinkProgram(handle)];
      assert |gl.log| == c;
      var check := ErrorCheck(gl, handle, ProgramLog, failure);
      assert check == CheckOutcome(gl.oracle, c, failure);
      LogAssoc(old(gl.log), done, CheckCmds(gl.oracle, c, ProgramLog, handle));
      done := done + CheckCmds(gl.oracle, c, ProgramLog, handle);
      CheckAftermath(check.Ok?, vh, gh, fh);
      LogAssoc(old(gl.log), done, AfterCheck(gl.oracle, c, handle, vh, gh, fh, failure));
      done := done + AfterCheck(gl.oracle, c, handle, vh, gh, fh, failure);
      assert done == LinkFront(gl.oracle, n, handle, vh, gh, fh, failure);
      DropStages(gl, vs, gs, fs);
      LogAssoc(old(gl.log), done, DropCmds(vh, gh, fh));
      if check.Err? {
        return Err(check.error);
      }
      return Ok(this);
    }

    /** After the link check: detach the attached stages if it passed, or drop the program if it failed. */
    method CheckAftermath(passed: bool, vh: Option<u32>, gh: Option<u32>, fh: Option<u32>)
      requires !destroyed
      modifies this, gl
      ensures destroyed == !passed
      ensures gl.log == old(gl.log) + if passed then DetachCmds(handle, vh, gh, fh) else [DeleteProgram(handle)]
    {
      if passed {
        DetachAll(gl, handle, vh, gh, fh);
      } else {
        Destroy();
      }
    }

    /** `ShaderProgram::from_shaders` as written: a failed link is reported as `ValidateError`. */
    static method FromShaders(gl: Gl, vs: Option<Shader>, gs: Option<Shader>, fs: Option<Shader>)
      returns (r: Result<ShaderProgram, ShaderError>)
      requires StagesOwned(gl, vs, gs, fs)
      modifies gl, Stages(vs, gs, fs)
      ensures StagesDropped(vs, gs, fs)
      ensures gl.log == old(gl.log) + FromShadersCmds(gl.oracle, |old(gl.log)|, HandleOf(vs), HandleOf(gs), HandleOf(fs), ErrorKind.Validate)
      ensures Reports(r, FromShadersOutcome(gl.oracle, |old(gl.log)|, HandleOf(vs), HandleOf(gs), HandleOf(fs), ErrorKind.Validate))
      ensures r.Ok? ==> fresh(r.value) && r.value.gl == gl && !r.value.destroyed
    {
      r := Build(gl, vs, gs, fs, ErrorKind.Validate);
    }

    /** `from_shaders` as its comment and its error type intend: a failed link is reported as `LinkError`. */
    static method FromShadersReportingLink(gl: Gl, vs: Option<Shader>, gs: Option<Shader>, fs: Option<Shader>)
      returns (r: Result<ShaderProgram, ShaderError>)
      requires StagesOwned(gl, vs, gs, fs)
      modifies gl, Stages(vs, gs, fs)
      ensures StagesDropped(vs, gs, fs)
      ensures gl.log == old(gl.log) + FromShadersCmds(gl.oracle, |old(gl.log)|, HandleOf(vs), HandleOf(gs), HandleOf(fs), Link)
      ensures Reports(r, FromShadersOutcome(gl.oracle, |old(gl.log)|, HandleOf(vs), HandleOf(gs), HandleOf(fs), Link))
      ensures r.Ok? ==> fresh(r.value) && r.value.gl == gl && !r.value.destroyed
    {
      r := Build(gl, vs, gs, fs, Link);
    }

    /** `validate`: one ValidateProgram, then the check, reporting `ValidateError`. */
    method Validate() returns (r: Result<(), ShaderError>)
      requires !destroyed
      modifies gl
      ensures r == CheckOutcome(gl.oracle, |old(gl.log)| + 1, ErrorKind.Validate)
      ensures gl.log == old(gl.log) + [ValidateProgram(handle)] + CheckCmds(gl.oracle, |old(gl.log)| + 1, ProgramLog, handle)
    {
      gl.ValidateProgram(handle);
      r := ErrorCheck(gl, handle, ProgramLog, ErrorKind.Validate);
    }

    /** `bind`: one UseProgram of the handle. */
    method Bind()
      requires !destroyed
      modifies gl
      ensures gl.log == old(gl.log) + [UseProgram(handle)]
    {
      gl.UseProgram(handle);
    }

    /** `drop`: one DeleteProgram of the handle. */
    method Destroy()
      requires !destroyed
      modifies this, gl
      ensures destroyed
      ensures gl.log == old(gl.log) + [DeleteProgram(handle)]
    {
      gl.DeleteProgram(handle);
      destroyed := true;
    }
  }
}
