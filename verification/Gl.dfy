/**
 The part of OpenGL that the encoders rely on: object names, what textures and buffers hold,
 bindings, and which shader writes are visible to which later commands (section 7.12.2 of the
 OpenGL 4.5 core specification). What a shader computes is kept as a term.
 */
module Gl {
  datatype Name = Texture(id: nat) | Buffer(id: nat) | Shader(id: nat) | Program(id: nat)

  datatype Pso = Pso(shader: nat, program: nat)

  const NO_PSO := Pso(0, 0)

  /** The compute shaders; only the stitching one samples two textures. */
  datatype Kernel = NoKernel | Dither555 | Etc1 | Eac | EacR11 | Bc1 | Bc1Dither | Bc4 | Stitch

  datatype Content =
    | Unwritten
    | Image(image: int)
    | Computed(kernel: Kernel, uniforms: seq<int>, inputs: seq<Content>)
    | Undefined   // read before a barrier made the shader's writes visible

  /** owner is the tag of the encoder that created the object. */
  datatype Object = Object(owner: nat, content: Content, kernel: Kernel, uniforms: seq<int>)

  datatype BarrierBit = TextureFetch | TextureUpdate | ShaderImageAccess | PixelBuffer

  datatype State = State(
    objects: map<Name, Object>,
    units: map<nat, nat>,
    images: map<nat, nat>,
    current: nat,
    unfetched: set<nat>,   // textures with shader writes that texture fetches may not see yet
    unread: set<nat>,      // likewise for glGetTexImage
    staleFetches: nat,     // dispatches that sampled a texture in unfetched
    badDeletes: nat,       // deletions of a name that was not live
    ordered: bool)         // whether glGetTexImage sees shader writes even without a barrier

  /** The specification promises no order; an implementation may. */
  function Start(ordered: bool): State { State(map[], map[], map[], 0, {}, {}, 0, 0, ordered) }

  /** No new faults, and still the same implementation. */
  predicate Faultless(s: State, s': State) {
    s'.staleFetches == s.staleFetches && s'.badDeletes == s.badDeletes && s'.ordered == s.ordered
  }

  predicate Readable(s: State, t: nat) { s.ordered || t !in s.unread }

  function NewObject(tag: nat, kernel: Kernel): Object { Object(tag, Unwritten, kernel, []) }

  function ContentOf(s: State, n: Name): Content { if n in s.objects then s.objects[n].content else Undefined }

  function Sampled(s: State, unit: nat): Content {
    if unit in s.units && s.units[unit] !in s.unfetched then ContentOf(s, Texture(s.units[unit])) else Undefined
  }

  predicate Stale(s: State, unit: nat) { unit in s.units && s.units[unit] in s.unfetched }

  // ---- what each command does to the state ----

  /** A new texture has no writes pending. */
  function Create(s: State, n: Name, tag: nat, kernel: Kernel): State {
    s.(objects := s.objects[n := NewObject(tag, kernel)],
       unfetched := if n.Texture? then s.unfetched - {n.id} else s.unfetched,
       unread := if n.Texture? then s.unread - {n.id} else s.unread)
  }

  function CreatePso(s: State, pso: Pso, tag: nat, kernel: Kernel): State {
    Create(Create(s, Shader(pso.shader), tag, NoKernel), Program(pso.program), tag, kernel)
  }

  /** Deleting the name 0 is ignored. */
  function Delete(s: State, n: Name): State {
    if n.id == 0 then s
    else if n !in s.objects then s.(badDeletes := s.badDeletes + 1)
    else s.(objects := s.objects - {n},
            unfetched := if n.Texture? then s.unfetched - {n.id} else s.unfetched,
            unread := if n.Texture? then s.unread - {n.id} else s.unread)
  }

  function DeletePso(s: State, pso: Pso): State { Delete(Delete(s, Program(pso.program)), Shader(pso.shader)) }

  function SetContent(s: State, n: Name, content: Content): State {
    if n in s.objects then s.(objects := s.objects[n := s.objects[n].(content := content)]) else s
  }

  function BindTexture(s: State, unit: nat, t: nat): State { s.(units := s.units[unit := t]) }

  function BindUav(s: State, unit: nat, t: nat): State { s.(images := s.images[unit := t]) }

  function UsePso(s: State, pso: Pso): State { s.(current := pso.program) }

  function SetUniforms(s: State, values: seq<int>): State {
    var p := Program(s.current);
    if p in s.objects then s.(objects := s.objects[p := s.objects[p].(uniforms := values)]) else s
  }

  /** The current program samples its units and writes the texture bound to image unit 0. */
  function Dispatch(s: State): State {
    var p := Program(s.current);
    if p !in s.objects || 0 !in s.images || Texture(s.images[0]) !in s.objects then s
    else
      var target, kernel := s.images[0], s.objects[p].kernel;
      var inputs := if kernel.Stitch? then [Sampled(s, 0), Sampled(s, 1)] else [Sampled(s, 0)];
      SetContent(s, Texture(target), Computed(kernel, s.objects[p].uniforms, inputs)).(
        unfetched := s.unfetched + {target},
        unread := s.unread + {target},
        staleFetches := s.staleFetches + if Stale(s, 0) || (kernel.Stitch? && Stale(s, 1)) then 1 else 0)
  }

  function Barrier(s: State, bits: set<BarrierBit>): State {
    s.(unfetched := if TextureFetch in bits then {} else s.unfetched,
       unread := if TextureUpdate in bits then {} else s.unread)
  }

  function Copy(s: State, from: nat, to: nat): State { SetContent(s, Texture(to), ContentOf(s, Texture(from))) }

  /** glGetTexImage into a buffer bound for packing pixels. */
  function GetTexImage(s: State, t: nat, buffer: nat): State {
    SetContent(s, Buffer(buffer), if Readable(s, t) then ContentOf(s, Texture(t)) else Undefined)
  }

  // ---- staging buffers that come and go ----

  lemma BufferCreated(s: State, b: nat, tag: nat)
    ensures Create(s, Buffer(b), tag, NoKernel) == s.(objects := s.objects[Buffer(b) := NewObject(tag, NoKernel)])
  {
  }

  lemma BufferDeleted(s: State, b: nat)
    requires b != 0 && Buffer(b) in s.objects
    ensures Delete(s, Buffer(b)) == s.(objects := s.objects - {Buffer(b)})
  {
  }

  lemma ContentOnly(s: State, n: Name, content: Content)
    ensures SetContent(s, n, content) == s.(objects := SetContent(s, n, content).objects)
  {
  }

  /** Uploading through a staging buffer leaves only the texture's content behind. */
  lemma UploadLeavesNoTrace(s: State, tag: nat, b: nat, t: nat, content: Content)
    requires b != 0 && Buffer(b) !in s.objects
    ensures var filled := SetContent(Create(s, Buffer(b), tag, NoKernel), Buffer(b), content);
            Delete(SetContent(filled, Texture(t), content), Buffer(b)) == SetContent(s, Texture(t), content)
  {
    hide Create, Delete;
    BufferCreated(s, b, tag);
    var filled := SetContent(Create(s, Buffer(b), tag, NoKernel), Buffer(b), content);
    var a := SetContent(filled, Texture(t), content);
    BufferDeleted(a, b);
    assert filled == s.(objects := s.objects[Buffer(b) := Object(tag, content, NoKernel, [])]);
    assert a.objects - {Buffer(b)} == SetContent(s, Texture(t), content).objects;
    ContentOnly(filled, Texture(t), content);
    ContentOnly(s, Texture(t), content);
  }

  lemma DumpLeavesNoTrace(s: State, tag: nat, b: nat, t: nat)
    requires b != 0 && Buffer(b) !in s.objects
    ensures Delete(GetTexImage(Create(s, Buffer(b), tag, NoKernel), t, b), Buffer(b)) == s
  {
    hide Create, Delete;
    BufferCreated(s, b, tag);
    var a := GetTexImage(Create(s, Buffer(b), tag, NoKernel), t, b);
    BufferDeleted(a, b);
    assert a.objects - {Buffer(b)} == s.objects;
  }

  /** The create and destroy helpers of EncoderGL, and the commands that the encoders issue. */
  class Context {
    var s: State
    var next: nat

    /** No name is 0, and there are names left. */
    ghost predicate Valid() reads this {
      && next > 0
      && forall n :: n in s.objects ==> 0 < n.id < next
    }

    constructor (ordered: bool)
      ensures Valid() && s == Start(ordered)
    {
      s := Start(ordered);
      next := 1;
    }

    /** The name is arbitrary, but not 0 and not in use. */
    method CreateTexture(tag: nat) returns (t: nat)
      requires Valid()
      modifies this
      ensures Valid() && t != 0 && Texture(t) !in old(s).objects
      ensures s == Create(old(s), Texture(t), tag, NoKernel)
    {
      t := next;
      next := next + 1;
      s := Create(s, Texture(t), tag, NoKernel);
    }

    method CreateBuffer(tag: nat) returns (b: nat)
      requires Valid()
      modifies this
      ensures Valid() && b != 0 && Buffer(b) !in old(s).objects
      ensures s == Create(old(s), Buffer(b), tag, NoKernel)
    {
      b := next;
      next := next + 1;
      s := Create(s, Buffer(b), tag, NoKernel);
    }

    method CreateComputePso(tag: nat, kernel: Kernel) returns (pso: Pso)
      requires Valid()
      modifies this
      ensures Valid() && pso.shader != 0 && pso.program != 0
      ensures Shader(pso.shader) !in old(s).objects && Program(pso.program) !in old(s).objects
      ensures s == CreatePso(old(s), pso, tag, kernel)
    {
      pso := Pso(next, next + 1);
      next := next + 2;
      s := CreatePso(s, pso, tag, kernel);
    }

    method Destroy(n: Name)
      requires Valid()
      modifies this
      ensures Valid() && s == Delete(old(s), n)
    {
      s := Delete(s, n);
    }

    method DestroyPso(pso: Pso) returns (none: Pso)
      requires Valid()
      modifies this
      ensures Valid() && none == NO_PSO && s == DeletePso(old(s), pso)
    {
      Destroy(Program(pso.program));
      Destroy(Shader(pso.shader));
      none := NO_PSO;
    }

    method Bind(unit: nat, t: nat)
      requires Valid()
      modifies this
      ensures Valid() && s == BindTexture(old(s), unit, t)
    {
      s := BindTexture(s, unit, t);
    }

    method BindImage(unit: nat, t: nat)
      requires Valid()
      modifies this
      ensures Valid() && s == BindUav(old(s), unit, t)
    {
      s := BindUav(s, unit, t);
    }

    method BindComputePso(pso: Pso)
      requires Valid()
      modifies this
      ensures Valid() && s == UsePso(old(s), pso)
    {
      s := UsePso(s, pso);
    }

    method Uniform(values: seq<int>)
      requires Valid()
      modifies this
      ensures Valid() && s == SetUniforms(old(s), values)
    {
      s := SetUniforms(s, values);
    }

    method DispatchCompute()
      requires Valid()
      modifies this
      ensures Valid() && s == Dispatch(old(s))
    {
      s := Dispatch(s);
    }

    method MemoryBarrier(bits: set<BarrierBit>)
      requires Valid()
      modifies this
      ensures Valid() && s == Barrier(old(s), bits)
    {
      s := Barrier(s, bits);
    }

    method CopyImageSubData(from: nat, to: nat)
      requires Valid()
      modifies this
      ensures Valid() && s == Copy(old(s), from, to)
    {
      s := Copy(s, from, to);
    }

    /** Fills a new staging buffer with the image, copies it to the texture and gives it back. */
    method Upload(tag: nat, image: int, t: nat)
      requires Valid()
      modifies this
      ensures Valid() && s == SetContent(old(s), Texture(t), Image(image))
    {
      var staging := CreateBuffer(tag);
      UploadLeavesNoTrace(old(s), tag, staging, t, Image(image));
      s := SetContent(s, Buffer(staging), Image(image));
      s := SetContent(s, Texture(t), Image(image));
      Destroy(Buffer(staging));
    }

    method DownloadStagingTexture(t: nat, staging: nat)
      requires Valid()
      modifies this
      ensures Valid() && s == GetTexImage(old(s), t, staging)
    {
      s := GetTexImage(s, t, staging);
    }
  }
}
