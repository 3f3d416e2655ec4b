/**
 * BSShaderTexture of the exporter: how the Blender texture slots fill a
 * Bethesda shader's texture set, the clamp mode, the UV transform, and
 * the singleton guard.
 *
 * `TextureWriter.export_texture_filename` is the function parameter
 * `exportFilename`. A new BSShaderTextureSet is assumed to hold
 * `defaultCount` empty file names, at least the four the code writes
 * into; `update_size` is assumed to keep the entries that still fit and
 * to fill new ones with the empty name.
 */
module ShaderTexture {
  import opened Wrappers

  /** A Blender image texture, reduced to its identity and its clamp flags. */
  datatype Texture = Texture(id: nat, useClampX: bool, useClampY: bool)

  /** A Blender texture slot: its texture, UV offset (x, y) and UV scale (x, y). */
  datatype Slot = Slot(texture: Texture, offsetX: real, offsetY: real, scaleX: real, scaleY: real)

  class BSShaderTextureSet {
    var textures: array<string>

    constructor(defaultCount: nat)
      ensures fresh(textures) && textures.Length == defaultCount
      ensures forall i :: 0 <= i < defaultCount ==> textures[i] == ""
    {
      textures := new string[defaultCount](_ => "");
    }

    /** num_textures := n followed by textures.update_size(). */
    method Resize(n: nat)
      modifies this
      ensures fresh(textures) && textures[..] == Resized(old(textures[..]), n)
    {
      var src := textures;
      var a := new string[n];
      for i := 0 to n
        invariant forall j :: 0 <= j < i ==> a[j] == if j < src.Length then src[j] else ""
      {
        a[i] := if i < src.Length then src[i] else "";
      }
      assert a[..] == Resized(src[..], n);
      textures := a;
    }
  }

  /** The entries kept by a resize to `n`, the rest empty. */
  function Resized(s: seq<string>, n: nat): (r: seq<string>)
    ensures |r| == n
    ensures forall i :: 0 <= i < n ==> r[i] == if i < |s| then s[i] else ""
  {
    seq(n, i requires 0 <= i < n => if i < |s| then s[i] else "")
  }

  /** Growing and shrinking back gives the original entries. */
  lemma {:induction false} ResizedGrowShrink(s: seq<string>, n: nat)
    requires n >= |s|
    ensures Resized(Resized(s, n), |s|) == s
  {
    var r := Resized(Resized(s, n), |s|);
    assert forall i :: 0 <= i < |s| ==> r[i] == s[i];
  }

  /** The file name of a present slot. */
  function SlotFile(slot: Option<Slot>, exportFilename: Texture -> string): Option<string> {
    if slot.Some? then Some(exportFilename(slot.value.texture)) else None
  }

  /**
   * The entries of a texture set after `slots` have been written into
   * `base`: `slots[i]`, when present, replaces entry `i`; every other entry
   * is kept.
   */
  function Overwrite(base: seq<string>, slots: seq<Option<string>>): (r: seq<string>)
    ensures |r| == |base|
    ensures forall i :: 0 <= i < |base| ==>
              r[i] == if i < |slots| && slots[i].Some? then slots[i].value else base[i]
  {
    seq(|base|, i requires 0 <= i < |base| => if i < |slots| && slots[i].Some? then slots[i].value else base[i])
  }

  /** The clamp mode of the diffuse texture: 2 unless clamped in x, plus 1 unless clamped in y. */
  function ClampMode(useClampX: bool, useClampY: bool): (r: nat)
    ensures r <= 3
  {
    (if !useClampX then 2 else 0) + (if !useClampY then 1 else 0)
  }

  /** The clamp mode encodes both flags: bit 1 is "wrap in x", bit 0 "wrap in y". */
  lemma ClampModeDecodes(useClampX: bool, useClampY: bool)
    ensures ClampMode(useClampX, useClampY) / 2 == (if useClampX then 0 else 1)
    ensures ClampMode(useClampX, useClampY) % 2 == (if useClampY then 0 else 1)
    ensures forall x: bool, y: bool :: ClampMode(x, y) == ClampMode(useClampX, useClampY) ==> x == useClampX && y == useClampY
  {
  }

  /** The clamp mode written for an effect shader. */
  const EffectClampMode: int := 65283

  /** A Bethesda shader property block, reduced to the fields written here. */
  class BSShaderProperty {
    var textureSet: BSShaderTextureSet?
    var sourceTexture: string
    var greyscaleTexture: string
    var textureClampMode: int
    /** Whether the block type has uv_offset / uv_scale at all. */
    const hasUVOffset: bool
    const hasUVScale: bool
    var uvOffsetU: real
    var uvOffsetV: real
    var uvScaleU: real
    var uvScaleV: real

    constructor(hasOffset: bool, hasScale: bool)
      ensures textureSet == null && hasUVOffset == hasOffset && hasUVScale == hasScale
    {
      textureSet := null;
      sourceTexture := "";
      greyscaleTexture := "";
      textureClampMode := 0;
      hasUVOffset := hasOffset;
      hasUVScale := hasScale;
      uvOffsetU, uvOffsetV, uvScaleU, uvScaleV := 0.0, 0.0, 1.0, 1.0;
    }
  }

  class BSShaderTexture {
    var diffuseSlot: Option<Slot>
    var normalSlot: Option<Slot>
    var glowSlot: Option<Slot>
    var detailSlot: Option<Slot>
    var glossSlot: Option<Slot>
    const exportFilename: Texture -> string
    const defaultCount: nat

    /** The slot manager starts with no slots; the slots are filled by code outside this model. */
    constructor(exportFilename: Texture -> string, defaultCount: nat)
      requires defaultCount >= 4
      ensures diffuseSlot.None? && normalSlot.None? && glowSlot.None? && detailSlot.None? && glossSlot.None?
      ensures this.exportFilename == exportFilename && this.defaultCount == defaultCount
    {
      diffuseSlot, normalSlot, glowSlot, detailSlot, glossSlot := None, None, None, None, None;
      this.exportFilename := exportFilename;
      this.defaultCount := defaultCount;
    }

    /** The four slots written by _create_textureset, in slot order 0..3. */
    function BaseSlots(): seq<Option<string>>
      reads this
    {
      [SlotFile(diffuseSlot, exportFilename), SlotFile(normalSlot, exportFilename),
       SlotFile(glowSlot, exportFilename), SlotFile(detailSlot, exportFilename)]
    }

    /**
     * _create_textureset: a new set whose entries 0, 1, 2 and 3 hold the
     * diffuse, normal, glow and detail file names when those slots are
     * present; every other entry keeps its default.
     */
    method CreateTextureset() returns (texset: BSShaderTextureSet)
      requires defaultCount >= 4
      ensures fresh(texset) && fresh(texset.textures)
      ensures texset.textures[..] == Overwrite(seq(defaultCount, _ => ""), BaseSlots())
    {
      texset := new BSShaderTextureSet(defaultCount);
      if diffuseSlot.Some? {
        texset.textures[0] := exportFilename(diffuseSlot.value.texture);
      }
      if normalSlot.Some? {
        texset.textures[1] := exportFilename(normalSlot.value.texture);
      }
      if glowSlot.Some? {
        texset.textures[2] := exportFilename(glowSlot.value.texture);
      }
      if detailSlot.Some? {
        texset.textures[3] := exportFilename(detailSlot.value.texture);
      }
    }

    /**
     * export_bs_effect_shader_prop_textures: a new texture set, the
     * diffuse file as source texture, the glow file as greyscale texture,
     * and the fixed clamp mode. Both slots must be present.
     */
    method ExportEffectShaderTextures(bsshader: BSShaderProperty)
      requires defaultCount >= 4
      requires diffuseSlot.Some? && glowSlot.Some?
      modifies bsshader
      ensures fresh(bsshader.textureSet) && fresh(bsshader.textureSet.textures)
      ensures bsshader.textureSet.textures[..] == Overwrite(seq(defaultCount, _ => ""), BaseSlots())
      ensures bsshader.sourceTexture == exportFilename(diffuseSlot.value.texture)
      ensures bsshader.greyscaleTexture == exportFilename(glowSlot.value.texture)
      ensures bsshader.textureClampMode == EffectClampMode
      ensures bsshader.uvOffsetU == old(bsshader.uvOffsetU) && bsshader.uvOffsetV == old(bsshader.uvOffsetV)
      ensures bsshader.uvScaleU == old(bsshader.uvScaleU) && bsshader.uvScaleV == old(bsshader.uvScaleV)
    {
      var texset := CreateTextureset();
      bsshader.textureSet := texset;
      bsshader.sourceTexture := exportFilename(diffuseSlot.value.texture);
      bsshader.greyscaleTexture := exportFilename(glowSlot.value.texture);
      bsshader.textureClampMode := EffectClampMode;
    }

    /**
     * export_bs_lighting_shader_prop_textures: the base set grown to nine
     * entries, with detail also in entry 6 and gloss in entry 7 when
     * present, the UV transform copied when the block has one, and the
     * clamp mode of the diffuse texture. The diffuse slot must be present.
     */
    method ExportLightingShaderTextures(bsshader: BSShaderProperty)
      requires defaultCount >= 4
      requires diffuseSlot.Some?
      modifies bsshader
      ensures fresh(bsshader.textureSet)
      ensures bsshader.textureSet.textures[..] ==
                Overwrite(Resized(Overwrite(seq(defaultCount, _ => ""), BaseSlots()), 9),
                          [None, None, None, None, None, None,
                           SlotFile(detailSlot, exportFilename), SlotFile(glossSlot, exportFilename)])
      ensures bsshader.textureClampMode ==
                ClampMode(diffuseSlot.value.texture.useClampX, diffuseSlot.value.texture.useClampY)
      ensures bsshader.hasUVOffset ==> bsshader.uvOffsetU == diffuseSlot.value.offsetX && bsshader.uvOffsetV == diffuseSlot.value.offsetY
      ensures !bsshader.hasUVOffset ==> bsshader.uvOffsetU == old(bsshader.uvOffsetU) && bsshader.uvOffsetV == old(bsshader.uvOffsetV)
      ensures bsshader.hasUVScale ==> bsshader.uvScaleU == diffuseSlot.value.scaleX && bsshader.uvScaleV == diffuseSlot.value.scaleY
      ensures !bsshader.hasUVScale ==> bsshader.uvScaleU == old(bsshader.uvScaleU) && bsshader.uvScaleV == old(bsshader.uvScaleV)
      ensures bsshader.sourceTexture == old(bsshader.sourceTexture)
      ensures bsshader.greyscaleTexture == old(bsshader.greyscaleTexture)
    {
      var texset := CreateTextureset();
      bsshader.textureSet := texset;
      FillLightingSlots(texset);
      if bsshader.hasUVOffset {
        var _ := ExportUVOffset(bsshader);
      }
      if bsshader.hasUVScale {
        var _ := ExportUVScale(bsshader);
      }
      var wrapS := if !diffuseSlot.value.texture.useClampX then 2 else 0;
      var wrapT := if !diffuseSlot.value.texture.useClampY then 1 else 0;
      bsshader.textureClampMode := wrapS + wrapT;
    }

    /** The texture-set part of the lighting export: nine entries, detail in 6 and gloss in 7. */
    method FillLightingSlots(texset: BSShaderTextureSet)
      modifies texset
      ensures fresh(texset.textures)
      ensures texset.textures[..] ==
                Overwrite(Resized(old(texset.textures[..]), 9),
                          [None, None, None, None, None, None,
                           SlotFile(detailSlot, exportFilename), SlotFile(glossSlot, exportFilename)])
    {
      texset.Resize(9);
      ghost var grown := texset.textures[..];
      if detailSlot.Some? {
        texset.textures[6] := exportFilename(detailSlot.value.texture);
      }
      if glossSlot.Some? {
        texset.textures[7] := exportFilename(glossSlot.value.texture);
      }
    }

    /** export_bs_shader_pp_lighting_prop_textures: the base texture set only. */
    method ExportPPLightingShaderTextures(bsshader: BSShaderProperty)
      requires defaultCount >= 4
      modifies bsshader
      ensures fresh(bsshader.textureSet) && fresh(bsshader.textureSet.textures)
      ensures bsshader.textureSet.textures[..] == Overwrite(seq(defaultCount, _ => ""), BaseSlots())
      ensures bsshader.textureClampMode == old(bsshader.textureClampMode)
      ensures bsshader.sourceTexture == old(bsshader.sourceTexture)
      ensures bsshader.greyscaleTexture == old(bsshader.greyscaleTexture)
      ensures bsshader.uvOffsetU == old(bsshader.uvOffsetU) && bsshader.uvOffsetV == old(bsshader.uvOffsetV)
      ensures bsshader.uvScaleU == old(bsshader.uvScaleU) && bsshader.uvScaleV == old(bsshader.uvScaleV)
    {
      var texset := CreateTextureset();
      bsshader.textureSet := texset;
    }

    /** export_uv_offset: u and v from the diffuse slot's offset, nothing else. */
    method ExportUVOffset(shader: BSShaderProperty) returns (r: BSShaderProperty)
      requires diffuseSlot.Some?
      modifies shader
      ensures r == shader
      ensures shader.uvOffsetU == diffuseSlot.value.offsetX && shader.uvOffsetV == diffuseSlot.value.offsetY
      ensures shader.uvScaleU == old(shader.uvScaleU) && shader.uvScaleV == old(shader.uvScaleV)
      ensures shader.textureSet == old(shader.textureSet) && shader.textureClampMode == old(shader.textureClampMode)
      ensures shader.sourceTexture == old(shader.sourceTexture) && shader.greyscaleTexture == old(shader.greyscaleTexture)
    {
      shader.uvOffsetU := diffuseSlot.value.offsetX;
      shader.uvOffsetV := diffuseSlot.value.offsetY;
      return shader;
    }

    /** export_uv_scale: u and v from the diffuse slot's scale, nothing else. */
    method ExportUVScale(shader: BSShaderProperty) returns (r: BSShaderProperty)
      requires diffuseSlot.Some?
      modifies shader
      ensures r == shader
      ensures shader.uvScaleU == diffuseSlot.value.scaleX && shader.uvScaleV == diffuseSlot.value.scaleY
      ensures shader.uvOffsetU == old(shader.uvOffsetU) && shader.uvOffsetV == old(shader.uvOffsetV)
      ensures shader.textureSet == old(shader.textureSet) && shader.textureClampMode == old(shader.textureClampMode)
      ensures shader.sourceTexture == old(shader.sourceTexture) && shader.greyscaleTexture == old(shader.greyscaleTexture)
    {
      shader.uvScaleU := diffuseSlot.value.scaleX;
      shader.uvScaleV := diffuseSlot.value.scaleY;
      return shader;
    }
  }

  /**
   * The lighting layout: entries 0..3 and 6..7 hold the slots' file names
   * when present, the set has nine entries, and entries 4, 5 and 8 keep
   * whatever the default set had there (empty when it had none).
   */
  lemma LightingLayout(defaultCount: nat, base: seq<Option<string>>, detail: Option<string>, gloss: Option<string>)
    requires defaultCount >= 4 && |base| == 4
    ensures var t := Overwrite(Resized(Overwrite(seq(defaultCount, _ => ""), base), 9),
                              [None, None, None, None, None, None, detail, gloss]);
            && |t| == 9
            && (forall i :: 0 <= i < 4 ==> t[i] == base[i].GetOr(""))
            && t[6] == (if detail.Some? then detail.value else "")
            && t[7] == (if gloss.Some? then gloss.value else "")
            && t[4] == "" && t[5] == "" && t[8] == ""
  {
  }

  /**
   * BSShaderTexture.__instance: `get()` creates the instance on first use
   * and then always returns it; direct construction after that raises.
   */
  class Singleton {
    var instance: BSShaderTexture?

    constructor()
      ensures instance == null
    {
      instance := null;
    }

    /** `get()` */
    method Get(exportFilename: Texture -> string, defaultCount: nat) returns (t: BSShaderTexture)
      requires defaultCount >= 4
      modifies this
      ensures old(instance) != null ==> t == old(instance) && instance == old(instance)
      ensures old(instance) == null ==> fresh(t) && instance == t
    {
      if instance == null {
        var created := Construct(exportFilename, defaultCount);
      }
      t := instance;
    }

    /** `BSShaderTexture()`: None is the "This class is a singleton!" exception. */
    method Construct(exportFilename: Texture -> string, defaultCount: nat) returns (r: Option<BSShaderTexture>)
      requires defaultCount >= 4
      modifies this
      ensures old(instance) != null ==> r.None? && instance == old(instance)
      ensures old(instance) == null ==> r.Some? && fresh(r.value) && instance == r.value
    {
      if instance != null {
        return None;
      }
      var t := new BSShaderTexture(exportFilename, defaultCount);
      instance := t;
      return Some(t);
    }

    /** Two calls of `get()` give the same instance, and construction after them raises. */
    method GetTwiceThenConstruct(exportFilename: Texture -> string, defaultCount: nat)
      returns (a: BSShaderTexture, b: BSShaderTexture, c: Option<BSShaderTexture>)
      requires defaultCount >= 4
      modifies this
      ensures a == b && c.None? && instance == a
    {
      a := Get(exportFilename, defaultCount);
      b := Get(exportFilename, defaultCount);
      c := Construct(exportFilename, defaultCount);
    }
  }
}
