/**
 * The material setters of the Blender 2.8 importer: the alpha property's
 * flags choose Blender's blend and shadow methods, a stencil property
 * turns off backface culling, and a material takes its name from the
 * block store or, failing that, from the block it belongs to.
 *
 * A Blender material is a class whose fields the setters assign in place.
 * The colour and gloss fields `import_material` also assigns are floating
 * point copies and are not modelled.
 */
module Material {
  import opened Wrappers

  /** Blender's blend and shadow methods. */
  datatype Method = Opaque | Clip | Hashed | Blend

  /** An NiAlphaProperty: 16 bits of flags and an 8-bit threshold. */
  datatype AlphaProperty = AlphaProperty(flags: bv16, threshold: nat)

  const BlendEnableBit: bv16 := 1
  const TestEnableBit: bv16 := 1 << 9

  /**
   * The blend method and the shadow method for the given flags: bit 0
   * enables blending, bit 9 alpha testing.
   */
  function AlphaModes(flags: bv16): (r: (Method, Method))
    ensures r.1 == Hashed <==> flags & BlendEnableBit != 0
    ensures r.0 == Clip <==> flags & BlendEnableBit == 0 && flags & TestEnableBit != 0
  {
    var blendEnable := BlendEnableBit & flags;
    var testEnable := TestEnableBit & flags;
    if blendEnable != 0 && testEnable != 0 then (Hashed, Hashed)
    else if blendEnable != 0 then (Blend, Hashed)
    else if testEnable != 0 then (Clip, Clip)
    else (Opaque, Opaque)
  }

  /**
   * Only bits 0 and 9 decide the modes, and every combination of them
   * gives different modes: two flag words give the same modes exactly
   * when they agree on these two bits.
   */
  lemma AlphaModesDependOnTwoBits(f: bv16, g: bv16)
    ensures AlphaModes(f) == AlphaModes(g) <==> f & 0x0201 == g & 0x0201
  {
    assert f & 0x0201 == (f & BlendEnableBit) | (f & TestEnableBit);
    assert g & 0x0201 == (g & BlendEnableBit) | (g & TestEnableBit);
  }

  /** The four cases, one per combination of the two bits. */
  lemma AlphaModesCases(flags: bv16)
    ensures flags & 0x0201 == 0x0201 ==> AlphaModes(flags) == (Hashed, Hashed)
    ensures flags & 0x0201 == 0x0001 ==> AlphaModes(flags) == (Blend, Hashed)
    ensures flags & 0x0201 == 0x0200 ==> AlphaModes(flags) == (Clip, Clip)
    ensures flags & 0x0201 == 0x0000 ==> AlphaModes(flags) == (Opaque, Opaque)
  {
    assert flags & 0x0201 == (flags & BlendEnableBit) | (flags & TestEnableBit);
  }

  /**
   * The material name: the one the block store recorded for the material
   * property, otherwise the owning block's name with "_nt_mat" appended.
   */
  function MaterialName(importName: Option<string>, blockName: string): (r: string)
    ensures importName.Some? ==> r == importName.value
    ensures importName.None? ==> |r| == |blockName| + 7 && r[..|blockName|] == blockName && r[|blockName|..] == "_nt_mat"
  {
    if importName.None? then blockName + "_nt_mat" else importName.value
  }

  /** Without a recorded name, different blocks give different material names. */
  lemma {:induction false} FallbackNamesDistinct(a: string, b: string)
    requires a != b
    ensures MaterialName(None, a) != MaterialName(None, b)
  {
    if |a| == |b| {
      var k :| 0 <= k < |a| && a[k] != b[k];
      assert MaterialName(None, a)[k] == a[k];
      assert MaterialName(None, b)[k] == b[k];
    } else {
      assert |MaterialName(None, a)| != |MaterialName(None, b)|;
    }
  }

  class BMaterial {
    var name: string
    var blendMethod: Method
    var shadowMethod: Method
    var alphaThreshold: real
    var alphaflag: bv16
    var useBackfaceCulling: bool
  }

  /** Material.set_stencil: backface culling off, same material returned. */
  method SetStencil(bMat: BMaterial, nAlphaProp: AlphaProperty) returns (r: BMaterial)
    modifies bMat
    ensures r == bMat
    ensures !bMat.useBackfaceCulling
    ensures bMat.name == old(bMat.name) && bMat.alphaflag == old(bMat.alphaflag)
    ensures bMat.blendMethod == old(bMat.blendMethod) && bMat.shadowMethod == old(bMat.shadowMethod)
    ensures bMat.alphaThreshold == old(bMat.alphaThreshold)
  {
    bMat.useBackfaceCulling := false;
    return bMat;
  }

  /**
   * Material.set_alpha: the modes the flags select, the threshold scaled
   * from 0..255 to 0..1, and the flags kept unchanged for export.
   */
  method SetAlpha(bMat: BMaterial, nAlphaProp: AlphaProperty) returns (r: BMaterial)
    modifies bMat
    ensures r == bMat
    ensures (bMat.blendMethod, bMat.shadowMethod) == AlphaModes(nAlphaProp.flags)
    ensures bMat.alphaThreshold == nAlphaProp.threshold as real / 255.0
    ensures bMat.alphaflag == nAlphaProp.flags
    ensures bMat.name == old(bMat.name) && bMat.useBackfaceCulling == old(bMat.useBackfaceCulling)
  {
    var blendEnable := 1 & nAlphaProp.flags;
    var testEnable := (1 << 9) & nAlphaProp.flags;
    if blendEnable != 0 && testEnable != 0 {
      bMat.blendMethod := Hashed;
      bMat.shadowMethod := Hashed;
    } else if blendEnable != 0 {
      bMat.blendMethod := Blend;
      bMat.shadowMethod := Hashed;
    } else if testEnable != 0 {
      bMat.blendMethod := Clip;
      bMat.shadowMethod := Clip;
    } else {
      bMat.blendMethod := Opaque;
      bMat.shadowMethod := Opaque;
    }
    bMat.alphaThreshold := nAlphaProp.threshold as real / 255.0;
    bMat.alphaflag := nAlphaProp.flags;
    return bMat;
  }

  /**
   * The naming step of NiMaterial.import_material; `importName` is what
   * the block store's import_name returns for the material property.
   */
  method ImportMaterialName(blockName: string, bMat: BMaterial, importName: Option<string>) returns (r: BMaterial)
    modifies bMat
    ensures r == bMat
    ensures bMat.name == MaterialName(importName, blockName)
    ensures bMat.blendMethod == old(bMat.blendMethod) && bMat.shadowMethod == old(bMat.shadowMethod)
    ensures bMat.alphaflag == old(bMat.alphaflag) && bMat.alphaThreshold == old(bMat.alphaThreshold)
    ensures bMat.useBackfaceCulling == old(bMat.useBackfaceCulling)
  {
    var name := importName;
    if name.None? {
      name := Some(blockName + "_nt_mat");
    }
    bMat.name := name.value;
    return bMat;
  }
}
