/**
 * Property blocks on export: `ObjectProperty.get_matching_block`, which
 * returns the first registered block of a type whose attributes agree
 * with the given keyword criteria or else creates one; the per-game flag
 * choices of the alpha and stencil properties; the vertex-colour and
 * z-buffer properties, which are always new; and
 * `ObjectDataProperty.export_inventory_marker`.
 *
 * The block store's `block_to_obj` is the sequence `blocks`, in insertion
 * order; a block is identified by its index. A block is a record of its
 * type name, its integer attributes, the indices of its properties and
 * its extra data. `create_block` is not part of this model: it is assumed
 * to append a block of the requested type whose attributes are that
 * type's defaults, `defaultsOf(type)`.
 */
module ObjectProperty {
  import opened Wrappers
  import opened PyStr
  import Material

  datatype ExtraData =
    | InvMarker(name: string, rotationX: int, rotationY: int, rotationZ: int, zoom: real)
    | OtherExtraData(typeName: string)

  datatype Block = Block(typeName: string, attrs: map<string, int>, properties: seq<nat>, extraData: seq<ExtraData>)

  /** A keyword argument of get_matching_block; None leaves the attribute unconstrained. */
  datatype Kwarg = Kwarg(param: string, attribute: Option<int>)

  /** Keyword argument names are unique, as in any Python call. */
  predicate DistinctParams(kwargs: seq<Kwarg>) {
    forall i, j :: 0 <= i < j < |kwargs| ==> kwargs[i].param != kwargs[j].param
  }

  function NewBlock(typeName: string, attrs: map<string, int>): Block {
    Block(typeName, attrs, [], [])
  }

  // ---------------------------------------------------------------------
  // get_matching_block
  // ---------------------------------------------------------------------

  /** `block_type in str(type(block))`, on the block's type name. */
  predicate TypeMatches(block: Block, blockType: string) {
    Find(block.typeName, blockType) >= 0
  }

  /** Every constrained keyword argument equals the block's attribute. */
  predicate Satisfies(block: Block, kwargs: seq<Kwarg>) {
    forall k :: 0 <= k < |kwargs| && kwargs[k].attribute.Some? ==>
      kwargs[k].param in block.attrs && block.attrs[kwargs[k].param] == kwargs[k].attribute.value
  }

  predicate Matches(block: Block, blockType: string, kwargs: seq<Kwarg>) {
    TypeMatches(block, blockType) && Satisfies(block, kwargs)
  }

  /** The first matching block at or after index `i`. */
  function FirstMatchFrom(blocks: seq<Block>, blockType: string, kwargs: seq<Kwarg>, i: nat): (r: Option<nat>)
    requires i <= |blocks|
    ensures r.Some? ==> i <= r.value < |blocks| && Matches(blocks[r.value], blockType, kwargs)
    ensures forall j :: i <= j < |blocks| && (r.None? || j < r.value) ==> !Matches(blocks[j], blockType, kwargs)
    decreases |blocks| - i
  {
    if i == |blocks| then None
    else if Matches(blocks[i], blockType, kwargs) then Some(i)
    else FirstMatchFrom(blocks, blockType, kwargs, i + 1)
  }

  /** `setattr` of every constrained keyword argument, in order. */
  function Apply(attrs: map<string, int>, kwargs: seq<Kwarg>): map<string, int> {
    if kwargs == [] then attrs
    else
      var a := Apply(attrs, kwargs[..|kwargs| - 1]);
      var last := kwargs[|kwargs| - 1];
      if last.attribute.Some? then a[last.param := last.attribute.value] else a
  }

  /**
   * After the setattr loop every constrained parameter has its requested
   * value, and every other attribute keeps its default.
   */
  lemma {:induction false} ApplySets(attrs: map<string, int>, kwargs: seq<Kwarg>)
    requires DistinctParams(kwargs)
    ensures forall k :: 0 <= k < |kwargs| && kwargs[k].attribute.Some? ==>
              kwargs[k].param in Apply(attrs, kwargs) && Apply(attrs, kwargs)[kwargs[k].param] == kwargs[k].attribute.value
    ensures forall p :: (forall k :: 0 <= k < |kwargs| && kwargs[k].attribute.Some? ==> kwargs[k].param != p) ==>
              (p in Apply(attrs, kwargs) <==> p in attrs) && (p in attrs ==> Apply(attrs, kwargs)[p] == attrs[p])
  {
    if kwargs != [] {
      var init := kwargs[..|kwargs| - 1];
      assert DistinctParams(init);
      ApplySets(attrs, init);
      assert forall k :: 0 <= k < |init| ==> init[k] == kwargs[k];
    }
  }

  /**
   * get_matching_block on a store: the first matching block and the store
   * unchanged, or the store with a new block of the type whose
   * constrained attributes are set, and that block's index.
   */
  function GetOrCreate(blocks: seq<Block>, defaults: map<string, int>, blockType: string, kwargs: seq<Kwarg>): (seq<Block>, nat) {
    match FirstMatchFrom(blocks, blockType, kwargs, 0)
    case Some(i) => (blocks, i)
    case None => (blocks + [NewBlock(blockType, Apply(defaults, kwargs))], |blocks|)
  }

  /** A block made for a request satisfies that request. */
  lemma NewBlockMatches(defaults: map<string, int>, blockType: string, kwargs: seq<Kwarg>)
    requires DistinctParams(kwargs)
    ensures Matches(NewBlock(blockType, Apply(defaults, kwargs)), blockType, kwargs)
  {
    ApplySets(defaults, kwargs);
    assert OccursAt(blockType, blockType, 0);
  }

  /**
   * The returned block matches the request; an existing block is reused
   * exactly when one matches, and then it is the first that does and the
   * store is unchanged; otherwise exactly one block is appended.
   */
  lemma GetOrCreateSpec(blocks: seq<Block>, defaults: map<string, int>, blockType: string, kwargs: seq<Kwarg>)
    requires DistinctParams(kwargs)
    ensures var (after, i) := GetOrCreate(blocks, defaults, blockType, kwargs);
            && i < |after|
            && Matches(after[i], blockType, kwargs)
            && ((exists j :: 0 <= j < |blocks| && Matches(blocks[j], blockType, kwargs)) <==> after == blocks)
            && (after == blocks ==> forall j :: 0 <= j < i ==> !Matches(blocks[j], blockType, kwargs))
            && (after != blocks ==> after[..|blocks|] == blocks && |after| == |blocks| + 1 && i == |blocks|)
  {
    NewBlockMatches(defaults, blockType, kwargs);
    var (after, i) := GetOrCreate(blocks, defaults, blockType, kwargs);
    if after != blocks {
      assert after[..|blocks|] == blocks;
    }
  }

  /**
   * Asking twice for the same property returns the block of the first
   * call and leaves the store as the first call left it.
   */
  lemma GetOrCreateIdempotent(blocks: seq<Block>, defaults: map<string, int>, blockType: string, kwargs: seq<Kwarg>)
    requires DistinctParams(kwargs)
    ensures var first := GetOrCreate(blocks, defaults, blockType, kwargs);
            GetOrCreate(first.0, defaults, blockType, kwargs) == first
  {
    var first := GetOrCreate(blocks, defaults, blockType, kwargs);
    if FirstMatchFrom(blocks, blockType, kwargs, 0).None? {
      NewBlockMatches(defaults, blockType, kwargs);
      var m := FirstMatchFrom(first.0, blockType, kwargs, 0);
      assert forall j :: 0 <= j < |blocks| ==> first.0[j] == blocks[j];
      assert forall j :: 0 <= j < |blocks| ==> !Matches(first.0[j], blockType, kwargs);
      assert first.0[|blocks|] == NewBlock(blockType, Apply(defaults, kwargs));
      assert m == Some(|blocks|);
    }
  }

  /** The constrained keyword arguments alone. */
  function Constrained(kwargs: seq<Kwarg>): (r: seq<Kwarg>)
    ensures forall k :: 0 <= k < |r| ==> r[k].attribute.Some? && r[k] in kwargs
    ensures forall k :: 0 <= k < |kwargs| && kwargs[k].attribute.Some? ==> kwargs[k] in r
  {
    if kwargs == [] then []
    else (if kwargs[|kwargs| - 1].attribute.Some? then Constrained(kwargs[..|kwargs| - 1]) + [kwargs[|kwargs| - 1]]
          else Constrained(kwargs[..|kwargs| - 1]))
  }

  lemma {:induction false} ApplyConstrained(attrs: map<string, int>, kwargs: seq<Kwarg>)
    ensures Apply(attrs, Constrained(kwargs)) == Apply(attrs, kwargs)
  {
    if kwargs != [] {
      var init := kwargs[..|kwargs| - 1];
      ApplyConstrained(attrs, init);
      var c := Constrained(kwargs);
      if kwargs[|kwargs| - 1].attribute.Some? {
        assert c[..|c| - 1] == Constrained(init);
      }
    }
  }

  /** A keyword argument given as None is neither compared nor set. */
  lemma NoneKwargsIgnored(blocks: seq<Block>, defaults: map<string, int>, blockType: string, kwargs: seq<Kwarg>)
    ensures GetOrCreate(blocks, defaults, blockType, kwargs) == GetOrCreate(blocks, defaults, blockType, Constrained(kwargs))
  {
    ApplyConstrained(defaults, kwargs);
    forall b: Block
      ensures Satisfies(b, kwargs) == Satisfies(b, Constrained(kwargs))
    {
      var c := Constrained(kwargs);
      if Satisfies(b, kwargs) {
        forall k | 0 <= k < |c| && c[k].attribute.Some?
          ensures c[k].param in b.attrs && b.attrs[c[k].param] == c[k].attribute.value
        {
          var j :| 0 <= j < |kwargs| && kwargs[j] == c[k];
        }
      }
      if Satisfies(b, c) {
        forall k | 0 <= k < |kwargs| && kwargs[k].attribute.Some?
          ensures kwargs[k].param in b.attrs && b.attrs[kwargs[k].param] == kwargs[k].attribute.value
        {
          var j :| 0 <= j < |c| && c[j] == kwargs[k];
        }
      }
    }
    FirstMatchSame(blocks, blockType, kwargs, Constrained(kwargs), 0);
  }

  lemma {:induction false} FirstMatchSame(blocks: seq<Block>, blockType: string, kw1: seq<Kwarg>, kw2: seq<Kwarg>, i: nat)
    requires i <= |blocks|
    requires forall j :: i <= j < |blocks| ==> Satisfies(blocks[j], kw1) == Satisfies(blocks[j], kw2)
    ensures FirstMatchFrom(blocks, blockType, kw1, i) == FirstMatchFrom(blocks, blockType, kw2, i)
    decreases |blocks| - i
  {
    if i < |blocks| {
      FirstMatchSame(blocks, blockType, kw1, kw2, i + 1);
    }
  }

  // ---------------------------------------------------------------------
  // Per-game flags
  // ---------------------------------------------------------------------

  /**
   * The flags and threshold export_alpha_property asks for: the material's
   * stored flags when nonzero (with its threshold scaled to 0..255 by the
   * caller), otherwise the game's default.
   */
  function AlphaRequest(alphaflag: int, scaledThreshold: int, game: string): (r: (int, int))
    ensures alphaflag != 0 ==> r == (alphaflag, scaledThreshold)
    ensures alphaflag == 0 ==> r.0 in {0x32ED, 0x00ED, 0x12ED} && (r.1 == 150 <==> game == "SID_MEIER_S_RAILROADS")
    ensures alphaflag == 0 && game == "SID_MEIER_S_RAILROADS" ==> r == (0x32ED, 150)
    ensures alphaflag == 0 && game == "EMPIRE_EARTH_II" ==> r == (0x00ED, 0)
    ensures alphaflag == 0 && game != "SID_MEIER_S_RAILROADS" && game != "EMPIRE_EARTH_II" ==> r == (0x12ED, 0)
  {
    if alphaflag != 0 then (alphaflag, scaledThreshold)
    else if game == "SID_MEIER_S_RAILROADS" then (0x32ED, 150)
    else if game == "EMPIRE_EARTH_II" then (0x00ED, 0)
    else (0x12ED, 0)
  }

  /**
   * Flags survive an import/export round trip: set_alpha stores an alpha
   * property's nonzero flags in the material, and export asks for exactly
   * those flags again.
   */
  lemma AlphaFlagsRoundTrip(flags: bv16, scaledThreshold: int, game: string)
    requires flags != 0
    ensures AlphaRequest(flags as int, scaledThreshold, game).0 == flags as int
  {
  }

  /**
   * The default flags re-import as alpha-test blending (both methods
   * HASHED), except Empire Earth II's, which re-import as plain blending.
   */
  lemma DefaultAlphaFlagsImportModes(game: string)
    ensures var f := AlphaRequest(0, 0, game).0;
            0 <= f < 0x10000
            && Material.AlphaModes(f as bv16) ==
                 (if game == "EMPIRE_EARTH_II" then (Material.Blend, Material.Hashed) else (Material.Hashed, Material.Hashed))
  {
    DefaultFlagsModes();
    var r := AlphaRequest(0, 0, game);
    if game == "SID_MEIER_S_RAILROADS" {
      assert r.0 == 0x32ED;
      assert r.0 as bv16 == 0x32ED;
    } else if game == "EMPIRE_EARTH_II" {
      assert r.0 == 0x00ED;
      assert r.0 as bv16 == 0x00ED;
    } else {
      assert r.0 == 0x12ED;
      assert r.0 as bv16 == 0x12ED;
    }
  }

  lemma DefaultFlagsModes()
    ensures Material.AlphaModes(0x32ED) == (Material.Hashed, Material.Hashed)
    ensures Material.AlphaModes(0x00ED) == (Material.Blend, Material.Hashed)
    ensures Material.AlphaModes(0x12ED) == (Material.Hashed, Material.Hashed)
  {
  }

  /** export_stencil_property: Fallout 3 forces 19840, otherwise the argument. */
  function StencilRequest(flags: Option<int>, game: string): (r: Option<int>)
    ensures game == "FALLOUT_3" ==> r == Some(19840)
    ensures game != "FALLOUT_3" ==> r == flags
  {
    if game == "FALLOUT_3" then Some(19840) else flags
  }

  /**
   * Without flags, outside Fallout 3, the stencil request is unconstrained:
   * the first registered stencil property, whatever its flags, is reused.
   */
  lemma UnconstrainedStencilReused(blocks: seq<Block>, defaults: map<string, int>, game: string, j: nat)
    requires game != "FALLOUT_3"
    requires j < |blocks| && TypeMatches(blocks[j], "NiStencilProperty")
    ensures var kwargs := [Kwarg("flags", StencilRequest(None, game))];
            var (after, i) := GetOrCreate(blocks, defaults, "NiStencilProperty", kwargs);
            after == blocks && i <= j
  {
    var kwargs := [Kwarg("flags", StencilRequest(None, game))];
    assert Matches(blocks[j], "NiStencilProperty", kwargs);
  }

  // ---------------------------------------------------------------------
  // export_inventory_marker
  // ---------------------------------------------------------------------

  /** A Blender inventory-marker entry: name, rotations and zoom. */
  datatype InvMarkerData = InvMarkerData(name: string, x: int, y: int, z: int, zoom: real)

  /** A root object's inventory-marker collection; only its first entry is exported. */
  datatype RootObject = RootObject(invMarkers: seq<InvMarkerData>)

  predicate HasInvMarker(extra: seq<ExtraData>) {
    exists k :: 0 <= k < |extra| && extra[k].InvMarker?
  }

  /** The extra-data list reached, and whether NifError was raised there. */
  datatype MarkerRun = MarkerRun(extra: seq<ExtraData>, raised: bool)

  /** The marker exported for a root object: a copy of its first marker's fields. */
  function MarkerOf(obj: RootObject): ExtraData
    requires obj.invMarkers != []
  {
    var m := obj.invMarkers[0];
    InvMarker(m.name, m.x, m.y, m.z, m.zoom)
  }

  /** The loop over the root objects, for Skyrim. */
  function MarkRoots(extra: seq<ExtraData>, objs: seq<RootObject>): MarkerRun
    decreases |objs|
  {
    if objs == [] then MarkerRun(extra, false)
    else if objs[0].invMarkers == [] then MarkRoots(extra, objs[1..])
    else if HasInvMarker(extra) then MarkerRun(extra, true)
    else MarkRoots(extra + [MarkerOf(objs[0])], objs[1..])
  }

  function InventoryMarkers(extra: seq<ExtraData>, objs: seq<RootObject>, game: string): MarkerRun {
    if game == "SKYRIM" then MarkRoots(extra, objs) else MarkerRun(extra, false)
  }

  lemma {:induction false} MarkRootsWithMarkerRaises(extra: seq<ExtraData>, objs: seq<RootObject>, j: nat)
    requires HasInvMarker(extra)
    requires j < |objs| && objs[j].invMarkers != []
    ensures MarkRoots(extra, objs).raised
  {
    if objs[0].invMarkers == [] {
      MarkRootsWithMarkerRaises(extra, objs[1..], j - 1);
    }
  }

  /** With two marked root objects, Skyrim export raises NifError. */
  lemma {:induction false} TwoMarkedRootsRaise(extra: seq<ExtraData>, objs: seq<RootObject>, i: nat, j: nat)
    requires i < j < |objs| && objs[i].invMarkers != [] && objs[j].invMarkers != []
    ensures InventoryMarkers(extra, objs, "SKYRIM").raised
  {
    if i == 0 {
      if !HasInvMarker(extra) {
        var next := extra + [MarkerOf(objs[0])];
        assert next[|extra|].InvMarker?;
        MarkRootsWithMarkerRaises(next, objs[1..], j - 1);
      }
    } else if objs[0].invMarkers == [] {
      TwoMarkedRootsRaise(extra, objs[1..], i - 1, j - 1);
    } else {
      if !HasInvMarker(extra) {
        var next := extra + [MarkerOf(objs[0])];
        assert next[|extra|].InvMarker?;
        MarkRootsWithMarkerRaises(next, objs[1..], j - 1);
      }
    }
  }

  /**
   * Without an error, a marked root object was the only one, the root had
   * no marker before, and exactly its marker was appended.
   */
  lemma {:induction false} MarkRootsSucceeds(extra: seq<ExtraData>, objs: seq<RootObject>, j: nat)
    requires j < |objs| && objs[j].invMarkers != []
    requires !MarkRoots(extra, objs).raised
    ensures !HasInvMarker(extra)
    ensures MarkRoots(extra, objs).extra == extra + [MarkerOf(objs[j])]
    ensures forall k :: 0 <= k < |objs| && k != j ==> objs[k].invMarkers == []
  {
    if HasInvMarker(extra) {
      MarkRootsWithMarkerRaises(extra, objs, j);
    }
    forall k | 0 <= k < |objs| && k != j
      ensures objs[k].invMarkers == []
    {
      if objs[k].invMarkers != [] {
        if k < j { TwoMarkedRootsRaise(extra, objs, k, j); } else { TwoMarkedRootsRaise(extra, objs, j, k); }
      }
    }
    MarkRootsUnmarked(extra, objs, j);
  }

  lemma {:induction false} MarkRootsUnmarked(extra: seq<ExtraData>, objs: seq<RootObject>, j: nat)
    requires j < |objs| && objs[j].invMarkers != [] && !HasInvMarker(extra)
    requires forall k :: 0 <= k < |objs| && k != j ==> objs[k].invMarkers == []
    ensures MarkRoots(extra, objs).extra == extra + [MarkerOf(objs[j])]
  {
    if j == 0 {
      MarkRootsNoMarked(extra + [MarkerOf(objs[0])], objs[1..]);
    } else {
      MarkRootsUnmarked(extra, objs[1..], j - 1);
    }
  }

  lemma {:induction false} MarkRootsNoMarked(extra: seq<ExtraData>, objs: seq<RootObject>)
    requires forall k :: 0 <= k < |objs| ==> objs[k].invMarkers == []
    ensures MarkRoots(extra, objs) == MarkerRun(extra, false)
  {
    if objs != [] {
      MarkRootsNoMarked(extra, objs[1..]);
    }
  }

  // ---------------------------------------------------------------------
  // The block store and the exporters
  // ---------------------------------------------------------------------

  class BlockStore {
    /** block_to_obj, in insertion order */
    var blocks: seq<Block>
    /** The attributes create_block gives a new block of each type. */
    const defaultsOf: string -> map<string, int>

    constructor(defaults: string -> map<string, int>)
      ensures blocks == [] && defaultsOf == defaults
    {
      blocks := [];
      defaultsOf := defaults;
    }

    /** create_block, as assumed: a new block of the type, with its default attributes. */
    method CreateBlock(blockType: string) returns (i: nat)
      modifies this
      ensures blocks == old(blocks) + [NewBlock(blockType, defaultsOf(blockType))]
      ensures i == |old(blocks)|
    {
      blocks := blocks + [NewBlock(blockType, defaultsOf(blockType))];
      i := |blocks| - 1;
    }

    /** Whether block `b` meets every constrained keyword argument: the inner loop. */
    static method CheckKwargs(b: Block, kwargs: seq<Kwarg>) returns (ok: bool)
      ensures ok == Satisfies(b, kwargs)
    {
      ok := true;
      for k := 0 to |kwargs|
        invariant ok == Satisfies(b, kwargs[..k])
      {
        assert forall m :: 0 <= m < k ==> kwargs[..k + 1][m] == kwargs[..k][m];
        var param, attribute := kwargs[k].param, kwargs[k].attribute;
        if attribute.Some? {
          if param !in b.attrs || b.attrs[param] != attribute.value {
            ok := false;
            assert !Satisfies(b, kwargs);
            return;
          }
        }
      }
      assert kwargs[..|kwargs|] == kwargs;
    }

    method GetMatchingBlock(blockType: string, kwargs: seq<Kwarg>) returns (i: nat)
      requires DistinctParams(kwargs)
      modifies this
      ensures (blocks, i) == GetOrCreate(old(blocks), defaultsOf(blockType), blockType, kwargs)
    {
      for j := 0 to |blocks|
        invariant blocks == old(blocks)
        invariant FirstMatchFrom(blocks, blockType, kwargs, 0) == FirstMatchFrom(blocks, blockType, kwargs, j)
      {
        if Find(blocks[j].typeName, blockType) >= 0 {
          var ok := CheckKwargs(blocks[j], kwargs);
          if ok {
            return j;
          }
        }
      }
      ghost var before := blocks;
      i := CreateBlock(blockType);
      for k := 0 to |kwargs|
        invariant blocks == before + [NewBlock(blockType, Apply(defaultsOf(blockType), kwargs[..k]))]
      {
        assert kwargs[..k + 1][..k] == kwargs[..k];
        if kwargs[k].attribute.Some? {
          var b := blocks[i];
          blocks := blocks[i := b.(attrs := b.attrs[kwargs[k].param := kwargs[k].attribute.value])];
        }
      }
      assert kwargs[..|kwargs|] == kwargs;
    }

    /** A new vertex colour property, attached to `parent`, with exactly these fields set. */
    method ExportVertexColorProperty(parent: nat, flags: int := 1, vertexMode: int := 0, lightingMode: int := 1)
      returns (i: nat)
      requires parent < |blocks|
      modifies this
      ensures i == |old(blocks)| && |blocks| == i + 1
      ensures blocks[..i] == old(blocks)[parent := old(blocks)[parent].(properties := old(blocks)[parent].properties + [i])]
      ensures blocks[i] == NewBlock("NiVertexColorProperty",
                defaultsOf("NiVertexColorProperty")["flags" := flags]["vertex_mode" := vertexMode]["lighting_mode" := lightingMode])
    {
      i := CreateBlock("NiVertexColorProperty");
      blocks := blocks[parent := blocks[parent].(properties := blocks[parent].properties + [i])];
      var p := blocks[i];
      blocks := blocks[i := p.(attrs := p.attrs["flags" := flags]["vertex_mode" := vertexMode]["lighting_mode" := lightingMode])];
    }

    /** A new z-buffer property, attached to `parent`, with exactly these fields set. */
    method ExportZBufferProperty(parent: nat, flags: int := 15, func: int := 3) returns (i: nat)
      requires parent < |blocks|
      modifies this
      ensures i == |old(blocks)| && |blocks| == i + 1
      ensures blocks[..i] == old(blocks)[parent := old(blocks)[parent].(properties := old(blocks)[parent].properties + [i])]
      ensures blocks[i] == NewBlock("NiZBufferProperty", defaultsOf("NiZBufferProperty")["flags" := flags]["function" := func])
    {
      i := CreateBlock("NiZBufferProperty");
      blocks := blocks[parent := blocks[parent].(properties := blocks[parent].properties + [i])];
      var z := blocks[i];
      blocks := blocks[i := z.(attrs := z.attrs["flags" := flags]["function" := func])];
    }

    method ExportAlphaProperty(alphaflag: int, scaledThreshold: int, game: string) returns (i: nat)
      modifies this
      ensures var (flags, threshold) := AlphaRequest(alphaflag, scaledThreshold, game);
              (blocks, i) == GetOrCreate(old(blocks), defaultsOf("NiAlphaProperty"), "NiAlphaProperty",
                                         [Kwarg("flags", Some(flags)), Kwarg("threshold", Some(threshold))])
    {
      var flags, threshold;
      if alphaflag != 0 {
        flags, threshold := alphaflag, scaledThreshold;
      } else if game == "SID_MEIER_S_RAILROADS" {
        flags, threshold := 0x32ED, 150;
      } else if game == "EMPIRE_EARTH_II" {
        flags, threshold := 0x00ED, 0;
      } else {
        flags, threshold := 0x12ED, 0;
      }
      i := GetMatchingBlock("NiAlphaProperty", [Kwarg("flags", Some(flags)), Kwarg("threshold", Some(threshold))]);
    }

    method ExportSpecularProperty(flags: int := 0x0001) returns (i: nat)
      modifies this
      ensures (blocks, i) == GetOrCreate(old(blocks), defaultsOf("NiSpecularProperty"), "NiSpecularProperty",
                                         [Kwarg("flags", Some(flags))])
    {
      i := GetMatchingBlock("NiSpecularProperty", [Kwarg("flags", Some(flags))]);
    }

    method ExportWireframeProperty(flags: int := 0x0001) returns (i: nat)
      modifies this
      ensures (blocks, i) == GetOrCreate(old(blocks), defaultsOf("NiWireframeProperty"), "NiWireframeProperty",
                                         [Kwarg("flags", Some(flags))])
    {
      i := GetMatchingBlock("NiWireframeProperty", [Kwarg("flags", Some(flags))]);
    }

    method ExportStencilProperty(game: string, flags: Option<int> := None) returns (i: nat)
      modifies this
      ensures (blocks, i) == GetOrCreate(old(blocks), defaultsOf("NiStencilProperty"), "NiStencilProperty",
                                         [Kwarg("flags", StencilRequest(flags, game))])
    {
      var f := flags;
      if game == "FALLOUT_3" {
        f := Some(19840);
      }
      i := GetMatchingBlock("NiStencilProperty", [Kwarg("flags", f)]);
    }

    /**
     * export_inventory_marker: for Skyrim, each root object with marker
     * data appends a BSInvMarker to the root's extra data, unless the root
     * already holds one, which raises NifError (`raised`).
     */
    method ExportInventoryMarker(root: nat, rootObjects: seq<RootObject>, game: string) returns (raised: bool)
      requires root < |blocks|
      modifies this
      ensures var run := InventoryMarkers(old(blocks)[root].extraData, rootObjects, game);
              && raised == run.raised
              && blocks == old(blocks)[root := old(blocks)[root].(extraData := run.extra)]
    {
      raised := false;
      if game != "SKYRIM" {
        return;
      }
      for k := 0 to |rootObjects|
        invariant root < |blocks|
        invariant blocks == old(blocks)[root := old(blocks)[root].(extraData := blocks[root].extraData)]
        invariant MarkRoots(old(blocks)[root].extraData, rootObjects) == MarkRoots(blocks[root].extraData, rootObjects[k..])
      {
        assert rootObjects[k..][1..] == rootObjects[k + 1..];
        var obj := rootObjects[k];
        if obj.invMarkers != [] {
          var extra := blocks[root].extraData;
          for e := 0 to |extra|
            invariant forall m :: 0 <= m < e ==> !extra[m].InvMarker?
          {
            if extra[e].InvMarker? {
              raised := true;
              return;
            }
          }
          var m := obj.invMarkers[0];
          var marker := InvMarker(m.name, m.x, m.y, m.z, m.zoom);
          blocks := blocks[root := blocks[root].(extraData := extra + [marker])];
        }
      }
    }
  }
}
