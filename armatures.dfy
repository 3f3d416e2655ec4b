/**
 * Armature and bone marking of the NIF importer (`mark_armatures_bones`
 * and `complete_bone_tree` in nif_import.py).
 *
 * A pre-order scan of the block tree finds every NiTriShape / NiTriStrips
 * block with a skin instance. The skin instance's skeleton root becomes an
 * armature unless it is already a bone; every bone of the skin data becomes
 * a bone of that armature, a bone previously taken for an armature is
 * demoted, and the ancestors of each bone up to the armature are marked as
 * bones too. Nodes are identified by their names, as the importer's
 * dictionaries are keyed by names.
 *
 * The pure functions below state what one scan computes; the class
 * `ArmatureMarker` is the imperative version over the three dictionaries,
 * proved to compute exactly the same.
 */
module Armatures {
  import opened Wrappers

  type Name = string

  /** A NiSkinInstance: its skeleton root and the bones its skin data lists. */
  datatype SkinInstance = SkinInstance(skelRoot: Name, bones: seq<Name>)

  /** A block of the NIF tree, as far as the scan looks at it. */
  datatype NifBlock = NifBlock(
    blockType: string,
    name: Name,
    children: seq<NifBlock>,
    skinInstance: Option<SkinInstance>)

  /**
   * The node hierarchy: `parent[n]` is the name of the parent of node `n`
   * (a node without an entry has a null parent). `level` gives every node
   * with a parent a depth greater than its parent's, so that following
   * parents always ends: the node graph is a forest.
   */
  datatype Scene = Scene(parent: map<Name, Name>, level: map<Name, nat>) {
    predicate WellFormed() {
      forall n :: n in parent ==> n in level && parent[n] in level && level[parent[n]] < level[n]
    }

    function Rank(n: Name): nat {
      if n in level then level[n] + 1 else 0
    }
  }

  /** The errors the scan raises. */
  datatype ImportError =
    | MultipleArmatures(bone: Name, armature: Name, other: Name)
      // "bone ... belongs to more than one armature"
    | ArmatureIsBone(bone: Name)
      // "armature ... is also a bone"; the message names the child bone
    | AssertionFailed
      // one of the debug asserts of complete_bone_tree

  /**
   * The names in ARMATURE_BLOCKS, and BONE_ARMATURE_NAMES. BONE_BLOCKS
   * always has the same keys as BONE_ARMATURE_NAMES (both are written
   * together and nothing is deleted from them), so the keys of
   * `boneArmature` are the bones.
   */
  datatype Marking = Marking(armatures: set<Name>, boneArmature: map<Name, Name>)

  /** The marking when the scan ends, and the error it raised, if any. */
  datatype Run = Run(marking: Marking, failure: Option<ImportError>) {
    predicate Ok() {
      failure.None?
    }
  }

  // =====================================================================
  // The scan, as functions
  // =====================================================================

  function AddBone(m: Marking, bone: Name, armature: Name): Marking {
    m.(boneArmature := m.boneArmature[bone := armature])
  }

  /** complete_bone_tree(bone, skel) */
  function CompleteTree(m: Marking, scene: Scene, bone: Name, skel: Name): Run
    requires scene.WellFormed()
    decreases scene.Rank(bone)
  {
    if bone !in m.boneArmature || m.boneArmature[bone] != skel then Run(m, Some(AssertionFailed))
    else if bone !in scene.parent then Run(m, Some(AssertionFailed))
    else
      var p := scene.parent[bone];
      if p == skel then Run(m, None)
      else if p in m.armatures then Run(m, Some(ArmatureIsBone(bone)))
      else
        var m' := if p in m.boneArmature then m else AddBone(m, p, skel);
        CompleteTree(m', scene, p, skel)
  }

  /** The armature `wrong` was not one: its bones go to `skel`. */
  function Demote(m: Marking, wrong: Name, skel: Name): Marking {
    Marking(
      m.armatures - {wrong},
      map n | n in m.boneArmature :: if m.boneArmature[n] == wrong then skel else m.boneArmature[n])
  }

  /** One iteration of the loop over the bones of a skin instance. */
  function MarkBone(m: Marking, scene: Scene, bone: Name, skel: Name): Run
    requires scene.WellFormed()
  {
    if bone in m.boneArmature && m.boneArmature[bone] != skel then
      Run(m, Some(MultipleArmatures(bone, skel, m.boneArmature[bone])))
    else
      var m1 := if bone in m.boneArmature then m else AddBone(m, bone, skel);
      var m2 := if bone in m1.armatures then Demote(m1, bone, skel) else m1;
      CompleteTree(m2, scene, bone, skel)
  }

  function MarkBones(m: Marking, scene: Scene, bones: seq<Name>, skel: Name): Run
    requires scene.WellFormed()
    decreases |bones|
  {
    if bones == [] then Run(m, None)
    else
      var r := MarkBone(m, scene, bones[0], skel);
      if !r.Ok() then r else MarkBones(r.marking, scene, bones[1..], skel)
  }

  /** The name the bones of a skin instance with this skeleton root belong to. */
  function EffectiveArmature(m: Marking, skelRoot: Name): Name {
    if skelRoot in m.boneArmature then m.boneArmature[skelRoot] else skelRoot
  }

  function RecordSkeletonRoot(m: Marking, skelRoot: Name): Marking {
    if skelRoot in m.boneArmature then m else m.(armatures := m.armatures + {skelRoot})
  }

  /** The work done for one skin instance. */
  function MarkSkin(m: Marking, scene: Scene, skin: SkinInstance): Run
    requires scene.WellFormed()
  {
    MarkBones(RecordSkeletonRoot(m, skin.skelRoot), scene, skin.bones, EffectiveArmature(m, skin.skelRoot))
  }

  predicate IsGeometry(block: NifBlock) {
    block.blockType == "NiTriShape" || block.blockType == "NiTriStrips"
  }

  /** mark_armatures_bones(block) */
  function MarkBlock(m: Marking, scene: Scene, block: NifBlock): Run
    requires scene.WellFormed()
    decreases block, |block.children| + 1
  {
    if IsGeometry(block) then
      if block.skinInstance.Some? then MarkSkin(m, scene, block.skinInstance.value) else Run(m, None)
    else if block.blockType == "NiNode" then MarkChildren(m, scene, block, 0)
    else Run(m, None)
  }

  function MarkChildren(m: Marking, scene: Scene, block: NifBlock, i: nat): Run
    requires scene.WellFormed()
    requires i <= |block.children|
    decreases block, |block.children| - i
  {
    if i == |block.children| then Run(m, None)
    else
      var r := MarkBlock(m, scene, block.children[i]);
      if !r.Ok() then r else MarkChildren(r.marking, scene, block, i + 1)
  }

  // =====================================================================
  // Reference definitions
  // =====================================================================

  /**
   * The skin instances the scan meets, in order: those of NiTriShape and
   * NiTriStrips blocks, reached through NiNode children only.
   */
  function Skins(block: NifBlock): seq<SkinInstance>
    decreases block, |block.children| + 1
  {
    if IsGeometry(block) then
      if block.skinInstance.Some? then [block.skinInstance.value] else []
    else if block.blockType == "NiNode" then SkinsOfChildren(block, 0)
    else []
  }

  function SkinsOfChildren(block: NifBlock, i: nat): seq<SkinInstance>
    requires i <= |block.children|
    decreases block, |block.children| - i
  {
    if i == |block.children| then [] else Skins(block.children[i]) + SkinsOfChildren(block, i + 1)
  }

  /** The skin instances processed one after the other, stopping at the first error. */
  function MarkSkins(m: Marking, scene: Scene, skins: seq<SkinInstance>): Run
    requires scene.WellFormed()
    decreases |skins|
  {
    if skins == [] then Run(m, None)
    else
      var r := MarkSkin(m, scene, skins[0]);
      if !r.Ok() then r else MarkSkins(r.marking, scene, skins[1..])
  }

  datatype Ancestry = Ancestry(path: seq<Name>, reached: bool)

  /**
   * The ancestors of `n`, nearest first, up to but excluding the first one
   * named `a`; `reached` tells whether there is such an ancestor (otherwise
   * `path` runs up to a node without a parent).
   */
  function Ancestors(scene: Scene, n: Name, a: Name): (r: Ancestry)
    requires scene.WellFormed()
    ensures forall k :: 0 <= k < |r.path| ==> r.path[k] != a && scene.Rank(r.path[k]) < scene.Rank(n)
    ensures forall k :: 0 <= k < |r.path| - 1 ==>
      r.path[k] in scene.parent && scene.parent[r.path[k]] == r.path[k + 1]
    ensures r.path != [] ==> n in scene.parent && scene.parent[n] == r.path[0]
    ensures r.reached ==> n in scene.parent && scene.Rank(a) < scene.Rank(n)
    ensures r.reached && r.path == [] ==> scene.parent[n] == a
    ensures r.reached && r.path != [] ==>
      r.path[|r.path| - 1] in scene.parent && scene.parent[r.path[|r.path| - 1]] == a
    decreases scene.Rank(n)
  {
    if n !in scene.parent then Ancestry([], false)
    else
      var p := scene.parent[n];
      if p == a then Ancestry([], true)
      else
        var up := Ancestors(scene, p, a);
        Ancestry([p] + up.path, up.reached)
  }

  /** No ancestor on the path is an armature or a bone of another armature. */
  predicate PathAdmissible(m: Marking, path: seq<Name>, skel: Name) {
    forall k :: 0 <= k < |path| ==>
      path[k] !in m.armatures && (path[k] in m.boneArmature ==> m.boneArmature[path[k]] == skel)
  }

  function MarkPath(m: Marking, path: seq<Name>, skel: Name): Marking {
    Marking(m.armatures, m.boneArmature + map p | p in path :: skel)
  }

  // =====================================================================
  // complete_bone_tree
  // =====================================================================

  /** One step up: the path from `bone` is its parent followed by the path from the parent. */
  lemma AncestorsStep(scene: Scene, bone: Name, skel: Name)
    requires scene.WellFormed()
    requires bone in scene.parent && scene.parent[bone] != skel
    ensures var p := scene.parent[bone];
            var up := Ancestors(scene, p, skel);
            && Ancestors(scene, bone, skel) == Ancestry([p] + up.path, up.reached)
            && p !in up.path
  {
    var p := scene.parent[bone];
    var up := Ancestors(scene, p, skel);
    forall k | 0 <= k < |up.path| ensures up.path[k] != p {
      assert scene.Rank(up.path[k]) < scene.Rank(p);
    }
  }

  lemma AdmissibleCons(m: Marking, p: Name, path: seq<Name>, skel: Name)
    ensures PathAdmissible(m, [p] + path, skel) <==>
            && p !in m.armatures && (p in m.boneArmature ==> m.boneArmature[p] == skel)
            && PathAdmissible(m, path, skel)
  {
    var full := [p] + path;
    assert full[0] == p;
    if PathAdmissible(m, full, skel) {
      forall k | 0 <= k < |path|
        ensures path[k] !in m.armatures && (path[k] in m.boneArmature ==> m.boneArmature[path[k]] == skel)
      {
        assert path[k] == full[k + 1];
      }
    }
    if p !in m.armatures && (p in m.boneArmature ==> m.boneArmature[p] == skel) && PathAdmissible(m, path, skel) {
      forall k | 0 <= k < |full|
        ensures full[k] !in m.armatures && (full[k] in m.boneArmature ==> m.boneArmature[full[k]] == skel)
      {
        if k > 0 { assert full[k] == path[k - 1]; }
      }
    }
  }

  lemma MarkPathCons(m: Marking, p: Name, path: seq<Name>, skel: Name)
    ensures var m' := if p in m.boneArmature then m else AddBone(m, p, skel);
            (p in m.boneArmature ==> m.boneArmature[p] == skel) ==>
            MarkPath(m', path, skel) == MarkPath(m, [p] + path, skel)
  {
  }

  /** Marking a name that is not on the path does not change whether the path is admissible. */
  lemma AdmissibleFrame(m: Marking, p: Name, path: seq<Name>, skel: Name)
    requires p !in path
    ensures PathAdmissible(AddBone(m, p, skel), path, skel) <==> PathAdmissible(m, path, skel)
  {
    var m' := AddBone(m, p, skel);
    forall k | 0 <= k < |path|
      ensures path[k] in m'.boneArmature <==> path[k] in m.boneArmature
      ensures path[k] in m.boneArmature ==> m'.boneArmature[path[k]] == m.boneArmature[path[k]]
    {
      assert path[k] != p;
    }
  }

  /**
   * complete_bone_tree succeeds exactly when the bone is a bone of `skel`,
   * some ancestor is named `skel`, and no ancestor below it is an armature
   * or a bone of another armature; it then marks every ancestor below that
   * one as a bone of `skel`, and changes nothing else.
   */
  lemma {:induction false} CompleteTreeExact(m: Marking, scene: Scene, bone: Name, skel: Name)
    requires scene.WellFormed()
    ensures var anc := Ancestors(scene, bone, skel);
            var r := CompleteTree(m, scene, bone, skel);
            && (r.Ok() <==>
                 bone in m.boneArmature && m.boneArmature[bone] == skel
                 && anc.reached && PathAdmissible(m, anc.path, skel))
            && (r.Ok() ==> r.marking == MarkPath(m, anc.path, skel))
    decreases scene.Rank(bone)
  {
    if bone in m.boneArmature && m.boneArmature[bone] == skel && bone in scene.parent {
      var p := scene.parent[bone];
      if p == skel {
        assert MarkPath(m, [], skel) == m;
      } else {
        var up := Ancestors(scene, p, skel);
        AncestorsStep(scene, bone, skel);
        AdmissibleCons(m, p, up.path, skel);
        if p !in m.armatures {
          var m' := if p in m.boneArmature then m else AddBone(m, p, skel);
          CompleteTreeExact(m', scene, p, skel);
          AdmissibleFrame(m, p, up.path, skel);
          MarkPathCons(m, p, up.path, skel);
        }
      }
    }
  }

  /**
   * The walk does not stop at an ancestor that is already a bone of the
   * same armature: it goes on from there.
   */
  lemma WalkContinuesThroughBones(m: Marking, scene: Scene, bone: Name, skel: Name)
    requires scene.WellFormed()
    requires bone in m.boneArmature && m.boneArmature[bone] == skel && bone in scene.parent
    requires scene.parent[bone] != skel && scene.parent[bone] !in m.armatures
    requires scene.parent[bone] in m.boneArmature
    ensures CompleteTree(m, scene, bone, skel) == CompleteTree(m, scene, scene.parent[bone], skel)
  {
  }

  /** Whatever the outcome, the walk only adds bones of `skel` and leaves the armatures alone. */
  lemma {:induction false} CompleteTreeOnlyAdds(m: Marking, scene: Scene, bone: Name, skel: Name)
    requires scene.WellFormed()
    ensures var r := CompleteTree(m, scene, bone, skel).marking;
            && r.armatures == m.armatures
            && (forall q :: q in m.boneArmature ==> q in r.boneArmature && r.boneArmature[q] == m.boneArmature[q])
            && (forall q :: q in r.boneArmature && q !in m.boneArmature ==> r.boneArmature[q] == skel)
    decreases scene.Rank(bone)
  {
    if bone in m.boneArmature && m.boneArmature[bone] == skel && bone in scene.parent {
      var p := scene.parent[bone];
      if p != skel && p !in m.armatures {
        var m' := if p in m.boneArmature then m else AddBone(m, p, skel);
        CompleteTreeOnlyAdds(m', scene, p, skel);
      }
    }
  }

  // =====================================================================
  // One bone, one skin instance
  // =====================================================================

  /**
   * A bone already assigned to another armature raises, before any
   * demotion and without changing anything.
   */
  lemma ConflictingBoneRaises(m: Marking, scene: Scene, bone: Name, skel: Name)
    requires scene.WellFormed()
    requires bone in m.boneArmature && m.boneArmature[bone] != skel
    ensures MarkBone(m, scene, bone, skel) == Run(m, Some(MultipleArmatures(bone, skel, m.boneArmature[bone])))
  {
  }

  /**
   * Without a conflict, the bone ends up a bone of `skel`. If it had been
   * taken for an armature, it no longer is one and every bone of it now
   * belongs to `skel`; otherwise the existing entries stay as they were.
   * Entries the call adds all name `skel`, and no armature is added.
   */
  lemma MarkBoneEffect(m: Marking, scene: Scene, bone: Name, skel: Name)
    requires scene.WellFormed()
    requires !(bone in m.boneArmature && m.boneArmature[bone] != skel)
    ensures var r := MarkBone(m, scene, bone, skel).marking;
            && bone in r.boneArmature && r.boneArmature[bone] == skel
            && r.armatures == m.armatures - {bone}
            && (bone in m.armatures ==>
                  forall n :: n in m.boneArmature ==>
                    (n in r.boneArmature &&
                     r.boneArmature[n] == if m.boneArmature[n] == bone then skel else m.boneArmature[n]))
            && (bone !in m.armatures ==>
                  forall n :: n in m.boneArmature ==> n in r.boneArmature && r.boneArmature[n] == m.boneArmature[n])
            && (forall n :: n in r.boneArmature && n !in m.boneArmature ==> r.boneArmature[n] == skel)
  {
    var m1 := if bone in m.boneArmature then m else AddBone(m, bone, skel);
    var m2 := if bone in m1.armatures then Demote(m1, bone, skel) else m1;
    CompleteTreeOnlyAdds(m2, scene, bone, skel);
  }

  /** A successful bone step keeps `skel` an armature (a bone cannot be its own armature). */
  lemma MarkBoneKeepsArmature(m: Marking, scene: Scene, bone: Name, skel: Name)
    requires scene.WellFormed()
    requires skel in m.armatures
    requires MarkBone(m, scene, bone, skel).Ok()
    ensures skel in MarkBone(m, scene, bone, skel).marking.armatures
  {
    var m1 := if bone in m.boneArmature then m else AddBone(m, bone, skel);
    var m2 := if bone in m1.armatures then Demote(m1, bone, skel) else m1;
    MarkBoneEffect(m, scene, bone, skel);
    if bone == skel {
      CompleteTreeExact(m2, scene, bone, skel);
      assert false;
    }
  }

  lemma {:induction false} MarkBonesAssigns(m: Marking, scene: Scene, bones: seq<Name>, skel: Name)
    requires scene.WellFormed()
    requires MarkBones(m, scene, bones, skel).Ok()
    ensures var r := MarkBones(m, scene, bones, skel).marking;
            && (forall k :: 0 <= k < |bones| ==> bones[k] in r.boneArmature && r.boneArmature[bones[k]] == skel)
            && (forall q :: q in m.boneArmature && m.boneArmature[q] == skel ==>
                  q in r.boneArmature && r.boneArmature[q] == skel)
            && r.armatures <= m.armatures
            && (skel in m.armatures ==> skel in r.armatures)
    decreases |bones|
  {
    if bones != [] {
      var r1 := MarkBone(m, scene, bones[0], skel);
      MarkBoneEffect(m, scene, bones[0], skel);
      if skel in m.armatures {
        MarkBoneKeepsArmature(m, scene, bones[0], skel);
      }
      MarkBonesAssigns(r1.marking, scene, bones[1..], skel);
      var r := MarkBones(m, scene, bones, skel).marking;
      forall k | 0 <= k < |bones| ensures bones[k] in r.boneArmature && r.boneArmature[bones[k]] == skel {
        if k > 0 { assert bones[k] == bones[1..][k - 1]; }
      }
    }
  }

  /**
   * A skeleton root that is not a bone is recorded as an armature and stays
   * one; a skeleton root that is already a bone records no armature. After
   * a successful skin instance every bone of its skin data is a bone of the
   * effective armature: the skeleton root, or the armature of the skeleton
   * root when that is a bone.
   */
  lemma SkinMarksBones(m: Marking, scene: Scene, skin: SkinInstance)
    requires scene.WellFormed()
    requires MarkSkin(m, scene, skin).Ok()
    ensures var r := MarkSkin(m, scene, skin).marking;
            && (skin.skelRoot !in m.boneArmature ==>
                  skin.skelRoot in r.armatures && r.armatures <= m.armatures + {skin.skelRoot})
            && (skin.skelRoot in m.boneArmature ==> r.armatures <= m.armatures)
            && (forall k :: 0 <= k < |skin.bones| ==>
                  skin.bones[k] in r.boneArmature
                  && r.boneArmature[skin.bones[k]] == EffectiveArmature(m, skin.skelRoot))
  {
    MarkBonesAssigns(RecordSkeletonRoot(m, skin.skelRoot), scene, skin.bones, EffectiveArmature(m, skin.skelRoot));
  }

  // =====================================================================
  // The scan
  // =====================================================================

  lemma {:induction false} MarkSkinsAppend(m: Marking, scene: Scene, a: seq<SkinInstance>, b: seq<SkinInstance>)
    requires scene.WellFormed()
    ensures MarkSkins(m, scene, a + b) ==
            var r := MarkSkins(m, scene, a);
            if !r.Ok() then r else MarkSkins(r.marking, scene, b)
    decreases |a|
  {
    if a == [] {
      assert a + b == b;
    } else {
      assert (a + b)[0] == a[0];
      assert (a + b)[1..] == a[1..] + b;
      var r := MarkSkin(m, scene, a[0]);
      if r.Ok() {
        MarkSkinsAppend(r.marking, scene, a[1..], b);
      }
    }
  }

  /**
   * The scan processes exactly the skin instances of skinned NiTriShape and
   * NiTriStrips blocks reachable through NiNode children, in pre-order.
   */
  lemma {:induction false} MarkBlockIsMarkSkins(m: Marking, scene: Scene, block: NifBlock)
    requires scene.WellFormed()
    ensures MarkBlock(m, scene, block) == MarkSkins(m, scene, Skins(block))
    decreases block, |block.children| + 1
  {
    if !IsGeometry(block) && block.blockType == "NiNode" {
      MarkChildrenIsMarkSkins(m, scene, block, 0);
    } else if IsGeometry(block) && block.skinInstance.Some? {
      var skin := block.skinInstance.value;
      assert Skins(block) == [skin];
      assert MarkSkins(m, scene, [skin]) == MarkSkin(m, scene, skin);
    }
  }

  lemma {:induction false} MarkChildrenIsMarkSkins(m: Marking, scene: Scene, block: NifBlock, i: nat)
    requires scene.WellFormed()
    requires i <= |block.children|
    ensures MarkChildren(m, scene, block, i) == MarkSkins(m, scene, SkinsOfChildren(block, i))
    decreases block, |block.children| - i
  {
    if i < |block.children| {
      var child := block.children[i];
      MarkBlockIsMarkSkins(m, scene, child);
      MarkSkinsAppend(m, scene, Skins(child), SkinsOfChildren(block, i + 1));
      var r := MarkBlock(m, scene, child);
      if r.Ok() {
        MarkChildrenIsMarkSkins(r.marking, scene, block, i + 1);
      }
    }
  }

  // =====================================================================
  // What a successful scan guarantees
  // =====================================================================

  /** No name is both an armature and a bone, and every bone's armature is an armature. */
  predicate Partitioned(m: Marking) {
    forall n :: n in m.boneArmature ==> n !in m.armatures && m.boneArmature[n] in m.armatures
  }

  /** The parent of bone `n` is its armature or a bone of the same armature. */
  predicate LinkOk(m: Marking, scene: Scene, n: Name)
    requires n in m.boneArmature
  {
    n in scene.parent &&
    (scene.parent[n] == m.boneArmature[n] ||
     (scene.parent[n] in m.boneArmature && m.boneArmature[scene.parent[n]] == m.boneArmature[n]))
  }

  predicate ConnectedExcept(m: Marking, scene: Scene, x: Option<Name>) {
    forall n :: n in m.boneArmature && Some(n) != x ==> LinkOk(m, scene, n)
  }

  predicate Connected(m: Marking, scene: Scene) {
    ConnectedExcept(m, scene, None)
  }

  /** On an admissible path, marking the path keeps every existing entry. */
  lemma MarkPathKeeps(m: Marking, path: seq<Name>, skel: Name)
    requires PathAdmissible(m, path, skel)
    ensures var r := MarkPath(m, path, skel);
            && (forall q :: q in m.boneArmature ==> q in r.boneArmature && r.boneArmature[q] == m.boneArmature[q])
            && (forall q :: q in r.boneArmature && q !in m.boneArmature ==>
                  r.boneArmature[q] == skel && q !in m.armatures && exists k :: 0 <= k < |path| && path[k] == q)
  {
    var r := MarkPath(m, path, skel);
    forall q | q in m.boneArmature ensures r.boneArmature[q] == m.boneArmature[q] {
      if q in path {
        var k :| 0 <= k < |path| && path[k] == q;
      }
    }
  }

  /** The links of the marked path: each ancestor's parent is the next one, the last one's is `skel`. */
  lemma MarkPathLinks(m: Marking, scene: Scene, x: Name, skel: Name)
    requires scene.WellFormed()
    requires x in m.boneArmature && m.boneArmature[x] == skel
    requires Ancestors(scene, x, skel).reached
    ensures var path := Ancestors(scene, x, skel).path;
            var r := MarkPath(m, path, skel);
            && LinkOk(r, scene, x)
            && forall k :: 0 <= k < |path| ==> LinkOk(r, scene, path[k])
  {
    var path := Ancestors(scene, x, skel).path;
    var r := MarkPath(m, path, skel);
    if path != [] {
      assert path[0] in path;
    }
    forall k | 0 <= k < |path| ensures LinkOk(r, scene, path[k]) {
      if k + 1 < |path| {
        assert path[k + 1] in path;
      }
    }
  }

  /** A successful walk from `x` repairs the one broken link, at `x`. */
  lemma WalkRestores(m: Marking, scene: Scene, x: Name, skel: Name)
    requires scene.WellFormed()
    requires Partitioned(m) && skel in m.armatures
    requires ConnectedExcept(m, scene, Some(x))
    requires CompleteTree(m, scene, x, skel).Ok()
    ensures var r := CompleteTree(m, scene, x, skel).marking;
            Partitioned(r) && Connected(r, scene) && r.armatures == m.armatures
  {
    CompleteTreeExact(m, scene, x, skel);
    var path := Ancestors(scene, x, skel).path;
    var r := MarkPath(m, path, skel);
    MarkPathKeeps(m, path, skel);
    MarkPathLinks(m, scene, x, skel);
    forall n | n in r.boneArmature ensures LinkOk(r, scene, n) {
      if n != x && n in m.boneArmature {
        assert LinkOk(m, scene, n);
      } else if n != x {
        var k :| 0 <= k < |path| && path[k] == n;
      }
    }
  }

  lemma MarkBonePreserves(m: Marking, scene: Scene, bone: Name, skel: Name)
    requires scene.WellFormed()
    requires Partitioned(m) && Connected(m, scene) && skel in m.armatures
    requires MarkBone(m, scene, bone, skel).Ok()
    ensures var r := MarkBone(m, scene, bone, skel).marking;
            Partitioned(r) && Connected(r, scene) && skel in r.armatures
  {
    MarkBoneKeepsArmature(m, scene, bone, skel);
    var m1 := if bone in m.boneArmature then m else AddBone(m, bone, skel);
    var m2 := if bone in m1.armatures then Demote(m1, bone, skel) else m1;
    assert bone != skel by {
      if bone == skel {
        CompleteTreeExact(m2, scene, bone, skel);
      }
    }
    assert ConnectedExcept(m1, scene, Some(bone)) by {
      forall n | n in m1.boneArmature && n != bone ensures LinkOk(m1, scene, n) {
        assert LinkOk(m, scene, n);
      }
    }
    if bone in m1.armatures {
      assert bone !in m.boneArmature;
      assert Partitioned(m2);
      forall n | n in m2.boneArmature && n != bone ensures LinkOk(m2, scene, n) {
        assert LinkOk(m1, scene, n);
        assert n in m.boneArmature;
        var p := scene.parent[n];
        if p != m1.boneArmature[n] {
          assert p in m.boneArmature;
        }
      }
    }
    WalkRestores(m2, scene, bone, skel);
  }

  lemma {:induction false} MarkBonesPreserves(m: Marking, scene: Scene, bones: seq<Name>, skel: Name)
    requires scene.WellFormed()
    requires Partitioned(m) && Connected(m, scene) && skel in m.armatures
    requires MarkBones(m, scene, bones, skel).Ok()
    ensures var r := MarkBones(m, scene, bones, skel).marking;
            Partitioned(r) && Connected(r, scene)
    decreases |bones|
  {
    if bones != [] {
      MarkBonePreserves(m, scene, bones[0], skel);
      MarkBonesPreserves(MarkBone(m, scene, bones[0], skel).marking, scene, bones[1..], skel);
    }
  }

  lemma {:induction false} MarkSkinsPreserves(m: Marking, scene: Scene, skins: seq<SkinInstance>)
    requires scene.WellFormed()
    requires Partitioned(m) && Connected(m, scene)
    requires MarkSkins(m, scene, skins).Ok()
    ensures var r := MarkSkins(m, scene, skins).marking;
            Partitioned(r) && Connected(r, scene)
    decreases |skins|
  {
    if skins != [] {
      var skin := skins[0];
      var m1 := RecordSkeletonRoot(m, skin.skelRoot);
      assert Connected(m1, scene) by {
        forall n | n in m1.boneArmature ensures LinkOk(m1, scene, n) {
          assert LinkOk(m, scene, n);
        }
      }
      MarkBonesPreserves(m1, scene, skin.bones, EffectiveArmature(m, skin.skelRoot));
      MarkSkinsPreserves(MarkSkin(m, scene, skin).marking, scene, skins[1..]);
    }
  }

  /**
   * A scan that succeeds keeps the classification a strict partition (no
   * name is both an armature and a bone, every bone belongs to an armature)
   * and keeps every bone linked to its armature through bones of the same
   * armature.
   */
  lemma ScanPreservesInvariants(m: Marking, scene: Scene, block: NifBlock)
    requires scene.WellFormed()
    requires Partitioned(m) && Connected(m, scene)
    requires MarkBlock(m, scene, block).Ok()
    ensures var r := MarkBlock(m, scene, block).marking;
            Partitioned(r) && Connected(r, scene)
  {
    MarkBlockIsMarkSkins(m, scene, block);
    MarkSkinsPreserves(m, scene, Skins(block));
  }

  /**
   * In a connected marking the ancestors of every bone lead to a node named
   * after its armature, through bones of that armature only.
   */
  lemma {:induction false} BoneReachesArmature(m: Marking, scene: Scene, n: Name)
    requires scene.WellFormed()
    requires Connected(m, scene)
    requires n in m.boneArmature
    ensures var anc := Ancestors(scene, n, m.boneArmature[n]);
            && anc.reached
            && forall k :: 0 <= k < |anc.path| ==>
                 anc.path[k] in m.boneArmature && m.boneArmature[anc.path[k]] == m.boneArmature[n]
    decreases scene.Rank(n)
  {
    assert LinkOk(m, scene, n);
    var a := m.boneArmature[n];
    var p := scene.parent[n];
    if p != a {
      BoneReachesArmature(m, scene, p);
      var anc := Ancestors(scene, n, a);
      var up := Ancestors(scene, p, a);
      assert anc.path == [p] + up.path;
      forall k | 0 <= k < |anc.path|
        ensures anc.path[k] in m.boneArmature && m.boneArmature[anc.path[k]] == a
      {
        if k > 0 { assert anc.path[k] == up.path[k - 1]; }
      }
    }
  }

  // =====================================================================
  // The importer's dictionaries, updated in place
  // =====================================================================

  /** ARMATURE_BLOCKS, BONE_BLOCKS and BONE_ARMATURE_NAMES. */
  class ArmatureMarker {
    var armatureBlocks: set<Name>
    var boneBlocks: set<Name>
    var boneArmatureNames: map<Name, Name>

    ghost predicate Valid()
      reads this
    {
      boneBlocks == boneArmatureNames.Keys
    }

    function Current(): Marking
      reads this
    {
      Marking(armatureBlocks, boneArmatureNames)
    }

    constructor ()
      ensures Valid()
      ensures armatureBlocks == {} && boneBlocks == {} && boneArmatureNames == map[]
    {
      armatureBlocks, boneBlocks, boneArmatureNames := {}, {}, map[];
    }

    method CompleteBoneTree(scene: Scene, boneName: Name, skelrootName: Name) returns (failure: Option<ImportError>)
      requires Valid() && scene.WellFormed()
      modifies this
      ensures Valid()
      ensures Run(Current(), failure) == CompleteTree(old(Current()), scene, boneName, skelrootName)
      decreases scene.Rank(boneName)
    {
      if boneName !in boneBlocks || boneArmatureNames[boneName] != skelrootName {
        return Some(AssertionFailed);
      }
      if boneName !in scene.parent {
        return Some(AssertionFailed);
      }
      var boneparentName := scene.parent[boneName];
      if boneparentName != skelrootName {
        if boneparentName in armatureBlocks {
          return Some(ArmatureIsBone(boneName));
        }
        if boneparentName !in boneBlocks {
          boneBlocks := boneBlocks + {boneparentName};
          boneArmatureNames := boneArmatureNames[boneparentName := skelrootName];
        }
        failure := CompleteBoneTree(scene, boneparentName, skelrootName);
      } else {
        failure := None;
      }
    }

    /** The bones of the armature `wrong` are given to `skelrootName`, and `wrong` stops being an armature. */
    method DemoteArmature(wrong: Name, skelrootName: Name)
      requires Valid()
      modifies this
      ensures Valid()
      ensures Current() == Demote(old(Current()), wrong, skelrootName)
    {
      ghost var m0 := Current();
      ghost var before := boneArmatureNames;
      var keys := boneArmatureNames.Keys;
      while keys != {}
        invariant Valid()
        invariant armatureBlocks == m0.armatures
        invariant keys <= before.Keys && boneArmatureNames.Keys == before.Keys
        invariant forall n :: n in before ==>
          boneArmatureNames[n] == if n !in keys && before[n] == wrong then skelrootName else before[n]
        decreases keys
      {
        var wrongedBoneName :| wrongedBoneName in keys;
        if boneArmatureNames[wrongedBoneName] == wrong {
          boneArmatureNames := boneArmatureNames[wrongedBoneName := skelrootName];
        }
        keys := keys - {wrongedBoneName};
      }
      armatureBlocks := armatureBlocks - {wrong};
      assert boneArmatureNames == Demote(m0, wrong, skelrootName).boneArmature;
    }

    method MarkArmaturesBones(scene: Scene, block: NifBlock) returns (failure: Option<ImportError>)
      requires Valid() && scene.WellFormed()
      modifies this
      ensures Valid()
      ensures Run(Current(), failure) == MarkBlock(old(Current()), scene, block)
      decreases block
    {
      if IsGeometry(block) {
        if block.skinInstance.None? {
          return None;
        }
        var skininst := block.skinInstance.value;
        ghost var m0 := Current();
        var skelrootName := skininst.skelRoot;
        if skelrootName !in boneBlocks {
          armatureBlocks := armatureBlocks + {skelrootName};
        } else {
          skelrootName := boneArmatureNames[skelrootName];
        }
        ghost var m1 := Current();
        assert m1 == RecordSkeletonRoot(m0, skininst.skelRoot);
        var bones := skininst.bones;
        for i := 0 to |bones|
          invariant Valid()
          invariant MarkBones(m1, scene, bones, skelrootName) == MarkBones(Current(), scene, bones[i..], skelrootName)
        {
          assert bones[i..][1..] == bones[i + 1..];
          var boneName := bones[i];
          if boneName !in boneBlocks {
            boneBlocks := boneBlocks + {boneName};
            boneArmatureNames := boneArmatureNames[boneName := skelrootName];
          } else if boneArmatureNames[boneName] != skelrootName {
            return Some(MultipleArmatures(boneName, skelrootName, boneArmatureNames[boneName]));
          }
          if boneName in armatureBlocks {
            DemoteArmature(boneName, skelrootName);
          }
          var f := CompleteBoneTree(scene, boneName, skelrootName);
          if f.Some? {
            return f;
          }
        }
        return None;
      } else if block.blockType == "NiNode" {
        ghost var m0 := Current();
        var children := block.children;
        for i := 0 to |children|
          invariant Valid()
          invariant MarkChildren(m0, scene, block, 0) == MarkChildren(Current(), scene, block, i)
        {
          var f := MarkArmaturesBones(scene, children[i]);
          if f.Some? {
            return f;
          }
        }
        return None;
      }
      return None;
    }
  }
}
