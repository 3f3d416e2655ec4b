/**
 * The index maps `fb_mesh` builds while copying NIF geometry into a
 * Blender mesh.
 *
 * `v_map` sends every NIF vertex to a Blender vertex; NIF vertices with the
 * same key (the quantised position, and normal when there are normals)
 * share one Blender vertex. `f_map` sends every NIF triangle to the
 * Blender face made from it, or to None when the triangle is degenerate or
 * Blender refuses it as a duplicate.
 */
module MeshMaps {
  import opened Wrappers

  function Elems<T>(s: seq<T>): set<T> {
    set x | x in s
  }

  // ---------------------------------------------------------------------
  // Vertices
  // ---------------------------------------------------------------------

  // A key is the integer tuple that identifies a vertex / normal pair; only
  // its equality matters, so keys are of any type with equality.

  /** No NIF vertex before `j` has the key of `j`. */
  ghost predicate FirstOccurrence<K>(keys: seq<K>, j: nat)
    requires j < |keys|
  {
    forall k :: 0 <= k < j ==> keys[k] != keys[j]
  }

  /**
   * The state of the vertex loop after `i` NIF vertices: `nMap` holds the
   * keys seen so far with the NIF vertex that first had them, `firsts`
   * the NIF vertex of every Blender vertex added so far, in order.
   */
  ghost predicate VertexLoopInv<K>(keys: seq<K>, i: nat, nMap: map<K, nat>, v: seq<nat>, firsts: seq<nat>) {
    && i <= |keys| && |v| == |keys|
    && |firsts| == |nMap.Keys|
    && (forall k :: k in nMap ==> nMap[k] < i && keys[nMap[k]] == k)
    && (forall b :: 0 <= b < |firsts| ==>
          firsts[b] < i && v[firsts[b]] == b && FirstOccurrence(keys, firsts[b]))
    && (forall b, c :: 0 <= b < c < |firsts| ==> firsts[b] < firsts[c])
    && (forall j {:trigger v[j]} :: 0 <= j < i ==> keys[j] in nMap && v[j] < |firsts| && firsts[v[j]] == nMap[keys[j]])
  }

  lemma VertexLoopNewKey<K>(keys: seq<K>, i: nat, nMap: map<K, nat>, v: seq<nat>, firsts: seq<nat>)
    requires VertexLoopInv(keys, i, nMap, v, firsts)
    requires i < |keys| && keys[i] !in nMap
    ensures VertexLoopInv(keys, i + 1, nMap[keys[i] := i], v[i := |firsts|], firsts + [i])
  {
    var nMap', v', firsts' := nMap[keys[i] := i], v[i := |firsts|], firsts + [i];
    NewKeyFirsts(keys, i, nMap, v, firsts);
    NewKeyIndex(keys, i, nMap, v, firsts);
    assert |firsts'| == |nMap'.Keys|;
    assert forall k :: k in nMap' ==> nMap'[k] < i + 1 && keys[nMap'[k]] == k;
    assert forall b, c :: 0 <= b < c < |firsts'| ==> firsts'[b] < firsts'[c];
  }

  lemma NewKeyFirsts<K>(keys: seq<K>, i: nat, nMap: map<K, nat>, v: seq<nat>, firsts: seq<nat>)
    requires VertexLoopInv(keys, i, nMap, v, firsts)
    requires i < |keys| && keys[i] !in nMap
    ensures var v', firsts' := v[i := |firsts|], firsts + [i];
            forall b :: 0 <= b < |firsts'| ==>
              firsts'[b] < i + 1 && v'[firsts'[b]] == b && FirstOccurrence(keys, firsts'[b])
  {
    var v', firsts' := v[i := |firsts|], firsts + [i];
    forall j | 0 <= j < i ensures keys[j] != keys[i] {
      assert v[j] < |firsts|;
    }
    assert FirstOccurrence(keys, i);
    forall b | 0 <= b < |firsts'|
      ensures firsts'[b] < i + 1 && v'[firsts'[b]] == b && FirstOccurrence(keys, firsts'[b])
    {
      if b < |firsts| {
        assert firsts'[b] == firsts[b] < i;
      }
    }
  }

  lemma NewKeyIndex<K>(keys: seq<K>, i: nat, nMap: map<K, nat>, v: seq<nat>, firsts: seq<nat>)
    requires VertexLoopInv(keys, i, nMap, v, firsts)
    requires i < |keys| && keys[i] !in nMap
    ensures var nMap', v', firsts' := nMap[keys[i] := i], v[i := |firsts|], firsts + [i];
            forall j {:trigger v'[j]} :: 0 <= j < i + 1 ==>
              keys[j] in nMap' && v'[j] < |firsts'| && firsts'[v'[j]] == nMap'[keys[j]]
  {
    var nMap', v', firsts' := nMap[keys[i] := i], v[i := |firsts|], firsts + [i];
    forall j | 0 <= j < i + 1
      ensures keys[j] in nMap' && v'[j] < |firsts'| && firsts'[v'[j]] == nMap'[keys[j]]
    {
      if j < i {
        assert v[j] < |firsts|;
        assert keys[j] != keys[i];
      }
    }
  }

  lemma VertexLoopOldKey<K>(keys: seq<K>, i: nat, nMap: map<K, nat>, v: seq<nat>, firsts: seq<nat>)
    requires VertexLoopInv(keys, i, nMap, v, firsts)
    requires i < |keys| && keys[i] in nMap
    ensures VertexLoopInv(keys, i + 1, nMap, v[i := v[nMap[keys[i]]]], firsts)
  {
    var v' := v[i := v[nMap[keys[i]]]];
    var p := nMap[keys[i]];
    assert p < i && keys[p] == keys[i];
    forall b | 0 <= b < |firsts|
      ensures firsts[b] < i + 1 && v'[firsts[b]] == b && FirstOccurrence(keys, firsts[b])
    {
      assert firsts[b] < i;
    }
    forall j | 0 <= j < i + 1
      ensures keys[j] in nMap && v'[j] < |firsts| && firsts[v'[j]] == nMap[keys[j]]
    {
      if j == i {
        assert v'[j] == v[p];
      } else {
        assert v'[j] == v[j];
      }
    }
  }

  /**
   * The vertex map. `vMap[i]` is the Blender vertex of NIF vertex `i`;
   * `firsts` lists, per Blender vertex, the NIF vertex it was made from, so
   * `|firsts|` is the number of Blender vertices. Equal keys share a
   * Blender vertex and different keys do not; the Blender vertices are
   * made from the first occurrences of the keys, numbered 0, 1, 2, ... in
   * order of occurrence; there are as many as there are distinct keys.
   */
  method VertexMap<K(==)>(keys: seq<K>) returns (vMap: seq<nat>, firsts: seq<nat>)
    ensures |vMap| == |keys|
    ensures forall i, j :: 0 <= i < |keys| && 0 <= j < |keys| ==> (vMap[i] == vMap[j] <==> keys[i] == keys[j])
    ensures |firsts| == |Elems(keys)|
    ensures forall b :: 0 <= b < |firsts| ==>
      firsts[b] < |keys| && vMap[firsts[b]] == b && FirstOccurrence(keys, firsts[b])
    ensures forall i :: 0 <= i < |keys| ==> vMap[i] < |firsts| && keys[firsts[vMap[i]]] == keys[i]
    ensures forall b, c :: 0 <= b < c < |firsts| ==> firsts[b] < firsts[c]
    ensures forall i :: 0 <= i < |keys| && FirstOccurrence(keys, i) ==> firsts[vMap[i]] == i
  {
    var nMap: map<K, nat> := map[];
    vMap := seq(|keys|, _ => 0);
    var bVIndex := 0;
    firsts := [];
    for i := 0 to |keys|
      invariant VertexLoopInv(keys, i, nMap, vMap, firsts)
      invariant bVIndex == |firsts|
    {
      var k := keys[i];
      if k !in nMap {
        VertexLoopNewKey(keys, i, nMap, vMap, firsts);
        nMap := nMap[k := i];
        vMap := vMap[i := bVIndex];
        firsts := firsts + [i];
        bVIndex := bVIndex + 1;
      } else {
        VertexLoopOldKey(keys, i, nMap, vMap, firsts);
        vMap := vMap[i := vMap[nMap[k]]];
      }
    }
    VertexLoopDone(keys, nMap, vMap, firsts);
  }

  lemma VertexLoopDone<K>(keys: seq<K>, nMap: map<K, nat>, v: seq<nat>, firsts: seq<nat>)
    requires VertexLoopInv(keys, |keys|, nMap, v, firsts)
    ensures |firsts| == |Elems(keys)|
    ensures forall i, j :: 0 <= i < |keys| && 0 <= j < |keys| ==> (v[i] == v[j] <==> keys[i] == keys[j])
    ensures forall i :: 0 <= i < |keys| && FirstOccurrence(keys, i) ==> firsts[v[i]] == i
  {
    forall x | x in keys ensures x in nMap {
      var j :| 0 <= j < |keys| && keys[j] == x;
      assert v[j] < |firsts|;
    }
    forall x | x in nMap ensures x in keys {
      assert keys[nMap[x]] == x;
    }
    assert nMap.Keys == Elems(keys);
    forall i, j | 0 <= i < |keys| && 0 <= j < |keys|
      ensures v[i] == v[j] <==> keys[i] == keys[j]
    {
      assert v[i] < |firsts| && v[j] < |firsts|;
      assert keys[nMap[keys[i]]] == keys[i];
      assert keys[nMap[keys[j]]] == keys[j];
    }
    forall i | 0 <= i < |keys| && FirstOccurrence(keys, i)
      ensures firsts[v[i]] == i
    {
      assert v[i] < |firsts|;
      var f := firsts[v[i]];
      assert keys[f] == keys[i];
    }
  }

  // ---------------------------------------------------------------------
  // Faces
  // ---------------------------------------------------------------------

  /** A NIF triangle: three NIF vertex indices. */
  datatype Triangle = Triangle(v1: nat, v2: nat, v3: nat)

  predicate Degenerate(f: Triangle) {
    f.v1 == f.v2 || f.v1 == f.v3 || f.v2 == f.v3
  }

  predicate InRange(f: Triangle, vMap: seq<nat>) {
    f.v1 < |vMap| && f.v2 < |vMap| && f.v3 < |vMap|
  }

  function MapTriangle(f: Triangle, vMap: seq<nat>): Triangle
    requires InRange(f, vMap)
  {
    Triangle(vMap[f.v1], vMap[f.v2], vMap[f.v3])
  }

  function CountSome<T>(s: seq<Option<T>>): nat {
    if s == [] then 0 else CountSome(s[..|s| - 1]) + if s[|s| - 1].Some? then 1 else 0
  }

  /** The outcome of the face loop: an IndexError, or `f_map` and the Blender faces. */
  datatype FaceResult =
    | FaceIndexError
    | Faces(fMap: seq<Option<nat>>, bFaces: seq<Triangle>)

  /** What holds of `f_map` and the Blender faces after the first `i` triangles. */
  ghost predicate FaceLoopInv(faces: seq<Triangle>, vMap: seq<nat>, isDuplicate: (seq<Triangle>, Triangle) -> bool,
                              i: nat, fMap: seq<Option<nat>>, bFaces: seq<Triangle>) {
    && i <= |faces| && |fMap| == i
    && |bFaces| == CountSome(fMap)
    && (forall j :: 0 <= j < i ==> Degenerate(faces[j]) || InRange(faces[j], vMap))
    && (forall j :: 0 <= j < i && fMap[j].Some? ==>
          && fMap[j].value == CountSome(fMap[..j]) < |bFaces|
          && !Degenerate(faces[j])
          && !isDuplicate(bFaces[..fMap[j].value], MapTriangle(faces[j], vMap))
          && bFaces[fMap[j].value] == MapTriangle(faces[j], vMap))
    && (forall j :: 0 <= j < i && fMap[j].None? ==>
          && CountSome(fMap[..j]) <= |bFaces|
          && (Degenerate(faces[j]) || isDuplicate(bFaces[..CountSome(fMap[..j])], MapTriangle(faces[j], vMap))))
  }

  lemma CountSomeAppend<T>(s: seq<Option<T>>, x: Option<T>)
    ensures CountSome(s + [x]) == CountSome(s) + if x.Some? then 1 else 0
    ensures forall j :: 0 <= j <= |s| ==> (s + [x])[..j] == s[..j]
  {
    assert (s + [x])[..|s|] == s;
  }

  lemma FaceLoopSkip(faces: seq<Triangle>, vMap: seq<nat>, isDuplicate: (seq<Triangle>, Triangle) -> bool,
                     i: nat, fMap: seq<Option<nat>>, bFaces: seq<Triangle>)
    requires FaceLoopInv(faces, vMap, isDuplicate, i, fMap, bFaces)
    requires i < |faces|
    requires Degenerate(faces[i]) || (InRange(faces[i], vMap) && isDuplicate(bFaces, MapTriangle(faces[i], vMap)))
    ensures FaceLoopInv(faces, vMap, isDuplicate, i + 1, fMap + [None], bFaces)
  {
    CountSomeAppend(fMap, None);
    assert bFaces[..|bFaces|] == bFaces;
  }

  lemma FaceLoopAdd(faces: seq<Triangle>, vMap: seq<nat>, isDuplicate: (seq<Triangle>, Triangle) -> bool,
                    i: nat, fMap: seq<Option<nat>>, bFaces: seq<Triangle>)
    requires FaceLoopInv(faces, vMap, isDuplicate, i, fMap, bFaces)
    requires i < |faces| && !Degenerate(faces[i]) && InRange(faces[i], vMap)
    requires !isDuplicate(bFaces, MapTriangle(faces[i], vMap))
    ensures FaceLoopInv(faces, vMap, isDuplicate, i + 1, fMap + [Some(|bFaces|)], bFaces + [MapTriangle(faces[i], vMap)])
  {
    var face := MapTriangle(faces[i], vMap);
    CountSomeAppend(fMap, Some(|bFaces|));
    assert (bFaces + [face])[..|bFaces|] == bFaces;
    assert forall b :: 0 <= b <= |bFaces| ==> (bFaces + [face])[..b] == bFaces[..b];
  }

  /**
   * The face map. `isDuplicate(faces, f)` is Blender's test, in
   * `faces.extend`, of whether face `f` already exists among `faces`.
   * A non-degenerate triangle with a vertex index beyond `v_map` raises
   * IndexError. Otherwise every kept triangle gets the next Blender face
   * index, and its Blender face is the triangle with its vertices mapped
   * through `v_map`; a triangle is dropped exactly when it is degenerate
   * or its face already exists.
   */
  method FaceMap(faces: seq<Triangle>, vMap: seq<nat>, isDuplicate: (seq<Triangle>, Triangle) -> bool)
    returns (r: FaceResult)
    ensures r.FaceIndexError? <==> exists i :: 0 <= i < |faces| && !Degenerate(faces[i]) && !InRange(faces[i], vMap)
    ensures r.Faces? ==> FaceLoopInv(faces, vMap, isDuplicate, |faces|, r.fMap, r.bFaces)
  {
    var fMap: seq<Option<nat>> := [];
    var bFaces: seq<Triangle> := [];
    var bFIndex := 0;
    for i := 0 to |faces|
      invariant FaceLoopInv(faces, vMap, isDuplicate, i, fMap, bFaces)
      invariant bFIndex == |bFaces|
    {
      var f := faces[i];
      if !Degenerate(f) {
        if !InRange(f, vMap) {
          return FaceIndexError;
        }
        var face := MapTriangle(f, vMap);
        if !isDuplicate(bFaces, face) {
          FaceLoopAdd(faces, vMap, isDuplicate, i, fMap, bFaces);
          bFaces := bFaces + [face];
          fMap := fMap + [Some(bFIndex)];
          bFIndex := bFIndex + 1;
          continue;
        }
      }
      FaceLoopSkip(faces, vMap, isDuplicate, i, fMap, bFaces);
      fMap := fMap + [None];
    }
    r := Faces(fMap, bFaces);
  }
}
