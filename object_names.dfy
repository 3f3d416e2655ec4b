/**
 * `fb_name` of the NIF importer: the Blender name for a NIF block. Blender
 * keeps at most 19 characters of a name; when the truncated name is taken,
 * the first 16 characters followed by `.00`, `.01`, ... are tried in turn.
 * The importer remembers the choice in its NAMES dictionary.
 */
module ObjectNames {
  import opened PyStr

  /** The `k`-th replacement name: `'%s.%02d' % (niName[:16], k)`. */
  function Candidate(niName: string, k: nat): string {
    Take(niName, 16) + "." + Pad2(k)
  }

  lemma CandidateInjective(niName: string, a: nat, b: nat)
    requires Candidate(niName, a) == Candidate(niName, b)
    ensures a == b
  {
    var n := |Take(niName, 16) + "."|;
    assert Pad2(a) == Candidate(niName, a)[n..];
    assert Pad2(b) == Candidate(niName, b)[n..];
    Pad2Injective(a, b);
  }

  /**
   * The name `fb_name` settles on, given the names of the existing
   * objects: the truncated name if it is free, otherwise the first free
   * candidate. The search always ends, as only finitely many names are
   * taken.
   */
  method UniqueName(niName: string, taken: set<string>) returns (name: string)
    ensures name !in taken
    ensures Take(niName, 19) !in taken ==> name == Take(niName, 19)
    ensures Take(niName, 19) in taken ==>
      exists k: nat :: name == Candidate(niName, k) && forall j: nat :: j < k ==> Candidate(niName, j) in taken
  {
    var uniqueInt := 0;
    name := Take(niName, 19);
    ghost var seen: set<string> := {};
    while name in taken
      invariant uniqueInt == 0 ==> name == Take(niName, 19)
      invariant uniqueInt > 0 ==> Take(niName, 19) in taken && name == Candidate(niName, uniqueInt - 1)
      invariant forall j: nat :: j + 1 < uniqueInt ==> Candidate(niName, j) in seen
      invariant forall s :: s in seen ==> exists j: nat :: j + 1 < uniqueInt && s == Candidate(niName, j)
      invariant seen <= taken
      invariant uniqueInt > 0 ==> |seen| == uniqueInt - 1
      invariant uniqueInt <= |taken| + 1
      decreases |taken| + 1 - uniqueInt
    {
      if uniqueInt > 0 {
        if name in seen {
          var j: nat :| j + 1 < uniqueInt && name == Candidate(niName, j);
          CandidateInjective(niName, j, uniqueInt - 1);
        }
        seen := seen + {name};
        assert |seen| <= |taken| by {
          SubsetCardinality(seen, taken);
        }
      }
      name := Candidate(niName, uniqueInt);
      uniqueInt := uniqueInt + 1;
    }
  }

  lemma SubsetCardinality(a: set<string>, b: set<string>)
    requires a <= b
    ensures |a| <= |b|
  {
    assert b == a + (b - a);
  }

  /** The NAMES dictionary: NIF name to the Blender name chosen for it. */
  class NameTable {
    var names: map<string, string>

    constructor ()
      ensures names == map[]
    {
      names := map[];
    }

    /** fb_name(niBlock), for a block named `niName`, with `taken` the existing object names. */
    method FbName(niName: string, taken: set<string>) returns (name: string)
      modifies this
      ensures name !in taken
      ensures Take(niName, 19) !in taken ==> name == Take(niName, 19)
      ensures Take(niName, 19) in taken ==>
        exists k: nat :: name == Candidate(niName, k) && forall j: nat :: j < k ==> Candidate(niName, j) in taken
      ensures names == old(names)[niName := name]
    {
      name := UniqueName(niName, taken);
      names := names[niName := name];
    }
  }
}
