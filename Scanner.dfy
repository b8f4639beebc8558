/**
 * The metadata scanner of GodotDllModifier: base-type chain walk, node-class
 * filter, member and attribute lookups by name or type, and the probe for an
 * unused member name.
 */
module Scanner {
  import opened Wrappers
  import opened Cil
  import opened Metadata

  /** The position of the first element of `xs` whose `key` is `x`, as LINQ's
      `FirstOrDefault` finds it; `None` stands for its null. */
  function FirstIndexBy<T, K(==)>(xs: seq<T>, key: T -> K, x: K): (r: Option<nat>)
    ensures r.None? <==> forall k :: 0 <= k < |xs| ==> key(xs[k]) != x
    ensures r.Some? ==> r.value < |xs| && key(xs[r.value]) == x
    ensures r.Some? ==> forall k :: 0 <= k < r.value ==> key(xs[k]) != x
  {
    if xs == [] then None
    else if key(xs[0]) == x then Some(0)
    else match FirstIndexBy(xs[1..], key, x)
      case None => None
      case Some(k) => Some(k + 1)
  }

  function FindMethodBySimpleName(typeDef: TypeDef, simpleName: string): (r: Option<nat>)
    ensures r.None? <==> forall k :: 0 <= k < |typeDef.methods| ==> typeDef.methods[k].name != simpleName
    ensures r.Some? ==> r.value < |typeDef.methods| && typeDef.methods[r.value].name == simpleName
    ensures r.Some? ==> forall k :: 0 <= k < r.value ==> typeDef.methods[k].name != simpleName
  {
    FirstIndexBy(typeDef.methods, (m: MethodDef) => m.name, simpleName)
  }

  function FindFieldBySimpleName(typeDef: TypeDef, simpleName: string): (r: Option<nat>)
    ensures r.None? <==> forall k :: 0 <= k < |typeDef.fields| ==> typeDef.fields[k].name != simpleName
    ensures r.Some? ==> r.value < |typeDef.fields| && typeDef.fields[r.value].name == simpleName
    ensures r.Some? ==> forall k :: 0 <= k < r.value ==> typeDef.fields[k].name != simpleName
  {
    FirstIndexBy(typeDef.fields, (f: FieldDef) => f.name, simpleName)
  }

  function FindPropertyBySimpleName(typeDef: TypeDef, simpleName: string): (r: Option<nat>)
    ensures r.None? <==> forall k :: 0 <= k < |typeDef.properties| ==> typeDef.properties[k].name != simpleName
    ensures r.Some? ==> r.value < |typeDef.properties| && typeDef.properties[r.value].name == simpleName
    ensures r.Some? ==> forall k :: 0 <= k < r.value ==> typeDef.properties[k].name != simpleName
  {
    FirstIndexBy(typeDef.properties, (p: PropertyDef) => p.name, simpleName)
  }

  /** The position of the first attribute of member `m` whose type is
      `attrTypeDef`; an unresolved attribute type (`None`) matches nothing. */
  function GetFieldAttribute(t: TypeDef, m: MemberRef, attrTypeDef: Option<TypeId>): (r: Option<nat>)
    requires ValidMember(t, m)
    ensures var attrs := MemberAttributes(t, m);
      && (r.None? <==> forall k :: 0 <= k < |attrs| ==> Some(attrs[k].attrType) != attrTypeDef)
      && (r.Some? ==> r.value < |attrs| && Some(attrs[r.value].attrType) == attrTypeDef)
      && (r.Some? ==> forall k :: 0 <= k < r.value ==> Some(attrs[k].attrType) != attrTypeDef)
  {
    FirstIndexBy(MemberAttributes(t, m), (a: CustomAttribute) => Some(a.attrType), attrTypeDef)
  }

  /**
   * Whether `baseTypeDef` is `typeDef` or lies on its base-type chain, where
   * `parent` maps each type to its base type. The source recurses without a
   * bound (and would not terminate on a cyclic chain); here the walk takes at
   * most `fuel` steps.
   */
  function HasBaseClass(typeDef: TypeId, baseTypeDef: TypeId, parent: map<TypeId, TypeId>, fuel: nat): bool
    decreases fuel
  {
    if typeDef == baseTypeDef then true
    else if typeDef !in parent then false
    else if fuel == 0 then false
    else HasBaseClass(parent[typeDef], baseTypeDef, parent, fuel - 1)
  }

  /** The `n`-th type of the base-type chain of `t` (`t` itself is the 0-th),
      or `None` once the chain has ended. */
  function BaseChainAt(t: TypeId, parent: map<TypeId, TypeId>, n: nat): Option<TypeId>
    decreases n
  {
    if n == 0 then Some(t)
    else if t in parent then BaseChainAt(parent[t], parent, n - 1)
    else None
  }

  /** A base type found within `fuel` steps of the chain is reported. */
  lemma {:induction false} HasBaseClassFindsChainEntry(t: TypeId, b: TypeId, parent: map<TypeId, TypeId>, fuel: nat, n: nat)
    requires n <= fuel && BaseChainAt(t, parent, n) == Some(b)
    ensures HasBaseClass(t, b, parent, fuel)
    decreases n
  {
    if n > 0 && t != b {
      HasBaseClassFindsChainEntry(parent[t], b, parent, fuel - 1, n - 1);
    }
  }

  /** A reported base type is on the chain, within `fuel` steps. */
  lemma {:induction false} HasBaseClassOnChain(t: TypeId, b: TypeId, parent: map<TypeId, TypeId>, fuel: nat)
    requires HasBaseClass(t, b, parent, fuel)
    ensures exists n :: 0 <= n <= fuel && BaseChainAt(t, parent, n) == Some(b)
    decreases fuel
  {
    if t == b {
      assert BaseChainAt(t, parent, 0) == Some(b);
    } else {
      HasBaseClassOnChain(parent[t], b, parent, fuel - 1);
      var n :| 0 <= n <= fuel - 1 && BaseChainAt(parent[t], parent, n) == Some(b);
      assert BaseChainAt(t, parent, n + 1) == Some(b);
    }
  }

  /** `HasBaseClass` searches exactly the first `fuel + 1` entries of the chain. */
  lemma HasBaseClassSearchesChain(t: TypeId, b: TypeId, parent: map<TypeId, TypeId>, fuel: nat)
    ensures HasBaseClass(t, b, parent, fuel) <==> exists n :: 0 <= n <= fuel && BaseChainAt(t, parent, n) == Some(b)
  {
    if HasBaseClass(t, b, parent, fuel) {
      HasBaseClassOnChain(t, b, parent, fuel);
    }
    if exists n :: 0 <= n <= fuel && BaseChainAt(t, parent, n) == Some(b) {
      var n :| 0 <= n <= fuel && BaseChainAt(t, parent, n) == Some(b);
      HasBaseClassFindsChainEntry(t, b, parent, fuel, n);
    }
  }

  lemma {:induction false} BaseChainStaysEnded(t: TypeId, parent: map<TypeId, TypeId>, k: nat, n: nat)
    requires BaseChainAt(t, parent, k) == None && k <= n
    ensures BaseChainAt(t, parent, n) == None
    decreases k
  {
    if k > 0 && t in parent {
      BaseChainStaysEnded(parent[t], parent, k - 1, n - 1);
    }
  }

  /** When the chain of `t` ends within `fuel` steps, the bounded walk decides
      exactly whether `b` is on the chain. */
  lemma HasBaseClassComplete(t: TypeId, b: TypeId, parent: map<TypeId, TypeId>, fuel: nat)
    requires BaseChainAt(t, parent, fuel + 1) == None
    ensures HasBaseClass(t, b, parent, fuel) <==> exists n: nat :: BaseChainAt(t, parent, n) == Some(b)
  {
    HasBaseClassSearchesChain(t, b, parent, fuel);
    if HasBaseClass(t, b, parent, fuel) {
      var n :| 0 <= n <= fuel && BaseChainAt(t, parent, n) == Some(b);
      assert BaseChainAt(t, parent, n) == Some(b);
    }
    if exists n: nat :: BaseChainAt(t, parent, n) == Some(b) {
      var n: nat :| BaseChainAt(t, parent, n) == Some(b);
      if n > fuel {
        BaseChainStaysEnded(t, parent, fuel + 1, n);
      } else {
        assert 0 <= n <= fuel && BaseChainAt(t, parent, n) == Some(b);
        assert HasBaseClass(t, b, parent, fuel);
      }
    }
  }

  /** An entry of the chain that has a successor is a key of `parent`. */
  lemma {:induction false} BaseChainStep(t: TypeId, parent: map<TypeId, TypeId>, k: nat)
    requires BaseChainAt(t, parent, k + 1).Some?
    ensures BaseChainAt(t, parent, k).Some? && BaseChainAt(t, parent, k).value in parent
    decreases k
  {
    if k > 0 {
      BaseChainStep(parent[t], parent, k - 1);
    }
  }

  /** No type occurs twice on the base-type chain of `t`, as in any loadable
      class hierarchy. */
  ghost predicate ChainAcyclic(t: TypeId, parent: map<TypeId, TypeId>) {
    forall i: nat, j: nat :: i < j && BaseChainAt(t, parent, j).Some? ==>
      BaseChainAt(t, parent, i) != BaseChainAt(t, parent, j)
  }

  /** A sequence of distinct elements drawn from `s` is no longer than `s`. */
  lemma {:induction false} DistinctWithin<T>(xs: seq<T>, s: set<T>)
    requires forall i :: 0 <= i < |xs| ==> xs[i] in s
    requires forall i, j :: 0 <= i < j < |xs| ==> xs[i] != xs[j]
    ensures |xs| <= |s|
  {
    if |xs| > 0 {
      var rest := s - {xs[0]};
      forall i | 0 <= i < |xs[1..]|
        ensures xs[1..][i] in rest
      {
        assert xs[1..][i] == xs[i + 1];
      }
      forall i, j | 0 <= i < j < |xs[1..]|
        ensures xs[1..][i] != xs[1..][j]
      {
        assert xs[1..][i] == xs[i + 1] && xs[1..][j] == xs[j + 1];
      }
      DistinctWithin(xs[1..], rest);
    }
  }

  /** By pigeonhole, an acyclic chain ends within `|parent| + 1` steps. */
  lemma AcyclicChainEnds(t: TypeId, parent: map<TypeId, TypeId>)
    requires ChainAcyclic(t, parent)
    ensures BaseChainAt(t, parent, |parent| + 1) == None
  {
    var m := |parent|;
    if BaseChainAt(t, parent, m + 1).Some? {
      var xs := seq(m + 1, (k: int) requires 0 <= k => BaseChainAt(t, parent, k).GetOr(t));
      forall k | 0 <= k < m + 1
        ensures BaseChainAt(t, parent, k).Some? && xs[k] == BaseChainAt(t, parent, k).value
        ensures xs[k] in parent.Keys
      {
        if BaseChainAt(t, parent, k + 1) == None {
          BaseChainStaysEnded(t, parent, k + 1, m + 1);
        }
        BaseChainStep(t, parent, k);
      }
      forall i, j | 0 <= i < j < |xs|
        ensures xs[i] != xs[j]
      {
        assert BaseChainAt(t, parent, j).Some?;
      }
      DistinctWithin(xs, parent.Keys);
      assert false;
    }
  }

  /** On an acyclic chain, `IsNodeType` is exactly the unbounded walk of the
      source: `nodeType` is somewhere on the chain of `t`. */
  lemma IsNodeTypeExact(t: TypeId, nodeType: TypeId, parent: map<TypeId, TypeId>)
    requires ChainAcyclic(t, parent)
    ensures IsNodeType(t, nodeType, parent) <==> exists n: nat :: BaseChainAt(t, parent, n) == Some(nodeType)
  {
    AcyclicChainEnds(t, parent);
    HasBaseClassComplete(t, nodeType, parent, |parent|);
  }

  /** Whether type `t` derives from `nodeType`, walking at most one step per
      entry of `parent`. */
  function IsNodeType(t: TypeId, nodeType: TypeId, parent: map<TypeId, TypeId>): bool {
    HasBaseClass(t, nodeType, parent, |parent|)
  }

  /** The positions below `n` of the types that derive from `nodeType`, in order. */
  function NodeClassesBelow(types: seq<TypeDef>, nodeType: TypeId, parent: map<TypeId, TypeId>, n: nat): seq<nat>
    requires n <= |types|
  {
    if n == 0 then []
    else
      NodeClassesBelow(types, nodeType, parent, n - 1)
        + (if IsNodeType(types[n - 1].id, nodeType, parent) then [n - 1] else [])
  }

  /** Every position listed is below `n` and a node type, every node type
      below `n` is listed, and the list is strictly increasing. */
  lemma {:induction false} NodeClassesBelowSpec(types: seq<TypeDef>, nodeType: TypeId, parent: map<TypeId, TypeId>, n: nat)
    requires n <= |types|
    ensures forall j :: 0 <= j < |NodeClassesBelow(types, nodeType, parent, n)| ==>
      NodeClassesBelow(types, nodeType, parent, n)[j] < n
    ensures forall j :: 0 <= j < |NodeClassesBelow(types, nodeType, parent, n)| ==>
      IsNodeType(types[NodeClassesBelow(types, nodeType, parent, n)[j]].id, nodeType, parent)
    ensures forall i :: 0 <= i < n && IsNodeType(types[i].id, nodeType, parent) ==>
      i in NodeClassesBelow(types, nodeType, parent, n)
    ensures forall j, j' :: 0 <= j < j' < |NodeClassesBelow(types, nodeType, parent, n)| ==>
      NodeClassesBelow(types, nodeType, parent, n)[j] < NodeClassesBelow(types, nodeType, parent, n)[j']
  {
    if n > 0 {
      var below := NodeClassesBelow(types, nodeType, parent, n - 1);
      NodeClassesBelowSpec(types, nodeType, parent, n - 1);
      var r := NodeClassesBelow(types, nodeType, parent, n);
      var added := IsNodeType(types[n - 1].id, nodeType, parent);
      if added {
        assert r == below + [n - 1];
      } else {
        assert r == below;
      }
      forall j | 0 <= j < |r|
        ensures r[j] < n && IsNodeType(types[r[j]].id, nodeType, parent)
      {
        if j < |below| {
          assert r[j] == below[j];
        } else {
          assert added && r[j] == n - 1;
        }
      }
      forall i | 0 <= i < n && IsNodeType(types[i].id, nodeType, parent)
        ensures i in r
      {
        if i < n - 1 {
          assert i in below;
        } else {
          assert r[|below|] == i;
        }
      }
      forall j, j' | 0 <= j < j' < |r|
        ensures r[j] < r[j']
      {
        assert r[j] == below[j];
        if j' < |below| {
          assert r[j'] == below[j'];
        }
      }
    }
  }

  /** `GetNodeClasses`: the module's types that derive from the node type, in
      module order, as positions in `types`. */
  function GetNodeClasses(types: seq<TypeDef>, nodeType: TypeId, parent: map<TypeId, TypeId>): (r: seq<nat>)
    ensures forall j :: 0 <= j < |r| ==> r[j] < |types|
    ensures forall j :: 0 <= j < |r| ==> IsNodeType(types[r[j]].id, nodeType, parent)
    ensures forall i :: 0 <= i < |types| && IsNodeType(types[i].id, nodeType, parent) ==> i in r
    ensures forall j, j' :: 0 <= j < j' < |r| ==> r[j] < r[j']
  {
    var r := NodeClassesBelow(types, nodeType, parent, |types|);
    NodeClassesBelowSpec(types, nodeType, parent, |types|);
    r
  }

  /** The bound on name attempts of the editor-link field name probe. */
  const MaxNameAttempts: nat := 100

  /** Whether a method, field or property of `t` is called `name`. */
  predicate NameUsed(t: TypeDef, name: string) {
    FindMethodBySimpleName(t, name).Some? || FindFieldBySimpleName(t, name).Some?
      || FindPropertyBySimpleName(t, name).Some?
  }

  function Underscores(k: nat): (r: string)
    ensures |r| == k && forall j :: 0 <= j < k ==> r[j] == '_'
  {
    seq(k, _ => '_')
  }

  /** The first of `name`, `name_`, `name__`, ... (`attempts` candidates) that
      `t` does not use. */
  function FirstUnusedName(t: TypeDef, name: string, attempts: nat): Option<string>
    decreases attempts
  {
    if attempts == 0 then None
    else if !NameUsed(t, name) then Some(name)
    else FirstUnusedName(t, name + "_", attempts - 1)
  }

  lemma UnderscoresStep(name: string, k: nat)
    ensures (name + "_") + Underscores(k) == name + Underscores(k + 1)
  {
  }

  /** The candidates after `baseName` are those of `baseName + "_"`. */
  lemma CandidatesShift(t: TypeDef, baseName: string, attempts: nat)
    ensures forall k :: 0 < k < attempts ==>
      NameUsed(t, baseName + Underscores(k)) == NameUsed(t, (baseName + "_") + Underscores(k - 1))
  {
    forall k | 0 < k < attempts
      ensures NameUsed(t, baseName + Underscores(k)) == NameUsed(t, (baseName + "_") + Underscores(k - 1))
    {
      UnderscoresStep(baseName, k - 1);
    }
  }

  /** The probe yields nothing exactly when all `attempts` candidates are used. */
  lemma {:induction false} FirstUnusedNameNone(t: TypeDef, baseName: string, attempts: nat)
    ensures FirstUnusedName(t, baseName, attempts).None?
      <==> forall k :: 0 <= k < attempts ==> NameUsed(t, baseName + Underscores(k))
    decreases attempts
  {
    assert baseName + Underscores(0) == baseName;
    if attempts > 0 && NameUsed(t, baseName) {
      FirstUnusedNameNone(t, baseName + "_", attempts - 1);
      CandidatesShift(t, baseName, attempts);
      if FirstUnusedName(t, baseName, attempts).None? {
        forall k | 0 <= k < attempts ensures NameUsed(t, baseName + Underscores(k)) {
          if k > 0 {
            assert NameUsed(t, (baseName + "_") + Underscores(k - 1));
          }
        }
      } else {
        var k :| 0 <= k < attempts - 1 && !NameUsed(t, (baseName + "_") + Underscores(k));
        assert !NameUsed(t, baseName + Underscores(k + 1));
      }
    }
  }

  /** A name the probe yields is `baseName` followed by the fewest underscores
      (fewer than `attempts`) that give a name `t` does not use. */
  lemma {:induction false} FirstUnusedNameIsLeast(t: TypeDef, baseName: string, attempts: nat)
    requires FirstUnusedName(t, baseName, attempts).Some?
    ensures var name := FirstUnusedName(t, baseName, attempts).value;
      exists k :: (0 <= k < attempts && name == baseName + Underscores(k) && !NameUsed(t, name)
        && forall j :: 0 <= j < k ==> NameUsed(t, baseName + Underscores(j)))
    decreases attempts
  {
    var name := FirstUnusedName(t, baseName, attempts).value;
    assert baseName + Underscores(0) == baseName;
    if NameUsed(t, baseName) {
      FirstUnusedNameIsLeast(t, baseName + "_", attempts - 1);
      var k :| 0 <= k < attempts - 1 && name == (baseName + "_") + Underscores(k)
        && !NameUsed(t, name)
        && forall j :: 0 <= j < k ==> NameUsed(t, (baseName + "_") + Underscores(j));
      UnderscoresStep(baseName, k);
      forall j | 0 < j < k + 1 ensures NameUsed(t, baseName + Underscores(j)) {
        UnderscoresStep(baseName, j - 1);
      }
      assert 0 <= k + 1 < attempts && name == baseName + Underscores(k + 1);
    } else {
      assert name == baseName + Underscores(0);
    }
  }

  /** `SelectNonUsedNameForEditorLinkField`: tries `baseName` and then appends
      one underscore per failed attempt, at most `MaxNameAttempts` times. */
  method SelectNonUsedNameForEditorLinkField(nodeClass: TypeDef, baseName: string) returns (selected: Option<string>)
    ensures selected == FirstUnusedName(nodeClass, baseName, MaxNameAttempts)
  {
    var selectedName := baseName;
    var attempt := 0;
    ghost var goal := FirstUnusedName(nodeClass, baseName, MaxNameAttempts);
    while attempt < MaxNameAttempts
      invariant 0 <= attempt <= MaxNameAttempts
      invariant FirstUnusedName(nodeClass, selectedName, MaxNameAttempts - attempt) == goal
    {
      if FindMethodBySimpleName(nodeClass, selectedName).None?
        && FindFieldBySimpleName(nodeClass, selectedName).None?
        && FindPropertyBySimpleName(nodeClass, selectedName).None?
      {
        return Some(selectedName);
      }
      selectedName := selectedName + "_";
      attempt := attempt + 1;
    }
    return None;
  }
}
