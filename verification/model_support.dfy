/** Model entities of a deployment model and the resolution of their effective
    properties and operations over the instance's type chain. */
module ModelSupport {
  import opened Wrappers

  /** A property value as delivered by the parser. */
  datatype Value = StringValue(s: string) | IntegerValue(i: int)

  /** The value type a typed attribute descriptor announces. */
  datatype ValueType = StringType | IntegerType

  /** A typed attribute descriptor: a property name plus the value type callers expect. */
  datatype Attribute = Attribute(name: string, valueType: ValueType)

  /** A property; `value` is None when the property carries no value. */
  datatype Property = Property(name: string, value: Option<Value>)

  /** An artifact of an operation; `value` is the path of the artifact file. */
  datatype Artifact = Artifact(name: string, value: string)

  datatype Operation = Operation(name: string, artifacts: seq<Artifact>) {
    predicate HasArtifacts() { |artifacts| > 0 }
  }

  /** A mapping entity of the parsed graph, reduced to what resolution reads:
      its `extends` value and the children of its `properties` and `operations`
      entries, in the order they are iterated. An absent child entry is an empty
      sequence, which resolution treats exactly like an entry without children. */
  datatype MappingEntity = MappingEntity(
    extendsValue: Option<string>,
    properties: seq<Property>,
    operations: seq<Operation>)

  /** A model entity: the wrapped mapping entity, the outcome of the graph's type
      lookup (None when the instance has no resolvable type entity, otherwise the
      resolved inheritance chain of that type, in the order it is iterated), and
      the mutable `transformed` flag. */
  datatype ModelEntity = ModelEntity(
    entity: MappingEntity,
    typeChain: Option<seq<MappingEntity>>,
    transformed: bool)

  /** The IllegalStateException raised when an instance has no resolvable type. */
  datatype ModelError = NoResolvableType

  // ---------------------------------------------------------------------------
  // Last-put-wins merging of named children into a map

  /** The names under which the children of `s` are stored. */
  function KeysOf<T>(s: seq<T>, key: T -> string): set<string>
  {
    set i | 0 <= i < |s| :: key(s[i])
  }

  /** No two children of `s` share a name (true of the children of one mapping entry). */
  ghost predicate DistinctKeys<T>(s: seq<T>, key: T -> string)
  {
    forall i, j :: 0 <= i < j < |s| ==> key(s[i]) != key(s[j])
  }

  /** The position of the last child of `s` named `k`, or -1 when there is none:
      the reference for which of several same-named children a merge keeps. */
  function LastIndexOf<T>(s: seq<T>, key: T -> string, k: string): (r: int)
    ensures -1 <= r < |s|
    ensures r >= 0 ==> key(s[r]) == k && forall j :: r < j < |s| ==> key(s[j]) != k
    ensures r == -1 ==> forall j :: 0 <= j < |s| ==> key(s[j]) != k
    ensures r >= 0 <==> k in KeysOf(s, key)
    decreases |s|
  {
    if s == [] then -1
    else if key(s[|s| - 1]) == k then |s| - 1
    else LastIndexOf(s[..|s| - 1], key, k)
  }

  /** Puts every child of `s` into `m` under its own name, one after the other. */
  function PutAll<T>(m: map<string, T>, s: seq<T>, key: T -> string): (r: map<string, T>)
    ensures r.Keys == m.Keys + KeysOf(s, key)
    ensures forall k :: k in r && k !in KeysOf(s, key) ==> r[k] == m[k]
    ensures forall k :: k in KeysOf(s, key) ==> r[k] == s[LastIndexOf(s, key, k)]
    decreases |s|
  {
    if s == [] then m
    else
      var init := s[..|s| - 1];
      var last := s[|s| - 1];
      assert KeysOf(s, key) == KeysOf(init, key) + {key(last)} by {
        assert forall i :: 0 <= i < |init| ==> init[i] == s[i];
      }
      PutAll(m, init, key)[key(last) := last]
  }

  /** Two children of `s` with the same name are the same child, when names are distinct. */
  lemma KeyedChildUnique<T>(s: seq<T>, key: T -> string, x: T, y: T)
    requires DistinctKeys(s, key)
    requires x in s && y in s && key(x) == key(y)
    ensures x == y
  {
    var i :| 0 <= i < |s| && s[i] == x;
    var j :| 0 <= j < |s| && s[j] == y;
  }

  /** The children of one mapping entry have distinct names, so the order in which
      the entry's child set is iterated does not change the merged map. */
  lemma PutAllOrderIrrelevant<T>(m: map<string, T>, s1: seq<T>, s2: seq<T>, key: T -> string)
    requires DistinctKeys(s1, key) && DistinctKeys(s2, key)
    requires forall x :: x in s1 <==> x in s2
    ensures PutAll(m, s1, key) == PutAll(m, s2, key)
  {
    var r1 := PutAll(m, s1, key);
    var r2 := PutAll(m, s2, key);
    assert KeysOf(s1, key) == KeysOf(s2, key) by {
      forall k | k in KeysOf(s1, key) ensures k in KeysOf(s2, key) {
        var i :| 0 <= i < |s1| && key(s1[i]) == k;
        assert s1[i] in s2;
        var j :| 0 <= j < |s2| && s2[j] == s1[i];
      }
      forall k | k in KeysOf(s2, key) ensures k in KeysOf(s1, key) {
        var i :| 0 <= i < |s2| && key(s2[i]) == k;
        assert s2[i] in s1;
        var j :| 0 <= j < |s1| && s1[j] == s2[i];
      }
    }
    forall k | k in r1 ensures r1[k] == r2[k] {
      if k in KeysOf(s1, key) {
        var i1 := LastIndexOf(s1, key, k);
        var i2 := LastIndexOf(s2, key, k);
        assert s1[i1] in s2;
        KeyedChildUnique(s2, key, s1[i1], s2[i2]);
      }
    }
  }

  // ---------------------------------------------------------------------------
  // Flattening a sequence of sources

  /** The position of the last source declaring a child named `k`, or -1. */
  function LastSourceOf<T>(srcs: seq<seq<T>>, key: T -> string, k: string): (j: int)
    ensures -1 <= j < |srcs|
    ensures j >= 0 ==> (k in KeysOf(srcs[j], key) &&
      forall j' :: j < j' < |srcs| ==> k !in KeysOf(srcs[j'], key))
    ensures j == -1 ==> forall j' :: 0 <= j' < |srcs| ==> k !in KeysOf(srcs[j'], key)
    decreases |srcs|
  {
    if srcs == [] then -1
    else if k in KeysOf(srcs[|srcs| - 1], key) then |srcs| - 1
    else LastSourceOf(srcs[..|srcs| - 1], key, k)
  }

  /** The child that precedence selects for `k`: the last child named `k` in the
      last source that declares `k`. */
  function Winner<T>(srcs: seq<seq<T>>, key: T -> string, k: string): (w: T)
    requires LastSourceOf(srcs, key, k) >= 0
    ensures key(w) == k
  {
    var j := LastSourceOf(srcs, key, k);
    srcs[j][LastIndexOf(srcs[j], key, k)]
  }

  /** Merges the sources into an empty map in order: every child is put under its
      own name, and a later put replaces an earlier one. */
  function Flatten<T>(srcs: seq<seq<T>>, key: T -> string): (r: map<string, T>)
    ensures forall k :: k in r <==> LastSourceOf(srcs, key, k) >= 0
    ensures forall k :: k in r ==> r[k] == Winner(srcs, key, k)
    decreases |srcs|
  {
    if srcs == [] then map[]
    else
      var init := srcs[..|srcs| - 1];
      assert forall k :: k !in KeysOf(srcs[|srcs| - 1], key) ==>
        LastSourceOf(srcs, key, k) == LastSourceOf(init, key, k);
      assert forall j :: 0 <= j < |init| ==> srcs[j] == init[j];
      PutAll(Flatten(init, key), srcs[|srcs| - 1], key)
  }

  /** The resolution algorithm: the local children first, then the children of
      every type of the chain in chain order, each put replacing an earlier one.
      A type-chain declaration therefore replaces a same-named local one, and a
      later chain element replaces an earlier one; a local child survives only
      when no type of the chain declares its name. */
  function Resolve<T>(local: seq<T>, chain: seq<seq<T>>, key: T -> string): (r: map<string, T>)
    ensures forall k :: k in r <==> k in KeysOf(local, key) || LastSourceOf(chain, key, k) >= 0
    ensures forall k :: k in r ==> key(r[k]) == k
    ensures forall k :: LastSourceOf(chain, key, k) >= 0 ==> r[k] == Winner(chain, key, k)
    ensures forall k :: k in KeysOf(local, key) && LastSourceOf(chain, key, k) < 0 ==>
      r[k] == local[LastIndexOf(local, key, k)]
  {
    ResolveShift(local, chain, key);
    Flatten([local] + chain, key)
  }

  /** Prepending the local source shifts every chain position by one, and leaves
      the local source as the winner only of names the chain never declares. */
  lemma {:induction false} ResolveShift<T>(local: seq<T>, chain: seq<seq<T>>, key: T -> string)
    ensures forall k :: LastSourceOf(chain, key, k) >= 0 ==>
      LastSourceOf([local] + chain, key, k) == LastSourceOf(chain, key, k) + 1 &&
      Winner([local] + chain, key, k) == Winner(chain, key, k)
    ensures forall k :: LastSourceOf(chain, key, k) < 0 ==>
      LastSourceOf([local] + chain, key, k) == (if k in KeysOf(local, key) then 0 else -1)
    ensures forall k :: LastSourceOf(chain, key, k) < 0 && k in KeysOf(local, key) ==>
      Winner([local] + chain, key, k) == local[LastIndexOf(local, key, k)]
    decreases |chain|
  {
    if chain != [] {
      var init := chain[..|chain| - 1];
      ResolveShift(local, init, key);
      assert ([local] + chain)[..|chain|] == [local] + init;
      assert forall i :: 0 <= i < |init| ==> init[i] == chain[i];
    }
  }

  // ---------------------------------------------------------------------------
  // ModelEntity

  function PropertyName(p: Property): string { p.name }

  function OperationName(o: Operation): string { o.name }

  /** The `properties` children of every type of the chain, in chain order. */
  function PropertyChain(chain: seq<MappingEntity>): (r: seq<seq<Property>>)
    ensures |r| == |chain|
    ensures forall i :: 0 <= i < |chain| ==> r[i] == chain[i].properties
  {
    seq(|chain|, i requires 0 <= i < |chain| => chain[i].properties)
  }

  /** The `operations` children of every type of the chain, in chain order. */
  function OperationChain(chain: seq<MappingEntity>): (r: seq<seq<Operation>>)
    ensures |r| == |chain|
    ensures forall i :: 0 <= i < |chain| ==> r[i] == chain[i].operations
  {
    seq(|chain|, i requires 0 <= i < |chain| => chain[i].operations)
  }

  /** A property named `name` is declared locally or by some type of the chain. */
  ghost predicate DeclaresProperty(e: ModelEntity, name: string)
    requires e.typeChain.Some?
  {
    || name in KeysOf(e.entity.properties, PropertyName)
    || exists i :: 0 <= i < |e.typeChain.value| &&
         name in KeysOf(e.typeChain.value[i].properties, PropertyName)
  }

  /** An operation named `name` is declared locally or by some type of the chain. */
  ghost predicate DeclaresOperation(e: ModelEntity, name: string)
    requires e.typeChain.Some?
  {
    || name in KeysOf(e.entity.operations, OperationName)
    || exists i :: 0 <= i < |e.typeChain.value| &&
         name in KeysOf(e.typeChain.value[i].operations, OperationName)
  }

  /** A fresh model entity: `transformed` starts out false. */
  function NewModelEntity(entity: MappingEntity, typeChain: Option<seq<MappingEntity>>): (r: ModelEntity)
    ensures !IsTransformed(r)
    ensures r.entity == entity && r.typeChain == typeChain
  {
    ModelEntity(entity, typeChain, false)
  }

  function IsTransformed(e: ModelEntity): bool
  {
    e.transformed
  }

  /** Sets the flag and touches nothing else. */
  function SetTransformed(e: ModelEntity, transformed: bool): (r: ModelEntity)
    ensures IsTransformed(r) == transformed
    ensures r.entity == e.entity && r.typeChain == e.typeChain
  {
    e.(transformed := transformed)
  }

  /** The instance's own `extends` value; the type chain is not consulted. */
  function GetExtends(e: ModelEntity): (r: Option<string>)
    ensures r.Some? <==> e.entity.extendsValue.Some?
    ensures r.Some? ==> r.value == e.entity.extendsValue.value
  {
    e.entity.extendsValue
  }

  /** The effective properties of an instance, keyed by name: every name declared
      locally or by a type of the chain, with a type-chain declaration replacing a
      local one and a later chain element replacing an earlier one. */
  function GetProperties(e: ModelEntity): (r: Result<map<string, Property>, ModelError>)
    ensures r.Failure? <==> e.typeChain.None?
    ensures r.Success? ==> forall k :: k in r.value <==> DeclaresProperty(e, k)
    ensures r.Success? ==> forall k :: k in r.value ==> r.value[k].name == k
    ensures r.Success? ==> forall k ::
      LastSourceOf(PropertyChain(e.typeChain.value), PropertyName, k) >= 0 ==>
      k in r.value && r.value[k] == Winner(PropertyChain(e.typeChain.value), PropertyName, k)
    ensures r.Success? ==> forall k ::
      k in KeysOf(e.entity.properties, PropertyName) &&
      LastSourceOf(PropertyChain(e.typeChain.value), PropertyName, k) < 0 ==>
      k in r.value && r.value[k] == e.entity.properties[LastIndexOf(e.entity.properties, PropertyName, k)]
  {
    match e.typeChain
    case None => Failure(NoResolvableType)
    case Some(chain) =>
      var pc := PropertyChain(chain);
      assert forall k :: LastSourceOf(pc, PropertyName, k) >= 0 <==>
        exists i :: 0 <= i < |chain| && k in KeysOf(chain[i].properties, PropertyName);
      Success(Resolve(e.entity.properties, pc, PropertyName))
  }

  /** The effective operations of an instance, by the same algorithm. */
  function GetOperations(e: ModelEntity): (r: Result<map<string, Operation>, ModelError>)
    ensures r.Failure? <==> e.typeChain.None?
    ensures r.Success? ==> forall k :: k in r.value <==> DeclaresOperation(e, k)
    ensures r.Success? ==> forall k :: k in r.value ==> r.value[k].name == k
    ensures r.Success? ==> forall k ::
      LastSourceOf(OperationChain(e.typeChain.value), OperationName, k) >= 0 ==>
      k in r.value && r.value[k] == Winner(OperationChain(e.typeChain.value), OperationName, k)
    ensures r.Success? ==> forall k ::
      k in KeysOf(e.entity.operations, OperationName) &&
      LastSourceOf(OperationChain(e.typeChain.value), OperationName, k) < 0 ==>
      k in r.value && r.value[k] == e.entity.operations[LastIndexOf(e.entity.operations, OperationName, k)]
  {
    match e.typeChain
    case None => Failure(NoResolvableType)
    case Some(chain) =>
      var oc := OperationChain(chain);
      assert forall k :: LastSourceOf(oc, OperationName, k) >= 0 <==>
        exists i :: 0 <= i < |chain| && k in KeysOf(chain[i].operations, OperationName);
      Success(Resolve(e.entity.operations, oc, OperationName))
  }

  /** Looks one property up; a name declared nowhere gives an empty result, not an error. */
  function GetProperty(e: ModelEntity, name: string): (r: Result<Option<Property>, ModelError>)
    ensures r.Failure? <==> e.typeChain.None?
    ensures r.Success? ==> (r.value.Some? <==> DeclaresProperty(e, name))
    ensures r.Success? && r.value.Some? ==>
      r.value.value.name == name && r.value.value == GetProperties(e).value[name]
  {
    match GetProperties(e)
    case Failure(err) => Failure(err)
    case Success(props) => Success(if name in props then Some(props[name]) else None)
  }

  /** Looks a typed attribute up: the property named like the attribute, mapped to
      its value. The cast to the attribute's type is unchecked, so the value is
      returned as stored. */
  function GetPropertyValue(e: ModelEntity, attribute: Attribute): (r: Result<Option<Value>, ModelError>)
    ensures r.Failure? <==> e.typeChain.None?
    ensures r.Success? && !DeclaresProperty(e, attribute.name) ==> r.value.None?
    ensures r.Success? && DeclaresProperty(e, attribute.name) ==>
      r.value == GetProperties(e).value[attribute.name].value
  {
    match GetProperty(e, attribute.name)
    case Failure(err) => Failure(err)
    case Success(None) => Success(None)
    case Success(Some(p)) => Success(p.value)
  }

  /** Looks one operation up; a name declared nowhere gives an empty result, not an error. */
  function GetOperation(e: ModelEntity, name: string): (r: Result<Option<Operation>, ModelError>)
    ensures r.Failure? <==> e.typeChain.None?
    ensures r.Success? ==> (r.value.Some? <==> DeclaresOperation(e, name))
    ensures r.Success? && r.value.Some? ==>
      r.value.value.name == name && r.value.value == GetOperations(e).value[name]
  {
    match GetOperations(e)
    case Failure(err) => Failure(err)
    case Success(ops) => Success(if name in ops then Some(ops[name]) else None)
  }

  /** Resolving properties and operations neither reads nor writes the flag. */
  lemma ResolutionIgnoresTransformed(e: ModelEntity, transformed: bool)
    ensures GetProperties(SetTransformed(e, transformed)) == GetProperties(e)
    ensures GetOperations(SetTransformed(e, transformed)) == GetOperations(e)
  {
  }

  /** The three-level case: a property declared by the instance (`local`), by its
      type (first chain element) and by the type's parent (second chain element)
      resolves to the parent's declaration. */
  lemma ParentDeclarationWins(e: ModelEntity, name: string, local: Property, fromType: Property, fromParent: Property)
    requires e.typeChain.Some? && |e.typeChain.value| == 2
    requires e.entity.properties == [local]
    requires e.typeChain.value[0].properties == [fromType]
    requires e.typeChain.value[1].properties == [fromParent]
    requires local.name == name && fromType.name == name && fromParent.name == name
    ensures GetProperty(e, name) == Success(Some(fromParent))
  {
    var pc := PropertyChain(e.typeChain.value);
    assert PropertyName(pc[1][0]) == name;
    assert LastSourceOf(pc, PropertyName, name) == 1;
  }
}
