/** Equality and hashing of a resolved field
    (KeePassRPC/Models/Shared/ResolvedField.cs). A resolved field is an
    object: `Equals` first compares references, and its `MatcherConfigs`
    array is compared by reference, not by contents. Dafny has no class
    inheritance, so the members `ResolvedField` inherits from `Field` are
    declared on the class itself. */
module ResolvedFields {
  import opened Shared

  /** The nine components `Equals` compares, in one value. */
  datatype FieldKey = FieldKey(
    resolvedValue: Option<string>,
    uuid: Option<string>,
    name: Option<string>,
    valuePath: Option<string>,
    value: Option<string>,
    page: int32,
    fieldType: FieldType,
    placeholderHandling: Option<PlaceholderHandling>,
    matcherConfigs: array?<FieldMatcherConfig>)

  /** The runtime's hash functions, which the model does not fix: the hash of
      a string, the identity hash of an array, and the hash of a
      placeholder-handling enum value. */
  datatype HashEnv = HashEnv(
    stringHash: string -> int32,
    arrayHash: array<FieldMatcherConfig> -> int32,
    placeholderHash: PlaceholderHandling -> int32)

  /** One step of the hash: `(hashCode * 397) ^ component`, wrapping. */
  function Mix(h: bv32, component: bv32): bv32 {
    (h * 397) ^ component
  }

  /** Threads a hash through `Mix` over the components, left to right. */
  function MixAll(h: bv32, components: seq<bv32>): bv32
    decreases |components|
  {
    if components == [] then h else MixAll(Mix(h, components[0]), components[1..])
  }

  /** Threading a hash over eight components is eight `Mix` steps. */
  lemma MixAllEight(h: bv32, cs: seq<bv32>)
    requires |cs| == 8
    ensures MixAll(h, cs) ==
      Mix(Mix(Mix(Mix(Mix(Mix(Mix(Mix(h, cs[0]), cs[1]), cs[2]), cs[3]), cs[4]), cs[5]), cs[6]), cs[7])
  {
    MixAllStep(h, cs);
    MixAllStep(Mix(h, cs[0]), cs[1..]);
    var g2 := Mix(Mix(h, cs[0]), cs[1]);
    assert cs[1..][1..] == cs[2..];
    MixAllStep(g2, cs[2..]);
    var g3 := Mix(g2, cs[2]);
    assert cs[2..][1..] == cs[3..];
    MixAllStep(g3, cs[3..]);
    var g4 := Mix(g3, cs[3]);
    assert cs[3..][1..] == cs[4..];
    MixAllStep(g4, cs[4..]);
    var g5 := Mix(g4, cs[4]);
    assert cs[4..][1..] == cs[5..];
    MixAllStep(g5, cs[5..]);
    var g6 := Mix(g5, cs[5]);
    assert cs[5..][1..] == cs[6..];
    MixAllStep(g6, cs[6..]);
    var g7 := Mix(g6, cs[6]);
    assert cs[6..][1..] == cs[7..];
    MixAllStep(g7, cs[7..]);
    assert cs[7..][1..] == [];
  }

  lemma MixAllStep(h: bv32, cs: seq<bv32>)
    requires cs != []
    ensures MixAll(h, cs) == MixAll(Mix(h, cs[0]), cs[1..])
  {
  }

  /** The hash of a nullable string: 0 for null. */
  function StringHash(s: Option<string>, env: HashEnv): bv32 {
    if s.Some? then Bits(env.stringHash(s.value)) else 0
  }

  /** The components mixed into the hash after the uuid, in the order
      `GetHashCode` mixes them: all of the key but the uuid. */
  function HashComponents(k: FieldKey, env: HashEnv): (cs: seq<bv32>)
    ensures |cs| == 8
  {
    [ StringHash(k.name, env),
      StringHash(k.valuePath, env),
      StringHash(k.resolvedValue, env),
      StringHash(k.value, env),
      Bits(k.page),
      Bits(k.fieldType),
      if k.placeholderHandling.Some? then Bits(env.placeholderHash(k.placeholderHandling.value)) else 0,
      if k.matcherConfigs != null then Bits(env.arrayHash(k.matcherConfigs)) else 0 ]
  }

  /** The hash of a key: its uuid's hash, then every other component mixed in. */
  function KeyHash(k: FieldKey, env: HashEnv): int32
    requires k.uuid.Some?
  {
    FromBits(MixAll(Bits(env.stringHash(k.uuid.value)), HashComponents(k, env)))
  }

  class ResolvedField {
    var uuid: Option<string>
    var name: Option<string>
    var valuePath: Option<string>
    var value: Option<string>
    var page: int32
    var fieldType: FieldType
    var placeholderHandling: Option<PlaceholderHandling>
    var matcherConfigs: array?<FieldMatcherConfig>
    var resolvedValue: Option<string>

    /** A resolved field holding the components of `k`. */
    constructor (k: FieldKey)
      ensures Key() == k
    {
      resolvedValue := k.resolvedValue;
      uuid := k.uuid;
      name := k.name;
      valuePath := k.valuePath;
      value := k.value;
      page := k.page;
      fieldType := k.fieldType;
      placeholderHandling := k.placeholderHandling;
      matcherConfigs := k.matcherConfigs;
    }

    function Key(): FieldKey
      reads this
    {
      FieldKey(resolvedValue, uuid, name, valuePath, value, page, fieldType, placeholderHandling, matcherConfigs)
    }

    /** `Equals(ResolvedField)` dereferences its own `Uuid` once the resolved
        values agree: on a distinct object with a null uuid it throws. */
    predicate EqualsDefined(other: ResolvedField?)
      reads this, other
    {
      other == null || other == this || resolvedValue != other.resolvedValue || uuid.Some?
    }

    /** `Equals(ResolvedField)`: false for null, true for the same object,
        otherwise true exactly when all nine components agree, with the
        matcher arrays compared by reference. */
    predicate Equals(other: ResolvedField?)
      reads this, other
      requires EqualsDefined(other)
      ensures other == null ==> !Equals(other)
      ensures other == this ==> Equals(other)
      ensures Equals(other) <==> other != null && Key() == other.Key()
    {
      if other == null then false
      else if other == this then true
      else
        && resolvedValue == other.resolvedValue
        // string.Equals(string) is false for a null argument
        && other.uuid.Some? && uuid.value == other.uuid.value
        && name == other.name
        && valuePath == other.valuePath
        && value == other.value
        && page == other.page
        && fieldType == other.fieldType
        && placeholderHandling == other.placeholderHandling
        // object.Equals(a, b) on two arrays: same reference, or both null
        && matcherConfigs == other.matcherConfigs
    }

    /** `Equals(object)` may reach `Equals(ResolvedField)` with `obj`. */
    predicate EqualsObjectDefined(obj: object?)
      reads this, obj
    {
      obj is ResolvedField ==> EqualsDefined(obj as ResolvedField)
    }

    /** `Equals(object)`: false for null and for an object of another runtime
        type, otherwise the typed `Equals`. */
    predicate EqualsObject(obj: object?)
      reads this, obj
      requires EqualsObjectDefined(obj)
      ensures obj == null ==> !EqualsObject(obj)
      ensures !(obj is ResolvedField) ==> !EqualsObject(obj)
      ensures obj is ResolvedField ==> (EqualsObject(obj) <==> Equals(obj as ResolvedField))
    {
      if obj == null then false
      else if obj == this then true
      else if !(obj is ResolvedField) then false
      else Equals(obj as ResolvedField)
    }

    /** `GetHashCode`: the uuid's hash, then name, value path, resolved value,
        value, page, type, placeholder handling and the matcher array's
        identity each mixed in with a wrapping multiply by 397 and xor. The
        result depends on the compared components only. */
    function HashCode(env: HashEnv): (h: int32)
      reads this
      requires uuid.Some?
      ensures h == KeyHash(Key(), env)
    {
      var h0 := Bits(env.stringHash(uuid.value));
      var h1 := Mix(h0, StringHash(name, env));
      var h2 := Mix(h1, StringHash(valuePath, env));
      var h3 := Mix(h2, StringHash(resolvedValue, env));
      var h4 := Mix(h3, StringHash(value, env));
      var h5 := Mix(h4, Bits(page));
      var h6 := Mix(h5, Bits(fieldType));
      var h7 := Mix(h6, if placeholderHandling.Some? then Bits(env.placeholderHash(placeholderHandling.value)) else 0);
      var h8 := Mix(h7, if matcherConfigs != null then Bits(env.arrayHash(matcherConfigs)) else 0);
      MixAllEight(h0, HashComponents(Key(), env));
      FromBits(h8)
    }

    /** `operator ==`, which is `object.Equals(left, right)`: true for the same
        reference (two nulls included), false when just one side is null,
        otherwise `left.Equals((object)right)`. */
    static predicate OperatorEquals(left: ResolvedField?, right: ResolvedField?)
      reads left, right
      requires left != null ==> left.EqualsObjectDefined(right)
      ensures left == null && right == null ==> OperatorEquals(left, right)
      ensures (left == null) != (right == null) ==> !OperatorEquals(left, right)
      ensures left != null && right != null ==> (OperatorEquals(left, right) <==> left.Key() == right.Key())
    {
      if left == right then true
      else if left == null || right == null then false
      else left.EqualsObject(right)
    }

    /** `operator !=`: true when exactly one side is null, or both are objects
        whose compared components differ. */
    static predicate OperatorNotEquals(left: ResolvedField?, right: ResolvedField?)
      reads left, right
      requires left != null ==> left.EqualsObjectDefined(right)
      ensures OperatorNotEquals(left, right) <==>
        (left == null) != (right == null) || (left != null && right != null && left.Key() != right.Key())
    {
      !OperatorEquals(left, right)
    }
  }

  /** Every resolved field equals itself, whatever its uuid. */
  lemma EqualsIsReflexive(a: ResolvedField)
    ensures a.EqualsDefined(a) && a.Equals(a)
  {
  }

  /** When `a.Equals(b)` holds, `b.Equals(a)` is defined and holds too. */
  lemma EqualsIsSymmetric(a: ResolvedField, b: ResolvedField)
    requires a.EqualsDefined(b) && a.Equals(b)
    ensures b.EqualsDefined(a) && b.Equals(a)
  {
  }

  lemma EqualsIsTransitive(a: ResolvedField, b: ResolvedField, c: ResolvedField)
    requires a.EqualsDefined(b) && a.Equals(b)
    requires b.EqualsDefined(c) && b.Equals(c)
    ensures a.EqualsDefined(c) && a.Equals(c)
  {
  }

  /** Two distinct fields whose resolved values differ are unequal, however
      alike the rest is: equality is a "did anything change" test. */
  lemma ResolvedValueParticipates(a: ResolvedField, b: ResolvedField)
    requires a.resolvedValue != b.resolvedValue
    ensures a.EqualsDefined(b) && !a.Equals(b)
  {
  }

  /** Two distinct matcher arrays with the same contents still make the
      fields unequal. */
  lemma MatcherConfigsByReference(a: ResolvedField, b: ResolvedField)
    requires a.EqualsDefined(b)
    requires a.matcherConfigs != null && b.matcherConfigs != null
    requires a.matcherConfigs != b.matcherConfigs
    requires a.matcherConfigs[..] == b.matcherConfigs[..]
    ensures !a.Equals(b)
  {
  }

  /** Equal fields have equal hash codes. */
  lemma HashAgreesWithEquals(a: ResolvedField, b: ResolvedField, env: HashEnv)
    requires a.uuid.Some?
    requires a.EqualsDefined(b) && a.Equals(b)
    ensures b.uuid.Some? && a.HashCode(env) == b.HashCode(env)
  {
  }

  /** `operator ==` and `operator !=` are each other's negation. */
  lemma OperatorsAreComplementary(left: ResolvedField?, right: ResolvedField?)
    requires left != null ==> left.EqualsObjectDefined(right)
    ensures ResolvedField.OperatorNotEquals(left, right) == !ResolvedField.OperatorEquals(left, right)
  {
  }
}
