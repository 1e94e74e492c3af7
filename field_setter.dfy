/** The dynamic field setter: copies a name-to-value map onto the fields of a
    command record, the way SetStructProperties does with package reflect.
    A record is a map from field name to (kind, exported, value); the value
    written is truncated to the field's width as reflect.Value.SetInt and
    SetUint do. */
module FieldSetter {
  import opened Common

  /** Go's integer kinds; int and uint are 64 bits wide. */
  datatype IntKind = Int | Int8 | Int16 | Int32 | Int64 | Uint | Uint8 | Uint16 | Uint32 | Uint64

  /** 2^w for the kind's width w; int and uint are 64 bits wide. */
  function Modulus(k: IntKind): (m: nat)
    ensures m >= 0x100 && m % 0x100 == 0
  {
    match k
    case Int8 | Uint8 => 0x100
    case Int16 | Uint16 => 0x1_0000
    case Int32 | Uint32 => 0x1_0000_0000
    case Int | Int64 | Uint | Uint64 => 0x1_0000_0000_0000_0000
  }

  predicate IsSigned(k: IntKind)
  {
    k.Int? || k.Int8? || k.Int16? || k.Int32? || k.Int64?
  }

  /** v is a value of Go type k. */
  predicate InRange(k: IntKind, v: int)
  {
    if IsSigned(k) then -(Modulus(k) / 2) <= v < Modulus(k) / 2
    else 0 <= v < Modulus(k)
  }

  /** The largest magnitude a float64 holds exactly for every integer below it: 2^53. */
  const EXACT_FLOAT_LIMIT: nat := 0x20_0000_0000_0000

  /** Field kinds the setter distinguishes; any other kind is Unhandled. */
  datatype FieldKind = Integer(k: IntKind) | Float32 | Float64 | Bool | String | Unhandled

  /** A field's contents. FloatNear(n) is the floating-point value nearest to n
      (what SetFloat(float64(n)) stores); Opaque stands for any value the
      setter cannot produce. */
  datatype Value = Whole(n: int) | FloatNear(n: int) | Flag(b: bool) | Text(s: string) | Opaque(tag: nat)

  /** exported is reflect's CanSet: unexported fields are never written. */
  datatype Field = Field(kind: FieldKind, exported: bool, value: Value)

  /** A dynamically typed source value (`interface{}`) of integer, bool or string type. */
  datatype Source = IntSource(kind: IntKind, v: int) | BoolSource(b: bool) | StringSource(s: string)

  /** The current setter also handles bool, string and float fields; the
      earlier one only integer fields. */
  datatype Variant = Current | Legacy

  predicate IsUnsignedField(f: Field)
  {
    f.kind.Integer? && !IsSigned(f.kind.k)
  }

  /** What the setter needs of a source for a field: a value of its own Go type
      and, on the unsigned path that goes through float64, one float64 holds
      exactly. */
  predicate Settable(f: Field, src: Source)
  {
    (src.IntSource? ==> InRange(src.kind, src.v)) &&
    (src.IntSource? && IsUnsignedField(f) ==> Abs(src.v) <= EXACT_FLOAT_LIMIT)
  }

  /** The field holds a value of its kind. */
  predicate WellTyped(f: Field)
  {
    match f.kind
    case Integer(k) => f.value.Whole? && InRange(k, f.value.n)
    case Float32 | Float64 => f.value.FloatNear? || f.value.Opaque?
    case Bool => f.value.Flag?
    case String => f.value.Text?
    case Unhandled => f.value.Opaque?
  }

  /** Two's-complement truncation of v modulo m (a Go conversion to a signed
      integer type with m values). */
  function SignedWrap(v: int, m: nat): (r: int)
    requires m >= 2 && m % 2 == 0
    ensures -(m / 2) <= r < m / 2
    ensures (r - v) % m == 0
  {
    var h := m / 2;
    var t := (v + h) % m;
    var res := t - h;
    assert res - v == m * (-((v + h) / m));
    ModUnique(res - v, m, -((v + h) / m), 0);
    res
  }

  const MOD64: nat := 0x1_0000_0000_0000_0000

  /** The value SetInt stores: int64(v) first, then the field's width. */
  function SignedStore(src: IntKind, v: int, field: IntKind): int
  {
    SignedWrap(if src.Uint? || src.Uint64? then SignedWrap(v, MOD64) else v, Modulus(field))
  }

  /** setUint / setInt / setFloat / setBool / setString for one field. */
  function SetField(variant: Variant, f: Field, src: Source): (r: Field)
    requires Settable(f, src)
    ensures r.kind == f.kind && r.exported == f.exported
  {
    if !f.exported then f
    else match f.kind
      case Integer(k) =>
        if !src.IntSource? then f
        else if !IsSigned(k) then
          f.(value := Whole(Abs(src.v) % Modulus(k)))
        else if src.kind.Int64? then f
        else
          f.(value := Whole(SignedStore(src.kind, src.v, k)))
      case Float32 | Float64 =>
        if variant.Current? && src.IntSource? then f.(value := FloatNear(src.v)) else f
      case Bool =>
        if variant.Current? && src.BoolSource? then f.(value := Flag(src.b)) else f
      case String =>
        if variant.Current? && src.StringSource? then f.(value := Text(src.s)) else f
      case Unhandled => f
  }

  /** SetStructProperties over a whole record: each key writes its own field. */
  function Applied(variant: Variant, fields: map<string, Field>, srcMap: map<string, Source>): (r: map<string, Field>)
    requires forall k :: k in srcMap && k in fields ==> Settable(fields[k], srcMap[k])
    ensures r.Keys == fields.Keys
    ensures forall k :: k in fields && k !in srcMap ==> r[k] == fields[k]
  {
    map k | k in fields :: if k in srcMap then SetField(variant, fields[k], srcMap[k]) else fields[k]
  }

  /** The destination struct, updated in place. */
  class Record {
    var fields: map<string, Field>

    constructor (initial: map<string, Field>)
      ensures fields == initial
    {
      fields := initial;
    }

    /** setStructPropertyByNamne: FieldByName, then IsValid and CanSet, then
        the setter for the field's kind. */
    method SetStructPropertyByName(variant: Variant, name: string, value: Source)
      requires name in fields ==> Settable(fields[name], value)
      modifies this
      ensures name in old(fields) ==> fields == old(fields)[name := SetField(variant, old(fields)[name], value)]
      ensures name !in old(fields) ==> fields == old(fields)
    {
      if name in fields {
        var f := SetField(variant, fields[name], value);
        fields := fields[name := f];
      }
    }

    /** SetStructProperties: one write per key of srcMap, in Go's map order. */
    method SetStructProperties(variant: Variant, srcMap: map<string, Source>)
      requires forall k :: k in srcMap && k in fields ==> Settable(fields[k], srcMap[k])
      modifies this
      ensures fields == Applied(variant, old(fields), srcMap)
    {
      var todo := srcMap.Keys;
      while todo != {}
        invariant todo <= srcMap.Keys
        invariant fields.Keys == old(fields).Keys
        invariant forall k :: k in fields ==>
          fields[k] == if k in srcMap && k !in todo then SetField(variant, old(fields)[k], srcMap[k]) else old(fields)[k]
        decreases |todo|
      {
        var key :| key in todo;
        SetStructPropertyByName(variant, key, srcMap[key]);
        todo := todo - {key};
      }
    }
  }

  // ---------------------------------------------------------------------
  // Properties.

  /** A field changes only if a key names it exactly and it is exported. */
  lemma OnlyNamedExportedFieldsChange(variant: Variant, fields: map<string, Field>, srcMap: map<string, Source>, k: string)
    requires forall j :: j in srcMap && j in fields ==> Settable(fields[j], srcMap[j])
    requires k in fields
    requires Applied(variant, fields, srcMap)[k] != fields[k]
    ensures k in srcMap && fields[k].exported
  {
  }

  lemma {:induction false} ModAddMultiple(a: int, m: int, q: int)
    requires m > 0
    ensures (a + m * q) % m == a % m
  {
    ModUnique(a + m * q, m, a / m + q, a % m);
  }

  /** SignedWrap depends only on v modulo m. */
  lemma SignedWrapCongruent(v: int, u: int, m: nat)
    requires m >= 2 && m % 2 == 0
    requires (u - v) % m == 0
    ensures SignedWrap(u, m) == SignedWrap(v, m)
  {
    var h := m / 2;
    var q := (u - v) / m;
    assert u - v == m * q;
    ModAddMultiple(v + h, m, q);
    assert u + h == (v + h) + m * q;
  }

  /** A multiple of a * b is a multiple of a. */
  lemma DividesFactor(x: int, a: int, b: int)
    requires a > 0 && b > 0 && x % (a * b) == 0
    ensures x % a == 0
  {
    var q := x / (a * b);
    assert x == (a * b) * q;
    assert x == a * (b * q);
    ModUnique(x, a, b * q, 0);
  }

  /** A value already in range is stored unchanged. */
  lemma SignedWrapIdentity(v: int, m: nat)
    requires m >= 2 && m % 2 == 0
    requires -(m / 2) <= v < m / 2
    ensures SignedWrap(v, m) == v
  {
    ModUnique(v + m / 2, m, 0, v + m / 2);
  }

  /** Going through int64 first does not change the final truncation. */
  lemma SignedStoreIsWrap(src: IntKind, v: int, field: IntKind)
    ensures SignedStore(src, v, field) == SignedWrap(v, Modulus(field))
  {
    if src.Uint? || src.Uint64? {
      var t := SignedWrap(v, MOD64);
      var m := Modulus(field);
      assert MOD64 == m * (MOD64 / m);
      DividesFactor(t - v, m, MOD64 / m);
      SignedWrapCongruent(v, t, m);
    }
  }

  /** Unsigned fields store the magnitude, wrapped to the width; so do signed
      fields for every source kind but int64, which leaves them unchanged. */
  lemma IntegerFieldSemantics(variant: Variant, f: Field, src: Source)
    requires Settable(f, src) && f.exported && f.kind.Integer? && src.IntSource?
    ensures IsUnsignedField(f) ==>
      SetField(variant, f, src).value == Whole(Abs(src.v) % Modulus(f.kind.k))
    ensures !IsUnsignedField(f) && src.kind.Int64? ==> SetField(variant, f, src) == f
    ensures !IsUnsignedField(f) && !src.kind.Int64? ==>
      SetField(variant, f, src).value == Whole(SignedWrap(src.v, Modulus(f.kind.k)))
  {
    SignedStoreIsWrap(src.kind, src.v, f.kind.k);
  }

  /** Every write leaves the field holding a value of its kind. */
  lemma SetFieldWellTyped(variant: Variant, f: Field, src: Source)
    requires Settable(f, src) && WellTyped(f)
    ensures WellTyped(SetField(variant, f, src))
  {
  }

  /** Bool and string sources never change a numeric field. */
  lemma NonNumericSourceKeepsNumbers(variant: Variant, f: Field, src: Source)
    requires Settable(f, src)
    requires f.kind.Integer? || f.kind.Float32? || f.kind.Float64?
    requires !src.IntSource?
    ensures SetField(variant, f, src) == f
  {
  }

  /** A bool field takes only a bool and a string field only a string. */
  lemma BoolAndStringNeedTheirType(variant: Variant, f: Field, src: Source)
    requires Settable(f, src)
    requires SetField(variant, f, src) != f
    ensures f.kind.Bool? ==> src.BoolSource? && variant.Current?
    ensures f.kind.String? ==> src.StringSource? && variant.Current?
  {
  }

  /** The earlier setter writes only integer fields. */
  lemma LegacyWritesOnlyIntegers(f: Field, src: Source)
    requires Settable(f, src)
    requires !f.kind.Integer?
    ensures SetField(Legacy, f, src) == f
  {
  }

  /** Both setters agree on integer fields. */
  lemma VariantsAgreeOnIntegers(f: Field, src: Source)
    requires Settable(f, src)
    requires f.kind.Integer?
    ensures SetField(Legacy, f, src) == SetField(Current, f, src)
  {
  }

  /** -5 into a uint16 is 5, and both 300 and -300 into a uint8 are 44:
      magnitude, then width. */
  lemma UnsignedTruncationExamples()
    ensures SetField(Current, Field(Integer(Uint16), true, Whole(0)), IntSource(Int, -5)).value == Whole(5)
    ensures SetField(Current, Field(Integer(Uint8), true, Whole(0)), IntSource(Int, -300)).value == Whole(44)
    ensures SetField(Current, Field(Integer(Uint8), true, Whole(0)), IntSource(Int, 300)).value == Whole(44)
  {
  }

  /** The uint64 2^63 into an int64 is -2^63. */
  lemma Uint64WrapsIntoInt64()
    ensures SetField(Current, Field(Integer(Int64), true, Whole(0)), IntSource(Uint64, 0x8000_0000_0000_0000)).value
      == Whole(-0x8000_0000_0000_0000)
  {
    SignedStoreIsWrap(Uint64, 0x8000_0000_0000_0000, Int64);
    ModUnique(0x8000_0000_0000_0000 + 0x8000_0000_0000_0000, 0x1_0000_0000_0000_0000, 1, 0);
  }

  /** 200 into an int8 is -56; an int64 source leaves an int32 field as it was. */
  lemma SignedTruncationExamples()
    ensures SetField(Current, Field(Integer(Int8), true, Whole(0)), IntSource(Int, 200)).value == Whole(-56)
    ensures SetField(Current, Field(Integer(Int32), true, Whole(7)), IntSource(Int64, 1)).value == Whole(7)
  {
    ModUnique(200 + 128, 256, 1, 72);
  }

  /** Because every key writes only its own field, applying a map is the same
      as applying its entries one at a time in any order. */
  lemma AppliedSplits(variant: Variant, fields: map<string, Field>, a: map<string, Source>, b: map<string, Source>)
    requires a.Keys !! b.Keys
    requires forall k :: k in a && k in fields ==> Settable(fields[k], a[k])
    requires forall k :: k in b && k in fields ==> Settable(fields[k], b[k])
    ensures var ab := a + b;
      (forall k :: k in ab && k in fields ==> Settable(fields[k], ab[k])) &&
      Applied(variant, fields, ab) == Applied(variant, Applied(variant, fields, a), b)
      && Applied(variant, fields, ab) == Applied(variant, Applied(variant, fields, b), a)
  {
    var ab := a + b;
    var fa := Applied(variant, fields, a);
    var fb := Applied(variant, fields, b);
    assert forall k :: k in b && k in fa ==> fa[k] == fields[k];
    assert forall k :: k in a && k in fb ==> fb[k] == fields[k];
  }
}
