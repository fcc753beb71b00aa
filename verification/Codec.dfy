/**
 * The reflection codec (components/utils/encoding.go). A Go type is a Schema and a Go value a Value;
 * decoding is into a fresh, settable target.
 */
module Codec {
  import opened Words
  import opened Varint

  datatype Width = W8 | W16 | W32 | W64

  function Modulus(w: Width): (m: int)
    ensures m >= 256 && m % 2 == 0
  {
    match w
    case W8 => 0x100
    case W16 => 0x1_0000
    case W32 => TWO_32
    case W64 => TWO_64
  }

  datatype Schema =
    | Uint(width: Width)
    | Int(width: Width)
    | Bool
    | Text
    | ByteSlice
    | ByteArray(size: nat)
    | Slice(elem: Schema)
    | Struct(fields: seq<Schema>)
    | Ptr(elem: Schema)
    | BigInt

  datatype Value =
    | Num(n: int)
    | Flag(b: bool)
    | Raw(bytes: Bytes)
    | Items(items: seq<Value>)
    | Null
    | Ref(target: Value)
    | Big(value: int)

  /** Slices of uint8 are ByteSlice and lengths are Go ints. */
  ghost predicate HasType(s: Schema, v: Value)
    decreases s, 0
  {
    match s
    case Uint(w) => v.Num? && 0 <= v.n < Modulus(w)
    case Int(w) => v.Num? && -Modulus(w) / 2 <= v.n < Modulus(w) / 2
    case Bool => v.Flag?
    case Text => v.Raw? && |v.bytes| < TWO_63
    case ByteSlice => v.Raw? && |v.bytes| < TWO_63
    case ByteArray(size) => v.Raw? && |v.bytes| == size < TWO_63
    case Slice(elem) =>
      elem != Uint(W8) && v.Items? && |v.items| < TWO_63 && HaveType(elem, v.items)
    case Struct(fields) => v.Items? && FieldsHaveType(fields, v.items)
    case Ptr(elem) => v == Null || (v.Ref? && HasType(elem, v.target))
    case BigInt => v == Null || (v.Big? && |Magnitude(Abs(v.value))| < TWO_63)
  }

  ghost predicate HaveType(elem: Schema, vs: seq<Value>)
    decreases elem, |vs| + 1
  {
    vs == [] || (HasType(elem, vs[0]) && HaveType(elem, vs[1..]))
  }

  ghost predicate FieldsHaveType(fields: seq<Schema>, vs: seq<Value>)
    decreases fields, 0
  {
    && |fields| == |vs|
    && (fields == [] || (HasType(fields[0], vs[0]) && FieldsHaveType(fields[1..], vs[1..])))
  }

  function Abs(x: int): nat { if x < 0 then -x else x }

  /** big.Int.Bytes: the base-256 digits, highest first, without leading zeros. */
  function Magnitude(n: nat): Bytes {
    if n == 0 then [] else Magnitude(n / 256) + [n % 256]
  }

  /** big.Int.SetBytes. */
  function FromMagnitude(b: Bytes): nat {
    if b == [] then 0 else 256 * FromMagnitude(b[..|b| - 1]) + b[|b| - 1]
  }

  lemma {:induction false} MagnitudeInverse(n: nat)
    ensures FromMagnitude(Magnitude(n)) == n
  {
    if n > 0 {
      MagnitudeInverse(n / 256);
      assert Magnitude(n)[..|Magnitude(n)| - 1] == Magnitude(n / 256);
    }
  }

  // ---- Encoding ----

  /** recursiveEncode, ptrEncode, sliceEncode and arrayEncode. */
  ghost function Encode(s: Schema, v: Value): Bytes
    requires HasType(s, v)
    decreases s, 0
  {
    match s
    case Uint(_) => VarInt(v.n)
    case Int(_) => VarInt(if v.n < 0 then v.n + TWO_64 else v.n)
    case Bool => [if v.b then 1 else 0]
    case Text => VarInt(|v.bytes|) + v.bytes
    case ByteSlice => VarInt(|v.bytes|) + v.bytes
    case ByteArray(_) => VarInt(|v.bytes|) + v.bytes
    case Slice(elem) => VarInt(|v.items|) + EncodeItems(elem, v.items)
    case Struct(fields) => EncodeFields(fields, v.items)
    case Ptr(elem) => if v == Null then VarInt(0) else Encode(elem, v.target)
    case BigInt => if v == Null then VarInt(0) else VarInt(|Magnitude(Abs(v.value))|) + Magnitude(Abs(v.value))
  }

  ghost function EncodeItems(elem: Schema, vs: seq<Value>): Bytes
    requires HaveType(elem, vs)
    decreases elem, |vs| + 1
  {
    if vs == [] then [] else Encode(elem, vs[0]) + EncodeItems(elem, vs[1..])
  }

  ghost function EncodeFields(fields: seq<Schema>, vs: seq<Value>): Bytes
    requires FieldsHaveType(fields, vs)
    decreases fields, 0
  {
    if fields == [] then [] else Encode(fields[0], vs[0]) + EncodeFields(fields[1..], vs[1..])
  }

  // ---- The bytes written ----

  function Concat(parts: seq<Bytes>): Bytes {
    if parts == [] then [] else parts[0] + Concat(parts[1..])
  }

  /** A length and then these bytes. */
  predicate CountedBytes(b: Bytes, out: Bytes) {
    |b| <= |out| && NumberBytes(|b|, out[..|out| - |b|]) && out[|out| - |b|..] == b
  }

  /** The base-256 digits of n, highest first, without leading zeros. */
  ghost predicate BigEndianDigits(n: nat, b: Bytes) {
    && n < Pow256(|b|) && (b != [] ==> b[0] != 0)
    && forall k | 0 <= k < |b| :: b[k] == n / Pow256(|b| - 1 - k) % 256
  }

  /** `out` is what the format puts down for v: numbers digit by digit, a flag as 1 or 0, bytes behind their length, the
      elements of a slice behind their number, the fields of a struct and the target of a pointer as they are, the
      digits of the absolute value of a big integer behind their length, and a zero for nil. */
  ghost predicate Laid(s: Schema, v: Value, out: Bytes)
    decreases s
  {
    match s
    case Uint(_) => v.Num? && NumberBytes(v.n, out)
    case Int(_) => v.Num? && NumberBytes(if v.n < 0 then TWO_64 + v.n else v.n, out)
    case Bool => v.Flag? && out == [if v.b then 1 else 0]
    case Text => v.Raw? && CountedBytes(v.bytes, out)
    case ByteSlice => v.Raw? && CountedBytes(v.bytes, out)
    case ByteArray(_) => v.Raw? && CountedBytes(v.bytes, out)
    case Slice(elem) =>
      v.Items? && exists head, parts ::
        && Joins(head, parts, out) && NumberBytes(|v.items|, head) && |parts| == |v.items|
        && forall k | 0 <= k < |parts| :: Laid(elem, v.items[k], parts[k])
    case Struct(fields) =>
      v.Items? && |v.items| == |fields| && exists parts ::
        && Joins([], parts, out) && |parts| == |fields|
        && forall k | 0 <= k < |parts| :: Laid(fields[k], v.items[k], parts[k])
    case Ptr(elem) => if v.Ref? then Laid(elem, v.target, out) else v == Null && out == [0]
    case BigInt => if v.Big? then exists b :: BigEndianDigits(Abs(v.value), b) && CountedBytes(b, out) else v == Null && out == [0]
  }

  ghost predicate Joins(head: Bytes, parts: seq<Bytes>, out: Bytes) {
    out == head + Concat(parts)
  }

  lemma CountedLaid(b: Bytes)
    requires |b| < TWO_64
    ensures CountedBytes(b, VarInt(|b|) + b)
  {
    VarIntBytes(|b|);
    var out := VarInt(|b|) + b;
    assert out[..|out| - |b|] == VarInt(|b|) && out[|out| - |b|..] == b;
  }

  lemma {:induction false} MagnitudeDigit(n: nat, k: nat)
    requires k < |Magnitude(n)|
    ensures Magnitude(n)[k] == n / Pow256(|Magnitude(n)| - 1 - k) % 256
    decreases n
  {
    var m := |Magnitude(n)|;
    if k == m - 1 {
      assert Pow256(0) == 1;
    } else {
      MagnitudeDigit(n / 256, k);
      DivideTwice(n, Pow256(m - 2 - k));
    }
  }

  lemma {:induction false} MagnitudeFirst(n: nat)
    ensures n < Pow256(|Magnitude(n)|)
    ensures n > 0 ==> Magnitude(n) != [] && Magnitude(n)[0] != 0
    decreases n
  {
    if n > 0 { MagnitudeFirst(n / 256); }
  }

  lemma MagnitudeLaid(n: nat)
    ensures BigEndianDigits(n, Magnitude(n))
  {
    MagnitudeFirst(n);
    forall k | 0 <= k < |Magnitude(n)| ensures Magnitude(n)[k] == n / Pow256(|Magnitude(n)| - 1 - k) % 256 {
      MagnitudeDigit(n, k);
    }
  }

  /** The encoder keeps to the format. */
  lemma {:induction false} EncodeLaid(s: Schema, v: Value)
    requires HasType(s, v)
    ensures Laid(s, v, Encode(s, v))
    decreases s, 0
  {
    match s
    case Uint(_) => VarIntBytes(v.n);
    case Int(_) => VarIntBytes(if v.n < 0 then v.n + TWO_64 else v.n);
    case Bool =>
    case Text => CountedLaid(v.bytes);
    case ByteSlice => CountedLaid(v.bytes);
    case ByteArray(_) => CountedLaid(v.bytes);
    case Slice(elem) =>
      VarIntBytes(|v.items|);
      var parts := ItemsLaid(elem, v.items);
      assert Joins(VarInt(|v.items|), parts, Encode(s, v));
    case Struct(fields) =>
      var parts := FieldsLaid(fields, v.items);
      assert [] + Concat(parts) == Concat(parts);
      assert Joins([], parts, Encode(s, v));
    case Ptr(elem) => if v != Null { EncodeLaid(elem, v.target); }
    case BigInt => if v != Null { MagnitudeLaid(Abs(v.value)); CountedLaid(Magnitude(Abs(v.value))); }
  }

  lemma {:induction false} ItemsLaid(elem: Schema, vs: seq<Value>) returns (parts: seq<Bytes>)
    requires HaveType(elem, vs)
    ensures |parts| == |vs| && Concat(parts) == EncodeItems(elem, vs)
    ensures forall k | 0 <= k < |parts| :: Laid(elem, vs[k], parts[k])
    decreases elem, |vs| + 1
  {
    parts := [];
    if vs != [] {
      EncodeLaid(elem, vs[0]);
      var rest := ItemsLaid(elem, vs[1..]);
      parts := [Encode(elem, vs[0])] + rest;
      assert parts[1..] == rest;
      forall k | 0 <= k < |parts| ensures Laid(elem, vs[k], parts[k]) {
        if k > 0 { assert vs[k] == vs[1..][k - 1] && parts[k] == rest[k - 1]; }
      }
    }
  }

  lemma {:induction false} FieldsLaid(fields: seq<Schema>, vs: seq<Value>) returns (parts: seq<Bytes>)
    requires FieldsHaveType(fields, vs)
    ensures |parts| == |fields| == |vs| && Concat(parts) == EncodeFields(fields, vs)
    ensures forall k | 0 <= k < |parts| :: Laid(fields[k], vs[k], parts[k])
    decreases fields, 0
  {
    parts := [];
    if fields != [] {
      EncodeLaid(fields[0], vs[0]);
      var rest := FieldsLaid(fields[1..], vs[1..]);
      parts := [Encode(fields[0], vs[0])] + rest;
      assert parts[1..] == rest;
      forall k | 0 <= k < |parts| ensures Laid(fields[k], vs[k], parts[k]) {
        if k > 0 { assert vs[k] == vs[1..][k - 1] && fields[k] == fields[1..][k - 1] && parts[k] == rest[k - 1]; }
      }
    }
  }

  lemma NumberUnique(n: int, a: Bytes, b: Bytes)
    requires NumberBytes(n, a) && NumberBytes(n, b)
    ensures a == b
  {
    if n >= TWO_32 { assert a[1..5] == b[1..5] && a[5..] == b[5..]; assert a == [a[0]] + a[1..5] + a[5..]; }
    if 0x1_0000 <= n < TWO_32 { assert a[1..] == b[1..]; assert a == [a[0]] + a[1..]; }
  }

  /** The format leaves no choice. */
  lemma {:induction false} LaidUnique(s: Schema, v: Value, a: Bytes, b: Bytes)
    requires Laid(s, v, a) && Laid(s, v, b)
    ensures a == b
    decreases s
  {
    match s
    case Uint(_) => NumberUnique(v.n, a, b);
    case Int(_) => NumberUnique(if v.n < 0 then TWO_64 + v.n else v.n, a, b);
    case Bool =>
    case Text => CountedUnique(v.bytes, a, b);
    case ByteSlice => CountedUnique(v.bytes, a, b);
    case ByteArray(_) => CountedUnique(v.bytes, a, b);
    case Slice(elem) =>
      var h, ps :| Joins(h, ps, a) && NumberBytes(|v.items|, h) && |ps| == |v.items|
                   && forall k | 0 <= k < |ps| :: Laid(elem, v.items[k], ps[k]);
      var g, qs :| Joins(g, qs, b) && NumberBytes(|v.items|, g) && |qs| == |v.items|
                   && forall k | 0 <= k < |qs| :: Laid(elem, v.items[k], qs[k]);
      NumberUnique(|v.items|, h, g);
      forall k | 0 <= k < |ps| ensures ps[k] == qs[k] { LaidUnique(elem, v.items[k], ps[k], qs[k]); }
      assert ps == qs;
    case Struct(fields) =>
      var ps :| Joins([], ps, a) && |ps| == |fields| && forall k | 0 <= k < |ps| :: Laid(fields[k], v.items[k], ps[k]);
      var qs :| Joins([], qs, b) && |qs| == |fields| && forall k | 0 <= k < |qs| :: Laid(fields[k], v.items[k], qs[k]);
      forall k | 0 <= k < |ps| ensures ps[k] == qs[k] { LaidUnique(fields[k], v.items[k], ps[k], qs[k]); }
      assert ps == qs;
    case Ptr(elem) => if v.Ref? { LaidUnique(elem, v.target, a, b); }
    case BigInt => if v.Big? { BigUnique(Abs(v.value), a, b); }
  }

  lemma {:induction false} PowersGrow(i: nat, j: nat)
    requires i <= j
    ensures Pow256(i) <= Pow256(j)
    decreases j
  {
    if i < j { PowersGrow(i, j - 1); }
  }

  lemma DigitsAtLeast(n: nat, b: Bytes)
    requires BigEndianDigits(n, b) && b != []
    ensures Pow256(|b| - 1) <= n
  {
    assert b[0] == n / Pow256(|b| - 1) % 256;
    if n < Pow256(|b| - 1) { Quotient(n, Pow256(|b| - 1), 0); }
  }

  lemma DigitsUnique(n: nat, a: Bytes, b: Bytes)
    requires BigEndianDigits(n, a) && BigEndianDigits(n, b) && |a| <= |b|
    ensures a == b
  {
    if |a| < |b| {
      DigitsAtLeast(n, b);
      PowersGrow(|a|, |b| - 1);
    }
  }

  lemma BigUnique(n: nat, a: Bytes, b: Bytes)
    requires exists m :: BigEndianDigits(n, m) && CountedBytes(m, a)
    requires exists m :: BigEndianDigits(n, m) && CountedBytes(m, b)
    ensures a == b
  {
    var x :| BigEndianDigits(n, x) && CountedBytes(x, a);
    var y :| BigEndianDigits(n, y) && CountedBytes(y, b);
    if |x| <= |y| { DigitsUnique(n, x, y); } else { DigitsUnique(n, y, x); }
    CountedUnique(x, a, b);
  }

  lemma CountedUnique(bytes: Bytes, a: Bytes, b: Bytes)
    requires CountedBytes(bytes, a) && CountedBytes(bytes, b)
    ensures a == b
  {
    var i, j := |a| - |bytes|, |b| - |bytes|;
    NumberUnique(|bytes|, a[..i], b[..j]);
    assert a == a[..i] + a[i..] && b == b[..j] + b[j..];
  }

  // ---- Decoding ----

  datatype Decoded = Decoded(value: Value, err: bool, rest: Bytes)

  datatype DecodedSeq = DecodedSeq(values: seq<Value>, err: bool, rest: Bytes)

  function Signed(w: Width, l: uint64): int {
    var r := l % Modulus(w);
    if r >= Modulus(w) / 2 then r - Modulus(w) else r
  }

  /** recursiveDecode, sliceDecode and ptrDecode: the value left in the target, whether an error is
      returned, and the unread bytes. */
  function Decode(s: Schema, data: Bytes): (r: Decoded)
    decreases s, 0
  {
    var l := ReadVarInt(data);
    match s
    case Uint(w) => Decoded(Num(l.value % Modulus(w)), l.err, l.rest)
    case Int(w) => Decoded(Num(Signed(w, l.value)), l.err, l.rest)
    case Bool => if data == [] then Decoded(Flag(false), true, []) else Decoded(Flag(data[0] == 1), false, data[1..])
    case Text =>
      if l.value == 0 then Decoded(Raw([]), l.err, l.rest)
      else var c := ReadFull(l.rest, l.value); Decoded(Raw(c.bytes), l.err, c.rest)
    case ByteSlice =>
      if l.value == 0 then Decoded(Raw([]), l.err, l.rest)
      else var c := ReadFull(l.rest, l.value); Decoded(Raw(if c.err then [] else c.bytes), c.err, c.rest)
    case ByteArray(size) =>
      if l.value == 0 || l.value != size then Decoded(Raw(Zeros(size)), true, l.rest)
      else var c := ReadFull(l.rest, size); Decoded(Raw(if c.err then Zeros(size) else c.bytes), c.err, c.rest)
    case Slice(elem) =>
      if l.value == 0 then Decoded(Items([]), l.err, l.rest)
      else var d := DecodeItems(elem, l.value, l.rest); Decoded(Items(d.values), d.err, d.rest)
    case Struct(fields) => var d := DecodeFields(fields, data); Decoded(Items(d.values), false, d.rest)
    case Ptr(elem) => var d := Decode(elem, data); Decoded(if d.err then Null else Ref(d.value), d.err, d.rest)
    case BigInt =>
      if l.value == 0 then Decoded(Big(0), l.err, l.rest)
      else var c := ReadFull(l.rest, l.value);
           Decoded(if c.err then Null else Big(FromMagnitude(c.bytes)), c.err, c.rest)
  }

  /** The elements of a slice; the error reported is the last element's. */
  function DecodeItems(elem: Schema, n: nat, data: Bytes): (r: DecodedSeq)
    ensures |r.values| == n
    decreases elem, n + 1
  {
    if n == 0 then DecodedSeq([], false, data)
    else
      var d := Decode(elem, data);
      var t := DecodeItems(elem, n - 1, d.rest);
      DecodedSeq([d.value] + t.values, if n == 1 then d.err else t.err, t.rest)
  }

  /** The fields of a struct; their errors are dropped. */
  function DecodeFields(fields: seq<Schema>, data: Bytes): (r: DecodedSeq)
    ensures |r.values| == |fields|
    decreases fields, 0
  {
    if fields == [] then DecodedSeq([], false, data)
    else
      var d := Decode(fields[0], data);
      var t := DecodeFields(fields[1..], d.rest);
      DecodedSeq([d.value] + t.values, false, t.rest)
  }

  // ---- Which values survive ----

  /** A nil pointer to this type decodes as nil: the zero length that stands for it makes decoding the
      pointed-to value fail. */
  predicate NilSurvives(elem: Schema) {
    elem.ByteArray? || (elem.Ptr? && NilSurvives(elem.elem))
  }

  /** Decoding the encoding of v reports an error although nothing is wrong with it. */
  ghost predicate Complains(s: Schema, v: Value)
    requires HasType(s, v)
    decreases s, 0
  {
    match s
    case ByteArray(size) => size == 0
    case Slice(elem) => LastComplains(elem, v.items)
    case Ptr(elem) => v == Null || Complains(elem, v.target)
    case _ => false
  }

  ghost predicate LastComplains(elem: Schema, vs: seq<Value>)
    requires HaveType(elem, vs)
    decreases elem, |vs| + 1
  {
    if |vs| <= 1 then vs != [] && Complains(elem, vs[0]) else LastComplains(elem, vs[1..])
  }

  /** Big integers are present and not negative, a nil pointer points to a type it survives for, and what
      a pointer points to decodes without complaint. */
  ghost predicate Canonical(s: Schema, v: Value)
    requires HasType(s, v)
    decreases s, 0
  {
    match s
    case Slice(elem) => AllCanonical(elem, v.items)
    case Struct(fields) => FieldsCanonical(fields, v.items)
    case Ptr(elem) => if v == Null then NilSurvives(elem) else Canonical(elem, v.target) && !Complains(elem, v.target)
    case BigInt => v != Null && v.value >= 0
    case _ => true
  }

  ghost predicate AllCanonical(elem: Schema, vs: seq<Value>)
    requires HaveType(elem, vs)
    decreases elem, |vs| + 1
  {
    vs == [] || (Canonical(elem, vs[0]) && AllCanonical(elem, vs[1..]))
  }

  ghost predicate FieldsCanonical(fields: seq<Schema>, vs: seq<Value>)
    requires FieldsHaveType(fields, vs)
    decreases fields, 0
  {
    fields == [] || (Canonical(fields[0], vs[0]) && FieldsCanonical(fields[1..], vs[1..]))
  }

  lemma {:induction false} NilRead(elem: Schema, rest: Bytes)
    ensures Decode(elem, VarInt(0) + rest).err == NilSurvives(elem)
    ensures NilSurvives(elem) ==> Decode(elem, VarInt(0) + rest).rest == rest
  {
    VarIntInverse(0, rest);
    if elem.Ptr? { NilRead(elem.elem, rest); }
  }

  lemma PrefixRead(bytes: Bytes, rest: Bytes)
    requires |bytes| < TWO_64
    ensures var l := ReadVarInt(VarInt(|bytes|) + bytes + rest);
            l == Read(|bytes|, false, bytes + rest) && ReadFull(l.rest, l.value) == Chunk(bytes, false, rest)
  {
    assert VarInt(|bytes|) + bytes + rest == VarInt(|bytes|) + (bytes + rest);
    VarIntInverse(|bytes|, bytes + rest);
    assert (bytes + rest)[..|bytes|] == bytes && (bytes + rest)[|bytes|..] == rest;
  }

  /** The decoder meets what it should: the canonical values, and only they, come back, with the bytes
      behind them untouched. */
  ghost predicate Meets(d: Decoded, v: Value, canonical: bool, complains: bool, rest: Bytes) {
    && (d.value == v <==> canonical)
    && (canonical ==> d.rest == rest && d.err == complains)
  }

  lemma SignedInverse(w: Width, n: int)
    requires -Modulus(w) / 2 <= n < Modulus(w) / 2
    ensures Signed(w, if n < 0 then n + TWO_64 else n) == n
  {
    var m := Modulus(w);
    if n < 0 {
      assert TWO_64 == match w case W8 => 0x100_0000_0000_0000 * m case W16 => 0x1_0000_0000_0000 * m
                               case W32 => TWO_32 * m case W64 => m;
      assert (n + TWO_64) % m == n + m;
    }
  }

  lemma NumberRoundTrip(s: Schema, v: Value, rest: Bytes)
    requires HasType(s, v) && (s.Uint? || s.Int?)
    ensures Decode(s, Encode(s, v) + rest) == Decoded(v, false, rest)
  {
    VarIntInverse(if v.n < 0 then v.n + TWO_64 else v.n, rest);
    if s.Int? { SignedInverse(s.width, v.n); } else { UnsignedInverse(s.width, v.n); }
  }

  lemma UnsignedInverse(w: Width, n: nat)
    requires n < Modulus(w)
    ensures n % Modulus(w) == n
  {
  }

  lemma BytesRoundTrip(s: Schema, v: Value, rest: Bytes)
    requires HasType(s, v) && (s.Text? || s.ByteSlice? || s.ByteArray?)
    ensures Decode(s, Encode(s, v) + rest) == Decoded(v, Complains(s, v), rest)
  {
    PrefixRead(v.bytes, rest);
    assert |v.bytes| == 0 ==> v.bytes == Zeros(0) == [];
  }

  lemma BigRoundTrip(v: Value, rest: Bytes)
    requires HasType(BigInt, v)
    ensures Decode(BigInt, Encode(BigInt, v) + rest)
         == Decoded(Big(if v == Null then 0 else Abs(v.value)), false, rest)
  {
    if v == Null {
      VarIntInverse(0, rest);
    } else {
      PrefixRead(Magnitude(Abs(v.value)), rest);
      MagnitudeInverse(Abs(v.value));
    }
  }

  lemma Regroup<T>(a: seq<T>, b: seq<T>, c: seq<T>)
    ensures a + b + c == a + (b + c)
  {
  }

  lemma SliceRead(elem: Schema, v: Value, rest: Bytes)
    requires HasType(Slice(elem), v)
    ensures var tail := EncodeItems(elem, v.items) + rest;
            var d := DecodeItems(elem, |v.items|, tail);
            Decode(Slice(elem), Encode(Slice(elem), v) + rest)
            == if v.items == [] then Decoded(Items([]), false, rest) else Decoded(Items(d.values), d.err, d.rest)
  {
    var tail := EncodeItems(elem, v.items) + rest;
    assert VarInt(|v.items|) + EncodeItems(elem, v.items) + rest == VarInt(|v.items|) + tail;
    VarIntInverse(|v.items|, tail);
    assert v.items == [] ==> tail == rest;
  }

  /** One element in front of a sequence: if it does not survive, neither does the sequence. */
  lemma MeetsCons(d: Decoded, t: DecodedSeq, v: Value, vs: seq<Value>,
                  first: bool, others: bool, err: bool, complains: bool, rest: Bytes)
    requires |t.values| == |vs| && (d.value == v <==> first)
    requires first ==> Meets(Decoded(Items(t.values), err, t.rest), Items(vs), others, complains, rest)
    ensures Meets(Decoded(Items([d.value] + t.values), err, t.rest), Items([v] + vs), first && others, complains, rest)
  {
    assert ([d.value] + t.values)[0] == d.value && ([v] + vs)[0] == v;
    assert ([d.value] + t.values)[1..] == t.values && ([v] + vs)[1..] == vs;
  }

  lemma {:induction false} RoundTrip(s: Schema, v: Value, rest: Bytes)
    requires HasType(s, v)
    ensures Meets(Decode(s, Encode(s, v) + rest), v, Canonical(s, v), Complains(s, v), rest)
    decreases s, 0
  {
    match s
    case Slice(elem) => ItemsRoundTrip(elem, v.items, rest); SliceRead(elem, v, rest);
    case Struct(fields) => FieldsRoundTrip(fields, v.items, rest);
    case Ptr(elem) =>
      if v == Null { NilRead(elem, rest); } else { RoundTrip(elem, v.target, rest); }
    case BigInt => BigRoundTrip(v, rest);
    case Text => BytesRoundTrip(s, v, rest);
    case ByteSlice => BytesRoundTrip(s, v, rest);
    case ByteArray(_) => BytesRoundTrip(s, v, rest);
    case Bool => assert (Encode(s, v) + rest)[1..] == rest;
    case Uint(_) => NumberRoundTrip(s, v, rest);
    case Int(_) => NumberRoundTrip(s, v, rest);
  }

  lemma ItemsRead(elem: Schema, vs: seq<Value>, rest: Bytes)
    requires vs != [] && HaveType(elem, vs)
    ensures var d := Decode(elem, Encode(elem, vs[0]) + (EncodeItems(elem, vs[1..]) + rest));
            var t := DecodeItems(elem, |vs| - 1, d.rest);
            DecodeItems(elem, |vs|, EncodeItems(elem, vs) + rest)
            == DecodedSeq([d.value] + t.values, if |vs| == 1 then d.err else t.err, t.rest)
  {
    Regroup(Encode(elem, vs[0]), EncodeItems(elem, vs[1..]), rest);
  }

  /** What is decoded from the encoded elements. */
  ghost predicate ItemsMeet(elem: Schema, vs: seq<Value>, d: DecodedSeq, rest: Bytes)
    requires HaveType(elem, vs)
  {
    Meets(Decoded(Items(d.values), d.err, d.rest), Items(vs), AllCanonical(elem, vs), LastComplains(elem, vs), rest)
  }

  lemma {:induction false} ItemsRoundTrip(elem: Schema, vs: seq<Value>, rest: Bytes)
    requires HaveType(elem, vs)
    ensures ItemsMeet(elem, vs, DecodeItems(elem, |vs|, EncodeItems(elem, vs) + rest), rest)
    decreases elem, |vs| + 1
  {
    if vs == [] {
      NoItems(elem, rest);
    } else {
      var vs' := vs[1..];
      RoundTrip(elem, vs[0], EncodeItems(elem, vs') + rest);
      ItemsRoundTrip(elem, vs', rest);
      ItemsNext(elem, vs, rest);
    }
  }

  lemma NoItems(elem: Schema, rest: Bytes)
    ensures ItemsMeet(elem, [], DecodeItems(elem, 0, EncodeItems(elem, []) + rest), rest)
  {
    assert EncodeItems(elem, []) + rest == rest;
  }

  lemma ItemsNext(elem: Schema, vs: seq<Value>, rest: Bytes)
    requires vs != [] && HaveType(elem, vs)
    requires var tail := EncodeItems(elem, vs[1..]) + rest;
             && Meets(Decode(elem, Encode(elem, vs[0]) + tail), vs[0], Canonical(elem, vs[0]), Complains(elem, vs[0]), tail)
             && ItemsMeet(elem, vs[1..], DecodeItems(elem, |vs| - 1, tail), rest)
    ensures ItemsMeet(elem, vs, DecodeItems(elem, |vs|, EncodeItems(elem, vs) + rest), rest)
  {
    var tail := EncodeItems(elem, vs[1..]) + rest;
    ItemsRead(elem, vs, rest);
    var d := Decode(elem, Encode(elem, vs[0]) + tail);
    ItemsStep(elem, vs, d, DecodeItems(elem, |vs| - 1, d.rest), tail, rest);
  }

  lemma ItemsStep(elem: Schema, vs: seq<Value>, d: Decoded, t: DecodedSeq, tail: Bytes, rest: Bytes)
    requires vs != [] && HaveType(elem, vs) && |t.values| == |vs| - 1
    requires Meets(d, vs[0], Canonical(elem, vs[0]), Complains(elem, vs[0]), tail)
    requires d.rest == tail ==> Meets(Decoded(Items(t.values), t.err, t.rest), Items(vs[1..]),
                                      AllCanonical(elem, vs[1..]), LastComplains(elem, vs[1..]), rest)
    ensures Meets(Decoded(Items([d.value] + t.values), if |vs| == 1 then d.err else t.err, t.rest), Items(vs),
                  AllCanonical(elem, vs), LastComplains(elem, vs), rest)
  {
    var first, others := Canonical(elem, vs[0]), AllCanonical(elem, vs[1..]);
    assert vs == [vs[0]] + vs[1..];
    if |vs| == 1 {
      MeetsCons(d, t, vs[0], vs[1..], first, others, d.err, Complains(elem, vs[0]), rest);
    } else {
      MeetsCons(d, t, vs[0], vs[1..], first, others, t.err, LastComplains(elem, vs[1..]), rest);
    }
  }

  lemma {:induction false} FieldsRoundTrip(fields: seq<Schema>, vs: seq<Value>, rest: Bytes)
    requires FieldsHaveType(fields, vs)
    ensures var d := DecodeFields(fields, EncodeFields(fields, vs) + rest);
            Meets(Decoded(Items(d.values), false, d.rest), Items(vs),
                  FieldsCanonical(fields, vs), false, rest)
    decreases fields, 0
  {
    if fields == [] {
      assert EncodeFields(fields, vs) + rest == rest;
    } else {
      var tail := EncodeFields(fields[1..], vs[1..]) + rest;
      assert EncodeFields(fields, vs) + rest == Encode(fields[0], vs[0]) + tail;
      RoundTrip(fields[0], vs[0], tail);
      FieldsRoundTrip(fields[1..], vs[1..], rest);
      var d := Decode(fields[0], Encode(fields[0], vs[0]) + tail);
      var t := DecodeFields(fields[1..], d.rest);
      assert vs == [vs[0]] + vs[1..];
      MeetsCons(d, t, vs[0], vs[1..], Canonical(fields[0], vs[0]), FieldsCanonical(fields[1..], vs[1..]),
                false, false, rest);
    }
  }

  /** The encodings of one type are prefix-free, hence injective. */
  lemma PrefixFree(s: Schema, v: Value, w: Value, a: Bytes, b: Bytes)
    requires HasType(s, v) && HasType(s, w) && Canonical(s, v) && Canonical(s, w)
    requires Encode(s, v) + a == Encode(s, w) + b
    ensures v == w && a == b
  {
    RoundTrip(s, v, a);
    RoundTrip(s, w, b);
  }

  /** A nil string pointer comes back as a pointer to the empty string. */
  lemma NilTextLost(rest: Bytes)
    ensures Decode(Ptr(Text), Encode(Ptr(Text), Null) + rest) == Decoded(Ref(Raw([])), false, rest)
  {
    VarIntInverse(0, rest);
    assert Decode(Text, VarInt(0) + rest) == Decoded(Raw([]), false, rest);
  }

  /** What is left of a length and its bytes after the first k bytes. */
  lemma CutCounted(bytes: Bytes, k: nat)
    requires |bytes| < TWO_64 && k < |VarInt(|bytes|)| + |bytes|
    ensures var h := |VarInt(|bytes|)|;
            var l := ReadVarInt((VarInt(|bytes|) + bytes)[..k]);
            if k < h then l.err && l.rest == [] else l == Read(|bytes|, false, bytes[..k - h])
  {
    var h := |VarInt(|bytes|)|;
    if k < h {
      assert (VarInt(|bytes|) + bytes)[..k] == VarInt(|bytes|)[..k];
      VarIntCut(|bytes|, k);
    } else {
      assert (VarInt(|bytes|) + bytes)[..k] == VarInt(|bytes|) + bytes[..k - h];
      VarIntInverse(|bytes|, bytes[..k - h]);
    }
  }

  /** An encoding that is cut off is noticed for numbers, flags, bytes and big integers; a text is filled up with zeros in
      silence once its length has been read. */
  lemma CutOff(s: Schema, v: Value, k: nat)
    requires HasType(s, v) && k < |Encode(s, v)| && !s.Slice? && !s.Struct? && !s.Ptr?
    ensures var d := Decode(s, Encode(s, v)[..k]);
            && d.rest == [] && (!s.Text? ==> d.err)
            && (s.ByteSlice? ==> d.value == Raw([])) && (s.ByteArray? ==> d.value == Raw(Zeros(s.size)))
            && (s.Text? ==> var h := |VarInt(|v.bytes|)|;
                            if k < h then d.err
                            else d.value == Raw(v.bytes[..k - h] + Zeros(|v.bytes| - (k - h))) && !d.err)
  {
    match s
    case Uint(_) => VarIntCut(v.n, k);
    case Int(_) => VarIntCut(if v.n < 0 then v.n + TWO_64 else v.n, k);
    case Bool =>
    case Text => CutCounted(v.bytes, k);
    case ByteSlice => CutCounted(v.bytes, k);
    case ByteArray(_) => CutCounted(v.bytes, k);
    case BigInt => if v == Null { VarIntCut(0, k); } else { CutCounted(Magnitude(Abs(v.value)), k); }
  }

  /** A byte array refuses every other length and leaves what follows. */
  lemma OtherLength(size: nat, n: uint64, rest: Bytes)
    requires n != size
    ensures Decode(ByteArray(size), VarInt(n) + rest) == Decoded(Raw(Zeros(size)), true, rest)
  {
    VarIntInverse(n, rest);
  }

  /** No pointers and no big integers anywhere. */
  ghost predicate Plain(s: Schema) {
    match s
    case Slice(elem) => Plain(elem)
    case Struct(fields) => forall f <- fields :: Plain(f)
    case Ptr(_) => false
    case BigInt => false
    case _ => true
  }

  /** Every value of a plain type survives. */
  lemma {:induction false} PlainCanonical(s: Schema, v: Value)
    requires Plain(s) && HasType(s, v)
    ensures Canonical(s, v)
    decreases s, 0
  {
    if s.Slice? { PlainItems(s.elem, v.items); }
    if s.Struct? { PlainFields(s.fields, v.items); }
  }

  lemma {:induction false} PlainItems(elem: Schema, vs: seq<Value>)
    requires Plain(elem) && HaveType(elem, vs)
    ensures AllCanonical(elem, vs)
    decreases elem, |vs| + 1
  {
    if vs != [] { PlainCanonical(elem, vs[0]); PlainItems(elem, vs[1..]); }
  }

  lemma {:induction false} PlainFields(fields: seq<Schema>, vs: seq<Value>)
    requires (forall f <- fields :: Plain(f)) && FieldsHaveType(fields, vs)
    ensures FieldsCanonical(fields, vs)
    decreases fields, 0
  {
    if fields != [] { PlainCanonical(fields[0], vs[0]); PlainFields(fields[1..], vs[1..]); }
  }

  // ---- The writer and the reader ----

  /** bytes.Buffer as an io.Writer. */
  class Writer {
    var out: Bytes

    constructor ()
      ensures out == []
    { out := []; }

    method Write(b: Bytes)
      modifies this
      ensures out == old(out) + b
    { out := out + b; }
  }

  method BigBytes(n: nat) returns (b: Bytes)
    ensures b == Magnitude(n)
  {
    var m := n;
    b := [];
    while m > 0
      invariant Magnitude(m) + b == Magnitude(n)
    {
      assert Magnitude(m) + b == Magnitude(m / 256) + ([m % 256] + b);
      m, b := m / 256, [m % 256] + b;
    }
    assert Magnitude(0) + b == b;
  }

  method WritePrefixed(w: Writer, b: Bytes)
    requires |b| < TWO_64
    modifies w
    ensures w.out == old(w.out) + (VarInt(|b|) + b)
  {
    w.Write(VarInt(|b|));
    w.Write(b);
  }

  /** recursiveEncode appends the encoding of v and nothing else: the bytes the format puts down. */
  method RecursiveEncode(w: Writer, s: Schema, v: Value)
    requires HasType(s, v)
    modifies w
    ensures w.out == old(w.out) + Encode(s, v)
    ensures old(w.out) <= w.out && Laid(s, v, w.out[|old(w.out)|..])
    decreases s, 0
  {
    EncodeLaid(s, v);
    assert (w.out + Encode(s, v))[|w.out|..] == Encode(s, v);
    match s
    case Uint(_) => w.Write(VarInt(v.n));
    case Int(_) => w.Write(VarInt(if v.n < 0 then v.n + TWO_64 else v.n));
    case Bool => w.Write([if v.b then 1 else 0]);
    case Text => WritePrefixed(w, v.bytes);
    case ByteSlice => WritePrefixed(w, v.bytes);
    case ByteArray(_) => WritePrefixed(w, v.bytes);
    case Slice(elem) =>
      Regroup(w.out, VarInt(|v.items|), EncodeItems(elem, v.items));
      w.Write(VarInt(|v.items|));
      WriteItems(w, elem, v.items);
    case Struct(fields) => WriteFields(w, fields, v.items);
    case Ptr(elem) => if v == Null { w.Write(VarInt(0)); } else { RecursiveEncode(w, elem, v.target); }
    case BigInt =>
      if v == Null {
        w.Write(VarInt(0));
      } else {
        var b := BigBytes(Abs(v.value));
        WritePrefixed(w, b);
      }
  }

  method WriteItems(w: Writer, elem: Schema, vs: seq<Value>)
    requires HaveType(elem, vs)
    modifies w
    ensures w.out == old(w.out) + EncodeItems(elem, vs)
    decreases elem, 1
  {
    for i := 0 to |vs|
      invariant HaveType(elem, vs[i..])
      invariant w.out + EncodeItems(elem, vs[i..]) == old(w.out) + EncodeItems(elem, vs)
    {
      assert vs[i..][0] == vs[i] && vs[i..][1..] == vs[i + 1..];
      Regroup(w.out, Encode(elem, vs[i]), EncodeItems(elem, vs[i + 1..]));
      RecursiveEncode(w, elem, vs[i]);
    }
  }

  method WriteFields(w: Writer, fields: seq<Schema>, vs: seq<Value>)
    requires FieldsHaveType(fields, vs)
    modifies w
    ensures w.out == old(w.out) + EncodeFields(fields, vs)
    decreases fields, 0
  {
    for i := 0 to |fields|
      invariant FieldsHaveType(fields[i..], vs[i..])
      invariant w.out + EncodeFields(fields[i..], vs[i..]) == old(w.out) + EncodeFields(fields, vs)
    {
      assert fields[i..][1..] == fields[i + 1..] && vs[i..][1..] == vs[i + 1..];
      Regroup(w.out, Encode(fields[i], vs[i]), EncodeFields(fields[i + 1..], vs[i + 1..]));
      RecursiveEncode(w, fields[i], vs[i]);
    }
  }

  /** bytes.Buffer as an io.Reader. */
  class Reader {
    var data: Bytes

    constructor (b: Bytes)
      ensures data == b
    { data := b; }

    /** io.ReadFull into a buffer of n zeros. */
    method Fill(n: nat) returns (b: Bytes, err: bool)
      modifies this
      ensures ReadFull(old(data), n) == Chunk(b, err, data)
    {
      var got := if n < |data| then n else |data|;
      b, err := data[..got] + Zeros(n - got), got < n;
      data := data[got..];
    }

    /** The tag byte decides how many bytes of the number follow: a number comes back with the bytes behind it, and the
        end of the stream is zero with an error. */
    method NextVarInt() returns (l: uint64, err: bool)
      modifies this
      ensures ReadVarInt(old(data)) == Read(l, err, data)
      ensures forall n: uint64, rest: Bytes :: old(data) == VarInt(n) + rest ==> l == n && !err && data == rest
    {
      ghost var all := data;
      forall n: uint64, rest: Bytes | all == VarInt(n) + rest ensures ReadVarInt(all) == Read(n, false, rest) {
        VarIntInverse(n, rest);
      }
      if |data| == 0 { return 0, true; }
      var count := data[0];
      data := data[1..];
      if count < 0xFD { return count, false; }
      var k := if count == 0xFD then 2 else if count == 0xFE then 4 else 8;
      var buf: Bytes;
      buf, err := Fill(k);
      l := LittleEndianNumber(buf);
    }
  }

  /** binary.LittleEndian.Uint16, Uint32 and Uint64. */
  method LittleEndianNumber(b: Bytes) returns (n: uint64)
    requires |b| in {2, 4, 8}
    ensures n == FromLittleEndian(b)
  {
    var value: nat := 0;
    for i := |b| downto 0
      invariant value == FromLittleEndian(b[i..])
    {
      assert b[i..][1..] == b[i + 1..];
      value := b[i] + 256 * value;
    }
    LittleEndianBound(b);
    Powers();
    assert b[0..] == b;
    n := value;
  }

  /** recursiveDecode consumes exactly what Decode says and leaves that value in the target. */
  method RecursiveDecode(r: Reader, s: Schema) returns (v: Value, err: bool)
    modifies r
    ensures Decode(s, old(r.data)) == Decoded(v, err, r.data)
    decreases s, 0
  {
    match s
    case Ptr(elem) =>
      v, err := RecursiveDecode(r, elem);
      v := if err then Null else Ref(v);
    case Struct(fields) =>
      var vs := ReadFields(r, fields);
      v, err := Items(vs), false;
    case Bool =>
      if r.data == [] { return Flag(false), true; }
      v, err := Flag(r.data[0] == 1), false;
      r.data := r.data[1..];
    case _ =>
      var l: uint64;
      l, err := r.NextVarInt();
      v, err := DecodeCounted(r, s, l, err);
  }

  /** The types whose encoding starts with a variable length integer. */
  method DecodeCounted(r: Reader, s: Schema, l: uint64, failed: bool) returns (v: Value, err: bool)
    requires !s.Ptr? && !s.Struct? && !s.Bool?
    modifies r
    ensures forall data :: ReadVarInt(data) == Read(l, failed, old(r.data)) ==> Decode(s, data) == Decoded(v, err, r.data)
    decreases s, 0, 0
  {
    err := failed;
    match s
    case Uint(w) => v := Num(l % Modulus(w));
    case Int(w) => v := Num(Signed(w, l));
    case Text =>
      v := Raw([]);
      if l > 0 { var b, _ := r.Fill(l); v := Raw(b); }
    case ByteSlice =>
      v := Raw([]);
      if l > 0 { var b; b, err := r.Fill(l); if !err { v := Raw(b); } }
    case ByteArray(size) =>
      v := Raw(Zeros(size));
      if l > 0 && l == size { var b; b, err := r.Fill(l); if !err { v := Raw(b); } } else { err := true; }
    case Slice(elem) =>
      v := Items([]);
      if l > 0 { var vs; vs, err := ReadItems(r, elem, l); v := Items(vs); }
    case BigInt =>
      v := Big(0);
      if l > 0 { var b; b, err := r.Fill(l); v := if err then Null else Big(FromMagnitude(b)); }
  }

  /** With the elements vs read, k more at `now` complete the decoding d. */
  ghost predicate ReadSoFar(elem: Schema, k: nat, vs: seq<Value>, err: bool, now: Bytes, d: DecodedSeq) {
    var t := DecodeItems(elem, k, now);
    d == DecodedSeq(vs + t.values, if k > 0 then t.err else err, t.rest)
  }

  lemma ReadStep(elem: Schema, k: nat, vs: seq<Value>, err: bool, now: Bytes, d: DecodedSeq)
    requires k > 0 && ReadSoFar(elem, k, vs, err, now, d)
    ensures var x := Decode(elem, now); ReadSoFar(elem, k - 1, vs + [x.value], x.err, x.rest, d)
  {
    var x := Decode(elem, now);
    Regroup(vs, [x.value], DecodeItems(elem, k - 1, x.rest).values);
  }

  lemma ReadBegins(elem: Schema, n: nat, data: Bytes)
    ensures ReadSoFar(elem, n, [], false, data, DecodeItems(elem, n, data))
  {
    var t := DecodeItems(elem, n, data);
    assert [] + t.values == t.values;
    assert n == 0 ==> !t.err;
  }

  lemma ReadEnds(elem: Schema, vs: seq<Value>, err: bool, now: Bytes, d: DecodedSeq)
    requires ReadSoFar(elem, 0, vs, err, now, d)
    ensures d == DecodedSeq(vs, err, now)
  {
    assert vs + [] == vs;
  }

  method ReadItems(r: Reader, elem: Schema, n: nat) returns (vs: seq<Value>, err: bool)
    modifies r
    ensures DecodeItems(elem, n, old(r.data)) == DecodedSeq(vs, err, r.data)
    decreases elem, 2
  {
    vs, err := [], false;
    ghost var d := DecodeItems(elem, n, r.data);
    ReadBegins(elem, n, r.data);
    for i := 0 to n
      invariant ReadSoFar(elem, n - i, vs, err, r.data, d)
    {
      vs, err := ReadItem(r, elem, n - i, vs, err, d);
    }
    ReadEnds(elem, vs, err, r.data, d);
  }

  /** One round of the loop: the error so far is forgotten. */
  method ReadItem(r: Reader, elem: Schema, ghost k: nat, before: seq<Value>, ghost earlier: bool, ghost d: DecodedSeq)
      returns (vs: seq<Value>, err: bool)
    requires k > 0 && ReadSoFar(elem, k, before, earlier, r.data, d)
    modifies r
    ensures ReadSoFar(elem, k - 1, vs, err, r.data, d)
    decreases elem, 1
  {
    ReadStep(elem, k, before, earlier, r.data, d);
    var v: Value;
    v, err := RecursiveDecode(r, elem);
    vs := before + [v];
  }

  method ReadFields(r: Reader, fields: seq<Schema>) returns (vs: seq<Value>)
    modifies r
    ensures DecodeFields(fields, old(r.data)) == DecodedSeq(vs, false, r.data)
    decreases fields, 0
  {
    vs := [];
    for i := 0 to |fields|
      invariant var d, t := DecodeFields(fields, old(r.data)), DecodeFields(fields[i..], r.data);
                vs + t.values == d.values && t.rest == d.rest && !d.err
    {
      assert fields[i..][1..] == fields[i + 1..];
      var v, _ := RecursiveDecode(r, fields[i]);
      Regroup(vs, [v], DecodeFields(fields[i + 1..], r.data).values);
      vs := vs + [v];
    }
  }

  /** Serialize and Deserialize: a canonical value survives the trip through the buffer. */
  method ThroughBuffer(s: Schema, v: Value) returns (back: Value, rest: Bytes)
    requires HasType(s, v)
    ensures back == v <==> Canonical(s, v)
    ensures Canonical(s, v) ==> rest == []
  {
    var w := new Writer();
    RecursiveEncode(w, s, v);
    var r := new Reader(w.out);
    RoundTrip(s, v, []);
    assert w.out == Encode(s, v) + [];
    var err: bool;
    back, err := RecursiveDecode(r, s);
    rest := r.data;
  }
}
