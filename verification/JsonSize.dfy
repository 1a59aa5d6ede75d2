/**
 How many bytes `JSON.stringify(value, null, 2)` takes in UTF-8, for the values a history
 snapshot is made of. Strings are sequences of UTF-16 code units.
 */
module JsonSize {

  type CodeUnit = u: int | 0 <= u < 0x1_0000

  type Text = seq<CodeUnit>

  datatype Json = Num(n: int) | Str(text: Text) | Arr(items: seq<Json>) | Obj(props: seq<Prop>)

  /** Property names are plain ASCII, so only their length matters. */
  datatype Prop = Prop(nameLength: nat, value: Json)

  predicate IsHighSurrogate(u: CodeUnit) { 0xD800 <= u < 0xDC00 }

  predicate IsLowSurrogate(u: CodeUnit) { 0xDC00 <= u < 0xE000 }

  /** A code unit outside a surrogate pair: short escape, \uXXXX escape, or its UTF-8 bytes. */
  function UnitBytes(u: CodeUnit): nat {
    if u in {8, 9, 10, 12, 13, 34, 92} then 2
    else if u < 0x20 || IsHighSurrogate(u) || IsLowSurrogate(u) then 6
    else if u < 0x80 then 1
    else if u < 0x800 then 2
    else 3
  }

  function EscapedBytes(t: Text): nat {
    if t == [] then 0
    else if IsHighSurrogate(t[0]) && |t| > 1 && IsLowSurrogate(t[1]) then 4 + EscapedBytes(t[2..])
    else UnitBytes(t[0]) + EscapedBytes(t[1..])
  }

  lemma {:induction false} SixBytesPerUnit(t: Text)
    ensures EscapedBytes(t) <= 6 * |t|
    decreases |t|
  {
    if t != [] {
      if IsHighSurrogate(t[0]) && |t| > 1 && IsLowSurrogate(t[1]) {
        SixBytesPerUnit(t[2..]);
      } else {
        SixBytesPerUnit(t[1..]);
      }
    }
  }

  function Digits(n: nat): nat {
    if n < 10 then 1 else 1 + Digits(n / 10)
  }

  function NumBytes(n: int): nat {
    if n < 0 then 1 + Digits(-n) else Digits(n)
  }

  function PowerOfTen(k: nat): nat {
    if k == 0 then 1 else 10 * PowerOfTen(k - 1)
  }

  lemma {:induction false} DigitsAtMost(n: nat, k: nat)
    requires k >= 1 && n < PowerOfTen(k)
    ensures Digits(n) <= k
  {
    if n >= 10 {
      assert k > 1;
      DigitsAtMost(n / 10, k - 1);
    }
  }

  const MAX_SAFE_INTEGER := 9_007_199_254_740_991

  lemma SafeIntegersAreShort(n: int)
    requires -MAX_SAFE_INTEGER <= n <= MAX_SAFE_INTEGER
    ensures NumBytes(n) <= 17
  {
    var m := if n < 0 then -n else n;
    assert PowerOfTen(4) == 10_000;
    assert PowerOfTen(8) == 100_000_000;
    assert PowerOfTen(12) == 1_000_000_000_000;
    assert PowerOfTen(16) == 10_000_000_000_000_000;
    DigitsAtMost(m, 16);
  }

  /** Bytes of a value printed at nesting depth `d`, two spaces per level. */
  function Size(j: Json, d: nat): nat
    decreases j, 0
  {
    match j
    case Num(n) => NumBytes(n)
    case Str(t) => 2 + EscapedBytes(t)
    case Arr(items) => if items == [] then 2 else 4 + 2 * d + ItemsSize(items, d + 1) + 2 * (|items| - 1)
    case Obj(props) => if props == [] then 2 else 4 + 2 * d + PropsSize(props, d + 1) + 2 * (|props| - 1)
  }

  function ItemsSize(items: seq<Json>, d: nat): nat
    decreases items, 1
  {
    if items == [] then 0 else 2 * d + Size(items[0], d) + ItemsSize(items[1..], d)
  }

  function PropsSize(props: seq<Prop>, d: nat): nat
    decreases props, 1
  {
    if props == [] then 0 else PropSize(props[0], d) + PropsSize(props[1..], d)
  }

  function PropSize(p: Prop, d: nat): nat
    decreases p, 2
  {
    2 * d + p.nameLength + 4 + Size(p.value, d)
  }

  /** Dropping the first element of an array shortens its text. */
  lemma DropFirstShrinks(items: seq<Json>, d: nat)
    requires items != []
    ensures Size(Arr(items[1..]), d) <= Size(Arr(items), d)
  {
  }

  lemma PropsOfOne(p: Prop, d: nat)
    ensures PropsSize([p], d) == PropSize(p, d)
  {
    assert [p][1..] == [];
  }

  lemma PropsOfCons(p: Prop, rest: seq<Prop>, d: nat)
    ensures PropsSize([p] + rest, d) == PropSize(p, d) + PropsSize(rest, d)
  {
    assert ([p] + rest)[1..] == rest;
  }
}
