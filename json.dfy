/**
 * JSON-like values as the extension keeps them in its stores, with the few
 * JavaScript coercions the code relies on: truthiness, `.length`, property
 * reads, object spread, template-literal interpolation and
 * `Date.now().toString()`.
 */
module Json {

  datatype Option<T> = None | Some(value: T) {
    function GetOr(default: T): T {
      match this
      case Some(v) => v
      case None => default
    }
  }

  /** A stored value: what IndexedDB's structured clone and chrome.storage carry. */
  datatype Value =
    | Undefined
    | Null
    | Bool(b: bool)
    | Num(n: int)
    | Str(s: string)
    | Arr(items: seq<Value>)
    | Obj(fields: map<string, Value>)
    | Blob(bytes: seq<bv8>)

  /** JavaScript truthiness: `undefined`, `null`, `false`, `0` and `""` are falsy. */
  predicate Truthy(v: Value) {
    match v
    case Undefined => false
    case Null => false
    case Bool(b) => b
    case Num(n) => n != 0
    case Str(s) => s != ""
    case _ => true
  }

  /** `a || b` */
  function Or(a: Value, b: Value): Value {
    if Truthy(a) then a else b
  }

  /** Property read `v.name` on a value that is not null or undefined. */
  function Field(v: Value, name: string): Value {
    if v.Obj? && name in v.fields then v.fields[name] else Undefined
  }

  /** Property read on a plain object given by its field map. */
  function Prop(fields: map<string, Value>, name: string): Value {
    if name in fields then fields[name] else Undefined
  }

  /** `v.length > 0`: arrays and strings by their length, an object by a numeric `length` property. */
  predicate LengthPositive(v: Value) {
    match v
    case Arr(items) => |items| > 0
    case Str(s) => |s| > 0
    case Obj(m) => "length" in m && m["length"].Num? && m["length"].n > 0
    case _ => false
  }

  /**
   * The own enumerable properties that `{ ...v }` copies: an object's own
   * properties, the indices of an array, the indices of a string (each
   * holding one character), and nothing from any other value.
   */
  function Spread(v: Value): map<string, Value> {
    match v
    case Obj(fields) => fields
    case Arr(items) => Indexed(items)
    case Str(s) => Indexed(seq(|s|, i requires 0 <= i < |s| => Str([s[i]])))
    case _ => map[]
  }

  /** `{0: items[0], 1: items[1], …}`, the index properties of an array. */
  function Indexed(items: seq<Value>): map<string, Value>
    decreases |items|
  {
    if items == [] then map[]
    else Indexed(items[..|items| - 1])[NatToString(|items| - 1) := items[|items| - 1]]
  }

  /** The properties of `Indexed(items)` are exactly the decimal indices. */
  lemma {:induction false} IndexedKeys(items: seq<Value>)
    ensures Indexed(items).Keys == set i | 0 <= i < |items| :: NatToString(i)
    decreases |items|
  {
    if items != [] {
      var n := |items| - 1;
      IndexedKeys(items[..n]);
      IndexSetSnoc(n);
    }
  }

  /** The decimal indices below `n + 1` are those below `n` and `n` itself. */
  lemma IndexSetSnoc(n: nat)
    ensures (set i | 0 <= i < n + 1 :: NatToString(i)) == (set i | 0 <= i < n :: NatToString(i)) + {NatToString(n)}
  {
  }

  /** Each index property of `Indexed(items)` holds its element. */
  lemma {:induction false} IndexedValues(items: seq<Value>, i: nat)
    requires i < |items|
    ensures NatToString(i) in Indexed(items) && Indexed(items)[NatToString(i)] == items[i]
    decreases |items|
  {
    var n := |items| - 1;
    if i < n {
      IndexedValues(items[..n], i);
      NatToStringInjective(i, n);
    }
  }

  /** Spreading an array copies its indices: exactly `"0"`, `"1"`, … up to the length, holding the elements. */
  lemma SpreadArray(items: seq<Value>)
    ensures Spread(Arr(items)).Keys == set i | 0 <= i < |items| :: NatToString(i)
    ensures forall i :: 0 <= i < |items| ==> Spread(Arr(items))[NatToString(i)] == items[i]
  {
    IndexedKeys(items);
    forall i | 0 <= i < |items| ensures NatToString(i) in Spread(Arr(items)) && Spread(Arr(items))[NatToString(i)] == items[i] {
      IndexedValues(items, i);
    }
  }

  /** Spreading a string copies its indices: exactly `"0"`, `"1"`, … up to the length, each holding one character. */
  lemma SpreadString(s: string)
    ensures Spread(Str(s)).Keys == set i | 0 <= i < |s| :: NatToString(i)
    ensures forall i :: 0 <= i < |s| ==> Spread(Str(s))[NatToString(i)] == Str([s[i]])
  {
    var chars := seq(|s|, i requires 0 <= i < |s| => Str([s[i]]));
    assert Spread(Str(s)) == Indexed(chars);
    IndexedKeys(chars);
    forall i | 0 <= i < |s| ensures NatToString(i) in Spread(Str(s)) && Spread(Str(s))[NatToString(i)] == Str([s[i]]) {
      IndexedValues(chars, i);
    }
  }

  // ---------------------------------------------------------------------
  // Decimal rendering of non-negative integers (Number.prototype.toString)
  // ---------------------------------------------------------------------

  predicate IsDigit(c: char) { '0' <= c <= '9' }

  predicate AllDigits(s: string) {
    forall i :: 0 <= i < |s| ==> IsDigit(s[i])
  }

  function DigitChar(d: nat): (c: char)
    requires d < 10
    ensures IsDigit(c) && (c as int) - ('0' as int) == d
  {
    ('0' as int + d) as char
  }

  /** `n.toString()` for a non-negative integer. */
  function NatToString(n: nat): (s: string)
    ensures |s| >= 1 && AllDigits(s)
    ensures |s| > 1 ==> s[0] != '0'
  {
    if n < 10 then [DigitChar(n)] else NatToString(n / 10) + [DigitChar(n % 10)]
  }

  /** Reads a string of decimal digits back as a number. */
  function DigitsValue(s: string): nat
    requires AllDigits(s)
  {
    if s == [] then 0
    else DigitsValue(s[..|s| - 1]) * 10 + ((s[|s| - 1] as int) - ('0' as int))
  }

  /** Decimal rendering round-trips, so distinct timestamps give distinct ids. */
  lemma {:induction false} NatToStringRoundTrip(n: nat)
    ensures DigitsValue(NatToString(n)) == n
  {
    if n >= 10 {
      NatToStringRoundTrip(n / 10);
      var s := NatToString(n);
      assert s[..|s| - 1] == NatToString(n / 10);
    }
  }

  lemma NatToStringInjective(a: nat, b: nat)
    ensures NatToString(a) == NatToString(b) ==> a == b
  {
    if NatToString(a) == NatToString(b) {
      NatToStringRoundTrip(a);
      NatToStringRoundTrip(b);
    }
  }

  // ---------------------------------------------------------------------
  // Template literals
  // ---------------------------------------------------------------------

  function IntToString(n: int): string {
    if n < 0 then "-" + NatToString(-n) else NatToString(n)
  }

  function JoinComma(parts: seq<string>): string {
    if parts == [] then ""
    else if |parts| == 1 then parts[0]
    else parts[0] + "," + JoinComma(parts[1..])
  }

  /** `${v}` inside a template literal (String(v)); an array joins its elements with commas. */
  function Interpolate(v: Value): string
    decreases v
  {
    match v
    case Undefined => "undefined"
    case Null => "null"
    case Bool(b) => if b then "true" else "false"
    case Num(n) => IntToString(n)
    case Str(s) => s
    case Arr(items) =>
      JoinComma(seq(|items|, i requires 0 <= i < |items| =>
        if items[i].Null? || items[i].Undefined? then "" else Interpolate(items[i])))
    case Obj(_) => "[object Object]"
    case Blob(_) => "[object Blob]"
  }

  // ---------------------------------------------------------------------
  // Composite keys and ids built around a separator
  // ---------------------------------------------------------------------

  /**
   * When the part before a separator cannot contain the separator, a string
   * `a + [sep] + b` determines both parts. Cache keys (`store:key`) and
   * migrated bookmark ids (`migrated-<time>-<index>`) rely on this.
   */
  lemma {:induction false} SplitAtSeparator(a1: string, b1: string, a2: string, b2: string, sep: char)
    requires sep !in a1 && sep !in a2
    requires a1 + [sep] + b1 == a2 + [sep] + b2
    ensures a1 == a2 && b1 == b2
  {
    var s := a1 + [sep] + b1;
    if |a1| < |a2| {
      SeparatorAt(a1, b1, sep);
      assert false;
    } else if |a2| < |a1| {
      SeparatorAt(a2, b2, sep);
      assert false;
    }
    assert a1 == s[..|a1|] == a2;
    assert b1 == s[|a1| + 1..] == b2;
  }

  lemma SeparatorAt(a: string, b: string, sep: char)
    ensures (a + [sep] + b)[|a|] == sep
  {
  }

  lemma DigitsHaveNoSeparator(s: string, sep: char)
    requires AllDigits(s) && !IsDigit(sep)
    ensures sep !in s
  {
  }
}
