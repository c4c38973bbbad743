/** Shared value types: optional values, and the Python/JSON values the scripts read from files. */
module Values {

  datatype Option<+T> = None | Some(value: T)

  /** What `json.load` can produce.  Object key order is not kept: nothing modelled here reads it. */
  datatype Json =
    | Null
    | Bool(b: bool)
    | Int(n: int)
    | Float(x: real)
    | Str(s: string)
    | List(items: seq<Json>)
    | Obj(fields: map<string, Json>)

  /** Python's `==` identifies False, 0 and 0.0 (and True, 1, 1.0) at every depth; this is the
      representative it compares. */
  function Norm(v: Json): Json
  {
    match v
    case Bool(b) => Float(if b then 1.0 else 0.0)
    case Int(n) => Float(n as real)
    case List(items) => List(seq(|items|, i requires 0 <= i < |items| => Norm(items[i])))
    case Obj(fields) => Obj(map k | k in fields :: Norm(fields[k]))
    case _ => v
  }

  /** Python's `a == b`. */
  predicate PyEq(a: Json, b: Json) {
    Norm(a) == Norm(b)
  }

  /** `v == 0`, `v == []` and `v == {}`. */
  predicate EqZero(v: Json) { v == Int(0) || v == Float(0.0) || v == Bool(false) }

  predicate EqEmptyList(v: Json) { v == List([]) }

  predicate EqEmptyDict(v: Json) { v == Obj(map[]) }

  lemma LiteralComparisons(v: Json)
    ensures EqZero(v) <==> PyEq(v, Int(0))
    ensures EqEmptyList(v) <==> PyEq(v, List([]))
    ensures EqEmptyDict(v) <==> PyEq(v, Obj(map[]))
  {
    if v.List? { assert |Norm(v).items| == |v.items|; }
    if v.Obj? { assert Norm(v).fields.Keys == v.fields.Keys; }
  }

  /** Python's `bool(v)`. */
  predicate Truthy(v: Json) {
    match v
    case Null => false
    case Bool(b) => b
    case Int(n) => n != 0
    case Float(x) => x != 0.0
    case Str(s) => s != ""
    case List(items) => items != []
    case Obj(fields) => fields != map[]
  }

  /** Python's `fields.get(key)`. */
  function Get(fields: map<string, Json>, key: string): Json {
    if key in fields then fields[key] else Null
  }

  predicate IsSpace(c: char) { c == ' ' || '\t' <= c <= '\r' }

  /** `str.strip()`, on ASCII white space. */
  function Strip(s: string): string {
    if s != "" && IsSpace(s[0]) then Strip(s[1..])
    else if s != "" && IsSpace(s[|s| - 1]) then Strip(s[..|s| - 1])
    else s
  }

  predicate AllSpace(s: string) { forall i | 0 <= i < |s| :: IsSpace(s[i]) }

  lemma {:induction false} StripParts(s: string) returns (before: string, after: string)
    ensures s == before + Strip(s) + after && AllSpace(before) && AllSpace(after)
  {
    if s == "" {
      before, after := "", "";
    } else if IsSpace(s[0]) {
      before, after := StripParts(s[1..]);
      before := [s[0]] + before;
    } else if IsSpace(s[|s| - 1]) {
      before, after := StripParts(s[..|s| - 1]);
      after := after + [s[|s| - 1]];
    } else {
      before, after := "", "";
    }
  }

  lemma {:induction false} StripEnds(s: string)
    ensures Strip(s) != "" ==> !IsSpace(Strip(s)[0]) && !IsSpace(Strip(s)[|Strip(s)| - 1])
  {
    if s == "" {
    } else if IsSpace(s[0]) {
      StripEnds(s[1..]);
    } else if IsSpace(s[|s| - 1]) {
      StripEnds(s[..|s| - 1]);
    }
  }

  /** Stripping takes white space off both ends and stops at the first other character of each. */
  lemma StripMeaning(s: string) returns (before: string, after: string)
    ensures s == before + Strip(s) + after && AllSpace(before) && AllSpace(after)
    ensures Strip(s) != "" ==> !IsSpace(Strip(s)[0]) && !IsSpace(Strip(s)[|Strip(s)| - 1])
    ensures Strip(s) == "" <==> AllSpace(s)
  {
    before, after := StripParts(s);
    StripEnds(s);
    hide Strip, IsSpace;
    if Strip(s) != "" { assert s[|before|] == Strip(s)[0]; }
  }

  /** `str.lower()`, on ASCII letters. */
  function Lower(s: string): string {
    seq(|s|, i requires 0 <= i < |s| => if 'A' <= s[i] <= 'Z' then s[i] + ' ' else s[i])
  }

  function Digit(n: nat): char
    requires n < 10
  {
    "0123456789"[n]
  }

  /** A natural number in decimal, as a template string writes it. */
  function Decimal(n: nat): string {
    if n < 10 then [Digit(n)] else Decimal(n / 10) + [Digit(n % 10)]
  }

  lemma {:induction false} DecimalInjective(a: nat, b: nat)
    requires Decimal(a) == Decimal(b)
    ensures a == b
  {
    LastDigit(a);
    LastDigit(b);
    assert Decimal(a)[|Decimal(a)| - 1] == Decimal(b)[|Decimal(b)| - 1];
    if a >= 10 && b >= 10 {
      assert Decimal(a / 10) == Decimal(a)[..|Decimal(a)| - 1] == Decimal(b / 10);
      DecimalInjective(a / 10, b / 10);
    } else if a >= 10 {
      LastDigit(a / 10);
    } else if b >= 10 {
      LastDigit(b / 10);
    }
  }

  lemma LastDigit(n: nat)
    ensures |Decimal(n)| > 0 && Decimal(n)[|Decimal(n)| - 1] == Digit(n % 10)
    ensures forall d: nat | d < 10 && Digit(d) == Digit(n % 10) :: d == n % 10
  {}
}
