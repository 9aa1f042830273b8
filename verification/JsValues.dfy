/** JavaScript values, as far as the bridge protocol looks at them. */
module JsValues {

  /** A UTF-16 code unit; a string is any sequence of them, lone surrogates included. */
  type Unit = u: int | 0 <= u < 0x10000

  type JsString = seq<Unit>

  datatype JsNumber = NaN | PositiveInfinity | NegativeInfinity | Finite(value: real)

  /** `plain` objects have the prototype `Object.prototype` or none; fields are their own enumerable ones. */
  datatype JsValue =
    | Undefined
    | Null
    | Bool(b: bool)
    | Num(n: JsNumber)
    | Str(s: JsString)
    | Func
    | Arr(items: seq<JsValue>)
    | Obj(plain: bool, fields: map<string, JsValue>)

  const SPACE: Unit := 0x20

  /** A string literal of the source; all of them are ASCII. */
  function Lit(text: string): (s: JsString)
    ensures |s| == |text|
  {
    seq(|text|, i requires 0 <= i < |text| => if text[i] as int < 0x7F then text[i] as int else 0x7F)
  }

  /** The characters `[\u0000-\u001F\u007F]`. */
  predicate IsControl(u: Unit) {
    u <= 0x1F || u == 0x7F
  }

  predicate NoControl(s: JsString) {
    forall i :: 0 <= i < |s| ==> !IsControl(s[i])
  }

  /** `s.slice(0, n)`. */
  function Slice(s: JsString, n: nat): JsString {
    if |s| <= n then s else s[..n]
  }

  /** `parts.join(separator)`. */
  function Join(parts: seq<JsString>, separator: JsString): JsString {
    if parts == [] then []
    else if |parts| == 1 then parts[0]
    else parts[0] + separator + Join(parts[1..], separator)
  }

  lemma {:induction false} JoinNoControl(parts: seq<JsString>, separator: JsString)
    requires NoControl(separator)
    ensures NoControl(Join(parts, separator)) <==> forall i :: 0 <= i < |parts| ==> NoControl(parts[i])
  {
    if |parts| > 1 {
      var rest := parts[1..];
      JoinNoControl(rest, separator);
      ConcatNoControl(parts[0], separator);
      ConcatNoControl(parts[0] + separator, Join(rest, separator));
      assert forall i :: 0 <= i < |rest| ==> rest[i] == parts[i + 1];
      assert forall i :: 1 <= i < |parts| ==> parts[i] == rest[i - 1];
    }
  }

  lemma ConcatNoControl(a: JsString, b: JsString)
    ensures NoControl(a + b) <==> NoControl(a) && NoControl(b)
  {
    if NoControl(a + b) {
      assert forall i :: 0 <= i < |a| ==> a[i] == (a + b)[i];
      assert forall i :: 0 <= i < |b| ==> b[i] == (a + b)[|a| + i];
    }
  }
}
