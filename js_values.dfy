/** The JavaScript values that reach the domain objects' fields, with the language's truthiness and
  * template-literal interpolation, and `Array.prototype.toString`. */
module JsValues {

  /** A field value as received: absent, a number (integers only), or a string. */
  datatype Value = Undefined | Num(n: int) | Str(s: string)

  /** JavaScript truthiness: `undefined`, `0` and `""` are falsy. */
  predicate Truthy(v: Value) {
    match v
    case Undefined => false
    case Num(n) => n != 0
    case Str(s) => s != ""
  }

  /** What class-validator's `@IsNumber` accepts once missing values are skipped. */
  predicate NumberOrMissing(v: Value) {
    !v.Str?
  }

  function DigitChar(d: nat): (c: char)
    requires d < 10
    ensures '0' <= c <= '9'
  {
    ['0', '1', '2', '3', '4', '5', '6', '7', '8', '9'][d]
  }

  /** Decimal digits of a natural number, most significant first. */
  function NatToString(n: nat): (s: string)
    ensures |s| > 0
    ensures forall i :: 0 <= i < |s| ==> '0' <= s[i] <= '9'
  {
    if n < 10 then [DigitChar(n)] else NatToString(n / 10) + [DigitChar(n % 10)]
  }

  function IntToString(i: int): (s: string)
    ensures |s| > 0
  {
    if i < 0 then "-" + NatToString(-i) else NatToString(i)
  }

  /** How `${v}` renders a value inside a template literal. */
  function Interpolate(v: Value): string {
    match v
    case Undefined => "undefined"
    case Num(n) => IntToString(n)
    case Str(s) => s
  }

  /** `Array.prototype.toString`: the elements joined with a comma. */
  function JoinComma(items: seq<string>): (r: string)
    ensures items == [] ==> r == ""
    ensures |items| == 1 ==> r == items[0]
    ensures items != [] ==> items[0] <= r
    ensures items != [] ==> |r| >= |items[|items| - 1]| && r[|r| - |items[|items| - 1]|..] == items[|items| - 1]
  {
    if items == [] then ""
    else if |items| == 1 then items[0]
    else items[0] + "," + JoinComma(items[1..])
  }

  /** `needle` sits in `haystack` starting at index `i`. */
  predicate OccursAt(haystack: string, needle: string, i: int) {
    0 <= i <= |haystack| - |needle| && haystack[i..i + |needle|] == needle
  }

  /** `String.prototype.includes`. */
  predicate Contains(haystack: string, needle: string) {
    exists i :: 0 <= i <= |haystack| && OccursAt(haystack, needle, i)
  }

  /** Every joined element appears verbatim in the joined string. */
  lemma {:induction false} JoinCommaContains(items: seq<string>, k: nat)
    requires k < |items|
    ensures Contains(JoinComma(items), items[k])
  {
    var r := JoinComma(items);
    if |items| == 1 {
      assert r[0..|items[0]|] == items[0];
      assert OccursAt(r, items[k], 0);
    } else if k == 0 {
      assert r == items[0] + ("," + JoinComma(items[1..]));
      assert r[0..|items[0]|] == items[0];
      assert OccursAt(r, items[k], 0);
    } else {
      JoinCommaContains(items[1..], k - 1);
      assert items[1..][k - 1] == items[k];
      var rest := JoinComma(items[1..]);
      var i :| 0 <= i <= |rest| && OccursAt(rest, items[k], i);
      var n := items[k];
      assert 0 <= i <= |rest| - |n| && rest[i..i + |n|] == n;
      var prefix := items[0] + ",";
      assert r == prefix + rest;
      assert r[|prefix| + i..|prefix| + i + |n|] == rest[i..i + |n|];
      assert OccursAt(r, n, |prefix| + i);
    }
  }
}
