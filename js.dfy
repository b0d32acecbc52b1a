/**
 * The fragment of JavaScript's value semantics that the grid toolkit relies on:
 * dynamically typed values, nullish coalescing (`??`), truthiness, property reads,
 * object spread, `String(v)`, `Array.prototype.join`, `String.prototype.trim`,
 * `toLowerCase` and `includes`.
 *
 * Numbers are integers (fractions, NaN and infinities are not modelled); a `Date`
 * is its day number counted from 1970-01-01.
 */
module Js {

  datatype JsValue =
    | Undefined
    | Null
    | Bool(b: bool)
    | Num(n: int)
    | Str(s: string)
    | Arr(items: seq<JsValue>)
    | DateVal(day: int)
    | Obj(fields: map<string, JsValue>)

  /** `v == null` (loose equality): true exactly for `null` and `undefined`. */
  predicate IsNullish(v: JsValue) {
    v.Undefined? || v.Null?
  }

  /** `a ?? b`. */
  function Coalesce(a: JsValue, b: JsValue): JsValue {
    if IsNullish(a) then b else a
  }

  /** ToBoolean, as used by `&&`, `||` and `!`. Every object, array and date is truthy. */
  predicate Truthy(v: JsValue) {
    match v
    case Undefined => false
    case Null => false
    case Bool(b) => b
    case Num(n) => n != 0
    case Str(s) => s != ""
    case _ => true
  }

  /** `typeof v === "object"`: plain objects, arrays, dates and (famously) `null`. */
  predicate IsObjectType(v: JsValue) {
    v.Null? || v.Arr? || v.DateVal? || v.Obj?
  }

  /** `v[key]`, or `v?.[key]`, for an own data property; anything else reads `undefined`. */
  function Get(v: JsValue, key: string): JsValue {
    match v
    case Obj(m) => if key in m then m[key] else Undefined
    case _ => Undefined
  }

  /** The own enumerable properties copied by `{...v}`. */
  function Spread(v: JsValue): map<string, JsValue> {
    match v
    case Obj(m) => m
    case _ => map[]
  }

  /* ---------------- decimal rendering of integers ---------------- */

  predicate IsDigit(c: char) {
    '0' <= c <= '9'
  }

  predicate AllDigits(s: string) {
    forall i :: 0 <= i < |s| ==> IsDigit(s[i])
  }

  function DigitChar(d: nat): (c: char)
    requires d < 10
    ensures IsDigit(c) && c as int - '0' as int == d
  {
    (d + '0' as int) as char
  }

  /** The decimal digits of `n`, without leading zeros. */
  function NatToString(n: nat): (s: string)
    ensures |s| >= 1 && AllDigits(s)
    ensures s[0] == '0' ==> n == 0
    decreases n
  {
    if n < 10 then [DigitChar(n)] else NatToString(n / 10) + [DigitChar(n % 10)]
  }

  /** Reads a string of decimal digits back as a number. */
  function ParseDigits(s: string): nat
    requires AllDigits(s)
    decreases |s|
  {
    if s == [] then 0
    else ParseDigits(s[..|s| - 1]) * 10 + (s[|s| - 1] as int - '0' as int)
  }

  /** Reading back the rendering of `n` yields `n`. */
  lemma {:induction false} ParseNatToString(n: nat)
    ensures ParseDigits(NatToString(n)) == n
    decreases n
  {
    var s := NatToString(n);
    if n < 10 {
      assert s[..|s| - 1] == [];
    } else {
      assert s[..|s| - 1] == NatToString(n / 10);
      ParseNatToString(n / 10);
    }
  }

  /** Distinct numbers render as distinct strings. */
  lemma NatToStringInjective(a: nat, b: nat)
    ensures NatToString(a) == NatToString(b) ==> a == b
  {
    ParseNatToString(a);
    ParseNatToString(b);
  }

  /** `String(n)` for an integer. */
  function IntToString(n: int): (s: string)
    ensures |s| >= 1
    ensures n >= 0 ==> AllDigits(s)
    ensures n < 0 ==> s[0] == '-' && AllDigits(s[1..])
  {
    if n < 0 then "-" + NatToString(-n) else NatToString(n)
  }

  /* ---------------- String(v) and join ---------------- */

  /**
   * `String(v)`. A date renders with `Date.prototype.toString`, whose text depends on the
   * host's time zone; it is the parameter `dateText`.
   */
  function ToString(v: JsValue, dateText: int -> string): string
    decreases v, 1
  {
    match v
    case Undefined => "undefined"
    case Null => "null"
    case Bool(b) => if b then "true" else "false"
    case Num(n) => IntToString(n)
    case Str(s) => s
    case Arr(items) => Join(ElementStrings(v, items, dateText), ",")
    case DateVal(d) => dateText(d)
    case Obj(_) => "[object Object]"
  }

  /** How `join` renders one element: `null` and `undefined` become the empty string. */
  function ElementString(v: JsValue, dateText: int -> string): string
    decreases v, 2
  {
    if IsNullish(v) then "" else ToString(v, dateText)
  }

  /** The element texts of an array (`parent` is the array itself, for termination). */
  function ElementStrings(ghost parent: JsValue, items: seq<JsValue>, dateText: int -> string): (r: seq<string>)
    requires forall x :: x in items ==> x < parent
    ensures |r| == |items|
    decreases parent, 0, |items|
  {
    if items == [] then []
    else
      assert items[0] in items;
      assert forall x :: x in items[1..] ==> x in items;
      [if IsNullish(items[0]) then "" else ToString(items[0], dateText)]
        + ElementStrings(parent, items[1..], dateText)
  }

  /** `parts.join(sep)`. */
  function Join(parts: seq<string>, sep: string): string
    decreases |parts|
  {
    if parts == [] then ""
    else if |parts| == 1 then parts[0]
    else parts[0] + sep + Join(parts[1..], sep)
  }

  /* ---------------- trim ---------------- */

  /** ECMAScript WhiteSpace and LineTerminator code points, which `trim` removes. */
  predicate IsSpace(c: char) {
    || c == '\t' || c == '\n' || c == '\U{000B}' || c == '\U{000C}' || c == '\r'
    || c == ' ' || c == '\U{00A0}' || c == '\U{1680}'
    || ('\U{2000}' <= c <= '\U{200A}')
    || c == '\U{2028}' || c == '\U{2029}' || c == '\U{202F}' || c == '\U{205F}'
    || c == '\U{3000}' || c == '\U{FEFF}'
  }

  function TrimStart(s: string): (r: string)
    ensures |r| <= |s| && r == s[|s| - |r|..]
    ensures r == [] || !IsSpace(r[0])
    ensures forall i :: 0 <= i < |s| - |r| ==> IsSpace(s[i])
    decreases |s|
  {
    if s != [] && IsSpace(s[0]) then TrimStart(s[1..]) else s
  }

  function TrimEnd(s: string): (r: string)
    ensures |r| <= |s| && r == s[..|r|]
    ensures r == [] || !IsSpace(r[|r| - 1])
    ensures forall i :: |r| <= i < |s| ==> IsSpace(s[i])
    decreases |s|
  {
    if s != [] && IsSpace(s[|s| - 1]) then TrimEnd(s[..|s| - 1]) else s
  }

  /** `sub` occurs in `s` starting at offset `i`. */
  predicate OccursAt(s: string, sub: string, i: int) {
    0 <= i && i + |sub| <= |s| && s[i..i + |sub|] == sub
  }

  /** `r` is `s` with only white space cut off before offset `i` and after `r`. */
  predicate StripsSpaceAt(s: string, r: string, i: int) {
    OccursAt(s, r, i)
    && (forall k :: 0 <= k < i ==> IsSpace(s[k]))
    && (forall k :: i + |r| <= k < |s| ==> IsSpace(s[k]))
  }

  /**
   * `s.trim()`: the infix left after cutting white space off both ends, up to the first
   * and after the last other character (so nothing at all for an all-space string).
   */
  function Trim(s: string): (r: string)
    ensures r == [] || (!IsSpace(r[0]) && !IsSpace(r[|r| - 1]))
    ensures exists i :: StripsSpaceAt(s, r, i)
  {
    var e := TrimEnd(s);
    var r := TrimStart(e);
    assert StripsSpaceAt(s, r, |e| - |r|) by {
      assert OccursAt(s, r, |e| - |r|);
      assert forall k :: 0 <= k < |e| - |r| ==> s[k] == e[k];
    }
    r
  }

  /** `trim` removes trailing white space first, then leading white space. */
  lemma TrimIsStartOfEnd(s: string)
    ensures Trim(s) == TrimStart(TrimEnd(s))
  {
  }

  /* ---------------- case folding and substring search ---------------- */

  /**
   * `toLowerCase` on one code point, for the capitals of Basic Latin, Latin-1
   * Supplement, Latin Extended-A (except U+0130, whose lower case is two code points)
   * and the Cyrillic block U+0400-U+04FF. Every other code point is left as it is.
   */
  function LowerChar(c: char): char {
    if 'A' <= c <= 'Z' then (c as int + 32) as char
    else if '\U{00C0}' <= c <= '\U{00DE}' && c != '\U{00D7}' then (c as int + 32) as char
    else if ('\U{0100}' <= c <= '\U{012F}' || '\U{0132}' <= c <= '\U{0137}' || '\U{014A}' <= c <= '\U{0177}')
      && c as int % 2 == 0 then (c as int + 1) as char
    else if ('\U{0139}' <= c <= '\U{0148}' || '\U{0179}' <= c <= '\U{017E}') && c as int % 2 == 1
    then (c as int + 1) as char
    else if c == '\U{0178}' then '\U{00FF}'
    else if '\U{0400}' <= c <= '\U{040F}' then (c as int + 80) as char
    else if '\U{0410}' <= c <= '\U{042F}' then (c as int + 32) as char
    else if ('\U{0460}' <= c <= '\U{0481}' || '\U{048A}' <= c <= '\U{04BF}' || '\U{04D0}' <= c <= '\U{04FF}')
      && c as int % 2 == 0 then (c as int + 1) as char
    else if c == '\U{04C0}' then '\U{04CF}'
    else if '\U{04C1}' <= c <= '\U{04CE}' && c as int % 2 == 1 then (c as int + 1) as char
    else c
  }

  function ToLower(s: string): (r: string)
    ensures |r| == |s| && forall i :: 0 <= i < |s| ==> r[i] == LowerChar(s[i])
  {
    seq(|s|, i requires 0 <= i < |s| => LowerChar(s[i]))
  }

  /** Lower-casing twice is lower-casing once, so a lower-cased term is its own lower case. */
  lemma ToLowerIdempotent(s: string)
    ensures ToLower(ToLower(s)) == ToLower(s)
  {
    assert forall i :: 0 <= i < |s| ==> LowerChar(LowerChar(s[i])) == LowerChar(s[i]);
  }

  /** Accented capitals fold too: the term "é" is found in the label "École". */
  lemma AccentedCapitalFolds()
    ensures Includes(ToLower("\U{00C9}cole"), ToLower("\U{00E9}"))
  {
    assert ToLower("\U{00E9}") == "\U{00E9}";
    assert ToLower("\U{00C9}cole")[0..1] == "\U{00E9}";
    assert OccursAt(ToLower("\U{00C9}cole"), ToLower("\U{00E9}"), 0);
  }

  /** `s.includes(sub)`: `sub` occurs in `s` at some offset. */
  function Includes(s: string, sub: string): (r: bool)
    ensures r <==> exists i :: OccursAt(s, sub, i)
    decreases |s|
  {
    if |sub| > |s| then false
    else if s[..|sub|] == sub then assert OccursAt(s, sub, 0); true
    else
      var r := Includes(s[1..], sub);
      assert r ==> exists i :: OccursAt(s, sub, i) by {
        if r {
          var j :| OccursAt(s[1..], sub, j);
          assert s[1..][j..j + |sub|] == s[j + 1..j + 1 + |sub|];
          assert OccursAt(s, sub, j + 1);
        }
      }
      assert (exists i :: OccursAt(s, sub, i)) ==> r by {
        if exists i :: OccursAt(s, sub, i) {
          var i :| OccursAt(s, sub, i);
          assert i != 0;
          assert s[1..][i - 1..i - 1 + |sub|] == s[i..i + |sub|];
          assert OccursAt(s[1..], sub, i - 1);
        }
      }
      r
  }
}
