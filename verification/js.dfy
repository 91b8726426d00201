/**
 * The part of JavaScript's value and string semantics that src/index.js relies on:
 * strings are sequences of UTF-16 code units (so `length` counts code units),
 * `!v` is ToBoolean, and `Array.prototype.includes` is a linear scan.
 */
module Js {

  /** One UTF-16 code unit. */
  newtype CodeUnit = x: int | 0 <= x < 0x1_0000

  /** A JavaScript string value; `s.length` is `|s|`. */
  type JsString = seq<CodeUnit>

  /** The JavaScript values a query parameter or a validator argument can be. */
  datatype JsValue =
    | Undefined
    | Null
    | Bool(b: bool)
    | Num(n: real)      // NaN is not represented
    | Str(s: JsString)
    | Object            // arrays, objects, functions: always truthy

  /** ToBoolean: the value `!v` negates. Exactly the falsy values are rejected by `!v`. */
  predicate Truthy(v: JsValue)
    ensures !Truthy(v) <==> v in {Undefined, Null, Bool(false), Num(0.0), Str([])}
  {
    match v
    case Undefined => false
    case Null => false
    case Bool(b) => b
    case Num(n) => n != 0.0
    case Str(s) => |s| > 0
    case Object => true
  }

  /** Number of characters outside the Basic Multilingual Plane, each of which takes two code units. */
  function AstralCount(s: string): nat
  {
    if s == [] then 0 else (if s[0] as int < 0x1_0000 then 0 else 1) + AstralCount(s[1..])
  }

  /** UTF-16 encoding of one Unicode scalar value: one code unit, or a surrogate pair. */
  function EncodeChar(c: char): (r: JsString)
    ensures |r| == if c as int < 0x1_0000 then 1 else 2
    ensures |r| == 1 ==> r[0] as int == c as int
  {
    var v := c as int;
    if v < 0x1_0000 then [v as CodeUnit]
    else
      var w := v - 0x1_0000;
      [(0xD800 + w / 0x400) as CodeUnit, (0xDC00 + w % 0x400) as CodeUnit]
  }

  /** The JavaScript string whose text is `s` (a string literal in the source). */
  function Utf16(s: string): (r: JsString)
    ensures |r| == |s| + AstralCount(s)
  {
    if s == [] then [] else EncodeChar(s[0]) + Utf16(s[1..])
  }

  /**
   * A string literal of the source. All of them are ASCII, so each character is
   * the one code unit of its own value (see LiteralIsUtf16).
   */
  function Literal(s: string): (r: JsString)
    ensures |r| == |s|
    ensures forall i :: 0 <= i < |s| && s[i] as int < 0x1_0000 ==> r[i] as int == s[i] as int
  {
    seq(|s|, i requires 0 <= i < |s| => (s[i] as int % 0x1_0000) as CodeUnit)
  }

  /** For text inside the Basic Multilingual Plane, `Literal` is its UTF-16 encoding. */
  lemma {:induction false} LiteralIsUtf16(s: string)
    requires forall i :: 0 <= i < |s| ==> s[i] as int < 0x1_0000
    ensures Literal(s) == Utf16(s)
  {
    if s != [] {
      LiteralIsUtf16(s[1..]);
      assert Literal(s) == Literal([s[0]]) + Literal(s[1..]);
    }
  }

  /** Literals concatenate like their text. */
  lemma LiteralAppend(a: string, b: string)
    ensures Literal(a + b) == Literal(a) + Literal(b)
  {
  }

  /** `Array.prototype.includes` on an array of strings: strings compare by content. */
  function Includes(xs: seq<JsString>, x: JsString): (r: bool)
    ensures r <==> x in xs
  {
    if xs == [] then false
    else
      assert xs == [xs[0]] + xs[1..];
      xs[0] == x || Includes(xs[1..], x)
  }
}
