/** The few JavaScript notions the task API relies on: JSON values as they
    arrive in a request body, truthiness, String.prototype.trim,
    String.prototype.includes, Array.prototype.slice, and the date library,
    which is taken as a parameter because its parser is not part of this model. */
module Js {

  datatype Option<T> = None | Some(value: T)

  /** A value of a parsed JSON request body. JSON has no `undefined`: a key
      that is absent is modelled by `None` at the place that holds the value. */
  datatype JsValue =
    | JNull
    | JBool(b: bool)
    | JNum(n: real)
    | JStr(s: string)
    | JArray(items: seq<JsValue>)
    | JObject(entries: seq<(string, JsValue)>)

  /** JavaScript truthiness of a JSON value (JSON numbers are never NaN). */
  predicate Truthy(v: JsValue) {
    match v
    case JNull => false
    case JBool(b) => b
    case JNum(n) => n != 0.0
    case JStr(s) => s != ""
    case JArray(_) => true
    case JObject(_) => true
  }

  /** `typeof v === 'string' && v.trim() !== ''`: a string with a non-blank character. */
  predicate IsNonBlankString(v: JsValue) {
    v.JStr? && Trim(v.s) != ""
  }

  /** The code points ECMAScript's trim removes: WhiteSpace (TAB, VT, FF,
      ZWNBSP and every Unicode Zs space) and LineTerminator (LF, CR, LS, PS). */
  predicate IsWhitespace(c: char) {
    var n := c as int;
    n == 0x09 || n == 0x0B || n == 0x0C || n == 0x20 || n == 0xA0 || n == 0xFEFF
    || n == 0x1680 || (0x2000 <= n <= 0x200A) || n == 0x202F || n == 0x205F || n == 0x3000
    || n == 0x0A || n == 0x0D || n == 0x2028 || n == 0x2029
  }

  predicate AllWhitespace(s: string) {
    forall i :: 0 <= i < |s| ==> IsWhitespace(s[i])
  }

  /** Leading whitespace removed. */
  function TrimStart(s: string): string {
    if s != [] && IsWhitespace(s[0]) then TrimStart(s[1..]) else s
  }

  /** Trailing whitespace removed. */
  function TrimEnd(s: string): string {
    if s != [] && IsWhitespace(s[|s| - 1]) then TrimEnd(s[..|s| - 1]) else s
  }

  /** TrimStart keeps the longest suffix of `s` that does not start with
      whitespace, and what it drops is all whitespace. */
  lemma {:induction false} TrimStartSpec(s: string)
    ensures |TrimStart(s)| <= |s| && TrimStart(s) == s[|s| - |TrimStart(s)|..]
    ensures AllWhitespace(s[..|s| - |TrimStart(s)|])
    ensures TrimStart(s) != [] ==> !IsWhitespace(TrimStart(s)[0])
  {
    if s != [] && IsWhitespace(s[0]) {
      TrimStartSpec(s[1..]);
      var k := |s| - |TrimStart(s)|;
      assert s[..k] == [s[0]] + s[1..][..k - 1];
    }
  }

  /** TrimEnd keeps the longest prefix of `s` that does not end with
      whitespace, and what it drops is all whitespace. */
  lemma {:induction false} TrimEndSpec(s: string)
    ensures |TrimEnd(s)| <= |s| && TrimEnd(s) == s[..|TrimEnd(s)|]
    ensures AllWhitespace(s[|TrimEnd(s)|..])
    ensures TrimEnd(s) != [] ==> !IsWhitespace(TrimEnd(s)[|TrimEnd(s)| - 1])
  {
    if s != [] && IsWhitespace(s[|s| - 1]) {
      var init := s[..|s| - 1];
      TrimEndSpec(init);
      var k := |TrimEnd(s)|;
      assert s[k..] == init[k..] + [s[|s| - 1]];
    }
  }

  /** `s.trim()`. */
  function Trim(s: string): string {
    TrimEnd(TrimStart(s))
  }

  /** The trimmed string is a contiguous piece of the input, with whitespace
      only around it, and it neither starts nor ends with whitespace. */
  lemma TrimShape(s: string)
    ensures exists i, j ::
              0 <= i <= j <= |s| && Trim(s) == s[i..j] && AllWhitespace(s[..i]) && AllWhitespace(s[j..])
    ensures Trim(s) != [] ==> !IsWhitespace(Trim(s)[0]) && !IsWhitespace(Trim(s)[|Trim(s)| - 1])
  {
    var t := TrimStart(s);
    TrimStartSpec(s);
    TrimEndSpec(t);
    var i := |s| - |t|;
    var j := i + |TrimEnd(t)|;
    assert Trim(s) == s[i..j];
    assert s[j..] == t[|TrimEnd(t)|..];
    if Trim(s) != [] {
      assert Trim(s)[0] == t[0];
    }
  }

  /** Neither starts nor ends with whitespace. */
  predicate IsTrimmed(s: string) {
    s == [] || (!IsWhitespace(s[0]) && !IsWhitespace(s[|s| - 1]))
  }

  /** Trimming twice is trimming once. */
  lemma {:induction false} TrimIdempotent(s: string)
    ensures Trim(Trim(s)) == Trim(s)
  {
    TrimIsTrimmed(s);
    TrimFixesTrimmed(Trim(s));
  }

  /** Trimming leaves a string with no whitespace at either end. */
  lemma TrimIsTrimmed(s: string)
    ensures IsTrimmed(Trim(s))
  {
    var t := TrimStart(s);
    var r := TrimEnd(t);
    TrimStartSpec(s);
    TrimEndSpec(t);
    if r != [] {
      assert r[0] == t[0];
    }
  }

  /** A string with no whitespace at either end is its own trim. */
  lemma TrimFixesTrimmed(s: string)
    requires IsTrimmed(s)
    ensures Trim(s) == s
  {
    if s != [] {
      assert TrimStart(s) == s;
      assert TrimEnd(s) == s;
    }
  }

  /** A string trims to the empty string exactly when it is all whitespace. */
  lemma {:induction false} TrimEmptyIff(s: string)
    ensures Trim(s) == "" <==> AllWhitespace(s)
  {
    var t := TrimStart(s);
    TrimStartSpec(s);
    TrimEndSpec(t);
    if Trim(s) == "" {
      assert AllWhitespace(t[..0]);
      assert t == [];
      assert s[..|s|] == s;
    } else {
      TrimShape(s);
      var k :| 0 <= k < |s| && s[k] == Trim(s)[0];
      assert !IsWhitespace(s[k]);
    }
  }

  /** `hay.includes(needle)`: `needle` occurs as a contiguous piece of `hay`. */
  predicate Includes(hay: string, needle: string) {
    exists i | 0 <= i <= |hay| - |needle| :: OccursAt(hay, needle, i)
  }

  predicate OccursAt(hay: string, needle: string, i: nat) {
    i + |needle| <= |hay| && hay[i..i + |needle|] == needle
  }

  /** `s.slice(start, end)` with ECMAScript's clamping of its two indices. */
  function Slice<T>(s: seq<T>, start: int, end: int): (r: seq<T>)
    ensures |r| <= |s|
    ensures 0 <= start <= |s| && start <= end ==> r == s[start..if end <= |s| then end else |s|]
    ensures 0 <= start && (|s| <= start || 0 <= end <= start) ==> r == []
  {
    var from := Clamp(start, |s|);
    var to := Clamp(end, |s|);
    if from < to then s[from..to] else []
  }

  /** ToIntegerOrInfinity, then a negative index counted from the end, then clamped to [0, len]. */
  function Clamp(k: int, len: nat): (r: nat)
    ensures r <= len
    ensures 0 <= k <= len ==> r == k
    ensures k > len ==> r == len
  {
    if k < 0 then (if len + k < 0 then 0 else len + k) else if k > len then len else k
  }

  /** The date library of the runtime, abstracted: `parses(v)` is
      `!isNaN(Date.parse(v))`, and `toIso(v)` is `new Date(v).toISOString()`,
      which is `None` where that call throws a RangeError. */
  datatype DateLib = DateLib(parses: JsValue -> bool, toIso: JsValue -> Option<string>)
}
