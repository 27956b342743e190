/** The client's values: JavaScript values as the admin pages and the API client handle
    them, objects as dictionaries (a missing key reads as `undefined`), truthiness,
    string conversion and the browser's `localStorage`. */
module Js {
  import opened Common
  import Text

  /** A file chosen in a file input. */
  datatype JsFile = JsFile(name: string, mimeType: string, size: nat)

  datatype JsValue =
    | JUndefined
    | JNull
    | JBool(b: bool)
    | JNum(n: int)          // the integer numbers the pages handle
    | JNaN                  // `parseInt` of a text that is not a number
    | JStr(s: string)
    | JStrs(items: seq<string>)   // an array of strings (programme bullet points)
    | JFileValue(file: JsFile)

  /** A plain object; a key it does not hold reads as `undefined`. */
  type JsObject = map<string, JsValue>

  /** `obj[key]`. */
  function Get(obj: JsObject, key: string): (v: JsValue)
    ensures key !in obj ==> v == JUndefined
  {
    if key in obj then obj[key] else JUndefined
  }

  /** `!!v`. */
  predicate Truthy(v: JsValue) {
    match v
    case JUndefined => false
    case JNull => false
    case JBool(b) => b
    case JNum(n) => n != 0
    case JNaN => false
    case JStr(s) => s != ""
    case JStrs(_) => true
    case JFileValue(_) => true
  }

  /** `v || fallback`. */
  function OrElse(v: JsValue, fallback: JsValue): (r: JsValue)
    ensures Truthy(v) ==> r == v
    ensures !Truthy(v) ==> r == fallback
  {
    if Truthy(v) then v else fallback
  }

  /** `String(v)`. */
  function ToJsString(v: JsValue): string {
    match v
    case JUndefined => "undefined"
    case JNull => "null"
    case JBool(b) => if b then "true" else "false"
    case JNum(n) => Text.IntToDecimal(n)
    case JNaN => "NaN"
    case JStr(s) => s
    case JStrs(items) => Text.Join(items, ',')
    case JFileValue(_) => "[object File]"
  }

  /** The longest prefix of ASCII digits. */
  function DigitPrefix(s: string): (d: string)
    ensures forall i :: 0 <= i < |d| ==> '0' <= d[i] <= '9'
  {
    if |s| > 0 && '0' <= s[0] <= '9' then [s[0]] + DigitPrefix(s[1..]) else ""
  }

  /** `parseInt(text)`: leading whitespace skipped, an optional sign, then the longest run
      of decimal digits; NaN when there is none. */
  function ParseIntJs(text: string): JsValue {
    var t := Text.TrimStart(text);
    var negative := |t| > 0 && t[0] == '-';
    var rest := if |t| > 0 && (t[0] == '-' || t[0] == '+') then t[1..] else t;
    var digits := DigitPrefix(rest);
    if digits == "" then JNaN
    else JNum(if negative then 0 - Text.DigitsValue(digits) else Text.DigitsValue(digits))
  }

  /** `parseInt` reads back the decimal text of every integer. */
  lemma ParseIntJsDecimal(n: int)
    ensures ParseIntJs(Text.IntToDecimal(n)) == JNum(n)
  {
    if n < 0 {
      var m: nat := -n;
      var digits := Text.NatToDecimal(m);
      ParseIntJsNegative(digits);
      Text.DigitsOfDecimal(m);
      var s := "-" + digits;
      assert Text.IntToDecimal(n) == s;
      assert s[1..] == digits;
      TrimStartKeeps(s);
    } else {
      var digits := Text.NatToDecimal(n);
      ParseIntJsDigits(digits);
      Text.DigitsOfDecimal(n);
      assert Text.IntToDecimal(n) == digits;
    }
  }

  lemma ParseIntJsDigits(digits: string)
    requires |digits| > 0 && forall i :: 0 <= i < |digits| ==> '0' <= digits[i] <= '9'
    ensures ParseIntJs(digits) == JNum(Text.DigitsValue(digits))
  {
    AllDigitsPrefix(digits);
    TrimStartKeeps(digits);
  }

  lemma ParseIntJsNegative(digits: string)
    requires |digits| > 0 && forall i :: 0 <= i < |digits| ==> '0' <= digits[i] <= '9'
    ensures ParseIntJs("-" + digits) == JNum(0 - Text.DigitsValue(digits))
  {
    AllDigitsPrefix(digits);
    var s := "-" + digits;
    TrimStartKeeps(s);
    assert s[1..] == digits;
  }

  /** An empty box and a text that does not start with a sign, a digit or white space
      give NaN, which is falsy. */
  lemma ParseIntJsNaN(text: string)
    ensures ParseIntJs("") == JNaN && !Truthy(ParseIntJs(""))
    ensures (|text| > 0 && !Text.IsJsWhitespace(text[0]) && text[0] != '-' && text[0] != '+'
             && !('0' <= text[0] <= '9')) ==> ParseIntJs(text) == JNaN
  {
    if |text| > 0 && !Text.IsJsWhitespace(text[0]) {
      TrimStartKeeps(text);
    }
  }

  lemma TrimStartKeeps(s: string)
    requires |s| > 0 && !Text.IsJsWhitespace(s[0])
    ensures Text.TrimStart(s) == s
  {
  }

  lemma {:induction false} AllDigitsPrefix(s: string)
    requires forall i :: 0 <= i < |s| ==> '0' <= s[i] <= '9'
    ensures DigitPrefix(s) == s
    decreases |s|
  {
    if |s| > 0 {
      AllDigitsPrefix(s[1..]);
    }
  }

  /** The browser's `localStorage`: texts by key. */
  class LocalStorage {
    var items: map<string, string>

    constructor (items: map<string, string>)
      ensures this.items == items
    {
      this.items := items;
    }

    /** `getItem(key)`: the stored text, or null. */
    method GetItem(key: string) returns (v: Option<string>)
      ensures v.Some? <==> key in items
      ensures v.Some? ==> v.value == items[key]
    {
      if key in items {
        v := Some(items[key]);
      } else {
        v := None;
      }
    }

    /** `setItem(key, value)`. */
    method SetItem(key: string, value: string)
      modifies this
      ensures items == old(items)[key := value]
    {
      items := items[key := value];
    }

    /** `removeItem(key)`. */
    method RemoveItem(key: string)
      modifies this
      ensures items == old(items) - {key}
    {
      items := items - {key};
    }
  }
}
