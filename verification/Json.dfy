/** Decoded JSON, and finding the object in a noisy reply. Decoding itself is an arbitrary function. */
module Json {
  import opened Wrappers
  import opened Text

  datatype Value =
    | Null
    | Bool(b: bool)
    | Int(n: int)
    | Float(r: real)
    | NotFinite
    | Str(s: string)
    | List(items: seq<Value>)
    | Object(fields: map<string, Value>)
  {
    /** Dictionary lookup with a default. */
    function Get(key: string, fallback: Value): Value {
      if Object? && key in fields then fields[key] else fallback
    }

    /** Lists and objects cannot be members of a set. */
    predicate Hashable() { !List? && !Object? }

    predicate Truthy() {
      match this
      case Null => false
      case Bool(b) => b
      case Int(n) => n != 0
      case Float(r) => r != 0.0
      case NotFinite => true
      case Str(s) => s != ""
      case List(items) => items != []
      case Object(fields) => fields != map[]
    }
  }

  type Decoder = string -> Option<Value>

  function FirstBrace(s: string): (i: nat)
    ensures i <= |s| && (i < |s| ==> s[i] == '{') && forall k | 0 <= k < i :: s[k] != '{'
  {
    if s == "" || s[0] == '{' then 0 else 1 + FirstBrace(s[1..])
  }

  function LastBrace(s: string): (i: int)
    ensures -1 <= i < |s| && (i >= 0 ==> s[i] == '}') && forall k | i < k < |s| :: s[k] != '}'
  {
    if s == "" then -1 else if s[|s| - 1] == '}' then |s| - 1 else LastBrace(s[..|s| - 1])
  }

  /** The text from the first opening to the last closing brace, if they are in that order. */
  function BracedPart(s: string): Option<string> {
    var i, j := FirstBrace(s), LastBrace(s);
    if i < |s| && j > i then Some(s[i..j + 1]) else None
  }

  predicate NonBlankText(v: Value) {
    v.Str? && Strip(v.s) != ""
  }
}
