/** The slice of `serde_json` the program relies on: the dynamic `Value`,
    indexing an object by key (`value["key"]`), and the compact rendering
    that `Value::to_string` produces. */
module Json {
  import opened Base
  import opened Text

  /** `serde_json::Value`. An object keeps its entries in iteration order;
      numbers are integers only. */
  datatype Value =
    | Null
    | Bool(b: bool)
    | Number(n: int)
    | Str(s: string)
    | Array(items: seq<Value>)
    | Object(entries: seq<(string, Value)>)

  /** A `serde_json::Map` never holds a key twice. */
  predicate DistinctKeys(entries: seq<(string, Value)>) {
    forall i, j :: 0 <= i < j < |entries| ==> entries[i].0 != entries[j].0
  }

  /** The value stored under `key`, if any. */
  function Lookup(entries: seq<(string, Value)>, key: string): (r: Option<Value>)
    ensures r.None? <==> forall i :: 0 <= i < |entries| ==> entries[i].0 != key
    ensures r.Some? ==> exists i :: 0 <= i < |entries| && entries[i] == (key, r.value)
  {
    if entries == [] then None
    else if entries[0].0 == key then Some(entries[0].1)
    else Lookup(entries[1..], key)
  }

  /** `v[key]`: the entry of an object, and `Null` when the key is absent or
      `v` is not an object at all. */
  function Index(v: Value, key: string): (r: Value)
    ensures !v.Object? ==> r == Null
    ensures r != Null ==> exists i :: 0 <= i < |v.entries| && v.entries[i] == (key, r)
    ensures v.Object? && DistinctKeys(v.entries) ==>
      forall i :: 0 <= i < |v.entries| && v.entries[i].0 == key ==> r == v.entries[i].1
  {
    if v.Object? then Lookup(v.entries, key).GetOr(Null) else Null
  }

  // ------------------------------------------------------------ rendering

  const HexDigits := "0123456789abcdef"

  /** Whether `c` needs a backslash form inside a JSON string. */
  predicate NeedsEscape(c: char) {
    c == '"' || c == '\\' || c < ' '
  }

  /** The escape sequence `serde_json` writes for one character. */
  function EscapeChar(c: char): string {
    if c == '"' then "\\\""
    else if c == '\\' then "\\\\"
    else if c == '\U{8}' then "\\b"
    else if c == '\U{C}' then "\\f"
    else if c == '\n' then "\\n"
    else if c == '\r' then "\\r"
    else if c == '\t' then "\\t"
    else if c < ' ' then "\\u00" + [HexDigits[c as int / 16], HexDigits[c as int % 16]]
    else [c]
  }

  /** The body of a JSON string literal for `s`. */
  function Escape(s: string): string {
    if s == [] then [] else EscapeChar(s[0]) + Escape(s[1..])
  }

  function Join(parts: seq<string>): string {
    if |parts| == 0 then ""
    else if |parts| == 1 then parts[0]
    else parts[0] + "," + Join(parts[1..])
  }

  /** `v.to_string()`: compact JSON text, whose first character tells the
      kind of value. */
  function Render(v: Value): (r: string)
    ensures |r| >= 1
    ensures r[0] == '"' <==> v.Str?
    ensures r[0] == '[' <==> v.Array?
    ensures r[0] == '{' <==> v.Object?
    ensures r[0] == '-' || IsDigit(r[0]) <==> v.Number?
  {
    match v
    case Null => "null"
    case Bool(b) => if b then "true" else "false"
    case Number(n) => IntToString(n)
    case Str(s) => "\"" + Escape(s) + "\""
    case Array(items) =>
      "[" + Join(seq(|items|, i requires 0 <= i < |items| => Render(items[i]))) + "]"
    case Object(entries) =>
      "{" + Join(seq(|entries|, i requires 0 <= i < |entries| =>
                      "\"" + Escape(entries[i].0) + "\":" + Render(entries[i].1))) + "}"
  }

  /** A string with nothing to escape is rendered as itself between quotes. */
  lemma {:induction false} EscapePlain(s: string)
    requires forall i :: 0 <= i < |s| ==> !NeedsEscape(s[i])
    ensures Escape(s) == s
  {
    if s != [] {
      EscapePlain(s[1..]);
      assert s == [s[0]] + s[1..];
    }
  }

  /** A string renders between quotes, escaped; one with nothing to escape
      renders as itself between quotes. */
  lemma RenderString(s: string)
    ensures Render(Str(s)) == "\"" + Escape(s) + "\""
    ensures (forall i :: 0 <= i < |s| ==> !NeedsEscape(s[i])) ==> Render(Str(s)) == "\"" + s + "\""
  {
    if forall i :: 0 <= i < |s| ==> !NeedsEscape(s[i]) {
      EscapePlain(s);
    }
  }

  /** Escaping never shortens a string, and it lengthens it exactly when some
      character needs an escape. */
  lemma {:induction false} EscapeLength(s: string)
    ensures |Escape(s)| >= |s|
    ensures |Escape(s)| == |s| <==> forall i :: 0 <= i < |s| ==> !NeedsEscape(s[i])
  {
    if s != [] {
      EscapeLength(s[1..]);
      assert forall i :: 1 <= i < |s| ==> s[i] == s[1..][i - 1];
    }
  }
}
