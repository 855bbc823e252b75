/** JSON values as the Hub's Python code sees them after json.loads. */
module Json {
  datatype Json =
    | Null
    | Bool(b: bool)
    | Num(n: int)
    | Str(s: string)
    | List(items: seq<Json>)
    | Obj(fields: map<string, Json>)

  /** Whether Python takes the value for true. */
  predicate Truthy(v: Json) {
    match v
    case Null => false
    case Bool(b) => b
    case Num(n) => n != 0
    case Str(s) => s != ""
    case List(items) => items != []
    case Obj(fields) => fields != map[]
  }

  /** The value under a key, null when there is none. */
  function Field(fields: map<string, Json>, key: string): Json {
    if key in fields then fields[key] else Null
  }

  function LowerChar(c: char): char {
    if 'A' <= c <= 'Z' then (c as int - 'A' as int + 'a' as int) as char else c
  }

  function Lower(s: string): string {
    seq(|s|, i requires 0 <= i < |s| => LowerChar(s[i]))
  }

  predicate EndsWith(s: string, suffix: string) {
    |suffix| <= |s| && s[|s| - |suffix|..] == suffix
  }

  predicate StartsWith(s: string, prefix: string) {
    |prefix| <= |s| && s[..|prefix|] == prefix
  }

  predicate IsSpace(c: char) {
    c in {' ', '\t', '\n', '\r'}
  }

  /** Nothing but blanks. */
  predicate IsBlank(s: string) {
    forall i :: 0 <= i < |s| ==> IsSpace(s[i])
  }

  function StripLeft(s: string): string {
    if s != "" && IsSpace(s[0]) then StripLeft(s[1..]) else s
  }

  function StripRight(s: string): string {
    if s != "" && IsSpace(s[|s| - 1]) then StripRight(s[..|s| - 1]) else s
  }

  /** A text field without surrounding blanks; anything else reads as no text. */
  function Text(v: Json): string {
    if v.Str? then StripRight(StripLeft(v.s)) else ""
  }

  /** Code-point order of texts. */
  predicate TextBefore(a: string, b: string) {
    if a == "" then b != ""
    else b != "" && (a[0] < b[0] || (a[0] == b[0] && TextBefore(a[1..], b[1..])))
  }

  /** The order of texts is total and transitive: "not before" composes. */
  lemma {:induction false} TextNotBefore(a: string, b: string, c: string)
    requires !TextBefore(a, b) && !TextBefore(b, c)
    ensures !TextBefore(a, c)
  {
    if a != "" && b != "" && c != "" && a[0] == b[0] == c[0] {
      TextNotBefore(a[1..], b[1..], c[1..]);
    }
  }

  lemma {:induction false} TextOneWay(a: string, b: string)
    requires TextBefore(a, b)
    ensures !TextBefore(b, a)
  {
    if a != "" && b != "" && a[0] == b[0] {
      TextOneWay(a[1..], b[1..]);
    }
  }
}
