/** JSON values as the service handles them after parsing, and the little text handling they need. */
module Json {

  datatype Json =
    | Null
    | Bool(value: bool)
    | Num(number: real)
    | Str(text: string)
    | Arr(items: seq<Json>)
    | Obj(members: map<string, Json>)

  type Values = map<string, Json>

  /** A missing member reads as null. */
  function Lookup(values: Values, name: string): Json {
    if name in values then values[name] else Null
  }

  /** White space in the sense of Unicode. */
  predicate IsSpace(c: char) {
    var n := c as int;
    || 9 <= n <= 13 || n == 32 || n == 0x85 || n == 0xA0 || n == 0x1680 || 0x2000 <= n <= 0x200A
    || n == 0x2028 || n == 0x2029 || n == 0x202F || n == 0x205F || n == 0x3000
  }

  function TrimLeft(s: string): string {
    if s != [] && IsSpace(s[0]) then TrimLeft(s[1..]) else s
  }

  function TrimRight(s: string): string {
    if s != [] && IsSpace(s[|s| - 1]) then TrimRight(s[..|s| - 1]) else s
  }

  function Trim(s: string): string {
    TrimRight(TrimLeft(s))
  }

  predicate Trimmed(s: string) {
    s != [] ==> !IsSpace(s[0]) && !IsSpace(s[|s| - 1])
  }

  lemma {:induction false} TrimLeftStops(s: string)
    ensures TrimLeft(s) != [] ==> !IsSpace(TrimLeft(s)[0])
  {
    if s != [] && IsSpace(s[0]) {
      TrimLeftStops(s[1..]);
    }
  }

  lemma {:induction false} TrimRightStops(s: string)
    ensures TrimRight(s) <= s && (TrimRight(s) != [] ==> !IsSpace(TrimRight(s)[|TrimRight(s)| - 1]))
  {
    if s != [] && IsSpace(s[|s| - 1]) {
      TrimRightStops(s[..|s| - 1]);
    }
  }

  /** Trimming leaves no space at either end, and nothing to do for a second trim. */
  lemma TrimTrims(s: string)
    ensures Trimmed(Trim(s)) && Trim(Trim(s)) == Trim(s)
    ensures Trimmed(s) ==> Trim(s) == s
  {
    TrimLeftStops(s);
    TrimRightStops(TrimLeft(s));
    var t := Trim(s);
    assert t != [] ==> t[0] == TrimLeft(s)[0];
    assert TrimLeft(t) == t && TrimRight(t) == t;
  }

  function UpperChar(c: char): char {
    if 'a' <= c <= 'z' then ((c as int) - 32) as char else c
  }

  /** Null, blank text and the empty list count as no value. */
  predicate Empty(v: Json) {
    v.Null? || (v.Str? && Trim(v.text) == "") || (v.Arr? && v.items == [])
  }
}
