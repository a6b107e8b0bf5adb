/** Decoded JSON values as Python sees them, and the Python built-ins the
    build-order code applies to them: `v[key]`, `key in v`, `len(v)`,
    iteration, `isinstance(v, int)`, `str(v)` and `repr(v)`, and the
    assignment `d[key] = x`. Every built-in that can raise returns a
    `Result`, so the exceptions the source catches (or lets escape) are
    explicit values. */
module PyJson {

  /** A value produced by decoding JSON. A dict is an association list in
      insertion order; as in a Python dict, its keys are expected to be
      distinct, and lookups take the first entry with the key. */
  datatype Json =
    | JNull
    | JBool(b: bool)
    | JInt(i: int)
    | JStr(s: string)
    | JList(items: seq<Json>)
    | JDict(entries: seq<(string, Json)>)

  /** The Python type of a value, as named in a TypeError. */
  datatype PyType = NoneType | BoolType | IntType | StrType | ListType | DictType

  /** The built-in operation that raised a TypeError. */
  datatype Operation = Subscript | Membership | Hashing | Length | Iteration | Arithmetic

  datatype Exception =
    | KeyError(key: string)
    | TypeError(operation: Operation, operand: PyType)
    | AssertionError

  /** The outcome of a Python expression: a value, or a raised exception. */
  datatype Result<+T> = Ok(value: T) | Raise(exc: Exception) {
    predicate IsFailure() { Raise? }
    function PropagateFailure<U>(): Result<U>
      requires Raise?
    {
      Raise(exc)
    }
    function Extract(): T
      requires Ok?
    {
      value
    }
  }

  datatype Option<+T> = None | Some(value: T)

  function TypeOf(v: Json): PyType {
    match v
    case JNull => NoneType
    case JBool(_) => BoolType
    case JInt(_) => IntType
    case JStr(_) => StrType
    case JList(_) => ListType
    case JDict(_) => DictType
  }

  /** The value stored under `key`, first entry first. */
  function Lookup(entries: seq<(string, Json)>, key: string): Option<Json> {
    if entries == [] then None
    else if entries[0].0 == key then Some(entries[0].1)
    else Lookup(entries[1..], key)
  }

  /** The first entry with `key` decides the lookup. */
  lemma {:induction false} LookupAt(entries: seq<(string, Json)>, key: string, i: nat)
    requires i < |entries| && entries[i].0 == key
    requires forall j :: 0 <= j < i ==> entries[j].0 != key
    ensures Lookup(entries, key) == Some(entries[i].1)
  {
    if i > 0 {
      LookupAt(entries[1..], key, i - 1);
    }
  }

  /** A key no entry carries is absent. */
  lemma {:induction false} LookupAbsent(entries: seq<(string, Json)>, key: string)
    requires forall j :: 0 <= j < |entries| ==> entries[j].0 != key
    ensures Lookup(entries, key) == None
  {
    if entries != [] {
      LookupAbsent(entries[1..], key);
    }
  }

  /** `key in d` for a dict. */
  predicate HasKey(entries: seq<(string, Json)>, key: string) {
    Lookup(entries, key).Some?
  }

  /** The keys of a dict, in order. */
  function Keys(entries: seq<(string, Json)>): seq<string> {
    if entries == [] then [] else [entries[0].0] + Keys(entries[1..])
  }

  /** `d[key] = x` on a dict: an existing key keeps its position and gets
      the new value; a new key is appended at the end. */
  function SetItem(entries: seq<(string, Json)>, key: string, x: Json): (r: seq<(string, Json)>)
    ensures Lookup(r, key) == Some(x)
    ensures HasKey(entries, key) ==> Keys(r) == Keys(entries)
    ensures !HasKey(entries, key) ==> r == entries + [(key, x)]
  {
    if entries == [] then [(key, x)]
    else if entries[0].0 == key then [(key, x)] + entries[1..]
    else [entries[0]] + SetItem(entries[1..], key, x)
  }

  /** `d[key] = x` leaves every other key's value as it was. */
  lemma {:induction false} SetItemOther(entries: seq<(string, Json)>, key: string, x: Json, k: string)
    requires k != key
    ensures Lookup(SetItem(entries, key, x), k) == Lookup(entries, k)
  {
    if entries != [] && entries[0].0 != key {
      SetItemOther(entries[1..], key, x, k);
      assert SetItem(entries, key, x)[1..] == SetItem(entries[1..], key, x);
    }
  }

  /** Storing the value a key already has changes nothing. */
  lemma {:induction false} SetItemSame(entries: seq<(string, Json)>, key: string, x: Json)
    requires Lookup(entries, key) == Some(x)
    ensures SetItem(entries, key, x) == entries
  {
    if entries[0].0 != key {
      SetItemSame(entries[1..], key, x);
    }
  }

  /** A second store under the same key overrides the first. */
  lemma {:induction false} SetItemTwice(entries: seq<(string, Json)>, key: string, x: Json, y: Json)
    ensures SetItem(SetItem(entries, key, x), key, y) == SetItem(entries, key, y)
  {
    if entries != [] && entries[0].0 != key {
      SetItemTwice(entries[1..], key, x, y);
      assert SetItem(entries, key, x)[1..] == SetItem(entries[1..], key, x);
    }
  }

  /** Python's `needle in haystack` for two strings: a substring test. */
  predicate IsSubstring(needle: string, haystack: string)
  {
    needle <= haystack || (haystack != [] && IsSubstring(needle, haystack[1..]))
  }

  /** The types for which `key in v` does not raise. */
  predicate SupportsIn(v: Json) {
    v.JDict? || v.JList? || v.JStr?
  }

  /** `key in v` for a string `key`: a key test on a dict, an element test
      on a list, a substring test on a string, a TypeError otherwise. */
  function Contains(v: Json, key: string): (r: Result<bool>)
    ensures r.Raise? <==> !SupportsIn(v)
    ensures r.Raise? ==> r.exc == TypeError(Membership, TypeOf(v))
    ensures v.JDict? ==> r == Ok(HasKey(v.entries, key))
    ensures v.JList? ==> r == Ok(JStr(key) in v.items)
  {
    match v
    case JDict(entries) => Ok(Lookup(entries, key).Some?)
    case JList(items) => Ok(JStr(key) in items)
    case JStr(s) => Ok(IsSubstring(key, s))
    case _ => Raise(TypeError(Membership, TypeOf(v)))
  }

  /** `v[key]` for a string `key`: a KeyError on a dict without the key,
      a TypeError on anything but a dict. */
  function GetItem(v: Json, key: string): (r: Result<Json>)
    ensures r.Ok? <==> v.JDict? && HasKey(v.entries, key)
    ensures r.Ok? ==> Lookup(v.entries, key) == Some(r.value)
    ensures r.Raise? && v.JDict? ==> r.exc == KeyError(key)
    ensures !v.JDict? ==> r == Raise(TypeError(Subscript, TypeOf(v)))
  {
    match v
    case JDict(entries) =>
      (match Lookup(entries, key)
       case Some(x) => Ok(x)
       case None => Raise(KeyError(key)))
    case _ => Raise(TypeError(Subscript, TypeOf(v)))
  }

  /** `len(v)`. */
  function Len(v: Json): (r: Result<nat>)
    ensures r.Raise? <==> !SupportsIn(v)
    ensures r.Raise? ==> r.exc == TypeError(Length, TypeOf(v))
  {
    match v
    case JDict(entries) => Ok(|entries|)
    case JList(items) => Ok(|items|)
    case JStr(s) => Ok(|s|)
    case _ => Raise(TypeError(Length, TypeOf(v)))
  }

  /** The values a `for` loop over `v` visits: the elements of a list, the
      keys of a dict, the one-character strings of a string. */
  function Iter(v: Json): (r: Result<seq<Json>>)
    ensures r.Raise? <==> !SupportsIn(v)
    ensures r.Raise? ==> r.exc == TypeError(Iteration, TypeOf(v))
    ensures r.Ok? ==> Len(v) == Ok(|r.value|)
    ensures v.JList? ==> r == Ok(v.items)
    ensures r.Ok? && !v.JList? ==> forall x :: x in r.value ==> x.JStr?
  {
    match v
    case JDict(entries) => Ok(seq(|entries|, i requires 0 <= i < |entries| => JStr(entries[i].0)))
    case JList(items) => Ok(items)
    case JStr(s) => Ok(seq(|s|, i requires 0 <= i < |s| => JStr([s[i]])))
    case _ => Raise(TypeError(Iteration, TypeOf(v)))
  }

  /** `isinstance(v, int)`: a bool is an int in Python. */
  predicate IsInt(v: Json) {
    v.JInt? || v.JBool?
  }

  /** `int(v)` for a value with `IsInt(v)`. */
  function IntValue(v: Json): int
    requires IsInt(v)
  {
    if v.JBool? then (if v.b then 1 else 0) else v.i
  }

  function DigitChar(d: nat): char
    requires d < 10
  {
    "0123456789"[d]
  }

  function HexDigit(d: nat): char
    requires d < 16
  {
    "0123456789abcdef"[d]
  }

  function NatToString(n: nat): (s: string)
    ensures |s| > 0
    decreases n
  {
    if n < 10 then [DigitChar(n)] else NatToString(n / 10) + [DigitChar(n % 10)]
  }

  /** `str(n)` for an int. */
  function IntToString(n: int): (s: string)
    ensures |s| > 0
  {
    if n < 0 then "-" + NatToString(-n) else NatToString(n)
  }

  /** One character inside Python's `repr` of a string quoted with `q`. */
  function EscapeChar(c: char, q: char): string {
    if c == q || c == '\\' then ['\\', c]
    else if c == '\t' then "\\t"
    else if c == '\n' then "\\n"
    else if c == '\r' then "\\r"
    else if c as int < 0x20 || c as int == 0x7F then "\\x" + [HexDigit(c as int / 16), HexDigit(c as int % 16)]
    else [c]
  }

  function EscapeString(s: string, q: char): string {
    if s == [] then "" else EscapeChar(s[0], q) + EscapeString(s[1..], q)
  }

  /** `repr(s)` for a string: single quotes unless the text holds a single
      quote and no double quote. */
  function ReprString(s: string): (r: string)
    ensures |r| >= 2
  {
    var q := if '\'' in s && '"' !in s then '"' else '\'';
    [q] + EscapeString(s, q) + [q]
  }

  /** `repr(v)`: strings are quoted, everything else prints as `str`. */
  function Repr(v: Json): string
    decreases v, 1
  {
    match v
    case JStr(s) => ReprString(s)
    case _ => Str(v)
  }

  function Join(parts: seq<string>): string {
    if parts == [] then ""
    else if |parts| == 1 then parts[0]
    else parts[0] + ", " + Join(parts[1..])
  }

  /** `str(v)`, as an f-string renders `{v}`. */
  function Str(v: Json): string
    decreases v, 0
  {
    match v
    case JNull => "None"
    case JBool(b) => if b then "True" else "False"
    case JInt(n) => IntToString(n)
    case JStr(s) => s
    case JList(items) =>
      "[" + Join(seq(|items|, i requires 0 <= i < |items| => Repr(items[i]))) + "]"
    case JDict(entries) =>
      "{" + Join(seq(|entries|, i requires 0 <= i < |entries| =>
                       ReprString(entries[i].0) + ": " + Repr(entries[i].1))) + "}"
  }
}
