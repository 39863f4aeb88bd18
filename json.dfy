/** JSON values as Python's `json` module hands them to the handlers, with the
    Python operations the handlers apply to them: `in`, `[...]`, `.get`,
    truthiness, `str()`, `repr()` and `json.dumps`. */
module Json {
  import opened Base
  import opened Text

  /** A decoded JSON value. A Python dict keeps its keys in insertion order, so
      an object is a sequence of (key, value) pairs; JSON numbers are taken to
      be integers. A dict `json.loads` returns holds each key once (a repeated
      key keeps its last value), so an object the decoder gives back is meant
      to have distinct keys; `Lookup` reads the first entry for a key, which
      is then the only one. */
  datatype Value =
    | Null
    | Bool(b: bool)
    | Num(n: int)
    | Str(s: string)
    | Arr(items: seq<Value>)
    | Obj(fields: seq<(string, Value)>)

  /** The outcome of `json.loads(text)`, which the model takes as given. */
  datatype Decoded = Parsed(value: Value) | DecodeError(message: string)

  /** `json.loads`, as an input to every handler that decodes text. */
  type Decoder = string -> Decoded

  /** `d.get(key)` on a dict: the value of the first entry with that key. */
  function Lookup(fields: seq<(string, Value)>, key: string): (r: Option<Value>)
    ensures r.None? <==> forall i :: 0 <= i < |fields| ==> fields[i].0 != key
    ensures r.Some? ==> exists i :: 0 <= i < |fields| && fields[i] == (key, r.value)
  {
    if fields == [] then None
    else if fields[0].0 == key then Some(fields[0].1)
    else
      var r := Lookup(fields[1..], key);
      assert forall i :: 1 <= i < |fields| ==> fields[i] == fields[1..][i - 1];
      r
  }

  /** The value of the first entry carrying `key`, found at index `i`. */
  lemma {:induction false} LookupAt(fields: seq<(string, Value)>, key: string, i: nat)
    requires i < |fields| && fields[i].0 == key
    requires forall j :: 0 <= j < i ==> fields[j].0 != key
    ensures Lookup(fields, key) == Some(fields[i].1)
  {
    if i > 0 {
      LookupAt(fields[1..], key, i - 1);
    }
  }

  /** `type(v).__name__`. */
  function TypeName(v: Value): string {
    match v
    case Null => "NoneType"
    case Bool(_) => "bool"
    case Num(_) => "int"
    case Str(_) => "str"
    case Arr(_) => "list"
    case Obj(_) => "dict"
  }

  /** Python truthiness: `None`, `False`, `0` and empty strings, lists and
      dicts are false. */
  predicate Truthy(v: Value) {
    match v
    case Null => false
    case Bool(b) => b
    case Num(n) => n != 0
    case Str(s) => s != ""
    case Arr(items) => items != []
    case Obj(fields) => fields != []
  }

  /** `v.get(key, default)`: only a dict has `.get`. */
  function Get(v: Value, key: string, default: Value): (r: Result<Value>)
    ensures r.Ok? <==> v.Obj?
    ensures v.Obj? && Lookup(v.fields, key).None? ==> r.value == default
    ensures v.Obj? && Lookup(v.fields, key).Some? ==> r.value == Lookup(v.fields, key).value
  {
    match v
    case Obj(fields) => Ok(match Lookup(fields, key) case Some(x) => x case None => default)
    case _ => Raise("'" + TypeName(v) + "' object has no attribute 'get'")
  }

  /** `key in v` for a string `key`: dict keys, a substring of a string, or an
      element of a list; every other type raises. */
  function In(key: string, v: Value): Result<bool> {
    match v
    case Obj(fields) => Ok(Lookup(fields, key).Some?)
    case Str(s) => Ok(Contains(s, key))
    case Arr(items) => Ok(Str(key) in items)
    case _ => Raise("argument of type '" + TypeName(v) + "' is not iterable")
  }

  /** `v[key]` for a string `key`. */
  function Subscript(v: Value, key: string): (r: Result<Value>)
    ensures r.Ok? <==> v.Obj? && Lookup(v.fields, key).Some?
    ensures r.Ok? ==> r.value == Lookup(v.fields, key).value
  {
    match v
    case Obj(fields) =>
      (match Lookup(fields, key)
       case Some(x) => Ok(x)
       case None => Raise(StrRepr(key)))
    case Str(_) => Raise("string indices must be integers, not 'str'")
    case Arr(_) => Raise("list indices must be integers or slices, not str")
    case _ => Raise("'" + TypeName(v) + "' object is not subscriptable")
  }

  /** One character of `repr(s)` when `s` is quoted with `quote`. Non-ASCII
      characters are kept as they are (see README). */
  function ReprChar(c: char, quote: char): string {
    if c == quote || c == '\\' then ['\\', c]
    else if c == '\t' then "\\t"
    else if c == '\n' then "\\n"
    else if c == '\r' then "\\r"
    else if c < ' ' || c == '\U{7f}' then "\\x" + Hex(c as int, 2)
    else [c]
  }

  function ReprBody(s: string, quote: char): string {
    if s == [] then [] else ReprChar(s[0], quote) + ReprBody(s[1..], quote)
  }

  /** `repr(s)` of a string: single quotes unless `s` contains a single quote
      and no double quote. */
  function StrRepr(s: string): string {
    var quote := if '\'' in s && '"' !in s then '"' else '\'';
    [quote] + ReprBody(s, quote) + [quote]
  }

  /** `repr(v)`, as `str()` of a list or dict prints its members. */
  function Repr(v: Value): string {
    match v
    case Str(s) => StrRepr(s)
    case Arr(items) =>
      "[" + Join(seq(|items|, i requires 0 <= i < |items| => Repr(items[i])), ", ") + "]"
    case Obj(fields) =>
      "{" + Join(seq(|fields|, i requires 0 <= i < |fields| =>
                    StrRepr(fields[i].0) + ": " + Repr(fields[i].1)), ", ") + "}"
    case Null => "None"
    case Bool(b) => if b then "True" else "False"
    case Num(n) => IntToString(n)
  }

  /** `str(v)`, which is also what an f-string prints for `{v}`: a string is
      printed as it is, anything else as its `repr`. */
  function PyStr(v: Value): (r: string)
    ensures v.Str? ==> r == v.s
  {
    if v.Str? then v.s else Repr(v)
  }

  /** A character `json.dumps` writes as it is: printable ASCII other than `"`
      and backslash. */
  predicate PlainJsonChar(c: char) {
    ' ' <= c <= '~' && c != '"' && c != '\\'
  }

  predicate PrintableAscii(s: string) {
    forall i :: 0 <= i < |s| ==> ' ' <= s[i] <= '~'
  }

  /** One character of a string literal written by `json.dumps` with its
      default `ensure_ascii=True`: short escapes for the quote, the backslash
      and five control characters, `\uXXXX` for everything else outside
      printable ASCII, and a surrogate pair above U+FFFF. */
  function JsonChar(c: char): (r: string)
    ensures PrintableAscii(r)
    ensures PlainJsonChar(c) ==> r == [c]
  {
    var n := c as int;
    if c == '"' then "\\\""
    else if c == '\\' then "\\\\"
    else if c == '\n' then "\\n"
    else if c == '\r' then "\\r"
    else if c == '\t' then "\\t"
    else if c == '\U{8}' then "\\b"
    else if c == '\U{c}' then "\\f"
    else if ' ' <= c <= '~' then [c]
    else if n < 0x10000 then HexEscape(n)
    else
      var m := n - 0x10000;
      HexEscape(0xd800 + m / 0x400) + HexEscape(0xdc00 + m % 0x400)
  }

  function HexEscape(n: nat): (r: string)
    ensures PrintableAscii(r)
  {
    var h := Hex(n, 4);
    assert forall i :: 0 <= i < |h| ==> h[i] in "0123456789abcdef" by { HexDigits(n, 4); }
    "\\u" + h
  }

  lemma {:induction false} HexDigits(n: nat, width: nat)
    ensures forall i :: 0 <= i < |Hex(n, width)| ==> Hex(n, width)[i] in "0123456789abcdef"
    decreases width
  {
    if width > 0 {
      HexDigits(n / 16, width - 1);
      assert DigitChar(n % 16) in "0123456789abcdef";
    }
  }

  function JsonBody(s: string): (r: string)
    ensures PrintableAscii(r)
    ensures (forall i :: 0 <= i < |s| ==> PlainJsonChar(s[i])) ==> r == s
  {
    if s == [] then []
    else
      var r := JsonChar(s[0]) + JsonBody(s[1..]);
      assert (forall i :: 0 <= i < |s| ==> PlainJsonChar(s[i])) ==> r == [s[0]] + s[1..];
      r
  }

  /** A JSON string literal for `s`: always printable ASCII, and exactly `s`
      in double quotes when `s` needs no escape. */
  function JsonQuote(s: string): (r: string)
    ensures PrintableAscii(r)
    ensures (forall i :: 0 <= i < |s| ==> PlainJsonChar(s[i])) ==> r == "\"" + s + "\""
  {
    "\"" + JsonBody(s) + "\""
  }

  /** `json.dumps(v)` with the default separators `", "` and `": "`. */
  function Dumps(v: Value): string
    decreases v, 1
  {
    match v
    case Null => "null"
    case Bool(b) => if b then "true" else "false"
    case Num(n) => IntToString(n)
    case Str(s) => JsonQuote(s)
    case Arr(items) => "[" + Join(DumpsItems(v), ", ") + "]"
    case Obj(fields) => "{" + Join(DumpsEntries(v), ", ") + "}"
  }

  /** The members of the list `parent`, as `json.dumps` writes them. */
  function DumpsItems(parent: Value): (r: seq<string>)
    requires parent.Arr?
    ensures |r| == |parent.items|
    ensures forall k :: 0 <= k < |r| ==> r[k] == Dumps(parent.items[k])
    decreases parent, 0
  {
    seq(|parent.items|, k requires 0 <= k < |parent.items| => Dumps(parent.items[k]))
  }

  /** The entries of the dict `parent`, as `json.dumps` writes them: the key,
      `": "`, the value. */
  function DumpsEntries(parent: Value): (r: seq<string>)
    requires parent.Obj?
    ensures |r| == |parent.fields|
    ensures forall k :: 0 <= k < |r| ==> r[k] == JsonQuote(parent.fields[k].0) + ": " + Dumps(parent.fields[k].1)
    decreases parent, 0
  {
    seq(|parent.fields|, k requires 0 <= k < |parent.fields| =>
      JsonQuote(parent.fields[k].0) + ": " + Dumps(parent.fields[k].1))
  }

  lemma {:induction false} JoinPrintable(xs: seq<string>, sep: string)
    requires PrintableAscii(sep)
    requires forall k :: 0 <= k < |xs| ==> PrintableAscii(xs[k])
    ensures PrintableAscii(Join(xs, sep))
    decreases |xs|
  {
    if |xs| > 1 {
      JoinPrintable(xs[1..], sep);
    }
  }

  /** `json.dumps` output is printable ASCII whatever the value holds. */
  lemma {:induction false} DumpsPrintable(v: Value)
    ensures PrintableAscii(Dumps(v))
  {
    match v
    case Null =>
    case Bool(_) =>
    case Num(n) => IntPrintable(n);
    case Str(_) =>
    case Arr(items) =>
      var parts := DumpsItems(v);
      forall k | 0 <= k < |parts| ensures PrintableAscii(parts[k]) {
        DumpsPrintable(items[k]);
      }
      JoinPrintable(parts, ", ");
    case Obj(fields) =>
      var parts := DumpsEntries(v);
      forall k | 0 <= k < |parts| ensures PrintableAscii(parts[k]) {
        DumpsPrintable(fields[k].1);
      }
      JoinPrintable(parts, ", ");
  }

  lemma IntPrintable(n: int)
    ensures PrintableAscii(IntToString(n))
  {
  }

  /** The text `json.dumps` writes for a dict whose first key is `key` (a key
      needing no escape) starts with that key in double quotes, so the text
      contains `key`. */
  lemma DumpsFirstKey(key: string, v: Value, rest: seq<(string, Value)>)
    requires forall i :: 0 <= i < |key| ==> PlainJsonChar(key[i])
    ensures Contains(Dumps(Obj([(key, v)] + rest)), key)
  {
    var obj := Obj([(key, v)] + rest);
    var parts := DumpsEntries(obj);
    assert parts[0] == JsonQuote(key) + ": " + Dumps(v);
    KeyInEntry(key, Dumps(v));
    JoinFirst(parts, ", ");
    var tail :| Join(parts, ", ") == parts[0] + tail;
    ContainsPrefix(parts[0], tail, key);
    ContainsWithin("{", parts[0] + tail, "}", key);
  }

  /** A dict entry `"key": value` contains its key. */
  lemma KeyInEntry(key: string, value: string)
    requires forall i :: 0 <= i < |key| ==> PlainJsonChar(key[i])
    ensures Contains(JsonQuote(key) + ": " + value, key)
  {
    ContainsMiddle("\"", key, "\"");
    ContainsPrefix(JsonQuote(key), ": ", key);
    ContainsPrefix(JsonQuote(key) + ": ", value, key);
  }
}
