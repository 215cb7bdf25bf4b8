/** JSON values as the invoice messages see them after parsing, the two lookups the parsers use,
    and the length of a string once `json.dumps` has escaped it with its default ASCII-only
    output. Parsing and printing whole documents are parameters of the model (`JsonCodec`). */
module Json {
  import opened Results

  datatype Json =
    | JNull
    | JBool(b: bool)
    | JInt(i: int)
    | JReal(r: real)
    | JString(s: string)
    | JArray(items: seq<Json>)
    | JObject(fields: map<string, Json>)

  /** `json.loads` and `json.dumps`: `loads` fails (`None`) on text that is not JSON. */
  datatype JsonCodec = JsonCodec(loads: string -> Option<Json>, dumps: Json -> string)

  /** The codec's parser reads back the value its printer wrote. */
  predicate ReadsBack(codec: JsonCodec, j: Json) {
    codec.loads(codec.dumps(j)) == Some(j)
  }

  /** `d.get(key)`: nothing for a missing key and for an explicit `null` alike. */
  function Get(fields: map<string, Json>, key: string): (r: Option<Json>)
    ensures r.Some? <==> key in fields && fields[key] != JNull
    ensures r.Some? ==> r.value == fields[key]
  {
    if key in fields && fields[key] != JNull then Some(fields[key]) else None
  }

  /** The characters that `json.dumps` writes for one character of a string. */
  function EscapedLength(c: char): nat {
    if c == '"' || c == '\\' then 2
    else if c == '\n' || c == '\r' || c == '\t' || c == '\U{8}' || c == '\U{C}' then 2
    else if ' ' <= c <= '~' then 1
    else if (c as int) < 0x1_0000 then 6
    else 12
  }

  function EscapedBody(s: string): nat
    decreases |s|
  {
    if |s| == 0 then 0 else EscapedLength(s[0]) + EscapedBody(s[1..])
  }

  /** `len(json.dumps(s))` for a string `s`: the quotes plus each escaped character. Escaping
      never shortens a string and at most multiplies it by twelve. */
  function DumpedLength(s: string): (r: nat)
    ensures |s| + 2 <= r <= 12 * |s| + 2
  {
    EscapedBodyBounds(s);
    2 + EscapedBody(s)
  }

  /** A printable ASCII character that `json.dumps` copies as it is. */
  predicate Plain(c: char) {
    ' ' <= c <= '~' && c != '"' && c != '\\'
  }

  lemma {:induction false} EscapedBodyBounds(s: string)
    ensures |s| <= EscapedBody(s) <= 12 * |s|
    decreases |s|
  {
    if |s| > 0 {
      EscapedBodyBounds(s[1..]);
    }
  }

  lemma {:induction false} PlainBody(s: string)
    requires forall i | 0 <= i < |s| :: Plain(s[i])
    ensures EscapedBody(s) == |s|
    decreases |s|
  {
    if |s| > 0 {
      assert Plain(s[0]);
      PlainBody(s[1..]);
    }
  }

  /** A string of plain characters dumps to itself in quotes. */
  lemma PlainDumpedLength(s: string)
    requires forall i | 0 <= i < |s| :: Plain(s[i])
    ensures DumpedLength(s) == |s| + 2
  {
    PlainBody(s);
  }
}
