/** The JSON values a submission carries, records as ordered key/value lists
    (the shape of a parsed JSON object), JavaScript truthiness, and
    `JSON.stringify`, whose output is what the submissions table stores and
    what the list endpoint searches. */
module Json {
  import opened Strings

  /** A submitted value: `string | number | boolean | string[]`, plus `null`.
      `undefined` is not a value here: it is a key that is absent. */
  datatype Value = Null | Bool(b: bool) | Num(n: int) | Str(s: string) | Arr(items: seq<string>)

  datatype Entry = Entry(key: string, value: Value)

  /** A JSON object in key order. */
  type Record = seq<Entry>

  /** `record[key]`: `None` for `undefined`. As with `JSON.parse`, the last
      occurrence of a repeated key wins. */
  function Get(r: Record, key: string): (v: Option<Value>)
    ensures v.None? <==> forall i :: 0 <= i < |r| ==> r[i].key != key
    ensures v.Some? ==> exists i :: 0 <= i < |r| && r[i] == Entry(key, v.value)
                                    && forall j :: i < j < |r| ==> r[j].key != key
  {
    if r == [] then None
    else if r[|r| - 1].key == key then Some(r[|r| - 1].value)
    else Get(r[..|r| - 1], key)
  }

  /** Reading a key of a record with one more entry in front: the rest
      wins when it has the key. */
  lemma {:induction false} GetCons(e: Entry, r: Record, key: string)
    ensures Get([e] + r, key) ==
              if Get(r, key).Some? then Get(r, key) else if e.key == key then Some(e.value) else None
    decreases |r|
  {
    if r != [] {
      assert ([e] + r)[..|[e] + r| - 1] == [e] + r[..|r| - 1];
      GetCons(e, r[..|r| - 1], key);
    }
  }

  /** The entries of `r` under any key but `key`. */
  function Drop(r: Record, key: string): (d: Record)
    ensures |d| <= |r|
    ensures forall i :: 0 <= i < |d| ==> d[i].key != key
  {
    if r == [] then []
    else if r[0].key == key then Drop(r[1..], key)
    else [r[0]] + Drop(r[1..], key)
  }

  /** Dropping a key leaves every other key's reading alone and makes that
      key undefined. */
  lemma {:induction false} GetDrop(r: Record, key: string, other: string)
    ensures Get(Drop(r, key), other) == if other == key then None else Get(r, other)
  {
    if r != [] {
      GetDrop(r[1..], key, other);
      assert r == [r[0]] + r[1..];
      GetCons(r[0], r[1..], other);
      if r[0].key != key {
        GetCons(r[0], Drop(r[1..], key), other);
      }
    }
  }

  /** The object `JSON.parse` builds from `r`: one entry per key, at the
      key's first position, holding the last value given for it. */
  function Parsed(r: Record): (p: Record)
    decreases |r|
  {
    if r == [] then []
    else
      var v := Get(r, r[0].key);
      assert v.Some? by { assert r[0].key == r[0].key; }
      [Entry(r[0].key, v.value)] + Parsed(Drop(r[1..], r[0].key))
  }

  /** The parsed object reads every key as the record does. */
  lemma {:induction false} ParsedGet(r: Record, key: string)
    ensures Get(Parsed(r), key) == Get(r, key)
    decreases |r|
  {
    if r != [] {
      var k0 := r[0].key;
      var rest := Drop(r[1..], k0);
      var v := Get(r, k0);
      assert v.Some? by { assert r[0].key == k0; }
      assert Parsed(r) == [Entry(k0, v.value)] + Parsed(rest);
      ParsedGet(rest, key);
      GetDrop(r[1..], k0, key);
      GetCons(Entry(k0, v.value), Parsed(rest), key);
      if key != k0 {
        ReadPastOther(r, key);
      }
    }
  }

  lemma ReadPastOther(r: Record, key: string)
    requires r != [] && r[0].key != key
    ensures Get(r, key) == Get(r[1..], key)
  {
    assert r == [r[0]] + r[1..];
    GetCons(r[0], r[1..], key);
  }

  /** Appending an entry under another key does not change what a key reads. */
  lemma GetAppendOther(r: Record, e: Entry, key: string)
    requires e.key != key
    ensures Get(r + [e], key) == Get(r, key)
  {
    assert (r + [e])[..|r|] == r;
  }

  /** `Boolean(v)`. */
  predicate Truthy(v: Value) {
    match v
    case Null => false
    case Bool(b) => b
    case Num(n) => n != 0
    case Str(s) => s != ""
    case Arr(_) => true
  }

  /** `Boolean(v)` where `v` may be `undefined`. */
  predicate TruthyOpt(v: Option<Value>) {
    v.Some? && Truthy(v.value)
  }

  // ---------------------------------------------------------------------
  // JSON.stringify

  function HexDigit(d: nat): char
    requires d < 16
  {
    if d < 10 then Digit(d) else ('a' as int + d - 10) as char
  }

  /** The characters `JSON.stringify` writes as themselves inside a string. */
  predicate Plain(c: char) {
    c != '"' && c != '\\' && c as int >= 0x20
  }

  /** One character of a JSON string literal, as `JSON.stringify` escapes it. */
  function EscapeChar(c: char): (r: string)
    ensures Plain(c) <==> r == [c]
  {
    if c == '"' then "\\\""
    else if c == '\\' then "\\\\"
    else if c == '\U{0008}' then "\\b"
    else if c == '\t' then "\\t"
    else if c == '\n' then "\\n"
    else if c == '\U{000C}' then "\\f"
    else if c == '\r' then "\\r"
    else if c as int < 0x20 then "\\u00" + [HexDigit(c as int / 16), HexDigit(c as int % 16)]
    else [c]
  }

  function Escape(s: string): string {
    if s == [] then "" else EscapeChar(s[0]) + Escape(s[1..])
  }

  /** A string of plain characters is written unchanged between the quotes. */
  lemma {:induction false} EscapePlain(s: string)
    requires forall i :: 0 <= i < |s| ==> Plain(s[i])
    ensures Escape(s) == s
  {
    if s != [] {
      EscapePlain(s[1..]);
      assert s == [s[0]] + s[1..];
    }
  }

  function Quote(s: string): string {
    "\"" + Escape(s) + "\""
  }

  function QuotedList(xs: seq<string>): string {
    if |xs| == 0 then "" else if |xs| == 1 then Quote(xs[0]) else Quote(xs[0]) + "," + QuotedList(xs[1..])
  }

  function Encode(v: Value): string {
    match v
    case Null => "null"
    case Bool(b) => if b then "true" else "false"
    case Num(n) => IntToString(n)
    case Str(s) => Quote(s)
    case Arr(xs) => "[" + QuotedList(xs) + "]"
  }

  function EncodeEntry(e: Entry): string {
    Quote(e.key) + ":" + Encode(e.value)
  }

  function EncodeEntries(r: Record): string {
    if |r| == 0 then "" else if |r| == 1 then EncodeEntry(r[0]) else EncodeEntry(r[0]) + "," + EncodeEntries(r[1..])
  }

  /** `JSON.stringify(record)` of the object parsed from `record`. */
  function Stringify(r: Record): string {
    "{" + EncodeEntries(Parsed(r)) + "}"
  }

  /** The serialised form of every entry stands inside the serialised entries. */
  lemma {:induction false} EntryInEntries(r: Record, k: nat)
    requires k < |r|
    ensures Contains(EncodeEntries(r), EncodeEntry(r[k]))
  {
    if |r| == 1 {
      ContainsSelf(EncodeEntry(r[0]));
    } else if k == 0 {
      ContainsStart(EncodeEntry(r[0]), "," + EncodeEntries(r[1..]));
      EncodeEntriesSplit(r);
    } else {
      EntryInEntries(r[1..], k - 1);
      assert r[1..][k - 1] == r[k];
      ContainsAppendRight(EncodeEntry(r[0]) + ",", EncodeEntries(r[1..]), EncodeEntry(r[k]));
    }
  }

  lemma EncodeEntriesSplit(r: Record)
    requires |r| >= 2
    ensures EncodeEntries(r) == EncodeEntry(r[0]) + ("," + EncodeEntries(r[1..]))
  {
  }

  /** A string value made of plain characters is found, as typed, in its
      serialised entry. */
  lemma PlainValueInEntry(e: Entry)
    requires e.value.Str?
    requires forall i :: 0 <= i < |e.value.s| ==> Plain(e.value.s[i])
    ensures Contains(EncodeEntry(e), e.value.s)
  {
    var s := e.value.s;
    EscapePlain(s);
    assert Encode(e.value) == "\"" + s + "\"";
    ContainsMiddle(Quote(e.key) + ":\"", s, "\"");
    assert Quote(e.key) + ":\"" + s + "\"" == EncodeEntry(e);
  }

  /** Hence a plain string that a key of the record reads is found in the
      serialised record, so a search for it matches the row. */
  lemma StringifyContainsPlainValue(r: Record, key: string, s: string)
    requires Get(r, key) == Some(Str(s))
    requires forall i :: 0 <= i < |s| ==> Plain(s[i])
    ensures Contains(Stringify(r), s)
  {
    var p := Parsed(r);
    ParsedGet(r, key);
    var k :| 0 <= k < |p| && p[k] == Entry(key, Str(s));
    PlainValueInEntry(p[k]);
    EntryInEntries(p, k);
    ContainsMiddle("{", EncodeEntries(p), "}");
    ContainsTransitive(Stringify(r), EncodeEntries(p), EncodeEntry(p[k]));
    ContainsTransitive(Stringify(r), EncodeEntry(p[k]), s);
  }
}
