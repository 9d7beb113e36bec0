/** `URLSearchParams` as the feedback service uses it: an ordered list of
    name/value pairs that `append` extends at the end, serialized as
    application/x-www-form-urlencoded (section 5.2 of the WHATWG URL
    Standard). */
module FormUrl {
  import opened Text

  datatype Pair = Pair(name: string, value: string)

  /** The code points the urlencoded serializer copies unchanged: ASCII
      alphanumerics, `*`, `-`, `.` and `_`. */
  predicate IsUnreserved(c: char) {
    ('a' <= c <= 'z') || ('A' <= c <= 'Z') || ('0' <= c <= '9') || c == '*' || c == '-' || c == '.' || c == '_'
  }

  predicate AllUnreserved(s: string) {
    forall k :: 0 <= k < |s| ==> IsUnreserved(s[k])
  }

  /** The UTF-8 encoding of one code point. */
  function Utf8(c: char): (bytes: seq<nat>)
    ensures 1 <= |bytes| <= 4
    ensures forall k :: 0 <= k < |bytes| ==> bytes[k] < 256
  {
    var cp := c as int;
    if cp < 0x80 then [cp]
    else if cp < 0x800 then [0xC0 + cp / 0x40, 0x80 + cp % 0x40]
    else if cp < 0x1_0000 then [0xE0 + cp / 0x1000, 0x80 + (cp / 0x40) % 0x40, 0x80 + cp % 0x40]
    else [0xF0 + (cp / 0x4_0000) % 8, 0x80 + (cp / 0x1000) % 0x40, 0x80 + (cp / 0x40) % 0x40, 0x80 + cp % 0x40]
  }

  function HexDigit(d: nat): (c: char)
    requires d < 16
    ensures ('0' <= c <= '9') || ('A' <= c <= 'F')
  {
    if d < 10 then DigitChar(d) else (('A' as int) + d - 10) as char
  }

  predicate IsEncodedChar(c: char) {
    IsUnreserved(c) || c == '+' || c == '%'
  }

  /** Percent-encodes a list of bytes, `%XX` with upper-case hex digits. */
  function PercentEncode(bytes: seq<nat>): (r: string)
    requires forall k :: 0 <= k < |bytes| ==> bytes[k] < 256
    ensures |r| == 3 * |bytes|
    ensures forall k :: 0 <= k < |r| ==> IsEncodedChar(r[k])
  {
    if bytes == [] then ""
    else ['%', HexDigit(bytes[0] / 16), HexDigit(bytes[0] % 16)] + PercentEncode(bytes[1..])
  }

  /** The urlencoded byte serializer applied to one code point: space becomes
      `+`, unreserved code points stay, every other byte of the UTF-8 encoding
      becomes `%XX`. */
  function EncodeChar(c: char): string {
    if c == ' ' then "+"
    else if IsUnreserved(c) then [c]
    else PercentEncode(Utf8(c))
  }

  /** The urlencoded serialization of a string. Its output holds only
      unreserved code points, `+` and `%`; in particular no `&` and no `=`,
      which is what lets a query string be split back into its pairs. */
  function Encode(s: string): (r: string)
    ensures forall k :: 0 <= k < |r| ==> IsEncodedChar(r[k])
  {
    if s == [] then "" else EncodeChar(s[0]) + Encode(s[1..])
  }

  /** On the values the dashboard sends (digits, `-`, enum words,
      `created_at`, `true`, `false`) encoding changes nothing. */
  lemma {:induction false} EncodeUnreserved(s: string)
    requires AllUnreserved(s)
    ensures Encode(s) == s
  {
    if s != [] {
      EncodeUnreserved(s[1..]);
      assert [s[0]] + s[1..] == s;
    }
  }

  /** `name=value`, both encoded. */
  function Tuple(p: Pair): string {
    Encode(p.name) + "=" + Encode(p.value)
  }

  function Tuples(ps: seq<Pair>): (r: seq<string>)
    ensures |r| == |ps|
  {
    if ps == [] then [] else [Tuple(ps[0])] + Tuples(ps[1..])
  }

  /** `URLSearchParams.toString()`: the tuples joined by `&`. */
  function Serialize(ps: seq<Pair>): string {
    if ps == [] then "" else Join(Tuples(ps), '&')
  }

  /** Position of the first `c` in `s`, or `|s|` when there is none. */
  function FirstIndex(s: string, c: char): (i: nat)
    ensures i <= |s|
    ensures c !in s[..i]
    ensures i < |s| ==> s[i] == c
  {
    if s == [] then 0
    else if s[0] == c then 0
    else
      var j := FirstIndex(s[1..], c);
      assert s[..j + 1] == [s[0]] + s[1..][..j];
      j + 1
  }

  /** Cuts a `name=value` token at its first `=`; a token without `=` is a
      name with the empty value. */
  function SplitToken(t: string): Pair {
    var i := FirstIndex(t, '=');
    if i < |t| then Pair(t[..i], t[i + 1..]) else Pair(t, "")
  }

  function SplitTokens(ts: seq<string>): (r: seq<Pair>)
    ensures |r| == |ts|
  {
    if ts == [] then [] else [SplitToken(ts[0])] + SplitTokens(ts[1..])
  }

  /** The name/value splitting of the urlencoded parser (section 5.1 of the
      WHATWG URL Standard), without its percent-decoding step: the query is
      cut at every `&` and each token at its first `=`. */
  function ParseQuery(q: string): seq<Pair> {
    if q == "" then [] else SplitTokens(Split(q, '&'))
  }

  /** The pairs with both parts encoded. */
  function EncodedPairs(ps: seq<Pair>): (r: seq<Pair>)
    ensures |r| == |ps|
  {
    if ps == [] then [] else [Pair(Encode(ps[0].name), Encode(ps[0].value))] + EncodedPairs(ps[1..])
  }

  lemma {:induction false} FirstIndexAt(x: string, c: char, y: string)
    requires c !in x
    ensures FirstIndex(x + [c] + y, c) == |x|
  {
    if x != [] {
      FirstIndexAt(x[1..], c, y);
      assert (x + [c] + y)[1..] == x[1..] + [c] + y;
    }
  }

  /** An encoded string holds neither delimiter of the query syntax. */
  lemma EncodedHasNoDelimiters(s: string)
    ensures '=' !in Encode(s) && '&' !in Encode(s)
  {
    var e := Encode(s);
    forall k | 0 <= k < |e| ensures e[k] != '=' && e[k] != '&' {
      assert IsEncodedChar(e[k]);
    }
  }

  lemma SplitTupleBack(p: Pair)
    ensures SplitToken(Tuple(p)) == Pair(Encode(p.name), Encode(p.value))
    ensures '&' !in Tuple(p)
  {
    var n, v := Encode(p.name), Encode(p.value);
    EncodedHasNoDelimiters(p.name);
    EncodedHasNoDelimiters(p.value);
    FirstIndexAt(n, '=', v);
    var t := Tuple(p);
    assert t == n + ['='] + v;
    assert t[..|n|] == n && t[|n| + 1..] == v;
  }

  lemma {:induction false} SplitTuplesBack(ps: seq<Pair>)
    ensures SplitTokens(Tuples(ps)) == EncodedPairs(ps)
    ensures forall k :: 0 <= k < |ps| ==> '&' !in Tuples(ps)[k]
  {
    if ps != [] {
      SplitTupleBack(ps[0]);
      SplitTuplesBack(ps[1..]);
      var ts := Tuples(ps);
      assert ts[1..] == Tuples(ps[1..]);
      forall k | 0 <= k < |ps| ensures '&' !in ts[k] {
        if k > 0 { assert ts[k] == Tuples(ps[1..])[k - 1]; }
      }
    }
  }

  /** Reading a serialized query back gives its pairs, in order, with names
      and values as they were encoded. */
  lemma SerializeRoundTrip(ps: seq<Pair>)
    ensures ParseQuery(Serialize(ps)) == EncodedPairs(ps)
  {
    if ps != [] {
      SplitTuplesBack(ps);
      var ts := Tuples(ps);
      SplitJoin(ts, '&');
      assert Serialize(ps) != "";
    }
  }

  predicate UnreservedPairs(ps: seq<Pair>) {
    forall k :: 0 <= k < |ps| ==> AllUnreserved(ps[k].name) && AllUnreserved(ps[k].value)
  }

  /** For pairs that need no encoding the round trip is exact. */
  lemma {:induction false} UnreservedRoundTrip(ps: seq<Pair>)
    requires UnreservedPairs(ps)
    ensures ParseQuery(Serialize(ps)) == ps
  {
    SerializeRoundTrip(ps);
    EncodedPairsUnreserved(ps);
  }

  lemma {:induction false} EncodedPairsUnreserved(ps: seq<Pair>)
    requires UnreservedPairs(ps)
    ensures EncodedPairs(ps) == ps
  {
    if ps != [] {
      EncodeUnreserved(ps[0].name);
      EncodeUnreserved(ps[0].value);
      EncodedPairsUnreserved(ps[1..]);
      assert [ps[0]] + ps[1..] == ps;
    }
  }

  /** `URLSearchParams.getAll(name)`: the values of the pairs named `name`, in
      order. */
  function GetAll(ps: seq<Pair>, name: string): seq<string> {
    if ps == [] then []
    else (if ps[0].name == name then [ps[0].value] else []) + GetAll(ps[1..], name)
  }

  /** The names of the pairs, in order. */
  function Names(ps: seq<Pair>): (r: seq<string>)
    ensures |r| == |ps|
  {
    if ps == [] then [] else [ps[0].name] + Names(ps[1..])
  }

  lemma {:induction false} GetAllAppend(ps: seq<Pair>, qs: seq<Pair>, name: string)
    ensures GetAll(ps + qs, name) == GetAll(ps, name) + GetAll(qs, name)
  {
    if ps != [] {
      GetAllAppend(ps[1..], qs, name);
      assert (ps + qs)[1..] == ps[1..] + qs;
    } else {
      assert ps + qs == qs;
    }
  }

  lemma {:induction false} NamesAppend(ps: seq<Pair>, qs: seq<Pair>)
    ensures Names(ps + qs) == Names(ps) + Names(qs)
  {
    if ps != [] {
      NamesAppend(ps[1..], qs);
      assert (ps + qs)[1..] == ps[1..] + qs;
    } else {
      assert ps + qs == qs;
    }
  }

  /** One pair `name=v` for each value `v`, in order. */
  function Repeated(name: string, values: seq<string>): (r: seq<Pair>)
    ensures |r| == |values|
  {
    seq(|values|, k requires 0 <= k < |values| => Pair(name, values[k]))
  }

  /** Looking up a repeated key gives back exactly its values, in order, and
      no other key sees them. */
  lemma {:induction false} GetAllRepeated(name: string, values: seq<string>, key: string)
    ensures GetAll(Repeated(name, values), key) == if key == name then values else []
    ensures Names(Repeated(name, values)) == seq(|values|, _ => name)
  {
    if values != [] {
      GetAllRepeated(name, values[1..], key);
      assert Repeated(name, values)[1..] == Repeated(name, values[1..]);
      assert [values[0]] + values[1..] == values;
    }
  }

  lemma UnreservedAppend(ps: seq<Pair>, qs: seq<Pair>)
    requires UnreservedPairs(ps) && UnreservedPairs(qs)
    ensures UnreservedPairs(ps + qs)
  {
    forall k | 0 <= k < |ps + qs| ensures AllUnreserved((ps + qs)[k].name) && AllUnreserved((ps + qs)[k].value) {
      if k >= |ps| { assert (ps + qs)[k] == qs[k - |ps|]; }
    }
  }

  lemma UnreservedRepeated(name: string, values: seq<string>)
    requires AllUnreserved(name)
    requires forall k :: 0 <= k < |values| ==> AllUnreserved(values[k])
    ensures UnreservedPairs(Repeated(name, values))
  {
  }

  /** The mutable parameter list. */
  class SearchParams {
    var entries: seq<Pair>

    /** `new URLSearchParams(record)`: the record's properties in order. */
    constructor (init: seq<Pair>)
      ensures entries == init
    {
      entries := init;
    }

    /** `params.append(name, value)`. */
    method Append(name: string, value: string)
      modifies this
      ensures entries == old(entries) + [Pair(name, value)]
    {
      entries := entries + [Pair(name, value)];
    }

    /** `params.toString()`. */
    function ToString(): string
      reads this
    {
      Serialize(entries)
    }
  }
}
