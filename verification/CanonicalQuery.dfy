/**
 * The canonical query string and the string a request signature covers. Texts are sequences
 * of bytes, a character beyond ASCII being its UTF-8 encoding; percent-encoding is that of
 * section 2.1 of RFC 3986. The collation behind the sort is a parameter.
 */
module CanonicalQuery {
  import opened Sorting
  import D = Domain

  type byte = x: int | 0 <= x < 256

  type Text = seq<byte>

  datatype Pair = Pair(key: Text, value: Text)

  // ----- percent-encoding -----

  const Percent: byte := '%' as int
  const Ampersand: byte := '&' as int
  const Equals: byte := '=' as int
  const Question: byte := '?' as int
  const Newline: byte := '\n' as int

  predicate Within(b: byte, low: char, high: char) { low as int <= b <= high as int }

  /** The bytes that stand for themselves. */
  predicate Unreserved(b: byte)
  {
    || Within(b, 'A', 'Z') || Within(b, 'a', 'z') || Within(b, '0', '9')
    || b == '-' as int || b == '_' as int || b == '.' as int || b == '!' as int || b == '~' as int
    || b == '*' as int || b == '\'' as int || b == '(' as int || b == ')' as int
  }

  function HexDigit(n: int): byte
    requires 0 <= n < 16
  {
    if n < 10 then '0' as int + n else 'A' as int + n - 10
  }

  predicate IsHex(b: byte) { Within(b, '0', '9') || Within(b, 'A', 'F') || Within(b, 'a', 'f') }

  function HexValue(b: byte): (n: int)
    requires IsHex(b)
    ensures 0 <= n < 16
  {
    if Within(b, '0', '9') then b - '0' as int else if Within(b, 'A', 'F') then b - 'A' as int + 10 else b - 'a' as int + 10
  }

  function EncodeByte(b: byte): Text
  {
    if Unreserved(b) then [b] else [Percent, HexDigit(b / 16), HexDigit(b % 16)]
  }

  function Encode(t: Text): Text { if t == [] then [] else EncodeByte(t[0]) + Encode(t[1..]) }

  function Prepend(b: byte, t: D.Option<Text>): D.Option<Text> { if t.Some? then D.Some([b] + t.value) else D.None }

  /** `None` where decoding throws: a percent sign without two hexadecimal digits. */
  function Decode(t: Text): D.Option<Text>
  {
    if t == [] then D.Some([])
    else if t[0] != Percent then Prepend(t[0], Decode(t[1..]))
    else if 3 <= |t| && IsHex(t[1]) && IsHex(t[2]) then Prepend(16 * HexValue(t[1]) + HexValue(t[2]), Decode(t[3..]))
    else D.None
  }

  // ----- cutting up and putting together -----

  function Split(t: Text, sep: byte): (parts: seq<Text>)
    ensures 1 <= |parts|
  {
    if t == [] then [[]]
    else
      var rest := Split(t[1..], sep);
      if t[0] == sep then [[]] + rest else [[t[0]] + rest[0]] + rest[1..]
  }

  function Join(parts: seq<Text>, sep: byte): Text
  {
    if |parts| == 0 then [] else if |parts| == 1 then parts[0] else parts[0] + [sep] + Join(parts[1..], sep)
  }

  /** Where the first equals sign is, or the length of the text. */
  function FirstEquals(t: Text): (n: nat)
    ensures n <= |t|
  {
    if t == [] || t[0] == Equals then 0 else 1 + FirstEquals(t[1..])
  }

  /** A part without an equals sign is a key with an empty value. */
  function ParsePart(part: Text): D.Option<Pair>
  {
    var n := FirstEquals(part);
    var key := Decode(part[..n]);
    var value := if n == |part| then D.Some([]) else Decode(part[n + 1..]);
    if key.Some? && value.Some? then D.Some(Pair(key.value, value.value)) else D.None
  }

  function ParseParts(parts: seq<Text>): D.Option<seq<Pair>>
  {
    if parts == [] then D.Some([])
    else
      var first, rest := ParsePart(parts[0]), ParseParts(parts[1..]);
      if first.Some? && rest.Some? then D.Some([first.value] + rest.value) else D.None
  }

  function Parse(query: Text): D.Option<seq<Pair>>
  {
    var raw := if query != [] && query[0] == Question then query[1..] else query;
    if raw == [] then D.Some([]) else ParseParts(Split(raw, Ampersand))
  }

  function PrintPair(p: Pair): Text { Encode(p.key) + [Equals] + Encode(p.value) }

  function PrintPairs(pairs: seq<Pair>): seq<Text> { seq(|pairs|, k requires 0 <= k < |pairs| => PrintPair(pairs[k])) }

  function Print(pairs: seq<Pair>): Text { Join(PrintPairs(pairs), Ampersand) }

  // ----- the two forms of a query -----

  /** A field of a query record: absent, one value, or a list of values. */
  datatype Field = Undefined | One(value: Text) | Many(values: seq<Text>)

  datatype Entry = Entry(key: Text, field: Field)

  datatype Query = Raw(text: Text) | Record(entries: seq<Entry>)

  function Values(key: Text, values: seq<Text>): seq<Pair> { seq(|values|, k requires 0 <= k < |values| => Pair(key, values[k])) }

  function FieldPairs(e: Entry): seq<Pair>
  {
    match e.field
    case Undefined => []
    case One(value) => [Pair(e.key, value)]
    case Many(values) => Values(e.key, values)
  }

  function Flatten(entries: seq<Entry>): seq<Pair>
  {
    if entries == [] then [] else FieldPairs(entries[0]) + Flatten(entries[1..])
  }

  function Pairs(q: Query): D.Option<seq<Pair>>
  {
    match q
    case Raw(text) => Parse(text)
    case Record(entries) => D.Some(Flatten(entries))
  }

  /** Keys first; values where the comparison ranks the keys the same. */
  function PairOrder(le: (Text, Text) -> bool): (Pair, Pair) -> bool
  {
    (a: Pair, b: Pair) => le(a.key, b.key) && (le(b.key, a.key) ==> le(a.value, b.value))
  }

  /** The collation tells different texts apart. */
  ghost predicate Collation(le: (Text, Text) -> bool)
  {
    TotalOrder(le) && forall a, b :: le(a, b) && le(b, a) ==> a == b
  }

  function Canonical(q: Query, le: (Text, Text) -> bool): D.Option<Text>
  {
    if Pairs(q).None? then D.None else D.Some(Print(Sort(Pairs(q).value, PairOrder(le))))
  }

  /** The values of one field, appended to what has been collected. */
  method AppendField(collected: seq<Pair>, e: Entry) returns (pairs: seq<Pair>)
    ensures pairs == collected + FieldPairs(e)
  {
    pairs := collected;
    match e.field {
      case Undefined =>
      case One(value) => pairs := pairs + [Pair(e.key, value)];
      case Many(values) =>
        for n := 0 to |values|
          invariant pairs == collected + Values(e.key, values)[..n]
        {
          assert Values(e.key, values)[..n + 1] == Values(e.key, values)[..n] + [Pair(e.key, values[n])];
          pairs := pairs + [Pair(e.key, values[n])];
        }
        assert Values(e.key, values)[..|values|] == Values(e.key, values);
    }
  }

  /** The loop over a record's fields. */
  method CollectPairs(entries: seq<Entry>) returns (pairs: seq<Pair>)
    ensures pairs == Flatten(entries)
  {
    pairs := [];
    for k := 0 to |entries|
      invariant pairs + Flatten(entries[k..]) == Flatten(entries)
    {
      FlattenStep(entries, k, pairs);
      pairs := AppendField(pairs, entries[k]);
    }
  }

  lemma FlattenStep(entries: seq<Entry>, k: nat, collected: seq<Pair>)
    requires k < |entries|
    ensures collected + Flatten(entries[k..]) == collected + FieldPairs(entries[k]) + Flatten(entries[k + 1..])
  {
    assert entries[k..][0] == entries[k] && entries[k..][1..] == entries[k + 1..];
  }

  /**
   * A record is read field after field: an absent one gives no pair, a value one, and a list one
   * for each of its values, in order. Nothing is decoded.
   */
  lemma {:induction false} RecordReads(entries: seq<Entry>, k: nat)
    requires k < |entries|
    ensures Pairs(Record(entries)).Some?
    ensures var own := FieldPairs(entries[k]);
      && Pairs(Record(entries)).value == Pairs(Record(entries[..k])).value + own + Pairs(Record(entries[k + 1..])).value
      && (entries[k].field == Undefined ==> own == [])
      && (entries[k].field.One? ==> own == [Pair(entries[k].key, entries[k].field.value)])
      && (entries[k].field.Many? ==>
            |own| == |entries[k].field.values|
            && forall n :: 0 <= n < |own| ==> own[n] == Pair(entries[k].key, entries[k].field.values[n]))
  {
    if 0 < k {
      var rest := entries[1..];
      RecordReads(rest, k - 1);
      assert rest[k - 1] == entries[k] && rest[k..] == entries[k + 1..];
      assert entries[..k][0] == entries[0] && entries[..k][1..] == rest[..k - 1];
    } else {
      assert entries[..0] == [];
    }
  }

  /** `None` where decoding throws. */
  method CanonicalQuery(q: Query, le: (Text, Text) -> bool) returns (r: D.Option<Text>)
    ensures r == Canonical(q, le)
  {
    var pairs;
    if q.Raw? {
      var parsed := Parse(q.text);
      if parsed.None? { return D.None; }
      pairs := parsed.value;
    } else {
      pairs := CollectPairs(q.entries);
    }
    r := D.Some(Print(Sort(pairs, PairOrder(le))));
  }

  // ----- reading back what was printed -----

  predicate Free(t: Text, sep: byte) { forall k :: 0 <= k < |t| ==> t[k] != sep }

  /** What is left of a text once it is encoded. */
  predicate Safe(t: Text) { forall k :: 0 <= k < |t| ==> Unreserved(t[k]) || t[k] == Percent }

  lemma HexRoundTrip(b: byte)
    ensures IsHex(HexDigit(b / 16)) && IsHex(HexDigit(b % 16))
    ensures 16 * HexValue(HexDigit(b / 16)) + HexValue(HexDigit(b % 16)) == b
    ensures Unreserved(HexDigit(b / 16)) && Unreserved(HexDigit(b % 16))
  {
  }

  lemma {:induction false} EncodeIsSafe(t: Text)
    ensures Safe(Encode(t))
  {
    if t != [] {
      HexRoundTrip(t[0]);
      EncodeIsSafe(t[1..]);
    }
  }

  /** Decoding undoes encoding, for every sequence of bytes. */
  lemma {:induction false} DecodeUndoesEncode(t: Text)
    ensures Decode(Encode(t)) == D.Some(t)
  {
    if t != [] {
      DecodeUndoesEncode(t[1..]);
      var e, rest := EncodeByte(t[0]), Encode(t[1..]);
      assert t == [t[0]] + t[1..];
      if Unreserved(t[0]) {
        assert (e + rest)[1..] == rest;
      } else {
        HexRoundTrip(t[0]);
        assert (e + rest)[3..] == rest;
      }
    }
  }

  /** The marks that stand for themselves besides letters and digits: section 2.3 of RFC 2396. */
  const Marks: set<char> := {'-', '_', '.', '!', '~', '*', '\'', '(', ')'}

  const Digits: string := "0123456789ABCDEF"

  /** A byte stands for itself, or for its number in two digits of base sixteen, in capitals. */
  lemma EncodesExactly(b: byte)
    ensures var alphanumeric := 'A' as int <= b <= 'Z' as int || 'a' as int <= b <= 'z' as int || '0' as int <= b <= '9' as int;
      Encode([b]) ==
        if alphanumeric || b as char in Marks then [b] else ['%' as int, Digits[b / 16] as int, Digits[b % 16] as int]
  {
    assert Encode([b]) == EncodeByte(b) by {
      assert [b][1..] == [];
    }
    assert HexDigit(b / 16) == Digits[b / 16] as int && HexDigit(b % 16) == Digits[b % 16] as int;
  }

  /** Both cases of a digit read the same, each as its number. */
  lemma HexReadsExactly(n: int)
    requires 0 <= n < 16
    ensures IsHex(Digits[n] as int) && HexValue(Digits[n] as int) == n
    ensures 10 <= n ==> IsHex(Digits[n] as int + 32) && HexValue(Digits[n] as int + 32) == n
  {
    assert HexDigit(n) == Digits[n] as int;
  }

  predicate DigitAt(t: Text, k: nat)
  {
    k < |t| && (Within(t[k], '0', '9') || Within(t[k], 'A', 'F') || Within(t[k], 'a', 'f'))
  }

  /** A percent sign that two digits do not follow. */
  predicate FailsAt(t: Text, k: nat) { k < |t| && t[k] == '%' as int && !(DigitAt(t, k + 1) && DigitAt(t, k + 2)) }

  lemma {:induction false} DecodeFailsExactly(t: Text)
    ensures Decode(t).None? <==> exists k: nat :: FailsAt(t, k)
  {
    if t != [] {
      var n := if t[0] != Percent then 1 else 3;
      if n <= |t| && !FailsAt(t, 0) {
        assert !IsHex(Percent);
        var rest := t[n..];
        DecodeFailsExactly(rest);
        assert forall k: nat :: FailsAt(rest, k) <==> FailsAt(t, k + n);
        if exists k: nat :: FailsAt(rest, k) {
          var k: nat :| FailsAt(rest, k);
          assert FailsAt(t, k + n);
        }
        if exists k: nat :: FailsAt(t, k) {
          var k: nat :| FailsAt(t, k);
          assert FailsAt(rest, k - n);
        }
      } else {
        assert FailsAt(t, 0);
      }
    }
  }

  lemma {:induction false} SplitHead(t: Text, sep: byte, rest: Text)
    requires Free(t, sep)
    ensures Split(t, sep) == [t]
    ensures Split(t + [sep] + rest, sep) == [t] + Split(rest, sep)
  {
    if t == [] {
      assert (t + [sep] + rest)[1..] == rest;
    } else {
      SplitHead(t[1..], sep, rest);
      assert (t + [sep] + rest)[1..] == t[1..] + [sep] + rest;
      assert t == [t[0]] + t[1..];
    }
  }

  lemma {:induction false} SplitUndoesJoin(parts: seq<Text>, sep: byte)
    requires parts != [] && forall k :: 0 <= k < |parts| ==> Free(parts[k], sep)
    ensures Split(Join(parts, sep), sep) == parts
  {
    if |parts| == 1 {
      SplitHead(parts[0], sep, []);
    } else {
      var rest := parts[1..];
      assert forall k :: 0 <= k < |rest| ==> rest[k] == parts[k + 1];
      SplitUndoesJoin(rest, sep);
      SplitHead(parts[0], sep, Join(rest, sep));
      assert Split(Join(parts, sep), sep) == [parts[0]] + rest;
    }
  }

  lemma {:induction false} FirstEqualsAfter(t: Text, rest: Text)
    requires Free(t, Equals)
    ensures FirstEquals(t + [Equals] + rest) == |t|
  {
    if t == [] {
      assert (t + [Equals] + rest)[0] == Equals;
    } else {
      FirstEqualsAfter(t[1..], rest);
      assert (t + [Equals] + rest)[1..] == t[1..] + [Equals] + rest;
    }
  }

  lemma ParseUndoesPrintPair(p: Pair)
    ensures ParsePart(PrintPair(p)) == D.Some(p)
  {
    var key, value := Encode(p.key), Encode(p.value);
    EncodeIsSafe(p.key);
    FirstEqualsAfter(key, value);
    DecodeUndoesEncode(p.key);
    DecodeUndoesEncode(p.value);
    KeyAndValue(key, value);
  }

  lemma KeyAndValue(key: Text, value: Text)
    ensures (key + [Equals] + value)[..|key|] == key
    ensures (key + [Equals] + value)[|key| + 1..] == value
  {
  }

  lemma PrintPairIsPlain(p: Pair)
    ensures Free(PrintPair(p), Ampersand) && Free(PrintPair(p), Newline)
    ensures PrintPair(p) != [] && PrintPair(p)[0] != Question
  {
    EncodeIsSafe(p.key);
    EncodeIsSafe(p.value);
  }

  lemma {:induction false} ParseUndoesPrintPairs(pairs: seq<Pair>)
    ensures ParseParts(PrintPairs(pairs)) == D.Some(pairs)
  {
    if pairs != [] {
      ParseUndoesPrintPair(pairs[0]);
      ParseUndoesPrintPairs(pairs[1..]);
      assert PrintPairs(pairs)[1..] == PrintPairs(pairs[1..]);
      assert pairs == [pairs[0]] + pairs[1..];
    }
  }

  /** A part is cut at its first equals sign, and both sides are decoded; one without an equals sign is all key. */
  lemma PartReads(key: Text, value: Text)
    requires Free(key, '=' as int)
    ensures ParsePart(key) == if Decode(key).Some? then D.Some(Pair(Decode(key).value, [])) else D.None
    ensures ParsePart(key + ['=' as int] + value) ==
      if Decode(key).Some? && Decode(value).Some? then D.Some(Pair(Decode(key).value, Decode(value).value)) else D.None
  {
    NoEquals(key);
    FirstEqualsAfter(key, value);
    KeyAndValue(key, value);
    assert key[..|key|] == key;
  }

  lemma {:induction false} NoEquals(t: Text)
    requires Free(t, Equals)
    ensures FirstEquals(t) == |t|
  {
    if t != [] { NoEquals(t[1..]); }
  }

  /** A query is its parts between ampersands, in order, one question mark in front being dropped; it fails with any of them. */
  lemma QueryReads(parts: seq<Text>)
    requires parts != [] && forall k :: 0 <= k < |parts| ==> Free(parts[k], '&' as int)
    requires parts[0] != [] && parts[0][0] != '?' as int
    ensures Parse(Join(parts, '&' as int)) == Parse(['?' as int] + Join(parts, '&' as int)) == ParseParts(parts)
    ensures (forall k :: 0 <= k < |parts| ==> ParsePart(parts[k]).Some?) <==> ParseParts(parts).Some?
    ensures ParseParts(parts).Some? ==>
      |ParseParts(parts).value| == |parts| && forall k :: 0 <= k < |parts| ==> ParsePart(parts[k]) == D.Some(ParseParts(parts).value[k])
  {
    var text := Join(parts, Ampersand);
    SplitUndoesJoin(parts, Ampersand);
    assert text[0] == parts[0][0];
    assert ([Question] + text)[1..] == text;
    PartsRead(parts);
  }

  lemma {:induction false} PartsRead(parts: seq<Text>)
    ensures (forall k :: 0 <= k < |parts| ==> ParsePart(parts[k]).Some?) <==> ParseParts(parts).Some?
    ensures ParseParts(parts).Some? ==>
      |ParseParts(parts).value| == |parts| && forall k :: 0 <= k < |parts| ==> ParsePart(parts[k]) == D.Some(ParseParts(parts).value[k])
  {
    if parts != [] {
      PartsRead(parts[1..]);
      assert forall k :: 1 <= k < |parts| ==> parts[k] == parts[1..][k - 1];
    }
  }

  /** Parsing a printed query gives back its pairs, whatever they are and in the order printed. */
  lemma ParseUndoesPrint(pairs: seq<Pair>)
    ensures Parse(Print(pairs)) == D.Some(pairs)
  {
    var parts := PrintPairs(pairs);
    if pairs != [] {
      forall k | 0 <= k < |parts|
        ensures Free(parts[k], Ampersand) && parts[k] != [] && parts[k][0] != Question
      {
        PrintPairIsPlain(pairs[k]);
      }
      SplitUndoesJoin(parts, Ampersand);
      ParseUndoesPrintPairs(pairs);
      assert Print(pairs) != [] && Print(pairs)[0] == parts[0][0];
    }
  }

  // ----- canonical form -----

  lemma PairOrderIsTotal(le: (Text, Text) -> bool)
    requires TotalOrder(le)
    ensures TotalOrder(PairOrder(le))
  {
    forall a, b
      ensures PairOrder(le)(a, b) || PairOrder(le)(b, a)
    {
      assert le(a.key, b.key) || le(b.key, a.key);
      assert le(a.value, b.value) || le(b.value, a.value);
    }
    forall a, b, c | PairOrder(le)(a, b) && PairOrder(le)(b, c)
      ensures PairOrder(le)(a, c)
    {
      PairOrderTransitive(le, a, b, c);
    }
  }

  lemma PairOrderTransitive(le: (Text, Text) -> bool, a: Pair, b: Pair, c: Pair)
    requires TotalOrder(le) && PairOrder(le)(a, b) && PairOrder(le)(b, c)
    ensures PairOrder(le)(a, c)
  {
    assert le(a.key, b.key) && le(b.key, c.key) && le(a.key, c.key);
    if le(c.key, a.key) {
      assert le(c.key, b.key) && le(b.key, a.key);
      assert le(a.value, b.value) && le(b.value, c.value) && le(a.value, c.value);
    }
  }

  /** No two different pairs of the query rank the same, by key and by value. */
  ghost predicate TieFree(q: Query, le: (Text, Text) -> bool)
    requires Pairs(q).Some?
  {
    Antisymmetric(Pairs(q).value, PairOrder(le))
  }

  lemma CollationsTieNothing(q: Query, le: (Text, Text) -> bool)
    requires Collation(le) && Pairs(q).Some?
    ensures TieFree(q, le)
  {
    forall x, y | x in Pairs(q).value && y in Pairs(q).value && PairOrder(le)(x, y) && PairOrder(le)(y, x)
      ensures x == y
    {
      assert x.key == y.key && le(x.key, x.key) && x.value == y.value;
    }
  }

  /**
   * Two queries, in either form and under any comparison, have the same canonical string
   * exactly when they list the same pairs, and pairs that rank the same in the same order.
   */
  lemma CanonicalTellsTies(p: Query, q: Query, le: (Text, Text) -> bool)
    requires TotalOrder(le) && Pairs(p).Some? && Pairs(q).Some?
    ensures Canonical(p, le) == Canonical(q, le) <==> SameTies(Pairs(p).value, Pairs(q).value, PairOrder(le))
    ensures Canonical(p, le) == Canonical(q, le) ==> multiset(Pairs(p).value) == multiset(Pairs(q).value)
  {
    var ps, qs, o := Pairs(p).value, Pairs(q).value, PairOrder(le);
    PairOrderIsTotal(le);
    SortsAlikeExactly(ps, qs, o);
    SortSorts(ps, o);
    SortSorts(qs, o);
    ParseUndoesPrint(Sort(ps, o));
    ParseUndoesPrint(Sort(qs, o));
  }

  /** For a query without ties, that is when they hold the same pairs, each as many times: order alone is forgotten. */
  lemma CanonicalTellsPairs(p: Query, q: Query, le: (Text, Text) -> bool)
    requires TotalOrder(le) && Pairs(p).Some? && Pairs(q).Some? && TieFree(p, le)
    ensures Canonical(p, le) == Canonical(q, le) <==> multiset(Pairs(p).value) == multiset(Pairs(q).value)
  {
    CanonicalTellsTies(p, q, le);
    PairOrderIsTotal(le);
    if multiset(Pairs(p).value) == multiset(Pairs(q).value) {
      SortIsCanonical(Pairs(p).value, Pairs(q).value, PairOrder(le));
    }
  }

  /** A canonical string is its own canonical string, and parses to the sorted pairs. */
  lemma CanonicalIsFixed(q: Query, le: (Text, Text) -> bool)
    requires TotalOrder(le) && Pairs(q).Some?
    ensures Parse(Canonical(q, le).value) == D.Some(Sort(Pairs(q).value, PairOrder(le)))
    ensures Canonical(Raw(Canonical(q, le).value), le) == Canonical(q, le)
    // which come by key, and by value where the keys rank the same
    ensures var ps := Parse(Canonical(q, le).value).value;
      && multiset(ps) == multiset(Pairs(q).value)
      && forall j, k :: 0 <= j < k < |ps| ==> le(ps[j].key, ps[k].key) && (le(ps[k].key, ps[j].key) ==> le(ps[j].value, ps[k].value))
  {
    var o := PairOrder(le);
    PairOrderIsTotal(le);
    ParseUndoesPrint(Sort(Pairs(q).value, o));
    forall z
      ensures Tied(Sort(Pairs(q).value, o), z, o) == Tied(Pairs(q).value, z, o)
    {
      SortIsStable(Pairs(q).value, z, o);
    }
    CanonicalTellsTies(Raw(Canonical(q, le).value), q, le);
    SortSorts(Pairs(q).value, o);
    var ps := Sort(Pairs(q).value, o);
    assert forall j, k :: 0 <= j < k < |ps| ==> o(ps[j], ps[k]);
  }

  /** Reordering the pairs of this query never shows in its canonical string. */
  ghost predicate ForgetsOrder(q: Query, le: (Text, Text) -> bool)
    requires Pairs(q).Some?
  {
    forall p :: Pairs(p).Some? && multiset(Pairs(p).value) == multiset(Pairs(q).value) ==> Canonical(p, le) == Canonical(q, le)
  }

  /**
   * Whatever the comparison, the order of a query's pairs does not matter exactly when no two
   * different ones rank the same.
   */
  lemma OrderForgottenExactly(q: Query, le: (Text, Text) -> bool)
    requires TotalOrder(le) && Pairs(q).Some?
    ensures ForgetsOrder(q, le) <==> TieFree(q, le)
  {
    var ps, o := Pairs(q).value, PairOrder(le);
    PairOrderIsTotal(le);
    Sorting.OrderForgottenExactly(ps, o);
    if TieFree(q, le) {
      forall p | Pairs(p).Some? && multiset(Pairs(p).value) == multiset(ps)
        ensures Canonical(p, le) == Canonical(q, le)
      {
        CanonicalTellsPairs(q, p, le);
      }
    } else {
      var ts :| multiset(ts) == multiset(ps) && Sort(ts, o) != Sort(ps, o);
      ParseUndoesPrint(ts);
      ParseUndoesPrint(Sort(ts, o));
      ParseUndoesPrint(Sort(ps, o));
      assert Canonical(Raw(Print(ts)), le) != Canonical(q, le);
    }
  }

  /** It matters for no query at all exactly when the comparison tells every two texts apart. */
  lemma OrderForgottenExactlyByCollations(le: (Text, Text) -> bool)
    requires TotalOrder(le)
    ensures (forall q :: Pairs(q).Some? ==> ForgetsOrder(q, le)) <==> Collation(le)
  {
    if Collation(le) {
      forall q | Pairs(q).Some?
        ensures ForgetsOrder(q, le)
      {
        CollationsTieNothing(q, le);
        OrderForgottenExactly(q, le);
      }
    } else {
      var a, b :| le(a, b) && le(b, a) && a != b;
      var pairs := [Pair(a, []), Pair(b, [])];
      var q := Raw(Print(pairs));
      ParseUndoesPrint(pairs);
      assert pairs[0] in pairs && pairs[1] in pairs && !TieFree(q, le);
      OrderForgottenExactly(q, le);
    }
  }

  /** The letter e with an acute accent, as one character and as a letter and a combining accent. */
  const Composed: Text := [0xC3, 0xA9]
  const Decomposed: Text := [0x65, 0xCC, 0x81]

  /**
   * A query that prints in two ways under every comparison that ranks canonically equivalent
   * spellings the same, as locale-aware comparison does: two keys, both spelling that letter.
   */
  lemma EquivalentKeysPrintInTwoWays(le: (Text, Text) -> bool)
    requires TotalOrder(le) && le(Composed, Decomposed) && le(Decomposed, Composed)
    ensures var x, y := Pair(Composed, []), Pair(Decomposed, []);
      var p, q := Raw(Print([x, y])), Raw(Print([y, x]));
      && Canonical(p, le) == D.Some(Print([x, y])) && Canonical(q, le) == D.Some(Print([y, x]))
      && Canonical(p, le) != Canonical(q, le) && multiset(Pairs(p).value) == multiset(Pairs(q).value)
  {
    var x, y, o := Pair(Composed, []), Pair(Decomposed, []), PairOrder(le);
    assert le([], []);
    SortTwo(x, y, o);
    SortTwo(y, x, o);
    ParseUndoesPrint([x, y]);
    ParseUndoesPrint([y, x]);
    assert x != y && [x, y][0] != [y, x][0];
    assert multiset([x, y]) == multiset([y, x]);
  }

  lemma SortTwo<T>(x: T, y: T, le: (T, T) -> bool)
    requires le(x, y)
    ensures Sort([x, y], le) == [x, y]
  {
    assert [x, y][1..] == [y] && [y][1..] == [];
    assert Sort([y], le) == [y];
  }

  // ----- the string that is signed -----

  datatype Signed = Signed(timestamp: Text, nonce: Text, verb: Text, path: Text, query: Query, bodyHash: Text)

  function Upper(t: Text): Text
  {
    seq(|t|, k requires 0 <= k < |t| => if Within(t[k], 'a', 'z') then t[k] - 32 else t[k])
  }

  function Lines(algorithm: Text, r: Signed, query: Text): seq<Text>
  {
    [algorithm, r.timestamp, r.nonce, Upper(r.verb), r.path, query, r.bodyHash]
  }

  function BuildCanonicalString(algorithm: Text, r: Signed, le: (Text, Text) -> bool): D.Option<Text>
  {
    if Canonical(r.query, le).None? then D.None else D.Some(Join(Lines(algorithm, r, Canonical(r.query, le).value), Newline))
  }

  predicate OneLine(r: Signed)
  {
    Free(r.timestamp, Newline) && Free(r.nonce, Newline) && Free(Upper(r.verb), Newline) && Free(r.path, Newline) && Free(r.bodyHash, Newline)
  }

  lemma {:induction false} JoinIsFree(parts: seq<Text>, sep: byte, other: byte)
    requires sep != other && forall k :: 0 <= k < |parts| ==> Free(parts[k], other)
    ensures Free(Join(parts, sep), other)
  {
    if 1 < |parts| { JoinIsFree(parts[1..], sep, other); }
  }

  lemma PrintIsOneLine(pairs: seq<Pair>)
    ensures Free(Print(pairs), Newline)
  {
    forall k | 0 <= k < |pairs|
      ensures Free(PrintPairs(pairs)[k], Newline)
    {
      PrintPairIsPlain(pairs[k]);
    }
    JoinIsFree(PrintPairs(pairs), Ampersand, Newline);
  }

  /**
   * What is signed determines the request: two requests of single-line fields share a string to
   * sign exactly when the fields agree, and the queries list the same pairs up to an order that
   * does not matter.
   */
  lemma CanonicalStringBinds(algorithm: Text, a: Signed, b: Signed, le: (Text, Text) -> bool)
    requires TotalOrder(le) && Free(algorithm, Newline) && OneLine(a) && OneLine(b)
    requires Pairs(a.query).Some? && Pairs(b.query).Some?
    ensures BuildCanonicalString(algorithm, a, le) == BuildCanonicalString(algorithm, b, le) <==>
      SameFields(a, b) && SameTies(Pairs(a.query).value, Pairs(b.query).value, PairOrder(le))
    ensures BuildCanonicalString(algorithm, a, le) == BuildCanonicalString(algorithm, b, le) ==>
      multiset(Pairs(a.query).value) == multiset(Pairs(b.query).value)
    ensures TieFree(a.query, le) ==>
      (BuildCanonicalString(algorithm, a, le) == BuildCanonicalString(algorithm, b, le) <==>
        SameFields(a, b) && multiset(Pairs(a.query).value) == multiset(Pairs(b.query).value))
  {
    CanonicalTellsTies(a.query, b.query, le);
    if TieFree(a.query, le) { CanonicalTellsPairs(a.query, b.query, le); }
    var qa, qb := Canonical(a.query, le).value, Canonical(b.query, le).value;
    PrintIsOneLine(Sort(Pairs(a.query).value, PairOrder(le)));
    PrintIsOneLine(Sort(Pairs(b.query).value, PairOrder(le)));
    LinesBind(algorithm, a, b, qa, qb);
  }

  /** Cut into lines, what is signed shows the algorithm, time, nonce, verb in capitals, path, canonical query and body hash. */
  lemma SignedLines(algorithm: Text, r: Signed, le: (Text, Text) -> bool)
    requires TotalOrder(le) && Free(algorithm, Newline) && OneLine(r) && Pairs(r.query).Some?
    ensures BuildCanonicalString(algorithm, r, le).Some?
    ensures var lines := Split(BuildCanonicalString(algorithm, r, le).value, '\n' as int);
      && |lines| == 7 && lines[0] == algorithm && lines[1] == r.timestamp && lines[2] == r.nonce && lines[4] == r.path
      && D.Some(lines[5]) == Canonical(r.query, le) && lines[6] == r.bodyHash
      && |lines[3]| == |r.verb| && forall k :: 0 <= k < |r.verb| ==>
           && !('a' as int <= lines[3][k] <= 'z' as int)
           && (lines[3][k] == r.verb[k] || ('A' as int <= lines[3][k] <= 'Z' as int && lines[3][k] + 32 == r.verb[k]))
  {
    PrintIsOneLine(Sort(Pairs(r.query).value, PairOrder(le)));
    SplitUndoesJoin(Lines(algorithm, r, Canonical(r.query, le).value), Newline);
  }

  predicate SameFields(a: Signed, b: Signed)
  {
    && a.timestamp == b.timestamp && a.nonce == b.nonce && Upper(a.verb) == Upper(b.verb)
    && a.path == b.path && a.bodyHash == b.bodyHash
  }

  lemma LinesBind(algorithm: Text, a: Signed, b: Signed, qa: Text, qb: Text)
    requires Free(algorithm, Newline) && OneLine(a) && OneLine(b) && Free(qa, Newline) && Free(qb, Newline)
    ensures Join(Lines(algorithm, a, qa), Newline) == Join(Lines(algorithm, b, qb), Newline) <==>
      SameFields(a, b) && qa == qb
  {
    var la, lb := Lines(algorithm, a, qa), Lines(algorithm, b, qb);
    SplitUndoesJoin(la, Newline);
    SplitUndoesJoin(lb, Newline);
    assert Join(la, Newline) == Join(lb, Newline) <==> la == lb;
    assert la == lb ==> la[1] == lb[1] && la[2] == lb[2] && la[3] == lb[3] && la[4] == lb[4] && la[5] == lb[5] && la[6] == lb[6];
  }
}
