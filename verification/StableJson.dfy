/**
 * The canonical JSON text behind request hashes: object members sorted by name, no spaces,
 * strings quoted and escaped as in section 7 of RFC 8259.
 */
module StableJson {
  import opened Sorting

  /** A JSON value; a number is given by the text it prints as. */
  datatype Json =
    | JNull
    | JBool(b: bool)
    | JNumber(lexeme: string)
    | JString(text: string)
    | JArray(items: seq<Json>)
    | JObject(members: seq<Member>)

  datatype Member = Member(name: string, value: Json)

  predicate NumberChar(c: char) { '0' <= c <= '9' || c == '-' || c == '+' || c == '.' || c == 'e' }

  /** Numbers have the characters of a number; an object's names are distinct. */
  ghost predicate WellFormed(j: Json)
  {
    match j
    case JNumber(lexeme) =>
      lexeme != "" && ('0' <= lexeme[0] <= '9' || lexeme[0] == '-') && forall k :: 0 <= k < |lexeme| ==> NumberChar(lexeme[k])
    case JArray(items) => forall k :: 0 <= k < |items| ==> WellFormed(items[k])
    case JObject(members) =>
      && (forall k :: 0 <= k < |members| ==> WellFormed(members[k].value))
      && (forall k, n :: 0 <= k < n < |members| ==> members[k].name != members[n].name)
    case _ => true
  }

  /** The same value, objects compared without regard to the order of their members. */
  predicate Same(a: Json, b: Json)
  {
    match (a, b)
    case (JArray(p), JArray(q)) => |p| == |q| && forall k :: 0 <= k < |p| ==> Same(p[k], q[k])
    case (JObject(p), JObject(q)) =>
      |p| == |q| && forall k :: 0 <= k < |p| ==>
        exists n :: 0 <= n < |q| && p[k].name == q[n].name && Same(p[k].value, q[n].value)
    case _ => !a.JArray? && !a.JObject? && a == b
  }

  predicate HasObject(j: Json)
  {
    match j
    case JArray(items) => exists k :: 0 <= k < |items| && HasObject(items[k])
    case JObject(_) => true
    case _ => false
  }

  /** Only objects leave any freedom: without them, the same value is the equal value. */
  lemma {:induction false} SameIsEqualWithoutObjects(a: Json, b: Json)
    requires !HasObject(a)
    ensures Same(a, b) <==> a == b
  {
    if a.JArray? && b.JArray? {
      forall k | 0 <= k < |a.items| && k < |b.items|
        ensures Same(a.items[k], b.items[k]) <==> a.items[k] == b.items[k]
      {
        assert !HasObject(a.items[k]);
        SameIsEqualWithoutObjects(a.items[k], b.items[k]);
      }
      if |a.items| == |b.items| && forall k :: 0 <= k < |a.items| ==> a.items[k] == b.items[k] {
        assert a.items == b.items;
      }
    }
  }

  // ----- printing -----

  function Hex(n: nat): char
    requires n < 16
  {
    if n < 10 then ('0' as int + n) as char else ('a' as int + n - 10) as char
  }

  function Escape(c: char): string
  {
    if c == '"' then ['\\', '"']
    else if c == '\\' then ['\\', '\\']
    else if c == 8 as char then ['\\', 'b']
    else if c == 12 as char then ['\\', 'f']
    else if c == '\n' then ['\\', 'n']
    else if c == '\r' then ['\\', 'r']
    else if c == '\t' then ['\\', 't']
    else if c < ' ' then ['\\', 'u', '0', '0', Hex(c as int / 16), Hex(c as int % 16)]
    else [c]
  }

  function Body(s: string): string { if s == "" then "" else Escape(s[0]) + Body(s[1..]) }

  function Quote(s: string): string { ['"'] + Body(s) + ['"'] }

  function Commas(texts: seq<string>): string
  {
    if |texts| == 0 then "" else if |texts| == 1 then texts[0] else texts[0] + [','] + Commas(texts[1..])
  }

  datatype Entry = Entry(name: string, text: string)

  function Earlier(): (char, char) -> bool { (c: char, d: char) => c < d }

  function ByName(): (Entry, Entry) -> bool { (a: Entry, b: Entry) => LexLe(a.name, b.name, Earlier()) }

  function EntryText(e: Entry): string { Quote(e.name) + [':'] + e.text }

  function EntryTexts(es: seq<Entry>): seq<string> { seq(|es|, k requires 0 <= k < |es| => EntryText(es[k])) }

  function PrintItems(items: seq<Json>): seq<string>
  {
    seq(|items|, k requires 0 <= k < |items| => Print(items[k]))
  }

  function PrintMembers(members: seq<Member>): seq<Entry>
  {
    seq(|members|, k requires 0 <= k < |members| => Entry(members[k].name, Print(members[k].value)))
  }

  function Print(j: Json): string
  {
    match j
    case JNull => "null"
    case JBool(b) => if b then "true" else "false"
    case JNumber(lexeme) => lexeme
    case JString(text) => Quote(text)
    case JArray(items) => ['['] + Commas(PrintItems(items)) + [']']
    case JObject(members) => ['{'] + Commas(EntryTexts(Sort(PrintMembers(members), ByName()))) + ['}']
  }

  // ----- reading: where a value ends -----

  /** How many characters come before the first comma or closing bracket that belongs outside. */
  function Scan(s: string, depth: nat): nat
    decreases |s|
  {
    if s == "" then 0
    else if s[0] == '"' then 1 + ScanString(s[1..], depth)
    else if depth == 0 && (s[0] == ',' || s[0] == ']' || s[0] == '}') then 0
    else 1 + Scan(s[1..], if s[0] == '[' || s[0] == '{' then depth + 1 else if s[0] == ']' || s[0] == '}' then depth - 1 else depth)
  }

  function ScanString(s: string, depth: nat): nat
    decreases |s|
  {
    if s == "" then 0
    else if s[0] == '"' then 1 + Scan(s[1..], depth)
    else if s[0] == '\\' && 2 <= |s| then 2 + ScanString(s[2..], depth)
    else 1 + ScanString(s[1..], depth)
  }

  /** The scanner passes over the whole text, whatever follows it. */
  ghost predicate Skips(t: string)
  {
    forall rest, depth: nat {:trigger Scan(t + rest, depth)} :: Scan(t + rest, depth) == |t| + Scan(rest, depth)
  }

  ghost predicate SkipsInside(t: string)
  {
    forall rest, depth: nat {:trigger Scan(t + rest, depth)} :: 0 < depth ==> Scan(t + rest, depth) == |t| + Scan(rest, depth)
  }

  lemma SkipsBoth(a: string, b: string)
    requires Skips(a) && Skips(b)
    ensures Skips(a + b)
  {
    forall rest, depth: nat
      ensures Scan(a + b + rest, depth) == |a + b| + Scan(rest, depth)
    {
      assert a + b + rest == a + (b + rest);
    }
  }

  lemma {:induction false} PlainSkips(t: string)
    requires forall k :: 0 <= k < |t| ==> t[k] !in ['"', ',', '[', ']', '{', '}']
    ensures Skips(t)
  {
    forall rest, depth: nat
      ensures Scan(t + rest, depth) == |t| + Scan(rest, depth)
    {
      if t == "" {
        assert t + rest == rest;
      } else {
        assert t[0] !in ['"', ',', '[', ']', '{', '}'];
        PlainSkips(t[1..]);
        assert (t + rest)[1..] == t[1..] + rest;
      }
    }
  }

  lemma PlainInString(c: char, x: string, depth: nat)
    requires c != '"' && c != '\\'
    ensures ScanString([c] + x, depth) == 1 + ScanString(x, depth)
  {
    assert ([c] + x)[1..] == x;
  }

  lemma PairInString(c: char, x: string, depth: nat)
    ensures ScanString(['\\', c] + x, depth) == 2 + ScanString(x, depth)
  {
    assert (['\\', c] + x)[2..] == x;
  }

  lemma HexIsPlain(n: nat)
    requires n < 16
    ensures Hex(n) != '"' && Hex(n) != '\\'
  {
  }

  /** An escape by number: backslash, `u`, two zeros and two hexadecimal digits. */
  lemma NumberSkips(p: char, q: char, x: string, depth: nat)
    requires p != '"' && p != '\\' && q != '"' && q != '\\'
    ensures ScanString(['\\', 'u', '0', '0', p, q] + x, depth) == 6 + ScanString(x, depth)
  {
    var x1 := [q] + x;
    var x2 := [p] + x1;
    var x3 := ['0'] + x2;
    var x4 := ['0'] + x3;
    PlainInString(q, x, depth);
    PlainInString(p, x1, depth);
    PlainInString('0', x2, depth);
    PlainInString('0', x3, depth);
    PairInString('u', x4, depth);
    assert ['\\', 'u', '0', '0', p, q] + x == ['\\', 'u'] + x4;
  }

  lemma EscapeSkips(c: char, x: string, depth: nat)
    ensures ScanString(Escape(c) + x, depth) == |Escape(c)| + ScanString(x, depth)
  {
    var e := Escape(c);
    if |e| == 1 {
      PlainInString(c, x, depth);
    } else if |e| == 2 {
      assert e == ['\\', e[1]];
      PairInString(e[1], x, depth);
    } else {
      var p, q := Hex(c as int / 16), Hex(c as int % 16);
      HexIsPlain(c as int / 16);
      HexIsPlain(c as int % 16);
      assert e == ['\\', 'u', '0', '0', p, q];
      NumberSkips(p, q, x, depth);
    }
  }

  lemma {:induction false} BodySkips(s: string, rest: string, depth: nat)
    ensures ScanString(Body(s) + ['"'] + rest, depth) == |Body(s)| + 1 + Scan(rest, depth)
  {
    if s == "" {
      assert (Body(s) + ['"'] + rest)[1..] == rest;
    } else {
      BodySkips(s[1..], rest, depth);
      var x := Body(s[1..]) + ['"'] + rest;
      EscapeSkips(s[0], x, depth);
      assert Body(s) + ['"'] + rest == Escape(s[0]) + x;
    }
  }

  lemma QuoteSkips(s: string)
    ensures Skips(Quote(s))
  {
    forall rest, depth: nat
      ensures Scan(Quote(s) + rest, depth) == |Quote(s)| + Scan(rest, depth)
    {
      BodySkips(s, rest, depth);
      assert (Quote(s) + rest)[1..] == Body(s) + ['"'] + rest;
    }
  }

  lemma {:induction false} CommasSkip(texts: seq<string>)
    requires forall k :: 0 <= k < |texts| ==> Skips(texts[k])
    ensures SkipsInside(Commas(texts))
  {
    if 1 < |texts| { CommasSkip(texts[1..]); }
    forall rest, depth: nat | 0 < depth
      ensures Scan(Commas(texts) + rest, depth) == |Commas(texts)| + Scan(rest, depth)
    {
      if |texts| == 0 {
        assert Commas(texts) + rest == rest;
      } else if |texts| == 1 {
        assert Skips(texts[0]);
      } else {
        var tail := Commas(texts[1..]) + rest;
        assert Skips(texts[0]) && Scan(tail, depth) == |Commas(texts[1..])| + Scan(rest, depth);
        assert ([','] + tail)[1..] == tail;
        assert Commas(texts) + rest == texts[0] + ([','] + tail);
      }
    }
  }

  lemma BracketsSkip(open: char, t: string, close: char)
    requires (open == '[' || open == '{') && (close == ']' || close == '}') && SkipsInside(t)
    ensures Skips([open] + t + [close])
  {
    forall rest, depth: nat
      ensures Scan([open] + t + [close] + rest, depth) == |t| + 2 + Scan(rest, depth)
    {
      assert ([open] + t + [close] + rest)[1..] == t + ([close] + rest);
      assert ([close] + rest)[1..] == rest;
    }
  }

  lemma EntrySkips(e: Entry)
    requires Skips(e.text)
    ensures Skips(EntryText(e))
  {
    QuoteSkips(e.name);
    PlainSkips([':']);
    SkipsBoth(Quote(e.name), [':']);
    SkipsBoth(Quote(e.name) + [':'], e.text);
  }

  lemma ByNameIsTotal()
    ensures TotalOrder(ByName())
  {
    forall a: Entry, b: Entry
      ensures ByName()(a, b) || ByName()(b, a)
    {
      LexLeTotal(a.name, b.name, Earlier());
    }
    forall a: Entry, b: Entry, c: Entry | ByName()(a, b) && ByName()(b, c)
      ensures ByName()(a, c)
    {
      LexLeTransitive(a.name, b.name, c.name, Earlier());
    }
  }

  /** The sorted entries of an object are its printed members, in another order. */
  lemma SortedEntries(members: seq<Member>)
    ensures var es := Sort(PrintMembers(members), ByName());
      && multiset(es) == multiset(PrintMembers(members)) && |es| == |members|
      && forall e :: e in es <==> e in PrintMembers(members)
  {
    ByNameIsTotal();
    SortSorts(PrintMembers(members), ByName());
    SameMembers(Sort(PrintMembers(members), ByName()), PrintMembers(members));
  }

  lemma {:induction false} PrintSkips(j: Json)
    requires WellFormed(j)
    ensures Skips(Print(j))
  {
    match j
    case JNull => PlainSkips("null");
    case JBool(b) => PlainSkips(Print(j));
    case JNumber(lexeme) =>
      assert forall k :: 0 <= k < |lexeme| ==> NumberChar(lexeme[k]);
      PlainSkips(lexeme);
    case JString(text) => QuoteSkips(text);
    case JArray(items) =>
      forall k | 0 <= k < |items|
        ensures Skips(PrintItems(items)[k])
      {
        PrintSkips(items[k]);
      }
      CommasSkip(PrintItems(items));
      BracketsSkip('[', Commas(PrintItems(items)), ']');
    case JObject(members) =>
      forall k | 0 <= k < |members|
        ensures Skips(PrintMembers(members)[k].text)
      {
        PrintSkips(members[k].value);
      }
      EntriesSkip(members);
      BracketsSkip('{', Commas(EntryTexts(Sort(PrintMembers(members), ByName()))), '}');
  }

  lemma EntriesSkip(members: seq<Member>)
    requires forall k :: 0 <= k < |members| ==> Skips(PrintMembers(members)[k].text)
    ensures var texts := EntryTexts(Sort(PrintMembers(members), ByName()));
      SkipsInside(Commas(texts)) && forall k :: 0 <= k < |texts| ==> Skips(texts[k])
  {
    SortedEntries(members);
    var es := Sort(PrintMembers(members), ByName());
    forall k | 0 <= k < |es|
      ensures Skips(EntryTexts(es)[k])
    {
      assert es[k] in es;
      EntrySkips(es[k]);
    }
    CommasSkip(EntryTexts(es));
  }

  // ----- unique readability -----

  predicate Starts(t: string) { t != "" && t[0] !in [',', ']', '}'] }

  ghost predicate AllReadable(texts: seq<string>)
  {
    forall k :: 0 <= k < |texts| ==> Skips(texts[k]) && Starts(texts[k])
  }

  /** What follows the first text of a list: a comma and the rest, or the closing bracket. */
  function AfterFirst(p: seq<string>, close: char): string
    requires p != []
  {
    if |p| == 1 then [close] else [','] + (Commas(p[1..]) + [close])
  }

  lemma SplitFirst(p: seq<string>, close: char)
    requires p != []
    ensures Commas(p) + [close] == p[0] + AfterFirst(p, close)
  {
  }

  lemma Cut(t: string, rest: string)
    ensures (t + rest)[..|t|] == t && (t + rest)[|t|..] == rest
    ensures t != "" ==> (t + rest)[0] == t[0]
  {
  }

  /** The scanner finds the end of the first text. */
  lemma FirstText(p: seq<string>, close: char)
    requires close == ']' || close == '}'
    requires p != [] && Skips(p[0]) && Starts(p[0])
    ensures var s := Commas(p) + [close];
      && Scan(s, 0) == |p[0]| < |s| && s[..|p[0]|] == p[0] && s[|p[0]|..] == AfterFirst(p, close) && s[0] == p[0][0]
  {
    SplitFirst(p, close);
    Cut(p[0], AfterFirst(p, close));
    assert Scan(AfterFirst(p, close), 0) == 0;
    assert Scan(p[0] + AfterFirst(p, close), 0) == |p[0]| + Scan(AfterFirst(p, close), 0);
  }

  /** A comma-separated list of texts can be cut up in one way only. */
  lemma {:induction false} CommasInjective(p: seq<string>, q: seq<string>, close: char)
    requires close == ']' || close == '}'
    requires AllReadable(p) && AllReadable(q)
    requires Commas(p) + [close] == Commas(q) + [close]
    ensures p == q
  {
    var s := Commas(p) + [close];
    if p != [] { FirstText(p, close); }
    if q != [] { FirstText(q, close); }
    if p != [] && q != [] {
      var rest := s[|p[0]|..];
      assert |p| == 1 <==> rest[0] == close;
      assert |q| == 1 <==> rest[0] == close;
      if |p| != 1 {
        assert Commas(p[1..]) + [close] == rest[1..] == Commas(q[1..]) + [close];
        CommasInjective(p[1..], q[1..], close);
      }
      assert p == [p[0]] + p[1..] && q == [q[0]] + q[1..];
    } else {
      assert p == [] ==> s == [close];
      assert q == [] ==> s == [close];
    }
  }

  lemma EscapeInjective(c: char, d: char, x: string, y: string)
    requires Escape(c) + x == Escape(d) + y
    ensures c == d && x == y
  {
    var t := Escape(c) + x;
    assert t[0] == Escape(c)[0] == Escape(d)[0];
    if |Escape(c)| > 1 && |Escape(d)| > 1 {
      assert t[1] == Escape(c)[1] == Escape(d)[1];
      if |Escape(c)| == 6 {
        assert t[4] == Escape(c)[4] == Escape(d)[4];
        assert t[5] == Escape(c)[5] == Escape(d)[5];
        HexInjective(c as int, d as int);
      }
    }
    assert x == t[|Escape(c)|..] && y == t[|Escape(d)|..];
  }

  lemma HexInjective(m: nat, n: nat)
    requires m < 256 && n < 256 && Hex(m / 16) == Hex(n / 16) && Hex(m % 16) == Hex(n % 16)
    ensures m == n
  {
  }

  lemma {:induction false} BodyInjective(s: string, t: string, x: string, y: string)
    requires Body(s) + ['"'] + x == Body(t) + ['"'] + y
    ensures s == t && x == y
  {
    if s != "" { BodyHead(s, x); }
    if t != "" { BodyHead(t, y); }
    assert s == "" ==> Body(s) + ['"'] + x == ['"'] + x;
    assert t == "" ==> Body(t) + ['"'] + y == ['"'] + y;
    if s == "" && t == "" {
      assert x == (['"'] + x)[1..] && y == (['"'] + y)[1..];
    } else if s != "" && t != "" {
      EscapeInjective(s[0], t[0], Body(s[1..]) + ['"'] + x, Body(t[1..]) + ['"'] + y);
      BodyInjective(s[1..], t[1..], x, y);
      assert s == [s[0]] + s[1..] && t == [t[0]] + t[1..];
    }
  }

  lemma BodyHead(s: string, x: string)
    requires s != ""
    ensures Body(s) + ['"'] + x == Escape(s[0]) + (Body(s[1..]) + ['"'] + x)
    ensures (Body(s) + ['"'] + x)[0] != '"'
  {
  }

  lemma QuoteInjective(s: string, t: string, x: string, y: string)
    requires Quote(s) + x == Quote(t) + y
    ensures s == t && x == y
  {
    assert Body(s) + ['"'] + x == (Quote(s) + x)[1..];
    assert Body(t) + ['"'] + y == (Quote(t) + y)[1..];
    BodyInjective(s, t, x, y);
  }

  lemma EntryInjective(d: Entry, e: Entry)
    requires EntryText(d) == EntryText(e)
    ensures d == e
  {
    assert EntryText(d) == Quote(d.name) + ([':'] + d.text);
    assert EntryText(e) == Quote(e.name) + ([':'] + e.text);
    QuoteInjective(d.name, e.name, [':'] + d.text, [':'] + e.text);
    assert d.text == ([':'] + d.text)[1..] && e.text == ([':'] + e.text)[1..];
  }

  lemma BracketsOff(open: char, t: string, u: string, close: char)
    requires [open] + t + [close] == [open] + u + [close]
    ensures t + [close] == u + [close]
  {
    assert ([open] + t + [close])[1..] == t + [close];
    assert ([open] + u + [close])[1..] == u + [close];
  }

  lemma PrintStarts(j: Json)
    requires WellFormed(j)
    ensures Starts(Print(j))
    ensures var c := Print(j)[0];
      match j
      case JNull => c == 'n'
      case JBool(b) => c == if b then 't' else 'f'
      case JNumber(_) => '0' <= c <= '9' || c == '-'
      case JString(_) => c == '"'
      case JArray(_) => c == '['
      case JObject(_) => c == '{'
  {
  }

  lemma ArraysReadable(p: seq<Json>, q: seq<Json>)
    requires WellFormed(JArray(p)) && WellFormed(JArray(q)) && Print(JArray(p)) == Print(JArray(q))
    ensures PrintItems(p) == PrintItems(q)
  {
    forall k | 0 <= k < |p|
      ensures Skips(PrintItems(p)[k]) && Starts(PrintItems(p)[k])
    {
      PrintSkips(p[k]);
      PrintStarts(p[k]);
    }
    forall k | 0 <= k < |q|
      ensures Skips(PrintItems(q)[k]) && Starts(PrintItems(q)[k])
    {
      PrintSkips(q[k]);
      PrintStarts(q[k]);
    }
    BracketsOff('[', Commas(PrintItems(p)), Commas(PrintItems(q)), ']');
    CommasInjective(PrintItems(p), PrintItems(q), ']');
  }

  lemma MembersSkip(members: seq<Member>)
    requires WellFormed(JObject(members))
    ensures AllReadable(EntryTexts(Sort(PrintMembers(members), ByName())))
  {
    forall k | 0 <= k < |members|
      ensures Skips(PrintMembers(members)[k].text)
    {
      PrintSkips(members[k].value);
    }
    EntriesSkip(members);
  }

  lemma EntriesInjective(ds: seq<Entry>, es: seq<Entry>)
    requires EntryTexts(ds) == EntryTexts(es)
    ensures ds == es
  {
    assert |ds| == |EntryTexts(ds)| == |EntryTexts(es)| == |es|;
    forall k | 0 <= k < |ds|
      ensures ds[k] == es[k]
    {
      assert EntryTexts(ds)[k] == EntryTexts(es)[k];
      EntryInjective(ds[k], es[k]);
    }
  }

  lemma ObjectsReadable(p: seq<Member>, q: seq<Member>)
    requires WellFormed(JObject(p)) && WellFormed(JObject(q)) && Print(JObject(p)) == Print(JObject(q))
    ensures Sort(PrintMembers(p), ByName()) == Sort(PrintMembers(q), ByName())
  {
    var ds, es := Sort(PrintMembers(p), ByName()), Sort(PrintMembers(q), ByName());
    MembersSkip(p);
    MembersSkip(q);
    var dt, et := EntryTexts(ds), EntryTexts(es);
    assert Print(JObject(p)) == ['{'] + Commas(dt) + ['}'];
    assert Print(JObject(q)) == ['{'] + Commas(et) + ['}'];
    BracketsOff('{', Commas(dt), Commas(et), '}');
    CommasInjective(dt, et, '}');
    EntriesInjective(ds, es);
  }

  lemma EntryIsMember(q: seq<Member>, e: Entry) returns (n: nat)
    requires e in PrintMembers(q)
    ensures n < |q| && q[n].name == e.name && Print(q[n].value) == e.text
  {
    n :| 0 <= n < |PrintMembers(q)| && PrintMembers(q)[n] == e;
  }

  /** Objects that print alike have the same names, with values that print alike. */
  lemma MembersPairUp(p: seq<Member>, q: seq<Member>)
    requires WellFormed(JObject(p)) && WellFormed(JObject(q)) && Print(JObject(p)) == Print(JObject(q))
    ensures |p| == |q|
    ensures forall k :: 0 <= k < |p| ==>
      exists n :: 0 <= n < |q| && p[k].name == q[n].name && Print(p[k].value) == Print(q[n].value)
  {
    ObjectsReadable(p, q);
    SortedEntries(p);
    SortedEntries(q);
    forall k | 0 <= k < |p|
      ensures exists n :: 0 <= n < |q| && p[k].name == q[n].name && Print(p[k].value) == Print(q[n].value)
    {
      var e := PrintMembers(p)[k];
      assert e in PrintMembers(p);
      var n := EntryIsMember(q, e);
    }
  }

  lemma {:induction false} PrintInjective(a: Json, b: Json)
    requires WellFormed(a) && WellFormed(b) && Print(a) == Print(b)
    ensures Same(a, b)
  {
    PrintStarts(a);
    PrintStarts(b);
    match a
    case JString(s) =>
      assert Quote(s) + "" == Quote(b.text) + "";
      QuoteInjective(s, b.text, "", "");
    case JArray(p) =>
      ArraysReadable(p, b.items);
      assert |p| == |PrintItems(p)| == |b.items|;
      forall k | 0 <= k < |p|
        ensures Same(p[k], b.items[k])
      {
        assert PrintItems(p)[k] == PrintItems(b.items)[k];
        PrintInjective(p[k], b.items[k]);
      }
    case JObject(p) =>
      var q := b.members;
      MembersPairUp(p, q);
      forall k | 0 <= k < |p|
        ensures exists n :: 0 <= n < |q| && p[k].name == q[n].name && Same(p[k].value, q[n].value)
      {
        var n :| 0 <= n < |q| && p[k].name == q[n].name && Print(p[k].value) == Print(q[n].value);
        PrintInjective(p[k].value, q[n].value);
      }
    case _ =>
  }

  // ----- order independence -----

  lemma TakeOut<T>(q: seq<T>, n: nat)
    requires n < |q|
    ensures multiset(q) == multiset(q[..n] + q[n + 1..]) + multiset{q[n]}
    ensures forall x :: x in q && x != q[n] ==> x in q[..n] + q[n + 1..]
  {
    assert q == q[..n] + [q[n]] + q[n + 1..];
  }

  /** Two lists without repetitions, one within the other and as long, hold the same elements. */
  lemma {:induction false} SameElements<T>(p: seq<T>, q: seq<T>)
    requires |p| == |q| && (forall k, n :: 0 <= k < n < |p| ==> p[k] != p[n])
    requires forall k :: 0 <= k < |p| ==> p[k] in q
    ensures multiset(p) == multiset(q)
  {
    if p != [] {
      assert p[0] in q;
      var n :| 0 <= n < |q| && q[n] == p[0];
      TakeOut(q, n);
      SameElements(p[1..], q[..n] + q[n + 1..]);
      assert p == [p[0]] + p[1..];
    }
  }

  lemma {:induction false} SamePrints(a: Json, b: Json)
    requires WellFormed(a) && WellFormed(b) && Same(a, b)
    ensures Print(a) == Print(b)
  {
    match a
    case JArray(p) =>
      var q := b.items;
      forall k | 0 <= k < |p|
        ensures PrintItems(p)[k] == PrintItems(q)[k]
      {
        SamePrints(p[k], q[k]);
      }
      assert PrintItems(p) == PrintItems(q);
    case JObject(p) =>
      var q := b.members;
      var ds, es := PrintMembers(p), PrintMembers(q);
      forall k | 0 <= k < |ds|
        ensures ds[k] in es
      {
        var n :| 0 <= n < |q| && p[k].name == q[n].name && Same(p[k].value, q[n].value);
        SamePrints(p[k].value, q[n].value);
        assert es[n] == ds[k];
      }
      SameElements(ds, es);
      ByNameIsTotal();
      OneEntryPerName(p);
      SortIsCanonical(ds, es, ByName());
    case _ =>
  }

  lemma OneEntryPerName(members: seq<Member>)
    requires WellFormed(JObject(members))
    ensures Antisymmetric(PrintMembers(members), ByName())
  {
    var es := PrintMembers(members);
    forall x, y | x in es && y in es && ByName()(x, y) && ByName()(y, x)
      ensures x == y
    {
      LexLeTotal(x.name, y.name, Earlier());
      var k := EntryIsMember(members, x);
      var n := EntryIsMember(members, y);
      assert members[k].name == members[n].name;
    }
  }

  /** Two requests print alike exactly when they are the same value up to the order of object members. */
  lemma PrintsAlikeExactlyWhenSame(a: Json, b: Json)
    requires WellFormed(a) && WellFormed(b)
    ensures Print(a) == Print(b) <==> Same(a, b)
  {
    if Print(a) == Print(b) { PrintInjective(a, b); }
    if Same(a, b) { SamePrints(a, b); }
  }
}
