/**
 Cutting a JSON object out of a language model's reply: the string-aware brace matcher, the
 object extractor and the handling of markdown fences.  Whether a candidate parses is decided by
 serde, which is not part of this model; it enters as two predicates on texts.
 */
module JsonScanner {
  import opened Options

  // ---------------------------------------------------------------------------
  // The brace matcher
  // ---------------------------------------------------------------------------

  datatype Scan = Scan(depth: int, inStr: bool, esc: bool)

  const START := Scan(0, false, false)

  function Step(st: Scan, b: char): Scan {
    if st.inStr then
      if st.esc then st.(esc := false)
      else if b == '\\' then st.(esc := true)
      else if b == '"' then st.(inStr := false)
      else st
    else if b == '"' then st.(inStr := true)
    else if b == '{' then st.(depth := st.depth + 1)
    else if b == '}' then st.(depth := st.depth - 1)
    else st
  }

  /** Reading `b` brings the depth back to zero outside a string: the matching brace. */
  predicate Closes(st: Scan, b: char) { !st.inStr && b == '}' && st.depth == 1 }

  function Run(st: Scan, text: string): Scan
    decreases text
  {
    if text == [] then st else Run(Step(st, text[0]), text[1..])
  }

  /** No character of `text` closes. */
  predicate Quiet(st: Scan, text: string)
    decreases text
  {
    text == [] || (!Closes(st, text[0]) && Quiet(Step(st, text[0]), text[1..]))
  }

  function Find(st: Scan, text: string): (k: Option<nat>)
    ensures k.Some? ==> k.value < |text| && text[k.value] == '}'
    decreases text
  {
    if text == [] then None
    else if Closes(st, text[0]) then Some(0)
    else match Find(Step(st, text[0]), text[1..])
      case None => None
      case Some(k) => Some(k + 1)
  }

  lemma {:induction false} RunAppend(st: Scan, a: string, b: string)
    ensures Run(st, a + b) == Run(Run(st, a), b)
    ensures Quiet(st, a + b) == (Quiet(st, a) && Quiet(Run(st, a), b))
    decreases |a|
  {
    if a == [] {
      assert a + b == b;
    } else {
      assert (a + b)[1..] == a[1..] + b;
      RunAppend(Step(st, a[0]), a[1..], b);
    }
  }

  lemma {:induction false} FindAppend(st: Scan, a: string, b: string)
    requires Quiet(st, a)
    ensures Find(st, a + b) == match Find(Run(st, a), b) case None => None case Some(k) => Some(|a| + k)
    decreases |a|
  {
    if a == [] {
      assert a + b == b;
    } else {
      assert (a + b)[1..] == a[1..] + b;
      FindAppend(Step(st, a[0]), a[1..], b);
    }
  }

  /** The loop of `find_matching_brace`. */
  method FindMatchingBrace(s: string) returns (r: Option<nat>)
    ensures r == Find(START, s)
  {
    var depth, inStr, esc := 0, false, false;
    for i := 0 to |s|
      invariant Quiet(START, s[..i]) && Run(START, s[..i]) == Scan(depth, inStr, esc)
    {
      var b := s[i];
      ghost var st := Scan(depth, inStr, esc);
      assert s[..i] + s[i..] == s && s[..i] + [b] == s[..i + 1];
      FindAppend(START, s[..i], s[i..]);
      RunAppend(START, s[..i], [b]);
      assert [b][1..] == [];
      assert Run(st, [b]) == Step(st, b);
      assert Quiet(st, [b]) == !Closes(st, b);
      if inStr {
        if esc {
          esc := false;
        } else if b == '\\' {
          esc := true;
        } else if b == '"' {
          inStr := false;
        }
      } else if b == '"' {
        inStr := true;
      } else if b == '{' {
        depth := depth + 1;
      } else if b == '}' {
        depth := depth - 1;
        if depth == 0 {
          return Some(i);
        }
      }
    }
    assert s[..|s|] == s;
    FindAppend(START, s, []);
    assert s + [] == s;
    return None;
  }

  // ---------------------------------------------------------------------------
  // JSON texts (RFC 8259), with every choice of whitespace and escapes
  // ---------------------------------------------------------------------------

  /** One character of a string literal as written: itself, or behind a backslash.
      `\uXXXX` is an escaped `u` followed by four plain characters. */
  datatype Unit = Plain(c: char) | Escaped(c: char)

  datatype Value = Value(pre: string, core: Core, post: string)
  datatype Core =
    | Scalar(token: string)
    | Text(units: seq<Unit>)
    | Array(items: seq<Value>, blank: string)
    | Object(members: seq<Member>, blank: string)
  datatype Member = Member(pre: string, key: seq<Unit>, post: string, value: Value)

  predicate Blank(s: string) { forall c :: c in s ==> c in " \t\r\n" }
  predicate Token(s: string) { forall c :: c in s ==> '0' <= c <= '9' || 'a' <= c <= 'z' || 'A' <= c <= 'Z' || c in "+-." }
  predicate Units(us: seq<Unit>) { forall u :: u in us && u.Plain? ==> u.c != '"' && u.c != '\\' }

  predicate ValidValue(v: Value) { Blank(v.pre) && Blank(v.post) && ValidCore(v.core) }

  predicate ValidMember(m: Member) { Blank(m.pre) && Blank(m.post) && Units(m.key) && ValidValue(m.value) }

  predicate ValidCore(c: Core) {
    match c
    case Scalar(token) => Token(token)
    case Text(units) => Units(units)
    case Array(items, blank) => Blank(blank) && forall v :: v in items ==> ValidValue(v)
    case Object(members, blank) => Blank(blank) && forall m :: m in members ==> ValidMember(m)
  }

  function PrintUnits(us: seq<Unit>): string {
    if us == [] then ""
    else (match us[0] case Plain(c) => [c] case Escaped(c) => ['\\', c]) + PrintUnits(us[1..])
  }

  function Quoted(us: seq<Unit>): string { ['"'] + PrintUnits(us) + ['"'] }

  function PrintValue(v: Value): string
    decreases v, 0
  {
    v.pre + PrintCore(v.core) + v.post
  }

  function PrintItems(items: seq<Value>): string
    decreases items, 0
  {
    if items == [] then ""
    else if |items| == 1 then PrintValue(items[0])
    else PrintValue(items[0]) + "," + PrintItems(items[1..])
  }

  function PrintMember(m: Member): string
    decreases m, 0
  {
    m.pre + Quoted(m.key) + m.post + ":" + PrintValue(m.value)
  }

  function PrintMembers(members: seq<Member>): string
    decreases members, 0
  {
    if members == [] then ""
    else if |members| == 1 then PrintMember(members[0])
    else PrintMember(members[0]) + "," + PrintMembers(members[1..])
  }

  /** What stands between the braces of an object. */
  function Inside(c: Core): string
    requires c.Object?
    decreases c, 0
  {
    if c.members == [] then c.blank else PrintMembers(c.members)
  }

  function PrintCore(c: Core): string
    decreases c, 1
  {
    match c
    case Scalar(token) => token
    case Text(units) => Quoted(units)
    case Array(items, blank) => ['['] + (if items == [] then blank else PrintItems(items)) + [']']
    case Object(_, _) => ['{'] + Inside(c) + ['}']
  }

  // ---------------------------------------------------------------------------
  // The matcher inverts the printer
  // ---------------------------------------------------------------------------

  /** The state behind a text that does not close. */
  function Passed(st: Scan, text: string): Option<Scan> { if Quiet(st, text) then Some(Run(st, text)) else None }

  /** Reading `text` at depth `d` outside a string finds nothing and ends where it started. */
  predicate Inert(d: int, text: string) { Passed(Scan(d, false, false), text) == Some(Scan(d, false, false)) }

  lemma InertAppend(d: int, a: string, b: string)
    requires Inert(d, a) && Inert(d, b)
    ensures Inert(d, a + b)
  {
    RunAppend(Scan(d, false, false), a, b);
  }

  lemma {:induction false} PlainTextIsInert(d: int, text: string)
    requires forall c :: c in text ==> c != '"' && c != '{' && c != '}'
    ensures Inert(d, text)
    decreases |text|
  {
    if text != [] {
      assert text[0] in text && forall c :: c in text[1..] ==> c in text;
      PlainTextIsInert(d, text[1..]);
    }
  }

  lemma {:induction false} UnitsStayInString(d: int, us: seq<Unit>)
    requires Units(us)
    ensures var st := Scan(d, true, false); Quiet(st, PrintUnits(us)) && Run(st, PrintUnits(us)) == st
    decreases |us|
  {
    if us != [] {
      var st := Scan(d, true, false);
      assert us[0] in us;
      UnitsStayInString(d, us[1..]);
      match us[0]
      case Plain(c) =>
        assert PrintUnits(us) == [c] + PrintUnits(us[1..]);
        assert Step(st, c) == st;
      case Escaped(c) =>
        assert PrintUnits(us) == ['\\', c] + PrintUnits(us[1..]);
        RunAppend(st, ['\\', c], PrintUnits(us[1..]));
        assert ['\\', c][1..] == [c];
        assert [c][1..] == [];
        assert Run(Step(st, '\\'), [c]) == st;
        assert Quiet(Step(st, '\\'), [c]);
    }
  }

  lemma Char(st: Scan, c: char)
    ensures Run(st, [c]) == Step(st, c) && Quiet(st, [c]) == !Closes(st, c)
  {
    assert [c][1..] == [];
  }

  lemma QuotedIsInert(d: int, us: seq<Unit>)
    requires Units(us)
    ensures Inert(d, Quoted(us))
  {
    var outside, inside := Scan(d, false, false), Scan(d, true, false);
    hide Run, Quiet;
    Char(outside, '"');
    UnitsStayInString(d, us);
    Char(inside, '"');
    RunAppend(outside, ['"'], PrintUnits(us));
    RunAppend(outside, ['"'] + PrintUnits(us), ['"']);
  }

  lemma BracesAreInert(d: int, body: string)
    requires d >= 1 && Inert(d + 1, body)
    ensures Inert(d, ['{'] + body + ['}'])
  {
    var st, inner := Scan(d, false, false), Scan(d + 1, false, false);
    hide Run, Quiet;
    Char(st, '{');
    Char(inner, '}');
    RunAppend(st, ['{'], body);
    RunAppend(st, ['{'] + body, ['}']);
  }

  lemma BracketsAreInert(d: int, body: string)
    requires Inert(d, body)
    ensures Inert(d, ['['] + body + [']'])
  {
    hide Inert;
    PlainTextIsInert(d, ['[']);
    PlainTextIsInert(d, [']']);
    InertAppend(d, ['['], body);
    InertAppend(d, ['['] + body, [']']);
  }

  lemma {:induction false} ValueIsInert(d: int, v: Value)
    requires d >= 1 && ValidValue(v)
    ensures Inert(d, PrintValue(v))
    decreases v, 0
  {
    hide Inert;
    PlainTextIsInert(d, v.pre);
    PlainTextIsInert(d, v.post);
    CoreIsInert(d, v.core);
    InertAppend(d, v.pre, PrintCore(v.core));
    InertAppend(d, v.pre + PrintCore(v.core), v.post);
  }

  lemma {:induction false} ItemsAreInert(d: int, items: seq<Value>)
    requires d >= 1 && forall v :: v in items ==> ValidValue(v)
    ensures Inert(d, PrintItems(items))
    decreases items, 0
  {
    hide Inert;
    PlainTextIsInert(d, "");
    if items != [] {
      ValueIsInert(d, items[0]);
      if |items| > 1 {
        ItemsAreInert(d, items[1..]);
        PlainTextIsInert(d, ",");
        InertAppend(d, PrintValue(items[0]), ",");
        InertAppend(d, PrintValue(items[0]) + ",", PrintItems(items[1..]));
      }
    }
  }

  lemma {:induction false} MemberIsInert(d: int, m: Member)
    requires d >= 1 && ValidMember(m)
    ensures Inert(d, PrintMember(m))
    decreases m, 0
  {
    hide Inert;
    PlainTextIsInert(d, m.pre);
    PlainTextIsInert(d, m.post);
    PlainTextIsInert(d, ":");
    QuotedIsInert(d, m.key);
    ValueIsInert(d, m.value);
    InertAppend(d, m.pre, Quoted(m.key));
    InertAppend(d, m.pre + Quoted(m.key), m.post);
    InertAppend(d, m.pre + Quoted(m.key) + m.post, ":");
    InertAppend(d, m.pre + Quoted(m.key) + m.post + ":", PrintValue(m.value));
  }

  lemma {:induction false} MembersAreInert(d: int, members: seq<Member>)
    requires d >= 1 && forall m :: m in members ==> ValidMember(m)
    ensures Inert(d, PrintMembers(members))
    decreases members, 0
  {
    hide Inert;
    PlainTextIsInert(d, "");
    if members != [] {
      MemberIsInert(d, members[0]);
      if |members| > 1 {
        MembersAreInert(d, members[1..]);
        PlainTextIsInert(d, ",");
        InertAppend(d, PrintMember(members[0]), ",");
        InertAppend(d, PrintMember(members[0]) + ",", PrintMembers(members[1..]));
      }
    }
  }

  lemma {:induction false} InsideIsInert(d: int, c: Core)
    requires d >= 1 && c.Object? && ValidCore(c)
    ensures Inert(d, Inside(c))
    decreases c, 0
  {
    hide Inert;
    if c.members == [] {
      PlainTextIsInert(d, c.blank);
    } else {
      MembersAreInert(d, c.members);
    }
  }

  /** A printed value never closes the braces around it, whatever its strings contain. */
  lemma {:induction false} CoreIsInert(d: int, c: Core)
    requires d >= 1 && ValidCore(c)
    ensures Inert(d, PrintCore(c))
    decreases c, 1
  {
    hide Inert;
    match c
    case Scalar(token) => PlainTextIsInert(d, token);
    case Text(units) => QuotedIsInert(d, units);
    case Array(items, blank) =>
      if items == [] {
        PlainTextIsInert(d, blank);
        BracketsAreInert(d, blank);
      } else {
        ItemsAreInert(d, items);
        BracketsAreInert(d, PrintItems(items));
      }
    case Object(_, _) =>
      InsideIsInert(d + 1, c);
      BracesAreInert(d, Inside(c));
  }

  /** The matcher stops exactly at the object's last byte, whatever follows. */
  lemma MatcherInvertsPrinter(c: Core, rest: string)
    requires c.Object? && ValidCore(c)
    ensures Find(START, PrintCore(c) + rest) == Some(|PrintCore(c)| - 1)
  {
    var head := ['{'] + Inside(c);
    var inner := Scan(1, false, false);
    InsideIsInert(1, c);
    Char(START, '{');
    RunAppend(START, ['{'], Inside(c));
    assert PrintCore(c) + rest == head + (['}'] + rest);
    FindAppend(START, head, ['}'] + rest);
    assert Find(inner, ['}'] + rest) == Some(0);
  }

  // ---------------------------------------------------------------------------
  // Extracting an object
  // ---------------------------------------------------------------------------

  /** `char::is_whitespace`. */
  predicate IsSpace(c: char) {
    var n := c as int;
    9 <= n <= 13 || n in {0x20, 0x85, 0xA0, 0x1680, 0x2028, 0x2029, 0x202F, 0x205F, 0x3000} || 0x2000 <= n <= 0x200A
  }

  function TrimStart(s: string): string {
    if s != [] && IsSpace(s[0]) then TrimStart(s[1..]) else s
  }

  function TrimEnd(s: string): string {
    if s != [] && IsSpace(s[|s| - 1]) then TrimEnd(s[..|s| - 1]) else s
  }

  function Trim(s: string): string { TrimEnd(TrimStart(s)) }

  /** Position of the first occurrence of `needle` at or after `i`, letters compared through `key`. */
  function IndexFrom(s: string, needle: string, i: nat, key: char -> char): (k: Option<nat>)
    ensures k.Some? ==> i <= k.value && k.value + |needle| <= |s| && MatchesAt(s, needle, k.value, key)
    ensures k.Some? ==> forall j :: i <= j < k.value ==> !MatchesAt(s, needle, j, key)
    ensures k.None? ==> forall j :: i <= j ==> !MatchesAt(s, needle, j, key)
    decreases |s| - i
  {
    if i + |needle| > |s| then None
    else if MatchesAt(s, needle, i, key) then Some(i)
    else IndexFrom(s, needle, i + 1, key)
  }

  predicate MatchesAt(s: string, needle: string, i: int, key: char -> char) {
    0 <= i && i + |needle| <= |s| && forall j :: 0 <= j < |needle| ==> key(s[i + j]) == key(needle[j])
  }

  function Same(c: char): char { c }
  function AsciiLower(c: char): char { if 'A' <= c <= 'Z' then c - 'A' + 'a' else c }

  /** `str::find`. */
  function IndexOf(s: string, needle: string): Option<nat> { IndexFrom(s, needle, 0, Same) }

  /** The nested loops of `find_case_insensitive`. */
  method FindCaseInsensitive(haystack: string, needle: string) returns (r: Option<nat>)
    ensures r == if needle == [] then None else IndexFrom(haystack, needle, 0, AsciiLower)
  {
    if needle == [] || |haystack| < |needle| {
      return None;
    }
    var i := 0;
    while i <= |haystack| - |needle|
      invariant 0 <= i <= |haystack| - |needle| + 1
      invariant forall k :: 0 <= k < i ==> !MatchesAt(haystack, needle, k, AsciiLower)
    {
      var j := 0;
      while j < |needle| && AsciiLower(haystack[i + j]) == AsciiLower(needle[j])
        invariant 0 <= j <= |needle|
        invariant forall k :: 0 <= k < j ==> AsciiLower(haystack[i + k]) == AsciiLower(needle[k])
      {
        j := j + 1;
      }
      if j == |needle| {
        assert MatchesAt(haystack, needle, i, AsciiLower);
        return Some(i);
      }
      i := i + 1;
    }
    return None;
  }

  /** serde's verdicts on a candidate text. */
  datatype Serde = Serde(parses: string -> bool, isObject: string -> bool)

  /** The shortest prefix of `slice`, ending in a brace at or after `k`, that is a JSON object. */
  function FirstObject(serde: Serde, slice: string, k: nat): Option<string>
    decreases |slice| - k
  {
    if k >= |slice| then None
    else if slice[k] == '}' && serde.parses(slice[..k + 1]) && serde.isObject(slice[..k + 1]) then Some(slice[..k + 1])
    else FirstObject(serde, slice, k + 1)
  }

  /** `try_extract_json_object` as a function. */
  function TryExtract(serde: Serde, raw: string): Option<string> {
    var s := Trim(raw);
    match IndexOf(s, "{")
    case None => None
    case Some(start) =>
      var slice := s[start..];
      match Find(START, slice)
      case Some(end) => if serde.parses(slice[..end + 1]) then Some(slice[..end + 1]) else FirstObject(serde, slice, 0)
      case None => FirstObject(serde, slice, 0)
  }

  /** The fallback loop of `try_extract_json_object`. */
  method TryExtractJsonObject(serde: Serde, raw: string) returns (r: Option<string>)
    ensures r == TryExtract(serde, raw)
  {
    var s := Trim(raw);
    var start := IndexOf(s, "{");
    if start.None? {
      return None;
    }
    var slice := s[start.value..];
    var end := FindMatchingBrace(slice);
    if end.Some? {
      var cand := slice[..end.value + 1];
      if serde.parses(cand) {
        return Some(cand);
      }
    }
    for i := 0 to |slice|
      invariant FirstObject(serde, slice, 0) == FirstObject(serde, slice, i)
    {
      if slice[i] == '}' {
        var cand := slice[..i + 1];
        if serde.parses(cand) && serde.isObject(cand) {
          return Some(cand);
        }
      }
    }
    return None;
  }

  lemma {:induction false} TrimStartSolid(p: string, x: string)
    requires x != [] && !IsSpace(x[0])
    ensures TrimStart(p + x) == TrimStart(p) + x
    decreases |p|
  {
    if p == [] {
      assert p + x == x;
    } else if IsSpace(p[0]) {
      assert (p + x)[1..] == p[1..] + x;
      TrimStartSolid(p[1..], x);
    }
  }

  lemma {:induction false} TrimEndSolid(x: string, q: string)
    requires x != [] && !IsSpace(x[|x| - 1])
    ensures TrimEnd(x + q) == x + TrimEnd(q)
    decreases |q|
  {
    if q == [] {
      assert x + q == x;
    } else if IsSpace(q[|q| - 1]) {
      assert (x + q)[..|x + q| - 1] == x + q[..|q| - 1];
      TrimEndSolid(x, q[..|q| - 1]);
    }
  }

  /** Trimming around a solid middle only touches the outside. */
  lemma TrimAround(p: string, x: string, q: string)
    requires x != [] && !IsSpace(x[0]) && !IsSpace(x[|x| - 1])
    ensures Trim(p + x + q) == TrimStart(p) + x + TrimEnd(q)
  {
    assert p + x + q == p + (x + q);
    TrimStartSolid(p, x + q);
    var px := TrimStart(p) + x;
    assert TrimStart(p) + (x + q) == px + q;
    TrimEndSolid(px, q);
  }

  lemma {:induction false} TrimStartKeeps(p: string)
    ensures |TrimStart(p)| <= |p| && TrimStart(p) == p[|p| - |TrimStart(p)|..]
    decreases |p|
  {
    if p != [] && IsSpace(p[0]) {
      TrimStartKeeps(p[1..]);
    }
  }

  predicate Blanks(s: string) { forall x :: x in s ==> IsSpace(x) }

  lemma {:induction false} TrimStartDropsBlanks(s: string)
    ensures |TrimStart(s)| <= |s| && Blanks(s[..|s| - |TrimStart(s)|])
    ensures TrimStart(s) == "" || !IsSpace(TrimStart(s)[0])
    decreases |s|
  {
    TrimStartKeeps(s);
    if s != [] && IsSpace(s[0]) {
      TrimStartDropsBlanks(s[1..]);
      TrimStartKeeps(s[1..]);
      var n := |s| - |TrimStart(s)|;
      assert s[..n] == [s[0]] + s[1..][..n - 1];
    }
  }

  lemma {:induction false} TrimEndDropsBlanks(s: string)
    ensures |TrimEnd(s)| <= |s| && TrimEnd(s) == s[..|TrimEnd(s)|] && Blanks(s[|TrimEnd(s)|..])
    ensures TrimEnd(s) == "" || !IsSpace(TrimEnd(s)[|TrimEnd(s)| - 1])
    decreases |s|
  {
    if s != [] && IsSpace(s[|s| - 1]) {
      var front, n := s[..|s| - 1], |TrimEnd(s)|;
      TrimEndDropsBlanks(front);
      assert s[n..] == front[n..] + [s[|s| - 1]];
    }
  }

  /** Trimming takes blanks off both ends, all of them and nothing else. */
  lemma TrimTakesBlanks(s: string)
    ensures exists a, b :: Blanks(a) && Blanks(b) && s == a + (Trim(s) + b)
    ensures Trim(s) == "" || (!IsSpace(Trim(s)[0]) && !IsSpace(Trim(s)[|Trim(s)| - 1]))
  {
    var t := TrimStart(s);
    TrimStartDropsBlanks(s);
    TrimStartKeeps(s);
    TrimEndDropsBlanks(t);
    hide IsSpace, TrimStart, TrimEnd, Blanks;
    var a, b := s[..|s| - |t|], t[|Trim(s)|..];
    assert t == Trim(s) + b && s == a + t;
  }

  predicate ObjectText(o: string) { |o| >= 2 && o[0] == '{' && o[|o| - 1] == '}' }

  lemma PrintedObjectText(c: Core)
    requires c.Object?
    ensures ObjectText(PrintCore(c))
  {
  }

  lemma SolidObject(o: string)
    requires ObjectText(o)
    ensures !IsSpace(o[0]) && !IsSpace(o[|o| - 1])
  {
  }

  lemma FirstBrace(p: string, o: string)
    requires '{' !in p && o != [] && o[0] == '{'
    ensures IndexOf(p + o, "{") == Some(|p|)
  {
    assert MatchesAt(p + o, "{", |p|, Same);
    forall j | 0 <= j < |p| ensures !MatchesAt(p + o, "{", j, Same) {
      assert (p + o)[j] == p[j] && "{"[0] == '{';
    }
  }

  /** Any prefix without an opening brace, the object, and any suffix whatever: the object's own text comes out. */
  lemma ExtractsPrintedObject(serde: Serde, p: string, c: Core, q: string)
    requires '{' !in p && c.Object? && ValidCore(c) && serde.parses(PrintCore(c))
    ensures TryExtract(serde, p + PrintCore(c) + q) == Some(PrintCore(c))
  {
    var o := PrintCore(c);
    PrintedObjectText(c);
    SolidObject(o);
    hide *;
    TrimAround(p, o, q);
    TrimStartKeeps(p);
    var p', q' := TrimStart(p), TrimEnd(q);
    FirstBrace(p', o + q');
    MatcherInvertsPrinter(c, q');
    RightGroup(p', o, q');
  }

  lemma RightGroup(a: string, b: string, c: string)
    ensures a + b + c == a + (b + c)
  {
  }

  lemma {:induction false} FirstObjectIsObject(serde: Serde, slice: string, k: nat)
    ensures var r := FirstObject(serde, slice, k);
            r.Some? ==> serde.parses(r.value) && serde.isObject(r.value) && r.value <= slice && r.value != []
    decreases |slice| - k
  {
    if k < |slice| {
      FirstObjectIsObject(serde, slice, k + 1);
    }
  }

  lemma {:induction false} FirstObjectIsShortest(serde: Serde, slice: string, from: nat, k: nat)
    requires from <= k < |slice| && slice[k] == '}' && serde.parses(slice[..k + 1]) && serde.isObject(slice[..k + 1])
    ensures FirstObject(serde, slice, from).Some? && |FirstObject(serde, slice, from).value| <= k + 1
    decreases k - from
  {
    if !(slice[from] == '}' && serde.parses(slice[..from + 1]) && serde.isObject(slice[..from + 1])) {
      FirstObjectIsShortest(serde, slice, from + 1, k);
    }
  }

  /** Nothing comes out only of a reply none of whose texts from the first opening brace to a closing one is an object;
      and when the matching brace does not delimit JSON, the shortest such text comes out. */
  lemma ExtractionMissesNothing(serde: Serde, raw: string, start: nat, k: nat)
    requires IndexOf(Trim(raw), "{") == Some(start) && start + k < |Trim(raw)|
    requires var slice := Trim(raw)[start..];
             slice[k] == '}' && serde.parses(slice[..k + 1]) && serde.isObject(slice[..k + 1])
    ensures var slice := Trim(raw)[start..];
            && TryExtract(serde, raw).Some?
            && (match Find(START, slice)
                case Some(end) =>
                  if serde.parses(slice[..end + 1]) then TryExtract(serde, raw).value == slice[..end + 1]
                  else |TryExtract(serde, raw).value| <= k + 1
                case None => |TryExtract(serde, raw).value| <= k + 1)
  {
    hide Trim, IndexFrom, Find, FirstObject;
    FirstObjectIsShortest(serde, Trim(raw)[start..], 0, k);
  }

  /** Whatever comes out was in the reply, starts at its first brace, and parses. */
  lemma ExtractedTextParses(serde: Serde, raw: string)
    requires TryExtract(serde, raw).Some?
    ensures var r := TryExtract(serde, raw).value;
            && serde.parses(r)
            && IndexOf(Trim(raw), "{").Some? && r <= Trim(raw)[IndexOf(Trim(raw), "{").value..]
  {
    var s := Trim(raw);
    FirstObjectIsObject(serde, s[IndexOf(s, "{").value..], 0);
  }

  // ---------------------------------------------------------------------------
  // Markdown fences
  // ---------------------------------------------------------------------------

  const FENCE := "```"
  const JSON_FENCE := "```json"

  /** Text up to a closing fence, if there is one. */
  function UpToFence(rest: string): string {
    match IndexOf(rest, FENCE)
    case Some(close) => Trim(rest[..close])
    case None => Trim(rest)
  }

  function LowerAll(s: string): string { seq(|s|, i requires 0 <= i < |s| => AsciiLower(s[i])) }

  /** The body behind a plain fence, after an empty or `json` language line. */
  function BehindFence(t: string, idx: nat): string
    requires idx + 3 <= |t|
  {
    var rest := TrimStart(t[idx + 3..]);
    if rest != [] && rest[0] == '{' then rest else
    match IndexOf(rest, "\n")
    case Some(nl) =>
      var lang := LowerAll(Trim(rest[..nl]));
      if lang == "" || lang == "json" then TrimStart(rest[nl + 1..]) else rest
    case None => rest
  }

  function FromJsonFence(serde: Serde, t: string): Option<string> {
    match IndexFrom(t, JSON_FENCE, 0, AsciiLower)
    case Some(idx) => TryExtract(serde, UpToFence(TrimStart(t[idx + 7..])))
    case None => None
  }

  function FromPlainFence(serde: Serde, t: string): Option<string> {
    match IndexOf(t, FENCE)
    case Some(idx) =>
      var content := UpToFence(BehindFence(t, idx));
      if content != "" && '{' in content then TryExtract(serde, content) else None
    case None => None
  }

  /** `extract_json_block`. */
  function ExtractBlock(serde: Serde, raw: string): Option<string> {
    var t := Trim(raw);
    if FromJsonFence(serde, t).Some? then FromJsonFence(serde, t)
    else if FromPlainFence(serde, t).Some? then FromPlainFence(serde, t)
    else TryExtract(serde, t)
  }

  lemma JsonFenceIsFence(t: string, j: int)
    ensures MatchesAt(t, JSON_FENCE, j, AsciiLower) ==> MatchesAt(t, FENCE, j, Same)
  {
    if MatchesAt(t, JSON_FENCE, j, AsciiLower) {
      forall i | 0 <= i < 3 ensures Same(t[j + i]) == Same(FENCE[i]) {
        assert AsciiLower(t[j + i]) == AsciiLower(JSON_FENCE[i]) == '`';
      }
    }
  }

  lemma NoFenceNoJsonFence(t: string)
    requires IndexOf(t, FENCE).None?
    ensures IndexFrom(t, JSON_FENCE, 0, AsciiLower).None?
  {
    forall j: nat ensures !MatchesAt(t, JSON_FENCE, j, AsciiLower) {
      JsonFenceIsFence(t, j);
    }
  }

  lemma {:induction false} TrimEndKeeps(q: string)
    ensures |TrimEnd(q)| <= |q| && TrimEnd(q) == q[..|TrimEnd(q)|]
    decreases |q|
  {
    if q != [] && IsSpace(q[|q| - 1]) {
      TrimEndKeeps(q[..|q| - 1]);
    }
  }

  lemma MatchInPart(before: string, part: string, after: string, needle: string, j: nat, key: char -> char)
    requires MatchesAt(part, needle, j, key)
    ensures MatchesAt(before + part + after, needle, |before| + j, key)
  {
    var t := before + part + after;
    forall i | 0 <= i < |needle| ensures key(t[|before| + j + i]) == key(needle[i]) {
      assert t[|before| + j + i] == part[j + i];
    }
  }

  /** No occurrence in a text means none in any part of it. */
  lemma NoneInPart(before: string, part: string, after: string, needle: string, key: char -> char)
    requires IndexFrom(before + part + after, needle, 0, key).None?
    ensures IndexFrom(part, needle, 0, key).None?
  {
    forall j: nat ensures !MatchesAt(part, needle, j, key) {
      if MatchesAt(part, needle, j, key) {
        MatchInPart(before, part, after, needle, j, key);
      }
    }
  }

  lemma Outer(a: string, b: string, c: string, d: string, e: string)
    ensures (a + b) + c + (d + e) == a + (b + c + d) + e
  {
  }

  /** Trimming around a solid middle leaves a part of the text. */
  lemma TrimIsPart(p: string, x: string, q: string) returns (p': string, q': string, before: string, after: string)
    requires x != [] && !IsSpace(x[0]) && !IsSpace(x[|x| - 1])
    ensures Trim(p + x + q) == p' + x + q' && p + x + q == before + (p' + x + q') + after
    ensures p == before + p'
  {
    hide *;
    TrimAround(p, x, q);
    TrimStartKeeps(p);
    TrimEndKeeps(q);
    p', q' := TrimStart(p), TrimEnd(q);
    before, after := p[..|p| - |p'|], q[|q'|..];
    assert p == before + p' && q == q' + after;
    Outer(before, p', x, q', after);
  }

  /** A reply without any fence: prose, the object, more prose. */
  lemma PlainReply(serde: Serde, p: string, c: Core, q: string)
    requires '{' !in p && c.Object? && ValidCore(c) && serde.parses(PrintCore(c))
    requires IndexOf(p + PrintCore(c) + q, FENCE).None?
    ensures ExtractBlock(serde, p + PrintCore(c) + q) == Some(PrintCore(c))
  {
    var o := PrintCore(c);
    PrintedObjectText(c);
    SolidObject(o);
    hide PrintCore, TryExtract, IndexFrom, Trim;
    var p', q', before, after := TrimIsPart(p, o, q);
    NoneInPart(before, p' + o + q', after, FENCE, Same);
    NoFenceNoJsonFence(p' + o + q');
    ExtractsTrimmed(serde, p, c, q);
  }

  /** Trimming once more makes no difference to the extractor. */
  lemma ExtractsTrimmed(serde: Serde, p: string, c: Core, q: string)
    requires '{' !in p && c.Object? && ValidCore(c) && serde.parses(PrintCore(c))
    ensures TryExtract(serde, Trim(p + PrintCore(c) + q)) == Some(PrintCore(c))
  {
    var o := PrintCore(c);
    PrintedObjectText(c);
    SolidObject(o);
    hide PrintCore, TryExtract, Trim;
    var p', q', before, after := TrimIsPart(p, o, q);
    ExtractsPrintedObject(serde, p', c, q');
  }

  lemma FenceAt(t: string, k: nat)
    requires MatchesAt(t, FENCE, k, Same)
    ensures k + 3 <= |t| && t[k] == t[k + 1] == t[k + 2] == '`'
  {
    assert Same(t[k + 0]) == Same(FENCE[0]) && Same(t[k + 1]) == Same(FENCE[1]) && Same(t[k + 2]) == Same(FENCE[2]);
  }

  lemma FenceWithin(o: string, q: string, k: nat)
    requires ObjectText(o) && k < |o|
    ensures MatchesAt(o + q, FENCE, k, Same) ==> MatchesAt(o, FENCE, k, Same)
  {
    if MatchesAt(o + q, FENCE, k, Same) {
      FenceAt(o + q, k);
    }
  }

  /** The first fence behind an object that contains none does not cut into it. */
  lemma FenceBehindObject(o: string, q: string)
    requires ObjectText(o) && IndexOf(o, FENCE).None?
    ensures match IndexOf(o + q, FENCE) case Some(k) => k >= |o| case None => true
  {
    match IndexOf(o + q, FENCE)
    case None =>
    case Some(k) =>
      if k < |o| {
        FenceWithin(o, q, k);
      }
  }

  lemma SolidUpToFence(o: string, q: string) returns (tail: string)
    requires ObjectText(o) && IndexOf(o, FENCE).None?
    ensures UpToFence(o + q) == o + tail
  {
    FenceBehindObject(o, q);
    var k := IndexOf(o + q, FENCE);
    hide IndexFrom;
    var body := if k.Some? then q[..k.value - |o|] else q;
    assert (if k.Some? then (o + q)[..k.value] else o + q) == o + body;
    TrimAround("", o, body);
    assert "" + o + body == o + body;
    assert "" + o + TrimEnd(body) == o + TrimEnd(body);
    tail := TrimEnd(body);
  }

  /** What stands up to the closing fence still yields the object. */
  lemma UpToFenceYields(serde: Serde, c: Core, q: string)
    requires c.Object? && ValidCore(c) && serde.parses(PrintCore(c)) && IndexOf(PrintCore(c), FENCE).None?
    ensures TryExtract(serde, UpToFence(PrintCore(c) + q)) == Some(PrintCore(c))
  {
    var o := PrintCore(c);
    PrintedObjectText(c);
    hide PrintCore, TryExtract, UpToFence, IndexFrom;
    var tail := SolidUpToFence(o, q);
    ExtractsPrintedObject(serde, "", c, tail);
    assert "" + o + tail == o + tail;
  }

  predicate IsJsonFence(f: string) { |f| == 7 && MatchesAt(f, JSON_FENCE, 0, AsciiLower) }

  /** A `json` fence is three backticks and the word in any mixture of cases. */
  lemma JsonFenceInAnyCase(f: string)
    requires |f| == 7
    ensures IsJsonFence(f) <==> f[0] == f[1] == f[2] == '`' && f[3] in "jJ" && f[4] in "sS" && f[5] in "oO" && f[6] in "nN"
  {
    var n := JSON_FENCE;
    assert n[0] == n[1] == n[2] == '`' && n[3] == 'j' && n[4] == 's' && n[5] == 'o' && n[6] == 'n';
    hide JSON_FENCE;
    if IsJsonFence(f) {
      assert AsciiLower(f[0 + 0]) == AsciiLower(n[0]) && AsciiLower(f[0 + 1]) == AsciiLower(n[1]);
      assert AsciiLower(f[0 + 2]) == AsciiLower(n[2]) && AsciiLower(f[0 + 3]) == AsciiLower(n[3]);
      assert AsciiLower(f[0 + 4]) == AsciiLower(n[4]) && AsciiLower(f[0 + 5]) == AsciiLower(n[5]);
      assert AsciiLower(f[0 + 6]) == AsciiLower(n[6]);
    }
  }

  /** No occurrence starts among the first `n` characters. */
  predicate NoneStartsIn(t: string, needle: string, n: nat, key: char -> char) {
    forall j :: 0 <= j < n ==> !MatchesAt(t, needle, j, key)
  }

  lemma FirstIs(t: string, needle: string, n: nat, key: char -> char)
    requires MatchesAt(t, needle, n, key) && NoneStartsIn(t, needle, n, key)
    ensures IndexFrom(t, needle, 0, key) == Some(n)
  {
  }

  /** What starts nowhere in the prose does not start there after trimming. */
  lemma NoneStartsInTrimmed(p: string, rest: string, p': string, rest': string, before: string, after: string,
                            needle: string, key: char -> char)
    requires p + rest == before + (p' + rest') + after && p == before + p'
    requires NoneStartsIn(p + rest, needle, |p|, key)
    ensures NoneStartsIn(p' + rest', needle, |p'|, key)
  {
    forall j | 0 <= j < |p'| ensures !MatchesAt(p' + rest', needle, j, key) {
      if MatchesAt(p' + rest', needle, j, key) {
        MatchInPart(before, p' + rest', after, needle, j, key);
      }
    }
  }

  lemma FirstJsonFence(p: string, f: string, rest: string)
    requires IsJsonFence(f) && NoneStartsIn(p + f + rest, JSON_FENCE, |p|, AsciiLower)
    ensures IndexFrom(p + f + rest, JSON_FENCE, 0, AsciiLower) == Some(|p|)
  {
    var t := p + f + rest;
    assert forall j :: 0 <= j < 7 ==> t[|p| + j] == f[j] == f[0 + j];
    FirstIs(t, JSON_FENCE, |p|, AsciiLower);
  }

  lemma FenceIsSolid(f: string)
    requires IsJsonFence(f)
    ensures f[0] == '`'
  {
    assert AsciiLower(f[0 + 0]) == AsciiLower(JSON_FENCE[0]);
  }

  lemma JsonFenceYields(serde: Serde, p: string, f: string, blank: string, c: Core, q: string)
    requires IsJsonFence(f) && (forall x :: x in blank ==> IsSpace(x))
    requires NoneStartsIn(p + f + (blank + (PrintCore(c) + q)), JSON_FENCE, |p|, AsciiLower)
    requires c.Object? && ValidCore(c) && serde.parses(PrintCore(c)) && IndexOf(PrintCore(c), FENCE).None?
    ensures FromJsonFence(serde, p + f + (blank + (PrintCore(c) + q))) == Some(PrintCore(c))
  {
    var o := PrintCore(c);
    PrintedObjectText(c);
    hide PrintCore, TryExtract, IndexFrom, UpToFence, NoneStartsIn;
    var behind := blank + (o + q);
    FirstJsonFence(p, f, behind);
    assert (p + f + behind)[|p| + 7..] == behind;
    AllBlank(blank);
    TrimStartSolid(blank, o + q);
    assert "" + (o + q) == o + q;
    UpToFenceYields(serde, c, q);
  }

  /** A reply with a `json` fence: the object behind the first one comes out whatever precedes it, inline code,
      other fences or another object, and whatever follows the fenced object, with or without a closing fence.
      The object itself holds no fence; `ObjectComesOutWhole` is about those that do. */
  lemma FencedReply(serde: Serde, p: string, f: string, blank: string, c: Core, q: string)
    requires IsJsonFence(f) && (forall x :: x in blank ==> IsSpace(x))
    requires NoneStartsIn(p + (f + blank + PrintCore(c)) + q, JSON_FENCE, |p|, AsciiLower)
    requires c.Object? && ValidCore(c) && serde.parses(PrintCore(c)) && IndexOf(PrintCore(c), FENCE).None?
    ensures ExtractBlock(serde, p + (f + blank + PrintCore(c)) + q) == Some(PrintCore(c))
  {
    var o := PrintCore(c);
    PrintedObjectText(c);
    hide *;
    FenceIsSolid(f);
    var x := f + blank + o;
    var p', q', before, after := TrimIsPart(p, x, q);
    Regroup(p, f, blank, o, q);
    Regroup(p', f, blank, o, q');
    NoneStartsInTrimmed(p, f + (blank + (o + q)), p', f + (blank + (o + q')), before, after, JSON_FENCE, AsciiLower);
    RightGroup(p', f, blank + (o + q'));
    JsonFenceYields(serde, p', f, blank, c, q');
  }

  lemma Regroup(p: string, f: string, blank: string, o: string, q: string)
    ensures p + (f + blank + o) + q == p + (f + (blank + (o + q)))
  {
  }

  lemma FirstPlainFence(p: string, rest: string)
    requires NoneStartsIn(p + (FENCE + rest), FENCE, |p|, Same)
    ensures IndexOf(p + (FENCE + rest), FENCE) == Some(|p|)
  {
    var t := p + (FENCE + rest);
    assert t[|p| + 0] == FENCE[0] && t[|p| + 1] == FENCE[1] && t[|p| + 2] == FENCE[2];
    FirstIs(t, FENCE, |p|, Same);
  }

  lemma PlainFenceYields(serde: Serde, p: string, blank: string, c: Core, q: string)
    requires forall x :: x in blank ==> IsSpace(x)
    requires NoneStartsIn(p + (FENCE + (blank + (PrintCore(c) + q))), FENCE, |p|, Same)
    requires c.Object? && ValidCore(c) && serde.parses(PrintCore(c)) && IndexOf(PrintCore(c), FENCE).None?
    ensures FromPlainFence(serde, p + (FENCE + (blank + (PrintCore(c) + q)))) == Some(PrintCore(c))
  {
    var o := PrintCore(c);
    PrintedObjectText(c);
    hide PrintCore, TryExtract, IndexFrom, UpToFence, NoneStartsIn;
    var behind := blank + (o + q);
    var t := p + (FENCE + behind);
    FirstPlainFence(p, behind);
    assert t[|p| + 3..] == behind;
    AllBlank(blank);
    TrimStartSolid(blank, o + q);
    assert "" + (o + q) == o + q;
    assert BehindFence(t, |p|) == o + q;
    var tail := SolidUpToFence(o, q);
    assert (o + tail)[0] == '{';
    UpToFenceYields(serde, c, q);
  }

  /** A reply with a plain fence and no `json` fence anywhere: the object behind the first fence comes out, closed
      or not, whatever inline code precedes it. */
  lemma PlainFencedReply(serde: Serde, p: string, blank: string, c: Core, q: string)
    requires forall x :: x in blank ==> IsSpace(x)
    requires NoneStartsIn(p + (FENCE + blank + PrintCore(c)) + q, FENCE, |p|, Same)
    requires c.Object? && ValidCore(c) && serde.parses(PrintCore(c)) && IndexOf(PrintCore(c), FENCE).None?
    requires IndexFrom(p + (FENCE + blank + PrintCore(c)) + q, JSON_FENCE, 0, AsciiLower).None?
    ensures ExtractBlock(serde, p + (FENCE + blank + PrintCore(c)) + q) == Some(PrintCore(c))
  {
    var o := PrintCore(c);
    PrintedObjectText(c);
    assert FENCE != [] && FENCE[0] == '`';
    hide *;
    var x := FENCE + blank + o;
    var p', q', before, after := TrimIsPart(p, x, q);
    NoneInPart(before, p' + x + q', after, JSON_FENCE, AsciiLower);
    Regroup(p, FENCE, blank, o, q);
    Regroup(p', FENCE, blank, o, q');
    NoneStartsInTrimmed(p, FENCE + (blank + (o + q)), p', FENCE + (blank + (o + q')), before, after, FENCE, Same);
    PlainFenceYields(serde, p', blank, c, q');
  }

  lemma {:induction false} AllBlank(blank: string)
    requires forall x :: x in blank ==> IsSpace(x)
    ensures TrimStart(blank) == ""
    decreases |blank|
  {
    if blank != [] {
      assert blank[0] in blank;
      AllBlank(blank[1..]);
    }
  }

  // ---------------------------------------------------------------------------
  // Objects whose own strings hold a fence
  // ---------------------------------------------------------------------------

  /** A proper prefix of an object is not JSON. */
  predicate RejectsCuts(serde: Serde, o: string) {
    forall k :: 0 < k < |o| ==> !serde.parses(o[..k])
  }

  lemma {:induction false} FindStays(st: Scan, a: string, b: string)
    requires Find(st, a).Some?
    ensures Find(st, a + b) == Find(st, a)
    decreases |a|
  {
    assert (a + b)[1..] == a[1..] + b;
    if !Closes(st, a[0]) {
      FindStays(Step(st, a[0]), a[1..], b);
    }
  }

  lemma NoMatchInCut(c: Core, k: nat)
    requires c.Object? && ValidCore(c) && k < |PrintCore(c)|
    ensures Find(START, PrintCore(c)[..k]).None?
  {
    var o := PrintCore(c);
    hide PrintCore, Find;
    MatcherInvertsPrinter(c, "");
    assert o + "" == o && o == o[..k] + o[k..];
    if Find(START, o[..k]).Some? {
      FindStays(START, o[..k], o[k..]);
    }
  }

  lemma NoObjectInCut(serde: Serde, o: string, k: nat)
    requires k < |o| && RejectsCuts(serde, o)
    ensures FirstObject(serde, o[..k], 0).None?
  {
    forall x: string | x != "" && x <= o[..k] ensures !serde.parses(x) {
      assert x == o[..|x|];
    }
    FirstObjectIsObject(serde, o[..k], 0);
  }

  lemma {:induction false} TrimEndWithin(v: string, x: string)
    requires x != [] && !IsSpace(x[0])
    ensures TrimEnd(v + x) == v + TrimEnd(x) && TrimEnd(x) != [] && TrimEnd(x) <= x
    decreases |x|
  {
    if IsSpace(x[|x| - 1]) {
      assert (v + x)[..|v + x| - 1] == v + x[..|x| - 1];
      TrimEndWithin(v, x[..|x| - 1]);
    }
  }

  /** Trimming touches a text in front of its first solid character only from the left. */
  lemma TrimWithin(v: string, x: string)
    requires x != [] && !IsSpace(x[0])
    ensures Trim(v + x) == TrimStart(v) + TrimEnd(x) && TrimEnd(x) != [] && TrimEnd(x) <= x
  {
    TrimStartSolid(v, x);
    TrimEndWithin(TrimStart(v), x);
  }

  lemma NothingWithoutBrace(serde: Serde, s: string)
    requires '{' !in s
    ensures '{' !in Trim(s) && TryExtract(serde, s).None?
  {
    TrimStartKeeps(s);
    TrimEndKeeps(TrimStart(s));
    assert '{' !in Trim(s);
    assert "{"[0] == '{';
  }

  lemma TrimmedCut(v: string, o: string, k: nat) returns (n: nat)
    requires ObjectText(o) && 0 < k <= |o|
    ensures 0 < n <= k && Trim(v + o[..k]) == TrimStart(v) + o[..n]
  {
    SolidObject(o);
    hide *;
    TrimWithin(v, o[..k]);
    n := |TrimEnd(o[..k])|;
  }

  /** Prose and a cut object yield nothing. */
  lemma CutYieldsNothing(serde: Serde, v: string, c: Core, k: nat)
    requires '{' !in v && c.Object? && ValidCore(c) && 0 < k < |PrintCore(c)| && RejectsCuts(serde, PrintCore(c))
    ensures TryExtract(serde, v + PrintCore(c)[..k]).None?
  {
    var o := PrintCore(c);
    PrintedObjectText(c);
    assert o[0] == '{';
    hide *;
    var n := TrimmedCut(v, o, k);
    TrimStartKeeps(v);
    FirstBrace(TrimStart(v), o[..n]);
    NoMatchInCut(c, n);
    NoObjectInCut(serde, o, n);
  }

  lemma TrimmedCutYieldsNothing(serde: Serde, v: string, c: Core, k: nat)
    requires '{' !in v && c.Object? && ValidCore(c) && 0 < k < |PrintCore(c)| && RejectsCuts(serde, PrintCore(c))
    ensures TryExtract(serde, Trim(v + PrintCore(c)[..k])).None?
  {
    PrintedObjectText(c);
    hide *;
    var n := TrimmedCut(v, PrintCore(c), k);
    TrimStartKeeps(v);
    CutYieldsNothing(serde, TrimStart(v), c, n);
  }

  /** Nothing else comes out than `o`. */
  predicate NothingBut(r: Option<string>, o: string) { r.Some? ==> r.value == o }

  predicate Extractable(serde: Serde, c: Core) {
    c.Object? && ValidCore(c) && serde.parses(PrintCore(c)) && RejectsCuts(serde, PrintCore(c))
  }

  /** Wherever the closing fence falls, prose without a brace and the object yield the object or nothing. */
  lemma UpToFenceYieldsNothingElse(serde: Serde, v: string, c: Core, q: string)
    requires '{' !in v && Extractable(serde, c)
    ensures NothingBut(TryExtract(serde, UpToFence(v + (PrintCore(c) + q))), PrintCore(c))
  {
    var o := PrintCore(c);
    var s := v + (o + q);
    hide PrintCore, TryExtract, Trim, IndexFrom, RejectsCuts, ValidCore;
    match IndexOf(s, FENCE)
    case None =>
      assert s == v + o + q;
      ExtractsTrimmed(serde, v, c, q);
    case Some(b) =>
      if b <= |v| {
        assert s[..b] == v[..b];
        NothingWithoutBrace(serde, v[..b]);
        NothingWithoutBrace(serde, Trim(v[..b]));
      } else if b < |v| + |o| {
        assert s[..b] == v + o[..b - |v|];
        TrimmedCutYieldsNothing(serde, v, c, b - |v|);
      } else {
        assert s[..b] == v + o + q[..b - |v| - |o|];
        ExtractsTrimmed(serde, v, c, q[..b - |v| - |o|]);
      }
  }

  lemma TrimmedProse(v: string, o: string, q: string)
    requires ObjectText(o) && '{' !in v
    ensures TrimStart(v + (o + q)) == TrimStart(v) + (o + q) && '{' !in TrimStart(v)
  {
    SolidObject(o);
    TrimStartSolid(v, o + q);
    TrimStartKeeps(v);
  }

  lemma Behind(w: string, rest: string, k: nat)
    requires k <= |w|
    ensures (w + rest)[k..] == w[k..] + rest
  {
  }

  lemma JsonFenceBody(serde: Serde, t: string, i: nat)
    requires i + 7 <= |t| && IndexFrom(t, JSON_FENCE, 0, AsciiLower) == Some(i)
    ensures FromJsonFence(serde, t) == TryExtract(serde, UpToFence(TrimStart(t[i + 7..])))
  {
    hide IndexFrom, MatchesAt, AsciiLower, TryExtract, UpToFence, TrimStart;
  }

  lemma JsonFencePath(serde: Serde, w: string, c: Core, q: string, i: nat)
    requires '{' !in w && Extractable(serde, c) && i + 7 <= |w|
    requires IndexFrom(w + (PrintCore(c) + q), JSON_FENCE, 0, AsciiLower) == Some(i)
    ensures NothingBut(FromJsonFence(serde, w + (PrintCore(c) + q)), PrintCore(c))
  {
    var o := PrintCore(c);
    PrintedObjectText(c);
    hide *;
    var v := w[i + 7..];
    Behind(w, o + q, i + 7);
    JsonFenceBody(serde, w + (o + q), i);
    TrimmedProse(v, o, q);
    UpToFenceYieldsNothingElse(serde, TrimStart(v), c, q);
  }

  /** A line with the opening brace is no language line. */
  lemma LanguageLine(v: string, x: string)
    requires x != [] && x[0] == '{'
    ensures LowerAll(Trim(v + x)) != "" && LowerAll(Trim(v + x)) != "json"
  {
    TrimWithin(v, x);
    var line := Trim(v + x);
    var n := |TrimStart(v)|;
    assert line[n] == '{';
    assert LowerAll(line)[n] == '{';
  }

  lemma PlainFenceBody(w: string, o: string, q: string, i: nat) returns (v: string)
    requires '{' !in w && ObjectText(o) && i + 3 <= |w|
    ensures '{' !in v && BehindFence(w + (o + q), i) == v + (o + q)
  {
    var t := w + (o + q);
    assert t[i + 3..] == w[i + 3..] + (o + q);
    TrimmedProse(w[i + 3..], o, q);
    v := TrimStart(w[i + 3..]);
    var rest := v + (o + q);
    var nl := IndexOf(rest, "\n");
    hide IndexFrom, TrimStart;
    if v != [] && nl.Some? {
      if nl.value < |v| {
        assert rest[..nl.value] == v[..nl.value];
        assert rest[nl.value + 1..] == v[nl.value + 1..] + (o + q);
        TrimmedProse(v[nl.value + 1..], o, q);
        var lang := LowerAll(Trim(rest[..nl.value]));
        hide LowerAll, Trim;
        if lang == "" || lang == "json" {
          v := TrimStart(v[nl.value + 1..]);
        }
      } else {
        var x := rest[|v|..nl.value];
        assert rest[..nl.value] == v + x;
        LanguageLine(v, x);
      }
    }
  }

  lemma PlainFencePath(serde: Serde, w: string, c: Core, q: string, i: nat)
    requires '{' !in w && Extractable(serde, c) && i + 3 <= |w|
    requires IndexOf(w + (PrintCore(c) + q), FENCE) == Some(i)
    ensures NothingBut(FromPlainFence(serde, w + (PrintCore(c) + q)), PrintCore(c))
  {
    var o := PrintCore(c);
    PrintedObjectText(c);
    hide PrintCore, TryExtract, IndexFrom, UpToFence, BehindFence, NothingBut, Extractable;
    var v := PlainFenceBody(w, o, q, i);
    UpToFenceYieldsNothingElse(serde, v, c, q);
    assert NothingBut(None, o) by { NothingIsNothing(o); }
  }

  lemma NothingIsNothing(o: string)
    ensures NothingBut(None, o)
  {
  }

  /** The prose holds the needle. */
  predicate Holds(w: string, needle: string, key: char -> char) { IndexFrom(w, needle, 0, key).Some? }

  /** No opening brace stands behind an occurrence. */
  predicate NoBraceBehind(s: string, needle: string, key: char -> char) {
    forall j :: 0 <= j < |s| && MatchesAt(s, needle, j, key) ==> '{' !in s[j..]
  }

  lemma MatchBehind(front: string, s: string, needle: string, j: nat, key: char -> char)
    ensures MatchesAt(front + s, needle, |front| + j, key) <==> MatchesAt(s, needle, j, key)
  {
    assert front + s + "" == front + s;
    if MatchesAt(front + s, needle, |front| + j, key) {
      forall i | 0 <= i < |needle| ensures key(s[j + i]) == key(needle[i]) {
        assert (front + s)[|front| + j + i] == s[j + i];
      }
    } else if MatchesAt(s, needle, j, key) {
      MatchInPart(front, s, "", needle, j, key);
    }
  }

  /** Trimming cuts no needle that starts with a solid character. */
  lemma {:induction false} HoldsTrimmed(w: string, needle: string, key: char -> char)
    requires needle != [] && forall x :: IsSpace(x) ==> key(x) != key(needle[0])
    requires Holds(w, needle, key)
    ensures Holds(TrimStart(w), needle, key)
    decreases |w|
  {
    if w != [] && IsSpace(w[0]) {
      var i := IndexFrom(w, needle, 0, key).value;
      assert key(w[i + 0]) == key(needle[0]);
      assert w == [w[0]] + w[1..];
      MatchBehind([w[0]], w[1..], needle, i - 1, key);
      HoldsTrimmed(w[1..], needle, key);
    }
  }

  lemma MatchHas(s: string, needle: string, i: nat, k: nat, key: char -> char)
    requires MatchesAt(s, needle, i, key) && i <= k < i + |needle|
    ensures key(s[k]) == key(needle[k - i])
  {
    assert key(s[i + (k - i)]) == key(needle[k - i]);
  }

  lemma NoStraddle(w: string, rest: string, needle: string, i: nat, key: char -> char)
    requires rest != [] && rest[0] == '{' && forall j :: 0 <= j < |needle| ==> key('{') != key(needle[j])
    requires MatchesAt(w + rest, needle, i, key) && i <= |w|
    ensures i + |needle| <= |w|
  {
    hide MatchesAt;
    if i + |needle| > |w| {
      MatchHas(w + rest, needle, i, |w|, key);
    }
  }

  lemma LateFence(w: string, rest: string, needle: string, i: nat, key: char -> char)
    requires NoBraceBehind(rest, needle, key) && MatchesAt(w + rest, needle, i, key) && |w| <= i < |w + rest|
    ensures '{' !in (w + rest)[i..]
  {
    hide MatchesAt;
    MatchBehind(w, rest, needle, i - |w|, key);
    assert (w + rest)[i..] == rest[i - |w|..];
  }

  lemma MatchInFront(w: string, rest: string, needle: string, k: nat, key: char -> char)
    requires MatchesAt(w, needle, k, key)
    ensures MatchesAt(w + rest, needle, k, key) && k + |needle| <= |w|
  {
    forall i | 0 <= i < |needle| ensures key((w + rest)[k + i]) == key(needle[i]) {
      assert (w + rest)[k + i] == w[k + i];
    }
  }

  lemma WhereHeld(w: string, needle: string, key: char -> char) returns (k: nat)
    requires Holds(w, needle, key)
    ensures MatchesAt(w, needle, k, key)
  {
    hide MatchesAt;
    k := IndexFrom(w, needle, 0, key).value;
  }

  lemma EarlyFence(w: string, rest: string, needle: string, key: char -> char)
    requires Holds(w, needle, key)
    ensures var first := IndexFrom(w + rest, needle, 0, key);
            first.Some? && first.value + |needle| <= |w|
  {
    hide *;
    var k := WhereHeld(w, needle, key);
    MatchInFront(w, rest, needle, k, key);
  }

  /** The first occurrence in the reply lies in the prose, or no brace stands behind it. */
  lemma WhereFenceStands(w: string, rest: string, needle: string, key: char -> char)
    requires rest != [] && rest[0] == '{' && forall j :: 0 <= j < |needle| ==> key('{') != key(needle[j])
    requires needle != [] && (Holds(w, needle, key) || NoBraceBehind(rest, needle, key))
    ensures match IndexFrom(w + rest, needle, 0, key)
            case None => true
            case Some(i) => i + |needle| <= |w| || '{' !in (w + rest)[i..]
  {
    hide MatchesAt, IndexFrom, Holds, NoBraceBehind;
    var first := IndexFrom(w + rest, needle, 0, key);
    if Holds(w, needle, key) {
      EarlyFence(w, rest, needle, key);
    } else if first.Some? {
      if first.value < |w| {
        NoStraddle(w, rest, needle, first.value, key);
      } else {
        LateFence(w, rest, needle, first.value, key);
      }
    }
  }

  /** Cutting the end off keeps every occurrence, and what stands behind it, a part of what it was. */
  lemma NoBraceBehindCut(s: string, s': string, needle: string, key: char -> char)
    requires s' <= s && NoBraceBehind(s, needle, key)
    ensures NoBraceBehind(s', needle, key)
  {
    var rest := s[|s'|..];
    assert s == s' + rest && "" + s' + rest == s;
    forall j | 0 <= j < |s'| && MatchesAt(s', needle, j, key) ensures '{' !in s'[j..] {
      MatchInPart("", s', rest, needle, j, key);
      assert s[j..] == s'[j..] + rest;
    }
  }

  lemma NothingBehindJsonFence(serde: Serde, t: string, i: nat)
    requires IndexFrom(t, JSON_FENCE, 0, AsciiLower) == Some(i) && '{' !in t[i..]
    ensures FromJsonFence(serde, t).None?
  {
    hide IndexFrom, TryExtract, Trim;
    var rest := t[i + 7..];
    assert forall x :: x in rest ==> x in t[i..];
    TrimStartKeeps(rest);
    NothingUpToFence(serde, TrimStart(rest));
  }

  lemma NothingUpToFence(serde: Serde, rest: string)
    requires '{' !in rest
    ensures '{' !in UpToFence(rest) && TryExtract(serde, UpToFence(rest)).None?
  {
    hide TryExtract, Trim;
    var close := IndexOf(rest, FENCE);
    var body := if close.Some? then rest[..close.value] else rest;
    NothingWithoutBrace(serde, body);
    NothingWithoutBrace(serde, Trim(body));
  }

  lemma NothingBehindPlainFence(serde: Serde, t: string, i: nat)
    requires IndexOf(t, FENCE) == Some(i) && '{' !in t[i..]
    ensures FromPlainFence(serde, t).None?
  {
    var rest := t[i + 3..];
    assert forall x :: x in rest ==> x in t[i..];
    TrimStartKeeps(rest);
    var nl := IndexOf(TrimStart(rest), "\n");
    hide IndexFrom, TryExtract, Trim, TrimStart, UpToFence, LowerAll;
    if nl.Some? {
      TrimStartKeeps(TrimStart(rest)[nl.value + 1..]);
    }
    assert '{' !in BehindFence(t, i);
    NothingUpToFence(serde, BehindFence(t, i));
  }

  lemma JsonPathYields(serde: Serde, w: string, c: Core, q: string)
    requires '{' !in w && Extractable(serde, c)
    requires Holds(w, JSON_FENCE, AsciiLower) || NoBraceBehind(PrintCore(c) + q, JSON_FENCE, AsciiLower)
    ensures NothingBut(FromJsonFence(serde, w + (PrintCore(c) + q)), PrintCore(c))
  {
    var o := PrintCore(c);
    PrintedObjectText(c);
    hide PrintCore, Extractable, Holds, NoBraceBehind, IndexFrom;
    WhereFenceStands(w, o + q, JSON_FENCE, AsciiLower);
    match IndexFrom(w + (o + q), JSON_FENCE, 0, AsciiLower)
    case None =>
    case Some(i) =>
      if i + 7 <= |w| {
        JsonFencePath(serde, w, c, q, i);
      } else {
        NothingBehindJsonFence(serde, w + (o + q), i);
      }
  }

  lemma PlainPathYields(serde: Serde, w: string, c: Core, q: string)
    requires '{' !in w && Extractable(serde, c)
    requires Holds(w, FENCE, Same) || NoBraceBehind(PrintCore(c) + q, FENCE, Same)
    ensures NothingBut(FromPlainFence(serde, w + (PrintCore(c) + q)), PrintCore(c))
  {
    var o := PrintCore(c);
    PrintedObjectText(c);
    hide PrintCore, Extractable, Holds, NoBraceBehind, IndexFrom;
    WhereFenceStands(w, o + q, FENCE, Same);
    match IndexOf(w + (o + q), FENCE)
    case None =>
    case Some(i) =>
      if i + 3 <= |w| {
        PlainFencePath(serde, w, c, q, i);
      } else {
        NothingBehindPlainFence(serde, w + (o + q), i);
      }
  }

  lemma TrimmedFences(w: string, s: string, s': string, needle: string, key: char -> char)
    requires needle != [] && forall x :: IsSpace(x) ==> key(x) != key(needle[0])
    requires s' <= s && (Holds(w, needle, key) || NoBraceBehind(s, needle, key))
    ensures Holds(TrimStart(w), needle, key) || NoBraceBehind(s', needle, key)
  {
    hide Holds, NoBraceBehind, IsSpace;
    if Holds(w, needle, key) {
      HoldsTrimmed(w, needle, key);
    } else {
      NoBraceBehindCut(s, s', needle, key);
    }
  }

  /** Prose without a brace, fenced or not, in front of an object whose strings may hold anything: the object comes
      out whole, if each kind of fence either stands in the prose or has no brace behind it elsewhere. */
  lemma ObjectComesOutWhole(serde: Serde, w: string, c: Core, q: string)
    requires '{' !in w && Extractable(serde, c)
    requires Holds(w, JSON_FENCE, AsciiLower) || NoBraceBehind(PrintCore(c) + q, JSON_FENCE, AsciiLower)
    requires Holds(w, FENCE, Same) || NoBraceBehind(PrintCore(c) + q, FENCE, Same)
    ensures ExtractBlock(serde, w + PrintCore(c) + q) == Some(PrintCore(c))
  {
    var o := PrintCore(c);
    PrintedObjectText(c);
    SolidObject(o);
    assert JSON_FENCE != [] && FENCE != [] && '`' == AsciiLower(JSON_FENCE[0]) == Same(FENCE[0]);
    assert forall x :: IsSpace(x) ==> AsciiLower(x) != '`' && Same(x) != '`';
    ExtractsTrimmed(serde, w, c, q);
    hide *;
    TrimAround(w, o, q);
    TrimStartKeeps(w);
    TrimEndKeeps(q);
    var w', q' := TrimStart(w), TrimEnd(q);
    RightGroup(w', o, q');
    assert o + q' <= o + q;
    TrimmedFences(w, o + q, o + q', JSON_FENCE, AsciiLower);
    TrimmedFences(w, o + q, o + q', FENCE, Same);
    JsonPathYields(serde, w', c, q');
    PlainPathYields(serde, w', c, q');
  }

  function Plains(s: string): seq<Unit> { if s == [] then [] else [Plain(s[0])] + Plains(s[1..]) }

  lemma {:induction false} PlainsPrint(s: string)
    requires '"' !in s && '\\' !in s
    ensures Units(Plains(s)) && PrintUnits(Plains(s)) == s
    decreases |s|
  {
    if s != [] {
      PlainsPrint(s[1..]);
      hide PrintUnits, Units;
      assert s == [s[0]] + s[1..];
    }
  }

  /** An object with one text field. */
  function OneText(key: string, text: string): Core {
    Object([Member("", Plains(key), "", Value("", Text(Plains(text)), ""))], "")
  }

  lemma OneTextIsValid(key: string, text: string)
    requires Units(Plains(key)) && Units(Plains(text))
    ensures ValidCore(OneText(key, text))
  {
    hide Units, Plains;
    var c := OneText(key, text);
    var m := c.members[0];
    assert ValidCore(m.value.core);
    assert Blank("");
    assert ValidValue(m.value);
    assert ValidMember(m);
  }

  lemma OneMemberPrints(m: Member)
    ensures PrintCore(Object([m], "")) == ['{'] + PrintMember(m) + ['}']
  {
    assert Inside(Object([m], "")) == PrintMember(m);
  }

  lemma TextPrints(us: seq<Unit>)
    ensures PrintValue(Value("", Text(us), "")) == Quoted(us)
  {
    hide Quoted;
    assert PrintCore(Text(us)) == Quoted(us);
    assert "" + Quoted(us) + "" == Quoted(us);
  }

  lemma BareMemberPrints(key: seq<Unit>, v: Value)
    ensures PrintMember(Member("", key, "", v)) == Quoted(key) + ":" + PrintValue(v)
  {
    hide Quoted, PrintValue;
    assert "" + Quoted(key) + "" == Quoted(key);
  }

  lemma QuotedField(key: string, text: string)
    ensures ['{'] + (['"'] + key + ['"'] + ":" + (['"'] + text + ['"'])) + ['}'] == "{\"" + key + "\":\"" + text + "\"}"
  {
    assert "{\"" == ['{'] + ['"'];
    assert "\":\"" == ['"'] + ":" + ['"'];
    assert "\"}" == ['"'] + ['}'];
  }

  lemma OneTextPrints(key: string, text: string)
    requires '"' !in key && '\\' !in key && '"' !in text && '\\' !in text
    ensures OneText(key, text).Object? && ValidCore(OneText(key, text))
    ensures PrintCore(OneText(key, text)) == "{\"" + key + "\":\"" + text + "\"}"
  {
    PlainsPrint(key);
    PlainsPrint(text);
    OneTextIsValid(key, text);
    assert Quoted(Plains(key)) == ['"'] + key + ['"'] && Quoted(Plains(text)) == ['"'] + text + ['"'];
    hide PrintUnits, Plains, ValidCore, PrintCore, PrintMember, PrintValue, Quoted;
    TextPrints(Plains(text));
    var v := Value("", Text(Plains(text)), "");
    BareMemberPrints(Plains(key), v);
    OneMemberPrints(Member("", Plains(key), "", v));
    hide *;
    QuotedField(key, text);
  }

  lemma NoTickNoFence(p: string, rest: string)
    requires '`' !in p
    ensures NoneStartsIn(p + rest, JSON_FENCE, |p|, AsciiLower)
  {
    forall j | 0 <= j < |p| ensures !MatchesAt(p + rest, JSON_FENCE, j, AsciiLower) {
      assert (p + rest)[j + 0] == p[j] != '`';
      assert AsciiLower(p[j]) != AsciiLower(JSON_FENCE[0]);
    }
  }

  const NO_FIELDS := Object([], "")

  lemma NoFieldsPrints()
    ensures PrintCore(NO_FIELDS) == "{}" && ValidCore(NO_FIELDS) && IndexOf("{}", FENCE).None?
    ensures IsJsonFence("```json")
  {
  }

  /** The condition on fences is needed: a `json` fence with an object behind it inside a string field hides the
      object that holds it. */
  lemma InnerJsonFenceWins(serde: Serde, key: string, end: string)
    requires serde.parses("{}") && '`' !in key
    requires '"' !in key && '\\' !in key && '"' !in end && '\\' !in end
    ensures var c := OneText(key, "```json {}" + end);
            c.Object? && ValidCore(c) && ExtractBlock(serde, PrintCore(c)) == Some("{}")
  {
    var head, tail, text := "{\"" + key + "\":\"", end + "\"}", "```json {}" + end;
    assert '`' !in head;
    assert '"' !in text && '\\' !in text;
    OneTextPrints(key, text);
    NoFieldsPrints();
    assert forall x :: x in " " ==> IsSpace(x);
    assert "{\"" + key + "\":\"" + text + "\"}" == head + ("```json" + " " + "{}") + tail;
    hide *;
    RightGroup(head, "```json" + " " + "{}", tail);
    NoTickNoFence(head, "```json" + " " + "{}" + tail);
    FencedReply(serde, head, "```json", " ", NO_FIELDS, tail);
  }
}
