/**
 The canonical payload of an audit event: what is printed, when it can be read back, and what collides.
 Text is a sequence of characters standing for its UTF-8 bytes.
 */
module AuditPayload {
  import opened JsonValues
  import opened Options

  // ---------------------------------------------------------------------------
  // Sorted keys
  // ---------------------------------------------------------------------------

  predicate LexLeq(a: string, b: string) {
    a == [] || (b != [] && (a[0] < b[0] || (a[0] == b[0] && LexLeq(a[1..], b[1..]))))
  }

  lemma {:induction false} LexTotal(a: string, b: string)
    ensures LexLeq(a, b) || LexLeq(b, a)
  {
    if a != [] && b != [] && a[0] == b[0] {
      LexTotal(a[1..], b[1..]);
    }
  }

  lemma {:induction false} LexAntisymmetric(a: string, b: string)
    requires LexLeq(a, b) && LexLeq(b, a)
    ensures a == b
  {
    if a != [] && b != [] {
      LexAntisymmetric(a[1..], b[1..]);
      assert a == [a[0]] + a[1..] && b == [b[0]] + b[1..];
    }
  }

  lemma {:induction false} LexTransitive(a: string, b: string, c: string)
    requires LexLeq(a, b) && LexLeq(b, c)
    ensures LexLeq(a, c)
  {
    if a != [] && b != [] && c != [] && a[0] == b[0] && b[0] == c[0] {
      LexTransitive(a[1..], b[1..], c[1..]);
    }
  }

  /** A prefix comes first, and otherwise the first difference decides. */
  lemma {:induction false} LexByFirstDifference(p: string, c: char, d: char, x: string, y: string)
    requires c != d
    ensures LexLeq(p, p + x)
    ensures LexLeq(p + ([c] + x), p + ([d] + y)) <==> c < d
    decreases |p|
  {
    if p == [] {
      assert p + ([c] + x) == [c] + x && p + ([d] + y) == [d] + y;
    } else {
      LexByFirstDifference(p[1..], c, d, x, y);
      assert (p + x)[1..] == p[1..] + x;
      assert (p + ([c] + x))[1..] == p[1..] + ([c] + x) && (p + ([d] + y))[1..] == p[1..] + ([d] + y);
    }
  }

  predicate IsLeast(k: string, keys: set<string>) {
    k in keys && forall j :: j in keys ==> LexLeq(k, j)
  }

  lemma {:induction false} LeastExists(keys: set<string>)
    requires keys != {}
    ensures exists k :: IsLeast(k, keys)
    decreases |keys|
  {
    var x :| x in keys;
    var rest := keys - {x};
    LexTotal(x, x);
    if rest == {} {
      assert keys == {x};
      assert IsLeast(x, keys);
    } else {
      LeastExists(rest);
      var m :| IsLeast(m, rest);
      LexTotal(x, m);
      var k := if LexLeq(x, m) then x else m;
      forall j | j in keys ensures LexLeq(k, j) {
        if j != x && LexLeq(x, m) {
          LexTransitive(x, m, j);
        }
      }
      assert IsLeast(k, keys);
    }
  }

  lemma LeastIsUnique(keys: set<string>)
    ensures forall k, k' :: IsLeast(k, keys) && IsLeast(k', keys) ==> k == k'
  {
    hide LexLeq;
    forall k, k' | IsLeast(k, keys) && IsLeast(k', keys) ensures k == k' {
      LexAntisymmetric(k, k');
    }
  }

  lemma LeastInFront(keys: set<string>, k: string, rest: seq<string>)
    requires IsLeast(k, keys) && |rest| == |keys - {k}|
    requires forall j :: j in rest <==> j in keys - {k}
    requires forall i, j :: 0 <= i <= j < |rest| ==> LexLeq(rest[i], rest[j])
    ensures var ks := [k] + rest;
            && (forall j :: j in ks <==> j in keys)
            && (forall i, j :: 0 <= i <= j < |ks| ==> LexLeq(ks[i], ks[j]))
            && |ks| == |keys|
  {
    hide LexLeq;
    var ks := [k] + rest;
    forall i, j | 0 <= i <= j < |ks| ensures LexLeq(ks[i], ks[j]) {
      if j > 0 {
        assert ks[j] == rest[j - 1] && rest[j - 1] in rest;
      }
      if i > 0 {
        assert ks[i] == rest[i - 1];
      }
    }
  }

  /** `keys.sort()`. */
  function SortedKeys(keys: set<string>): (ks: seq<string>)
    ensures forall k :: k in ks <==> k in keys
    ensures forall i, j :: 0 <= i <= j < |ks| ==> LexLeq(ks[i], ks[j])
    ensures |ks| == |keys|
    decreases |keys|
  {
    if keys == {} then [] else
    LeastExists(keys);
    LeastIsUnique(keys);
    var k :| k in keys && IsLeast(k, keys);
    var rest := SortedKeys(keys - {k});
    LeastInFront(keys, k, rest);
    [k] + rest
  }

  // ---------------------------------------------------------------------------
  // Canonical printing
  // ---------------------------------------------------------------------------

  function HexDigit(n: int): char
    requires 0 <= n < 16
  {
    if n < 10 then '0' + (n as char) else 'a' + ((n - 10) as char)
  }

  /** One character inside a printed JSON string. */
  function EscChar(c: char): string {
    if c == '"' then "\\\""
    else if c == '\\' then "\\\\"
    else if c as int == 8 then "\\b"
    else if c as int == 9 then "\\t"
    else if c as int == 10 then "\\n"
    else if c as int == 12 then "\\f"
    else if c as int == 13 then "\\r"
    else if (c as int) < 32 then ['\\', 'u', '0', '0', HexDigit(c as int / 16), HexDigit(c as int % 16)]
    else [c]
  }

  function Escape(s: string): string {
    if s == [] then "" else EscChar(s[0]) + Escape(s[1..])
  }

  function HexValue(c: char): (n: int)
    ensures 0 <= n < 16
  {
    if '0' <= c <= '9' then c as int - '0' as int else if 'a' <= c <= 'f' then c as int - 'a' as int + 10 else 0
  }

  /** Reading back a printed string body, after section 7 of RFC 8259; of `\uXXXX` only the code points below 256. */
  function Unescape(s: string): string {
    if |s| < 2 || s[0] != '\\' then (if s == [] then "" else [s[0]] + Unescape(s[1..]))
    else if s[1] == 'u' && |s| >= 6 then [(HexValue(s[4]) * 16 + HexValue(s[5])) as char] + Unescape(s[6..])
    else
      [match s[1]
       case 'b' => 8 as char
       case 't' => 9 as char
       case 'n' => 10 as char
       case 'f' => 12 as char
       case 'r' => 13 as char
       case c => c] + Unescape(s[2..])
  }

  /** The short escapes are used where there is one, and no character is escaped without need. */
  lemma EscapesAreShort(c: char)
    ensures |EscChar(c)| == 2 <==> c == '"' || c == '\\' || c as int in {8, 9, 10, 12, 13}
    ensures |EscChar(c)| == 6 <==> c as int < 32 && c as int !in {8, 9, 10, 12, 13}
  {
  }

  lemma UnescapeChar(c: char, rest: string)
    ensures Unescape(EscChar(c) + rest) == [c] + Unescape(rest)
  {
    var s := EscChar(c) + rest;
    EscHead(c);
    assert s[|EscChar(c)|..] == rest;
  }

  /** Reading back what was printed gives the text. */
  lemma {:induction false} UnescapeEscape(s: string)
    ensures Unescape(Escape(s)) == s
    decreases |s|
  {
    if s != [] {
      UnescapeChar(s[0], Escape(s[1..]));
      UnescapeEscape(s[1..]);
      assert s == [s[0]] + s[1..];
    }
  }

  function Join(parts: seq<string>, separator: string): string {
    if parts == [] then "" else if |parts| == 1 then parts[0] else parts[0] + separator + Join(parts[1..], separator)
  }

  function ArrParts(v: Json): (ps: seq<string>)
    requires v.Arr?
    ensures |ps| == |v.items|
    decreases v, 0
  {
    seq(|v.items|, i requires 0 <= i < |v.items| => Canon(v.items[i]))
  }

  function ObjParts(v: Json): (ps: seq<string>)
    requires v.Obj?
    ensures |ps| == |v.fields.Keys|
    decreases v, 0
  {
    var keys := SortedKeys(v.fields.Keys);
    seq(|keys|, i requires 0 <= i < |keys| => assert keys[i] in keys; keys[i] + ":" + Canon(v.fields[keys[i]]))
  }

  /** `canonicalize_value`: object keys sorted and printed bare, everything else as JSON text. */
  function Canon(v: Json): string
    decreases v, 1
  {
    match v
    case Null => "null"
    case Bool(b) => if b then "true" else "false"
    case Number(token) => token
    case Str(s) => "\"" + Escape(s) + "\""
    case Arr(_) => "[" + Join(ArrParts(v), ",") + "]"
    case Obj(_) => "{" + Join(ObjParts(v), ",") + "}"
  }

  /** Scalars print as JSON. */
  lemma ScalarsPrintAsJson(s: string, token: string)
    ensures Canon(Null) == "null" && Canon(Bool(true)) == "true" && Canon(Bool(false)) == "false"
    ensures Canon(Number(token)) == token && Canon(Str(s)) == "\"" + Escape(s) + "\""
  {
  }

  type Uuid = s: string | |s| == 16 witness seq(16, i => '0')

  datatype Event = Event(actor: string, action: string, subject: string, payload: Json, correlation: Option<Uuid>)

  const NUL := 0 as char

  /** `canonical_payload`. */
  function CanonicalPayload(e: Event): string {
    e.actor + [NUL] + e.action + [NUL] + e.subject + [NUL]
    + (match e.correlation case Some(id) => id case None => "") + [NUL] + Canon(e.payload)
  }

  // ---------------------------------------------------------------------------
  // Unique decoding
  // ---------------------------------------------------------------------------

  predicate NumberChar(c: char) { '0' <= c <= '9' || c in "+-.eE" }

  /** Keys that the bare printing keeps readable. */
  predicate KeyOk(k: string) { ':' !in k && (k != [] ==> k[0] != '}') }

  ghost predicate Clean(v: Json)
    decreases v
  {
    match v
    case Number(token) =>
      token != [] && (token[0] == '-' || '0' <= token[0] <= '9') && forall c :: c in token ==> NumberChar(c)
    case Arr(items) => forall i :: 0 <= i < |items| ==> Clean(items[i])
    case Obj(fields) => forall k :: k in fields ==> KeyOk(k) && Clean(fields[k])
    case _ => true
  }

  /** Every number of section 6 of RFC 8259 is clean, as is every other scalar. */
  lemma ScalarsAreClean(token: string, s: string, b: bool)
    ensures Clean(Null) && Clean(Bool(b)) && Clean(Str(s))
    ensures token != [] && (token[0] == '-' || '0' <= token[0] <= '9') && (forall c :: c in token ==> InNumbers(c)) ==>
              Clean(Number(token))
  {
    forall c | InNumbers(c) ensures NumberChar(c) {
    }
    hide NumberChar, InNumbers;
  }

  /** Digits, signs, the point and the exponent letters. */
  predicate InNumbers(c: char) {
    '0' <= c <= '9' || c == '+' || c == '-' || c == '.' || c == 'e' || c == 'E'
  }

  /** What may follow a value inside a document, or nothing. */
  predicate Stops(r: string) { r == [] || r[0] in ",]}" }

  lemma Cancel(a: string, b: string, x: string, y: string)
    requires a + x == b + y && |a| == |b|
    ensures a == b && x == y
  {
    assert a == (a + x)[..|a|] && b == (b + y)[..|b|];
    assert x == (a + x)[|a|..] && y == (b + y)[|b|..];
  }

  /** Two texts that go on differently after a common head differ. */
  lemma Heads(c: char, d: char, x: string, y: string)
    requires [c] + x == [d] + y
    ensures c == d && x == y
  {
    Cancel([c], [d], x, y);
  }

  lemma FirstOf(a: string, x: string)
    requires a != []
    ensures a + x != [] && (a + x)[0] == a[0]
  {
  }

  lemma Regroup(a: string, b: string, c: string)
    ensures (a + b) + c == a + (b + c)
  {
  }

  /** Where the longer of two prefixes sticks out, the shorter one has already ended. */
  lemma Overhang(a: string, b: string, x: string, y: string)
    requires a + x == b + y && |a| < |b|
    ensures x != [] && x[0] == b[|a|] && x[0] in b
  {
    assert (a + x)[|a|] == x[0] && (b + y)[|a|] == b[|a|];
  }

  /** Texts free of `c`, up to their first `c`. */
  lemma SplitAt(c: char, a: string, b: string, x: string, y: string)
    requires c !in a && c !in b && a + ([c] + x) == b + ([c] + y)
    ensures a == b && x == y
  {
    if |a| < |b| {
      Overhang(a, b, [c] + x, [c] + y);
    } else if |b| < |a| {
      Overhang(b, a, [c] + y, [c] + x);
    }
    Cancel(a, b, [c] + x, [c] + y);
    Heads(c, c, x, y);
  }

  lemma NumberSpan(a: string, b: string, x: string, y: string)
    requires (forall c :: c in a ==> NumberChar(c)) && (forall c :: c in b ==> NumberChar(c))
    requires a + x == b + y && Stops(x) && Stops(y)
    ensures a == b && x == y
  {
    if |a| < |b| {
      Overhang(a, b, x, y);
    } else if |b| < |a| {
      Overhang(b, a, y, x);
    }
    Cancel(a, b, x, y);
  }

  // --- strings ---

  lemma EscHead(c: char)
    ensures EscChar(c) != [] && EscChar(c)[0] != '"'
    ensures |EscChar(c)| == 1 ==> EscChar(c) == [c] && c != '\\'
    ensures |EscChar(c)| > 1 ==> EscChar(c)[0] == '\\'
    ensures |EscChar(c)| in {1, 2, 6}
    ensures |EscChar(c)| == 6 ==> EscChar(c)[1] == 'u'
    ensures |EscChar(c)| == 2 ==> EscChar(c)[1] != 'u'
  {
  }

  lemma EscCharInjective(c: char, d: char)
    requires EscChar(c) == EscChar(d)
    ensures c == d
  {
    if |EscChar(c)| == 6 {
      assert EscChar(c)[4] == EscChar(d)[4] && EscChar(c)[5] == EscChar(d)[5];
    } else if |EscChar(c)| == 2 {
      assert EscChar(c)[1] == EscChar(d)[1];
    } else {
      assert EscChar(c)[0] == EscChar(d)[0];
    }
  }

  lemma EscCharSplit(c: char, d: char, x: string, y: string)
    requires EscChar(c) + x == EscChar(d) + y
    ensures c == d && x == y
  {
    hide EscChar;
    var s := EscChar(c) + x;
    EscHead(c);
    EscHead(d);
    assert s[0] == EscChar(c)[0] && s[0] == EscChar(d)[0];
    if |EscChar(c)| > 1 && |EscChar(d)| > 1 {
      assert s[1] == EscChar(c)[1] && s[1] == EscChar(d)[1];
    }
    Cancel(EscChar(c), EscChar(d), x, y);
    EscCharInjective(c, d);
  }

  lemma EscapeStep(a: string, x: string)
    requires a != []
    ensures Escape(a) + x == EscChar(a[0]) + (Escape(a[1..]) + x)
  {
  }

  /** A printed string body ends at its own closing quote. */
  lemma {:induction false} EscapeSplit(a: string, b: string, x: string, y: string)
    requires Escape(a) + (['"'] + x) == Escape(b) + (['"'] + y)
    ensures a == b && x == y
    decreases |a|
  {
    hide EscChar, Escape;
    EscapeEmpty(['"'] + x);
    EscapeEmpty(['"'] + y);
    if a == [] && b == [] {
      Heads('"', '"', x, y);
    } else if a == [] {
      EscapeStep(b, ['"'] + y);
      EscHead(b[0]);
      FirstOf(['"'], x);
      FirstOf(EscChar(b[0]), Escape(b[1..]) + (['"'] + y));
    } else if b == [] {
      EscapeStep(a, ['"'] + x);
      EscHead(a[0]);
      FirstOf(['"'], y);
      FirstOf(EscChar(a[0]), Escape(a[1..]) + (['"'] + x));
    } else {
      EscapeStep(a, ['"'] + x);
      EscapeStep(b, ['"'] + y);
      EscCharSplit(a[0], b[0], Escape(a[1..]) + (['"'] + x), Escape(b[1..]) + (['"'] + y));
      EscapeSplit(a[1..], b[1..], x, y);
      assert a == [a[0]] + a[1..] && b == [b[0]] + b[1..];
    }
  }

  lemma EscapeEmpty(x: string)
    ensures Escape([]) + x == x
  {
  }

  // --- lists of printed parts ---

  /** `a` and `b` cannot be told apart by what follows: text continuing one continues the other only
      when `same` holds and the continuations agree. */
  ghost predicate Splits(a: string, b: string, same: bool) {
    forall x, y :: Stops(x) && Stops(y) && a + x == b + y ==> same && x == y
  }

  /** Parts `i..`, each after a comma, and the closing bracket. */
  function Tail(parts: seq<string>, i: nat, close: char): string
    decreases |parts| - i
  {
    if i >= |parts| then [close] else [','] + (parts[i] + Tail(parts, i + 1, close))
  }

  lemma TailStep(parts: seq<string>, i: nat, close: char, x: string)
    requires i < |parts|
    ensures Tail(parts, i, close) + x == [','] + (parts[i] + (Tail(parts, i + 1, close) + x))
  {
  }

  lemma {:induction false} TailSplit(p: seq<string>, q: seq<string>, same: seq<bool>, i: nat, close: char, x: string, y: string)
    requires close in "]}" && i <= |p| && i <= |q|
    requires |same| >= |p|
    requires forall j :: 0 <= j < |p| && j < |q| ==> Splits(p[j], q[j], same[j])
    requires Tail(p, i, close) + x == Tail(q, i, close) + y
    ensures |p| == |q| && x == y
    ensures forall j :: i <= j < |p| ==> same[j]
    decreases |p| - i
  {
    hide Splits, Stops;
    if i < |p| { TailStep(p, i, close, x); }
    if i < |q| { TailStep(q, i, close, y); }
    if i == |p| && i == |q| {
      Heads(close, close, x, y);
    } else if i == |p| {
      Heads(close, ',', x, q[i] + (Tail(q, i + 1, close) + y));
    } else if i == |q| {
      Heads(',', close, p[i] + (Tail(p, i + 1, close) + x), y);
    } else {
      var tp, tq := Tail(p, i + 1, close) + x, Tail(q, i + 1, close) + y;
      Heads(',', ',', p[i] + tp, q[i] + tq);
      UseSplits(p[i], q[i], same[i], tp, tq);
      TailSplit(p, q, same, i + 1, close, x, y);
    }
  }

  lemma UseSplits(a: string, b: string, same: bool, x: string, y: string)
    requires Splits(a, b, same) && Stops(x) && Stops(y) && a + x == b + y
    ensures same && x == y
  {
  }

  /** A list body as it is printed: no comma before the first part. */
  function Body(parts: seq<string>, close: char): string {
    if parts == [] then [close] else parts[0] + Tail(parts, 1, close)
  }

  lemma {:induction false} JoinIsTail(parts: seq<string>, i: nat, close: char)
    requires i < |parts|
    ensures Join(parts[i..], ",") + [close] == parts[i] + Tail(parts, i + 1, close)
    decreases |parts| - i
  {
    if i + 1 < |parts| {
      JoinIsTail(parts, i + 1, close);
      assert parts[i..][1..] == parts[i + 1..];
      assert Join(parts[i..], ",") == parts[i] + "," + Join(parts[i + 1..], ",");
      assert Join(parts[i..], ",") + [close] == parts[i] + ([','] + (Join(parts[i + 1..], ",") + [close]));
    } else {
      assert parts[i..] == [parts[i]];
    }
  }

  lemma JoinIsBody(parts: seq<string>, close: char)
    ensures Join(parts, ",") + [close] == Body(parts, close)
  {
    if parts != [] {
      JoinIsTail(parts, 0, close);
      assert parts[0..] == parts;
    }
  }

  lemma BodySplit(p: seq<string>, q: seq<string>, same: seq<bool>, close: char, x: string, y: string)
    requires close in "]}"
    requires |same| >= |p|
    requires forall j :: 0 <= j < |p| && j < |q| ==> Splits(p[j], q[j], same[j])
    requires p != [] ==> p[0] != [] && p[0][0] != close
    requires q != [] ==> q[0] != [] && q[0][0] != close
    requires Body(p, close) + x == Body(q, close) + y
    ensures |p| == |q| && x == y
    ensures forall j :: 0 <= j < |p| ==> same[j]
  {
    hide Splits, Stops;
    if p == [] && q == [] {
      Heads(close, close, x, y);
    } else if p == [] {
      Regroup(q[0], Tail(q, 1, close), y);
      FirstOf([close], x);
      FirstOf(q[0], Tail(q, 1, close) + y);
    } else if q == [] {
      Regroup(p[0], Tail(p, 1, close), x);
      FirstOf([close], y);
      FirstOf(p[0], Tail(p, 1, close) + x);
    } else {
      var tp, tq := Tail(p, 1, close) + x, Tail(q, 1, close) + y;
      Regroup(p[0], Tail(p, 1, close), x);
      Regroup(q[0], Tail(q, 1, close), y);
      UseSplits(p[0], q[0], same[0], tp, tq);
      TailSplit(p, q, same, 1, close, x, y);
    }
  }

  // --- values ---

  function Keys(v: Json): seq<string>
    requires v.Obj?
  {
    SortedKeys(v.fields.Keys)
  }

  /** First character of a printed value, by kind. */
  lemma HeadOf(v: Json)
    requires Clean(v)
    ensures Canon(v) != []
    ensures match v
            case Null => Canon(v)[0] == 'n'
            case Bool(b) => Canon(v)[0] == if b then 't' else 'f'
            case Number(token) => Canon(v)[0] == '-' || '0' <= Canon(v)[0] <= '9'
            case Str(_) => Canon(v)[0] == '"'
            case Arr(_) => Canon(v)[0] == '['
            case Obj(_) => Canon(v)[0] == '{'
  {
    hide ArrParts, ObjParts, Join, Escape;
  }

  lemma SameKind(v: Json, w: Json, x: string, y: string)
    requires Clean(v) && Clean(w) && Canon(v) + x == Canon(w) + y
    ensures match v
            case Null => w.Null?
            case Bool(b) => w == v
            case Number(_) => w.Number?
            case Str(_) => w.Str?
            case Arr(_) => w.Arr?
            case Obj(_) => w.Obj?
  {
    hide Canon;
    HeadOf(v);
    HeadOf(w);
    FirstOf(Canon(v), x);
    FirstOf(Canon(w), y);
  }

  lemma CanonStr(v: Json, x: string)
    requires v.Str?
    ensures Canon(v) + x == ['"'] + (Escape(v.s) + (['"'] + x))
  {
    hide Escape;
    assert Canon(v) == ['"'] + Escape(v.s) + ['"'];
  }

  lemma CanonArr(v: Json, x: string)
    requires v.Arr?
    ensures Canon(v) + x == ['['] + (Body(ArrParts(v), ']') + x)
  {
    hide ArrParts, Join, Body;
    JoinIsBody(ArrParts(v), ']');
    assert Canon(v) == ['['] + (Join(ArrParts(v), ",") + [']']);
  }

  lemma CanonObj(v: Json, x: string)
    requires v.Obj?
    ensures Canon(v) + x == ['{'] + (Body(ObjParts(v), '}') + x)
  {
    hide ObjParts, Join, Body;
    JoinIsBody(ObjParts(v), '}');
    assert Canon(v) == ['{'] + (Join(ObjParts(v), ",") + ['}']);
  }

  lemma FieldPart(v: Json, i: nat)
    requires v.Obj? && i < |Keys(v)|
    ensures Keys(v)[i] in v.fields
    ensures ObjParts(v)[i] == Keys(v)[i] + ":" + Canon(v.fields[Keys(v)[i]])
  {
    assert Keys(v)[i] in Keys(v);
  }

  /** The `i`-th printed field. */
  lemma FieldText(v: Json, i: nat, x: string)
    requires v.Obj? && i < |Keys(v)|
    ensures Keys(v)[i] in v.fields
    ensures ObjParts(v)[i] + x == Keys(v)[i] + ([':'] + (Canon(v.fields[Keys(v)[i]]) + x))
  {
    hide Canon, ObjParts, Keys;
    FieldPart(v, i);
  }

  /** Both objects have the same `i`-th key with the same value. */
  predicate SameField(v: Json, w: Json, i: int)
    requires v.Obj? && w.Obj? && 0 <= i < |Keys(v)| && i < |Keys(w)|
  {
    assert Keys(v)[i] in Keys(v) && Keys(w)[i] in Keys(w);
    Keys(v)[i] == Keys(w)[i] && v.fields[Keys(v)[i]] == w.fields[Keys(w)[i]]
  }

  lemma KeyIndex(v: Json, k: string) returns (i: nat)
    requires v.Obj? && k in v.fields
    ensures i < |Keys(v)| && Keys(v)[i] == k
  {
    assert k in Keys(v);
    i :| 0 <= i < |Keys(v)| && Keys(v)[i] == k;
  }

  lemma SameFieldsSubset(v: Json, w: Json, k: string)
    requires v.Obj? && w.Obj? && |Keys(v)| == |Keys(w)| && k in v.fields
    requires forall i :: 0 <= i < |Keys(v)| ==> SameField(v, w, i)
    ensures k in w.fields && v.fields[k] == w.fields[k]
  {
    var i := KeyIndex(v, k);
    assert SameField(v, w, i);
    assert Keys(w)[i] in Keys(w);
  }

  lemma SameFieldsSameObject(v: Json, w: Json)
    requires v.Obj? && w.Obj? && |Keys(v)| == |Keys(w)|
    requires forall i :: 0 <= i < |Keys(v)| ==> SameField(v, w, i)
    ensures v == w
  {
    hide Keys, SameField;
    forall k | k in v.fields ensures k in w.fields && v.fields[k] == w.fields[k] {
      SameFieldsSubset(v, w, k);
    }
    forall k | k in w.fields ensures k in v.fields {
      forall i | 0 <= i < |Keys(w)| ensures SameField(w, v, i) { Flip(v, w, i); }
      SameFieldsSubset(w, v, k);
    }
    assert v.fields == w.fields;
  }

  lemma Flip(v: Json, w: Json, i: nat)
    requires v.Obj? && w.Obj? && i < |Keys(v)| && i < |Keys(w)| && SameField(v, w, i)
    ensures SameField(w, v, i)
  {
  }

  lemma CleanField(v: Json, i: nat)
    requires v.Obj? && Clean(v) && i < |Keys(v)|
    ensures Keys(v)[i] in v.fields && KeyOk(Keys(v)[i]) && Clean(v.fields[Keys(v)[i]])
    ensures ObjParts(v)[i] != [] && ObjParts(v)[i][0] != '}'
  {
    assert Keys(v)[i] in Keys(v);
  }

  lemma FieldSplit(v: Json, w: Json, i: nat, x: string, y: string)
    requires v.Obj? && w.Obj? && Clean(v) && Clean(w) && i < |Keys(v)| && i < |Keys(w)|
    requires Keys(v)[i] in v.fields && Keys(w)[i] in w.fields
    requires Splits(Canon(v.fields[Keys(v)[i]]), Canon(w.fields[Keys(w)[i]]), v.fields[Keys(v)[i]] == w.fields[Keys(w)[i]])
    requires Stops(x) && Stops(y) && ObjParts(v)[i] + x == ObjParts(w)[i] + y
    ensures SameField(v, w, i) && x == y
  {
    var k, l := Keys(v)[i], Keys(w)[i];
    var a, b := Canon(v.fields[k]), Canon(w.fields[l]);
    hide Canon, ObjParts, SortedKeys, Keys, Splits, Stops, Clean;
    CleanField(v, i);
    CleanField(w, i);
    FieldText(v, i, x);
    FieldText(w, i, y);
    SplitAt(':', k, l, a + x, b + y);
    UseSplits(a, b, v.fields[k] == w.fields[l], x, y);
  }

  /** One printed field, bare key included, splits uniquely. */
  lemma FieldSplits(v: Json, w: Json, i: nat)
    requires v.Obj? && w.Obj? && Clean(v) && Clean(w) && i < |Keys(v)| && i < |Keys(w)|
    requires Keys(v)[i] in v.fields && Keys(w)[i] in w.fields
    requires Splits(Canon(v.fields[Keys(v)[i]]), Canon(w.fields[Keys(w)[i]]), v.fields[Keys(v)[i]] == w.fields[Keys(w)[i]])
    ensures Splits(ObjParts(v)[i], ObjParts(w)[i], SameField(v, w, i))
  {
    hide Canon, SortedKeys, Stops, Clean, SameField;
    var p, q := ObjParts(v)[i], ObjParts(w)[i];
    forall x, y | Stops(x) && Stops(y) && p + x == q + y ensures SameField(v, w, i) && x == y {
      FieldSplit(v, w, i, x, y);
    }
  }

  lemma StrSplits(v: Json, w: Json)
    requires v.Str? && w.Str?
    ensures Splits(Canon(v), Canon(w), v == w)
  {
    forall x, y | Stops(x) && Stops(y) && Canon(v) + x == Canon(w) + y ensures v == w && x == y {
      hide Canon, Escape, Stops;
      CanonStr(v, x);
      CanonStr(w, y);
      Heads('"', '"', Escape(v.s) + (['"'] + x), Escape(w.s) + (['"'] + y));
      EscapeSplit(v.s, w.s, x, y);
    }
  }

  lemma ArrParted(v: Json)
    requires v.Arr? && Clean(v)
    ensures |ArrParts(v)| == |v.items|
    ensures forall j :: 0 <= j < |v.items| ==> ArrParts(v)[j] == Canon(v.items[j])
    ensures v.items != [] ==> ArrParts(v)[0] != [] && ArrParts(v)[0][0] != ']'
  {
    if v.items != [] {
      HeadOf(v.items[0]);
    }
  }

  lemma ArrSplit(v: Json, w: Json, x: string, y: string)
    requires v.Arr? && w.Arr? && Clean(v) && Clean(w)
    requires forall j :: 0 <= j < |v.items| && j < |w.items| ==> Splits(Canon(v.items[j]), Canon(w.items[j]), v.items[j] == w.items[j])
    requires Canon(v) + x == Canon(w) + y
    ensures v == w && x == y
  {
    hide Canon, Body, Stops, Clean, Splits, ArrParts;
    var p, q := ArrParts(v), ArrParts(w);
    ArrParted(v);
    ArrParted(w);
    CanonArr(v, x);
    CanonArr(w, y);
    var same := seq(|p|, j requires 0 <= j < |p| => j < |q| && v.items[j] == w.items[j]);
    Heads('[', '[', Body(p, ']') + x, Body(q, ']') + y);
    BodySplit(p, q, same, ']', x, y);
    assert forall j :: 0 <= j < |p| ==> same[j] ==> v.items[j] == w.items[j];
    assert v.items == w.items;
  }

  lemma ArrSplits(v: Json, w: Json)
    requires v.Arr? && w.Arr? && Clean(v) && Clean(w)
    requires forall j :: 0 <= j < |v.items| && j < |w.items| ==> Splits(Canon(v.items[j]), Canon(w.items[j]), v.items[j] == w.items[j])
    ensures Splits(Canon(v), Canon(w), v == w)
  {
    hide Canon, Stops, Clean;
    forall x, y | Stops(x) && Stops(y) && Canon(v) + x == Canon(w) + y ensures v == w && x == y {
      ArrSplit(v, w, x, y);
    }
  }

  lemma ObjParted(v: Json)
    requires v.Obj? && Clean(v)
    ensures |ObjParts(v)| == |Keys(v)|
    ensures Keys(v) != [] ==> ObjParts(v)[0] != [] && ObjParts(v)[0][0] != '}'
  {
    if Keys(v) != [] {
      CleanField(v, 0);
    }
  }

  lemma ObjSplit(v: Json, w: Json, x: string, y: string)
    requires v.Obj? && w.Obj? && Clean(v) && Clean(w)
    requires |ObjParts(v)| == |Keys(v)| && |ObjParts(w)| == |Keys(w)|
    requires forall j :: 0 <= j < |Keys(v)| && j < |Keys(w)| ==> Splits(ObjParts(v)[j], ObjParts(w)[j], SameField(v, w, j))
    requires Canon(v) + x == Canon(w) + y
    ensures v == w && x == y
  {
    hide Canon, Body, Stops, Clean, Splits, ObjParts, Keys, SameField, SortedKeys;
    var p, q := ObjParts(v), ObjParts(w);
    ObjParted(v);
    ObjParted(w);
    CanonObj(v, x);
    CanonObj(w, y);
    var same := seq(|p|, j requires 0 <= j < |p| => j < |q| && SameField(v, w, j));
    Heads('{', '{', Body(p, '}') + x, Body(q, '}') + y);
    BodySplit(p, q, same, '}', x, y);
    assert forall j :: 0 <= j < |p| ==> same[j] ==> SameField(v, w, j);
    SameFieldsSameObject(v, w);
  }

  lemma ObjSplits(v: Json, w: Json)
    requires v.Obj? && w.Obj? && Clean(v) && Clean(w)
    requires forall j :: 0 <= j < |Keys(v)| && j < |Keys(w)| ==> Splits(ObjParts(v)[j], ObjParts(w)[j], SameField(v, w, j))
    ensures Splits(Canon(v), Canon(w), v == w)
  {
    ObjParted(v);
    ObjParted(w);
    hide Canon, Stops, Clean, ObjParts, Keys, SameField;
    forall x, y | Stops(x) && Stops(y) && Canon(v) + x == Canon(w) + y ensures v == w && x == y {
      ObjSplit(v, w, x, y);
    }
  }

  lemma ScalarSplits(v: Json, w: Json)
    requires Clean(v) && Clean(w) && (v.Null? || v.Bool? || v.Number?)
    ensures Splits(Canon(v), Canon(w), v == w)
  {
    forall x, y | Stops(x) && Stops(y) && Canon(v) + x == Canon(w) + y ensures v == w && x == y {
      SameKind(v, w, x, y);
      if v.Number? {
        NumberSpan(v.token, w.token, x, y);
      } else {
        Cancel(Canon(v), Canon(w), x, y);
      }
    }
  }

  lemma KindSplits(v: Json, w: Json)
    requires Clean(v) && Clean(w)
    requires (v.Str? && !w.Str?) || (v.Arr? && !w.Arr?) || (v.Obj? && !w.Obj?)
    ensures Splits(Canon(v), Canon(w), v == w)
  {
    hide Canon, Clean;
    forall x, y ensures Canon(v) + x != Canon(w) + y {
      if Canon(v) + x == Canon(w) + y {
        SameKind(v, w, x, y);
      }
    }
  }

  /** The printed form of a clean value determines the value, even with more text behind it. */
  lemma {:induction false} CanonSplits(v: Json, w: Json)
    requires Clean(v) && Clean(w)
    ensures Splits(Canon(v), Canon(w), v == w)
    decreases v
  {
    hide Splits, Canon;
    if v.Str? && w.Str? {
      StrSplits(v, w);
    } else if v.Arr? && w.Arr? {
      forall j | 0 <= j < |v.items| && j < |w.items|
        ensures Splits(Canon(v.items[j]), Canon(w.items[j]), v.items[j] == w.items[j])
      {
        CanonSplits(v.items[j], w.items[j]);
      }
      ArrSplits(v, w);
    } else if v.Obj? && w.Obj? {
      forall j | 0 <= j < |Keys(v)| && j < |Keys(w)|
        ensures Splits(ObjParts(v)[j], ObjParts(w)[j], SameField(v, w, j))
      {
        CleanField(v, j);
        CleanField(w, j);
        CanonSplits(v.fields[Keys(v)[j]], w.fields[Keys(w)[j]]);
        FieldSplits(v, w, j);
      }
      ObjSplits(v, w);
    } else if v.Str? || v.Arr? || v.Obj? {
      KindSplits(v, w);
    } else {
      ScalarSplits(v, w);
    }
  }

  /** Canonical printing is injective on values with readable keys. */
  lemma CanonInjective(v: Json, w: Json)
    requires Clean(v) && Clean(w) && Canon(v) == Canon(w)
    ensures v == w
  {
    hide Canon;
    CanonSplits(v, w);
    assert Canon(v) + [] == Canon(w) + [];
    UseSplits(Canon(v), Canon(w), v == w, [], []);
  }

  // ---------------------------------------------------------------------------
  // Payloads
  // ---------------------------------------------------------------------------

  predicate NulFree(s: string) { NUL !in s }

  lemma {:induction false} EscapeNulFree(s: string)
    ensures NulFree(Escape(s))
    decreases |s|
  {
    if s != [] {
      EscapeNulFree(s[1..]);
      assert NulFree(EscChar(s[0]));
    }
  }

  lemma {:induction false} JoinNulFree(parts: seq<string>)
    requires forall i :: 0 <= i < |parts| ==> NulFree(parts[i])
    ensures NulFree(Join(parts, ","))
    decreases |parts|
  {
    if |parts| > 1 {
      JoinNulFree(parts[1..]);
    }
  }

  /** No key anywhere in the value holds NUL. */
  ghost predicate KeysNulFree(v: Json)
    decreases v
  {
    match v
    case Arr(items) => forall i :: 0 <= i < |items| ==> KeysNulFree(items[i])
    case Obj(fields) => forall k :: k in fields ==> NulFree(k) && KeysNulFree(fields[k])
    case _ => true
  }

  lemma {:induction false} CanonNulFree(v: Json)
    requires Clean(v) && KeysNulFree(v)
    ensures NulFree(Canon(v))
    decreases v
  {
    match v
    case Str(s) => EscapeNulFree(s);
    case Arr(items) =>
      forall i | 0 <= i < |items| ensures NulFree(ArrParts(v)[i]) { CanonNulFree(items[i]); }
      JoinNulFree(ArrParts(v));
    case Obj(fields) =>
      forall i | 0 <= i < |Keys(v)| ensures NulFree(ObjParts(v)[i]) {
        CleanField(v, i);
        CanonNulFree(fields[Keys(v)[i]]);
      }
      JoinNulFree(ObjParts(v));
    case Number(token) => assert !NumberChar(NUL);
    case _ =>
  }

  /** Events whose canonical payload can be read back. */
  ghost predicate CleanEvent(e: Event) {
    NulFree(e.actor) && NulFree(e.action) && NulFree(e.subject) && Clean(e.payload) && KeysNulFree(e.payload)
  }

  function IdBytes(id: Option<Uuid>): string {
    match id case Some(u) => u case None => ""
  }

  /** The correlation bytes may hold any byte, NUL included; the two encodings still never coincide,
      because the printed payload behind them holds none. */
  lemma IdSplit(a: Option<Uuid>, b: Option<Uuid>, x: string, y: string)
    requires NulFree(x) && NulFree(y)
    requires IdBytes(a) + ([NUL] + x) == IdBytes(b) + ([NUL] + y)
    ensures a == b && x == y
  {
    var s := IdBytes(a) + ([NUL] + x);
    if a.Some? && b.Some? {
      Cancel(a.value, b.value, [NUL] + x, [NUL] + y);
      Heads(NUL, NUL, x, y);
    } else if a.None? && b.None? {
      assert "" + ([NUL] + x) == [NUL] + x && "" + ([NUL] + y) == [NUL] + y;
      Heads(NUL, NUL, x, y);
    } else if a.None? {
      assert "" + ([NUL] + x) == [NUL] + x;
      IdLeavesNul(b.value, x, y);
    } else {
      assert "" + ([NUL] + y) == [NUL] + y;
      IdLeavesNul(a.value, y, x);
    }
  }

  lemma IdLeavesNul(u: Uuid, x: string, y: string)
    requires NulFree(x)
    ensures [NUL] + x != u + ([NUL] + y)
  {
    assert (u + ([NUL] + y))[16] == NUL;
    if |x| > 15 {
      assert ([NUL] + x)[16] == x[15];
    }
  }

  lemma PayloadText(e: Event)
    ensures CanonicalPayload(e)
         == e.actor + ([NUL] + (e.action + ([NUL] + (e.subject + ([NUL] + (IdBytes(e.correlation) + ([NUL] + Canon(e.payload))))))))
  {
    hide Canon;
  }

  /** The bytes that are hashed determine the event. */
  lemma PayloadInjective(e: Event, f: Event)
    requires CleanEvent(e) && CleanEvent(f) && CanonicalPayload(e) == CanonicalPayload(f)
    ensures e == f
  {
    hide Canon, CanonicalPayload, Clean, KeysNulFree, IdBytes;
    PayloadText(e);
    PayloadText(f);
    CanonNulFree(e.payload);
    CanonNulFree(f.payload);
    var pe, pf := Canon(e.payload), Canon(f.payload);
    var ce, cf := IdBytes(e.correlation) + ([NUL] + pe), IdBytes(f.correlation) + ([NUL] + pf);
    var se, sf := e.subject + ([NUL] + ce), f.subject + ([NUL] + cf);
    SplitAt(NUL, e.actor, f.actor, e.action + ([NUL] + se), f.action + ([NUL] + sf));
    SplitAt(NUL, e.action, f.action, se, sf);
    SplitAt(NUL, e.subject, f.subject, ce, cf);
    IdSplit(e.correlation, f.correlation, pe, pf);
    CanonInjective(e.payload, f.payload);
  }

  lemma TwoKeys(k: string, l: string)
    requires k != l && LexLeq(k, l)
    ensures SortedKeys({k, l}) == [k, l]
  {
    var ks := SortedKeys({k, l});
    assert |ks| == 2 && ks[0] in ks && ks[1] in ks && k in ks && l in ks;
    if ks[0] == l {
      assert LexLeq(l, k);
      LexAntisymmetric(k, l);
    }
  }

  lemma CanonOne(k: string, x: Json)
    ensures Canon(Obj(map[k := x])) == "{" + (k + ":" + Canon(x)) + "}"
  {
    var v := Obj(map[k := x]);
    assert v.fields.Keys == {k};
    var part := k + ":" + Canon(x);
    assert ObjParts(v)[0] == part;
    hide Canon, ObjParts, SortedKeys;
    assert ObjParts(v) == [part];
    assert Join([part], ",") == part;
  }

  lemma CanonTwo(k: string, l: string, x: Json, y: Json)
    requires k != l && LexLeq(k, l)
    ensures Canon(Obj(map[k := x, l := y])) == "{" + (k + ":" + Canon(x) + "," + (l + ":" + Canon(y))) + "}"
  {
    var v := Obj(map[k := x, l := y]);
    TwoKeys(k, l);
    assert v.fields.Keys == {k, l};
    var p, q := k + ":" + Canon(x), l + ":" + Canon(y);
    assert ObjParts(v)[0] == p && ObjParts(v)[1] == q;
    hide Canon, ObjParts, SortedKeys;
    assert ObjParts(v) == [p, q];
    assert [p, q][1..] == [q];
    assert Join([p, q], ",") == p + "," + q;
  }

  /** None of the three conditions on keys can be dropped.  A colon in a key can pass for a field boundary: every object
      with two fields prints like one with a single field. */
  lemma ColonKeyCollides(k: string, l: string, x: Json, y: Json)
    requires k != l && LexLeq(k, l)
    ensures Canon(Obj(map[k := x, l := y])) == Canon(Obj(map[k + ":" + Canon(x) + "," + l := y]))
    ensures Obj(map[k := x, l := y]) != Obj(map[k + ":" + Canon(x) + "," + l := y])
  {
    hide Canon, LexLeq;
    CanonTwo(k, l, x, y);
    CanonOne(k + ":" + Canon(x) + "," + l, y);
    var head := k + ":" + Canon(x) + ",";
    assert head + (l + ":" + Canon(y)) == (head + l) + ":" + Canon(y);
    assert (map[k := x, l := y]).Keys == {k, l} != {head + l};
  }

  lemma CanonOneItem(a: Json)
    ensures Canon(Arr([a])) == "[" + Canon(a) + "]"
  {
    var v := Arr([a]);
    assert ArrParts(v)[0] == Canon(a);
    assert ArrParts(v) == [Canon(a)];
  }

  lemma CanonTwoItems(a: Json, b: Json)
    ensures Canon(Arr([a, b])) == "[" + (Canon(a) + "," + Canon(b)) + "]"
  {
    var v := Arr([a, b]);
    assert ArrParts(v)[0] == Canon(a) && ArrParts(v)[1] == Canon(b);
    assert ArrParts(v) == [Canon(a), Canon(b)];
    assert [Canon(a), Canon(b)][1..] == [Canon(b)];
    assert Join(ArrParts(v), ",") == Canon(a) + "," + Canon(b);
  }

  lemma CanonNoFields()
    ensures Canon(Obj(map[])) == "{" + "" + "}"
  {
    var v := Obj(map[]);
    assert v.fields.Keys == {};
    assert ObjParts(v) == [];
  }

  /** A leading brace can pass for the end of an empty object. */
  lemma BraceKeyCollides(k: string, x: Json)
    ensures Canon(Arr([Obj(map["},{" + k := x])])) == Canon(Arr([Obj(map[]), Obj(map[k := x])]))
  {
    hide Canon;
    CanonOneItem(Obj(map["},{" + k := x]));
    CanonTwoItems(Obj(map[]), Obj(map[k := x]));
    CanonOne("},{" + k, x);
    CanonOne(k, x);
    CanonNoFields();
    var tail := k + ":" + Canon(x);
    assert ("},{" + k) + ":" + Canon(x) == "},{" + tail;
    assert "{" + ("},{" + tail) + "}" == "{" + "" + "}" + "," + ("{" + tail + "}");
  }

  /** A NUL in a key can pass for the separator behind a correlation id: an event without one collides with
      an event whose id holds the bytes in front of it. */
  lemma NulKeyCollides(e: Event, w: string, l: string, x: Json)
    requires |w| == 14
    ensures var id: Uuid := [NUL, '{'] + w;
            CanonicalPayload(e.(correlation := None, payload := Obj(map[w + [NUL, '{'] + l := x])))
            == CanonicalPayload(e.(correlation := Some(id), payload := Obj(map[l := x])))
  {
    hide Canon, CanonicalPayload;
    var id: Uuid := [NUL, '{'] + w;
    var a := e.(correlation := None, payload := Obj(map[w + [NUL, '{'] + l := x]));
    var b := e.(correlation := Some(id), payload := Obj(map[l := x]));
    PayloadText(a);
    PayloadText(b);
    CanonOne(w + [NUL, '{'] + l, x);
    CanonOne(l, x);
    var tail := ":" + Canon(x) + "}";
    assert Canon(a.payload) == "{" + w + [NUL, '{'] + l + tail;
    assert Canon(b.payload) == "{" + l + tail;
    assert IdBytes(a.correlation) + ([NUL] + Canon(a.payload)) == IdBytes(b.correlation) + ([NUL] + Canon(b.payload));
  }

  /** A NUL in a text field can pass for the separator behind it. */
  lemma NulTextCollides(e: Event, a: string, b: string, c: string)
    ensures CanonicalPayload(e.(actor := a + [NUL] + b, action := c))
         == CanonicalPayload(e.(actor := a, action := b + [NUL] + c))
  {
    hide Canon;
  }

  lemma LongerActor(e: Event, h: string)
    ensures CanonicalPayload(e.(actor := h + e.actor)) == h + CanonicalPayload(e)
  {
    hide Canon;
  }
}
