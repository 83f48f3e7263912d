/** The JSON text of an inventory cursor in UTF-8, as `JSON.stringify` writes it (section 9 of RFC 8259, section 3 of
    RFC 3629): its length, and why no two cursors share one (src/server/services/cmdb-cursor.ts). */
module CursorJson {
  import opened Wrappers

  type Byte = b: int | 0 <= b < 256

  datatype Boundary = Boundary(id: string, value: Option<string>)

  datatype AssetCursor = AssetCursor(
    version: int, scope: string, insertionSnapshot: string, snapshotAt: string,
    expiresAt: int, boundary: Option<Boundary>)

  const QUOTE: Byte := 0x22
  const BACKSLASH: Byte := 0x5C

  // ---------------------------------------------------------------------
  // Texts
  // ---------------------------------------------------------------------

  function Hex(v: int): Byte
    requires 0 <= v < 16
  {
    if v < 10 then 0x30 + v else 0x57 + v
  }

  /** One character inside a JSON text: escaped where it must be, else in UTF-8. */
  function CharBytes(c: char): seq<Byte> {
    var n := c as int;
    if n == 0x22 || n == 0x5C then [BACKSLASH, n]
    else if n == 0x08 then [BACKSLASH, 0x62]
    else if n == 0x09 then [BACKSLASH, 0x74]
    else if n == 0x0A then [BACKSLASH, 0x6E]
    else if n == 0x0C then [BACKSLASH, 0x66]
    else if n == 0x0D then [BACKSLASH, 0x72]
    else if n < 0x20 then [BACKSLASH, 0x75, 0x30, 0x30, Hex(n / 16), Hex(n % 16)]
    else if n < 0x80 then [n]
    else if n < 0x800 then [0xC0 + n / 64, 0x80 + n % 64]
    else if n < 0x1_0000 then [0xE0 + n / 4096, 0x80 + n / 64 % 64, 0x80 + n % 64]
    else [0xF0 + n / 262144, 0x80 + n / 4096 % 64, 0x80 + n / 64 % 64, 0x80 + n % 64]
  }

  function Escaped(s: string): seq<Byte> {
    if s == "" then [] else CharBytes(s[0]) + Escaped(s[1..])
  }

  function Quoted(s: string): seq<Byte> { [QUOTE] + Escaped(s) + [QUOTE] }

  /** Reads the width of a character off its first two bytes. */
  function WidthOf(first: Byte, second: Byte): nat {
    if first == BACKSLASH then (if second == 0x75 then 6 else 2)
    else if first < 0x80 then 1
    else if first < 0xE0 then 2
    else if first < 0xF0 then 3 else 4
  }

  function SecondOf(bytes: seq<Byte>): Byte { if |bytes| > 1 then bytes[1] else 0 }

  function HexValue(b: Byte): int { if b < 0x40 then b as int - 0x30 else b as int - 0x57 }

  function Low(b: Byte): int { b as int - 0x80 }

  /** Reads an escaped character back. */
  function Unescaped(second: Byte): int {
    match second
    case 0x62 => 0x08
    case 0x74 => 0x09
    case 0x6E => 0x0A
    case 0x66 => 0x0C
    case 0x72 => 0x0D
    case b => b
  }

  /** Reads a character back from its bytes. */
  function CodeOf(bytes: seq<Byte>): int {
    match |bytes|
    case 1 => bytes[0]
    case 2 => if bytes[0] == BACKSLASH then Unescaped(bytes[1]) else (bytes[0] as int - 0xC0) * 64 + Low(bytes[1])
    case 3 => (bytes[0] as int - 0xE0) * 4096 + Low(bytes[1]) * 64 + Low(bytes[2])
    case 4 => (bytes[0] as int - 0xF0) * 262144 + Low(bytes[1]) * 4096 + Low(bytes[2]) * 64 + Low(bytes[3])
    case 6 => HexValue(bytes[4]) * 16 + HexValue(bytes[5])
    case _ => 0
  }

  lemma CharShape(c: char)
    ensures 1 <= |CharBytes(c)| <= 6 && CharBytes(c)[0] != QUOTE
    ensures CharBytes(c)[0] == BACKSLASH ==> |CharBytes(c)| > 1
    ensures forall second: Byte :: |CharBytes(c)| == 1 || second == CharBytes(c)[1] ==>
                                     WidthOf(CharBytes(c)[0], second) == |CharBytes(c)|
  {
    hide Hex;
  }

  lemma SextetsSum(n: nat)
    ensures n == n / 4096 * 4096 + n / 64 % 64 * 64 + n % 64
    ensures n == n / 262144 * 262144 + n / 4096 % 64 * 4096 + n / 64 % 64 * 64 + n % 64
  {
    assert n / 64 / 64 == n / 4096 && n / 4096 / 64 == n / 262144;
  }

  lemma CharReads(c: char)
    ensures CodeOf(CharBytes(c)) == c as int
  {
    SextetsSum(c as int);
  }

  /** Control characters have a short escape or one with two lower-case hexadecimal digits; quotation marks and
      backslashes are escaped, and every other character stands for itself in the fewest bytes UTF-8 has for it. */
  lemma CharBytesAre(c: char)
    ensures var n, b := c as int, CharBytes(c);
            && (forall k :: 0 <= k < 5 ==>
                  (n == [8, 9, 10, 12, 13][k] ==> b == ['\\' as int, "btnfr"[k] as int]))
            && (n < 0x20 && n !in [8, 9, 10, 12, 13] ==>
                  && |b| == 6 && b[..4] == ['\\' as int, 'u' as int, '0' as int, '0' as int]
                  && b[4] == "01"[n / 16] as int && b[5] == "0123456789abcdef"[n % 16] as int)
            && (c == '"' || c == '\\' ==> b == ['\\' as int, n])
            && (0x20 <= n < 0x80 && c != '"' && c != '\\' ==> b == [n])
            && (n >= 0x80 ==>
                  && |b| == (if n < 0x800 then 2 else if n < 0x1_0000 then 3 else 4)
                  && b[0] >= (if |b| == 2 then 0xC0 else if |b| == 3 then 0xE0 else 0xF0)
                  && forall k :: 1 <= k < |b| ==> 0x80 <= b[k] < 0xC0)
            && (0x80 <= n < 0x800 ==> n == (b[0] as int - 0xC0) * 64 + Low(b[1]))
            && (0x800 <= n < 0x1_0000 ==> n == (b[0] as int - 0xE0) * 4096 + Low(b[1]) * 64 + Low(b[2]))
            && (0x1_0000 <= n ==>
                  n == (b[0] as int - 0xF0) * 262144 + Low(b[1]) * 4096 + Low(b[2]) * 64 + Low(b[3]))
  {
    SextetsSum(c as int);
  }

  /** Characters are told apart whatever follows them. */
  lemma CharSplits(a: char, b: char, u: seq<Byte>, v: seq<Byte>)
    requires CharBytes(a) + u == CharBytes(b) + v
    ensures a == b && u == v
  {
    CharShape(a);
    CharShape(b);
    CharReads(a);
    CharReads(b);
    var x, y := CharBytes(a), CharBytes(b);
    hide CharBytes, CodeOf, WidthOf;
    SameWidth(x, y, u, v);
    assert x == (x + u)[..|x|] == (y + v)[..|y|] == y;
    assert u == (x + u)[|x|..] == (y + v)[|y|..] == v;
  }

  lemma SameWidth(x: seq<Byte>, y: seq<Byte>, u: seq<Byte>, v: seq<Byte>)
    requires x != [] && y != [] && x + u == y + v
    requires forall second: Byte :: |x| == 1 || second == x[1] ==> WidthOf(x[0], second) == |x|
    requires forall second: Byte :: |y| == 1 || second == y[1] ==> WidthOf(y[0], second) == |y|
    ensures |x| == |y|
  {
    var second := SecondOf(x + u);
    assert (x + u)[0] == x[0] && (y + v)[0] == y[0];
    assert |x| > 1 ==> (x + u)[1] == x[1];
    assert |y| > 1 ==> (y + v)[1] == y[1];
    assert WidthOf(x[0], second) == |x|;
    assert WidthOf(y[0], second) == |y|;
  }

  lemma EscapedCons(s: string, x: seq<Byte>)
    requires s != ""
    ensures Escaped(s) + x == CharBytes(s[0]) + (Escaped(s[1..]) + x)
  {
    hide CharBytes;
    var p, q := CharBytes(s[0]), Escaped(s[1..]);
    assert Escaped(s) == p + q;
    hide Escaped;
  }

  lemma EmptySplits(t: string, x: seq<Byte>, y: seq<Byte>)
    requires x != [] && x[0] == QUOTE && y != [] && y[0] == QUOTE && x == Escaped(t) + y
    ensures t == "" && x == y
  {
    if t != "" {
      assert false;
    } else {
      assert Escaped("") == [];
    }
  }

  lemma {:induction false} EscapedSplits(s: string, t: string, x: seq<Byte>, y: seq<Byte>)
    requires x != [] && x[0] == QUOTE && y != [] && y[0] == QUOTE && Escaped(s) + x == Escaped(t) + y
    ensures s == t && x == y
  {
    if s == "" {
      assert Escaped(s) + x == x;
      EmptySplits(t, x, y);
    } else if t == "" {
      assert Escaped(t) + y == y;
      EmptySplits(s, y, x);
    } else {
      EscapedCons(s, x);
      EscapedCons(t, y);
      hide CharBytes, Escaped;
      CharSplits(s[0], t[0], Escaped(s[1..]) + x, Escaped(t[1..]) + y);
      EscapedSplits(s[1..], t[1..], x, y);
      assert s == [s[0]] + s[1..] && t == [t[0]] + t[1..];
    }
  }

  lemma QuotedSplits(s: string, t: string, u: seq<Byte>, v: seq<Byte>)
    requires Quoted(s) + u == Quoted(t) + v
    ensures s == t && u == v
  {
    hide Escaped;
    var x, y := [QUOTE] + u, [QUOTE] + v;
    assert Quoted(s) + u == [QUOTE] + (Escaped(s) + x) && Quoted(t) + v == [QUOTE] + (Escaped(t) + y);
    SameTail([QUOTE], Escaped(s) + x, Escaped(t) + y);
    EscapedSplits(s, t, x, y);
    SameTail([QUOTE], u, v);
  }

  /** Characters that JSON writes as they are, in one byte. */
  predicate Plain(c: char) { ' ' <= c <= '~' && c != '"' && c != '\\' }

  lemma {:induction false} QuotedLength(s: string)
    ensures |s| + 2 <= |Quoted(s)| <= 6 * |s| + 2
    ensures (forall c :: c in s ==> Plain(c)) ==> |Quoted(s)| == |s| + 2
  {
    if s != "" {
      QuotedLength(s[1..]);
      CharShape(s[0]);
      hide CharBytes;
      assert s[0] in s && forall c :: c in s[1..] ==> c in s;
    }
  }

  // ---------------------------------------------------------------------
  // Numbers
  // ---------------------------------------------------------------------

  function Digits(n: nat): seq<Byte> {
    if n < 10 then [0x30 + n] else Digits(n / 10) + [0x30 + n % 10]
  }

  function Number(n: int): seq<Byte> { if n < 0 then [0x2D] + Digits(-n) else Digits(n) }

  predicate AreDigits(bytes: seq<Byte>) { forall k :: 0 <= k < |bytes| ==> 0x30 <= bytes[k] <= 0x39 }

  function Power10(k: nat): nat { if k == 0 then 1 else 10 * Power10(k - 1) }

  lemma {:induction false} Power10Sum(j: nat, k: nat)
    ensures Power10(j + k) == Power10(j) * Power10(k)
  {
    if j > 0 { Power10Sum(j - 1, k); }
  }

  lemma {:induction false} DigitsAre(n: nat)
    ensures AreDigits(Digits(n)) && |Digits(n)| >= 1
  {
    if n >= 10 { DigitsAre(n / 10); }
  }

  lemma {:induction false} DigitsLength(n: nat, k: nat)
    requires k >= 1 && n < Power10(k)
    ensures |Digits(n)| <= k
  {
    if n >= 10 {
      assert k >= 2 by { assert Power10(1) == 10 * Power10(0); }
      DigitsLength(n / 10, k - 1);
    }
  }

  lemma {:induction false} DigitsDiffer(m: nat, n: nat)
    requires Digits(m) == Digits(n)
    ensures m == n
  {
    DigitsAre(m / 10);
    DigitsAre(n / 10);
    var x, y := Digits(m), Digits(n);
    assert x[|x| - 1] == 0x30 + m % 10 && y[|y| - 1] == 0x30 + n % 10;
    if m >= 10 && n >= 10 {
      assert Digits(m / 10) == x[..|x| - 1] == y[..|y| - 1] == Digits(n / 10);
      DigitsDiffer(m / 10, n / 10);
    }
  }

  lemma NoShorter(x: seq<Byte>, y: seq<Byte>, u: seq<Byte>, v: seq<Byte>)
    requires AreDigits(y) && x + u == y + v && u != [] && !AreDigits(u[..1])
    ensures |x| >= |y|
  {
    assert u[..1] == [u[0]];
    assert (x + u)[|x|] == u[0];
    assert forall k :: 0 <= k < |y| ==> (y + v)[k] == y[k];
  }

  /** A number ends where something else than a digit follows. */
  lemma DigitsSplit(m: nat, n: nat, u: seq<Byte>, v: seq<Byte>)
    requires u != [] && v != [] && !AreDigits(u[..1]) && !AreDigits(v[..1])
    requires Digits(m) + u == Digits(n) + v
    ensures m == n && u == v
  {
    var x, y := Digits(m), Digits(n);
    DigitsAre(m);
    DigitsAre(n);
    hide Digits;
    NoShorter(x, y, u, v);
    NoShorter(y, x, v, u);
    assert x == (x + u)[..|x|] == (y + v)[..|y|] == y;
    assert u == (x + u)[|x|..] == (y + v)[|y|..] == v;
    DigitsDiffer(m, n);
  }

  // ---------------------------------------------------------------------
  // The cursor
  // ---------------------------------------------------------------------

  /** ASCII constants as bytes. */
  function Ascii(s: string): (bytes: seq<Byte>)
    ensures |bytes| == |s|
  {
    seq(|s|, i requires 0 <= i < |s| => s[i] as int % 256)
  }

  const NULL: seq<Byte> := Ascii("null")

  function ValueText(v: Option<string>): seq<Byte> { if v.None? then NULL else Quoted(v.value) }

  function BoundaryJson(b: Option<Boundary>): seq<Byte> {
    match b
    case None => NULL
    case Some(b) => Ascii("{\"id\":") + (Quoted(b.id) + (Ascii(",\"value\":") + (ValueText(b.value) + Ascii("}"))))
  }

  function AfterExpiry(c: AssetCursor): seq<Byte> { Ascii(",\"boundary\":") + (BoundaryJson(c.boundary) + Ascii("}")) }

  function AfterScope(c: AssetCursor): seq<Byte> {
    Ascii(",\"insertionSnapshot\":") + (Quoted(c.insertionSnapshot) + (Ascii(",\"snapshotAt\":") + (Quoted(c.snapshotAt)
    + (Ascii(",\"expiresAt\":") + (Number(c.expiresAt) + AfterExpiry(c))))))
  }

  /** The fields in the order of the schema. */
  function JsonText(c: AssetCursor): seq<Byte> {
    Ascii("{\"version\":") + (Number(c.version) + (Ascii(",\"scope\":") + (Quoted(c.scope) + AfterScope(c))))
  }

  lemma SameTail(k: seq<Byte>, u: seq<Byte>, v: seq<Byte>)
    requires k + u == k + v
    ensures u == v
  {
    assert u == (k + u)[|k|..] == (k + v)[|k|..] == v;
  }

  lemma SameHead(u: seq<Byte>, v: seq<Byte>, k: seq<Byte>)
    requires u + k == v + k
    ensures u == v
  {
    assert |u| == |v|;
    assert u == (u + k)[..|u|] == (v + k)[..|v|] == v;
  }

  lemma NullIsNoText(s: string, u: seq<Byte>, v: seq<Byte>)
    ensures NULL + u != Quoted(s) + v
  {
    assert (NULL + u)[0] == 'n' as int;
    assert (Quoted(s) + v)[0] == QUOTE;
  }

  lemma ValueDiffers(v: Option<string>, w: Option<string>, k: seq<Byte>)
    requires ValueText(v) + k == ValueText(w) + k
    ensures v == w
  {
    if v.Some? && w.Some? {
      QuotedSplits(v.value, w.value, k, k);
    } else if v.Some? {
      NullIsNoText(v.value, k, k);
    } else if w.Some? {
      NullIsNoText(w.value, k, k);
    }
  }

  lemma BoundaryDiffers(a: Option<Boundary>, b: Option<Boundary>)
    requires BoundaryJson(a) == BoundaryJson(b)
    ensures a == b
  {
    if a.None? || b.None? {
      assert NULL[0] == 'n' as int && Ascii("{\"id\":")[0] == '{' as int;
    } else {
      var x, y := a.value, b.value;
      var k, end := Ascii(",\"value\":"), Ascii("}");
      hide Quoted, ValueText, Ascii;
      SameTail(Ascii("{\"id\":"), Quoted(x.id) + (k + (ValueText(x.value) + end)),
               Quoted(y.id) + (k + (ValueText(y.value) + end)));
      QuotedSplits(x.id, y.id, k + (ValueText(x.value) + end), k + (ValueText(y.value) + end));
      SameTail(k, ValueText(x.value) + end, ValueText(y.value) + end);
      ValueDiffers(x.value, y.value, end);
    }
  }

  lemma ExpiryEnds(c: AssetCursor)
    ensures AfterExpiry(c) != [] && !AreDigits(AfterExpiry(c)[..1])
  {
    hide BoundaryJson;
    assert AfterExpiry(c)[0] == ',' as int;
    assert AfterExpiry(c)[..1][0] == AfterExpiry(c)[0];
  }

  lemma AfterScopeDiffers(c: AssetCursor, d: AssetCursor)
    requires c.expiresAt > 0 && d.expiresAt > 0 && AfterScope(c) == AfterScope(d)
    ensures c.insertionSnapshot == d.insertionSnapshot && c.snapshotAt == d.snapshotAt
    ensures c.expiresAt == d.expiresAt && c.boundary == d.boundary
  {
    var k1, k2, k3 := Ascii(",\"insertionSnapshot\":"), Ascii(",\"snapshotAt\":"), Ascii(",\"expiresAt\":");
    var e, f := AfterExpiry(c), AfterExpiry(d);
    ExpiryEnds(c);
    ExpiryEnds(d);
    hide Quoted, Ascii, Digits, BoundaryJson;
    var c3, d3 := Number(c.expiresAt) + e, Number(d.expiresAt) + f;
    var c2, d2 := Quoted(c.snapshotAt) + (k3 + c3), Quoted(d.snapshotAt) + (k3 + d3);
    SameTail(k1, Quoted(c.insertionSnapshot) + (k2 + c2), Quoted(d.insertionSnapshot) + (k2 + d2));
    QuotedSplits(c.insertionSnapshot, d.insertionSnapshot, k2 + c2, k2 + d2);
    SameTail(k2, c2, d2);
    QuotedSplits(c.snapshotAt, d.snapshotAt, k3 + c3, k3 + d3);
    SameTail(k3, c3, d3);
    DigitsSplit(c.expiresAt, d.expiresAt, e, f);
    SameTail(Ascii(",\"boundary\":"), BoundaryJson(c.boundary) + Ascii("}"), BoundaryJson(d.boundary) + Ascii("}"));
    SameHead(BoundaryJson(c.boundary), BoundaryJson(d.boundary), Ascii("}"));
    BoundaryDiffers(c.boundary, d.boundary);
  }

  /** No two cursors of one version share their JSON text. */
  lemma JsonDiffers(c: AssetCursor, d: AssetCursor)
    requires c.version == d.version && c.expiresAt > 0 && d.expiresAt > 0 && JsonText(c) == JsonText(d)
    ensures c == d
  {
    var k0, k1 := Ascii("{\"version\":"), Ascii(",\"scope\":");
    hide Quoted, Ascii, Number, AfterScope;
    SameTail(k0, Number(c.version) + (k1 + (Quoted(c.scope) + AfterScope(c))),
             Number(d.version) + (k1 + (Quoted(d.scope) + AfterScope(d))));
    SameTail(Number(c.version), k1 + (Quoted(c.scope) + AfterScope(c)), k1 + (Quoted(d.scope) + AfterScope(d)));
    SameTail(k1, Quoted(c.scope) + AfterScope(c), Quoted(d.scope) + AfterScope(d));
    QuotedSplits(c.scope, d.scope, AfterScope(c), AfterScope(d));
    AfterScopeDiffers(c, d);
  }

  function BoundaryText(c: AssetCursor): string {
    if c.boundary.Some? && c.boundary.value.value.Some? then c.boundary.value.value.value else ""
  }

  function BoundaryId(c: AssetCursor): string { if c.boundary.Some? then c.boundary.value.id else "" }

  /** The bytes that neither texts nor the expiry time account for. */
  const JSON_FRAME := 110

  lemma BoundaryLength(c: AssetCursor)
    ensures |BoundaryText(c)| <= |BoundaryJson(c.boundary)| <= 22 + 6 * (|BoundaryId(c)| + |BoundaryText(c)|)
  {
    if c.boundary.Some? {
      QuotedLength(c.boundary.value.id);
      if c.boundary.value.value.Some? { QuotedLength(c.boundary.value.value.value); }
    }
    hide Quoted;
  }

  lemma AfterScopeLength(c: AssetCursor)
    ensures |AfterScope(c)| == 61 + |Quoted(c.insertionSnapshot)| + |Quoted(c.snapshotAt)| + |Number(c.expiresAt)|
                               + |BoundaryJson(c.boundary)|
  {
    hide Quoted, BoundaryJson, Number, Ascii;
    assert |AfterExpiry(c)| == 13 + |BoundaryJson(c.boundary)|;
    hide AfterExpiry;
  }

  /** The text spends one byte on each character of a plain snapshot, at most six on any other character, one on each
      digit and a fixed number on the rest; and at least one on each character. */
  lemma JsonLength(c: AssetCursor, k: nat)
    requires c.version == 2 && 0 < c.expiresAt < Power10(k)
    requires forall x :: x in c.insertionSnapshot ==> Plain(x)
    ensures |c.insertionSnapshot| + |BoundaryText(c)| < |JsonText(c)|
    ensures |JsonText(c)| <= JSON_FRAME + k + |c.insertionSnapshot|
                             + 6 * (|c.scope| + |c.snapshotAt| + |BoundaryId(c)| + |BoundaryText(c)|)
  {
    QuotedLength(c.scope);
    QuotedLength(c.insertionSnapshot);
    QuotedLength(c.snapshotAt);
    assert k >= 1;
    DigitsLength(c.expiresAt, k);
    BoundaryLength(c);
    AfterScopeLength(c);
    assert |Number(2)| == 1 && |Number(c.expiresAt)| <= k;
    hide Quoted, BoundaryJson, Number, BoundaryText, BoundaryId, AfterScope, Ascii, Power10;
  }
}
