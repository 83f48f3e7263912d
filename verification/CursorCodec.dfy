/** Signed inventory cursors: base64url, signature, schema and scope
    (src/server/services/cmdb-cursor.ts; base64url is section 5 of RFC 4648). */
module CursorCodec {
  import opened CursorJson
  import opened Ordering
  import opened Wrappers

  type Sextet = v: int | 0 <= v < 64

  const INVALID := "Asset cursor is invalid, expired, or belongs to different filters. Refresh the inventory."
  const SCHEMA := "The cursor does not match its schema."
  const TOKEN_LIMIT := 8192
  const JSON_LIMIT := 6111
  const SIGNATURE_BYTES := 32

  // ---------------------------------------------------------------------
  // base64url
  // ---------------------------------------------------------------------

  function Digit(v: Sextet): char {
    if v < 26 then 'A' + v as char
    else if v < 52 then 'a' + (v - 26) as char
    else if v < 62 then '0' + (v - 52) as char
    else if v == 62 then '-' else '_'
  }

  predicate InAlphabet(c: char) {
    'A' <= c <= 'Z' || 'a' <= c <= 'z' || '0' <= c <= '9' || c == '-' || c == '_'
  }

  function DigitValue(c: char): (v: Sextet)
    requires InAlphabet(c)
  {
    if 'A' <= c <= 'Z' then (c - 'A') as int
    else if 'a' <= c <= 'z' then (c - 'a') as int + 26
    else if '0' <= c <= '9' then (c - '0') as int + 52
    else if c == '-' then 62 else 63
  }

  predicate AllInAlphabet(s: string) { forall k :: 0 <= k < |s| ==> InAlphabet(s[k]) }

  // A group of three bytes and its four sextets.

  function Head(b0: Byte): Sextet { b0 / 4 }
  function Mid1(b0: Byte, b1: Byte): Sextet { b0 % 4 * 16 + b1 / 16 }
  function Mid2(b1: Byte, b2: Byte): Sextet { b1 % 16 * 4 + b2 / 64 }
  function Tail(b2: Byte): Sextet { b2 % 64 }

  function First(d0: Sextet, d1: Sextet): Byte { d0 * 4 + d1 / 16 }
  function Second(d1: Sextet, d2: Sextet): Byte { d1 % 16 * 16 + d2 / 4 }
  function Third(d2: Sextet, d3: Sextet): Byte { d2 % 4 * 64 + d3 }

  lemma SextetsRejoin(b0: Byte, b1: Byte, b2: Byte)
    ensures First(Head(b0), Mid1(b0, b1)) == b0
    ensures Second(Mid1(b0, b1), Mid2(b1, b2)) == b1
    ensures Third(Mid2(b1, b2), Tail(b2)) == b2
  {}

  /** Unpadded encoding, three bytes at a time. */
  function Encode64(bytes: seq<Byte>): string {
    if |bytes| == 0 then ""
    else if |bytes| == 1 then [Digit(Head(bytes[0])), Digit(Mid1(bytes[0], 0))]
    else if |bytes| == 2 then [Digit(Head(bytes[0])), Digit(Mid1(bytes[0], bytes[1])), Digit(Mid2(bytes[1], 0))]
    else
      [Digit(Head(bytes[0])), Digit(Mid1(bytes[0], bytes[1])), Digit(Mid2(bytes[1], bytes[2])), Digit(Tail(bytes[2]))]
      + Encode64(bytes[3..])
  }

  /** The decoder ignores a trailing single digit and the spare bits of a short group. */
  function Decode64(s: string): seq<Byte>
    requires AllInAlphabet(s)
  {
    if |s| < 2 then []
    else
      var d0, d1 := DigitValue(s[0]), DigitValue(s[1]);
      if |s| == 2 then [First(d0, d1)]
      else
        var d2 := DigitValue(s[2]);
        if |s| == 3 then [First(d0, d1), Second(d1, d2)]
        else [First(d0, d1), Second(d1, d2), Third(d2, DigitValue(s[3]))] + Decode64(s[4..])
  }

  lemma DigitRoundTrip(v: Sextet)
    ensures InAlphabet(Digit(v)) && DigitValue(Digit(v)) == v
  {}

  function EncodedLength(n: nat): nat { (4 * n + 2) / 3 }

  lemma DecodePair(s: string, d0: Sextet, d1: Sextet)
    requires |s| == 2 && s[0] == Digit(d0) && s[1] == Digit(d1)
    ensures AllInAlphabet(s) && Decode64(s) == [First(d0, d1)]
  {
    DigitRoundTrip(d0);
    DigitRoundTrip(d1);
    hide Digit, DigitValue, InAlphabet, First;
  }

  lemma DecodeTriple(s: string, d0: Sextet, d1: Sextet, d2: Sextet)
    requires |s| == 3 && s[0] == Digit(d0) && s[1] == Digit(d1) && s[2] == Digit(d2)
    ensures AllInAlphabet(s) && Decode64(s) == [First(d0, d1), Second(d1, d2)]
  {
    DigitRoundTrip(d0);
    DigitRoundTrip(d1);
    DigitRoundTrip(d2);
    hide Digit, DigitValue, InAlphabet, First, Second;
  }

  lemma ShortRoundTrip(bytes: seq<Byte>)
    requires 1 <= |bytes| <= 2
    ensures AllInAlphabet(Encode64(bytes)) && Decode64(Encode64(bytes)) == bytes
  {
    hide Digit, DigitValue, InAlphabet, AllInAlphabet, Decode64, First, Second, Head, Mid1, Mid2;
    var e := Encode64(bytes);
    var b0 := bytes[0];
    if |bytes| == 1 {
      SextetsRejoin(b0, 0, 0);
      DecodePair(e, Head(b0), Mid1(b0, 0));
    } else {
      SextetsRejoin(b0, bytes[1], 0);
      DecodeTriple(e, Head(b0), Mid1(b0, bytes[1]), Mid2(bytes[1], 0));
    }
  }

  lemma GroupRoundTrip(b0: Byte, b1: Byte, b2: Byte, rest: string)
    requires AllInAlphabet(rest)
    ensures var s := [Digit(Head(b0)), Digit(Mid1(b0, b1)), Digit(Mid2(b1, b2)), Digit(Tail(b2))] + rest;
            AllInAlphabet(s) && Decode64(s) == [b0, b1, b2] + Decode64(rest)
  {
    SextetsRejoin(b0, b1, b2);
    DigitRoundTrip(Head(b0));
    DigitRoundTrip(Mid1(b0, b1));
    DigitRoundTrip(Mid2(b1, b2));
    DigitRoundTrip(Tail(b2));
    hide Digit, DigitValue, InAlphabet, Head, Mid1, Mid2, Tail, First, Second, Third;
    var s := [Digit(Head(b0)), Digit(Mid1(b0, b1)), Digit(Mid2(b1, b2)), Digit(Tail(b2))] + rest;
    assert s[4..] == rest;
  }

  lemma {:induction false} Base64Length(bytes: seq<Byte>)
    ensures |Encode64(bytes)| == EncodedLength(|bytes|)
  {
    hide Digit, Head, Mid1, Mid2, Tail;
    if |bytes| >= 3 { Base64Length(bytes[3..]); }
  }

  lemma {:induction false} Base64RoundTrip(bytes: seq<Byte>)
    ensures AllInAlphabet(Encode64(bytes))
    ensures Decode64(Encode64(bytes)) == bytes
  {
    if 1 <= |bytes| <= 2 {
      ShortRoundTrip(bytes);
    } else if |bytes| >= 3 {
      Base64RoundTrip(bytes[3..]);
      GroupRoundTrip(bytes[0], bytes[1], bytes[2], Encode64(bytes[3..]));
      hide Digit, DigitValue, Decode64, AllInAlphabet, Head, Mid1, Mid2, Tail;
      assert bytes == [bytes[0], bytes[1], bytes[2]] + bytes[3..];
    }
  }

  // ---------------------------------------------------------------------
  // Splitting a token at its dots
  // ---------------------------------------------------------------------

  predicate NoDot(s: string) { forall k :: 0 <= k < |s| ==> s[k] != '.' }

  function Split(s: string): (parts: seq<string>)
    ensures |parts| >= 1
  {
    if s == "" then [""]
    else
      var rest := Split(s[1..]);
      if s[0] == '.' then [""] + rest else [[s[0]] + rest[0]] + rest[1..]
  }

  lemma {:induction false} SplitPlain(s: string)
    requires NoDot(s)
    ensures Split(s) == [s]
  {
    if s != "" {
      SplitPlain(s[1..]);
      assert [s[0]] + s[1..] == s;
    }
  }

  lemma {:induction false} SplitAtDot(p: string, q: string)
    requires NoDot(p) && NoDot(q)
    ensures Split(p + "." + q) == [p, q]
  {
    var t := p + "." + q;
    if p == "" {
      assert t[1..] == q;
      SplitPlain(q);
    } else {
      assert t[1..] == p[1..] + "." + q;
      SplitAtDot(p[1..], q);
      assert [p[0]] + p[1..] == p;
    }
  }

  // ---------------------------------------------------------------------
  // The cursor schema
  // ---------------------------------------------------------------------

  predicate IsDigit(c: char) { '0' <= c <= '9' }

  /** xmin:xmax:xip-list, the text form of a database snapshot: states 0 to 6 of a small automaton. */
  predicate SnapshotShape(s: string, state: nat) {
    if s == "" then state in {4, 5}
    else if IsDigit(s[0]) then
      SnapshotShape(s[1..], match state case 0 => 1 case 1 => 1 case 2 => 3 case 3 => 3 case _ => 5)
    else if s[0] == ':' && state == 1 then SnapshotShape(s[1..], 2)
    else if s[0] == ':' && state == 3 then SnapshotShape(s[1..], 4)
    else s[0] == ',' && state == 5 && SnapshotShape(s[1..], 6)
  }

  /** The parts of the runtime the cursor relies on. */
  datatype Runtime = Runtime(
    hmac: (string, string) -> seq<Byte>,
    fromJson: seq<Byte> -> Option<AssetCursor>,
    isDate: string -> bool)

  const MAX_SAFE_INTEGER := 9007199254740991

  predicate Valid(rt: Runtime, c: AssetCursor) {
    && c.version == 2
    && |c.scope| == 64
    && |c.insertionSnapshot| <= 4096 && SnapshotShape(c.insertionSnapshot, 0)
    && 20 <= |c.snapshotAt| <= 64 && rt.isDate(c.snapshotAt)
    && 0 < c.expiresAt <= MAX_SAFE_INTEGER
    && (c.boundary.Some? ==>
          && 1 <= |c.boundary.value.id| <= 64
          && (c.boundary.value.value.Some? ==> |c.boundary.value.value.value| <= 4096))
  }

  /** Signatures are 32 bytes long, and a valid cursor is read back from its JSON text. */
  ghost predicate Sound(rt: Runtime) {
    && (forall s, p :: |rt.hmac(s, p)| == SIGNATURE_BYTES)
    && (forall c :: Valid(rt, c) ==> rt.fromJson(JsonText(c)) == Some(c))
  }

  // The snapshot text without the automaton.

  predicate AllDigits(s: string) { forall i :: 0 <= i < |s| ==> s[i] in "0123456789" }

  /** A digit, or a comma between digits. */
  predicate ListAt(s: string, i: nat)
    requires i < |s|
  {
    || s[i] in "0123456789"
    || (s[i] == ',' && 0 < i < |s| - 1 && s[i - 1] in "0123456789" && s[i + 1] in "0123456789")
  }

  predicate NumberList(s: string) { forall i :: 0 <= i < |s| ==> ListAt(s, i) }

  /** Two numbers and a list of numbers, which may be empty, with colons between them. */
  ghost predicate SnapshotText(s: string) {
    exists a, b, c :: && s == a + ":" + (b + ":" + c) && a != "" && AllDigits(a) && b != "" && AllDigits(b)
                      && NumberList(c)
  }

  lemma DigitIs(c: char)
    ensures IsDigit(c) <==> c in "0123456789"
  {
    var digits := "0123456789";
    if IsDigit(c) { assert digits[(c - '0') as int] == c; }
  }

  /** What may follow a digit of a list. */
  predicate TailAt(s: string, i: nat)
    requires i < |s|
  {
    s[i] in "0123456789" || (s[i] == ',' && i < |s| - 1 && s[i + 1] in "0123456789")
  }

  predicate ListTail(s: string) { forall i :: 0 <= i < |s| ==> TailAt(s, i) }

  lemma ListTailCons(s: string)
    requires s != ""
    ensures ListTail(s) <==> TailAt(s, 0) && ListTail(s[1..])
  {
    forall i | 0 < i < |s| ensures TailAt(s, i) <==> TailAt(s[1..], i - 1) {}
    if ListTail(s) {
      forall i | 0 <= i < |s[1..]| ensures TailAt(s[1..], i) { assert TailAt(s, i + 1); }
    }
    hide TailAt;
  }

  lemma {:induction false} TailShape(s: string)
    ensures SnapshotShape(s, 5) <==> ListTail(s)
    ensures SnapshotShape(s, 6) <==> s != "" && s[0] in "0123456789" && ListTail(s[1..])
  {
    if s != "" {
      TailShape(s[1..]);
      DigitIs(s[0]);
      if |s| > 1 { DigitIs(s[1]); }
      ListTailCons(s);
      hide ListTail, IsDigit;
    }
  }

  lemma ListIs(s: string)
    ensures SnapshotShape(s, 4) <==> NumberList(s)
  {
    if s != "" {
      TailShape(s[1..]);
      DigitIs(s[0]);
      assert SnapshotShape(s, 4) <==> s[0] in "0123456789" && ListTail(s[1..]);
      hide SnapshotShape, IsDigit;
      if s[0] in "0123456789" && ListTail(s[1..]) {
        forall i | 0 < i < |s| ensures TailAt(s, i) { assert TailAt(s[1..], i - 1); }
        forall i | 0 <= i < |s| ensures ListAt(s, i) { if i > 1 { assert TailAt(s, i) && TailAt(s, i - 1); } }
      }
      if NumberList(s) {
        assert ListAt(s, 0);
        forall i | 0 <= i < |s[1..]| ensures TailAt(s[1..], i) {
          assert ListAt(s, i + 1);
        }
      }
    }
  }

  /** Digits up to a colon, and the rest read in the next state. */
  ghost predicate NumberThen(s: string, d: string, rest: string, state: nat) {
    AllDigits(d) && s == d + ":" + rest && SnapshotShape(rest, state)
  }

  lemma {:induction false} NumberShape(s: string, state: nat, next: nat)
    requires (state, next) in {(1, 2), (3, 4)}
    ensures SnapshotShape(s, state) <==> exists d, rest :: NumberThen(s, d, rest, next)
  {
    if s != "" {
      DigitIs(s[0]);
      NumberShape(s[1..], state, next);
      if SnapshotShape(s, state) {
        if IsDigit(s[0]) {
          var d, rest :| NumberThen(s[1..], d, rest, next);
          assert s == [s[0]] + d + ":" + rest;
          assert NumberThen(s, [s[0]] + d, rest, next);
        } else {
          assert s == "" + ":" + s[1..];
          assert NumberThen(s, "", s[1..], next);
        }
      }
      if d, rest :| NumberThen(s, d, rest, next) {
        if d == "" {
          assert s[0] == ':' && s[1..] == rest;
        } else {
          assert s[0] == d[0] && s[1..] == d[1..] + ":" + rest;
          assert NumberThen(s[1..], d[1..], rest, next);
        }
      }
    }
  }

  lemma FirstDigit(s: string, state: nat, next: nat)
    requires (state, next) in {(0, 2), (2, 4)}
    ensures SnapshotShape(s, state) <==> exists d, rest :: d != "" && NumberThen(s, d, rest, next)
  {
    if s != "" {
      DigitIs(s[0]);
      NumberShape(s[1..], state + 1, next);
      if SnapshotShape(s, state) {
        var d, rest :| NumberThen(s[1..], d, rest, next);
        assert s == [s[0]] + d + ":" + rest;
        assert NumberThen(s, [s[0]] + d, rest, next);
      }
      if d, rest :| d != "" && NumberThen(s, d, rest, next) {
        assert s[0] == d[0] && s[1..] == d[1..] + ":" + rest;
        assert NumberThen(s[1..], d[1..], rest, next);
      }
    }
  }

  /** The automaton recognises exactly the text form of a snapshot. */
  lemma SnapshotShapeIs(s: string)
    ensures SnapshotShape(s, 0) <==> SnapshotText(s)
  {
    FirstDigit(s, 0, 2);
    if SnapshotShape(s, 0) {
      var a, rest :| a != "" && NumberThen(s, a, rest, 2);
      FirstDigit(rest, 2, 4);
      var b, c :| b != "" && NumberThen(rest, b, c, 4);
      ListIs(c);
      hide SnapshotShape;
      assert s == a + ":" + (b + ":" + c);
    }
    if SnapshotText(s) {
      var a, b, c :| && s == a + ":" + (b + ":" + c) && a != "" && AllDigits(a) && b != "" && AllDigits(b)
                     && NumberList(c);
      ListIs(c);
      FirstDigit(b + ":" + c, 2, 4);
      hide SnapshotShape;
      assert NumberThen(b + ":" + c, b, c, 4);
      assert NumberThen(s, a, b + ":" + c, 2);
    }
  }

  ghost function ReadBack(rt: Runtime, bytes: seq<Byte>): Option<AssetCursor> {
    if exists c :: Valid(rt, c) && JsonText(c) == bytes then
      var c :| Valid(rt, c) && JsonText(c) == bytes;
      Some(c)
    else None
  }

  /** Whatever signs and reads dates, there is a sound runtime: no two valid cursors share their JSON text. */
  lemma SoundRuntimeExists(hmac: (string, string) -> seq<Byte>, isDate: string -> bool) returns (rt: Runtime)
    requires forall s, p :: |hmac(s, p)| == SIGNATURE_BYTES
    ensures Sound(rt) && rt.hmac == hmac && rt.isDate == isDate
  {
    var reader := Runtime(hmac, (_: seq<Byte>) => None, isDate);
    rt := Runtime(hmac, (bytes: seq<Byte>) => ReadBack(reader, bytes), isDate);
    forall c | Valid(rt, c) ensures rt.fromJson(JsonText(c)) == Some(c) {
      hide JsonText, SnapshotShape;
      assert Valid(reader, c);
      var d := ReadBack(reader, JsonText(c)).value;
      JsonDiffers(c, d);
    }
  }

  lemma {:induction false} SnapshotIsPlain(s: string, state: nat)
    requires SnapshotShape(s, state)
    ensures forall x :: x in s ==> Plain(x)
  {
    if s != "" {
      var next :| SnapshotShape(s[1..], next);
      SnapshotIsPlain(s[1..], next);
      assert s == [s[0]] + s[1..];
    }
  }

  /** The JSON text of a valid cursor has at least one byte for each character of its snapshot and boundary value, and
      at most one for each character of the snapshot, six for each other character and 126 for the rest. */
  lemma CursorLength(rt: Runtime, c: AssetCursor)
    requires Valid(rt, c)
    ensures |c.insertionSnapshot| + |BoundaryText(c)| < |JsonText(c)|
    ensures |JsonText(c)| <= 126 + |c.insertionSnapshot|
                             + 6 * (|c.scope| + |c.snapshotAt| + |BoundaryId(c)| + |BoundaryText(c)|)
  {
    SnapshotIsPlain(c.insertionSnapshot, 0);
    assert Power10(16) > MAX_SAFE_INTEGER by { Power10Sum(8, 8); }
    hide JsonText, SnapshotShape, BoundaryText, BoundaryId, Power10;
    JsonLength(c, 16);
  }

  // ---------------------------------------------------------------------
  // Encoding and decoding
  // ---------------------------------------------------------------------

  function Payload(c: AssetCursor): string { Encode64(JsonText(c)) }

  function EncodeAssetCursor(rt: Runtime, c: AssetCursor, secret: string): Result<string, string> {
    if !Valid(rt, c) then Err(SCHEMA)
    else Ok(Payload(c) + "." + Encode64(rt.hmac(secret, Payload(c))))
  }

  function DecodeAssetCursor(rt: Runtime, token: string, scope: string, secret: string, now: int)
    : Result<AssetCursor, string> {
    if |token| > TOKEN_LIMIT then Err(INVALID)
    else
      var parts := Split(token);
      if |parts| != 2 || parts[0] == "" || parts[1] == "" || !AllInAlphabet(parts[0]) || !AllInAlphabet(parts[1])
      then Err(INVALID)
      else if Decode64(parts[1]) != rt.hmac(secret, parts[0]) then Err(INVALID)
      else match rt.fromJson(Decode64(parts[0]))
        case None => Err(INVALID)
        case Some(c) => if !Valid(rt, c) || c.scope != scope || c.expiresAt <= now then Err(INVALID) else Ok(c)
  }

  lemma AlphabetHasNoDot(s: string)
    requires AllInAlphabet(s)
    ensures NoDot(s)
  {}

  /** An encoded token consists of exactly two non-empty base64url parts. */
  lemma TokenSplits(rt: Runtime, c: AssetCursor, secret: string)
    requires Sound(rt) && Valid(rt, c)
    ensures var payload := Payload(c);
            var signature := Encode64(rt.hmac(secret, payload));
            var token := EncodeAssetCursor(rt, c, secret).value;
            && Split(token) == [payload, signature]
            && payload != "" && AllInAlphabet(payload) && |signature| == 43 && AllInAlphabet(signature)
            && |token| == EncodedLength(|JsonText(c)|) + 44
  {
    var payload := Payload(c);
    var mac := rt.hmac(secret, payload);
    CursorLength(rt, c);
    hide JsonText, SnapshotShape, Encode64, Decode64, Split, AllInAlphabet, NoDot;
    assert |mac| == SIGNATURE_BYTES;
    Base64RoundTrip(JsonText(c));
    Base64RoundTrip(mac);
    Base64Length(JsonText(c));
    Base64Length(mac);
    AlphabetHasNoDot(payload);
    AlphabetHasNoDot(Encode64(mac));
    SplitAtDot(payload, Encode64(mac));
  }

  /** An encoded cursor is accepted exactly when its JSON text fits, the signature agrees, the scope is the
      one asked for and it has not expired; and then it is the encoded cursor. */
  lemma DecodeOfEncoded(rt: Runtime, c: AssetCursor, secret: string, scope: string, checkSecret: string, now: int)
    requires Sound(rt) && Valid(rt, c)
    ensures var d := DecodeAssetCursor(rt, EncodeAssetCursor(rt, c, secret).value, scope, checkSecret, now);
            var payload := Payload(c);
            && (d.Ok? ==> d.value == c)
            && (d.Ok? <==> |JsonText(c)| <= JSON_LIMIT && rt.hmac(checkSecret, payload) == rt.hmac(secret, payload)
                           && scope == c.scope && now < c.expiresAt)
  {
    TokenSplits(rt, c, secret);
    Base64RoundTrip(JsonText(c));
    Base64RoundTrip(rt.hmac(secret, Payload(c)));
    hide JsonText, Encode64, Decode64, Split, Valid, AllInAlphabet;
    assert |EncodeAssetCursor(rt, c, secret).value| <= TOKEN_LIMIT <==> |JsonText(c)| <= JSON_LIMIT;
  }

  /** The round trip holds for every live cursor whose JSON text has at most 6111 bytes, and for no longer one. */
  lemma RoundTrip(rt: Runtime, c: AssetCursor, secret: string, now: int)
    requires Sound(rt) && Valid(rt, c) && now < c.expiresAt
    ensures DecodeAssetCursor(rt, EncodeAssetCursor(rt, c, secret).value, c.scope, secret, now) == Ok(c)
            <==> |JsonText(c)| <= JSON_LIMIT
  {
    DecodeOfEncoded(rt, c, secret, c.scope, secret, now);
  }

  function Repeat(c: char, n: nat): (s: string)
    ensures |s| == n
    ensures forall k :: 0 <= k < n ==> s[k] == c
  {
    if n == 0 then "" else [c] + Repeat(c, n - 1)
  }

  lemma {:induction false} DigitsKeepShape(n: nat)
    ensures SnapshotShape(Repeat('1', n), 5)
  {
    if n > 0 {
      assert Repeat('1', n)[1..] == Repeat('1', n - 1);
      DigitsKeepShape(n - 1);
    }
  }

  /** A snapshot text of the greatest admitted length. */
  function LongSnapshot(): string { "1:1:" + Repeat('1', 4092) }

  lemma LongSnapshotIsAdmitted()
    ensures |LongSnapshot()| == 4096 && SnapshotShape(LongSnapshot(), 0)
  {
    var s := LongSnapshot();
    var digits := Repeat('1', 4092);
    DigitsKeepShape(4091);
    assert digits[1..] == Repeat('1', 4091);
    assert s[4..] == digits;
    assert s[1..][1..][1..][1..] == digits;
    assert SnapshotShape(digits, 4);
    assert SnapshotShape(s[1..][1..][1..], 3);
    assert SnapshotShape(s[1..][1..], 2);
    assert SnapshotShape(s[1..], 1);
  }

  /** Give any valid live cursor a snapshot and a boundary value of the greatest admitted lengths: it is still valid and
      is encoded, but its token is refused. */
  lemma LongCursorIsRefused(rt: Runtime, c: AssetCursor, secret: string, now: int)
    requires Sound(rt) && Valid(rt, c) && now < c.expiresAt
    ensures var boundary := Some(Boundary("a", Some(Repeat('x', 4096))));
            var long := c.(insertionSnapshot := LongSnapshot(), boundary := boundary);
            && Valid(rt, long) && EncodeAssetCursor(rt, long, secret).Ok?
            && DecodeAssetCursor(rt, EncodeAssetCursor(rt, long, secret).value, long.scope, secret, now) == Err(INVALID)
  {
    LongSnapshotIsAdmitted();
    hide JsonText, SnapshotShape, LongSnapshot, Repeat;
    var long := c.(insertionSnapshot := LongSnapshot(), boundary := Some(Boundary("a", Some(Repeat('x', 4096)))));
    assert Valid(rt, long);
    CursorLength(rt, long);
    RefusalIsInvalid(rt, EncodeAssetCursor(rt, long, secret).value, long.scope, secret, now);
    RoundTrip(rt, long, secret, now);
    DecodeOfEncoded(rt, long, secret, long.scope, secret, now);
  }

  /** What is accepted is exactly a token of at most 8192 characters that the server has signed: two non-empty base64url
      texts, the second the signature of the first, which reads as a valid cursor of the scope that has not expired. */
  ghost predicate Accepts(rt: Runtime, token: string, scope: string, secret: string, now: int, c: AssetCursor,
                          payload: string, signature: string)
  {
    && |token| <= 8192 && token == payload + "." + signature
    && payload != "" && signature != "" && AllInAlphabet(payload) && AllInAlphabet(signature)
    && Decode64(signature) == rt.hmac(secret, payload) && rt.fromJson(Decode64(payload)) == Some(c)
    && Valid(rt, c) && c.scope == scope && now < c.expiresAt
  }

  lemma SplitCons(s: string)
    requires s != ""
    ensures Split(s) == if s[0] == '.' then [""] + Split(s[1..])
                        else [[s[0]] + Split(s[1..])[0]] + Split(s[1..])[1..]
  {}

  lemma {:induction false} SplitInOne(s: string, p: string)
    requires Split(s) == [p]
    ensures s == p
  {
    if s != "" {
      SplitCons(s);
      var rest := Split(s[1..]);
      hide Split;
      assert Split(s)[0] == p && |Split(s)| == 1;
      assert rest == [rest[0]] && p == [s[0]] + rest[0];
      SplitInOne(s[1..], rest[0]);
    }
  }

  lemma {:induction false} SplitInTwo(s: string, p: string, q: string)
    requires Split(s) == [p, q]
    ensures s == p + "." + q
  {
    assert s != "";
    SplitCons(s);
    var rest := Split(s[1..]);
    hide Split;
    assert Split(s)[0] == p && Split(s)[1] == q && |Split(s)| == 2;
    if s[0] == '.' {
      assert rest == [q];
      SplitInOne(s[1..], q);
    } else {
      assert rest == [rest[0], q] && p == [s[0]] + rest[0];
      SplitInTwo(s[1..], rest[0], q);
    }
  }

  lemma DecodeAcceptsExactly(rt: Runtime, token: string, scope: string, secret: string, now: int, c: AssetCursor)
    ensures DecodeAssetCursor(rt, token, scope, secret, now) == Ok(c) <==>
            exists payload, signature :: Accepts(rt, token, scope, secret, now, c, payload, signature)
  {
    if DecodeAssetCursor(rt, token, scope, secret, now) == Ok(c) {
      var parts := Split(token);
      hide Valid, Decode64, Split, AllInAlphabet;
      assert parts == [parts[0], parts[1]];
      SplitInTwo(token, parts[0], parts[1]);
      assert Accepts(rt, token, scope, secret, now, c, parts[0], parts[1]);
    }
    hide Valid, Decode64, Split;
    if payload, signature :| Accepts(rt, token, scope, secret, now, c, payload, signature) {
      AlphabetHasNoDot(payload);
      AlphabetHasNoDot(signature);
      hide AllInAlphabet;
      SplitAtDot(payload, signature);
    }
  }

  lemma RefusalIsInvalid(rt: Runtime, token: string, scope: string, secret: string, now: int)
    ensures var d := DecodeAssetCursor(rt, token, scope, secret, now); d.Err? ==> d.error == INVALID
  {
    hide Split, Valid, AllInAlphabet, Decode64;
  }

  // ---------------------------------------------------------------------
  // The scope digest
  // ---------------------------------------------------------------------

  datatype Filter = Scalar(text: string) | Listed(texts: seq<string>)

  const NAVIGATION: set<string> := {"page", "cursor", "pagination", "includeTotal"}

  /** Lists lose duplicates and order. */
  function Tidy(lt: (string, string) -> bool, f: Filter): Filter
    requires StrictTotal(lt)
  {
    match f
    case Scalar(_) => f
    case Listed(texts) => Listed(SetToSeq(lt, Elements(texts)))
  }

  function Canonical(lt: (string, string) -> bool, filters: map<string, Filter>): map<string, Filter>
    requires StrictTotal(lt)
  {
    map k | k in filters && k !in NAVIGATION :: Tidy(lt, filters[k])
  }

  /** Rewrites the list entries of a private copy one key at a time, then digests it. */
  method AssetCursorScope(lt: (string, string) -> bool, digest: (string, map<string, Filter>) -> string,
                          actorId: string, filters: map<string, Filter>) returns (scope: string)
    requires StrictTotal(lt)
    ensures scope == digest(actorId, Canonical(lt, filters))
  {
    var local := map k | k in filters && k !in NAVIGATION :: filters[k];
    var keys := local.Keys;
    while keys != {}
      invariant keys <= local.Keys
      invariant local.Keys == filters.Keys - NAVIGATION
      invariant forall k :: k in local ==> local[k] == if k in keys then filters[k] else Tidy(lt, filters[k])
      decreases |keys|
    {
      var key :| key in keys;
      if local[key].Listed? {
        local := local[key := Listed(SetToSeq(lt, Elements(local[key].texts)))];
      }
      keys := keys - {key};
    }
    assert local == Canonical(lt, filters);
    return digest(actorId, local);
  }

  predicate SameFilter(f: Filter, g: Filter) {
    || (f.Scalar? && g.Scalar? && f.text == g.text)
    || (f.Listed? && g.Listed? && Elements(f.texts) == Elements(g.texts))
  }

  /** Equal up to navigation keys, and up to order and repetition inside lists. */
  ghost predicate SameFilters(f: map<string, Filter>, g: map<string, Filter>) {
    forall k :: k !in {"page", "cursor", "pagination", "includeTotal"} ==>
      (k in f <==> k in g) && (k in f ==> SameFilter(f[k], g[k]))
  }

  lemma TidyExact(lt: (string, string) -> bool, f: Filter, g: Filter)
    requires StrictTotal(lt)
    ensures Tidy(lt, f) == Tidy(lt, g) <==> SameFilter(f, g)
  {
    if f.Listed? && g.Listed? && Tidy(lt, f) == Tidy(lt, g) {
      forall x ensures x in Elements(f.texts) <==> x in Elements(g.texts) {
        assert x in Elements(f.texts) <==> x in Tidy(lt, f).texts;
        assert x in Elements(g.texts) <==> x in Tidy(lt, g).texts;
      }
    }
  }

  lemma CanonicalExact(lt: (string, string) -> bool, f: map<string, Filter>, g: map<string, Filter>)
    requires StrictTotal(lt)
    ensures Canonical(lt, f) == Canonical(lt, g) <==> SameFilters(f, g)
  {
    var cf, cg := Canonical(lt, f), Canonical(lt, g);
    assert NAVIGATION == {"page", "cursor", "pagination", "includeTotal"};
    forall k
      ensures k in cf <==> k in f && k !in {"page", "cursor", "pagination", "includeTotal"}
      ensures k in cg <==> k in g && k !in {"page", "cursor", "pagination", "includeTotal"}
      ensures k in cf && k in cg ==> (cf[k] == cg[k] <==> SameFilter(f[k], g[k]))
    {
      if k in cf && k in cg { TidyExact(lt, f[k], g[k]); }
    }
    hide Canonical, SameFilter, Tidy;
    if SameFilters(f, g) { assert cf.Keys == cg.Keys; }
  }

  /** With an injective digest, two requests share a scope exactly when the same actor asks for the same filters. */
  lemma ScopeBinds(lt: (string, string) -> bool, digest: (string, map<string, Filter>) -> string,
                   actor: string, f: map<string, Filter>, other: string, g: map<string, Filter>)
    requires StrictTotal(lt)
    requires forall a, b, x, y :: digest(a, x) == digest(b, y) ==> a == b && x == y
    ensures digest(actor, Canonical(lt, f)) == digest(other, Canonical(lt, g)) <==> actor == other && SameFilters(f, g)
  {
    CanonicalExact(lt, f, g);
  }
}
