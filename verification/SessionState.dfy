/**
 Session state travels as standard base64 (sections 3.5 and 4 of RFC 4648). The front end checks the
 text without decoding it (sessionState.ts); the worker decodes strictly and encodes again
 (handlers_session_state.go). Both must accept the same texts.
 */
module SessionState {
  import opened Common

  const FRAME_BYTES: nat := 32 * 1024 * 1024
  const MAX_BYTES: nat := FRAME_BYTES * 3 / 4 - 64 * 1024
  const MAX_BASE64: nat := (MAX_BYTES + 2) / 3 * 4

  /** Text as code units: UTF-16 in the front end, bytes in the worker. */
  type Text = seq<nat>

  const PAD: nat := 61
  const CR: nat := 13
  const LF: nat := 10

  function Sextet(c: nat): (v: int)
    ensures -1 <= v < 64
  {
    if 65 <= c <= 90 then c - 65
    else if 97 <= c <= 122 then c - 71
    else if 48 <= c <= 57 then c + 4
    else if c == 43 then 62
    else if c == 47 then 63
    else -1
  }

  function Symbol(v: int): (c: nat)
    requires 0 <= v < 64
    ensures Sextet(c) == v && c != PAD && c != CR && c != LF && c < 128
  {
    if v < 26 then v + 65 else if v < 52 then v + 71 else if v < 62 then v - 4 else if v == 62 then 43 else 47
  }

  lemma SymbolOfSextet(c: nat)
    requires Sextet(c) >= 0
    ensures Symbol(Sextet(c)) == c
  {
  }

  /** Table 1 of RFC 4648: capital letters, small letters, digits, plus and slash, and nothing else is a symbol. */
  lemma SymbolsAreTheAlphabet(v: int, c: nat)
    requires 0 <= v < 64
    ensures v < 26 ==> Symbol(v) == 'A' as int + v
    ensures 26 <= v < 52 ==> Symbol(v) == 'a' as int + (v - 26)
    ensures 52 <= v < 62 ==> Symbol(v) == '0' as int + (v - 52)
    ensures Symbol(62) == '+' as int && Symbol(63) == '/' as int
    ensures Sextet(c) == v <==> c == Symbol(v)
    ensures Sextet(c) == -1 <==> forall w :: 0 <= w < 64 ==> c != Symbol(w)
  {
    if Sextet(c) >= 0 {
      SymbolOfSextet(c);
    }
  }

  // Encoding and strict decoding ----------------------------------------------------------------

  function Quantum(a: int, b: int, c: int): (q: Text)
    requires 0 <= a < 256 && 0 <= b < 256 && 0 <= c < 256
    ensures |q| == 4
  {
    [Symbol(a / 4), Symbol(a % 4 * 16 + b / 16), Symbol(b % 16 * 4 + c / 64), Symbol(c % 64)]
  }

  /** Three bytes and their four symbols are the same 24-bit number, most significant first. */
  lemma QuantumIsNumber(a: int, b: int, c: int)
    requires 0 <= a < 256 && 0 <= b < 256 && 0 <= c < 256
    ensures var q := Quantum(a, b, c);
            Sextet(q[0]) * 0x40000 + Sextet(q[1]) * 0x1000 + Sextet(q[2]) * 0x40 + Sextet(q[3]) ==
            a * 0x10000 + b * 0x100 + c
  {
    assert a == a / 4 * 4 + a % 4 && b == b / 16 * 16 + b % 16 && c == c / 64 * 64 + c % 64;
  }

  function Encode(bytes: Bytes): (text: Text)
    ensures |text| == (|bytes| + 2) / 3 * 4
  {
    if |bytes| == 0 then []
    else if |bytes| == 1 then Quantum(bytes[0] as int, 0, 0)[..2] + [PAD, PAD]
    else if |bytes| == 2 then Quantum(bytes[0] as int, bytes[1] as int, 0)[..3] + [PAD]
    else Quantum(bytes[0] as int, bytes[1] as int, bytes[2] as int) + Encode(bytes[3..])
  }

  predicate Plain(q: Text) {
    forall i :: 0 <= i < |q| ==> Sextet(q[i]) >= 0
  }

  function Three(q: Text): Bytes
    requires |q| == 4 && Plain(q)
  {
    var a, b, c, d := Sextet(q[0]), Sextet(q[1]), Sextet(q[2]), Sextet(q[3]);
    [(a * 4 + b / 16) as byte, (b % 16 * 16 + c / 4) as byte, (c % 4 * 64 + d) as byte]
  }

  /** The last four symbols; the bits that padding leaves over must be zero. */
  function DecodeLast(q: Text): Option<Bytes>
    requires |q| == 4
  {
    var a, b, c := Sextet(q[0]), Sextet(q[1]), Sextet(q[2]);
    if q[3] != PAD then (if Plain(q) then Some(Three(q)) else None)
    else if a < 0 || b < 0 then None
    else if q[2] == PAD then
      if b % 16 == 0 then Some([(a * 4 + b / 16) as byte]) else None
    else if c >= 0 && c % 4 == 0 then
      Some([(a * 4 + b / 16) as byte, (b % 16 * 16 + c / 4) as byte])
    else None
  }

  function Decode(text: Text): Option<Bytes> {
    if |text| == 0 then Some([])
    else if |text| < 4 then None
    else if |text| == 4 then DecodeLast(text)
    else if !Plain(text[..4]) then None
    else match Decode(text[4..])
      case None => None
      case Some(rest) => Some(Three(text[..4]) + rest)
  }

  lemma {:induction false} DecodeEncode(bytes: Bytes)
    ensures Decode(Encode(bytes)) == Some(bytes)
  {
    if |bytes| == 0 {
    } else if |bytes| == 1 {
      assert bytes == [bytes[0]];
      OneByte(bytes[0]);
    } else if |bytes| == 2 {
      assert bytes == [bytes[0], bytes[1]];
      TwoBytes(bytes[0], bytes[1]);
    } else {
      var q, rest := Quantum(bytes[0] as int, bytes[1] as int, bytes[2] as int), bytes[3..];
      QuantumPlain(bytes[0], bytes[1], bytes[2]);
      DecodeEncode(rest);
      assert bytes == [bytes[0], bytes[1], bytes[2]] + rest;
      DecodeAfter(q, Encode(rest), rest);
    }
  }

  lemma DecodeAfter(q: Text, text: Text, rest: Bytes)
    requires |q| == 4 && Plain(q) && Decode(text) == Some(rest) && (|text| > 0 ==> |text| >= 4)
    ensures Decode(q + text) == Some(Three(q) + rest)
  {
    if |text| == 0 {
      assert q + text == q && Three(q) + rest == Three(q);
      assert Sextet(q[3]) >= 0;
    } else {
      assert (q + text)[..4] == q && (q + text)[4..] == text;
    }
  }

  lemma OneByte(a: byte)
    ensures Decode(Encode([a])) == Some([a])
  {
    var n := a as int;
    assert Encode([a]) == [Symbol(n / 4), Symbol(n % 4 * 16), PAD, PAD];
    assert n / 4 * 4 + n % 4 * 16 / 16 == n;
  }

  lemma TwoBytes(a: byte, b: byte)
    ensures Decode(Encode([a, b])) == Some([a, b])
  {
    var n, m := a as int, b as int;
    var x, y, z := n / 4, n % 4 * 16 + m / 16, m % 16 * 4;
    assert Encode([a, b]) == [Symbol(x), Symbol(y), Symbol(z), PAD];
    assert x * 4 + y / 16 == n && y % 16 * 16 + z / 4 == m && z % 4 == 0;
  }

  lemma QuantumPlain(a: byte, b: byte, c: byte)
    ensures Plain(Quantum(a as int, b as int, c as int))
    ensures Three(Quantum(a as int, b as int, c as int)) == [a, b, c]
  {
    var x, y, z := a as int, b as int, c as int;
    var q := Quantum(x, y, z);
    assert Sextet(q[0]) == x / 4 && Sextet(q[1]) == x % 4 * 16 + y / 16;
    assert Sextet(q[2]) == y % 16 * 4 + z / 64 && Sextet(q[3]) == z % 64;
    SextetsBack(x, y, z);
  }

  lemma SextetsBack(x: int, y: int, z: int)
    requires 0 <= x < 256 && 0 <= y < 256 && 0 <= z < 256
    ensures x / 4 * 4 + (x % 4 * 16 + y / 16) / 16 == x
    ensures (x % 4 * 16 + y / 16) % 16 * 16 + (y % 16 * 4 + z / 64) / 4 == y
    ensures (y % 16 * 4 + z / 64) % 4 * 64 + z % 64 == z
  {
  }

  /** Strict decoding accepts nothing but encodings. */
  lemma {:induction false} EncodeDecode(text: Text)
    requires Decode(text).Some?
    ensures Encode(Decode(text).value) == text
  {
    if |text| == 4 {
      EncodeLast(text);
    } else if |text| > 4 {
      EncodeDecode(text[4..]);
      EncodeThree(text[..4], Decode(text[4..]).value);
      assert text == text[..4] + text[4..];
    }
  }

  lemma EncodeThree(q: Text, rest: Bytes)
    requires |q| == 4 && Plain(q)
    ensures Encode(Three(q) + rest) == q + Encode(rest)
  {
    var a, b, c, d := Sextet(q[0]), Sextet(q[1]), Sextet(q[2]), Sextet(q[3]);
    var x, y, z := a * 4 + b / 16, b % 16 * 16 + c / 4, c % 4 * 64 + d;
    var bytes := Three(q) + rest;
    assert bytes[0] as int == x && bytes[1] as int == y && bytes[2] as int == z && bytes[3..] == rest;
    SextetsOut(a, b, c, d);
    SymbolOfSextet(q[0]);
    SymbolOfSextet(q[1]);
    SymbolOfSextet(q[2]);
    SymbolOfSextet(q[3]);
    assert Quantum(x, y, z) == q;
  }

  lemma SextetsOut(a: int, b: int, c: int, d: int)
    requires 0 <= a < 64 && 0 <= b < 64 && 0 <= c < 64 && 0 <= d < 64
    ensures (a * 4 + b / 16) / 4 == a && (a * 4 + b / 16) % 4 * 16 + (b % 16 * 16 + c / 4) / 16 == b
    ensures (b % 16 * 16 + c / 4) % 16 * 4 + (c % 4 * 64 + d) / 64 == c && (c % 4 * 64 + d) % 64 == d
  {
  }

  lemma EncodeLast(q: Text)
    requires |q| == 4 && DecodeLast(q).Some?
    ensures Encode(DecodeLast(q).value) == q
  {
    if q[3] != PAD {
      EncodeThree(q, []);
      assert Three(q) + [] == Three(q) && q + Encode([]) == q;
    } else {
      SymbolOfSextet(q[0]);
      SymbolOfSextet(q[1]);
      EncodePadded(q);
    }
  }

  lemma EncodePadded(q: Text)
    requires |q| == 4 && DecodeLast(q).Some? && q[3] == PAD
    requires Symbol(Sextet(q[0])) == q[0] && Symbol(Sextet(q[1])) == q[1]
    ensures Encode(DecodeLast(q).value) == q
  {
    var a, b := Sextet(q[0]), Sextet(q[1]);
    if q[2] == PAD {
      var n := a * 4 + b / 16;
      assert n / 4 == a && n % 4 * 16 == b;
      assert Encode([n as byte]) == [Symbol(a), Symbol(b), PAD, PAD];
    } else {
      var c := Sextet(q[2]);
      SymbolOfSextet(q[2]);
      var n, m := a * 4 + b / 16, b % 16 * 16 + c / 4;
      assert n / 4 == a && n % 4 * 16 + m / 16 == b && m % 16 * 4 == c;
      assert Encode([n as byte, m as byte]) == [Symbol(a), Symbol(b), Symbol(c), PAD];
    }
  }

  // The front end's check -----------------------------------------------------------------------

  function Padding(text: Text): nat {
    var n := |text|;
    if n >= 2 && text[n - 1] == PAD && text[n - 2] == PAD then 2 else if n >= 1 && text[n - 1] == PAD then 1 else 0
  }

  /** What the loop establishes, said of the whole text: symbols up to the padding, no bits left over. */
  predicate Canonical(text: Text) {
    var p := Padding(text);
    var content := |text| - p;
    |text| % 4 == 0 && Plain(text[..content]) &&
    (p == 2 ==> content > 0 && Sextet(text[content - 1]) % 16 == 0) &&
    (p == 1 ==> content > 0 && Sextet(text[content - 1]) % 4 == 0)
  }

  function CheckedLength(value: Text): Option<nat> {
    if Canonical(value) && |value| / 4 * 3 - Padding(value) <= MAX_BYTES
    then Some(|value| / 4 * 3 - Padding(value)) else None
  }

  method SessionStateBase64ByteLength(value: Text) returns (length: Option<nat>)
    ensures length == CheckedLength(value)
  {
    if |value| > MAX_BASE64 || |value| % 4 != 0 {
      return None;
    }
    var padding := Padding(value);
    var byteLength := |value| / 4 * 3 - padding;
    if byteLength > MAX_BYTES {
      return None;
    }
    var contentLength := |value| - padding;
    var trailingSextet := 0;
    for index := 0 to contentLength
      invariant Plain(value[..index])
      invariant index > 0 ==> trailingSextet == Sextet(value[index - 1])
      invariant index == 0 ==> trailingSextet == 0
      invariant trailingSextet >= 0
    {
      trailingSextet := Sextet(value[index]);
      if trailingSextet < 0 {
        assert !Plain(value[..contentLength]) by { assert value[..contentLength][index] == value[index]; }
        return None;
      }
      assert value[..index + 1] == value[..index] + [value[index]];
    }
    if padding == 2 && trailingSextet % 16 != 0 {
      return None;
    }
    if padding == 1 && trailingSextet % 4 != 0 {
      return None;
    }
    return Some(byteLength);
  }

  /** Checking the whole text is checking it four symbols at a time. */
  lemma CanonicalSplits(text: Text)
    requires |text| > 4
    ensures Canonical(text) <==> Plain(text[..4]) && Canonical(text[4..])
    ensures |text| >= 8 ==> Padding(text) == Padding(text[4..])
  {
    if |text| >= 8 {
      var rest, content := text[4..], |text| - Padding(text);
      assert text[..content] == text[..4] + rest[..content - 4];
      assert rest[content - 4 - 1] == text[content - 1];
      PlainSplits(text[..4], rest[..content - 4]);
    }
  }

  lemma PlainSplits(a: Text, b: Text)
    ensures Plain(a + b) <==> Plain(a) && Plain(b)
  {
    assert forall i :: 0 <= i < |a| ==> (a + b)[i] == a[i];
    assert forall i :: 0 <= i < |b| ==> b[i] == (a + b)[|a| + i];
  }

  /** The check accepts exactly what strict decoding accepts, and computes the decoded length. */
  lemma {:induction false} CanonicalIffDecodes(text: Text)
    ensures Canonical(text) <==> Decode(text).Some?
    ensures Canonical(text) ==> |Decode(text).value| == |text| / 4 * 3 - Padding(text)
  {
    if |text| == 4 {
      LastCanonical(text);
    } else if |text| > 4 {
      CanonicalSplits(text);
      CanonicalIffDecodes(text[4..]);
    }
  }

  lemma LastCanonical(q: Text)
    requires |q| == 4
    ensures Canonical(q) <==> DecodeLast(q).Some?
    ensures Canonical(q) ==> |DecodeLast(q).value| == 3 - Padding(q)
  {
    var p := Padding(q);
    assert q[..4] == q;
    assert Plain(q) ==> p == 0;
    assert Plain(q[..3]) ==> Sextet(q[2]) >= 0 by { assert Plain(q[..3]) ==> Sextet(q[..3][2]) >= 0; }
    assert p == 2 ==> q[..2][1] == q[1];
    assert p == 1 ==> q[..3][2] == q[2];
  }

  // The worker ----------------------------------------------------------------------------------

  function WithoutNewlines(text: Text): Text {
    if |text| == 0 then []
    else if text[0] == CR || text[0] == LF then WithoutNewlines(text[1..])
    else [text[0]] + WithoutNewlines(text[1..])
  }

  /** The strict decoder skips line ends wherever they are; encoding again is what rejects them. */
  function DecodeSessionState(value: Text): (state: Option<Bytes>)
    ensures state.Some? ==> Encode(state.value) == value && |state.value| <= MAX_BYTES
  {
    if |value| > MAX_BASE64 then None
    else match Decode(WithoutNewlines(value))
      case None => None
      case Some(decoded) => if Encode(decoded) != value || |decoded| > MAX_BYTES then None else Some(decoded)
  }

  lemma {:induction false} EncodeHasNoNewlines(bytes: Bytes)
    ensures WithoutNewlines(Encode(bytes)) == Encode(bytes)
  {
    forall i | 0 <= i < |Encode(bytes)| ensures Encode(bytes)[i] != CR && Encode(bytes)[i] != LF && Encode(bytes)[i] < 128 {
      SymbolsOnly(bytes, i);
    }
    NothingToSkip(Encode(bytes));
  }

  lemma {:induction false} SymbolsOnly(bytes: Bytes, i: nat)
    requires i < |Encode(bytes)|
    ensures Encode(bytes)[i] != CR && Encode(bytes)[i] != LF && Encode(bytes)[i] < 128
  {
    if |bytes| > 3 && i >= 4 {
      SymbolsOnly(bytes[3..], i - 4);
    }
  }

  lemma {:induction false} NothingToSkip(text: Text)
    requires forall i :: 0 <= i < |text| ==> text[i] != CR && text[i] != LF
    ensures WithoutNewlines(text) == text
  {
    if |text| > 0 {
      NothingToSkip(text[1..]);
    }
  }

  /** The worker accepts exactly the encodings of states within the limit. */
  lemma WorkerAcceptsEncodings(value: Text, state: Bytes)
    ensures DecodeSessionState(value) == Some(state) <==> value == Encode(state) && |state| <= MAX_BYTES
  {
    var skipped := WithoutNewlines(value);
    if value == Encode(state) {
      EncodeHasNoNewlines(state);
      DecodeEncode(state);
      if |state| <= MAX_BYTES { EncodingWithinLimit(state); }
      assert Decode(skipped) == Some(state);
    }
  }

  lemma EncodingWithinLimit(state: Bytes)
    requires |state| <= MAX_BYTES
    ensures |Encode(state)| <= MAX_BASE64
  {
  }

  /** The same text on both sides: equal when ASCII, and otherwise both hold something that is not. */
  predicate SameText(units: Text, bytes: Text) {
    if Ascii(units) then bytes == units else !Ascii(bytes)
  }

  predicate Ascii(text: Text) {
    forall i :: 0 <= i < |text| ==> text[i] < 128
  }

  /** The text is the canonical encoding of some state of `n` bytes within the limit. */
  ghost predicate EncodesState(text: Text, n: nat) {
    exists state: Bytes :: Encode(state) == text && |state| == n && n <= MAX_BYTES
  }

  lemma CheckIsRight(text: Text, n: nat)
    ensures CheckedLength(text) == Some(n) <==> EncodesState(text, n)
  {
    CanonicalIffDecodes(text);
    if CheckedLength(text) == Some(n) {
      EncodeDecode(text);
    }
    if state: Bytes :| Encode(state) == text && |state| == n && n <= MAX_BYTES {
      DecodeEncode(state);
    }
  }

  lemma WorkerIsRight(text: Text, n: nat)
    ensures DecodeSessionState(text).Some? && |DecodeSessionState(text).value| == n <==> EncodesState(text, n)
  {
    if state: Bytes :| Encode(state) == text && |state| == n && n <= MAX_BYTES {
      WorkerAcceptsEncodings(text, state);
    }
  }

  /** Front end and worker agree on every text, and every accepted text fits the frame with room to spare. */
  lemma BothSidesAgree(units: Text, bytes: Text, n: nat)
    requires SameText(units, bytes)
    ensures CheckedLength(units) == Some(n) <==> DecodeSessionState(bytes).Some? && |DecodeSessionState(bytes).value| == n
    ensures CheckedLength(units) == Some(n) ==> |units| <= MAX_BASE64 && MAX_BASE64 + 64 * 1024 < FRAME_BYTES
  {
    CheckIsRight(units, n);
    WorkerIsRight(bytes, n);
    if state: Bytes :| Encode(state) == units && |state| == n && n <= MAX_BYTES {
      OnlyAscii(state);
      assert EncodesState(bytes, n);
      EncodingWithinLimit(state);
    }
    if state: Bytes :| Encode(state) == bytes && |state| == n && n <= MAX_BYTES {
      OnlyAscii(state);
      assert EncodesState(units, n);
    }
  }

  lemma OnlyAscii(bytes: Bytes)
    ensures Ascii(Encode(bytes))
  {
    forall i | 0 <= i < |Encode(bytes)| ensures Encode(bytes)[i] < 128 { SymbolsOnly(bytes, i); }
  }
}
