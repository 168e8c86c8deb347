/**
  The signed state that travels through an OAuth provider: a payload and its signature, both in the URL-safe
  alphabet of section 5 of RFC 4648 with the padding of section 3.2 stripped, joined by a dot.
*/
module OAuthState {
  import opened Common

  type Byte = b: int | 0 <= b < 256

  // ----- The text encoding ----------------------------------------------------------------------------------------

  function CharOf(v: int): char
    requires 0 <= v < 64
  {
    if v < 26 then ('A' as int + v) as char
    else if v < 52 then ('a' as int + v - 26) as char
    else if v < 62 then ('0' as int + v - 52) as char
    else if v == 62 then '-'
    else '_'
  }

  /** The decoder also reads the two characters of the standard alphabet that the URL-safe one replaces. */
  function ValueOf(c: char): (r: Option<int>)
    ensures r.Some? ==> 0 <= r.value < 64
  {
    if 'A' <= c <= 'Z' then Some(c as int - 'A' as int)
    else if 'a' <= c <= 'z' then Some(c as int - 'a' as int + 26)
    else if '0' <= c <= '9' then Some(c as int - '0' as int + 52)
    else if c == '-' || c == '+' then Some(62)
    else if c == '_' || c == '/' then Some(63)
    else None
  }

  /** The encoding with its padding: three bytes make four characters. */
  function Padded(bytes: seq<Byte>): string {
    if bytes == [] then ""
    else if |bytes| == 1 then [CharOf(bytes[0] / 4), CharOf(bytes[0] % 4 * 16), '=', '=']
    else if |bytes| == 2 then
      [CharOf(bytes[0] / 4), CharOf(bytes[0] % 4 * 16 + bytes[1] / 16), CharOf(bytes[1] % 16 * 4), '=']
    else
      [CharOf(bytes[0] / 4), CharOf(bytes[0] % 4 * 16 + bytes[1] / 16),
       CharOf(bytes[1] % 16 * 4 + bytes[2] / 64), CharOf(bytes[2] % 64)] + Padded(bytes[3..])
  }

  function WithoutPadding(text: string): string {
    if text != "" && text[|text| - 1] == '=' then WithoutPadding(text[..|text| - 1]) else text
  }

  function Encode(bytes: seq<Byte>): string {
    WithoutPadding(Padded(bytes))
  }

  /**
    The lenient decoder, mid-text: `have` characters of a group of four are read, of which the bits in `left`
    are not yet used, and `pads` signs of padding follow them. Other characters are skipped.
   */
  function Decoded(text: string, have: int, left: int, pads: nat): Option<seq<Byte>>
    requires 0 <= have < 4 && 0 <= left
    requires (have == 1 ==> left < 64) && (have == 2 ==> left < 16) && (have == 3 ==> left < 4)
  {
    if text == "" then if have == 0 then Some([]) else None
    else if text[0] == '=' then
      if have >= 2 && have + pads + 1 >= 4 then Some([])
      else Decoded(text[1..], have, left, if have >= 2 then pads + 1 else pads)
    else if ValueOf(text[0]).None? then Decoded(text[1..], have, left, pads)
    else
      var v := ValueOf(text[0]).value;
      if have == 0 then Decoded(text[1..], 1, v, 0)
      else if have == 1 then Prepended(left * 4 + v / 16, Decoded(text[1..], 2, v % 16, 0))
      else if have == 2 then Prepended(left * 16 + v / 4, Decoded(text[1..], 3, v % 4, 0))
      else Prepended(left * 64 + v, Decoded(text[1..], 0, 0, 0))
  }

  function Prepended(b: Byte, rest: Option<seq<Byte>>): Option<seq<Byte>> {
    if rest.None? then None else Some([b] + rest.value)
  }

  function Signs(n: nat): string {
    if n == 0 then "" else Signs(n - 1) + "="
  }

  predicate Ascii(text: string) {
    forall i :: 0 <= i < |text| ==> text[i] as int < 128
  }

  /** Text that is not ASCII is refused before it is decoded. */
  function Decode(text: string): Option<seq<Byte>> {
    if Ascii(text) then Decoded(text + Signs((-|text|) % 4), 0, 0, 0) else None
  }

  // ----- Decoding undoes encoding ---------------------------------------------------------------------------------

  lemma CharsRoundTrip(v: int)
    requires 0 <= v < 64
    ensures ValueOf(CharOf(v)) == Some(v) && CharOf(v) != '=' && CharOf(v) != '.'
  {
  }

  lemma StripThrough(a: string, b: string)
    requires b != "" && WithoutPadding(b) != ""
    ensures WithoutPadding(a + b) == a + WithoutPadding(b)
  {
    var n := |b| - 1;
    if b[n] == '=' {
      assert (a + b)[..|a| + n] == a + b[..n];
      StripThrough(a, b[..n]);
    }
  }

  lemma {:induction false} StripSigns(text: string, n: nat)
    requires text != "" && text[|text| - 1] != '='
    ensures WithoutPadding(text + Signs(n)) == text
  {
    if n == 0 {
      assert text + Signs(0) == text;
    } else {
      assert (text + Signs(n))[..|text + Signs(n)| - 1] == text + Signs(n - 1);
      StripSigns(text, n - 1);
    }
  }

  /** The padding that was stripped is exactly the padding that the decoder puts back. */
  lemma {:induction false} PaddingComesBack(bytes: seq<Byte>)
    ensures var text := Encode(bytes); text + Signs((-|text|) % 4) == Padded(bytes)
    ensures bytes != [] ==> Encode(bytes) != ""
    decreases |bytes|
  {
    if bytes == [] {
      assert Signs(0) == "";
    } else if |bytes| < 3 {
      ShortPaddingComesBack(bytes);
    } else {
      LongPaddingComesBack(bytes);
    }
  }

  lemma OnePaddingComesBack(a: Byte)
    ensures |Encode([a])| == 2 && Encode([a]) + Signs(2) == Padded([a])
  {
    CharsRoundTrip(a % 4 * 16);
    hide CharOf, ValueOf;
    var body := [CharOf(a / 4), CharOf(a % 4 * 16)];
    assert Signs(1) == "=" && Signs(2) == "==";
    assert Padded([a]) == body + Signs(2);
    StripSigns(body, 2);
  }

  lemma TwoPaddingComesBack(a: Byte, b: Byte)
    ensures |Encode([a, b])| == 3 && Encode([a, b]) + Signs(1) == Padded([a, b])
  {
    CharsRoundTrip(b % 16 * 4);
    hide CharOf, ValueOf;
    var body := [CharOf(a / 4), CharOf(a % 4 * 16 + b / 16), CharOf(b % 16 * 4)];
    assert Signs(1) == "=";
    assert Padded([a, b]) == body + Signs(1);
    StripSigns(body, 1);
  }

  lemma ShortPaddingComesBack(bytes: seq<Byte>)
    requires 1 <= |bytes| <= 2
    ensures |Encode(bytes)| == |bytes| + 1
    ensures Encode(bytes) + Signs((-|Encode(bytes)|) % 4) == Padded(bytes)
  {
    hide Encode, Signs, Padded;
    if |bytes| == 1 {
      OnePaddingComesBack(bytes[0]);
      assert bytes == [bytes[0]] && (-2) % 4 == 2;
    } else {
      TwoPaddingComesBack(bytes[0], bytes[1]);
      assert bytes == [bytes[0], bytes[1]] && (-3) % 4 == 1;
    }
  }

  lemma QuadComesFirst(bytes: seq<Byte>)
    requires |bytes| >= 3
    ensures |Padded(bytes)| >= 4 && Padded(bytes)[3] != '='
    ensures Padded(bytes) == Padded(bytes)[..4] + Padded(bytes[3..])
    ensures bytes[3..] == [] ==> Padded(bytes[3..]) == ""
  {
    CharsRoundTrip(bytes[2] % 64);
    hide CharOf, ValueOf;
  }

  lemma LongPaddingComesBack(bytes: seq<Byte>)
    requires |bytes| >= 3
    ensures Encode(bytes) != ""
    ensures Encode(bytes) + Signs((-|Encode(bytes)|) % 4) == Padded(bytes)
    decreases |bytes|, 0
  {
    hide Padded, Signs, WithoutPadding;
    QuadComesFirst(bytes);
    var quad, rest := Padded(bytes)[..4], Padded(bytes[3..]);
    PaddingComesBack(bytes[3..]);
    StripBehind(quad, rest);
    PadBehind(quad, Encode(bytes[3..]));
  }

  lemma StripBehind(quad: string, rest: string)
    requires quad != "" && quad[|quad| - 1] != '='
    requires rest == "" || WithoutPadding(rest) != ""
    ensures WithoutPadding(quad + rest) == quad + WithoutPadding(rest)
  {
    if rest == "" {
      StripSigns(quad, 0);
      assert quad + rest == quad && quad + WithoutPadding(rest) == quad;
    } else {
      StripThrough(quad, rest);
    }
  }

  lemma PadBehind(quad: string, tail: string)
    requires |quad| == 4
    ensures (quad + tail) + Signs((-|quad + tail|) % 4) == quad + (tail + Signs((-|tail|) % 4))
  {
    assert (-(4 + |tail|)) % 4 == (-|tail|) % 4;
  }

  lemma DecodeStep(c: char, rest: string, have: int, left: int, v: int)
    requires ValueOf(c) == Some(v) && c != '=' && 0 <= have < 4 && 0 <= left
    requires (have == 1 ==> left < 64) && (have == 2 ==> left < 16) && (have == 3 ==> left < 4)
    ensures Decoded([c] + rest, have, left, 0)
         == if have == 0 then Decoded(rest, 1, v, 0)
            else if have == 1 then Prepended(left * 4 + v / 16, Decoded(rest, 2, v % 16, 0))
            else if have == 2 then Prepended(left * 16 + v / 4, Decoded(rest, 3, v % 4, 0))
            else Prepended(left * 64 + v, Decoded(rest, 0, 0, 0))
  {
    assert ([c] + rest)[1..] == rest;
  }

  /** The padded text of some bytes decodes to them. */
  lemma {:induction false} PaddedDecodes(bytes: seq<Byte>)
    ensures Decoded(Padded(bytes), 0, 0, 0) == Some(bytes)
  {
    hide Decoded, ValueOf, CharOf;
    if bytes == [] {
      EndDecodes();
    } else if |bytes| == 1 {
      OneDecodes(bytes[0]);
      assert [bytes[0]] == bytes;
    } else if |bytes| == 2 {
      TwoDecode(bytes[0], bytes[1]);
      assert [bytes[0], bytes[1]] == bytes;
    } else {
      QuadDecodes(bytes[0], bytes[1], bytes[2], Padded(bytes[3..]));
      PaddedDecodes(bytes[3..]);
      assert bytes == [bytes[0]] + ([bytes[1]] + ([bytes[2]] + bytes[3..]));
    }
  }

  lemma EndDecodes()
    ensures Decoded("", 0, 0, 0) == Some([])
    ensures forall left :: 0 <= left < 16 ==> Decoded("==", 2, left, 0) == Some([])
    ensures forall left :: 0 <= left < 4 ==> Decoded("=", 3, left, 0) == Some([])
  {
    assert "=="[1..] == "=";
  }

  lemma OneDecodes(a: Byte)
    ensures Decoded([CharOf(a / 4), CharOf(a % 4 * 16), '=', '='], 0, 0, 0) == Some([a])
  {
    hide Decoded, ValueOf, CharOf;
    var v, w := a / 4, a % 4 * 16;
    CharsRoundTrip(v);
    CharsRoundTrip(w);
    var after1 := [CharOf(w)] + "==";
    assert [CharOf(v), CharOf(w), '=', '='] == [CharOf(v)] + after1;
    DecodeStep(CharOf(v), after1, 0, 0, v);
    DecodeStep(CharOf(w), "==", 1, v, w);
    EndDecodes();
    assert v * 4 + w / 16 == a;
    assert [a] + [] == [a];
  }

  lemma TwoDecode(a: Byte, b: Byte)
    ensures Decoded([CharOf(a / 4), CharOf(a % 4 * 16 + b / 16), CharOf(b % 16 * 4), '='], 0, 0, 0) == Some([a, b])
  {
    hide Decoded, ValueOf, CharOf;
    var v, w, x := a / 4, a % 4 * 16 + b / 16, b % 16 * 4;
    CharsRoundTrip(v);
    CharsRoundTrip(w);
    CharsRoundTrip(x);
    var after2 := [CharOf(x)] + "=";
    var after1 := [CharOf(w)] + after2;
    assert [CharOf(v), CharOf(w), CharOf(x), '='] == [CharOf(v)] + after1;
    DecodeStep(CharOf(v), after1, 0, 0, v);
    DecodeStep(CharOf(w), after2, 1, v, w);
    DecodeStep(CharOf(x), "=", 2, w % 16, x);
    EndDecodes();
    assert v * 4 + w / 16 == a && w % 16 * 16 + x / 4 == b;
    assert [b] + [] == [b] && [a] + [b] == [a, b];
  }

  lemma QuadDecodes(a: Byte, b: Byte, c: Byte, rest: string)
    ensures Decoded(
              [CharOf(a / 4), CharOf(a % 4 * 16 + b / 16), CharOf(b % 16 * 4 + c / 64), CharOf(c % 64)] + rest, 0, 0, 0)
         == Prepended(a, Prepended(b, Prepended(c, Decoded(rest, 0, 0, 0))))
  {
    hide Decoded, ValueOf, CharOf;
    var v, w, x, y := a / 4, a % 4 * 16 + b / 16, b % 16 * 4 + c / 64, c % 64;
    CharsRoundTrip(v);
    CharsRoundTrip(w);
    CharsRoundTrip(x);
    CharsRoundTrip(y);
    var after3 := [CharOf(y)] + rest;
    var after2 := [CharOf(x)] + after3;
    var after1 := [CharOf(w)] + after2;
    assert [CharOf(v), CharOf(w), CharOf(x), CharOf(y)] + rest == [CharOf(v)] + after1;
    DecodeStep(CharOf(v), after1, 0, 0, v);
    DecodeStep(CharOf(w), after2, 1, v, w);
    DecodeStep(CharOf(x), after3, 2, w % 16, x);
    DecodeStep(CharOf(y), rest, 3, x % 4, y);
    assert v * 4 + w / 16 == a && w % 16 * 16 + x / 4 == b && x % 4 * 64 + y == c;
  }

  /** For every string of bytes, decoding its encoding gives it back. */
  lemma {:induction false} DecodeUndoesEncode(bytes: seq<Byte>)
    ensures Decode(Encode(bytes)) == Some(bytes)
  {
    PaddingComesBack(bytes);
    PaddedDecodes(bytes);
    EncodingIsPlain(bytes);
  }

  lemma {:induction false} EncodingIsPlain(bytes: seq<Byte>)
    ensures '.' !in Encode(bytes) && Ascii(Encode(bytes))
  {
    PaddedIsPlain(bytes);
    StrippingIsPrefix(Padded(bytes));
  }

  lemma {:induction false} PaddedIsPlain(bytes: seq<Byte>)
    ensures '.' !in Padded(bytes) && Ascii(Padded(bytes))
  {
    if |bytes| > 2 {
      PaddedIsPlain(bytes[3..]);
    }
  }

  lemma {:induction false} StrippingIsPrefix(text: string)
    ensures WithoutPadding(text) <= text
  {
    if text != "" && text[|text| - 1] == '=' {
      StrippingIsPrefix(text[..|text| - 1]);
    }
  }

  /** Test vectors of section 10 of RFC 4648 without their padding, and the corners of the alphabet of section 5. */
  lemma {:induction false} TestVectors()
    ensures Encode([]) == "" && Encode([102]) == "Zg" && Encode([102, 111]) == "Zm8"
    ensures Encode([102, 111, 111]) == "Zm9v" && Encode([102, 111, 111, 98, 97, 114]) == "Zm9vYmFy"
    ensures CharOf(0) == 'A' && CharOf(25) == 'Z' && CharOf(26) == 'a' && CharOf(51) == 'z'
    ensures CharOf(52) == '0' && CharOf(61) == '9' && CharOf(62) == '-' && CharOf(63) == '_'
    ensures forall v :: 0 <= v < 61 && v != 25 && v != 51 ==> CharOf(v + 1) as int == CharOf(v) as int + 1
  {
    hide Padded, WithoutPadding;
    PaddedVectors();
    Stripped();
    LongerVector();
  }

  lemma PaddedVectors()
    ensures Padded([]) == "" && Padded([102]) == "Zg==" && Padded([102, 111]) == "Zm8="
    ensures Padded([102, 111, 111]) == "Zm9v" && Padded([98, 97, 114]) == "YmFy"
  {
    assert [102, 111, 111][3..] == [] && [98, 97, 114][3..] == [];
  }

  lemma LongerVector()
    ensures Padded([102, 111, 111, 98, 97, 114]) == "Zm9vYmFy"
  {
    PaddedVectors();
    var foobar: seq<Byte> := [102, 111, 111, 98, 97, 114];
    assert foobar[3..] == [98, 97, 114];
    assert Padded(foobar) == "Zm9v" + Padded(foobar[3..]);
    hide Padded;
    assert "Zm9v" + "YmFy" == "Zm9vYmFy";
  }

  lemma Stripped()
    ensures WithoutPadding("Zg==") == "Zg" && WithoutPadding("Zm8=") == "Zm8"
    ensures WithoutPadding("") == "" && WithoutPadding("Zm9v") == "Zm9v" && WithoutPadding("Zm9vYmFy") == "Zm9vYmFy"
  {
    assert "Zg=="[..3] == "Zg=" && "Zg="[..2] == "Zg" && "Zm8="[..3] == "Zm8";
  }

  // ----- Signing and verifying -------------------------------------------------------------------------------------

  type Key = int

  datatype Payload = Payload(
    version: nat, nonce: string, userId: int, provider: string, name: string, expiresAt: Instant)

  /** JSON and HMAC, as ideal functions: JSON text can be read back, and a signature is just a value. */
  datatype Ideal = Ideal(
    toJson: Payload -> seq<Byte>, fromJson: seq<Byte> -> Option<Payload>, mac: (Key, seq<Byte>) -> seq<Byte>)

  ghost predicate JsonReadsBack(ideal: Ideal) {
    forall p :: ideal.fromJson(ideal.toJson(p)) == Some(p)
  }

  datatype StateError = Invalid | BadSignature | ProviderMismatch | StateExpired

  function FirstDot(text: string): (r: Option<nat>)
    ensures r.None? ==> '.' !in text
    ensures r.Some? ==> r.value < |text| && text[r.value] == '.' && '.' !in text[..r.value]
  {
    if text == "" then None
    else if text[0] == '.' then Some(0)
    else
      var rest := FirstDot(text[1..]);
      assert text == [text[0]] + text[1..];
      if rest.None? then None
      else
        assert text[..rest.value + 1] == [text[0]] + text[1..][..rest.value];
        Some(rest.value + 1)
  }

  function Sign(ideal: Ideal, keys: map<nat, Key>, p: Payload): string
    requires p.version in keys
  {
    var json := ideal.toJson(p);
    Encode(json) + "." + Encode(ideal.mac(keys[p.version], json))
  }

  function Verify(ideal: Ideal, keys: map<nat, Key>, raw: string, provider: string, now: Instant)
    : Result<Payload, StateError>
  {
    var dot := FirstDot(raw);
    if dot.None? then Err(Invalid)
    else
      var json, signature := Decode(raw[..dot.value]), Decode(raw[dot.value + 1..]);
      if json.None? then Err(Invalid)
      else
        var payload := ideal.fromJson(json.value);
        if payload.None? || payload.value.version !in keys || signature.None? then Err(Invalid)
        else if signature.value != ideal.mac(keys[payload.value.version], json.value) then Err(BadSignature)
        else if payload.value.provider != provider then Err(ProviderMismatch)
        else if payload.value.expiresAt <= now then Err(StateExpired)
        else Ok(payload.value)
  }

  lemma {:induction false} SplitsAtTheDot(a: string, b: string)
    requires '.' !in a
    ensures FirstDot(a + "." + b) == Some(|a|)
    ensures (a + "." + b)[..|a|] == a && (a + "." + b)[|a| + 1..] == b
  {
    var text := a + "." + b;
    assert text[|a|] == '.';
    var i := FirstDot(text).value;
    assert i <= |a| ==> text[..|a|] == a;
    assert forall j :: 0 <= j < |a| ==> text[j] == a[j] && a[j] in a;
    assert forall j :: 0 <= j < i ==> text[j] in text[..i];
  }

  /** Text of two parts is invalid exactly if a part does not read, and badly signed exactly if the parts disagree. */
  lemma {:induction false} UnreadableIsInvalid(
    ideal: Ideal, keys: map<nat, Key>, a: string, b: string, provider: string, now: Instant)
    requires '.' !in a
    ensures var r := Verify(ideal, keys, a + "." + b, provider, now);
            var payload := if Decode(a).Some? then ideal.fromJson(Decode(a).value) else None;
            var readable := payload.Some? && payload.value.version in keys && Decode(b).Some?;
            && (r == Err(Invalid) <==> !readable)
            && (r == Err(BadSignature) <==>
                  readable && Decode(b).value != ideal.mac(keys[payload.value.version], Decode(a).value))
  {
    hide Decode;
    SplitsAtTheDot(a, b);
  }

  /** Another signature beside the bytes of a state is a bad one, and text without a dot is no state at all. */
  lemma {:induction false} TamperedIsRefused(
    ideal: Ideal, keys: map<nat, Key>, p: Payload, signature: seq<Byte>, raw: string, provider: string, now: Instant)
    requires JsonReadsBack(ideal) && p.version in keys
    ensures var text := Encode(ideal.toJson(p)) + "." + Encode(signature);
            var mac := ideal.mac(keys[p.version], ideal.toJson(p));
            Verify(ideal, keys, text, provider, now) == Err(BadSignature) <==> signature != mac
    ensures '.' !in raw ==> Verify(ideal, keys, raw, provider, now) == Err(Invalid)
  {
    hide Encode, Decode;
    var json := ideal.toJson(p);
    DecodeUndoesEncode(json);
    DecodeUndoesEncode(signature);
    EncodingIsPlain(json);
    SplitsAtTheDot(Encode(json), Encode(signature));
  }

  /**
    A state that was signed verifies, while it is unexpired and for the provider it was made for, to the very
    payload that was signed, however many keys have been added since; and otherwise it fails for that reason.
   */
  lemma {:induction false} SignedStatesVerify(
    ideal: Ideal, keys: map<nat, Key>, later: map<nat, Key>, p: Payload, provider: string, now: Instant)
    requires JsonReadsBack(ideal) && p.version in keys
    requires keys.Keys <= later.Keys && forall v :: v in keys ==> later[v] == keys[v]
    ensures Verify(ideal, later, Sign(ideal, keys, p), provider, now)
         == if p.provider != provider then Err(ProviderMismatch)
            else if p.expiresAt <= now then Err(StateExpired)
            else Ok(p)
  {
    var json := ideal.toJson(p);
    var signature := ideal.mac(keys[p.version], json);
    EncodingIsPlain(json);
    SplitsAtTheDot(Encode(json), Encode(signature));
    DecodeUndoesEncode(json);
    DecodeUndoesEncode(signature);
  }

  /** Whatever verifies carries a signature, under the key its payload names, over the bytes of that payload. */
  lemma {:induction false} VerifiedStatesAreSigned(
    ideal: Ideal, keys: map<nat, Key>, raw: string, provider: string, now: Instant)
    requires Verify(ideal, keys, raw, provider, now).Ok?
    ensures var p := Verify(ideal, keys, raw, provider, now).value;
            && p.provider == provider && now < p.expiresAt && p.version in keys
            && exists a, b ::
                 && raw == a + "." + b && '.' !in a
                 && Decode(a).Some? && ideal.fromJson(Decode(a).value) == Some(p)
                 && Decode(b) == Some(ideal.mac(keys[p.version], Decode(a).value))
  {
  }

  // ----- What verifies was issued ----------------------------------------------------------------------------------

  /** A codec over its restarts: its keys, the active one among them, and every payload it has signed so far. */
  datatype Codec = Codec(keys: map<nat, Key>, active: nat, issued: seq<Payload>)

  datatype Step =
    | Issue(nonce: string, userId: int, provider: string, name: string, expiresAt: Instant)
    | AddKey(version: nat, key: Key)

  /** Signing uses the active version; a key that is added becomes the active one, and none is ever replaced. */
  function Done(c: Codec, step: Step): Codec {
    match step
    case Issue(nonce, userId, provider, name, expiresAt) =>
      c.(issued := c.issued + [Payload(c.active, nonce, userId, provider, name, expiresAt)])
    case AddKey(version, key) =>
      if version in c.keys then c else c.(keys := c.keys[version := key], active := version)
  }

  function After(c: Codec, steps: seq<Step>): Codec
    decreases |steps|
  {
    if steps == [] then c else After(Done(c, steps[0]), steps[1..])
  }

  ghost predicate Whole(c: Codec) {
    c.active in c.keys && forall i :: 0 <= i < |c.issued| ==> c.issued[i].version in c.keys
  }

  lemma {:induction false} RunKeepsWhole(c: Codec, steps: seq<Step>)
    requires Whole(c)
    ensures Whole(After(c, steps)) && c.issued <= After(c, steps).issued
    ensures c.keys.Keys <= After(c, steps).keys.Keys
    ensures forall v :: v in c.keys ==> After(c, steps).keys[v] == c.keys[v]
    decreases |steps|
  {
    if steps == [] {
    } else {
      RunKeepsWhole(Done(c, steps[0]), steps[1..]);
    }
  }

  /** The text carries the bytes of `p` and their signature under the key that `p` names. */
  ghost predicate Carries(ideal: Ideal, keys: map<nat, Key>, raw: string, p: Payload) {
    && p.version in keys && FirstDot(raw).Some?
    && Decode(raw[..FirstDot(raw).value]) == Some(ideal.toJson(p))
    && Decode(raw[FirstDot(raw).value + 1..]) == Some(ideal.mac(keys[p.version], ideal.toJson(p)))
  }

  /** The codec signed these bytes, under this key, for some payload it has issued. */
  ghost predicate SignedBy(ideal: Ideal, c: Codec, key: Key, json: seq<Byte>)
    requires Whole(c)
  {
    exists i :: 0 <= i < |c.issued| && c.keys[c.issued[i].version] == key && ideal.toJson(c.issued[i]) == json
  }

  /** If the text pairs its own bytes with a signature under one of the codec's keys, the codec made that signature. */
  ghost predicate NotForged(ideal: Ideal, c: Codec, raw: string)
    requires Whole(c)
  {
    FirstDot(raw).Some? ==>
      var json, signature := Decode(raw[..FirstDot(raw).value]), Decode(raw[FirstDot(raw).value + 1..]);
      json.Some? ==>
        forall v :: v in c.keys && signature == Some(ideal.mac(c.keys[v], json.value)) ==>
          SignedBy(ideal, c, c.keys[v], json.value)
  }

  /** What the codec signed is not forged, unless another of its keys gives the same signature on the same bytes. */
  lemma {:induction false} SignedIsNotForged(ideal: Ideal, c: Codec, p: Payload)
    requires Whole(c) && p in c.issued
    requires var json := ideal.toJson(p);
             forall v :: v in c.keys && ideal.mac(c.keys[v], json) == ideal.mac(c.keys[p.version], json) ==>
               c.keys[v] == c.keys[p.version]
    ensures NotForged(ideal, c, Sign(ideal, c.keys, p))
    ensures Carries(ideal, c.keys, Sign(ideal, c.keys, p), p)
  {
    var json := ideal.toJson(p);
    var signature := ideal.mac(c.keys[p.version], json);
    EncodingIsPlain(json);
    SplitsAtTheDot(Encode(json), Encode(signature));
    DecodeUndoesEncode(json);
    DecodeUndoesEncode(signature);
    assert SignedBy(ideal, c, c.keys[p.version], json);
    hide Decode, Encode;
  }

  ghost predicate Issued(ideal: Ideal, c: Codec, raw: string, provider: string, now: Instant, p: Payload) {
    p in c.issued && Carries(ideal, c.keys, raw, p) && p.provider == provider && now < p.expiresAt
  }

  /**
    Over every run of signings and added keys: a text that carries a payload issued in the run verifies to it, for
    its provider and before it expires; and a text that is not forged verifies to nothing else.
   */
  lemma {:induction false} VerifiesIffIssued(
    ideal: Ideal, start: Codec, steps: seq<Step>, raw: string, provider: string, now: Instant, p: Payload)
    requires JsonReadsBack(ideal) && start.active in start.keys && start.issued == []
    ensures var c := After(start, steps);
            && Whole(c)
            && (Issued(ideal, c, raw, provider, now, p) ==> Verify(ideal, c.keys, raw, provider, now) == Ok(p))
            && (NotForged(ideal, c, raw) ==>
                  (Verify(ideal, c.keys, raw, provider, now) == Ok(p) <==> Issued(ideal, c, raw, provider, now, p)))
  {
    RunKeepsWhole(start, steps);
    var c := After(start, steps);
    hide Decode, FirstDot;
    if NotForged(ideal, c, raw) && Verify(ideal, c.keys, raw, provider, now) == Ok(p) {
      VerifiedWasIssued(ideal, c, raw, provider, now);
    }
  }

  lemma {:induction false} VerifiedWasIssued(ideal: Ideal, c: Codec, raw: string, provider: string, now: Instant)
    requires JsonReadsBack(ideal) && Whole(c) && NotForged(ideal, c, raw)
    requires Verify(ideal, c.keys, raw, provider, now).Ok?
    ensures Issued(ideal, c, raw, provider, now, Verify(ideal, c.keys, raw, provider, now).value)
  {
    hide Decode;
    var p := Verify(ideal, c.keys, raw, provider, now).value;
    var at := FirstDot(raw).value;
    var json := Decode(raw[..at]).value;
    assert Decode(raw[at + 1..]) == Some(ideal.mac(c.keys[p.version], json));
    assert SignedBy(ideal, c, c.keys[p.version], json);
    var i :| 0 <= i < |c.issued| && c.keys[c.issued[i].version] == c.keys[p.version]
             && ideal.toJson(c.issued[i]) == json;
    assert ideal.fromJson(json) == Some(c.issued[i]);
  }
}
