/** The binary layouts of the inference payloads: which byte strings carry an
    inline answer, and that each is read in exactly one way. */
module Payload {
  import opened Types
  import opened Keys

  const RESPONSE_LEN := 78
  const RESPONSE_V2_LEN := 174
  const EXT_HEADER_LEN := 5
  const EXT_PRIVATE_BODY: byte := 0x80
  const EXT_TRACE: byte := 0x81
  const TRACE_LEN := 41
  const TRACE_TOKENS_LEN := 73
  const MAX_BODY_LEN := 49152

  // --- little-endian lengths ---

  function FromLE(b: seq<byte>): nat
    requires |b| == 4
  {
    b[0] as int + 0x100 * b[1] as int + 0x1_0000 * b[2] as int + 0x100_0000 * b[3] as int
  }

  function ToLE(n: nat): (b: seq<byte>)
    ensures |b| == 4
  {
    [n % 256, n / 0x100 % 256, n / 0x1_0000 % 256, n / 0x100_0000 % 256]
  }

  lemma LengthRoundTrip(n: nat)
    requires n < 0x1_0000_0000
    ensures FromLE(ToLE(n)) == n
  {
    var q, r, t := n / 0x100, n / 0x1_0000, n / 0x100_0000;
    assert n == n % 256 + 0x100 * q;
    assert q / 256 == r && r / 256 == t && t % 256 == t;
    assert q == q % 256 + 256 * r && r == r % 256 + 256 * t;
  }

  lemma LengthOfBytes(b: seq<byte>)
    requires |b| == 4
    ensures FromLE(b) < 0x1_0000_0000 && ToLE(FromLE(b)) == b
  {
    var n := FromLE(b);
    assert n / 0x100 == b[1] as int + 0x100 * b[2] as int + 0x1_0000 * b[3] as int;
    assert n / 0x1_0000 == b[2] as int + 0x100 * b[3] as int;
    assert n / 0x100_0000 == b[3];
  }

  // --- the response extension ---

  /** `is_trace_extension`. */
  predicate IsTrace(ext: seq<byte>) {
    && |ext| > EXT_HEADER_LEN
    && ext[0] == EXT_TRACE
    && FromLE(ext[1..5]) == |ext| - EXT_HEADER_LEN
    && (|ext| - EXT_HEADER_LEN == TRACE_LEN || |ext| - EXT_HEADER_LEN == TRACE_TOKENS_LEN)
  }

  /** The inline body part of `decode_response`. */
  function PrivateBody(payload: seq<byte>): Option<seq<byte>> {
    if |payload| < RESPONSE_V2_LEN then None
    else
      var ext := payload[RESPONSE_V2_LEN..];
      if !(|ext| > EXT_HEADER_LEN && ext[0] == EXT_PRIVATE_BODY) then None
      else
        var len := FromLE(ext[1..5]);
        if EXT_HEADER_LEN + len > |ext| then None
        else
          var body, rest := ext[EXT_HEADER_LEN..EXT_HEADER_LEN + len], ext[EXT_HEADER_LEN + len..];
          if len <= MAX_BODY_LEN && (rest == [] || IsTrace(rest)) then Some(body) else None
  }

  function Extension(kind: byte, content: seq<byte>): seq<byte> {
    [kind] + ToLE(|content|) + content
  }

  /** A well-formed response with an inline body: head, body extension, optional trace. */
  function Encode(head: seq<byte>, body: seq<byte>, trace: Option<seq<byte>>): seq<byte> {
    head + Extension(EXT_PRIVATE_BODY, body) + if trace.Some? then Extension(EXT_TRACE, trace.value) else []
  }

  /** The grammar: a 174-byte head, at most 48 KiB of body, a trace of 41 or 73 bytes if any,
      and never an empty body without one. */
  predicate WellFormed(head: seq<byte>, body: seq<byte>, trace: Option<seq<byte>>) {
    && |head| == RESPONSE_V2_LEN
    && |body| <= MAX_BODY_LEN
    && (trace.Some? ==> |trace.value| == TRACE_LEN || |trace.value| == TRACE_TOKENS_LEN)
    && (body == [] ==> trace.Some?)
  }

  lemma TraceIsTrace(t: seq<byte>)
    requires |t| == TRACE_LEN || |t| == TRACE_TOKENS_LEN
    ensures IsTrace(Extension(EXT_TRACE, t))
  {
    hide ToLE, FromLE;
    var ext := Extension(EXT_TRACE, t);
    assert ext[1..5] == ToLE(|t|);
    LengthRoundTrip(|t|);
  }

  lemma TraceUnfolds(ext: seq<byte>)
    requires IsTrace(ext)
    ensures ext == Extension(EXT_TRACE, ext[EXT_HEADER_LEN..])
  {
    hide ToLE, FromLE;
    LengthOfBytes(ext[1..5]);
    assert ext == [ext[0]] + ext[1..5] + ext[5..];
  }

  /** Decoding inverts encoding. */
  lemma DecodesEncoded(head: seq<byte>, body: seq<byte>, trace: Option<seq<byte>>)
    requires WellFormed(head, body, trace)
    ensures PrivateBody(Encode(head, body, trace)) == Some(body)
  {
    hide ToLE, FromLE, IsTrace;
    var tail := if trace.Some? then Extension(EXT_TRACE, trace.value) else [];
    var ext := Extension(EXT_PRIVATE_BODY, body) + tail;
    assert Encode(head, body, trace)[RESPONSE_V2_LEN..] == ext;
    assert ext[1..5] == ToLE(|body|);
    LengthRoundTrip(|body|);
    assert ext[EXT_HEADER_LEN..EXT_HEADER_LEN + |body|] == body;
    assert ext[EXT_HEADER_LEN + |body|..] == tail;
    if trace.Some? { TraceIsTrace(trace.value); }
  }

  /** A payload yields a body exactly when it is a well-formed response with that body. */
  lemma BodyIffWellFormed(payload: seq<byte>, body: seq<byte>)
    ensures PrivateBody(payload) == Some(body) <==>
      exists head, trace :: WellFormed(head, body, trace) && payload == Encode(head, body, trace)
  {
    if PrivateBody(payload) == Some(body) {
      var head, trace := Parts(payload, body);
      assert WellFormed(head, body, trace) && payload == Encode(head, body, trace);
    }
    if exists head, trace :: WellFormed(head, body, trace) && payload == Encode(head, body, trace) {
      var head, trace :| WellFormed(head, body, trace) && payload == Encode(head, body, trace);
      DecodesEncoded(head, body, trace);
    }
    hide PrivateBody, Encode, WellFormed;
  }

  lemma Parts(payload: seq<byte>, body: seq<byte>) returns (head: seq<byte>, trace: Option<seq<byte>>)
    requires PrivateBody(payload) == Some(body)
    ensures WellFormed(head, body, trace) && payload == Encode(head, body, trace)
  {
    hide ToLE, FromLE;
    head := payload[..RESPONSE_V2_LEN];
    var ext := payload[RESPONSE_V2_LEN..];
    var len := FromLE(ext[1..5]);
    var rest := ext[EXT_HEADER_LEN + len..];
    LengthOfBytes(ext[1..5]);
    assert ext == [ext[0]] + ext[1..5] + body + rest;
    if rest == [] {
      trace := None;
      assert payload == head + Extension(EXT_PRIVATE_BODY, body) + [];
    } else {
      trace := Some(rest[EXT_HEADER_LEN..]);
      TraceUnfolds(rest);
      assert payload == head + Extension(EXT_PRIVATE_BODY, body) + rest;
    }
  }

  /** The parse is unique: head, body and trace are determined by the bytes. */
  lemma ParseIsUnique(h: seq<byte>, b: seq<byte>, t: Option<seq<byte>>, h': seq<byte>, b': seq<byte>,
    t': Option<seq<byte>>)
    requires WellFormed(h, b, t) && WellFormed(h', b', t') && Encode(h, b, t) == Encode(h', b', t')
    ensures h == h' && b == b' && t == t'
  {
    DecodesEncoded(h, b, t);
    DecodesEncoded(h', b', t');
    var p := Encode(h, b, t);
    hide ToLE, PrivateBody;
    assert h == p[..RESPONSE_V2_LEN] && h' == Encode(h', b', t')[..RESPONSE_V2_LEN];
    var n := RESPONSE_V2_LEN + EXT_HEADER_LEN + |b|;
    var tail := if t.Some? then Extension(EXT_TRACE, t.value) else [];
    var tail' := if t'.Some? then Extension(EXT_TRACE, t'.value) else [];
    assert p[n..] == tail && Encode(h', b', t')[n..] == tail';
    if t.Some? && t'.Some? {
      assert t.value == tail[EXT_HEADER_LEN..] && t'.value == tail'[EXT_HEADER_LEN..];
    }
  }

  // --- the fixed fields ---

  /** The fields every era of the response carries at the same offsets. */
  datatype Fields = Fields(requestHash: seq<byte>, windowEnd: seq<byte>, multihash: seq<byte>, length: nat)

  function V1Fields(payload: seq<byte>): Option<Fields> {
    if |payload| < RESPONSE_LEN then None
    else Some(Fields(payload[0..32], payload[32..40], payload[40..74], FromLE(payload[74..78])))
  }

  /** Whatever follows the first 78 bytes, well-formed or not, leaves those fields alone. */
  lemma V1FieldsFromHead(payload: seq<byte>, tail: seq<byte>)
    requires |payload| >= RESPONSE_LEN
    ensures V1Fields(payload[..RESPONSE_LEN] + tail) == V1Fields(payload)
  {
    var p := payload[..RESPONSE_LEN] + tail;
    assert p[0..32] == payload[0..32] && p[32..40] == payload[32..40];
    assert p[40..74] == payload[40..74] && p[74..78] == payload[74..78];
  }

  /** What `decode_response` extracts; hashes, keys and the content id stay raw bytes. */
  datatype Decoded = Decoded(fields: Fields, responder: Option<seq<byte>>, body: Option<seq<byte>>)

  function DecodeResponse(payload: seq<byte>): Option<Decoded> {
    var v1 := V1Fields(payload);
    if v1.None? then None
    else Some(Decoded(v1.value,
                      if |payload| >= RESPONSE_V2_LEN then Some(payload[78..110]) else None,
                      PrivateBody(payload)))
  }

  predicate FieldsFit(f: Fields) {
    |f.requestHash| == 32 && |f.windowEnd| == 8 && |f.multihash| == 34 && f.length < 0x1_0000_0000
  }

  /** The 174-byte head: the v1 fields, the responder's key and its signature. */
  function Head(f: Fields, key: seq<byte>, sig: seq<byte>): seq<byte> {
    f.requestHash + f.windowEnd + f.multihash + ToLE(f.length) + key + sig
  }

  lemma HeadFields(f: Fields, key: seq<byte>, sig: seq<byte>, tail: seq<byte>)
    requires FieldsFit(f) && |key| == 32 && |sig| == 64
    ensures |Head(f, key, sig)| == RESPONSE_V2_LEN
    ensures V1Fields(Head(f, key, sig) + tail) == Some(f) && (Head(f, key, sig) + tail)[78..110] == key
  {
    hide ToLE, FromLE;
    var p := Head(f, key, sig) + tail;
    LengthRoundTrip(f.length);
    assert p[0..32] == f.requestHash && p[32..40] == f.windowEnd && p[40..74] == f.multihash;
    assert p[74..78] == ToLE(f.length) && p[78..110] == key;
  }

  /** Encoding a whole response and decoding it gives every part back. */
  lemma ResponseRoundTrip(f: Fields, key: seq<byte>, sig: seq<byte>, body: seq<byte>, trace: Option<seq<byte>>)
    requires FieldsFit(f) && |key| == 32 && |sig| == 64 && WellFormed(Head(f, key, sig), body, trace)
    ensures DecodeResponse(Encode(Head(f, key, sig), body, trace)) == Some(Decoded(f, Some(key), Some(body)))
  {
    var head := Head(f, key, sig);
    var tail := Extension(EXT_PRIVATE_BODY, body) + if trace.Some? then Extension(EXT_TRACE, trace.value) else [];
    assert Encode(head, body, trace) == head + tail;
    DecodesEncoded(head, body, trace);
    HeadFields(f, key, sig, tail);
    hide V1Fields, PrivateBody, Encode, Head, Extension;
  }

  /** The first 78 bytes, for given fields. */
  function V1Bytes(f: Fields): seq<byte> {
    f.requestHash + f.windowEnd + f.multihash + ToLE(f.length)
  }

  lemma V1FieldsIff(payload: seq<byte>, f: Fields)
    ensures V1Fields(payload) == Some(f) <==>
      |payload| >= RESPONSE_LEN && FieldsFit(f) && payload[..RESPONSE_LEN] == V1Bytes(f)
  {
    hide ToLE, FromLE;
    if V1Fields(payload) == Some(f) {
      LengthOfBytes(payload[74..78]);
      assert payload[..RESPONSE_LEN] == payload[0..32] + payload[32..40] + payload[40..74] + payload[74..78];
    }
    if |payload| >= RESPONSE_LEN && FieldsFit(f) && payload[..RESPONSE_LEN] == V1Bytes(f) {
      LengthRoundTrip(f.length);
      var p := payload[..RESPONSE_LEN];
      assert payload[0..32] == p[0..32] == f.requestHash && payload[32..40] == p[32..40] == f.windowEnd;
      assert payload[40..74] == p[40..74] == f.multihash && payload[74..78] == p[74..78] == ToLE(f.length);
    }
  }

  /** Some head and trace make `payload` a well-formed response with this inline body. */
  ghost predicate Carries(payload: seq<byte>, body: seq<byte>) {
    exists head, trace :: WellFormed(head, body, trace) && payload == Encode(head, body, trace)
  }

  /** What is decoded, for every payload: nothing unless it has 78 bytes; then the fields are those
      these bytes spell, the responder is there if and only if the payload reaches the 174 bytes of
      the second era, and a body if and only if the payload is well-formed with that body. */
  lemma DecodeResponseIff(payload: seq<byte>, f: Fields, key: Option<seq<byte>>, body: Option<seq<byte>>)
    ensures DecodeResponse(payload) == Some(Decoded(f, key, body)) <==>
      && |payload| >= RESPONSE_LEN && FieldsFit(f) && payload[..RESPONSE_LEN] == V1Bytes(f)
      && key == (if |payload| >= RESPONSE_V2_LEN then Some(payload[78..110]) else None)
      && forall b :: body == Some(b) <==> Carries(payload, b)
  {
    V1FieldsIff(payload, f);
    forall b ensures PrivateBody(payload) == Some(b) <==> Carries(payload, b) {
      BodyIffWellFormed(payload, b);
    }
    hide V1Fields, PrivateBody, Carries, FieldsFit, V1Bytes;
    if forall b :: body == Some(b) <==> Carries(payload, b) {
      assert body.Some? ==> Carries(payload, body.value);
      assert PrivateBody(payload).Some? ==> Carries(payload, PrivateBody(payload).value);
    }
  }

  // --- sealed prompts ---

  const PRIVATE_HEADER_LEN := 51
  const RECIPIENT_LEN := 80

  /** `is_private`: the magic "\\0KXP". */
  predicate IsPrivate(bytes: seq<byte>) {
    |bytes| >= 4 && bytes[0] == 0 && bytes[1] == 0x4b && bytes[2] == 0x58 && bytes[3] == 0x50
  }

  /** Key of recipient `i` of a sealed prompt. */
  function RecipientKey(prompt: seq<byte>, i: nat): seq<byte>
    requires PRIVATE_HEADER_LEN + (i + 1) * RECIPIENT_LEN <= |prompt|
  {
    prompt[PRIVATE_HEADER_LEN + i * RECIPIENT_LEN..PRIVATE_HEADER_LEN + i * RECIPIENT_LEN + 32]
  }

  /** `private_recipient_count`. */
  function RecipientCount(prompt: seq<byte>): Option<nat> {
    if !IsPrivate(prompt) || |prompt| < PRIVATE_HEADER_LEN || prompt[4] != 1 then None
    else
      var n := prompt[PRIVATE_HEADER_LEN - 1];
      if n == 0 || n > 128 || |prompt| < PRIVATE_HEADER_LEN + n * RECIPIENT_LEN + 16 then None
      else if forall i :: 0 <= i < n - 1 ==> Before(RecipientKey(prompt, i), RecipientKey(prompt, i + 1)) then Some(n)
      else None
  }

  lemma {:induction false} KeysAscend(prompt: seq<byte>, n: nat, i: nat, j: nat)
    requires PRIVATE_HEADER_LEN + n * RECIPIENT_LEN <= |prompt| && i < j < n
    requires forall i :: 0 <= i < n - 1 ==> Before(RecipientKey(prompt, i), RecipientKey(prompt, i + 1))
    ensures Before(RecipientKey(prompt, i), RecipientKey(prompt, j))
    decreases j
  {
    hide Before;
    if i < j - 1 {
      KeysAscend(prompt, n, i, j - 1);
      assert Before(RecipientKey(prompt, j - 1), RecipientKey(prompt, j - 1 + 1));
      BeforeIsTransitive(RecipientKey(prompt, i), RecipientKey(prompt, j - 1), RecipientKey(prompt, j));
    } else {
      assert Before(RecipientKey(prompt, i), RecipientKey(prompt, i + 1));
    }
  }

  /** A sealed prompt for `n` recipients: magic and version, their number, room for their entries
      and the tag, and their keys in strictly ascending order. */
  predicate SealedTo(prompt: seq<byte>, n: nat) {
    && 1 <= n <= 128 && |prompt| >= PRIVATE_HEADER_LEN + n * RECIPIENT_LEN + 16
    && prompt[..5] == [0, 0x4b, 0x58, 0x50, 1] && prompt[PRIVATE_HEADER_LEN - 1] == n
    && forall i, j :: 0 <= i < j < n ==> Before(RecipientKey(prompt, i), RecipientKey(prompt, j))
  }

  lemma MagicIs(prompt: seq<byte>)
    requires |prompt| >= PRIVATE_HEADER_LEN
    ensures IsPrivate(prompt) && prompt[4] == 1 <==> prompt[..5] == [0, 0x4b, 0x58, 0x50, 1]
  {
    assert forall i :: 0 <= i < 5 ==> prompt[..5][i] == prompt[i];
  }

  /** Recipients are counted if and only if the prompt is sealed to that many; checking neighbouring
      keys is enough for all of them. */
  lemma RecipientCountIff(prompt: seq<byte>, n: nat)
    ensures RecipientCount(prompt) == Some(n) <==> SealedTo(prompt, n)
  {
    hide Before, RecipientKey, IsPrivate;
    if |prompt| >= PRIVATE_HEADER_LEN {
      MagicIs(prompt);
    }
    if RecipientCount(prompt) == Some(n) {
      forall i, j | 0 <= i < j < n ensures Before(RecipientKey(prompt, i), RecipientKey(prompt, j)) {
        KeysAscend(prompt, n, i, j);
      }
    }
  }

  /** So the recipients counted are pairwise different. */
  lemma RecipientsAreDistinct(prompt: seq<byte>, i: nat, j: nat)
    requires RecipientCount(prompt).Some? && i < j < RecipientCount(prompt).value
    ensures PRIVATE_HEADER_LEN + (j + 1) * RECIPIENT_LEN <= |prompt|
    ensures RecipientKey(prompt, i) != RecipientKey(prompt, j)
  {
    RecipientCountIff(prompt, RecipientCount(prompt).value);
    hide Before, RecipientCount;
    BeforeIsAsymmetric(RecipientKey(prompt, i), RecipientKey(prompt, i));
  }
}
