/**
  The note encryption service: AES-GCM with a key derived from the password
  by PBKDF2, an envelope of salt, IV and ciphertext carried as base64, the
  password-strength check and the password generator.

  The browser primitives (the UTF-8 codec, PBKDF2, AES-GCM, SHA-256, JSON
  and base64) are the fields of a `Platform` value; random bytes and clock
  readings are parameters.
*/
module Encryption {
  import opened Base
  import opened Strings
  import Js

  type byte = b: int | 0 <= b < 256

  const SaltLength := 16
  const IvLength := 12
  const Iterations := 100000
  const KeyLength := 256
  const EncryptError := "Failed to encrypt note"
  const DecryptError := "Invalid password or corrupted data"

  /** The browser primitives the service calls; the cipher and key functions stand for `crypto.subtle`. */
  datatype Platform = Platform(
    utf8Encode: string -> seq<byte>,
    utf8Decode: seq<byte> -> string,
    pbkdf2: (seq<byte>, seq<byte>, nat, nat) -> seq<byte>,
    seal: (seq<byte>, seq<byte>, seq<byte>) -> Option<seq<byte>>,
    open: (seq<byte>, seq<byte>, seq<byte>) -> Option<seq<byte>>,
    sha256: seq<byte> -> seq<byte>,
    stringify: Js.Value -> string,
    parse: string -> Option<Js.Value>,
    btoa: string -> string,
    atob: string -> Option<string>)

  /** A string whose code units are all below 256, as `atob` returns and `btoa` accepts. */
  predicate IsBinary(s: string) {
    forall i :: 0 <= i < |s| ==> s[i] as int < 256
  }

  /**
    What the round trip relies on: opening what was sealed under the same key
    and IV gives the plaintext back, UTF-8 decoding undoes encoding, parsing
    undoes `JSON.stringify`, and `atob` undoes `btoa` on binary strings.
  */
  ghost predicate Sound(p: Platform) {
    && (forall key, iv, pt :: p.seal(key, iv, pt).Some? ==> p.open(key, iv, p.seal(key, iv, pt).value) == Some(pt))
    && (forall s :: p.utf8Decode(p.utf8Encode(s)) == s)
    && (forall v :: p.parse(p.stringify(v)) == Some(v))
    && (forall s :: IsBinary(s) ==> p.atob(p.btoa(s)) == Some(s))
  }

  datatype EncryptedNote = EncryptedNote(encryptedContent: string, isEncrypted: bool, encryptedAt: string)

  /** `{ content, timestamp, success }` on success, `{ content: null, success: false, error }` on failure. */
  datatype DecryptResult = DecryptResult(content: Js.Value, timestamp: Js.Value, success: bool, error: Option<string>)

  const DecryptFailure := DecryptResult(Js.Null, Js.Undefined, false, Some(DecryptError))

  /** PBKDF2 over the UTF-8 password with SHA-256, 100000 iterations, a 256-bit AES-GCM key. */
  function DeriveKey(p: Platform, password: string, salt: seq<byte>): seq<byte> {
    p.pbkdf2(p.utf8Encode(password), salt, Iterations, KeyLength)
  }

  /** The plaintext object `{ content, timestamp }` that is stringified and sealed. */
  function PayloadOf(content: string, timestamp: string): Js.Value {
    Js.Object(map["content" := Js.Str(content), "timestamp" := Js.Str(timestamp)])
  }

  /** `String.fromCharCode` of every byte, concatenated. */
  function BytesToBinary(b: seq<byte>): (s: string)
    ensures |s| == |b| && IsBinary(s)
  {
    seq(|b|, i requires 0 <= i < |b| => b[i] as char)
  }

  /** `charCodeAt` of every code unit, stored into a `Uint8Array` (so taken modulo 256). */
  function BinaryToBytes(s: string): (b: seq<byte>)
    ensures |b| == |s|
  {
    seq(|s|, i requires 0 <= i < |s| => (s[i] as int) % 256)
  }

  /** What `encryptNote` returns, or the message of the error it throws. */
  function EncryptSpec(p: Platform, content: string, password: string, salt: seq<byte>, iv: seq<byte>,
                       timestamp: string, encryptedAt: string): Result<EncryptedNote>
  {
    var data := p.utf8Encode(p.stringify(PayloadOf(content, timestamp)));
    match p.seal(DeriveKey(p, password, salt), iv, data)
    case None => Err(EncryptError)
    case Some(ct) => Ok(EncryptedNote(p.btoa(BytesToBinary(salt + iv + ct)), true, encryptedAt))
  }

  /** What `decryptNote` returns: every failing step (bad base64, failed authentication, bad JSON, `null`) gives the same failure object. */
  function DecryptSpec(p: Platform, encryptedContent: string, password: string): (r: DecryptResult)
    ensures !r.success ==> r == DecryptFailure
    ensures r.success ==> r.error.None?
  {
    match p.atob(encryptedContent)
    case None => DecryptFailure
    case Some(binary) =>
      var data := BinaryToBytes(binary);
      var salt, iv, ct := Slice(data, 0, SaltLength), Slice(data, SaltLength, SaltLength + IvLength), Slice(data, SaltLength + IvLength, |data|);
      match p.open(DeriveKey(p, password, salt), iv, ct)
      case None => DecryptFailure
      case Some(plain) =>
        match p.parse(p.utf8Decode(plain))
        case None => DecryptFailure
        case Some(v) =>
          if v.Null? then DecryptFailure
          else DecryptResult(Js.Get(v, "content"), Js.Get(v, "timestamp"), true, None)
  }

  /** `target.set(src, offset)` on a `Uint8Array`. */
  method SetAt(target: array<byte>, src: seq<byte>, offset: nat)
    requires offset + |src| <= target.Length
    modifies target
    ensures target[..] == old(target[..offset]) + src + old(target[offset + |src|..])
  {
    ghost var before := target[..];
    var i := 0;
    while i < |src|
      invariant 0 <= i <= |src|
      invariant target[..] == before[..offset] + src[..i] + before[offset + i..]
    {
      target[offset + i] := src[i];
      i := i + 1;
    }
  }

  /** The `Uint8Array` holding salt, IV and ciphertext one after the other. */
  method BuildEnvelope(salt: seq<byte>, iv: seq<byte>, ct: seq<byte>) returns (result: array<byte>)
    ensures fresh(result) && result[..] == salt + iv + ct
  {
    result := new byte[|salt| + |iv| + |ct|](_ => 0);
    ghost var zeros := result[..];
    SetAt(result, salt, 0);
    ghost var s1 := result[..];
    assert s1 == salt + zeros[|salt|..];
    assert s1[..|salt|] == salt;
    SetAt(result, iv, |salt|);
    ghost var s2 := result[..];
    assert s2 == salt + iv + zeros[|salt| + |iv|..];
    assert s2[..|salt| + |iv|] == salt + iv;
    SetAt(result, ct, |salt| + |iv|);
  }

  /** `arrayBufferToBase64`: the bytes as a binary string, then `btoa`. */
  method ArrayBufferToBase64(p: Platform, bytes: array<byte>) returns (s: string)
    ensures s == p.btoa(BytesToBinary(bytes[..]))
  {
    var binary := "";
    var i := 0;
    while i < bytes.Length
      invariant 0 <= i <= bytes.Length
      invariant binary == BytesToBinary(bytes[..i])
    {
      binary := binary + [bytes[i] as char];
      i := i + 1;
    }
    assert bytes[..i] == bytes[..];
    s := p.btoa(binary);
  }

  /** `base64ToArrayBuffer`: `atob`, then every code unit into a fresh `Uint8Array`; `None` where `atob` throws. */
  method Base64ToArrayBuffer(p: Platform, base64: string) returns (r: Option<array<byte>>)
    ensures r.None? <==> p.atob(base64).None?
    ensures r.Some? ==> fresh(r.value) && r.value[..] == BinaryToBytes(p.atob(base64).value)
  {
    var decoded := p.atob(base64);
    if decoded.None? {
      return None;
    }
    var binary := decoded.value;
    var bytes := new byte[|binary|](_ => 0);
    var i := 0;
    while i < |binary|
      invariant 0 <= i <= |binary|
      invariant bytes[..i] == BinaryToBytes(binary)[..i]
    {
      bytes[i] := (binary[i] as int) % 256;
      i := i + 1;
    }
    assert bytes[..] == bytes[..i];
    r := Some(bytes);
  }

  /** `encryptNote(content, password)`, with the random salt and IV and the two clock readings as parameters. */
  method EncryptNote(p: Platform, content: string, password: string, salt: seq<byte>, iv: seq<byte>,
                     timestamp: string, encryptedAt: string) returns (r: Result<EncryptedNote>)
    requires |salt| == SaltLength && |iv| == IvLength
    ensures r == EncryptSpec(p, content, password, salt, iv, timestamp, encryptedAt)
  {
    var data := p.utf8Encode(p.stringify(PayloadOf(content, timestamp)));
    var key := DeriveKey(p, password, salt);
    var sealed := p.seal(key, iv, data);
    if sealed.None? {
      return Err(EncryptError);
    }
    var result := BuildEnvelope(salt, iv, sealed.value);
    var encoded := ArrayBufferToBase64(p, result);
    r := Ok(EncryptedNote(encoded, true, encryptedAt));
  }

  /** `decryptNote(encryptedContent, password)`. */
  method DecryptNote(p: Platform, encryptedContent: string, password: string) returns (r: DecryptResult)
    ensures r == DecryptSpec(p, encryptedContent, password)
  {
    var buffer := Base64ToArrayBuffer(p, encryptedContent);
    if buffer.None? {
      return DecryptFailure;
    }
    var data := buffer.value[..];
    var salt := Slice(data, 0, SaltLength);
    var iv := Slice(data, SaltLength, SaltLength + IvLength);
    var ct := Slice(data, SaltLength + IvLength, |data|);
    var decrypted := p.open(DeriveKey(p, password, salt), iv, ct);
    if decrypted.None? {
      return DecryptFailure;
    }
    var parsed := p.parse(p.utf8Decode(decrypted.value));
    if parsed.None? || parsed.value.Null? {
      return DecryptFailure;
    }
    r := DecryptResult(Js.Get(parsed.value, "content"), Js.Get(parsed.value, "timestamp"), true, None);
  }

  /** `verifyPassword`: whether decryption succeeds. */
  method VerifyPassword(p: Platform, encryptedContent: string, password: string) returns (ok: bool)
    ensures ok == DecryptSpec(p, encryptedContent, password).success
  {
    var result := DecryptNote(p, encryptedContent, password);
    ok := result.success;
  }

  /** `hashPassword`: SHA-256 of the UTF-8 password, as base64. */
  method HashPassword(p: Platform, password: string) returns (s: string)
    ensures s == p.btoa(BytesToBinary(p.sha256(p.utf8Encode(password))))
  {
    var digest := p.sha256(p.utf8Encode(password));
    var bytes := new byte[|digest|](i requires 0 <= i < |digest| => digest[i]);
    assert bytes[..] == digest;
    s := ArrayBufferToBase64(p, bytes);
  }

  lemma BinaryRoundTrip(b: seq<byte>)
    ensures BinaryToBytes(BytesToBinary(b)) == b
  {
  }

  /** Slicing the envelope at 16 and 28 gives back salt, IV and ciphertext. */
  lemma SplitEnvelope(salt: seq<byte>, iv: seq<byte>, ct: seq<byte>)
    requires |salt| == SaltLength && |iv| == IvLength
    ensures var data := salt + iv + ct;
            Slice(data, 0, SaltLength) == salt
            && Slice(data, SaltLength, SaltLength + IvLength) == iv
            && Slice(data, SaltLength + IvLength, |data|) == ct
  {
    var data := salt + iv + ct;
    assert data[..SaltLength] == salt;
    assert data[SaltLength..SaltLength + IvLength] == iv;
    assert data[SaltLength + IvLength..] == ct;
  }

  /**
    Decrypting what `encryptNote` produced, with the same password, succeeds
    and gives back the content and the timestamp that were sealed.
  */
  lemma EncryptThenDecrypt(p: Platform, content: string, password: string, salt: seq<byte>, iv: seq<byte>,
                           timestamp: string, encryptedAt: string)
    requires Sound(p) && |salt| == SaltLength && |iv| == IvLength
    requires EncryptSpec(p, content, password, salt, iv, timestamp, encryptedAt).Ok?
    ensures DecryptSpec(p, EncryptSpec(p, content, password, salt, iv, timestamp, encryptedAt).value.encryptedContent, password)
            == DecryptResult(Js.Str(content), Js.Str(timestamp), true, None)
  {
    var data := p.utf8Encode(p.stringify(PayloadOf(content, timestamp)));
    var key := DeriveKey(p, password, salt);
    var ct := p.seal(key, iv, data).value;
    var envelope := salt + iv + ct;
    var binary := BytesToBinary(envelope);
    assert p.atob(p.btoa(binary)) == Some(binary);
    BinaryRoundTrip(envelope);
    SplitEnvelope(salt, iv, ct);
    assert p.open(key, iv, ct) == Some(data);
    assert p.parse(p.utf8Decode(data)) == Some(PayloadOf(content, timestamp));
  }

  /** With the password the note was encrypted with, `verifyPassword` answers true. */
  lemma VerifyOwnPassword(p: Platform, content: string, password: string, salt: seq<byte>, iv: seq<byte>,
                          timestamp: string, encryptedAt: string)
    requires Sound(p) && |salt| == SaltLength && |iv| == IvLength
    requires EncryptSpec(p, content, password, salt, iv, timestamp, encryptedAt).Ok?
    ensures DecryptSpec(p, EncryptSpec(p, content, password, salt, iv, timestamp, encryptedAt).value.encryptedContent, password).success
  {
    EncryptThenDecrypt(p, content, password, salt, iv, timestamp, encryptedAt);
  }

  /** Input that is not base64 is reported as the decryption failure, never as an exception. */
  lemma BadBase64Fails(p: Platform, encryptedContent: string, password: string)
    requires p.atob(encryptedContent).None?
    ensures DecryptSpec(p, encryptedContent, password) == DecryptFailure
  {
  }

  // ---------------------------------------------------------------------
  // Password generation

  /** The `n` consecutive characters from `first` on. */
  function CharRange(first: char, n: nat): (r: string)
    requires first as int + n <= 0xD800
    ensures |r| == n && forall i :: 0 <= i < n ==> r[i] as int == first as int + i
  {
    seq(n, i requires 0 <= i < n => (first as int + i) as char)
  }

  /** The generator's alphabet: A to Z, a to z, 0 to 9, then `!@#$%^&*` (70 characters). */
  const Charset := CharRange('A', 26) + CharRange('a', 26) + CharRange('0', 10) + "!@#$%^&*"

  /** `generateSecurePassword(length)`: one charset character per random byte, indexed by the byte modulo the charset size. */
  method GenerateSecurePassword(length: nat, randomBytes: seq<byte>) returns (password: string)
    requires |randomBytes| == length
    ensures |password| == length
    ensures forall i :: 0 <= i < length ==> password[i] == Charset[randomBytes[i] % |Charset|]
    ensures forall i :: 0 <= i < length ==> password[i] in Charset
  {
    password := "";
    var i := 0;
    while i < length
      invariant 0 <= i <= length && |password| == i
      invariant forall j :: 0 <= j < i ==> password[j] == Charset[randomBytes[j] % |Charset|]
    {
      password := password + [Charset[randomBytes[i] % |Charset|]];
      i := i + 1;
    }
  }

  // ---------------------------------------------------------------------
  // Password strength

  const MinLength := 8

  predicate IsUpper(c: char) { 'A' <= c <= 'Z' }
  predicate IsLower(c: char) { 'a' <= c <= 'z' }

  /** The class `[!@#$%^&*(),.?":{}|<>]`. */
  predicate IsSpecial(c: char) {
    c in "!@#$%^&*(),.?\":{}|<>"
  }

  predicate HasUpper(s: string) { exists i | 0 <= i < |s| :: IsUpper(s[i]) }
  predicate HasLower(s: string) { exists i | 0 <= i < |s| :: IsLower(s[i]) }
  predicate HasDigit(s: string) { exists i | 0 <= i < |s| :: IsDigit(s[i]) }
  predicate HasSpecial(s: string) { exists i | 0 <= i < |s| :: IsSpecial(s[i]) }

  /** The five criteria, in the order they are checked. */
  function Checks(password: string): seq<bool> {
    [JsLength(password) >= MinLength, HasUpper(password), HasLower(password), HasDigit(password), HasSpecial(password)]
  }

  /** The advice given for each unmet criterion, in the same order. */
  const Advice: seq<string> := [
    "At least " + NatToString(MinLength) + " characters",
    "Include uppercase letters",
    "Include lowercase letters",
    "Include numbers",
    "Include special characters"]

  datatype Strength = Strength(score: nat, strength: string, feedback: seq<string>, isValid: bool)

  function CountMet(checks: seq<bool>): nat {
    if checks == [] then 0 else (if checks[0] then 1 else 0) + CountMet(checks[1..])
  }

  function Unmet(checks: seq<bool>, advice: seq<string>): seq<string>
    requires |checks| == |advice|
  {
    if checks == [] then [] else (if checks[0] then [] else [advice[0]]) + Unmet(checks[1..], advice[1..])
  }

  function Label(score: nat): string {
    if score <= 2 then "weak" else if score <= 3 then "medium" else if score <= 4 then "strong" else "very strong"
  }

  /** The verdict: one point per met criterion, the advice for each unmet one, valid from three points. */
  function StrengthOf(password: string): Strength {
    var checks := Checks(password);
    var score := CountMet(checks);
    Strength(score, Label(score), Unmet(checks, Advice), score >= 3)
  }

  function Point(met: bool): nat {
    if met then 1 else 0
  }

  function AdviceIf(met: bool, advice: string): seq<string> {
    if met then [] else [advice]
  }

  /** Five criteria, counted one after the other. */
  lemma {:induction false} FivePoints(c: seq<bool>)
    requires |c| == 5
    ensures CountMet(c) == Point(c[0]) + Point(c[1]) + Point(c[2]) + Point(c[3]) + Point(c[4])
  {
    var c1 := c[1..];
    var c2 := c1[1..];
    var c3 := c2[1..];
    var c4 := c3[1..];
    assert c4[1..] == [];
    assert CountMet(c4) == Point(c[4]);
    assert CountMet(c3) == Point(c[3]) + Point(c[4]);
    assert CountMet(c2) == Point(c[2]) + Point(c[3]) + Point(c[4]);
  }

  /** The advice for five criteria, collected one after the other. */
  lemma {:induction false} FiveAdvice(c: seq<bool>, a: seq<string>)
    requires |c| == 5 && |a| == 5
    ensures Unmet(c, a) == AdviceIf(c[0], a[0]) + AdviceIf(c[1], a[1]) + AdviceIf(c[2], a[2]) + AdviceIf(c[3], a[3]) + AdviceIf(c[4], a[4])
  {
    var x0, x1, x2, x3, x4 := AdviceIf(c[0], a[0]), AdviceIf(c[1], a[1]), AdviceIf(c[2], a[2]), AdviceIf(c[3], a[3]), AdviceIf(c[4], a[4]);
    var c1, a1 := c[1..], a[1..];
    var c2, a2 := c1[1..], a1[1..];
    var c3, a3 := c2[1..], a2[1..];
    var c4, a4 := c3[1..], a3[1..];
    assert c4[1..] == [] && a4[1..] == [];
    assert Unmet(c4, a4) == x4;
    assert Unmet(c3, a3) == x3 + x4;
    assert Unmet(c2, a2) == x2 + (x3 + x4);
    assert Unmet(c1, a1) == x1 + (x2 + (x3 + x4));
    assert Unmet(c, a) == x0 + (x1 + (x2 + (x3 + x4)));
    Regroup(x0, x1, x2, x3, x4);
  }

  /** Concatenation regrouped from the right to the left. */
  lemma Regroup<T>(x0: seq<T>, x1: seq<T>, x2: seq<T>, x3: seq<T>, x4: seq<T>)
    ensures x0 + (x1 + (x2 + (x3 + x4))) == x0 + x1 + x2 + x3 + x4
  {
    assert x2 + (x3 + x4) == x2 + x3 + x4;
    assert x1 + (x2 + x3 + x4) == x1 + x2 + x3 + x4;
  }

  /** Five criteria, checked one after the other. */
  lemma FiveCriteria(c: seq<bool>, a: seq<string>)
    requires |c| == 5 && |a| == 5
    ensures CountMet(c) == Point(c[0]) + Point(c[1]) + Point(c[2]) + Point(c[3]) + Point(c[4])
    ensures Unmet(c, a) == AdviceIf(c[0], a[0]) + AdviceIf(c[1], a[1]) + AdviceIf(c[2], a[2]) + AdviceIf(c[3], a[3]) + AdviceIf(c[4], a[4])
  {
    FivePoints(c);
    FiveAdvice(c, a);
  }

  /** `checkPasswordStrength`: the criteria tested one after the other, each adding a point or a line of advice. */
  method CheckPasswordStrength(password: string) returns (r: Strength)
    ensures r == StrengthOf(password)
  {
    var hasUpperCase := HasUpper(password);
    var hasLowerCase := HasLower(password);
    var hasNumbers := HasDigit(password);
    var hasSpecialChar := HasSpecial(password);
    ghost var c := Checks(password);
    ghost var x0, x1, x2, x3, x4 := AdviceIf(c[0], Advice[0]), AdviceIf(c[1], Advice[1]), AdviceIf(c[2], Advice[2]), AdviceIf(c[3], Advice[3]), AdviceIf(c[4], Advice[4]);
    var score := 0;
    var feedback := [];
    if JsLength(password) >= MinLength { score := score + 1; } else { feedback := feedback + [Advice[0]]; }
    assert score == Point(c[0]) && feedback == x0;
    if hasUpperCase { score := score + 1; } else { feedback := feedback + [Advice[1]]; }
    assert score == Point(c[0]) + Point(c[1]) && feedback == x0 + x1;
    if hasLowerCase { score := score + 1; } else { feedback := feedback + [Advice[2]]; }
    assert score == Point(c[0]) + Point(c[1]) + Point(c[2]) && feedback == x0 + x1 + x2;
    if hasNumbers { score := score + 1; } else { feedback := feedback + [Advice[3]]; }
    assert score == Point(c[0]) + Point(c[1]) + Point(c[2]) + Point(c[3]) && feedback == x0 + x1 + x2 + x3;
    if hasSpecialChar { score := score + 1; } else { feedback := feedback + [Advice[4]]; }
    assert score == Point(c[0]) + Point(c[1]) + Point(c[2]) + Point(c[3]) + Point(c[4]) && feedback == x0 + x1 + x2 + x3 + x4;
    FiveCriteria(c, Advice);
    assert score == CountMet(c) && feedback == Unmet(c, Advice);
    r := Strength(score, Label(score), feedback, score >= 3);
  }

  /** Each criterion gives either a point or its own line of advice, never both. */
  lemma {:induction false} CountAndUnmet(checks: seq<bool>, advice: seq<string>)
    requires |checks| == |advice|
    ensures CountMet(checks) + |Unmet(checks, advice)| == |checks|
    ensures IsSubsequence(Unmet(checks, advice), advice)
    ensures forall i :: 0 <= i < |checks| && !checks[i] ==> advice[i] in Unmet(checks, advice)
  {
    if checks != [] {
      CountAndUnmet(checks[1..], advice[1..]);
      var rest := Unmet(checks[1..], advice[1..]);
      if checks[0] {
        assert Unmet(checks, advice) == rest;
        if rest != [] {
          assert IsSubsequence(rest, advice[1..]);
        }
      } else {
        assert Unmet(checks, advice) == [advice[0]] + rest;
        assert (Unmet(checks, advice))[1..] == rest;
      }
      assert forall i :: 1 <= i < |checks| ==> checks[i] == checks[1..][i - 1] && advice[i] == advice[1..][i - 1];
    }
  }

  /**
    The score and the advice together account for all five criteria; the
    advice keeps the order of the criteria and names every unmet one; the
    verdict is valid exactly from three points, and the label follows the
    score.
  */
  lemma StrengthAccounting(password: string)
    ensures var r := StrengthOf(password);
            && r.score + |r.feedback| == 5
            && r.score <= 5
            && IsSubsequence(r.feedback, Advice)
            && (forall i :: 0 <= i < 5 && !Checks(password)[i] ==> Advice[i] in r.feedback)
            && (r.isValid <==> r.score >= 3)
            && (r.feedback == [] <==> r.strength == "very strong")
  {
    CountAndUnmet(Checks(password), Advice);
  }

  /** A short lowercase word meets only the lowercase criterion. */
  lemma ShortLowercaseIsWeak()
    ensures StrengthOf("abc") == Strength(1, "weak", [Advice[0], Advice[1], Advice[3], Advice[4]], false)
  {
    assert !HasUpper("abc") && !HasDigit("abc") && !HasSpecial("abc");
    assert IsLower("abc"[0]);
    JsLengthBounds("abc");
    FiveCriteria(Checks("abc"), Advice);
  }

  /** A long password mixing all four character classes meets all five criteria. */
  lemma MixedPasswordIsVeryStrong()
    ensures StrengthOf("Tr0ub4dor&3") == Strength(5, "very strong", [], true)
  {
    var s := "Tr0ub4dor&3";
    assert IsUpper(s[0]) && IsLower(s[1]) && IsDigit(s[2]) && IsSpecial(s[9]);
    JsLengthBounds(s);
    FiveCriteria(Checks(s), Advice);
  }

  /** Every character the generator can produce counts toward one of the four character-class criteria. */
  lemma CharsetMeetsCriteria(i: nat)
    requires i < |Charset|
    ensures IsUpper(Charset[i]) || IsLower(Charset[i]) || IsDigit(Charset[i]) || IsSpecial(Charset[i])
  {
    if i < 26 {
      assert IsUpper(Charset[i]);
    } else if i < 52 {
      assert IsLower(Charset[i]);
    } else if i < 62 {
      assert IsDigit(Charset[i]);
    } else {
      assert IsSpecial(Charset[i]);
    }
  }
}
