/**
  The bookkeeping of the AI glossary service: the 32-bit rolling hash used as
  a cache key, the guards and the cache around the (foreign) Gemini request,
  the filter applied to the term/definition pairs of a response, and the
  configuration test. The request itself is not modelled: its outcome is a
  parameter.
*/
module Ai {
  import opened Base
  import opened Strings
  import Js

  // ---------------------------------------------------------------------
  // hashText

  const TwoTo31: int := 0x8000_0000
  const TwoTo32: int := 0x1_0000_0000

  /** JavaScript's ToInt32: `x` wrapped into the signed 32-bit range. */
  function Int32(x: int): (r: int)
    ensures -TwoTo31 <= r < TwoTo31
  {
    (x + TwoTo31) % TwoTo32 - TwoTo31
  }

  /**
    The value of `hash` after the loop has consumed the code units `s`: each
    step computes `((hash << 5) - hash) + code` and truncates it with
    `hash & hash`, which is `Int32(31 * hash + code)`.
  */
  function HashFold(s: seq<int>): int
  {
    if s == [] then 0 else Int32(31 * HashFold(s[..|s| - 1]) + s[|s| - 1])
  }

  /** A cache key: `hashText('')` returns the number 0, any other text the decimal string of `|hash|`. */
  datatype CacheKey = NumberKey(n: int) | StringKey(s: string)

  function Abs(x: int): nat {
    if x < 0 then -x else x
  }

  /** The key `hashText` returns for `text`, hashed over its UTF-16 code units. */
  function HashKey(text: string): CacheKey {
    var units := Utf16(text);
    if |units| == 0 then NumberKey(0) else StringKey(NatToString(Abs(HashFold(units))))
  }

  /** `hashText`: the loop over the `charCodeAt` codes, one UTF-16 code unit at a time. */
  method HashText(text: string) returns (key: CacheKey)
    ensures key == HashKey(text)
    ensures key.StringKey? ==> 1 <= |key.s| <= 10 && forall i :: 0 <= i < |key.s| ==> IsDigit(key.s[i])
  {
    var units := Utf16(text);
    var hash := 0;
    if |units| == 0 {
      return NumberKey(0);
    }
    var i := 0;
    while i < |units|
      invariant 0 <= i <= |units|
      invariant hash == HashFold(units[..i])
    {
      assert units[..i + 1][..i] == units[..i];
      hash := Int32(31 * hash + units[i]);
      i := i + 1;
    }
    assert units[..i] == units;
    key := StringKey(NatToString(Abs(hash)));
    DigitsBound(key.s, Abs(hash));
  }

  /** A decimal spelling without a leading zero of a value at most 2^31 has at most ten digits. */
  lemma DigitsBound(r: string, n: nat)
    requires r == NatToString(n) && n <= TwoTo31
    ensures |r| <= 10
  {
    if |r| > 10 {
      LeadingDigitBound(r);
      Pow10Grows(|r| - 1);
      assert false;
    }
  }

  lemma {:induction false} Pow10Grows(k: nat)
    requires k >= 10
    ensures Pow10(k) >= 10_000_000_000
  {
    if k > 10 {
      Pow10Grows(k - 1);
    } else {
      assert Pow10(k) == 10 * 10 * 10 * 10 * 10 * 10 * 10 * 10 * 10 * 10 * Pow10(0);
    }
  }

  /** A string of digits not starting with '0' has a value of at least 10^(length - 1). */
  lemma {:induction false} LeadingDigitBound(r: string)
    requires |r| >= 1 && r[0] != '0' && forall i :: 0 <= i < |r| ==> IsDigit(r[i])
    ensures DecimalValue(r) >= Pow10(|r| - 1)
  {
    if |r| > 1 {
      var p := r[..|r| - 1];
      assert p[0] == r[0];
      LeadingDigitBound(p);
    }
  }

  function Pow10(k: nat): (p: nat)
    ensures p >= 1
  {
    if k == 0 then 1 else 10 * Pow10(k - 1)
  }

  /** The hash without wrap-around: the polynomial sum of s[i] * 31^(n-1-i). */
  function Polynomial(s: seq<int>): int {
    if s == [] then 0 else 31 * Polynomial(s[..|s| - 1]) + s[|s| - 1]
  }

  lemma ModUnique(a: int, q: int, r: int)
    requires a == TwoTo32 * q + r && 0 <= r < TwoTo32
    ensures a % TwoTo32 == r
  {
  }

  /** Adding a multiple of 2^32 does not change the wrapped value. */
  lemma Int32Periodic(y: int, m: int)
    ensures Int32(y + TwoTo32 * m) == Int32(y)
  {
    var q, r := (y + TwoTo31) / TwoTo32, (y + TwoTo31) % TwoTo32;
    ModUnique(y + TwoTo31 + TwoTo32 * m, q + m, r);
  }

  /**
    The rolling hash is the polynomial hash taken modulo 2^32 (as a signed
    32-bit value): truncating at every step gives the same result as
    truncating once at the end.
  */
  lemma {:induction false} HashIsWrappedPolynomial(s: seq<int>)
    ensures HashFold(s) == Int32(Polynomial(s))
  {
    if s != [] {
      var p := s[..|s| - 1];
      var c := s[|s| - 1];
      HashIsWrappedPolynomial(p);
      var x := Polynomial(p);
      var m := -((x + TwoTo31) / TwoTo32);
      assert Int32(x) == x + TwoTo32 * m;
      calc {
        HashFold(s);
        Int32(31 * Int32(x) + c);
        { assert 31 * Int32(x) + c == (31 * x + c) + TwoTo32 * (31 * m); }
        Int32((31 * x + c) + TwoTo32 * (31 * m));
        { Int32Periodic(31 * x + c, 31 * m); }
        Int32(31 * x + c);
      }
    }
  }

  /** Code units that hash alike keep hashing alike when the same units are appended to both. */
  lemma {:induction false} HashFoldExtends(a: seq<int>, b: seq<int>, t: seq<int>)
    requires HashFold(a) == HashFold(b)
    ensures HashFold(a + t) == HashFold(b + t)
  {
    if t == [] {
      assert a + t == a && b + t == b;
    } else {
      var u := t[..|t| - 1];
      var c := t[|t| - 1];
      HashFoldExtends(a, b, u);
      assert (a + t)[|a + t| - 1] == t[|t| - 1] == (b + t)[|b + t| - 1];
      assert (a + t)[..|a + t| - 1] == a + u;
      assert (b + t)[..|b + t| - 1] == b + u;
      calc {
        HashFold(a + t);
        Int32(31 * HashFold(a + u) + c);
        Int32(31 * HashFold(b + u) + c);
        HashFold(b + t);
      }
    }
  }

  /**
    The cache key does not identify the text: "Aa" and "BB" hash alike, and so
    does every pair of texts obtained by appending the same suffix to them,
    however long.
  */
  lemma CollidingTexts(t: string)
    ensures "Aa" + t != "BB" + t
    ensures HashKey("Aa" + t) == HashKey("BB" + t)
  {
    assert ("Aa" + t)[0] != ("BB" + t)[0];
    AaAndBB();
    Utf16Concat("Aa", t);
    Utf16Concat("BB", t);
    HashFoldExtends([65, 97], [66, 66], Utf16(t));
    var u, v := Utf16("Aa" + t), Utf16("BB" + t);
    assert u == [65, 97] + Utf16(t) && v == [66, 66] + Utf16(t);
    assert |u| > 0 && |v| > 0 && HashFold(u) == HashFold(v);
  }

  /** "Aa" and "BB" are the code units 65, 97 and 66, 66, whose hashes agree: 31 * 65 + 97 == 31 * 66 + 66. */
  lemma AaAndBB()
    ensures Utf16("Aa") == [65, 97] && Utf16("BB") == [66, 66]
    ensures HashFold([65, 97]) == HashFold([66, 66])
  {
    assert "Aa"[..1] == "A" && "BB"[..1] == "B";
    assert "A"[..0] == [] && "B"[..0] == [];
    assert [65, 97][..1] == [65] && [66, 66][..1] == [66];
    assert [65][..0] == [] && [66][..0] == [];
  }

  // ---------------------------------------------------------------------
  // isConfigured

  const Placeholder := "your_google_gemini_api_key_here"

  /** `isConfigured`: a key is present, is not the placeholder, and is longer than ten code units. */
  predicate IsConfigured(apiKey: Option<string>) {
    apiKey.Some? && apiKey.value != "" && apiKey.value != Placeholder && JsLength(apiKey.value) > 10
  }

  /** The truthiness test on the key is implied by the length test, and the placeholder alone is long enough to pass it. */
  lemma IsConfiguredCases(apiKey: Option<string>)
    ensures IsConfigured(apiKey) <==> apiKey.Some? && apiKey.value != Placeholder && JsLength(apiKey.value) > 10
    ensures JsLength(Placeholder) > 10 && !IsConfigured(Some(Placeholder))
  {
    JsLengthBounds(Placeholder);
  }

  // ---------------------------------------------------------------------
  // parseGeminiResponse

  /** The terms found in a text: a term mapped to its definition. */
  type Terms = map<string, string>

  /** The raw length test applied to a pair before it is cleaned. */
  predicate Acceptable(term: string, definition: Js.Value) {
    definition.Str? && 1 < JsLength(term) < 50 && 10 < JsLength(definition.s) < 300
  }

  /** `s.replace(/"/g, '')`. */
  function RemoveQuotes(s: string): (r: string)
    ensures |r| <= |s|
    ensures forall i :: 0 <= i < |r| ==> r[i] != '"'
  {
    Filter(s, (c: char) => c != '"')
  }

  /** `s.trim().replace(/"/g, '')`. */
  function Clean(s: string): (r: string)
    ensures |r| <= |s|
    ensures forall i :: 0 <= i < |r| ==> r[i] != '"'
  {
    RemoveQuotes(Trim(s))
  }

  /**
    Whether `validDefinitions[Clean(term)] = Clean(definition)` is run and
    stores anything: the pair is acceptable, and its term does not clean to
    `__proto__`, which the fresh object `{}` has only as an inherited accessor
    that ignores a string.
  */
  predicate Stores(term: string, definition: Js.Value) {
    Acceptable(term, definition) && Clean(term) != Js.ProtoKey
  }

  /**
    The object `forEach` builds from the entries, in order: every pair that
    stores writes its cleaned definition under its cleaned term, so a later
    pair overwrites an earlier one whose term cleans to the same key.
  */
  function KeptDefinitions(entries: seq<(string, Js.Value)>): Terms
  {
    if entries == [] then map[]
    else
      var before := KeptDefinitions(entries[..|entries| - 1]);
      var (term, definition) := entries[|entries| - 1];
      if Stores(term, definition) then before[Clean(term) := Clean(definition.s)] else before
  }

  /** One more pair either stores its cleaned definition under its cleaned term or changes nothing. */
  lemma KeptStep(entries: seq<(string, Js.Value)>, i: nat)
    requires i < |entries|
    ensures var (term, definition) := entries[i];
            KeptDefinitions(entries[..i + 1])
              == if Stores(term, definition) then KeptDefinitions(entries[..i])[Clean(term) := Clean(definition.s)]
                 else KeptDefinitions(entries[..i])
  {
    assert entries[..i + 1][..i] == entries[..i];
  }

  /** The loop that fills `validDefinitions`. */
  method FilterDefinitions(entries: seq<(string, Js.Value)>) returns (valid: Terms)
    ensures valid == KeptDefinitions(entries)
  {
    valid := map[];
    var i := 0;
    while i < |entries|
      invariant 0 <= i <= |entries|
      invariant valid == KeptDefinitions(entries[..i])
    {
      var (term, definition) := entries[i];
      KeptStep(entries, i);
      if Acceptable(term, definition) {
        var key := Clean(term);
        // `valid` never has an own `__proto__`, so that assignment stores nothing.
        if key != Js.ProtoKey {
          valid := valid[key := Clean(definition.s)];
        }
      }
      i := i + 1;
    }
    assert entries[..i] == entries;
  }

  /** Pair `e` stores under `k`: it is acceptable, its term cleans to `k`, and `k` is not `__proto__`. */
  predicate Writes(e: (string, Js.Value), k: string) {
    Acceptable(e.0, e.1) && Clean(e.0) == k && k != Js.ProtoKey
  }

  /**
    The position of the last pair that writes under `k`, or -1: the pair
    whose write `forEach` leaves in place.
  */
  function LastWriter(entries: seq<(string, Js.Value)>, k: string): (i: int)
    ensures -1 <= i < |entries|
    ensures i >= 0 ==> Writes(entries[i], k)
    ensures forall j :: i < j < |entries| ==> !Writes(entries[j], k)
  {
    if entries == [] then -1
    else if Writes(entries[|entries| - 1], k) then |entries| - 1
    else
      var init := entries[..|entries| - 1];
      assert forall j :: 0 <= j < |init| ==> init[j] == entries[j];
      LastWriter(init, k)
  }

  /**
    A cleaned term is a key of the result exactly when some acceptable pair
    cleans to it and it is not `__proto__`; its value is the cleaned
    definition of the last such pair.
  */
  lemma {:induction false} KeptIsLastWriter(entries: seq<(string, Js.Value)>, k: string)
    ensures k in KeptDefinitions(entries) <==> LastWriter(entries, k) >= 0
    ensures k in KeptDefinitions(entries) ==> KeptDefinitions(entries)[k] == Clean(entries[LastWriter(entries, k)].1.s)
  {
    if entries != [] {
      var n := |entries| - 1;
      var init := entries[..n];
      var term, definition := entries[n].0, entries[n].1;
      KeptIsLastWriter(init, k);
      if Writes(entries[n], k) {
        assert KeptDefinitions(entries) == KeptDefinitions(init)[k := Clean(definition.s)];
      } else {
        assert KeptDefinitions(entries) == KeptDefinitions(init)
          || (KeptDefinitions(entries) == KeptDefinitions(init)[Clean(term) := Clean(definition.s)] && Clean(term) != k);
        if LastWriter(init, k) >= 0 {
          assert entries[LastWriter(init, k)] == init[LastWriter(init, k)];
        }
      }
    }
  }

  /** A term cleaning to `__proto__` is never kept, however acceptable its pair. */
  lemma {:induction false} ProtoTermIsDropped(entries: seq<(string, Js.Value)>)
    ensures Js.ProtoKey !in KeptDefinitions(entries)
  {
    KeptIsLastWriter(entries, Js.ProtoKey);
  }

  /** No kept key or value holds a quote, and every kept value is shorter than 300 characters (it was shorter than 300 code units before cleaning). */
  lemma KeptShape(entries: seq<(string, Js.Value)>, k: string)
    requires k in KeptDefinitions(entries)
    ensures forall c :: 0 <= c < |k| ==> k[c] != '"'
    ensures |KeptDefinitions(entries)[k]| < 300
    ensures forall c :: 0 <= c < |KeptDefinitions(entries)[k]| ==> KeptDefinitions(entries)[k][c] != '"'
  {
    KeptIsLastWriter(entries, k);
    JsLengthBounds(entries[LastWriter(entries, k)].1.s);
  }

  /**
    `parseGeminiResponse` once the response text has been cut down to its
    JSON object, parsed, and listed with `Object.entries`: `None` stands for
    every way that can fail (no braces, a parse error), which yields `{}`.
  */
  function ParseGeminiResponse(entries: Option<seq<(string, Js.Value)>>): (r: Terms)
    ensures entries.None? ==> r == map[]
    ensures entries.Some? && (forall i :: 0 <= i < |entries.value| ==> !Acceptable(entries.value[i].0, entries.value[i].1)) ==> r == map[]
  {
    match entries
    case None => map[]
    case Some(e) =>
      NothingAcceptable(e);
      KeptDefinitions(e)
  }

  /** Without an acceptable pair, nothing is kept. */
  lemma {:induction false} NothingAcceptable(entries: seq<(string, Js.Value)>)
    ensures (forall i :: 0 <= i < |entries| ==> !Acceptable(entries[i].0, entries[i].1)) ==> KeptDefinitions(entries) == map[]
  {
    if entries != [] {
      var init := entries[..|entries| - 1];
      assert forall i :: 0 <= i < |init| ==> init[i] == entries[i];
      NothingAcceptable(init);
    }
  }

  // ---------------------------------------------------------------------
  // The service

  /** What the first half of `extractAndDefineTerms` decides: an answer now, or a request to make. */
  datatype Step = Done(terms: Terms) | Pending(key: CacheKey)

  /** The shortest text worth sending. */
  const MinTextLength := 20

  class AiService {
    var cache: map<CacheKey, Terms>
    var apiKey: Option<string>
    var isProcessing: bool

    /** A service with an empty cache, the key from the environment, and no request in flight. */
    constructor(apiKey: Option<string>)
      ensures this.apiKey == apiKey && cache == map[] && !isProcessing
    {
      this.apiKey := apiKey;
      cache := map[];
      isProcessing := false;
    }

    /**
      `extractAndDefineTerms` up to its `await`: missing or short text, a
      missing key and a request already in flight each answer `{}` without
      looking at the cache; a cached text answers from the cache; anything
      else marks the service busy and asks for a request under the text's key.
      The cache itself is not changed.
    */
    method Begin(text: Option<string>) returns (step: Step)
      modifies this`isProcessing
      ensures text.None? || JsLength(text.value) < MinTextLength ==> step == Done(map[]) && isProcessing == old(isProcessing)
      ensures text.Some? && JsLength(text.value) >= MinTextLength && (!IsConfigured(apiKey) || old(isProcessing)) ==>
                step == Done(map[]) && isProcessing == old(isProcessing)
      ensures text.Some? && JsLength(text.value) >= MinTextLength && IsConfigured(apiKey) && !old(isProcessing) ==>
                var key := HashKey(text.value);
                && (key in cache ==> step == Done(cache[key]) && !isProcessing)
                && (key !in cache ==> step == Pending(key) && isProcessing)
    {
      if text.None? || text.value == "" || JsLength(text.value) < MinTextLength {
        return Done(map[]);
      }
      if !IsConfigured(apiKey) {
        return Done(map[]);
      }
      if isProcessing {
        return Done(map[]);
      }
      var key := HashText(text.value);
      if key in cache {
        return Done(cache[key]);
      }
      isProcessing := true;
      step := Pending(key);
    }

    /**
      `extractAndDefineTerms` after its `await`: terms that arrived are cached
      under the key and returned; a failure returns `{}` and caches nothing.
      Either way the service is no longer busy.
    */
    method Finish(key: CacheKey, outcome: Result<Terms>) returns (terms: Terms)
      modifies this`cache, this`isProcessing
      ensures !isProcessing
      ensures outcome.Ok? ==> terms == outcome.value && cache == old(cache)[key := outcome.value]
      ensures outcome.Err? ==> terms == map[] && cache == old(cache)
    {
      isProcessing := false;
      match outcome
      case Ok(found) =>
        cache := cache[key := found];
        terms := found;
      case Err(_) =>
        terms := map[];
    }

    /**
      A whole call with no other call in between, `outcome` being what the
      request would yield. A cache hit does not use the request; after the call
      the service is no longer busy unless it was busy before.
    */
    method ExtractAndDefineTerms(text: Option<string>, outcome: Result<Terms>) returns (terms: Terms)
      modifies this`cache, this`isProcessing
      ensures isProcessing == old(isProcessing)
      ensures text.None? || JsLength(text.value) < MinTextLength || !IsConfigured(apiKey) || old(isProcessing) ==>
                terms == map[] && cache == old(cache)
      ensures text.Some? && JsLength(text.value) >= MinTextLength && IsConfigured(apiKey) && !old(isProcessing) ==>
                var key := HashKey(text.value);
                && (key in old(cache) ==> terms == old(cache)[key] && cache == old(cache))
                && (key !in old(cache) && outcome.Ok? ==> terms == outcome.value && cache == old(cache)[key := outcome.value])
                && (key !in old(cache) && outcome.Err? ==> terms == map[] && cache == old(cache))
    {
      var step := Begin(text);
      match step
      case Done(t) =>
        terms := t;
      case Pending(key) =>
        terms := Finish(key, outcome);
    }

    /** `clearCache`. */
    method ClearCache()
      modifies this`cache
      ensures cache == map[]
    {
      cache := map[];
    }

    /** `getCacheSize`: the number of cached texts. */
    function CacheSize(): nat
      reads this
    {
      |cache|
    }

    /** `isCurrentlyProcessing`. */
    function IsCurrentlyProcessing(): bool
      reads this
    {
      isProcessing
    }
  }
}
