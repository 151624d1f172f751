/**
 * Go's `http.Header`: a map from header names to lists of values, whose
 * accessors (`Set`, `Add`, `Get`) file every name under its canonical form
 * (`http.CanonicalHeaderKey`), while plain indexing `h[name]` does not.
 */
module GoHeader {

  type Header = map<string, seq<string>>

  /** A character allowed in an HTTP field name (a `token` of RFC 7230 section 3.2.6). */
  predicate IsTokenChar(c: char) {
    ('a' <= c <= 'z') || ('A' <= c <= 'Z') || ('0' <= c <= '9') || c in "!#$%&'*+-.^_`|~"
  }

  predicate IsToken(s: string) {
    forall i :: 0 <= i < |s| ==> IsTokenChar(s[i])
  }

  function Upper(c: char): char {
    if 'a' <= c <= 'z' then (c as int - 32) as char else c
  }

  function Lower(c: char): char {
    if 'A' <= c <= 'Z' then (c as int + 32) as char else c
  }

  /** Upper-cases the first letter and every letter after a '-', lower-cases the rest. */
  function CaseFold(k: string, upper: bool): (r: string)
    ensures |r| == |k|
    ensures forall i :: 0 <= i < |k| ==> (r[i] == '-' <==> k[i] == '-')
    ensures IsToken(k) ==> IsToken(r)
    decreases |k|
  {
    if k == [] then []
    else
      var c := if upper then Upper(k[0]) else Lower(k[0]);
      [c] + CaseFold(k[1..], k[0] == '-')
  }

  /**
   * `http.CanonicalHeaderKey`: a name made only of token characters is case-folded
   * ("content-type" becomes "Content-Type"); any other name is returned unchanged.
   */
  function CanonicalHeaderKey(k: string): (r: string)
    ensures |r| == |k|
  {
    if IsToken(k) then CaseFold(k, true) else k
  }

  /** Canonicalisation keeps a name a token, and a non-token name as it is. */
  lemma CanonicalToken(k: string)
    ensures IsToken(CanonicalHeaderKey(k)) <==> IsToken(k)
    ensures !IsToken(k) ==> CanonicalHeaderKey(k) == k
  {
  }

  lemma {:induction false} CaseFoldIdempotent(k: string, upper: bool)
    ensures CaseFold(CaseFold(k, upper), upper) == CaseFold(k, upper)
    decreases |k|
  {
    if k != [] {
      var r := CaseFold(k, upper);
      assert r[1..] == CaseFold(k[1..], k[0] == '-');
      assert r[0] == '-' <==> k[0] == '-';
      CaseFoldIdempotent(k[1..], k[0] == '-');
    }
  }

  /** Canonicalising twice is canonicalising once. */
  lemma CanonicalIdempotent(k: string)
    ensures CanonicalHeaderKey(CanonicalHeaderKey(k)) == CanonicalHeaderKey(k)
  {
    if IsToken(k) {
      CaseFoldIdempotent(k, true);
    }
  }

  lemma {:induction false} CaseFoldIgnoresCase(a: string, b: string, upper: bool)
    requires |a| == |b|
    requires forall i :: 0 <= i < |a| ==> Lower(a[i]) == Lower(b[i])
    ensures CaseFold(a, upper) == CaseFold(b, upper)
    decreases |a|
  {
    if a != [] {
      assert Lower(a[0]) == Lower(b[0]);
      assert a[0] == '-' <==> b[0] == '-';
      assert Upper(a[0]) == Upper(b[0]);
      CaseFoldIgnoresCase(a[1..], b[1..], a[0] == '-');
    }
  }

  /** Two token names that differ only in ASCII letter case have the same canonical form. */
  lemma CanonicalIgnoresCase(a: string, b: string)
    requires IsToken(a) && IsToken(b) && |a| == |b|
    requires forall i :: 0 <= i < |a| ==> Lower(a[i]) == Lower(b[i])
    ensures CanonicalHeaderKey(a) == CanonicalHeaderKey(b)
  {
    CaseFoldIgnoresCase(a, b, true);
  }

  /** The values filed under exactly `key` (no canonicalisation), or none. */
  function Values(h: Header, key: string): seq<string> {
    if key in h then h[key] else []
  }

  /** `Header.Set`: replaces the values of the canonical key by the single value `v`. */
  function Set(h: Header, k: string, v: string): Header {
    h[CanonicalHeaderKey(k) := [v]]
  }

  /** `Header.Add`: appends `v` to the values of the canonical key. */
  function Add(h: Header, k: string, v: string): Header {
    var c := CanonicalHeaderKey(k);
    h[c := Values(h, c) + [v]]
  }

  /** `Header.Get`: the first value of the canonical key, or "". */
  function Get(h: Header, k: string): string {
    var vs := Values(h, CanonicalHeaderKey(k));
    if |vs| > 0 then vs[0] else ""
  }

  /** After `Set`, `Get` of the same name returns the value set, and other names are unaffected. */
  lemma SetThenGet(h: Header, k: string, v: string, k': string)
    ensures Get(Set(h, k, v), k) == v
    ensures CanonicalHeaderKey(k') != CanonicalHeaderKey(k) ==> Get(Set(h, k, v), k') == Get(h, k')
  {
  }

  /** `Add` keeps every earlier value of the canonical key and puts `v` last. */
  lemma AddAppends(h: Header, k: string, v: string)
    ensures var c := CanonicalHeaderKey(k);
            Values(Add(h, k, v), c) == Values(h, c) + [v]
    ensures forall n :: n != CanonicalHeaderKey(k) ==> Values(Add(h, k, v), n) == Values(h, n)
  {
  }
}
