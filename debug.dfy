/**
 * v1/debug.go: the header sanitiser of the request and response dumps (`dumpReq`,
 * `dumpRsp`).
 * Every name is canonicalised; the values of allowed names are copied and every
 * value of any other name is replaced by a redaction notice carrying its length
 * in bytes and its SHA-256 digest.
 */
module ApiDebug {
  import opened Wrappers
  import opened GoText
  import opened GoHeader
  import opened GoHttp

  /** The names whose values the default sanitiser redacts. */
  const SensitiveHeaders: set<string> := {CanonicalHeaderKey("Authorization")}

  /** `defaultAllowHeader`: every name except the sensitive ones. */
  predicate DefaultAllowHeader(n: string) {
    n !in SensitiveHeaders
  }

  /** The only name `DefaultAllowHeader` refuses is `Authorization` (already canonical). */
  lemma DefaultAllowHeaderExact(n: string)
    ensures DefaultAllowHeader(n) <==> n != "Authorization"
  {
    CapitalisedCanonical('A', "uthorization");
    assert "A" + "uthorization" == "Authorization";
  }

  /** A capital letter followed by lower-case letters is already canonical. */
  lemma CapitalisedCanonical(c: char, tail: string)
    requires 'A' <= c <= 'Z'
    requires forall i :: 0 <= i < |tail| ==> 'a' <= tail[i] <= 'z'
    ensures CanonicalHeaderKey([c] + tail) == [c] + tail
  {
    var a := [c] + tail;
    assert IsToken(a) by {
      forall i | 0 <= i < |a| ensures 'a' <= a[i] <= 'z' || 'A' <= a[i] <= 'Z' {
        if i > 0 {
          assert a[i] == tail[i - 1];
        }
      }
    }
    LowerCaseFixed(tail);
    assert a[1..] == tail;
  }

  /** Case-folding without a leading capital leaves a string of lower-case letters as it is. */
  lemma {:induction false} LowerCaseFixed(s: string)
    requires forall i :: 0 <= i < |s| ==> 'a' <= s[i] <= 'z'
    ensures CaseFold(s, false) == s
  {
    if s != [] {
      LowerCaseFixed(s[1..]);
    }
  }

  const RedactionPrefix := "<apiclient: redacted "

  /** What separates the byte count from the digest in a notice. */
  const DigestLabel := " bytes; SHA256="

  /** The notice that replaces a value of a name that is not allowed. */
  function Redaction(e: string, lib: Library): (r: string)
    ensures RedactionPrefix <= r
  {
    var b := Utf8(e);
    RedactionPrefix + NatToString(|b|) + DigestLabel + lib.sha256Hex(b) + ">"
  }

  /**
   * The parts of a notice: the prefix, the decimal count of the value's UTF-8 bytes
   * (which parses back to that count), " bytes; SHA256=", the hex digest of those bytes
   * and a closing ">".
   */
  lemma RedactionForm(e: string, lib: Library)
    ensures var r := Redaction(e, lib);
            var n := NatToString(|Utf8(e)|);
            var p := |RedactionPrefix| + |n|;
            && |r| == p + |DigestLabel| + |lib.sha256Hex(Utf8(e))| + 1
            && r[|RedactionPrefix|..p] == n && ParseNat(r[|RedactionPrefix|..p]) == |Utf8(e)|
            && r[p..p + |DigestLabel|] == DigestLabel
            && r[p + |DigestLabel|..|r| - 1] == lib.sha256Hex(Utf8(e))
            && r[|r| - 1] == '>'
  {
    var b := Utf8(e);
    assert Redaction(e, lib) == RedactionPrefix + NatToString(|b|) + DigestLabel + lib.sha256Hex(b) + ">";
    Parts(RedactionPrefix, NatToString(|b|), DigestLabel, lib.sha256Hex(b), ">");
    ParseNatToString(|b|);
  }

  /** The pieces of a five-part concatenation, recovered by slicing. */
  lemma Parts<T>(a: seq<T>, b: seq<T>, c: seq<T>, d: seq<T>, e: seq<T>)
    ensures var r := a + b + c + d + e;
            && |r| == |a| + |b| + |c| + |d| + |e|
            && r[|a|..|a| + |b|] == b
            && r[|a| + |b|..|a| + |b| + |c|] == c
            && r[|a| + |b| + |c|..|r| - |e|] == d
            && r[|r| - |e|..] == e
  {
    var r := a + b + c + d + e;
    assert r == a + (b + (c + (d + e)));
  }

  /** For ASCII text the count in the notice is the number of characters. */
  lemma RedactionAscii(e: string, lib: Library)
    requires forall i :: 0 <= i < |e| ==> e[i] as int < 0x80
    ensures var p := |RedactionPrefix| + |NatToString(|e|)|;
            && p <= |Redaction(e, lib)|
            && Redaction(e, lib)[|RedactionPrefix|..p] == NatToString(|e|)
            && ParseNat(Redaction(e, lib)[|RedactionPrefix|..p]) == |e|
  {
    RedactionForm(e, lib);
    Utf8Ascii(e);
  }

  /** Each value replaced by its notice, in order. */
  function Redactions(vs: seq<string>, lib: Library): (r: seq<string>)
    ensures |r| == |vs|
    ensures forall i :: 0 <= i < |r| ==> r[i] == Redaction(vs[i], lib)
  {
    if vs == [] then [] else [Redaction(vs[0], lib)] + Redactions(vs[1..], lib)
  }

  /** The values under `n` after `res.Add(n, e)` for each `e` of `vs`, or no key at all when `vs` is empty. */
  function AddEach(res: Header, n: string, vs: seq<string>): Header {
    if vs == [] then res else res[n := Values(res, n) + vs]
  }

  /**
   * The result of `sanitizeHeaders` when the map is visited in `order`: for each key,
   * its values (or their notices) are added under its canonical name.
   */
  function Sanitized(hdr: Header, allowed: string -> bool, order: seq<string>, lib: Library): Header
    requires forall i :: 0 <= i < |order| ==> order[i] in hdr
  {
    if order == [] then map[]
    else
      var k := order[|order| - 1];
      var n := CanonicalHeaderKey(k);
      AddEach(Sanitized(hdr, allowed, order[..|order| - 1], lib), n,
              if allowed(n) then hdr[k] else Redactions(hdr[k], lib))
  }

  /** The input values, in visiting order, of the keys whose canonical name is `n`. */
  function RawValues(hdr: Header, order: seq<string>, n: string): seq<string>
    requires forall i :: 0 <= i < |order| ==> order[i] in hdr
  {
    if order == [] then []
    else
      var k := order[|order| - 1];
      RawValues(hdr, order[..|order| - 1], n) + (if CanonicalHeaderKey(k) == n then hdr[k] else [])
  }

  lemma {:induction false} RedactionsAppend(a: seq<string>, b: seq<string>, lib: Library)
    ensures Redactions(a + b, lib) == Redactions(a, lib) + Redactions(b, lib)
  {
    if a != [] {
      assert (a + b)[1..] == a[1..] + b;
      RedactionsAppend(a[1..], b, lib);
    } else {
      assert a + b == b;
    }
  }

  /**
   * Under each name, the sanitised header holds the input values of the keys with that
   * canonical name, in visiting order: as they are when the name is allowed, else
   * their notices. A name holds values only if it is the canonical name of a key.
   */
  lemma {:induction false} SanitizedValues(hdr: Header, allowed: string -> bool, order: seq<string>, lib: Library, n: string)
    requires forall i :: 0 <= i < |order| ==> order[i] in hdr
    ensures var raw := RawValues(hdr, order, n);
            Values(Sanitized(hdr, allowed, order, lib), n) == if allowed(n) then raw else Redactions(raw, lib)
    ensures n in Sanitized(hdr, allowed, order, lib) <==> RawValues(hdr, order, n) != []
  {
    if order != [] {
      var init := order[..|order| - 1];
      SanitizedValues(hdr, allowed, init, lib, n);
      SanitizedStep(hdr, allowed, order, lib, n);
    }
  }

  /** The inductive step of `SanitizedValues`: visiting one more key. */
  lemma SanitizedStep(hdr: Header, allowed: string -> bool, order: seq<string>, lib: Library, n: string)
    requires order != [] && forall i :: 0 <= i < |order| ==> order[i] in hdr
    requires var init := order[..|order| - 1];
             var raw := RawValues(hdr, init, n);
             && Values(Sanitized(hdr, allowed, init, lib), n) == (if allowed(n) then raw else Redactions(raw, lib))
             && (n in Sanitized(hdr, allowed, init, lib) <==> raw != [])
    ensures var raw := RawValues(hdr, order, n);
            Values(Sanitized(hdr, allowed, order, lib), n) == if allowed(n) then raw else Redactions(raw, lib)
    ensures n in Sanitized(hdr, allowed, order, lib) <==> RawValues(hdr, order, n) != []
  {
    var init := order[..|order| - 1];
    var k := order[|order| - 1];
    var c := CanonicalHeaderKey(k);
    var vs := if allowed(c) then hdr[k] else Redactions(hdr[k], lib);
    var prev := Sanitized(hdr, allowed, init, lib);
    var raw := RawValues(hdr, init, n);
    assert Sanitized(hdr, allowed, order, lib) == AddEach(prev, c, vs);
    assert RawValues(hdr, order, n) == raw + (if c == n then hdr[k] else []);
    if c == n {
      SameNameStep(prev, n, hdr[k], raw, allowed(n), lib);
    } else {
      AddEachValues(prev, c, vs, n);
      assert raw + [] == raw;
    }
  }

  /**
   * Adding the (possibly redacted) values `vk` of a key whose canonical name is `n`
   * extends the values under `n` in step with the raw values.
   */
  lemma SameNameStep(prev: Header, n: string, vk: seq<string>, raw: seq<string>, allow: bool, lib: Library)
    requires Values(prev, n) == (if allow then raw else Redactions(raw, lib))
    requires n in prev <==> raw != []
    ensures var res := AddEach(prev, n, if allow then vk else Redactions(vk, lib));
            && Values(res, n) == (if allow then raw + vk else Redactions(raw + vk, lib))
            && (n in res <==> raw + vk != [])
  {
    var vs := if allow then vk else Redactions(vk, lib);
    AddEachValues(prev, n, vs, n);
    RedactionsAppend(raw, vk, lib);
  }

  /** What `AddEach` leaves under a name `n`. */
  lemma AddEachValues(res: Header, c: string, vs: seq<string>, n: string)
    ensures Values(AddEach(res, c, vs), n) == if c == n then Values(res, n) + vs else Values(res, n)
    ensures n in AddEach(res, c, vs) <==> n in res || (c == n && vs != [])
  {
    if vs == [] {
      assert Values(res, n) + vs == Values(res, n);
    }
  }

  /**
   * A name that holds values in the sanitised header is canonical, and at least one
   * key of the input has it as its canonical name.
   */
  lemma SanitizedKeys(hdr: Header, allowed: string -> bool, order: seq<string>, lib: Library, n: string)
    requires forall i :: 0 <= i < |order| ==> order[i] in hdr
    requires n in Sanitized(hdr, allowed, order, lib)
    ensures exists i :: 0 <= i < |order| && CanonicalHeaderKey(order[i]) == n
    ensures CanonicalHeaderKey(n) == n
  {
    SanitizedValues(hdr, allowed, order, lib, n);
    var i := RawWitness(hdr, order, n);
    CanonicalIdempotent(order[i]);
  }

  /** Non-empty raw values under `n` come from some key whose canonical name is `n`. */
  lemma {:induction false} RawWitness(hdr: Header, order: seq<string>, n: string) returns (i: nat)
    requires forall i :: 0 <= i < |order| ==> order[i] in hdr
    requires RawValues(hdr, order, n) != []
    ensures i < |order| && CanonicalHeaderKey(order[i]) == n
  {
    var init := order[..|order| - 1];
    var k := order[|order| - 1];
    if CanonicalHeaderKey(k) == n {
      i := |order| - 1;
    } else {
      i := RawWitness(hdr, init, n);
    }
  }

  /** The `res.Add(n, e)` loop over the values of one key. */
  method AddValues(res: Header, n: string, vs: seq<string>) returns (r: Header)
    requires CanonicalHeaderKey(n) == n
    ensures r == AddEach(res, n, vs)
  {
    r := res;
    var j := 0;
    while j < |vs|
      invariant 0 <= j <= |vs|
      invariant r == AddEach(res, n, vs[..j])
    {
      assert Values(r, n) == Values(res, n) + vs[..j];
      assert Add(r, n, vs[j]) == r[n := Values(r, n) + [vs[j]]];
      assert vs[..j + 1] == vs[..j] + [vs[j]];
      assert Values(r, n) + [vs[j]] == Values(res, n) + vs[..j + 1];
      r := Add(r, n, vs[j]);
      assert r == res[n := Values(res, n) + vs[..j + 1]];
      j := j + 1;
    }
    assert vs[..j] == vs;
  }

  /**
   * `sanitizeHeaders`: builds a new header, visiting the keys of `hdr` in Go's
   * unspecified map order (returned as `order`).
   */
  method SanitizeHeaders(hdr: Header, allowed: string -> bool, lib: Library) returns (res: Header, ghost order: seq<string>)
    ensures |order| == |hdr| && (forall k :: k in hdr <==> k in order)
    ensures forall i :: 0 <= i < |order| ==> order[i] in hdr
    ensures res == Sanitized(hdr, allowed, order, lib)
    ensures forall n :: n in res ==> CanonicalHeaderKey(n) == n && exists k :: k in hdr && CanonicalHeaderKey(k) == n
  {
    res := map[];
    order := [];
    var left := hdr.Keys;
    while left != {}
      invariant left <= hdr.Keys
      invariant forall i :: 0 <= i < |order| ==> order[i] in hdr && order[i] !in left
      invariant forall k :: k in hdr ==> k in left || k in order
      invariant |order| + |left| == |hdr|
      invariant res == Sanitized(hdr, allowed, order, lib)
      decreases left
    {
      var k :| k in left;
      var n := CanonicalHeaderKey(k);
      CanonicalIdempotent(k);
      if allowed(n) {
        res := AddValues(res, n, hdr[k]);
      } else {
        res := AddValues(res, n, Redactions(hdr[k], lib));
      }
      assert (order + [k])[..|order|] == order;
      order := order + [k];
      left := left - {k};
    }
    SanitizedNames(hdr, allowed, order, lib);
  }

  /** Every name of the sanitised header is canonical and is the canonical name of an input key. */
  lemma SanitizedNames(hdr: Header, allowed: string -> bool, order: seq<string>, lib: Library)
    requires forall i :: 0 <= i < |order| ==> order[i] in hdr
    ensures forall n :: n in Sanitized(hdr, allowed, order, lib) ==>
              CanonicalHeaderKey(n) == n && exists k :: k in hdr && CanonicalHeaderKey(k) == n
  {
    forall n | n in Sanitized(hdr, allowed, order, lib)
      ensures CanonicalHeaderKey(n) == n && exists k :: k in hdr && CanonicalHeaderKey(k) == n
    {
      SanitizedKeys(hdr, allowed, order, lib, n);
    }
  }

  /**
   * With `defaultAllowHeader`, the sanitised header holds a redaction notice, and no raw
   * value, for each value under `Authorization`.
   */
  lemma AuthorizationRedacted(hdr: Header, order: seq<string>, lib: Library)
    requires forall i :: 0 <= i < |order| ==> order[i] in hdr
    ensures var vs := Values(Sanitized(hdr, DefaultAllowHeader, order, lib), "Authorization");
            |vs| == |RawValues(hdr, order, "Authorization")|
            && forall i :: 0 <= i < |vs| ==> RedactionPrefix <= vs[i]
  {
    DefaultAllowHeaderExact("Authorization");
    SanitizedValues(hdr, DefaultAllowHeader, order, lib, "Authorization");
  }
}
