/**
  The length-prefixed encoding behind authenticated contexts and hash bindings
  (packages/crypto/src/envelope.ts, packages/crypto/src/hash.ts).

  Fields are byte strings: a `string` here holds one character per byte.
 */
module LengthPrefix {
  import opened Stock
  import opened Digits

  function EncodeField(field: string): string {
    Decimal(|field|) + ":" + field
  }

  function Encode(fields: seq<string>): string {
    if fields == [] then "" else EncodeField(fields[0]) + Encode(fields[1..])
  }

  // ---------------------------------------------------------------------------------------
  // Reading it back
  // ---------------------------------------------------------------------------------------

  /** The digits a string starts with. */
  function Prefix(s: string): (n: nat)
    ensures n <= |s| && AllDigits(s[..n]) && (n < |s| ==> !IsDigit(s[n]))
  {
    if s == [] || !IsDigit(s[0]) then 0
    else
      var n := 1 + Prefix(s[1..]);
      assert forall i :: 1 <= i < n ==> s[i] == s[1..][i - 1];
      n
  }

  /** Strict: the length is written as `Decimal` writes it, and the bytes are all there. */
  function Decode(s: string): Result<seq<string>>
    decreases |s|
  {
    if s == [] then Ok([])
    else
      var n := Prefix(s);
      if n == |s| || s[n] != ':' then Err("no length")
      else
        var length := Value(s[..n]);
        if Decimal(length) != s[..n] then Err("bad length")
        else if |s| < n + 1 + length then Err("too short")
        else
          var rest := Decode(s[n + 1 + length..]);
          if rest.Err? then rest else Ok([s[n + 1..n + 1 + length]] + rest.value)
  }

  lemma {:induction false} PrefixOfField(digits: string, tail: string)
    requires AllDigits(digits)
    ensures Prefix(digits + ":" + tail) == |digits|
  {
    var s := digits + ":" + tail;
    if digits != [] {
      PrefixOfField(digits[1..], tail);
      assert s[1..] == digits[1..] + ":" + tail;
      assert s[0] == digits[0];
    }
  }

  /** One field is read off exactly, whatever digits and colons it holds. */
  lemma DecodeField(field: string, tail: string)
    ensures var s := EncodeField(field) + tail;
            var n := |Decimal(|field|)|;
            && s != [] && Prefix(s) == n < |s| && s[n] == ':' && s[..n] == Decimal(|field|)
            && |s| == n + 1 + |field| + |tail|
            && s[n + 1..n + 1 + |field|] == field && s[n + 1 + |field|..] == tail
  {
    var s := EncodeField(field) + tail;
    assert s == Decimal(|field|) + ":" + (field + tail);
    PrefixOfField(Decimal(|field|), field + tail);
  }

  lemma {:induction false} RoundTrip(fields: seq<string>)
    ensures Decode(Encode(fields)) == Ok(fields)
  {
    if fields != [] {
      RoundTrip(fields[1..]);
      DecodeField(fields[0], Encode(fields[1..]));
      ValueOfDecimal(|fields[0]|);
      assert fields == [fields[0]] + fields[1..];
    }
  }

  /** What decodes is an encoding: decoding loses nothing either. */
  lemma {:induction false} RoundTripBack(s: string)
    requires Decode(s).Ok?
    ensures Encode(Decode(s).value) == s
    decreases |s|
  {
    if s != [] {
      var n := Prefix(s);
      var length := Value(s[..n]);
      RoundTripBack(s[n + 1 + length..]);
      EncodeCons(s[n + 1..n + 1 + length], Decode(s[n + 1 + length..]).value);
      Reassembled(s, n, length);
    }
  }

  lemma EncodeCons(field: string, rest: seq<string>)
    ensures Encode([field] + rest) == EncodeField(field) + Encode(rest)
  {
    assert ([field] + rest)[1..] == rest;
  }

  lemma Reassembled(s: string, n: nat, length: nat)
    requires n + 1 + length <= |s| && s[n] == ':'
    ensures s[..n] + ":" + s[n + 1..n + 1 + length] + s[n + 1 + length..] == s
  {
  }

  /** Different lists of fields never encode alike, whatever their number and contents. */
  lemma UniquelyDecodable(a: seq<string>, b: seq<string>)
    ensures Encode(a) == Encode(b) <==> a == b
  {
    RoundTrip(a);
    RoundTrip(b);
  }

  // ---------------------------------------------------------------------------------------
  // Secret contexts
  // ---------------------------------------------------------------------------------------

  datatype Context = Context(businessId: Option<string>, resource: string, secretType: string)

  const CONTEXT_TAG := "eim-secret-context-v1"
  const INCOMPLETE := "A secret context needs both a resource and a secret type."

  function OrEmpty(s: Option<string>): string {
    if s.Some? then s.value else ""
  }

  function ContextBytes(c: Context, keyVersion: nat): Result<string> {
    if c.resource == "" || c.secretType == "" then Err(INCOMPLETE)
    else Ok(Encode([CONTEXT_TAG, OrEmpty(c.businessId), c.resource, c.secretType, Decimal(keyVersion)]))
  }

  /** Two contexts authenticate alike only when they are the same context under the same key, an
      absent business counting as an empty one. */
  lemma ContextsAreDistinct(a: Context, va: nat, b: Context, vb: nat)
    requires ContextBytes(a, va).Ok? && ContextBytes(b, vb).Ok?
    ensures ContextBytes(a, va) == ContextBytes(b, vb) <==>
              && OrEmpty(a.businessId) == OrEmpty(b.businessId) && a.resource == b.resource
              && a.secretType == b.secretType && va == vb
  {
    var fa := [CONTEXT_TAG, OrEmpty(a.businessId), a.resource, a.secretType, Decimal(va)];
    var fb := [CONTEXT_TAG, OrEmpty(b.businessId), b.resource, b.secretType, Decimal(vb)];
    UniquelyDecodable(fa, fb);
    ValueOfDecimal(va);
    ValueOfDecimal(vb);
    if fa == fb {
      assert fa[1] == fb[1] && fa[2] == fb[2] && fa[3] == fb[3] && fa[4] == fb[4];
    }
  }

  /** A context and one of its own fields never encode alike under different splits: moving a colon
      between resource and secret type changes the bytes. */
  lemma SplitsDiffer(resource: string, middle: string, secretType: string)
    requires resource != "" && secretType != "" && middle != ""
    ensures ContextBytes(Context(None, resource + ":" + middle, secretType), 1)
            != ContextBytes(Context(None, resource, middle + ":" + secretType), 1)
  {
    ContextsAreDistinct(Context(None, resource + ":" + middle, secretType), 1,
                        Context(None, resource, middle + ":" + secretType), 1);
    assert |resource + ":" + middle| > |resource|;
  }
}
