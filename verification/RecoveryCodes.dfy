/**
  Recovery codes (packages/crypto/src/tokens.ts): packing random bytes into base-32 characters,
  showing them in groups, and reading back what somebody typed.
 */
module RecoveryCodes {
  import opened Stock

  const BASE32_ALPHABET := "0123456789ABCDEFGHJKMNPQRSTVWXYZ"
  const RECOVERY_CODE_BYTES: nat := 20
  const RECOVERY_GROUP_SIZE: nat := 8

  /** JavaScript shifts on 32-bit integers: what is pushed past them is lost. */
  const WORD: nat := 0x1_0000_0000

  // ---------------------------------------------------------------------------------------
  // Packing
  // ---------------------------------------------------------------------------------------

  ghost predicate AreBytes(bytes: seq<nat>) {
    forall i :: 0 <= i < |bytes| ==> bytes[i] < 256
  }

  /** The big-endian number the bytes spell. */
  function BytesValue(bytes: seq<nat>): nat {
    if bytes == [] then 0 else BytesValue(bytes[..|bytes| - 1]) * 256 + bytes[|bytes| - 1]
  }

  /** Crockford's alphabet: the digits, and the letters without I, L, O and U. */
  predicate InAlphabet(c: char) {
    '0' <= c <= '9' || ('A' <= c <= 'Z' && c != 'I' && c != 'L' && c != 'O' && c != 'U')
  }

  ghost predicate IsCode(code: string) {
    forall i :: 0 <= i < |code| ==> InAlphabet(code[i])
  }

  /** The place of a character in the alphabet. */
  function DigitOf(c: char): (d: nat)
    requires InAlphabet(c)
    ensures d < 32
  {
    if c <= '9' then c as int - '0' as int
    else
      10 + (c as int - 'A' as int) - (if c > 'I' then 1 else 0) - (if c > 'L' then 1 else 0)
      - (if c > 'O' then 1 else 0) - (if c > 'U' then 1 else 0)
  }

  function CharOf(d: nat): (c: char)
    requires d < 32
    ensures InAlphabet(c) && DigitOf(c) == d
  {
    BASE32_ALPHABET[d]
  }

  lemma DigitsDiffer(c: char, d: char)
    requires InAlphabet(c) && InAlphabet(d) && DigitOf(c) == DigitOf(d)
    ensures c == d
  {
  }

  /** The number a code spells in base 32. */
  function CodeValue(code: string): nat
    requires IsCode(code)
  {
    if code == [] then 0 else CodeValue(code[..|code| - 1]) * 32 + DigitOf(code[|code| - 1])
  }

  function Pow2(k: nat): (p: nat)
    ensures p >= 1
  {
    if k == 0 then 1 else 2 * Pow2(k - 1)
  }

  /** A shift to the left and a byte from the right. */
  function ShiftIn(accumulator: nat, byte: nat): nat {
    accumulator * 256 % WORD + byte
  }

  /** Five bits, counted from the right end of what is left of the accumulator. */
  function FiveBits(accumulator: nat, bits: nat): (d: nat)
    ensures d < 32
  {
    accumulator / Pow2(bits) % 32
  }

  /** The accumulator is never masked and loses its upper bits from the fifth byte on, but the
      characters are still the base-32 digits of the whole number, most significant first. */
  method Base32(bytes: seq<nat>) returns (output: string)
    requires AreBytes(bytes)
    ensures IsCode(output)
    ensures |output| == 8 * |bytes| / 5
    ensures CodeValue(output) == BytesValue(bytes) / Pow2(8 * |bytes| % 5)
  {
    var bits: nat, accumulator: nat := 0, 0;
    output := "";
    for i := 0 to |bytes|
      invariant bits < 5 && 8 * i == 5 * |output| + bits
      invariant accumulator == BytesValue(bytes[..i]) % WORD
      invariant IsCode(output) && CodeValue(output) == BytesValue(bytes[..i]) / Pow2(bits)
    {
      ghost var before := BytesValue(bytes[..i]);
      ghost var value := BytesValue(bytes[..i + 1]);
      assert bytes[..i + 1][..i] == bytes[..i];
      ShiftInWraps(before, bytes[i]);
      ShiftInShifts(before, bytes[i], bits);
      accumulator := ShiftIn(accumulator, bytes[i]);
      bits := bits + 8;
      while bits >= 5
        invariant bits < 13 && 8 * (i + 1) == 5 * |output| + bits
        invariant accumulator == value % WORD
        invariant IsCode(output) && CodeValue(output) == value / Pow2(bits)
      {
        bits := bits - 5;
        FiveBitsSurvive(value, bits);
        var c := CharOf(FiveBits(accumulator, bits));
        Emitted(output, c, value, bits);
        output := output + [c];
      }
    }
    assert bytes[..|bytes|] == bytes;
  }

  /** A character more spells a digit more. */
  lemma Emitted(output: string, c: char, value: nat, bits: nat)
    requires IsCode(output) && CodeValue(output) == value / Pow2(bits + 5)
    requires InAlphabet(c) && DigitOf(c) == value / Pow2(bits) % 32
    ensures IsCode(output + [c]) && CodeValue(output + [c]) == value / Pow2(bits)
  {
    FiveBitsFollow(value, bits);
    assert (output + [c])[..|output|] == output;
  }

  lemma LowWord(a: nat, q: nat, r: nat)
    requires a == q * WORD + r && r < WORD
    ensures a % WORD == r
  {
  }

  /** The lower three bytes move up by one, and wrapping has not touched them. */
  lemma ShiftInWraps(value: nat, byte: nat)
    requires byte < 256
    ensures ShiftIn(value % WORD, byte) == (value * 256 + byte) % WORD
  {
    var high, m := value / WORD, value % WORD;
    var q, r := m / 0x100_0000, m % 0x100_0000;
    LowWord(m * 256, q, r * 256);
    LowWord(value * 256 + byte, high * 256 + q, r * 256 + byte);
  }

  lemma Quotient(a: nat, b: nat, q: nat)
    requires b > 0 && q * b <= a < q * b + b
    ensures a / b == q
  {
    Between(a, b, a / b, q);
  }

  lemma Between(a: nat, b: nat, x: nat, y: nat)
    requires b > 0 && x * b <= a < x * b + b && y * b <= a < y * b + b
    ensures x == y
  {
    if x < y {
      Times(x + 1, y, b);
    } else if y < x {
      Times(y + 1, x, b);
    }
  }

  lemma Times(x: nat, y: nat, b: nat)
    requires x <= y
    ensures x * b <= y * b
  {
  }

  /** Eight more bits to emit, and the number grew by a byte: nothing emitted changes. */
  lemma ShiftInShifts(value: nat, byte: nat, bits: nat)
    requires byte < 256
    ensures (value * 256 + byte) / Pow2(bits + 8) == value / Pow2(bits)
  {
    var p := Pow2(bits);
    assert Pow2(bits + 8) == 256 * p by {
      assert Pow2(bits + 8) == 2 * Pow2(bits + 7) && Pow2(bits + 7) == 2 * Pow2(bits + 6);
      assert Pow2(bits + 6) == 2 * Pow2(bits + 5) && Pow2(bits + 5) == 2 * Pow2(bits + 4);
      assert Pow2(bits + 4) == 2 * Pow2(bits + 3) && Pow2(bits + 3) == 2 * Pow2(bits + 2);
      assert Pow2(bits + 2) == 2 * Pow2(bits + 1) && Pow2(bits + 1) == 2 * Pow2(bits);
    }
    var q, r := value / p, value % p;
    assert q * (256 * p) == 256 * (q * p);
    Quotient(value * 256 + byte, 256 * p, q);
  }

  lemma FiveMore(bits: nat)
    ensures Pow2(bits + 5) == 32 * Pow2(bits)
  {
    assert Pow2(bits + 5) == 2 * Pow2(bits + 4) && Pow2(bits + 4) == 2 * Pow2(bits + 3);
    assert Pow2(bits + 3) == 2 * Pow2(bits + 2) && Pow2(bits + 2) == 2 * Pow2(bits + 1);
    assert Pow2(bits + 1) == 2 * Pow2(bits);
  }

  lemma DivideTwice(value: nat, p: nat)
    requires p > 0
    ensures value / (32 * p) == value / p / 32
  {
    var q, r := value / p, value % p;
    Split(q / 32, q % 32, p);
    assert q == 32 * (q / 32) + q % 32;
    assert value == q * p + r;
    Quotient(value, 32 * p, q / 32);
  }

  lemma Split(x: nat, y: nat, p: nat)
    requires y < 32
    ensures (32 * x + y) * p == x * (32 * p) + y * p && 0 <= y * p <= 31 * p
  {
  }

  /** Emitting the next five bits moves the number on by one digit. */
  lemma FiveBitsFollow(value: nat, bits: nat)
    ensures value / Pow2(bits) == value / Pow2(bits + 5) * 32 + value / Pow2(bits) % 32
  {
    FiveMore(bits);
    DivideTwice(value, Pow2(bits));
  }

  /** The bits still to be emitted lie below the thirty-second, so wrapping does not touch them. */
  lemma FiveBitsSurvive(value: nat, bits: nat)
    requires bits < 8
    ensures FiveBits(value % WORD, bits) == value / Pow2(bits) % 32
  {
    assert Pow2(0) == 1 && Pow2(1) == 2 && Pow2(2) == 4 && Pow2(3) == 8;
    assert Pow2(4) == 2 * Pow2(3) && Pow2(5) == 2 * Pow2(4) && Pow2(6) == 2 * Pow2(5) && Pow2(7) == 2 * Pow2(6);
    match bits
    case 0 => Survive(value, 1, 0x800_0000);
    case 1 => Survive(value, 2, 0x400_0000);
    case 2 => Survive(value, 4, 0x200_0000);
    case 3 => Survive(value, 8, 0x100_0000);
    case 4 => Survive(value, 16, 0x80_0000);
    case 5 => Survive(value, 32, 0x40_0000);
    case 6 => Survive(value, 64, 0x20_0000);
    case 7 => Survive(value, 128, 0x10_0000);
  }

  lemma Survive(value: nat, p: nat, k: nat)
    requires p > 0 && p * k * 32 == WORD
    ensures value % WORD / p % 32 == value / p % 32
  {
    var q, m := value / WORD, value % WORD;
    var low := m / p;
    Whole(q, p, k);
    assert value == q * WORD + m;
    Distributes(q * k * 32, low, p);
    assert m == low * p + m % p;
    Quotient(value, p, q * k * 32 + low);
    Drop(q * k, low);
  }

  lemma Whole(q: nat, p: nat, k: nat)
    requires p * k * 32 == WORD
    ensures q * WORD == q * k * 32 * p
  {
    assert q * (p * k * 32) == q * k * 32 * p;
  }

  lemma Distributes(x: nat, y: nat, p: nat)
    ensures (x + y) * p == x * p + y * p
  {
  }

  lemma Drop(x: nat, y: nat)
    ensures (x * 32 + y) % 32 == y % 32
  {
  }

  // ---------------------------------------------------------------------------------------
  // Nothing is lost
  // ---------------------------------------------------------------------------------------

  lemma {:induction false} SameBytes(a: seq<nat>, b: seq<nat>)
    requires AreBytes(a) && AreBytes(b) && |a| == |b| && BytesValue(a) == BytesValue(b)
    ensures a == b
  {
    if a != [] {
      SameBytes(a[..|a| - 1], b[..|b| - 1]);
      assert a == a[..|a| - 1] + [a[|a| - 1]] && b == b[..|b| - 1] + [b[|b| - 1]];
    }
  }

  lemma {:induction false} SameCode(a: string, b: string)
    requires IsCode(a) && IsCode(b) && |a| == |b| && CodeValue(a) == CodeValue(b)
    ensures a == b
  {
    if a != [] {
      SameCode(a[..|a| - 1], b[..|b| - 1]);
      DigitsDiffer(a[|a| - 1], b[|b| - 1]);
      assert a == a[..|a| - 1] + [a[|a| - 1]] && b == b[..|b| - 1] + [b[|b| - 1]];
    }
  }

  /** What a code for `bytes` has to be: every digit of the 160-bit number and nothing else. */
  ghost predicate CodeFor(bytes: seq<nat>, code: string) {
    IsCode(code) && |code| == 32 && CodeValue(code) == BytesValue(bytes)
  }

  method RandomBase32(bytes: seq<nat>) returns (code: string)
    requires AreBytes(bytes) && |bytes| == RECOVERY_CODE_BYTES
    ensures CodeFor(bytes, code)
  {
    code := Base32(bytes);
    assert Pow2(0) == 1;
  }

  /** A code determines its twenty bytes and they determine it: all 160 bits of entropy are in the
      32 characters. */
  lemma CodesAreLossless(a: seq<nat>, b: seq<nat>, codeOfA: string, codeOfB: string)
    requires AreBytes(a) && AreBytes(b) && |a| == |b| == RECOVERY_CODE_BYTES
    requires CodeFor(a, codeOfA) && CodeFor(b, codeOfB)
    ensures codeOfA == codeOfB <==> a == b
  {
    if codeOfA == codeOfB {
      SameBytes(a, b);
    } else if a == b {
      SameCode(codeOfA, codeOfB);
    }
  }

  // ---------------------------------------------------------------------------------------
  // Showing and reading
  // ---------------------------------------------------------------------------------------

  function Grouped(raw: string): string
    decreases |raw|
  {
    if |raw| <= RECOVERY_GROUP_SIZE then raw
    else raw[..RECOVERY_GROUP_SIZE] + "-" + Grouped(raw[RECOVERY_GROUP_SIZE..])
  }

  function Join(groups: seq<string>): string {
    if groups == [] then ""
    else if |groups| == 1 then groups[0]
    else groups[0] + "-" + Join(groups[1..])
  }

  lemma {:induction false} JoinAppend(groups: seq<string>, last: string)
    ensures Join(groups + [last]) == if groups == [] then last else Join(groups) + "-" + last
  {
    if |groups| >= 1 {
      JoinAppend(groups[1..], last);
      assert (groups + [last])[1..] == groups[1..] + [last];
    }
  }

  /** Groups of eight, joined with hyphens; the last may be shorter. */
  method FormatRecoveryCode(raw: string) returns (shown: string)
    ensures shown == Grouped(raw)
  {
    var groups: seq<string>, index: nat := [], 0;
    while index < |raw|
      invariant index == 0 <==> groups == []
      invariant index <= |raw| + RECOVERY_GROUP_SIZE
      invariant index < |raw| ==> Grouped(raw) == if index == 0 then Grouped(raw[0..]) else Join(groups) + "-" + Grouped(raw[index..])
      invariant index >= |raw| && index > 0 ==> Grouped(raw) == Join(groups)
    {
      var end := if index + RECOVERY_GROUP_SIZE < |raw| then index + RECOVERY_GROUP_SIZE else |raw|;
      var group := raw[index..end];
      JoinAppend(groups, group);
      GroupedStep(raw, index, if groups == [] then "" else Join(groups) + "-");
      groups := groups + [group];
      index := index + RECOVERY_GROUP_SIZE;
    }
    shown := Join(groups);
  }

  lemma GroupedStep(raw: string, index: nat, shown: string)
    requires index < |raw|
    ensures var rest := raw[index..];
            shown + Grouped(rest) ==
              if |rest| <= RECOVERY_GROUP_SIZE then shown + rest
              else shown + raw[index..index + RECOVERY_GROUP_SIZE] + "-" + Grouped(raw[index + RECOVERY_GROUP_SIZE..])
  {
    var rest := raw[index..];
    if |rest| > RECOVERY_GROUP_SIZE {
      assert rest[..RECOVERY_GROUP_SIZE] == raw[index..index + RECOVERY_GROUP_SIZE];
      assert rest[RECOVERY_GROUP_SIZE..] == raw[index + RECOVERY_GROUP_SIZE..];
    }
  }

  function UpperChar(c: char): char {
    if 'a' <= c <= 'z' then (c as int - 32) as char else c
  }

  predicate IsPlain(c: char) {
    '0' <= c <= '9' || 'A' <= c <= 'Z'
  }

  function ToUpperCase(s: string): string {
    if s == [] then [] else [UpperChar(s[0])] + ToUpperCase(s[1..])
  }

  /** Removes everything that is neither a digit nor a letter. */
  function Strip(s: string): string {
    if s == [] then [] else (if IsPlain(s[0]) then [s[0]] else []) + Strip(s[1..])
  }

  function Replace(s: string, confused: set<char>, replacement: char): string {
    if s == [] then [] else [if s[0] in confused then replacement else s[0]] + Replace(s[1..], confused, replacement)
  }

  function NormalizeRecoveryCode(input: string): string {
    Replace(Replace(Strip(ToUpperCase(input)), {'O'}, '0'), {'I', 'L'}, '1')
  }

  /** A character somebody may type for `c`: itself, its lower case, or one it is confused with. */
  predicate ReadsAs(t: char, c: char) {
    UpperChar(t) == c || (c == '0' && UpperChar(t) == 'O') || (c == '1' && (UpperChar(t) == 'I' || UpperChar(t) == 'L'))
  }

  predicate IsSeparator(t: char) {
    !IsPlain(UpperChar(t))
  }

  /** `typed` is `raw`, character by character, with separators anywhere. */
  predicate Typed(raw: string, typed: string) {
    if typed == [] then raw == []
    else if IsSeparator(typed[0]) then Typed(raw, typed[1..])
    else raw != [] && ReadsAs(typed[0], raw[0]) && Typed(raw[1..], typed[1..])
  }

  /** Exactly what may be typed for a code is read as it: lower case, any separators, O for zero and
      I or L for one, and nothing else. */
  lemma {:induction false} ReadExactly(raw: string, typed: string)
    requires IsCode(raw)
    ensures NormalizeRecoveryCode(typed) == raw <==> Typed(raw, typed)
  {
    if typed != [] {
      NormalizeStep(typed);
      if IsSeparator(typed[0]) {
        ReadExactly(raw, typed[1..]);
      } else if raw != [] {
        ReadExactly(raw[1..], typed[1..]);
        ReadChar(raw[0], typed[0]);
        assert raw == [raw[0]] + raw[1..];
        assert NormalizeRecoveryCode(typed)[1..] == NormalizeRecoveryCode(typed[1..]);
      }
    }
  }

  function Fold(t: char): char {
    var u := UpperChar(t);
    if u == 'O' then '0' else if u == 'I' || u == 'L' then '1' else u
  }

  lemma NormalizeStep(typed: string)
    requires typed != []
    ensures NormalizeRecoveryCode(typed)
            == (if IsSeparator(typed[0]) then [] else [Fold(typed[0])]) + NormalizeRecoveryCode(typed[1..])
  {
    var u := UpperChar(typed[0]);
    var rest := ToUpperCase(typed[1..]);
    assert ([u] + rest)[1..] == rest;
    if IsPlain(u) {
      var stripped := Strip(rest);
      assert ([u] + stripped)[1..] == stripped;
      var o := if u == 'O' then '0' else u;
      var replaced := Replace(stripped, {'O'}, '0');
      assert ([o] + replaced)[1..] == replaced;
    } else {
      assert [] + Strip(rest) == Strip(rest);
    }
  }

  /** The alphabet leaves out the letters that are folded away. */
  lemma ReadChar(c: char, t: char)
    requires InAlphabet(c)
    ensures Fold(t) == c <==> ReadsAs(t, c)
  {
    assert c != 'O' && c != 'I' && c != 'L';
  }

  lemma {:induction false} TypedWithHyphens(raw: string)
    requires IsCode(raw)
    ensures Typed(raw, Grouped(raw))
    decreases |raw|
  {
    if |raw| <= RECOVERY_GROUP_SIZE {
      TypedAsIs(raw, "", "");
      assert raw + "" == raw;
    } else {
      var first, rest := raw[..RECOVERY_GROUP_SIZE], raw[RECOVERY_GROUP_SIZE..];
      TypedWithHyphens(rest);
      assert ("-" + Grouped(rest))[1..] == Grouped(rest);
      assert Typed(rest, "-" + Grouped(rest));
      TypedAsIs(first, rest, "-" + Grouped(rest));
      assert first + rest == raw;
      assert first + ("-" + Grouped(rest)) == Grouped(raw);
    }
  }

  /** A code is a way of typing itself. */
  lemma {:induction false} TypedAsIs(first: string, rest: string, typed: string)
    requires IsCode(first) && Typed(rest, typed)
    ensures Typed(first + rest, first + typed)
  {
    if first == [] {
      assert first + rest == rest && first + typed == typed;
    } else {
      TypedAsIs(first[1..], rest, typed);
      AlphabetIsPlain(first[0]);
      assert (first + rest)[1..] == first[1..] + rest && (first + typed)[1..] == first[1..] + typed;
    }
  }

  lemma AlphabetIsPlain(c: char)
    requires InAlphabet(c)
    ensures IsPlain(c) && UpperChar(c) == c
  {
  }

  /** What is shown is read back. */
  lemma RoundTrip(raw: string)
    requires IsCode(raw)
    ensures NormalizeRecoveryCode(Grouped(raw)) == raw
  {
    TypedWithHyphens(raw);
    ReadExactly(raw, Grouped(raw));
  }

  /** Reading twice changes nothing more. */
  lemma {:induction false} Idempotent(typed: string)
    ensures NormalizeRecoveryCode(NormalizeRecoveryCode(typed)) == NormalizeRecoveryCode(typed)
  {
    if typed != [] {
      Idempotent(typed[1..]);
      NormalizeStep(typed);
      var rest := NormalizeRecoveryCode(typed[1..]);
      if !IsSeparator(typed[0]) {
        assert ([Fold(typed[0])] + rest)[1..] == rest;
        NormalizeStep([Fold(typed[0])] + rest);
      } else {
        assert [] + rest == rest;
      }
    }
  }
}
