/** Prefixed ULIDs: minting, parsing, and reading the instant of minting back. Instants are milliseconds. */
module Ids {
  import opened Prelude
  import opened Ordering

  const CROCKFORD := "0123456789ABCDEFGHJKMNPQRSTVWXYZ"
  const TIME_CHARS := 10
  const RAND_CHARS := 16

  datatype Id = Id(prefix: string, ulid: string)

  // ---------------------------------------------------------------- numbers in base 32

  function Symbol(d: nat): char
    requires d < 32
  {
    CROCKFORD[d]
  }

  /** The digits and then the letters but I, L, O and U, in ascending order. */
  lemma SymbolIs(d: nat)
    requires d < 32
    ensures Symbol(d) as int
         == d + if d < 10 then 48 else if d < 18 then 55 else if d < 20 then 56 else if d < 22 then 57
                else if d < 27 then 58 else 59
  {
  }

  /** `_encode`: the last `length` digits, the most significant first; `/` and `%` floor, as `divmod` by 32 does. */
  function Encoded(value: int, length: nat): (text: string)
    ensures |text| == length
    decreases length
  {
    if length == 0 then "" else Encoded(value / 32, length - 1) + [Symbol(value % 32)]
  }

  method Encode(value: int, length: nat) returns (text: string)
    ensures text == Encoded(value, length)
  {
    hide Symbol, Reversed;
    var rest, chars := value, "";
    ReversedNone();
    for k := 0 to length
      invariant |chars| == k && Encoded(value, length) == Encoded(rest, length - k) + Reversed(chars)
    {
      ghost var before := Encoded(rest, length - k);
      assert before == Encoded(rest / 32, length - k - 1) + [Symbol(rest % 32)];
      ReversedMore(chars, Symbol(rest % 32));
      chars := chars + [Symbol(rest % 32)];
      rest := rest / 32;
    }
    text := Reversed(chars);
  }

  function Reversed(s: string): (r: string)
    ensures |r| == |s| && forall k | 0 <= k < |s| :: r[k] == s[|s| - 1 - k]
  {
    seq(|s|, k requires 0 <= k < |s| => s[|s| - 1 - k])
  }

  lemma ReversedNone()
    ensures Reversed("") == ""
  {
  }

  lemma ReversedMore(s: string, c: char)
    ensures Reversed(s + [c]) == [c] + Reversed(s)
  {
  }

  function Limit(length: nat): nat {
    if length == 0 then 1 else 32 * Limit(length - 1)
  }

  /** What `length` digits hold of `value`, and how often its range was passed: the floored remainder and quotient. */
  function Wrapped(value: int, length: nat): nat
    decreases length
  {
    if length == 0 then 0 else 32 * Wrapped(value / 32, length - 1) + value % 32
  }

  function Passed(value: int, length: nat): int
    decreases length
  {
    if length == 0 then value else Passed(value / 32, length - 1)
  }

  lemma {:induction false} WrappedIsRemainder(value: int, length: nat)
    ensures Wrapped(value, length) < Limit(length)
    ensures value == Wrapped(value, length) + Passed(value, length) * Limit(length)
    ensures 0 <= value < Limit(length) ==> Wrapped(value, length) == value
    decreases length
  {
    if length > 0 {
      var q := value / 32;
      WrappedIsRemainder(q, length - 1);
      Scaled(Passed(q, length - 1), Limit(length - 1));
    }
  }

  lemma Scaled(p: int, l: int)
    ensures 32 * (p * l) == p * (32 * l)
  {
  }

  // ---------------------------------------------------------------- the order of ids

  lemma {:induction false} BeforeEither(a: string, b: string, x: string, y: string)
    requires |a| == |b|
    ensures Before(a + x, b + y) <==> Before(a, b) || (a == b && Before(x, y))
  {
    if a == "" {
      assert a + x == x && b + y == y;
    } else {
      assert (a + x)[1..] == a[1..] + x && (b + y)[1..] == b[1..] + y;
      BeforeEither(a[1..], b[1..], x, y);
      assert a == [a[0]] + a[1..] && b == [b[0]] + b[1..];
    }
  }

  lemma DigitsAscend(d: nat, e: nat)
    requires d < 32 && e < 32
    ensures Before([Symbol(d)], [Symbol(e)]) <==> d < e
    ensures Symbol(d) == Symbol(e) <==> d == e
  {
    hide Symbol;
    SymbolIs(d);
    SymbolIs(e);
    assert [Symbol(d)][1..] == "" && [Symbol(e)][1..] == "";
  }

  /** Digits sort as the numbers they hold. */
  lemma {:induction false} EncodedSorts(v: int, w: int, length: nat)
    ensures Before(Encoded(v, length), Encoded(w, length)) <==> Wrapped(v, length) < Wrapped(w, length)
    ensures Encoded(v, length) == Encoded(w, length) <==> Wrapped(v, length) == Wrapped(w, length)
    decreases length
  {
    hide Before, Symbol;
    if length == 0 {
      BeforeAsymmetric("", "");
    } else {
      EncodedSorts(v / 32, w / 32, length - 1);
      var a, b := Encoded(v / 32, length - 1), Encoded(w / 32, length - 1);
      BeforeEither(a, b, [Symbol(v % 32)], [Symbol(w % 32)]);
      DigitsAscend(v % 32, w % 32);
      var x, y := a + [Symbol(v % 32)], b + [Symbol(w % 32)];
      assert x == y ==> x[..length - 1] == y[..length - 1] && x[length - 1] == y[length - 1];
    }
  }

  /** `mint_at`, the ten random bytes being given. */
  function MintAt(prefix: string, millis: int, randomness: nat): Id {
    Id(prefix, Encoded(millis, TIME_CHARS) + Encoded(randomness, RAND_CHARS))
  }

  function Value(id: Id): string {
    id.prefix + "_" + id.ulid
  }

  /** An id is its prefix, an underscore, ten characters of its instant and sixteen of its randomness, eighty bits. */
  lemma MintedText(prefix: string, millis: int, randomness: nat)
    ensures var ulid := MintAt(prefix, millis, randomness).ulid;
      && Value(MintAt(prefix, millis, randomness)) == prefix + "_" + ulid
      && |ulid| == 26 && ulid[..10] == Encoded(millis, 10) && ulid[10..] == Encoded(randomness, 16)
    ensures randomness < 0x1_0000_0000_0000_0000_0000 ==>
              Decoded(MintAt(prefix, millis, randomness).ulid[10..]) == Some(randomness)
  {
    hide Encoded, Decoded, Wrapped;
    EncodedReads(randomness, RAND_CHARS);
    WrappedIsRemainder(randomness, RAND_CHARS);
    RandomLimit();
  }

  lemma RandomLimit()
    ensures Limit(RAND_CHARS) == 0x1_0000_0000_0000_0000_0000
  {
    assert Limit(4) == 0x10_0000;
    assert Limit(8) == 0x10_0000 * 0x10_0000;
    assert Limit(12) == Limit(8) * 0x10_0000;
  }

  /** Two ids of one prefix sort by their instants as far as ten digits hold them, and within one by their randomness. */
  lemma IdsSort(prefix: string, m: int, r: nat, n: int, q: nat)
    ensures Before(Value(MintAt(prefix, m, r)), Value(MintAt(prefix, n, q)))
       <==> Wrapped(m, TIME_CHARS) < Wrapped(n, TIME_CHARS)
            || (Wrapped(m, TIME_CHARS) == Wrapped(n, TIME_CHARS) && Wrapped(r, RAND_CHARS) < Wrapped(q, RAND_CHARS))
  {
    hide Before, Encoded, Wrapped;
    var a, b := MintAt(prefix, m, r), MintAt(prefix, n, q);
    BeforePrefixed(prefix + "_", a.ulid, b.ulid);
    EncodedSorts(m, n, TIME_CHARS);
    EncodedSorts(r, q, RAND_CHARS);
    BeforeEither(Encoded(m, TIME_CHARS), Encoded(n, TIME_CHARS), Encoded(r, RAND_CHARS), Encoded(q, RAND_CHARS));
  }

  /** So a plain sort of ids is chronological, whatever their randomness, for instants from the epoch up to 32^10 ms. */
  lemma IdsSortByInstant(prefix: string, m: int, r: nat, n: int, q: nat)
    requires 0 <= m < n < Limit(TIME_CHARS)
    ensures Before(Value(MintAt(prefix, m, r)), Value(MintAt(prefix, n, q)))
  {
    hide Before, Encoded, Wrapped;
    WrappedIsRemainder(m, TIME_CHARS);
    WrappedIsRemainder(n, TIME_CHARS);
    IdsSort(prefix, m, r, n, q);
  }

  /** The milliseconds of the first day of year 1 and of the last of year 9999, and a day more either way for an offset. */
  const FIRST_INSTANT := -62135683200000
  const LAST_INSTANT := 253402387200000

  predicate IsInstant(m: int) {
    FIRST_INSTANT <= m < LAST_INSTANT
  }

  lemma TimeLimit()
    ensures Limit(TIME_CHARS) == 1125899906842624
  {
    assert Limit(4) == 1048576;
    assert Limit(8) == 1048576 * 1048576;
  }

  /** Ten digits hold an instant before the epoch as one far past every other: the range it is short of, less. */
  lemma InstantHeld(m: int)
    requires IsInstant(m)
    ensures Wrapped(m, TIME_CHARS) == if m < 0 then Limit(TIME_CHARS) + m else m
  {
    hide Wrapped, Passed, Limit;
    TimeLimit();
    WrappedIsRemainder(m, TIME_CHARS);
    var p := Passed(m, TIME_CHARS);
    if m < 0 {
      assert p == -1;
    }
  }

  /** Of two instants a date holds, the ids sort chronologically, whatever their randomness, exactly when the epoch does
      not fall between: every instant before it sorts after every one from it on. */
  lemma IdsSortExactly(prefix: string, m: int, r: nat, n: int, q: nat)
    requires IsInstant(m) && IsInstant(n) && m < n
    ensures Before(Value(MintAt(prefix, m, r)), Value(MintAt(prefix, n, q))) <==> !(m < 0 <= n)
    ensures Before(Value(MintAt(prefix, n, q)), Value(MintAt(prefix, m, r))) <==> m < 0 <= n
  {
    hide Before, Encoded, Wrapped, Limit;
    TimeLimit();
    InstantHeld(m);
    InstantHeld(n);
    IdsSort(prefix, m, r, n, q);
    IdsSort(prefix, n, q, m, r);
  }

  // ---------------------------------------------------------------- parsing

  /** `value.partition("_")` where there is one: what is before the first, and after. */
  function Partition(value: string): Option<(string, string)> {
    if value == "" then None
    else if value[0] == '_' then Some(("", value[1..]))
    else
      var rest := Partition(value[1..]);
      if rest.None? then None else Some(([value[0]] + rest.value.0, rest.value.1))
  }

  function Parse(value: string): Option<Id> {
    var parts := Partition(value);
    if parts.Some? && |parts.value.1| == TIME_CHARS + RAND_CHARS then Some(Id(parts.value.0, parts.value.1)) else None
  }

  lemma {:induction false} PartitionExactly(value: string, prefix: string, rest: string)
    ensures Partition(value) == Some((prefix, rest)) <==> '_' !in prefix && value == prefix + "_" + rest
  {
    if value != "" && value[0] != '_' && prefix != "" {
      PartitionExactly(value[1..], prefix[1..], rest);
      assert value == [value[0]] + value[1..] && prefix == [prefix[0]] + prefix[1..];
      assert prefix + "_" + rest == [prefix[0]] + (prefix[1..] + "_" + rest);
    } else if value != "" && value[0] == '_' {
      assert prefix != "" ==> (prefix + "_" + rest)[0] == prefix[0];
      assert value == "_" + value[1..];
      assert prefix == "" ==> (prefix + "_" + rest)[1..] == rest;
    } else {
      assert prefix == "" ==> (prefix + "_" + rest)[0] == '_';
    }
  }

  /** Parsing reads exactly the printed ids of 26 characters whose prefix has no underscore. */
  lemma ParsesExactly(value: string, id: Id)
    ensures Parse(value) == Some(id)
       <==> '_' !in id.prefix && |id.ulid| == 26 && value == id.prefix + "_" + id.ulid
  {
    hide Partition;
    PartitionExactly(value, id.prefix, id.ulid);
  }

  // ---------------------------------------------------------------- the instant

  /** `_CROCKFORD.find(char.upper())`. Of the characters outside ASCII only three have an upper case the alphabet holds:
      the long s, and the two ligatures whose upper case is `ST`, two neighbours in it. */
  function DigitOf(c: char): (d: Option<nat>)
    ensures d.Some? ==> d.value < 32
  {
    if '0' <= c <= '9' then Some(c as int - '0' as int)
    else
      var u := if 'a' <= c <= 'z' then (c as int - 'a' as int + 'A' as int) as char
               else if c == '\U{17F}' || c == '\U{FB05}' || c == '\U{FB06}' then 'S'
               else c;
      if 'A' <= u <= 'H' then Some(u as int - 'A' as int + 10)
      else if u == 'J' || u == 'K' then Some(u as int - 'J' as int + 18)
      else if u == 'M' || u == 'N' then Some(u as int - 'M' as int + 20)
      else if 'P' <= u <= 'T' then Some(u as int - 'P' as int + 22)
      else if 'V' <= u <= 'Z' then Some(u as int - 'V' as int + 27)
      else None
  }

  /** Of the ASCII characters it reads just the alphabet's, in either case. */
  lemma DigitExactly(c: char, d: nat)
    requires c < '\U{80}'
    ensures DigitOf(c) == Some(d) <==> d < 32 && Symbol(d) == if 'a' <= c <= 'z' then c - 'a' + 'A' else c
  {
    hide Symbol;
    if d < 32 {
      SymbolIs(d);
    }
  }

  lemma DigitReads(d: nat)
    requires d < 32
    ensures DigitOf(Symbol(d)) == Some(d)
  {
    hide Symbol;
    SymbolIs(d);
  }

  function Decoded(text: string): Option<nat> {
    if text == "" then Some(0)
    else
      var before, digit := Decoded(text[..|text| - 1]), DigitOf(text[|text| - 1]);
      if before.None? || digit.None? then None else Some(before.value * 32 + digit.value)
  }

  lemma {:induction false} DecodedStops(text: string, k: nat)
    requires k <= |text| && Decoded(text[..k]).None?
    ensures Decoded(text).None?
    decreases |text| - k
  {
    if k < |text| {
      assert text[..k + 1][..k] == text[..k];
      DecodedStops(text, k + 1);
    } else {
      assert text[..k] == text;
    }
  }

  /** The milliseconds from the epoch past which no UTC date is. */
  const DATES_END := 253402300800000

  datatype ReadError = YearOutOfRange

  /** What `minted_at` makes of the milliseconds decoded, if any. */
  function Dated(millis: Option<nat>): Result<Option<nat>, ReadError> {
    if millis.Some? && DATES_END <= millis.value then Err(YearOutOfRange) else Ok(millis)
  }

  /** `minted_at`. */
  method MintedAt(id: Id) returns (millis: Result<Option<nat>, ReadError>)
    ensures millis == Dated(Decoded(if |id.ulid| < TIME_CHARS then id.ulid else id.ulid[..TIME_CHARS]))
  {
    hide DigitOf, Decoded;
    var chars := if |id.ulid| < TIME_CHARS then id.ulid else id.ulid[..TIME_CHARS];
    var sum := 0;
    DecodedNone();
    assert chars[..0] == "";
    for k := 0 to |chars|
      invariant Decoded(chars[..k]) == Some(sum)
    {
      var index := DigitOf(chars[k]);
      DecodedMore(chars, k);
      if index.None? {
        DecodedStops(chars, k + 1);
        return Ok(None);
      }
      sum := sum * 32 + index.value;
    }
    assert chars[..|chars|] == chars;
    return Dated(Some(sum));
  }

  lemma DecodedNone()
    ensures Decoded("") == Some(0)
  {
  }

  lemma DecodedMore(text: string, k: nat)
    requires k < |text|
    ensures var before, digit := Decoded(text[..k]), DigitOf(text[k]);
      Decoded(text[..k + 1])
      == if before.None? || digit.None? then None else Some(before.value * 32 + digit.value)
  {
    hide DigitOf;
    assert text[..k + 1][..k] == text[..k];
  }

  lemma {:induction false} EncodedReads(value: int, length: nat)
    ensures Decoded(Encoded(value, length)) == Some(Wrapped(value, length))
    decreases length
  {
    hide Symbol, DigitOf;
    if length > 0 {
      var text := Encoded(value, length);
      assert text[..length - 1] == Encoded(value / 32, length - 1);
      EncodedReads(value / 32, length - 1);
      DigitReads(value % 32);
    }
  }

  /** The id is its own creation record: printed, parsed and read back, an id minted at an instant a date holds gives that
      instant exactly when it lies from the epoch on and within the UTC dates; of any other, the reading fails. */
  method MintParseRead(prefix: string, millis: int, randomness: nat) returns (read: Result<Option<nat>, ReadError>)
    requires '_' !in prefix
    ensures read == Dated(Some(Wrapped(millis, TIME_CHARS)))
    ensures IsInstant(millis) ==> read == if 0 <= millis < DATES_END then Ok(Some(millis)) else Err(YearOutOfRange)
  {
    hide Encoded, Decoded, Wrapped, Limit, Partition;
    var id := MintAt(prefix, millis, randomness);
    ParsesExactly(Value(id), id);
    read := MintedAt(Parse(Value(id)).value);
    assert id.ulid[..TIME_CHARS] == Encoded(millis, TIME_CHARS);
    EncodedReads(millis, TIME_CHARS);
    if IsInstant(millis) {
      InstantHeld(millis);
      TimeLimit();
    }
  }
}
