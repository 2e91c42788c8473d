/** The monitor's key space: printing a watched address as a key and reading it back. */
module WatchKeys {
  import opened Common
  import opened Text

  const MAX_CHAIN: nat := 0xffff_ffff_ffff_ffff
  const NATIVE: string := "native"

  // ---------------------------------------------------------------- numbers

  function DigitChar(d: nat): char
    requires d < 10
  {
    ('0' as int + d) as char
  }

  predicate IsDigit(c: char) {
    '0' <= c <= '9'
  }

  function Decimal(n: nat): string {
    if n < 10 then [DigitChar(n)] else Decimal(n / 10) + [DigitChar(n % 10)]
  }

  /** The number a string of digits denotes. */
  function Denotes(s: string): Option<nat> {
    if s == [] then Some(0)
    else
      var front := Denotes(s[..|s| - 1]);
      if front.Some? && IsDigit(s[|s| - 1]) then Some(10 * front.value + (s[|s| - 1] as int - '0' as int)) else None
  }

  /** Parsing an unsigned 64-bit number: a plus sign is allowed, no digits or too large a number are not. */
  function ParseU64(s: string): Option<nat> {
    var digits := if s != [] && s[0] == '+' then s[1..] else s;
    if digits == [] then None
    else
      var n := Denotes(digits);
      if n.Some? && n.value <= MAX_CHAIN then n else None
  }

  lemma {:induction false} DecimalDenotes(n: nat)
    ensures Denotes(Decimal(n)) == Some(n) && Decimal(n) != [] && forall c :: c in Decimal(n) ==> IsDigit(c)
  {
    if n < 10 {
      assert Decimal(n)[..0] == [];
    } else {
      DecimalDenotes(n / 10);
      var s := Decimal(n);
      assert s[..|s| - 1] == Decimal(n / 10);
    }
  }

  lemma DecimalParses(n: nat)
    requires n <= MAX_CHAIN
    ensures ParseU64(Decimal(n)) == Some(n) && ':' !in Decimal(n)
  {
    DecimalDenotes(n);
    assert Decimal(n)[0] in Decimal(n);
  }

  // ---------------------------------------------------------------- splitting

  function Split(s: string): (parts: seq<string>)
    ensures |parts| > 0
  {
    if s == [] then [[]]
    else
      var rest := Split(s[1..]);
      if s[0] == ':' then [[]] + rest else [[s[0]] + rest[0]] + rest[1..]
  }

  lemma {:induction false} SplitAtColon(a: string, b: string)
    requires ':' !in a
    ensures Split(a + ":" + b) == [a] + Split(b)
    decreases |a|
  {
    var s := a + ":" + b;
    if a == [] {
      assert s[1..] == b;
    } else {
      assert s[1..] == a[1..] + ":" + b;
      assert ':' !in a[1..];
      SplitAtColon(a[1..], b);
      assert [s[0]] + a[1..] == a;
    }
  }

  lemma {:induction false} SplitWhole(a: string)
    requires ':' !in a
    ensures Split(a) == [a]
    decreases |a|
  {
    if a != [] {
      assert ':' !in a[1..];
      SplitWhole(a[1..]);
      assert [a[0]] + a[1..] == a;
    }
  }

  function Colons(s: string): nat {
    if s == [] then 0 else (if s[0] == ':' then 1 else 0) + Colons(s[1..])
  }

  lemma {:induction false} SplitCounts(s: string)
    ensures |Split(s)| == 1 + Colons(s)
    decreases |s|
  {
    if s != [] {
      SplitCounts(s[1..]);
    }
  }

  lemma {:induction false} ColonsOf(a: string, b: string)
    ensures Colons(a + b) == Colons(a) + Colons(b)
    decreases |a|
  {
    if a == [] {
      assert a + b == b;
    } else {
      assert (a + b)[1..] == a[1..] + b;
      ColonsOf(a[1..], b);
    }
  }

  lemma {:induction false} NoColons(s: string)
    ensures Colons(s) == 0 <==> ':' !in s
    decreases |s|
  {
    if s != [] {
      NoColons(s[1..]);
      assert ':' in s <==> s[0] == ':' || ':' in s[1..];
    }
  }

  // ---------------------------------------------------------------- keys

  datatype Triple = Triple(chain: nat, address: string, token: Option<string>)

  function TokenText(token: Option<string>): string {
    Lower(if token.Some? then token.value else NATIVE)
  }

  function Print(chain: nat, address: string, token: Option<string>): string {
    "evmwatch" + ":" + ("addr" + ":" + (Decimal(chain) + ":" + (Lower(address) + ":" + TokenText(token))))
  }

  function Parse(key: string): Option<Triple> {
    var parts := Split(key);
    if |parts| != 5 || parts[0] != "evmwatch" || parts[1] != "addr" then None
    else
      var chain := ParseU64(parts[2]);
      if chain.None? then None
      else Some(Triple(chain.value, parts[3], if parts[4] == NATIVE then None else Some(parts[4])))
  }

  /** What can be told from the key: no separator inside, and no token spelled like the native marker. */
  ghost predicate Printable(address: string, token: Option<string>) {
    ':' !in address && (token.Some? ==> ':' !in token.value && Lower(token.value) != NATIVE)
  }

  lemma LowerKeepsColons(s: string)
    ensures ':' in Lower(s) <==> ':' in s
  {
    if ':' in s {
      var i :| 0 <= i < |s| && s[i] == ':';
      assert Lower(s)[i] == ':';
    }
    if ':' in Lower(s) {
      var i :| 0 <= i < |s| && Lower(s)[i] == ':';
      assert LowerChar(s[i]) == ':' && s[i] == ':';
    }
  }

  lemma FivePartsSplit(a: string, b: string, c: string, d: string, e: string)
    requires ':' !in a && ':' !in b && ':' !in c && ':' !in d && ':' !in e
    ensures Split(a + ":" + (b + ":" + (c + ":" + (d + ":" + e)))) == [a, b, c, d, e]
  {
    SplitWhole(e);
    SplitAtColon(d, e);
    SplitAtColon(c, d + ":" + e);
    SplitAtColon(b, c + ":" + (d + ":" + e));
    SplitAtColon(a, b + ":" + (c + ":" + (d + ":" + e)));
    assert [a] + ([b] + ([c] + ([d] + [e]))) == [a, b, c, d, e];
  }

  /** The five parts of a printed key, prefix and marker as the monitor reads them. */
  lemma PrintSplits(chain: nat, address: string, token: Option<string>)
    requires chain <= MAX_CHAIN && ':' !in address && ':' !in TokenText(token)
    ensures Split(Print(chain, address, token)) == ["evmwatch", "addr", Decimal(chain), Lower(address), TokenText(token)]
  {
    DecimalParses(chain);
    LowerKeepsColons(address);
    FivePartsSplit("evmwatch", "addr", Decimal(chain), Lower(address), TokenText(token));
  }

  /** A separator inside makes too many parts. */
  lemma PrintSplitsTooOften(chain: nat, address: string, token: Option<string>)
    requires chain <= MAX_CHAIN && (':' in address || ':' in TokenText(token))
    ensures |Split(Print(chain, address, token))| > 5
  {
    DecimalParses(chain);
    LowerKeepsColons(address);
    NoColons(Lower(address));
    NoColons(TokenText(token));
    var tail := Lower(address) + ":" + TokenText(token);
    ColonsOf(Lower(address) + ":", TokenText(token));
    ColonsOf(Lower(address), ":");
    assert Colons(":") == 1;
    SplitCounts(tail);
    SplitAtColon(Decimal(chain), tail);
    SplitAtColon("addr", Decimal(chain) + ":" + tail);
    SplitAtColon("evmwatch", "addr" + ":" + (Decimal(chain) + ":" + tail));
  }

  /** The round trip, exactly when it works. */
  lemma RoundTripIff(chain: nat, address: string, token: Option<string>)
    requires chain <= MAX_CHAIN
    ensures Parse(Print(chain, address, token)) == Some(Triple(chain, Lower(address), LowerOption(token)))
      <==> Printable(address, token)
  {
    if token.Some? {
      LowerKeepsColons(token.value);
    } else {
      assert TokenText(token) == NATIVE;
    }
    if ':' in address || ':' in TokenText(token) {
      PrintSplitsTooOften(chain, address, token);
    } else {
      PrintSplits(chain, address, token);
      DecimalParses(chain);
    }
  }

  /** A separator in the address or the token: the key is refused. */
  lemma SeparatorIsRefused(chain: nat, address: string, token: Option<string>)
    requires chain <= MAX_CHAIN && (':' in address || (token.Some? && ':' in token.value))
    ensures Parse(Print(chain, address, token)) == None
  {
    if token.Some? {
      LowerKeepsColons(token.value);
    }
    PrintSplitsTooOften(chain, address, token);
  }

  /** A token spelled like the marker: the key reads back as the native asset. */
  lemma MarkerReadsAsNative(chain: nat, address: string, token: string)
    requires chain <= MAX_CHAIN && ':' !in address && Lower(token) == NATIVE
    ensures Parse(Print(chain, address, Some(token))) == Some(Triple(chain, Lower(address), None))
  {
    PrintSplits(chain, address, Some(token));
    DecimalParses(chain);
  }

  /** So neither of these two watches is read back. */
  lemma UnreadableKeys()
    ensures Parse(Print(1, ":", None)) != Some(Triple(1, Lower(":"), None))
    ensures Parse(Print(1, "a", Some(NATIVE))) != Some(Triple(1, Lower("a"), LowerOption(Some(NATIVE))))
  {
    assert ":"[0] == ':';
    SeparatorIsRefused(1, ":", None);
    assert Lower(NATIVE) == NATIVE;
    MarkerReadsAsNative(1, "a", NATIVE);
  }

  /** Keys are injective, up to case. */
  lemma KeysAreInjective(a: Triple, b: Triple)
    requires a.chain <= MAX_CHAIN && b.chain <= MAX_CHAIN && Printable(a.address, a.token) && Printable(b.address, b.token)
    ensures Print(a.chain, a.address, a.token) == Print(b.chain, b.address, b.token)
      <==> a.chain == b.chain && Lower(a.address) == Lower(b.address) && LowerOption(a.token) == LowerOption(b.token)
  {
    RoundTripIff(a.chain, a.address, a.token);
    RoundTripIff(b.chain, b.address, b.token);
  }
}
