/**
 Base58 and peer ids (relayhub/base58.go, fedkey/keyring.go, relayhub/relay.go). Big integers are
 unbounded ints; both directions change the base of a digit string and keep its leading zeros.
 */
module Base58 {
  import opened Bytes

  // ---------------------------------------------------------------- digit strings

  ghost predicate IsDigits(b: int, s: seq<int>) {
    forall i | 0 <= i < |s| :: 0 <= s[i] < b
  }

  /** The value of a digit string, most significant digit first (`SetBytes` for base 256). */
  function Val(b: nat, s: seq<int>): int {
    if s == [] then 0 else Val(b, s[..|s| - 1]) * b + s[|s| - 1]
  }

  /** The digits of `n` without leading zeros (`Bytes` for base 256). */
  function Digits(b: nat, n: nat): seq<int>
    requires b >= 2
  {
    if n == 0 then [] else QuotientDecreases(n, b); Digits(b, n / b) + [n % b]
  }

  lemma QuotientDecreases(n: nat, b: nat)
    requires b >= 2 && n > 0
    ensures n / b < n
  {
    var q := n / b;
    assert n == q * b + n % b;
    assert q >= 1 ==> q * b >= 2 * q;
  }

  lemma Recompose(q: int, d: int, b: nat)
    requires b >= 2 && 0 <= d < b
    ensures (q * b + d) / b == q && (q * b + d) % b == d
  {
    var n := q * b + d;
    var e := n / b - q;
    assert n == (n / b) * b + n % b;
    assert e * b == (n / b) * b - q * b;
    assert 0 - b < e * b < b;
    MulBounds(b, e);
  }

  lemma {:induction false} ValOfDigits(b: nat, n: nat)
    requires b >= 2
    ensures Val(b, Digits(b, n)) == n && IsDigits(b, Digits(b, n))
    ensures Digits(b, n) != [] ==> Digits(b, n)[0] > 0
    decreases n
  {
    if n > 0 {
      QuotientDecreases(n, b);
      ValOfDigits(b, n / b);
      ValSnoc(b, Digits(b, n / b), n % b);
      Division(n, b);
    }
  }

  lemma ValSnoc(b: nat, s: seq<int>, d: int)
    ensures Val(b, s + [d]) == Val(b, s) * b + d
  {
    assert (s + [d])[..|s|] == s;
  }

  lemma Division(n: nat, b: nat)
    requires b >= 2
    ensures n == (n / b) * b + n % b && 0 <= n % b < b
  {
  }

  lemma {:induction false} ValNonNegative(b: nat, s: seq<int>)
    requires IsDigits(b, s)
    ensures Val(b, s) >= 0 && (s != [] && s[0] > 0 && b >= 2 ==> Val(b, s) > 0)
    decreases |s|
  {
    if s != [] { ValNonNegative(b, s[..|s| - 1]); }
  }

  lemma {:induction false} DigitsOfVal(b: nat, s: seq<int>)
    requires b >= 2 && IsDigits(b, s) && (s != [] ==> s[0] > 0)
    ensures Val(b, s) >= 0 && Digits(b, Val(b, s)) == s
    decreases |s|
  {
    ValNonNegative(b, s);
    if s != [] {
      var p := s[..|s| - 1];
      DigitsOfVal(b, p);
      Recompose(Val(b, p), s[|s| - 1], b);
    }
  }

  function Zeros(k: nat): seq<int> {
    seq(k, _ => 0)
  }

  function LeadingZeros(s: seq<int>): (k: nat)
    ensures k <= |s| && (k < |s| ==> s[k] != 0) && forall i | 0 <= i < k :: s[i] == 0
  {
    if s == [] || s[0] != 0 then 0 else 1 + LeadingZeros(s[1..])
  }

  lemma {:induction false} ValSkipsZeros(b: nat, k: nat, s: seq<int>)
    ensures Val(b, Zeros(k) + s) == Val(b, s)
    decreases |s| + k
  {
    var t := Zeros(k) + s;
    if s != [] {
      ValSkipsZeros(b, k, s[..|s| - 1]);
      assert t[..|t| - 1] == Zeros(k) + s[..|s| - 1];
    } else if k > 0 {
      ValSkipsZeros(b, k - 1, s);
      assert t[..|t| - 1] == Zeros(k - 1) + s;
    } else {
      assert t == s;
    }
  }

  lemma LeadingZerosOf(k: nat, s: seq<int>)
    requires s != [] ==> s[0] != 0
    ensures LeadingZeros(Zeros(k) + s) == k
  {
    var t := Zeros(k) + s;
    assert forall i | 0 <= i < k :: t[i] == 0;
    assert k < |t| ==> t[k] == s[0];
  }

  /** The same number in another base, behind the same count of leading zeros. */
  function Recode(from: nat, to: nat, s: seq<int>): seq<int>
    requires to >= 2 && Val(from, s) >= 0
  {
    Zeros(LeadingZeros(s)) + Digits(to, Val(from, s))
  }

  /** Recoding to another base and back is the identity, leading zeros included. */
  lemma RecodeBack(from: nat, to: nat, s: seq<int>)
    requires from >= 2 && to >= 2 && IsDigits(from, s)
    ensures Val(from, s) >= 0 && IsDigits(to, Recode(from, to, s))
    ensures Val(to, Recode(from, to, s)) >= 0 && Recode(to, from, Recode(from, to, s)) == s
    ensures Recode(from, to, s) == [] <==> s == []
  {
    ValNonNegative(from, s);
    var k, v := LeadingZeros(s), Val(from, s);
    var rest, d := s[k..], Digits(to, v);
    assert s == Zeros(k) + rest;
    ValSkipsZeros(from, k, rest);
    ValOfDigits(to, v);
    ValSkipsZeros(to, k, d);
    LeadingZerosOf(k, d);
    DigitsOfVal(from, rest);
  }

  // ---------------------------------------------------------------- the alphabet

  /** The alphabet in runs of consecutive characters: no 0, I, O and l. */
  const ALPHABET := "123456789" + "ABCDEFGH" + "JKLMN" + "PQRSTUVWXYZ" + "abcdefghijk" + "mnopqrstuvwxyz"

  /** The character code of a digit. */
  function CodeOf(d: nat): nat
    requires d < 58
  {
    if d < 9 then 49 + d else if d < 17 then 56 + d else if d < 22 then 57 + d
    else if d < 33 then 58 + d else if d < 44 then 64 + d else 65 + d
  }

  /** The decode table: the position of a character in the alphabet, or -1. */
  function DigitOf(c: nat): (d: int)
    ensures -1 <= d < 58 && (d >= 0 ==> c < 256)
  {
    if 49 <= c <= 57 then c - 49
    else if 65 <= c <= 72 then c - 56
    else if 74 <= c <= 78 then c - 57
    else if 80 <= c <= 90 then c - 58
    else if 97 <= c <= 107 then c - 64
    else if 109 <= c <= 122 then c - 65
    else -1
  }

  /** `run` holds consecutive characters from code `first` on. */
  predicate IsRun(run: string, first: nat) {
    forall i | 0 <= i < |run| :: run[i] as int == first + i
  }

  lemma Runs()
    ensures IsRun("123456789", 49)
    ensures IsRun("ABCDEFGH", 65)
    ensures IsRun("JKLMN", 74)
    ensures IsRun("PQRSTUVWXYZ", 80)
    ensures IsRun("abcdefghijk", 97)
    ensures IsRun("mnopqrstuvwxyz", 109)
  {
  }

  lemma AlphabetAt(d: nat)
    requires d < 58
    ensures |ALPHABET| == 58 && ALPHABET[d] as int == CodeOf(d) && DigitOf(CodeOf(d)) == d
  {
    Runs();
  }

  lemma DigitAt(c: nat)
    requires DigitOf(c) >= 0
    ensures DigitOf(c) < 58 && CodeOf(DigitOf(c)) == c
  {
  }

  // ---------------------------------------------------------------- base58 strings

  function Chars(ds: seq<int>): string
    requires IsDigits(58, ds)
  {
    seq(|ds|, i requires 0 <= i < |ds| => assert |ALPHABET| == 58 by { AlphabetAt(0); } ALPHABET[ds[i]])
  }

  predicate InAlphabet(s: string) {
    forall i | 0 <= i < |s| :: DigitOf(s[i] as int) >= 0
  }

  function DigitsOf(s: string): seq<int> {
    seq(|s|, i requires 0 <= i < |s| => DigitOf(s[i] as int))
  }

  lemma CharsBack(ds: seq<int>)
    requires IsDigits(58, ds)
    ensures InAlphabet(Chars(ds)) && DigitsOf(Chars(ds)) == ds
  {
    forall i | 0 <= i < |ds| ensures DigitOf(Chars(ds)[i] as int) == ds[i] { AlphabetAt(ds[i]); }
  }

  lemma DigitsBack(s: string)
    requires InAlphabet(s)
    ensures IsDigits(58, DigitsOf(s)) && Chars(DigitsOf(s)) == s
  {
    forall i | 0 <= i < |s| ensures 0 <= DigitsOf(s)[i] < 58 && ALPHABET[DigitsOf(s)[i]] == s[i] {
      DigitAt(s[i] as int);
      AlphabetAt(DigitsOf(s)[i]);
    }
  }

  function ToBase58(data: seq<Byte>): string {
    RecodeBack(256, 58, data);
    Chars(Recode(256, 58, data))
  }

  function FromBase58(s: string): Option<seq<Byte>> {
    if s == "" || !InAlphabet(s) then None
    else
      DigitsBack(s);
      RecodeBack(58, 256, DigitsOf(s));
      Some(Recode(58, 256, DigitsOf(s)))
  }

  /** Every non-empty byte string comes back from its base58 string. */
  lemma BytesBack(data: seq<Byte>)
    ensures FromBase58(ToBase58(data)) == if data == [] then None else Some(data)
  {
    RecodeBack(256, 58, data);
    CharsBack(Recode(256, 58, data));
  }

  /** Exactly the non-empty strings over the alphabet decode, and each is the base58 string of what it decodes to. */
  lemma StringsBack(s: string)
    ensures FromBase58(s).Some? <==> s != "" && InAlphabet(s)
    ensures FromBase58(s).Some? ==> FromBase58(s).value != [] && ToBase58(FromBase58(s).value) == s
  {
    if s != "" && InAlphabet(s) {
      DigitsBack(s);
      RecodeBack(58, 256, DigitsOf(s));
    }
  }

  lemma {:induction false} ValIsBigEndian(data: seq<Byte>)
    ensures Val(256, data) == BigEndian(data)
  {
    if data != [] { ValIsBigEndian(data[..|data| - 1]); }
  }

  const DIGITS := "123456789ABCDEFGHJKLMNPQRSTUVWXYZabcdefghijkmnopqrstuvwxyz"

  lemma DigitsAreAlphabet()
    ensures ALPHABET == DIGITS && |DIGITS| == 58
  {
    assert "123456789" + "ABCDEFGH" == "123456789ABCDEFGH";
    assert "123456789ABCDEFGH" + "JKLMN" == "123456789ABCDEFGHJKLMN";
    assert "123456789ABCDEFGHJKLMN" + "PQRSTUVWXYZ" == "123456789ABCDEFGHJKLMNPQRSTUVWXYZ";
    assert "123456789ABCDEFGHJKLMNPQRSTUVWXYZ" + "abcdefghijk" == "123456789ABCDEFGHJKLMNPQRSTUVWXYZabcdefghijk";
  }

  /**
   What a base58 string says: in the alphabet's digits, first one highest, it is the number that the
   bytes are, and it has as many leading ones as there are leading zero bytes.
   */
  lemma Base58Means(data: seq<Byte>)
    ensures var s := ToBase58(data);
      && InAlphabet(s) && Val(58, DigitsOf(s)) == BigEndian(data)
      && LeadingZeros(DigitsOf(s)) == LeadingZeros(data)
      && |DIGITS| == 58 && forall i | 0 <= i < |s| :: 0 <= DigitsOf(s)[i] < 58 && s[i] == DIGITS[DigitsOf(s)[i]]
  {
    RecodeBack(256, 58, data);
    var ds := Recode(256, 58, data);
    RecodeKeeps(256, 58, data);
    CharsBack(ds);
    ValIsBigEndian(data);
    DigitsAreAlphabet();
    AlphabetAt(0);
  }

  lemma RecodeKeeps(from: nat, to: nat, s: seq<int>)
    requires to >= 2 && Val(from, s) >= 0
    ensures Val(to, Recode(from, to, s)) == Val(from, s) && LeadingZeros(Recode(from, to, s)) == LeadingZeros(s)
  {
    var k, d := LeadingZeros(s), Digits(to, Val(from, s));
    ValOfDigits(to, Val(from, s));
    ValSkipsZeros(to, k, d);
    LeadingZerosOf(k, d);
  }

  // ---------------------------------------------------------------- the loops

  function Reversed<T>(s: seq<T>): seq<T> {
    seq(|s|, i requires 0 <= i < |s| => s[|s| - 1 - i])
  }

  method ReverseInPlace(a: array<char>)
    modifies a
    ensures a[..] == Reversed(old(a[..]))
  {
    var i, j := 0, a.Length - 1;
    while i < j
      invariant i + j == a.Length - 1 && 0 <= i <= a.Length && i <= j + 2
      invariant forall k | i <= k <= j :: a[k] == old(a[k])
      invariant forall k | 0 <= k < a.Length && (k < i || k > j) :: a[k] == old(a[a.Length - 1 - k])
    {
      a[i], a[j] := a[j], a[i];
      i, j := i + 1, j - 1;
    }
  }

  /** The digits of `v` as characters, least significant first: the `DivMod` loop. */
  method DivModLoop(v: nat) returns (chars: string)
    ensures IsDigits(58, Digits(58, v)) && Reversed(chars) == Chars(Digits(58, v))
  {
    ValOfDigits(58, v);
    var n: nat := v;
    chars := [];
    ghost var done: seq<int> := [];
    while n > 0
      invariant Written(v, n, done, chars)
    {
      AlphabetAt(n % 58);
      WriteDigit(v, n, done, chars);
      done := [n % 58] + done;
      chars := chars + [ALPHABET[n % 58]];
      n := n / 58;
    }
    assert [] + done == done;
  }

  /** `done` are the low digits of `v`, written out in `chars` backwards, and `n` is what they leave. */
  ghost predicate Written(v: nat, n: nat, done: seq<int>, chars: string) {
    && Digits(58, v) == Digits(58, n) + done
    && IsDigits(58, done) && Reversed(chars) == Chars(done)
  }

  lemma WriteDigit(v: nat, n: nat, done: seq<int>, chars: string)
    requires Written(v, n, done, chars) && n > 0
    ensures |ALPHABET| == 58 && n / 58 < n && Written(v, n / 58, [n % 58] + done, chars + [ALPHABET[n % 58]])
  {
    StepDigits(n, done);
    CharsCons(n % 58, done);
    ReversedSnoc(chars, ALPHABET[n % 58]);
  }

  lemma StepDigits(n: nat, done: seq<int>)
    requires n > 0
    ensures n / 58 < n && Digits(58, n) + done == Digits(58, n / 58) + ([n % 58] + done)
  {
    Assoc(Digits(58, n / 58), [n % 58], done);
  }

  lemma CharsCons(d: nat, ds: seq<int>)
    requires d < 58 && IsDigits(58, ds)
    ensures |ALPHABET| == 58 && Chars([d] + ds) == [ALPHABET[d]] + Chars(ds)
  {
    AlphabetAt(d);
  }

  lemma ReversedSnoc<T>(s: seq<T>, x: T)
    ensures Reversed(s + [x]) == [x] + Reversed(s)
  {
  }

  /** Digits behind `k` ones are the base58 string. */
  lemma JoinIs(data: seq<Byte>, digits: string)
    requires Val(256, data) >= 0 && IsDigits(58, Digits(58, Val(256, data)))
    requires Reversed(digits) == Chars(Digits(58, Val(256, data)))
    ensures |ALPHABET| == 58 && seq(LeadingZeros(data), _ => ALPHABET[0]) + Reversed(digits) == ToBase58(data)
  {
    AlphabetAt(0);
    var k, ds := LeadingZeros(data), Digits(58, Val(256, data));
    assert Recode(256, 58, data) == Zeros(k) + ds;
    RecodeBack(256, 58, data);
    assert Chars(Zeros(k) + ds) == seq(k, _ => ALPHABET[0]) + Chars(ds);
  }

  method Finish(digits: string, k: nat) returns (s: string)
    ensures |ALPHABET| == 58 && s == seq(k, _ => ALPHABET[0]) + Reversed(digits)
  {
    AlphabetAt(0);
    var chars := digits;
    for i := 0 to k
      invariant chars == digits + seq(i, _ => ALPHABET[0])
    {
      chars := chars + [ALPHABET[0]];
    }
    var a := new char[|chars|](i requires 0 <= i < |chars| => chars[i]);
    assert a[..] == chars;
    ReverseInPlace(a);
    s := a[..];
  }

  method CountZeros(data: seq<Byte>) returns (k: nat)
    ensures k == LeadingZeros(data)
  {
    k := 0;
    while k < |data| && data[k] == 0
      invariant k <= |data| && LeadingZeros(data) == k + LeadingZeros(data[k..])
    {
      k := k + 1;
    }
  }

  /** `base58Encode` of relayhub/base58.go. */
  method Base58Encode(data: seq<Byte>) returns (s: string)
    ensures s == ToBase58(data)
  {
    ValNonNegative(256, data);
    if |data| == 0 { return ""; }
    var chars := DivModLoop(Val(256, data));
    var k := CountZeros(data);
    s := Finish(chars, k);
    JoinIs(data, chars);
  }

  /** `base58Encode` of fedkey/keyring.go: no case for empty data. */
  method KeyringBase58Encode(data: seq<Byte>) returns (s: string)
    ensures s == ToBase58(data)
  {
    ValNonNegative(256, data);
    var chars := DivModLoop(Val(256, data));
    var k := 0;
    while k < |data|
      invariant k <= |data| && LeadingZeros(data) == k + LeadingZeros(data[k..])
    {
      if data[k] != 0 { break; }
      k := k + 1;
    }
    s := Finish(chars, k);
    JoinIs(data, chars);
  }

  ghost predicate IsTable(tab: array<int>)
    reads tab
  {
    tab.Length == 256 && forall c | 0 <= c < 256 :: tab[c] == DigitOf(c)
  }

  /** The table filled by `init`. */
  method DecodeTable() returns (tab: array<int>)
    ensures IsTable(tab)
  {
    tab := new int[256](_ => -1);
    AlphabetAt(0);
    for i := 0 to 58
      invariant forall c | 0 <= c < 256 :: tab[c] == if 0 <= DigitOf(c) < i then DigitOf(c) else -1
    {
      AlphabetAt(i);
      forall c | 0 <= c < 256 && DigitOf(c) == i ensures c == CodeOf(i) { DigitAt(c); }
      tab[CodeOf(i)] := i;
    }
    forall c | 0 <= c < 256 ensures DigitOf(c) < 58 {}
  }

  lemma AlphabetSnoc(s: string, i: nat)
    requires i < |s| && DigitOf(s[i] as int) >= 0 && InAlphabet(s[..i])
    ensures InAlphabet(s[..i + 1])
    ensures Val(58, DigitsOf(s[..i + 1])) == Val(58, DigitsOf(s[..i])) * 58 + DigitOf(s[i] as int)
  {
    assert s[..i + 1] == s[..i] + [s[i]];
    ValSnoc(58, DigitsOf(s[..i]), DigitOf(s[i] as int));
    assert DigitsOf(s[..i + 1]) == DigitsOf(s[..i]) + [DigitOf(s[i] as int)];
  }

  method ValueLoop(s: string) returns (r: Option<int>)
    ensures r == if InAlphabet(s) then Some(Val(58, DigitsOf(s))) else None
  {
    var tab := DecodeTable();
    var n := 0;
    for i := 0 to |s|
      invariant IsTable(tab) && InAlphabet(s[..i]) && n == Val(58, DigitsOf(s[..i]))
    {
      var c := s[i] as int;
      if c >= 256 || tab[c] == -1 { return None; }
      AlphabetSnoc(s, i);
      n := n * 58 + tab[c];
    }
    assert s[..|s|] == s;
    return Some(n);
  }

  method CountOnes(s: string) returns (k: nat)
    requires InAlphabet(s)
    ensures k == LeadingZeros(DigitsOf(s))
  {
    k := 0;
    AlphabetAt(0);
    while k < |s|
      invariant k <= |s| && LeadingZeros(DigitsOf(s)) == k + LeadingZeros(DigitsOf(s)[k..])
    {
      DigitAt(s[k] as int);
      if s[k] != ALPHABET[0] { break; }
      k := k + 1;
    }
  }

  /** `base58Decode`. */
  method Base58Decode(s: string) returns (r: Option<seq<Byte>>)
    ensures r == FromBase58(s)
  {
    if s == "" { return None; }
    var n := ValueLoop(s);
    if n.None? { return None; }
    var k := CountOnes(s);
    DigitsBack(s);
    RecodeBack(58, 256, DigitsOf(s));
    var data := Digits(256, n.value);
    r := Some(Zeros(k) + data);
  }
}
