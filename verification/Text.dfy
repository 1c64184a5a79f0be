/** Byte-string helpers shared by the models.

    Every `char` of a `string` stands for one byte of the program's UTF-8 text.  All the
    separators and character classes the program tests are ASCII, so cutting a text at them
    byte by byte is the same as cutting it character by character. */
module Text {

  datatype Option<+T> = None | Some(value: T)

  datatype Result<+T, +E> = Ok(value: T) | Err(error: E) {
    predicate IsFailure() {
      Err?
    }

    function PropagateFailure<U>(): Result<U, E>
      requires Err?
    {
      Err(error)
    }

    function Extract(): T
      requires Ok?
    {
      value
    }
  }

  predicate IsDigit(c: char) {
    '0' <= c <= '9'
  }

  predicate IsHex(c: char) {
    IsDigit(c) || 'a' <= c <= 'f' || 'A' <= c <= 'F'
  }

  predicate IsAlphanumeric(c: char) {
    IsDigit(c) || 'a' <= c <= 'z' || 'A' <= c <= 'Z'
  }

  predicate AllDigits(s: string) {
    forall c | c in s :: IsDigit(c)
  }

  predicate AllHex(s: string) {
    forall c | c in s :: IsHex(c)
  }

  predicate StartsWith(s: string, prefix: string) {
    prefix <= s
  }

  predicate EndsWith(s: string, suffix: string) {
    |suffix| <= |s| && s[|s| - |suffix|..] == suffix
  }

  function StripPrefix(s: string, prefix: string): Option<string> {
    if prefix <= s then Some(s[|prefix|..]) else None
  }

  function StripSuffix(s: string, suffix: string): Option<string> {
    if EndsWith(s, suffix) then Some(s[..|s| - |suffix|]) else None
  }

  // ---- sequences ----

  lemma Associative<T>(x: seq<T>, y: seq<T>, z: seq<T>)
    ensures (x + y) + z == x + (y + z)
  {
  }

  lemma ConsAppend<T>(a: seq<T>, b: seq<T>)
    requires a != []
    ensures a == [a[0]] + a[1..]
    ensures a + b == [a[0]] + (a[1..] + b)
  {
  }

  // ---- splitting at a separator ----

  function Split(s: string, c: char): (fields: seq<string>)
    ensures |fields| >= 1
  {
    if s == "" then [""]
    else if s[0] == c then [""] + Split(s[1..], c)
    else var rest := Split(s[1..], c); [[s[0]] + rest[0]] + rest[1..]
  }

  function Join(fields: seq<string>, c: char): string
    requires |fields| >= 1
  {
    if |fields| == 1 then fields[0] else fields[0] + [c] + Join(fields[1..], c)
  }

  ghost predicate Lack(fields: seq<string>, c: char) {
    forall i | 0 <= i < |fields| :: c !in fields[i]
  }

  lemma {:induction false} JoinSplit(s: string, c: char)
    ensures Join(Split(s, c), c) == s && Lack(Split(s, c), c)
  {
    if s != "" {
      JoinSplit(s[1..], c);
      var rest := Split(s[1..], c);
      if s[0] == c {
        assert Split(s, c)[1..] == rest;
      } else {
        var fields := Split(s, c);
        assert fields[1..] == rest[1..];
        assert s == [s[0]] + s[1..];
        forall i | 0 <= i < |fields| ensures c !in fields[i] {
          assert i == 0 || fields[i] == rest[i];
        }
      }
    }
  }

  lemma {:induction false} SplitJoin(fields: seq<string>, c: char)
    requires |fields| >= 1 && Lack(fields, c)
    ensures Split(Join(fields, c), c) == fields
  {
    if |fields| == 1 {
      SplitNone(fields[0], c);
    } else {
      SplitJoin(fields[1..], c);
      SplitAt(fields[0], c, Join(fields[1..], c));
      assert fields == [fields[0]] + fields[1..];
      assert Join(fields, c) == fields[0] + [c] + Join(fields[1..], c);
    }
  }

  lemma {:induction false} SplitNone(s: string, c: char)
    requires c !in s
    ensures Split(s, c) == [s]
  {
    if s != "" {
      SplitNone(s[1..], c);
      assert s == [s[0]] + s[1..];
    }
  }

  lemma {:induction false} SplitAt(head: string, c: char, tail: string)
    requires c !in head
    ensures Split(head + [c] + tail, c) == [head] + Split(tail, c)
  {
    var s := head + [c] + tail;
    if head == "" {
      assert s[1..] == tail;
    } else {
      SplitAt(head[1..], c, tail);
      assert s[1..] == head[1..] + [c] + tail;
      assert head == [head[0]] + head[1..];
    }
  }

  lemma JoinPair(a: string, rest: seq<string>, c: char)
    requires |rest| >= 1
    ensures Join([a] + rest, c) == a + [c] + Join(rest, c)
  {
    assert ([a] + rest)[1..] == rest;
  }

  lemma Join2(x: string, y: string, c: char)
    ensures Join([x, y], c) == x + [c] + y
  {
    JoinPair(x, [y], c);
  }

  lemma Join3(x: string, y: string, z: string, c: char)
    ensures Join([x, y, z], c) == x + [c] + (y + [c] + z)
  {
    assert [x, y, z] == [x] + [y, z];
    JoinPair(x, [y, z], c);
    Join2(y, z, c);
  }

  lemma Join4(w: string, x: string, y: string, z: string, c: char)
    ensures Join([w, x, y, z], c) == w + [c] + (x + [c] + (y + [c] + z))
  {
    assert [w, x, y, z] == [w] + [x, y, z];
    JoinPair(w, [x, y, z], c);
    Join3(x, y, z, c);
  }

  /** The cut at the first `c` is the only one whose left part lacks `c`. */
  lemma {:induction false} CutUnique(a: string, b: string, c: char, x: string, y: string)
    requires c !in a && c !in b && a + [c] + x == b + [c] + y
    ensures a == b && x == y
  {
    var s := a + [c] + x;
    assert s[|a|] == c && s[|b|] == (b + [c] + y)[|b|] == c;
    assert forall i | 0 <= i < |a| :: s[i] == a[i];
    assert forall i | 0 <= i < |b| :: s[i] == (b + [c] + y)[i] == b[i];
    assert |a| == |b|;
    assert a == s[..|a|] == b;
    assert x == s[|a| + 1..] == y;
  }

  /** The cut at the last `c` is the only one whose right part lacks `c`. */
  lemma {:induction false} LastCutUnique(a: string, b: string, c: char, x: string, y: string)
    requires c !in x && c !in y && a + [c] + x == b + [c] + y
    ensures a == b && x == y
  {
    var s := a + [c] + x;
    assert s[|a|] == c && s[|b|] == (b + [c] + y)[|b|] == c;
    assert forall i | |a| < i < |s| :: s[i] == x[i - |a| - 1];
    assert forall i | |b| < i < |s| :: s[i] == (b + [c] + y)[i] == y[i - |b| - 1];
    assert |a| == |b|;
    assert a == s[..|a|] == b;
    assert x == s[|a| + 1..] == y;
  }

  // ---- decimal numbers ----

  const U64_LIMIT: nat := 0x1_0000_0000_0000_0000

  function DigitChar(n: nat): char
    requires n < 10
  {
    '0' + n as char
  }

  function DigitValue(c: char): nat
    requires IsDigit(c)
  {
    c as int - '0' as int
  }

  function Decimal(n: nat): (s: string)
    ensures s != "" && AllDigits(s)
  {
    if n < 10 then [DigitChar(n)] else Decimal(n / 10) + [DigitChar(n % 10)]
  }

  function Value(s: string): nat
    requires AllDigits(s)
  {
    if s == "" then 0 else 10 * Value(s[..|s| - 1]) + DigitValue(s[|s| - 1])
  }

  lemma {:induction false} ValueDecimal(n: nat)
    ensures Value(Decimal(n)) == n
  {
    var s := Decimal(n);
    if n < 10 {
      assert s[..0] == "";
    } else {
      ValueDecimal(n / 10);
      assert s[..|s| - 1] == Decimal(n / 10);
    }
  }

  lemma DecimalInjective(m: nat, n: nat)
    requires Decimal(m) == Decimal(n)
    ensures m == n
  {
    ValueDecimal(m);
    ValueDecimal(n);
  }

  function Power10(k: nat): nat {
    if k == 0 then 1 else 10 * Power10(k - 1)
  }

  lemma {:induction false} DecimalLength(n: nat, k: nat)
    requires k >= 1 && n < Power10(k)
    ensures |Decimal(n)| <= k
  {
    if n >= 10 {
      assert Power10(1) == 10 * Power10(0);
      assert k != 1;
      DecimalLength(n / 10, k - 1);
    }
  }

  /** A 64-bit number has at most twenty digits. */
  lemma DecimalLength64(n: nat)
    requires n < U64_LIMIT
    ensures |Decimal(n)| <= 20
  {
    assert Power10(4) == 10_000;
    assert Power10(8) == 10_000 * Power10(4) by { assert Power10(6) == 100 * Power10(4); }
    assert Power10(12) == 10_000 * Power10(8) by { assert Power10(10) == 100 * Power10(8); }
    assert Power10(16) == 10_000 * Power10(12) by { assert Power10(14) == 100 * Power10(12); }
    assert Power10(20) == 10_000 * Power10(16) by { assert Power10(18) == 100 * Power10(16); }
    DecimalLength(n, 20);
  }
}
