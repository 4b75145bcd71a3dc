/** The command-line scan `parseArgs` (service_windows.go:100-138): an
    index-driven pass over the whole argument list, program name included,
    in which `-s`, `-f`, `-t` and `-n` take the next token as their value and
    `-u`, `-v` and `-c` switch a boolean on. Unknown tokens are skipped. */
module Args {

  const MaxInt64: int := 0x7fff_ffff_ffff_ffff
  const MinInt64: int := -0x8000_0000_0000_0000
  const MaxUint64: int := 0xffff_ffff_ffff_ffff

  predicate IsDigit(c: char) { '0' <= c <= '9' }

  predicate AllDigits(s: string) { forall i :: 0 <= i < |s| ==> IsDigit(s[i]) }

  /** The value of a string of decimal digits, most significant first. */
  function DigitsValue(s: string): nat
    requires AllDigits(s)
    decreases |s|
  {
    if |s| == 0 then 0
    else DigitsValue(s[..|s| - 1]) * 10 + (s[|s| - 1] as int - '0' as int)
  }

  function Clamp64(v: int): (r: int)
    ensures MinInt64 <= r <= MaxInt64
    ensures MinInt64 <= v <= MaxInt64 ==> r == v
  {
    if v > MaxInt64 then MaxInt64 else if v < MinInt64 then MinInt64 else v
  }

  /** The length of the run of decimal digits at the start of `s`. */
  function DigitRun(s: string): (n: nat)
    ensures n <= |s| && AllDigits(s[..n])
    ensures n < |s| ==> !IsDigit(s[n])
    decreases |s|
  {
    if |s| == 0 || !IsDigit(s[0]) then 0
    else
      var n := 1 + DigitRun(s[1..]);
      assert s[..n] == [s[0]] + s[1..][..n - 1];
      n
  }

  /** What `strconv.Atoi` does after the optional sign, on a 64-bit
      platform. The digits are read left to right. A character that is not a
      digit makes the result 0, unless the digits before it already exceed
      the uint64 range: that range error is reported first, and the result is
      clamped. A string of digits gives its value, negated when `negative`,
      clamped to the int64 range. Nothing at all gives 0. */
  function ParseDigits(digits: string, negative: bool): (r: int)
    ensures MinInt64 <= r <= MaxInt64
    ensures (|digits| == 0 || !IsDigit(digits[0])) ==> r == 0
  {
    var run := DigitRun(digits);
    if |digits| == 0 then 0
    else if run == |digits| then Signed(DigitsValue(digits), negative)
    else if DigitsValue(digits[..run]) <= MaxUint64 then 0
    else Signed(DigitsValue(digits[..run]), negative)
  }

  /** A magnitude with its sign applied, clamped to the int64 range. */
  function Signed(value: nat, negative: bool): (r: int)
    ensures MinInt64 <= r <= MaxInt64
  {
    if negative then Clamp64(-(value as int)) else Clamp64(value)
  }

  /** Go's `strconv.Atoi`, with the error dropped as `parseArgs` drops it:
      an optional `+` or `-`, then the digits as ParseDigits reads them. */
  function Atoi(s: string): (r: int)
    ensures MinInt64 <= r <= MaxInt64
    ensures (forall i :: 0 <= i < |s| ==> !IsDigit(s[i])) ==> r == 0
  {
    var signed := |s| > 0 && (s[0] == '-' || s[0] == '+');
    ParseDigits(if signed then s[1..] else s, signed && s[0] == '-')
  }

  /** A string of digits is one run. */
  lemma {:induction false} DigitRunAll(d: string)
    requires AllDigits(d)
    ensures DigitRun(d) == |d|
    decreases |d|
  {
    if |d| > 0 {
      DigitRunAll(d[1..]);
    }
  }

  /** A string of digits is one run; digits followed by more text stop
      where the digits stop. */
  lemma {:induction false} DigitRunAppend(a: string, b: string)
    requires AllDigits(a)
    ensures DigitRun(a + b) == |a| + DigitRun(b)
    decreases |a|
  {
    if |a| > 0 {
      assert (a + b)[1..] == a[1..] + b;
      DigitRunAppend(a[1..], b);
    } else {
      assert a + b == b;
    }
  }

  /** The decimal digits of `n` without leading zeros, as Go's `strconv.Itoa`
      writes a non-negative number. */
  function Itoa(n: nat): (r: string)
    ensures |r| >= 1 && AllDigits(r)
    ensures DigitsValue(r) == n
    decreases n
  {
    var last := [('0' as int + n % 10) as char];
    if n < 10 then last
    else
      var init := Itoa(n / 10);
      assert (init + last)[..|init + last| - 1] == init;
      init + last
  }

  /** A non-empty string of digits is read as its value, clamped. */
  lemma ParseAllDigits(d: string, negative: bool)
    requires |d| > 0 && AllDigits(d)
    ensures ParseDigits(d, negative) == Signed(DigitsValue(d), negative)
  {
    DigitRunAll(d);
  }

  /** A non-empty string of digits, with or without a sign, is read as its
      value clamped to the int64 range. */
  lemma AtoiDigits(d: string)
    requires |d| > 0 && AllDigits(d)
    ensures Atoi(d) == Atoi("+" + d) == Clamp64(DigitsValue(d))
    ensures Atoi("-" + d) == Clamp64(-(DigitsValue(d) as int))
  {
    ParseAllDigits(d, false);
    ParseAllDigits(d, true);
    assert ("+" + d)[1..] == d;
    assert ("-" + d)[1..] == d;
  }

  /** Atoi reads back every int64 that Itoa writes, with or without a sign,
      and clamps the larger magnitudes to the int64 bounds. */
  lemma AtoiItoa(n: nat)
    ensures n <= MaxInt64 ==> Atoi(Itoa(n)) == n && Atoi("+" + Itoa(n)) == n
    ensures n <= MaxInt64 ==> Atoi("-" + Itoa(n)) == -(n as int)
    ensures n > MaxInt64 ==> Atoi(Itoa(n)) == MaxInt64 && Atoi("+" + Itoa(n)) == MaxInt64
    ensures n > MaxInt64 ==> Atoi("-" + Itoa(n)) == MinInt64
  {
    AtoiDigits(Itoa(n));
  }

  /** Digits followed by anything that does not start with a digit: the
      result is 0, except that digits beyond the uint64 range are reported as
      a range error first and give the int64 maximum. */
  lemma AtoiTrailingText(n: nat, rest: string)
    requires |rest| > 0 && !IsDigit(rest[0])
    ensures Atoi(Itoa(n) + rest) == if n > MaxUint64 then MaxInt64 else 0
  {
    var d := Itoa(n);
    DigitRunAppend(d, rest);
    assert (d + rest)[..|d|] == d;
    assert (d + rest)[0] == d[0];
  }

  /** The descriptor count that `-s v` leaves: the parsed value, or 1 when
      that is not positive (which includes every unparsable `v`). */
  function FdCountOf(v: string): (n: int)
    ensures 1 <= n <= MaxInt64
    ensures Atoi(v) > 0 ==> n == Atoi(v)
    ensures Atoi(v) <= 0 ==> n == 1
  {
    var parsed := Atoi(v);
    if parsed <= 0 then 1 else parsed
  }

  /** The package globals `parseArgs` writes. */
  datatype Settings = Settings(
    listenFdCount: int,
    confPath: string,
    sockType: string,
    services: string,
    privilege: bool,
    verbose: bool,
    chrootOn: bool)

  /** Flags that consume the token after them. */
  predicate IsValueFlag(t: string) { t == "-s" || t == "-f" || t == "-t" || t == "-n" }

  /** Flags that switch a boolean on. */
  predicate IsSwitch(t: string) { t == "-u" || t == "-v" || t == "-c" }

  /** The index the scan moves to after looking at position `i`. */
  function Step(args: seq<string>, i: nat): (j: nat)
    requires i < |args|
    ensures j == i + 1 || (j == i + 2 && IsValueFlag(args[i]))
  {
    if IsValueFlag(args[i]) then i + 2 else i + 1
  }

  /** What looking at position `i` does to the settings. A value flag in the
      last position has no value and changes nothing. */
  function Effect(args: seq<string>, i: nat, s: Settings): Settings
    requires i < |args|
  {
    var t := args[i];
    var hasValue := i + 1 < |args|;
    if t == "-s" then (if hasValue then s.(listenFdCount := FdCountOf(args[i + 1])) else s)
    else if t == "-f" then (if hasValue then s.(confPath := args[i + 1]) else s)
    else if t == "-t" then (if hasValue then s.(sockType := args[i + 1]) else s)
    else if t == "-n" then (if hasValue then s.(services := args[i + 1]) else s)
    else if t == "-u" then s.(privilege := true)
    else if t == "-v" then s.(verbose := true)
    else if t == "-c" then s.(chrootOn := true)
    else s
  }

  /** The settings after scanning `args` from position `i` on. */
  function Scan(args: seq<string>, i: nat, s: Settings): Settings
    decreases |args| - i
  {
    if i >= |args| then s else Scan(args, Step(args, i), Effect(args, i, s))
  }

  /** Position `p` is looked at as a flag when the scan starts at `i`. */
  predicate Reached(args: seq<string>, i: nat, p: nat)
    ensures Reached(args, i, p) ==> i <= p < |args|
    decreases |args| - i
  {
    i < |args| && (p == i || Reached(args, Step(args, i), p))
  }

  /** The setting a value flag writes. */
  datatype Value = Count(n: int) | Text(t: string)

  function ValueOf(s: Settings, flag: string): Value
    requires IsValueFlag(flag)
  {
    if flag == "-s" then Count(s.listenFdCount)
    else if flag == "-f" then Text(s.confPath)
    else if flag == "-t" then Text(s.sockType)
    else Text(s.services)
  }

  /** What a value flag writes when its value is `v`. */
  function Assigned(flag: string, v: string): Value
    requires IsValueFlag(flag)
  {
    if flag == "-s" then Count(FdCountOf(v)) else Text(v)
  }

  /** The boolean a switch sets. */
  function SwitchOf(s: Settings, flag: string): bool
    requires IsSwitch(flag)
  {
    if flag == "-u" then s.privilege else if flag == "-v" then s.verbose else s.chrootOn
  }

  /** A value flag's value is never itself read as a flag. */
  lemma {:induction false} ValueConsumed(args: seq<string>, i: nat, p: nat)
    requires Reached(args, i, p) && IsValueFlag(args[p]) && p + 1 < |args|
    ensures !Reached(args, i, p + 1)
    decreases |args| - i
  {
    if i == p {
      assert !Reached(args, Step(args, i), p + 1);
    } else {
      ValueConsumed(args, Step(args, i), p);
    }
  }

  /** A value setting that no reached occurrence of its flag assigns keeps
      its old value; in particular a trailing `-s` with nothing after it
      leaves the descriptor count as it was. */
  lemma {:induction false} ValueUntouched(args: seq<string>, i: nat, s: Settings, flag: string)
    requires IsValueFlag(flag)
    requires forall q: nat :: Reached(args, i, q) && args[q] == flag ==> q + 1 == |args|
    ensures ValueOf(Scan(args, i, s), flag) == ValueOf(s, flag)
    decreases |args| - i
  {
    if i < |args| {
      var j := Step(args, i);
      forall q: nat | Reached(args, j, q) && args[q] == flag ensures q + 1 == |args| {
        assert Reached(args, i, q);
      }
      assert Reached(args, i, i);
      ValueUntouched(args, j, Effect(args, i, s), flag);
    }
  }

  /** When a value flag occurs several times, the last occurrence that has a
      value decides the setting. */
  lemma {:induction false} LastValueWins(args: seq<string>, i: nat, s: Settings, flag: string, p: nat)
    requires IsValueFlag(flag)
    requires Reached(args, i, p) && args[p] == flag && p + 1 < |args|
    requires forall q: nat :: Reached(args, i, q) && q > p && args[q] == flag ==> q + 1 == |args|
    ensures ValueOf(Scan(args, i, s), flag) == Assigned(flag, args[p + 1])
    decreases |args| - i
  {
    var j := Step(args, i);
    if i == p {
      var s' := Effect(args, i, s);
      assert ValueOf(s', flag) == Assigned(flag, args[p + 1]);
      forall q: nat | Reached(args, j, q) && args[q] == flag ensures q + 1 == |args| {
        assert Reached(args, i, q);
      }
      ValueUntouched(args, j, s', flag);
    } else {
      forall q: nat | Reached(args, j, q) && q > p && args[q] == flag ensures q + 1 == |args| {
        assert Reached(args, i, q);
      }
      LastValueWins(args, j, Effect(args, i, s), flag, p);
    }
  }

  /** A switch is on after the scan exactly when it was on before or some
      reached token is that switch: the scan only ever turns switches on. */
  lemma {:induction false} SwitchOnIff(args: seq<string>, i: nat, s: Settings, flag: string)
    requires IsSwitch(flag)
    ensures SwitchOf(Scan(args, i, s), flag) <==>
              SwitchOf(s, flag) || exists q: nat :: Reached(args, i, q) && args[q] == flag
    decreases |args| - i
  {
    if i < |args| {
      var j := Step(args, i);
      var s' := Effect(args, i, s);
      SwitchOnIff(args, j, s', flag);
      assert SwitchOf(s', flag) <==> SwitchOf(s, flag) || args[i] == flag;
      if exists q: nat :: Reached(args, i, q) && args[q] == flag {
        var q: nat :| Reached(args, i, q) && args[q] == flag;
        assert q == i || Reached(args, j, q);
      }
      if exists q: nat :: Reached(args, j, q) && args[q] == flag {
        var q: nat :| Reached(args, j, q) && args[q] == flag;
        assert Reached(args, i, q);
      }
      assert args[i] == flag ==> Reached(args, i, i);
    } else {
      assert forall q: nat :: !Reached(args, i, q);
    }
  }

  /** The descriptor count stays a positive int64 through any scan. */
  lemma {:induction false} FdCountStaysInRange(args: seq<string>, i: nat, s: Settings)
    requires 1 <= s.listenFdCount <= MaxInt64
    ensures 1 <= Scan(args, i, s).listenFdCount <= MaxInt64
    decreases |args| - i
  {
    if i < |args| {
      FdCountStaysInRange(args, Step(args, i), Effect(args, i, s));
    }
  }

  /** `prog -s N` sets the descriptor count to N for every positive int64 N,
      and `prog -s 0` sets it to 1. */
  lemma FdCountFlagExamples(s: Settings, n: nat)
    requires 1 <= n <= MaxInt64
    ensures Scan(["prog", "-s", Itoa(n)], 0, s).listenFdCount == n
    ensures Scan(["prog", "-s", "0"], 0, s).listenFdCount == 1
  {
    AtoiItoa(n);
    AtoiItoa(0);
    var args := ["prog", "-s", Itoa(n)];
    assert Scan(args, 0, s) == Scan(args, 1, s);
    assert Scan(args, 1, s) == Scan(args, 3, s.(listenFdCount := n));
    var zero := ["prog", "-s", "0"];
    assert zero[2] == Itoa(0);
    assert Scan(zero, 0, s) == Scan(zero, 1, s);
    assert Scan(zero, 1, s) == Scan(zero, 3, s.(listenFdCount := 1));
  }

  /** `prog -s v` with no digit anywhere in `v` (e.g. `abc`, or a lone
      sign) sets the descriptor count to 1; `prog -s Nx` with N in the
      uint64 range and `x` not a digit does the same. */
  lemma FdCountUnparsable(s: Settings, v: string, n: nat, rest: string)
    requires forall i :: 0 <= i < |v| ==> !IsDigit(v[i])
    requires n <= MaxUint64 && |rest| > 0 && !IsDigit(rest[0])
    ensures Scan(["prog", "-s", v], 0, s).listenFdCount == 1
    ensures Scan(["prog", "-s", Itoa(n) + rest], 0, s).listenFdCount == 1
  {
    var args := ["prog", "-s", v];
    assert Scan(args, 0, s) == Scan(args, 1, s);
    assert Scan(args, 1, s) == Scan(args, 3, s.(listenFdCount := 1));
    AtoiTrailingText(n, rest);
    var junk := ["prog", "-s", Itoa(n) + rest];
    assert Scan(junk, 0, s) == Scan(junk, 1, s);
    assert Scan(junk, 1, s) == Scan(junk, 3, s.(listenFdCount := 1));
  }
}
