/** Listener acquisition: binding the addresses of a standalone address list
    (`GetListenersByAddrs`, service_windows.go:197-225) and wrapping the
    descriptors inherited from the supervisor (`GetListeners`, lines
    229-259, whose loop lives in the Service class because it reads the
    descriptor count). The operating system is replaced by oracles:
    `canBind(k, addr)` says whether the `k`-th call of
    `net.Listen("tcp", addr)` succeeds, `opens(fd)` whether `os.NewFile`
    yields a file and `wraps(fd)` whether `net.FileListener` accepts it. */
module Listeners {
  import opened Seqs
  import opened Text
  import Args

  /** The control channel's descriptor (not read here: its closure is the
      event that starts the stop sequence in the Service class). */
  const StateFd: int := 5

  /** The first inherited listening descriptor. */
  const ListenFdStart: int := 6

  datatype Listener = TcpListener(addr: string) | FileListener(fd: int)

  /** The three acquisition errors of the source, by message. */
  datatype Error =
    | NoValidAddrs        // "No valid addrs for listening": empty address list
    | NoListenersCreated  // "No listeners were created": every bind failed
    | NoListenerCreated   // "No listener created": every descriptor failed

  datatype Result<T> = Ok(value: T) | Err(error: Error)

  // ---------------------------------------------------------------------
  // Standalone mode: the address list

  predicate IsSeparator(c: char) { c == ',' || c == ';' }

  /** Spaces removed, then every `,` turned into `;` (lines 205-206). */
  function Normalize(addrs: string): string
  {
    ReplaceAll(RemoveAll(addrs, ' '), ',', ';')
  }

  /** The tokens tried one by one (line 207). */
  function Tokens(addrs: string): seq<string>
  {
    Split(Normalize(addrs), ';')
  }

  /** No token contains a space or either separator, and there is always at
      least one token (possibly empty). */
  lemma TokensAreClean(addrs: string)
    ensures |Tokens(addrs)| >= 1
    ensures forall i :: 0 <= i < |Tokens(addrs)| ==>
              ' ' !in Tokens(addrs)[i] && ',' !in Tokens(addrs)[i] && ';' !in Tokens(addrs)[i]
  {
    var n := Normalize(addrs);
    assert ' ' !in n;
    assert ',' !in n;
    SplitAvoids(n, ';', ' ');
    SplitAvoids(n, ';', ',');
  }

  /** Joining the tokens with `;` gives back the normalised list, and
      splitting that again gives back the tokens. */
  lemma TokensRoundTrip(addrs: string)
    ensures Join(Tokens(addrs), ';') == Normalize(addrs)
    ensures Split(Join(Tokens(addrs), ';'), ';') == Tokens(addrs)
  {
    JoinSplit(Normalize(addrs), ';');
  }

  /** Two lists that differ only in which separator sits where. */
  predicate SameUpToSeparators(a: string, b: string)
  {
    |a| == |b| &&
    forall i :: 0 <= i < |a| ==> a[i] == b[i] || (IsSeparator(a[i]) && IsSeparator(b[i]))
  }

  lemma {:induction false} RemoveSpacesKeepsRelation(a: string, b: string)
    requires SameUpToSeparators(a, b)
    ensures SameUpToSeparators(RemoveAll(a, ' '), RemoveAll(b, ' '))
    decreases |a|
  {
    if |a| > 0 {
      assert SameUpToSeparators(a[1..], b[1..]) by {
        forall i | 0 <= i < |a[1..]|
          ensures a[1..][i] == b[1..][i] || (IsSeparator(a[1..][i]) && IsSeparator(b[1..][i]))
        {
          assert a[1..][i] == a[i + 1] && b[1..][i] == b[i + 1];
        }
      }
      RemoveSpacesKeepsRelation(a[1..], b[1..]);
      var ra, rb := RemoveAll(a[1..], ' '), RemoveAll(b[1..], ' ');
      if a[0] != ' ' {
        forall i | 0 <= i < |ra| + 1
          ensures ([a[0]] + ra)[i] == ([b[0]] + rb)[i]
               || (IsSeparator(([a[0]] + ra)[i]) && IsSeparator(([b[0]] + rb)[i]))
        {
          if i > 0 {
            assert ([a[0]] + ra)[i] == ra[i - 1] && ([b[0]] + rb)[i] == rb[i - 1];
          }
        }
      }
    }
  }

  /** `,` and `;` are interchangeable: lists that differ only in which of
      them is used at each place give the same tokens. */
  lemma SeparatorsEquivalent(a: string, b: string)
    requires SameUpToSeparators(a, b)
    ensures Tokens(a) == Tokens(b)
  {
    RemoveSpacesKeepsRelation(a, b);
    var ra, rb := RemoveAll(a, ' '), RemoveAll(b, ' ');
    var na, nb := ReplaceAll(ra, ',', ';'), ReplaceAll(rb, ',', ';');
    assert forall i :: 0 <= i < |na| ==> na[i] == nb[i];
    assert Normalize(a) == Normalize(b);
  }

  /** Spaces anywhere in the list make no difference to the tokens. */
  lemma SpacesIgnored(addrs: string)
    ensures Tokens(RemoveAll(addrs, ' ')) == Tokens(addrs)
  {
    assert RemoveAll(RemoveAll(addrs, ' '), ' ') == RemoveAll(addrs, ' ');
  }

  /** Normalising works character by character, so it distributes over
      concatenation. */
  lemma NormalizeAppend(a: string, b: string)
    ensures Normalize(a + b) == Normalize(a) + Normalize(b)
  {
    RemoveAllAppend(a, b, ' ');
    var ra, rb := RemoveAll(a, ' '), RemoveAll(b, ' ');
    var whole := ReplaceAll(ra + rb, ',', ';');
    var parts := ReplaceAll(ra, ',', ';') + ReplaceAll(rb, ',', ';');
    assert forall i :: 0 <= i < |whole| ==> whole[i] == parts[i];
  }

  /** A list without spaces or commas is already normal. */
  lemma NormalizeClean(a: string)
    requires ' ' !in a && ',' !in a
    ensures Normalize(a) == a
  {
    var n := Normalize(a);
    assert forall i :: 0 <= i < |a| ==> n[i] == a[i];
  }

  /** The listeners bound from `tokens`. Attempt `k` listens on
      `tokens[k]` and succeeds when `canBind(k, tokens[k])`: the outcome may
      depend on the earlier attempts, e.g. a second listen on an address the
      first attempt already holds fails. The successes are kept in attempt
      order. */
  function Bound(tokens: seq<string>, canBind: (nat, string) -> bool): (r: seq<Listener>)
    ensures |r| <= |tokens|
    decreases |tokens|
  {
    if |tokens| == 0 then []
    else
      var k := |tokens| - 1;
      Bound(tokens[..k], canBind) + (if canBind(k, tokens[k]) then [TcpListener(tokens[k])] else [])
  }

  /** Every successful attempt yields a listener, and every listener comes
      from a successful attempt. */
  lemma {:induction false} BoundMembers(tokens: seq<string>, canBind: (nat, string) -> bool)
    ensures forall k :: 0 <= k < |tokens| && canBind(k, tokens[k]) ==>
              TcpListener(tokens[k]) in Bound(tokens, canBind)
    ensures forall ln :: ln in Bound(tokens, canBind) ==>
              exists k :: 0 <= k < |tokens| && canBind(k, tokens[k]) && ln == TcpListener(tokens[k])
    decreases |tokens|
  {
    if |tokens| > 0 {
      var k := |tokens| - 1;
      var init := tokens[..k];
      BoundMembers(init, canBind);
      forall j | 0 <= j < k && canBind(j, tokens[j])
        ensures TcpListener(tokens[j]) in Bound(tokens, canBind)
      {
        assert init[j] == tokens[j];
      }
      forall ln | ln in Bound(init, canBind)
        ensures exists j :: 0 <= j < |tokens| && canBind(j, tokens[j]) && ln == TcpListener(tokens[j])
      {
        var j :| 0 <= j < |init| && canBind(j, init[j]) && ln == TcpListener(init[j]);
        assert tokens[j] == init[j];
      }
    }
  }

  /** When every attempt succeeds, every token becomes a listener, in order. */
  lemma {:induction false} BoundAll(tokens: seq<string>, canBind: (nat, string) -> bool)
    requires forall k :: 0 <= k < |tokens| ==> canBind(k, tokens[k])
    ensures Bound(tokens, canBind) == TcpAll(tokens)
    decreases |tokens|
  {
    if |tokens| > 0 {
      var k := |tokens| - 1;
      var init := tokens[..k];
      forall j | 0 <= j < |init| ensures canBind(j, init[j]) {
        assert init[j] == tokens[j];
      }
      BoundAll(init, canBind);
      assert TcpAll(tokens) == TcpAll(init) + [TcpListener(tokens[k])];
    }
  }

  function TcpAll(addrs: seq<string>): (r: seq<Listener>)
    ensures |r| == |addrs|
    ensures forall i :: 0 <= i < |r| ==> r[i] == TcpListener(addrs[i])
  {
    seq(|addrs|, i requires 0 <= i < |addrs| => TcpListener(addrs[i]))
  }

  /** The outcome of `GetListenersByAddrs(addrs)`. */
  function AddrsOutcome(addrs: string, canBind: (nat, string) -> bool): Result<seq<Listener>>
  {
    if |addrs| == 0 then Err(NoValidAddrs)
    else
      var ls := Bound(Tokens(addrs), canBind);
      if |ls| == 0 then Err(NoListenersCreated) else Ok(ls)
  }

  /** Standalone acquisition succeeds exactly when the list is non-empty and
      some attempt binds; every token whose attempt binds is among the
      listeners, and every listener is a token whose attempt bound. */
  lemma AddrsOutcomeIff(addrs: string, canBind: (nat, string) -> bool)
    ensures AddrsOutcome(addrs, canBind).Ok? <==>
              |addrs| > 0 && exists k :: 0 <= k < |Tokens(addrs)| && canBind(k, Tokens(addrs)[k])
    ensures AddrsOutcome(addrs, canBind).Ok? ==>
              forall k :: 0 <= k < |Tokens(addrs)| && canBind(k, Tokens(addrs)[k]) ==>
                TcpListener(Tokens(addrs)[k]) in AddrsOutcome(addrs, canBind).value
    ensures AddrsOutcome(addrs, canBind).Ok? ==>
              forall ln :: ln in AddrsOutcome(addrs, canBind).value ==>
                exists k :: 0 <= k < |Tokens(addrs)| && canBind(k, Tokens(addrs)[k]) &&
                            ln == TcpListener(Tokens(addrs)[k])
  {
    var ts := Tokens(addrs);
    BoundMembers(ts, canBind);
    var ls := Bound(ts, canBind);
    if |ls| > 0 {
      assert ls[0] in ls;
    }
  }

  /** When every one of the K attempts binds, the K listeners come back in
      token order. */
  lemma AllBind(addrs: string, canBind: (nat, string) -> bool)
    requires |addrs| > 0
    requires forall k :: 0 <= k < |Tokens(addrs)| ==> canBind(k, Tokens(addrs)[k])
    ensures AddrsOutcome(addrs, canBind) == Ok(TcpAll(Tokens(addrs)))
  {
    BoundAll(Tokens(addrs), canBind);
    TokensAreClean(addrs);
  }

  /** The separator ", " normalises to a single ";". */
  lemma NormalizeCommaSpace()
    ensures Normalize(", ") == ";"
  {
    assert ", "[1..] == " ";
    assert RemoveAll(", ", ' ') == ",";
    assert ReplaceAll(",", ',', ';')[0] == ';';
  }

  /** Two clean addresses written "a, b" are tried as exactly [a, b]. */
  lemma TwoTokens(a: string, b: string)
    requires ' ' !in a && ',' !in a && ';' !in a
    requires ' ' !in b && ',' !in b && ';' !in b
    ensures Tokens(a + ", " + b) == [a, b]
  {
    NormalizeAppend(a + ", ", b);
    NormalizeAppend(a, ", ");
    NormalizeClean(a);
    NormalizeClean(b);
    NormalizeCommaSpace();
    assert Normalize(a + ", ") == a + ";";
    assert Join([a, b], ';') == a + [';'] + b;
    assert Normalize(a + ", " + b) == Join([a, b], ';');
    SplitJoin([a, b], ';');
  }

  /** Two clean addresses written "a, b" are tried as exactly [a, b], and
      when both attempts bind, both listeners come back in that order. */
  lemma TwoAddresses(a: string, b: string, canBind: (nat, string) -> bool)
    requires ' ' !in a && ',' !in a && ';' !in a
    requires ' ' !in b && ',' !in b && ';' !in b
    ensures Tokens(a + ", " + b) == [a, b]
    ensures canBind(0, a) && canBind(1, b) ==>
              AddrsOutcome(a + ", " + b, canBind) == Ok([TcpListener(a), TcpListener(b)])
  {
    TwoTokens(a, b);
    if canBind(0, a) && canBind(1, b) {
      AllBind(a + ", " + b, canBind);
      assert TcpAll([a, b]) == [TcpListener(a), TcpListener(b)];
    }
  }

  /** An address listed twice is attempted twice. When the first attempt
      binds and the second fails because the address is already held, one
      listener comes back. */
  lemma RepeatedAddress(a: string, canBind: (nat, string) -> bool)
    requires ' ' !in a && ',' !in a && ';' !in a
    requires canBind(0, a) && !canBind(1, a)
    ensures Tokens(a + ", " + a) == [a, a]
    ensures AddrsOutcome(a + ", " + a, canBind) == Ok([TcpListener(a)])
  {
    TwoTokens(a, a);
    var ts := [a, a];
    assert ts[..1] == [a] && [a][..0] == [];
    assert Bound([a], canBind) == [TcpListener(a)];
    assert Bound(ts, canBind) == Bound([a], canBind);
  }

  /** Binding "127.0.0.1:9001, 127.0.0.1:9002" tries exactly the two
      addresses, and when both bind, returns both listeners in that order. */
  lemma TwoAddressExample(addrs: string, canBind: (nat, string) -> bool)
    requires addrs == "127.0.0.1:9001, 127.0.0.1:9002"
    requires canBind(0, "127.0.0.1:9001") && canBind(1, "127.0.0.1:9002")
    ensures Tokens(addrs) == ["127.0.0.1:9001", "127.0.0.1:9002"]
    ensures AddrsOutcome(addrs, canBind)
         == Ok([TcpListener("127.0.0.1:9001"), TcpListener("127.0.0.1:9002")])
  {
    var a, b := "127.0.0.1:9001", "127.0.0.1:9002";
    assert addrs == a + ", " + b;
    TwoAddresses(a, b, canBind);
  }

  /** Standalone acquisition (lines 197-225): an empty list fails before
      anything is tried; otherwise every token is tried in order, the ones
      that bind are kept in that order, the others are skipped, and an empty
      result is an error. `tried` is the sequence of bind attempts. */
  method GetListenersByAddrs(addrs: string, canBind: (nat, string) -> bool)
    returns (r: Result<seq<Listener>>, ghost tried: seq<string>)
    ensures tried == if |addrs| == 0 then [] else Tokens(addrs)
    ensures r == AddrsOutcome(addrs, canBind)
  {
    if |addrs| == 0 {
      return Err(NoValidAddrs), [];
    }
    var tokens := Tokens(addrs);
    var listeners: seq<Listener> := [];
    tried := [];
    for k := 0 to |tokens|
      invariant tried == tokens[..k]
      invariant listeners == Bound(tokens[..k], canBind)
    {
      var addr := tokens[k];
      assert tokens[..k + 1][..k] == tokens[..k];
      tried := tried + [addr];
      if canBind(k, addr) {
        listeners := listeners + [TcpListener(addr)];
      }
    }
    assert tokens[..|tokens|] == tokens;
    if |listeners| == 0 {
      return Err(NoListenersCreated), tried;
    }
    return Ok(listeners), tried;
  }

  // ---------------------------------------------------------------------
  // Supervised mode: the inherited descriptors

  /** `count` consecutive integers from `start` upwards (none when
      `count <= 0`). */
  function FdRange(start: int, count: int): (r: seq<int>)
    ensures |r| == if count > 0 then count else 0
    ensures forall i :: 0 <= i < |r| ==> r[i] == start + i
    decreases if count > 0 then count else 0
  {
    if count <= 0 then [] else FdRange(start, count - 1) + [start + count - 1]
  }

  /** The range holds exactly the descriptors from `start` to
      `start + count - 1`, each once, in ascending order. */
  lemma FdRangeExact(start: int, count: int, fd: int)
    ensures fd in FdRange(start, count) <==> start <= fd < start + count
    ensures forall i, j :: 0 <= i < j < |FdRange(start, count)| ==>
              FdRange(start, count)[i] < FdRange(start, count)[j]
  {
    if start <= fd < start + count {
      assert FdRange(start, count)[fd - start] == fd;
    }
  }

  /** A descriptor becomes a listener when the file opens and wraps. */
  function Usable(opens: int -> bool, wraps: int -> bool): int -> bool
  {
    fd => opens(fd) && wraps(fd)
  }

  function FileAll(fds: seq<int>): (r: seq<Listener>)
    ensures |r| == |fds|
    ensures forall i :: 0 <= i < |r| ==> r[i] == FileListener(fds[i])
  {
    seq(|fds|, i requires 0 <= i < |fds| => FileListener(fds[i]))
  }

  lemma FileAllSnoc(fds: seq<int>, fd: int)
    ensures FileAll(fds + [fd]) == FileAll(fds) + [FileListener(fd)]
  {
    assert FileAll(fds + [fd])[|fds|] == FileListener(fd);
  }

  /** The listeners wrapped from the first `count` inherited descriptors. */
  function Wrapped(count: int, opens: int -> bool, wraps: int -> bool): seq<Listener>
  {
    FileAll(Keep(FdRange(ListenFdStart, count), Usable(opens, wraps)))
  }

  /** The descriptors whose file was opened, and hence closed again. */
  function Opened(count: int, opens: int -> bool): seq<int>
  {
    Keep(FdRange(ListenFdStart, count), opens)
  }

  /** The outcome of `GetListeners()` with `listenFdCount == count`. */
  function FdOutcome(count: int, opens: int -> bool, wraps: int -> bool): Result<seq<Listener>>
  {
    var ls := Wrapped(count, opens, wraps);
    if |ls| == 0 then Err(NoListenerCreated) else Ok(ls)
  }

  /** Supervised acquisition succeeds exactly when some descriptor in
      [6, 6 + count) both opens and wraps; it returns at most `count`
      listeners, each for a descriptor whose file was opened and closed. */
  lemma FdOutcomeIff(count: int, opens: int -> bool, wraps: int -> bool)
    ensures FdOutcome(count, opens, wraps).Ok? <==>
              exists fd :: ListenFdStart <= fd < ListenFdStart + count && opens(fd) && wraps(fd)
    ensures FdOutcome(count, opens, wraps).Ok? ==>
              |FdOutcome(count, opens, wraps).value| <= count &&
              forall ln :: ln in FdOutcome(count, opens, wraps).value ==>
                ln.FileListener? && ln.fd in Opened(count, opens) && wraps(ln.fd)
  {
    var range := FdRange(ListenFdStart, count);
    var ok := Usable(opens, wraps);
    KeepNone(range, ok);
    if exists fd :: ListenFdStart <= fd < ListenFdStart + count && opens(fd) && wraps(fd) {
      var fd :| ListenFdStart <= fd < ListenFdStart + count && opens(fd) && wraps(fd);
      assert range[fd - ListenFdStart] == fd;
    }
    var kept := Keep(range, ok);
    forall fd | fd in kept ensures fd in Opened(count, opens) && wraps(fd) {
      KeepComplete(range, opens, fd);
    }
    if FdOutcome(count, opens, wraps).Ok? {
      forall ln | ln in FdOutcome(count, opens, wraps).value
        ensures ln.FileListener? && ln.fd in kept
      {
        var j :| 0 <= j < |kept| && FileAll(kept)[j] == ln;
      }
    }
  }

  /** When every descriptor in the range opens and wraps, acquisition
      returns one listener per descriptor, in descriptor order. */
  lemma AllUsable(count: int, opens: int -> bool, wraps: int -> bool)
    requires count >= 1
    requires forall fd :: ListenFdStart <= fd < ListenFdStart + count ==> opens(fd) && wraps(fd)
    ensures FdOutcome(count, opens, wraps) == Ok(FileAll(FdRange(ListenFdStart, count)))
  {
    var range := FdRange(ListenFdStart, count);
    assert forall i :: 0 <= i < |range| ==> Usable(opens, wraps)(range[i]);
    KeepAll(range, Usable(opens, wraps));
  }

  /** Descriptors 6 and 7 usable and `-s 2`: two listeners, in descriptor
      order. */
  lemma TwoDescriptorExample(opens: int -> bool, wraps: int -> bool)
    requires opens(6) && wraps(6) && opens(7) && wraps(7)
    ensures FdOutcome(2, opens, wraps) == Ok([FileListener(6), FileListener(7)])
  {
    AllUsable(2, opens, wraps);
    var range := FdRange(ListenFdStart, 2);
    assert range[0] == 6 && range[1] == 7;
    assert FileAll(range) == [FileListener(6), FileListener(7)];
  }

  // ---------------------------------------------------------------------
  // The loop bound as written, in 64-bit arithmetic

  /** Two's-complement wrap-around of Go's 64-bit `int`. */
  function Wrap64(x: int): (r: int)
    ensures Args.MinInt64 <= r <= Args.MaxInt64
    ensures (r - x) % 0x1_0000_0000_0000_0000 == 0
    ensures Args.MinInt64 <= x <= Args.MaxInt64 ==> r == x
  {
    (x - Args.MinInt64) % 0x1_0000_0000_0000_0000 + Args.MinInt64
  }

  /** The descriptors the loop at line 231 tries as written: the bound
      `listenFdStart+listenFdCount` is an int64 sum, and the loop runs while
      `fd` is below it. */
  function AsWrittenFdRange(count: int): seq<int>
  {
    FdRange(ListenFdStart, Wrap64(ListenFdStart + count) - ListenFdStart)
  }

  function AsWrittenFdOutcome(count: int, opens: int -> bool, wraps: int -> bool): Result<seq<Listener>>
  {
    var ls := FileAll(Keep(AsWrittenFdRange(count), Usable(opens, wraps)));
    if |ls| == 0 then Err(NoListenerCreated) else Ok(ls)
  }

  /** Within the int64 range the code as written tries the intended range. */
  lemma AsWrittenAgreesBelowOverflow(count: int)
    requires Args.MinInt64 - ListenFdStart <= count <= Args.MaxInt64 - ListenFdStart
    ensures AsWrittenFdRange(count) == FdRange(ListenFdStart, count)
  {
  }

  /** With descriptor 6 usable, any positive count yields a listener set
      that starts with descriptor 6. */
  lemma FirstDescriptorKept(count: int, opens: int -> bool, wraps: int -> bool)
    requires count >= 1 && opens(6) && wraps(6)
    ensures FdOutcome(count, opens, wraps).Ok?
    ensures FdOutcome(count, opens, wraps).value[0] == FileListener(6)
  {
    var range := FdRange(ListenFdStart, count);
    var ok := Usable(opens, wraps);
    assert range == [6] + range[1..];
    KeepAppend([6], range[1..], ok);
    assert Keep([6], ok) == [6] by {
      assert [6][..0] == [];
    }
  }

  /** The largest descriptor count makes the loop bound wrap below 6. */
  lemma BoundWrapsAtMax(n: int)
    requires n == Args.MaxInt64
    ensures Wrap64(ListenFdStart + n) == Args.MinInt64 + 5
  {
  }

  /** `-s 9223372036854775807` is accepted as a descriptor count, the bound
      wraps to a negative number and no descriptor is tried, so even with
      descriptor 6 usable the code as written fails, where the intended range
      starts at 6 and yields a listener. */
  lemma OverflowSkipsAllDescriptors(n: nat, opens: int -> bool, wraps: int -> bool)
    requires n == Args.MaxInt64
    requires opens(6) && wraps(6)
    ensures Args.FdCountOf(Args.Itoa(n)) == n
    ensures AsWrittenFdRange(n) == []
    ensures AsWrittenFdOutcome(n, opens, wraps) == Err(NoListenerCreated)
    ensures FdOutcome(n, opens, wraps).Ok?
    ensures FdOutcome(n, opens, wraps).value[0] == FileListener(6)
  {
    Args.AtoiItoa(n);
    BoundWrapsAtMax(n);
    FirstDescriptorKept(n, opens, wraps);
  }
}
