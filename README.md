# go-service worker lifecycle, modelled in Dafny

This project models the worker side of go-service's supervised process
lifecycle, as implemented in `service_windows.go`. A worker process is started
either by the acl_master supervisor or standalone. It:

- reads its command line (`parseArgs`);
- loads its configuration once (`Prepare`);
- runs the pre-jail hook, the owner check (`chroot`) and the init hook;
- acquires its listeners: it binds a comma- or semicolon-separated address
  list in standalone mode (`GetListenersByAddrs`), or wraps the descriptors
  6, 7, ... handed down by the supervisor (`GetListeners`);
- when supervised, starts a monitor that, once the supervisor goes away,
  closes the listeners (or runs an on-stop handler), waits for the connection
  count to drain, up to `AppWaitLimit` one-second ticks, and calls the stop
  handler (`monitorMaster`).

A mutex-protected counter tracks live connections.

Modules:

- `Seqs` — order-preserving filtering. The descriptor loop keeps the
  descriptors whose file opened, and those that also wrapped, in the order
  tried.
- `Text` — Go's `strings.Replace(s, c, "", -1)`, `strings.Replace(s, a, b, -1)`
  and `strings.Split` for one-character arguments, with `Join` as the inverse
  of `Split`.
- `Args` — `strconv.Atoi` as `parseArgs` uses it, and the argument scan as a
  function `Scan` over the whole argument list, with lemmas about which
  occurrence of a flag decides a setting.
- `Listeners` — address-list tokenising, both acquisition modes as functions
  of oracles, the standalone loop as a method, and the 64-bit loop-bound
  finding.
- `Drain` — the drain loop as a method proved against the stopping rule
  `DrainsAfter`.
- `Service` — the package globals as fields of one `Service` object, with one
  method per function of the source that updates them. What the process does
  to the outside world (hooks run, owner lookups, bind and descriptor
  attempts, monitor start, listeners closed, ticks slept, stop handler called)
  is recorded in order in the ghost field `trace`, and each method states the
  events it appends.

The operating system and the network enter as parameters:

- `canBind(k, addr)`: whether the `k`-th `net.Listen("tcp", addr)` call of
  one address list succeeds. The attempt number lets an outcome depend on
  earlier attempts, e.g. a second listen on an address the first one already
  holds fails.
- `opens(fd)`: whether `os.NewFile` gives a file.
- `wraps(fd)`: whether `net.FileListener` accepts it.
- `load(path)`: the configuration values read from `path`.
- `countAt(k)`: the connection count seen at the drain check after `k` ticks.

Four facts about the source that the model keeps as they are:

- The exit hook registered with `OnExit` is stored, but nothing in this file
  calls it.
- `monitorMaster` always calls the stop handler with `true`.
- `connCountDec` does not clamp the connection counter at zero.
- `parseArgs` does not look at `-alone`. Whether the worker runs standalone is
  decided only by whether `ServiceInit` gets a non-empty address list.

## Model

| member | source | states |
|---|---|---|
| Text.RemoveAll | service_windows.go:205 | the result holds no occurrence of the removed character; its length is the input's length minus the number of occurrences; an input without the character comes back unchanged (with RemoveAllAppend, the kept characters stay in order) |
| Text.RemoveAllAppend | service_windows.go:205 | removal distributes over concatenation, so the characters kept stay in their original order |
| Text.ReplaceAll | service_windows.go:206 | the length is kept; every `,` becomes `;` and every other character stays where it was |
| Text.Split | service_windows.go:207 | one more piece than there are separators (so `""` gives one empty piece); no piece contains the separator |
| Text.JoinSplit | service_windows.go:207 | joining the pieces of a split with the separator gives the original string back |
| Text.SplitJoin | service_windows.go:207 | splitting the join of at least one separator-free piece gives the pieces back |
| Args.ParseDigits | service_windows.go:107 | the result is always an int64, and text that does not start with a digit gives 0 |
| Args.Atoi | service_windows.go:107 | the result is always an int64, and an argument with no digit in it (empty, a lone sign, `abc`) gives 0 |
| Args.AtoiDigits | service_windows.go:107 | a non-empty digit string, bare, with `+` or with `-`, is read as its value (negated for `-`) clamped to the int64 range |
| Args.AtoiItoa | service_windows.go:107 | every int64 magnitude written in decimal reads back as itself, with `+` as itself and with `-` as its negation; larger magnitudes are clamped to MaxInt64, or to MinInt64 with `-` |
| Args.AtoiTrailingText | service_windows.go:107 | digits followed by text that starts with a non-digit give 0 when the digits fit in uint64, and MaxInt64 (the range error reported first) when they do not |
| Args.FdCountOf | service_windows.go:104-112 | `-s v` sets the descriptor count to the parsed value when that is positive, and to 1 otherwise; the count is always in [1, MaxInt64] |
| Args.ValueConsumed | service_windows.go:101-127 | the token after `-s`, `-f`, `-t` or `-n` is taken as its value and is never itself read as a flag |
| Args.ValueUntouched | service_windows.go:104-127 | a setting keeps its value when no occurrence of its flag the scan reaches is followed by a value, e.g. a trailing `-s` |
| Args.LastValueWins | service_windows.go:104-127 | with several occurrences of a value flag, the last one followed by a value decides the setting |
| Args.SwitchOnIff | service_windows.go:128-133 | `-u`, `-v` and `-c` are on after the scan exactly when they were on before or the scan reaches that token; nothing turns them off |
| Args.FdCountStaysInRange | service_windows.go:100-138 | the scan keeps the descriptor count in [1, MaxInt64] |
| Args.FdCountFlagExamples | service_windows.go:104-112 | `prog -s N` gives count N for every positive int64 N; `prog -s 0` gives 1 |
| Args.FdCountUnparsable | service_windows.go:104-112 | `prog -s v` gives count 1 when `v` has no digit, and when `v` is a uint64-range number followed by text starting with a non-digit |
| Listeners.TokensAreClean | service_windows.go:205-207 | there is always at least one token, and none holds a space, `,` or `;` |
| Listeners.TokensRoundTrip | service_windows.go:205-207 | the tokens joined with `;` are the normalised list, and re-splitting that gives the tokens back |
| Listeners.SeparatorsEquivalent | service_windows.go:206-207 | lists that differ only in where `,` or `;` is used give the same tokens |
| Listeners.SpacesIgnored | service_windows.go:205 | removing spaces beforehand does not change the tokens |
| Listeners.TwoTokens | service_windows.go:205-207 | two clean addresses written `a, b` are tried as exactly `[a, b]` |
| Listeners.BoundMembers | service_windows.go:209-219 | every token whose own listen attempt succeeds becomes a listener, and every listener comes from a successful attempt |
| Listeners.BoundAll | service_windows.go:209-219 | when every attempt succeeds, every token becomes a listener, in token order |
| Listeners.AddrsOutcomeIff | service_windows.go:197-225 | standalone acquisition succeeds iff the list is non-empty and some attempt binds; every token whose attempt binds is returned; every listener returned is a token whose attempt bound |
| Listeners.AllBind | service_windows.go:209-224 | when every attempt binds, all tokens come back as listeners in token order |
| Listeners.TwoAddresses | service_windows.go:203-224 | for `a, b` with both attempts binding, the result is the two listeners in order |
| Listeners.RepeatedAddress | service_windows.go:209-219 | `a, a` is attempted twice; when the second listen fails because the first holds the address, one listener comes back |
| Listeners.TwoAddressExample | service_windows.go:203-224 | `127.0.0.1:9001, 127.0.0.1:9002` is tried as those two addresses and, when both bind, gives both listeners in that order |
| Listeners.GetListenersByAddrs | service_windows.go:197-225 | an empty list is an error with nothing tried; otherwise exactly the tokens are tried in order, and the result is `AddrsOutcome` (the tokens whose attempt bound, in order, or the "no listeners" error) |
| Listeners.FdRangeExact | service_windows.go:231 | the descriptors tried are exactly those in [6, 6 + count), in ascending order |
| Listeners.FdOutcomeIff | service_windows.go:229-259 | supervised acquisition succeeds iff some descriptor in [6, 6 + count) both opens and wraps; it returns at most `count` listeners, each for a descriptor whose file was opened and closed and which wrapped |
| Listeners.AllUsable | service_windows.go:229-259 | when every descriptor in the range is usable, one listener per descriptor comes back, in descriptor order |
| Listeners.TwoDescriptorExample | service_windows.go:229-259 | with count 2 and descriptors 6 and 7 usable, the listeners are for 6 then 7 |
| Listeners.FirstDescriptorKept | service_windows.go:229-259 | with a positive count and descriptor 6 usable, acquisition succeeds and the first listener is for descriptor 6 |
| Listeners.AsWrittenAgreesBelowOverflow | service_windows.go:231 | when `6 + count` fits in int64, the 64-bit loop bound tries exactly the intended range |
| Listeners.BoundWrapsAtMax | service_windows.go:231 | with count MaxInt64 the 64-bit sum `6 + count` wraps to MinInt64 + 5 |
| Listeners.OverflowSkipsAllDescriptors | service_windows.go:104-112 | `-s 9223372036854775807` is accepted as the count; as written no descriptor is tried and acquisition fails, whereas the intended range succeeds with descriptor 6 |
| Drain.DrainLoop | service_windows.go:342-362 | the loop ends after exactly the number of ticks the stopping rule gives: the count was positive at every earlier check, and either it drained before any limit or a positive limit was reached |
| Drain.DrainsAfterUnique | service_windows.go:342-362 | the stopping rule fixes the number of ticks |
| Drain.DrainConsequences | service_windows.go:342-362 | no tick when the first check finds no connections; never more ticks than a positive limit; with no limit the loop ends only once drained; it gives up with connections still open only by reaching a positive limit |
| Drain.DrainScenarios | service_windows.go:342-362 | count 0 gives 0 ticks; a count stuck positive with limit 2 gives 2 ticks; with no limit, a count that drops to 0 after 3 ticks gives exactly 3; with limit 10, a count dropping after 1 tick gives 1 |
| Service.Service.constructor | service_windows.go:25-63 | every global starts at its declared initial value: count 1, switches off, no handlers, no connections, configuration defaults such as wait limit 10 and access `all` |
| Service.Service.ParseArgs | service_windows.go:100-138 | the index-driven loop leaves the command-line globals equal to `Scan` of the arguments, and the descriptor count stays in [1, MaxInt64] |
| Service.Service.Prepare | service_windows.go:143-182 | the first call parses the arguments, loads the configuration from the parsed path and fires the latch; every later call changes nothing |
| Service.Service.CallHook | service_windows.go:264-272 | a registered hook is run once, and a missing hook is skipped |
| Service.Service.Chroot | service_windows.go:184-193 | the owner is looked up only when master_args and master_owner are non-empty and `-u` was given |
| Service.Service.GetListeners | service_windows.go:229-259 | descriptors 6 .. 6 + count - 1 are tried in order; every file that opens is closed; the result is `FdOutcome` (the wrapped descriptors in order, or the "no listener" error) |
| Service.Service.Acquire | service_windows.go:276-294 | a non-empty address list means bind mode and an empty one means descriptor mode; errors are passed on unchanged; a success is never empty |
| Service.Service.ServiceInit | service_windows.go:261-308 | the event order is prepare, pre-jail hook, owner check, init hook, acquisition; the monitor is started only in descriptor mode and only after a successful acquisition; a returned listener set is never empty |
| Service.Service.MonitorMaster | service_windows.go:313-369 | `stopping` is set; the on-stop handler runs, or else every listener is closed in order; the drain waits as `DrainLoop` states; the stop handler, if any, is called once with `true` |
| Service.Service.ConnCountInc | service_windows.go:371-375 | the count goes up by one and stays equal to increments minus decrements |
| Service.Service.ConnCountDec | service_windows.go:377-381 | the count goes down by one, with no clamp at zero, and stays equal to increments minus decrements |
| Service.Service.ConnCountCur | service_windows.go:383-388 | returns the number of increments minus decrements so far |
| Service.Service.OnPreJail | service_windows.go:390-392 | the pre-jail hook becomes the given handler; the last registration wins |
| Service.Service.OnInit | service_windows.go:394-396 | the init hook becomes the given handler |
| Service.Service.OnExit | service_windows.go:398-400 | the exit hook becomes the given handler, which nothing in this core calls |

## Left out

- Network, file and clock I/O: binding, `os.NewFile`, `net.FileListener`,
  closing, sleeping. They are the oracles above, and the events in `trace`
  stand for the calls.
- The read on the control channel (descriptor 5) in `monitorMaster`, lines
  316-329. Only its return, the supervisor going away, is modelled: it is the
  moment `MonitorMaster` starts. The `net.FileConn` failure that panics is
  left out.
- Logging and the redirection of the log to master_log (lines 155-164): they
  have no effect on the state modelled.
- The configuration file format (`Config.InitConfig`, `GetString`, `GetInt`,
  `GetBool`) is not part of this model. `load` gives the parsed values for a
  path.
- `runtime.GOMAXPROCS(app_threads)` (lines 177-179): it only tunes the Go
  scheduler.
- What `user.Lookup` does inside `chroot`: its result is only logged, so the
  model records that the lookup happened.
- `initFlags`, `setOpenMax` and `init` (lines 79-98): they register flags with
  the `flag` package, which this core never reads back, and do nothing else.
- Concurrency: the monitor runs as a goroutine, and the counter is guarded by
  a mutex. The model runs `MonitorMaster` as a separate call. Other tasks'
  changes to the counter during the drain appear only through `countAt`.
- Service.Service.MonitorMaster: requires that the drain ends, i.e. a positive
  `AppWaitLimit` or a count that eventually drains. With neither, the source
  waits forever, and that non-terminating run is not modelled.
- Args.Atoi: Go's `int` is taken as 64 bits. On a 32-bit Windows build
  (386), `strconv.Atoi` clamps to the int32 range, and the line-231 loop
  bound wraps at 2^31. The same holds for `Listeners.Wrap64` and the counter.
- Service.Service.ConnCountInc: the counter is an unbounded integer, so int64
  wrap-around after 2^63 increments is not modelled.
- Service.Service.ServiceInit: the `len(listeners) == 0` check at lines
  296-299 is left out. Both acquisition functions already return an error
  instead of an empty set (`Acquire` ensures a success is non-empty), so the
  check can never fire.
- Service.Service.GetListeners: the loop bound `6 + listenFdCount` is computed
  without 64-bit wrap-around, as the finding below corrects. The code as
  written is modelled by `Listeners.AsWrittenFdRange`.
- The hook handlers' own effects: a handler is an opaque identity, and only
  the fact that it ran is recorded.
- The example programs `examples/echo/main.go` and `examples/go-httpd/main.go`
  are callers of this core and are not modelled.

## Findings

| source | as written | input that shows it | evidently intended | confidence | as-written member | corrected member |
|---|---|---|---|---|---|---|
| service_windows.go:231 | the loop bound `listenFdStart+listenFdCount` is an int64 sum, and `parseArgs` accepts any positive int64 as the count | `-s 9223372036854775807` with descriptor 6 usable: the bound wraps to MinInt64 + 5, no descriptor is tried, and acquisition fails with "No listener created" | the descriptors from 6 upwards are tried, so descriptor 6 gives a listener | low (an absurd count; not executed) | Listeners.OverflowSkipsAllDescriptors | Listeners.FirstDescriptorKept |
