/** The worker side of the supervised-process lifecycle
    (service_windows.go): the package globals become the fields of one
    `Service` object, and the functions that update them become its
    methods. What the process does to the outside world (hooks run, owner
    lookups, bind and descriptor attempts, the monitor started, listeners
    closed, ticks slept, the stop handler called) is recorded, in order, in
    the ghost field `trace`. */
module Service {
  import opened Args
  import opened Listeners
  import opened Seqs
  import Drain

  /** The identity of a registered callback; Go's nil handler is None. */
  type HandlerId = nat

  datatype Option<T> = None | Some(value: T)

  /** The values `Prepare` loads from the configuration file (lines
      152-176), under the keys master_log, master_service, master_owner,
      master_args, app_queue_dir, app_use_limit, app_idle_limit,
      app_quick_abort, app_wait_limit, app_access_allow and app_threads. */
  datatype Config = Config(
    masterLog: string,
    masterService: string,
    masterOwner: string,
    masterArgs: string,
    appRootDir: string,
    appUseLimit: int,
    appIdleLimit: int,
    appQuickAbort: bool,
    appWaitLimit: int,
    appAccessAllow: string,
    appThreads: int)

  /** The initial values of those globals (lines 51-63). */
  const Defaults: Config := Config("", "", "", "", "", 0, 0, false, 10, "all", 0)

  datatype Hook = PreJail | Init | OnStop

  datatype Event =
    | Prepared                                   // the one-shot latch fired
    | HookRan(hook: Hook, id: HandlerId)
    | OwnerLookup(owner: string)                 // chroot's user lookup
    | BindAttempt(addr: string)
    | FdAttempt(fd: int)
    | MonitorStarted(listeners: seq<Listener>, stopHandler: Option<HandlerId>)
    | ListenerClosed(ln: Listener)
    | Waited(ticks: nat)                         // the drain loop slept this many ticks
    | StopHandlerCalled(id: HandlerId, forced: bool)

  ghost function HookEvents(hook: Hook, h: Option<HandlerId>): seq<Event>
  {
    if h.Some? then [HookRan(hook, h.value)] else []
  }

  ghost function BindEvents(addrs: seq<string>): (r: seq<Event>)
    ensures |r| == |addrs|
  {
    seq(|addrs|, i requires 0 <= i < |addrs| => BindAttempt(addrs[i]))
  }

  ghost function FdEvents(fds: seq<int>): (r: seq<Event>)
    ensures |r| == |fds|
  {
    seq(|fds|, i requires 0 <= i < |fds| => FdAttempt(fds[i]))
  }

  ghost function CloseEvents(ls: seq<Listener>): (r: seq<Event>)
    ensures |r| == |ls|
  {
    seq(|ls|, i requires 0 <= i < |ls| => ListenerClosed(ls[i]))
  }

  class Service {
    // command-line globals (lines 25-33)
    var listenFdCount: int
    var confPath: string
    var sockType: string
    var services: string
    var privilege: bool
    var verbose: bool
    var chrootOn: bool

    // lifecycle globals (lines 39-48)
    var preJailHandler: Option<HandlerId>
    var initHandler: Option<HandlerId>
    var exitHandler: Option<HandlerId>
    var connCount: int
    var stopping: bool
    var prepareCalled: bool

    // configuration globals (lines 51-63)
    var conf: Config

    /** How many increments and decrements the counter has seen. */
    ghost var incs: nat
    ghost var decs: nat

    /** The observable actions so far, oldest first. */
    ghost var trace: seq<Event>

    ghost predicate Valid()
      reads this
    {
      1 <= listenFdCount <= MaxInt64 && connCount == incs - decs
    }

    /** The command-line globals as one value. */
    function Flags(): Settings
      reads this
    {
      Settings(listenFdCount, confPath, sockType, services, privilege, verbose, chrootOn)
    }

    /** The process state at start-up, with the globals at their initial
        values. */
    constructor ()
      ensures Valid()
      ensures Flags() == Settings(1, "", "", "", false, false, false)
      ensures preJailHandler == None && initHandler == None && exitHandler == None
      ensures connCount == 0 && !stopping && !prepareCalled
      ensures conf == Defaults && trace == []
    {
      listenFdCount, confPath, sockType, services := 1, "", "", "";
      privilege, verbose, chrootOn := false, false, false;
      preJailHandler, initHandler, exitHandler := None, None, None;
      connCount, stopping, prepareCalled := 0, false, false;
      conf := Defaults;
      incs, decs := 0, 0;
      trace := [];
    }

    /** `parseArgs` (lines 100-138): one pass over the argument list, with
        the effect the Scan function describes. */
    method ParseArgs(args: seq<string>)
      requires Valid()
      modifies this`listenFdCount, this`confPath, this`sockType, this`services
      modifies this`privilege, this`verbose, this`chrootOn
      ensures Valid()
      ensures Flags() == Scan(args, 0, old(Flags()))
    {
      var n := |args|;
      var i := 0;
      while i < n
        invariant 0 <= i <= n + 1
        invariant Valid()
        invariant Scan(args, i, Flags()) == Scan(args, 0, old(Flags()))
        decreases n + 1 - i
      {
        var t := args[i];
        if t == "-s" {
          i := i + 1;
          if i < n {
            listenFdCount := Atoi(args[i]);
            if listenFdCount <= 0 {
              listenFdCount := 1;
            }
          }
        } else if t == "-f" {
          i := i + 1;
          if i < n {
            confPath := args[i];
          }
        } else if t == "-t" {
          i := i + 1;
          if i < n {
            sockType := args[i];
          }
        } else if t == "-n" {
          i := i + 1;
          if i < n {
            services := args[i];
          }
        } else if t == "-u" {
          privilege := true;
        } else if t == "-v" {
          verbose := true;
        } else if t == "-c" {
          chrootOn := true;
        }
        i := i + 1;
      }
    }

    /** `Prepare` (lines 143-182): the first call parses the arguments and
        loads the configuration from the parsed path through `load`; every
        later call changes nothing. */
    method Prepare(args: seq<string>, load: string -> Config)
      requires Valid()
      modifies this`prepareCalled, this`conf, this`trace
      modifies this`listenFdCount, this`confPath, this`sockType, this`services
      modifies this`privilege, this`verbose, this`chrootOn
      ensures Valid() && prepareCalled
      ensures old(prepareCalled) ==> unchanged(this)
      ensures !old(prepareCalled) ==>
                Flags() == Scan(args, 0, old(Flags())) &&
                conf == load(confPath) &&
                trace == old(trace) + [Prepared]
    {
      if prepareCalled {
        return;
      } else {
        prepareCalled := true;
      }
      trace := trace + [Prepared];
      ParseArgs(args);
      conf := load(confPath);
    }

    /** Calls a hook if one is registered (lines 264-266 and 270-272). */
    method CallHook(hook: Hook, handler: Option<HandlerId>)
      modifies this`trace
      ensures trace == old(trace) + HookEvents(hook, handler)
    {
      if handler.Some? {
        trace := trace + [HookRan(hook, handler.value)];
      }
    }

    /** What `chroot` does observably: it looks the owner up only when
        master_args and master_owner are set and `-u` was given. */
    ghost function ChrootEvents(): seq<Event>
      reads this
    {
      if |conf.masterArgs| == 0 || !privilege || |conf.masterOwner| == 0 then []
      else [OwnerLookup(conf.masterOwner)]
    }

    /** `chroot` (lines 184-193). */
    method Chroot()
      modifies this`trace
      ensures trace == old(trace) + ChrootEvents()
    {
      if |conf.masterArgs| == 0 || !privilege || |conf.masterOwner| == 0 {
        return;
      }
      trace := trace + [OwnerLookup(conf.masterOwner)];
    }

    /** `GetListeners` (lines 229-259): descriptors 6, 7, ... up to
        `6 + listenFdCount - 1` are tried in ascending order; a descriptor
        whose file opens is closed again whether or not it could be wrapped;
        the wrapped ones are kept in order; an empty result is an error.
        `tried` is every descriptor tried, `closed` every file closed. */
    method GetListeners(opens: int -> bool, wraps: int -> bool)
      returns (r: Result<seq<Listener>>, ghost tried: seq<int>, ghost closed: seq<int>)
      ensures tried == FdRange(ListenFdStart, listenFdCount)
      ensures closed == Opened(listenFdCount, opens)
      ensures r == FdOutcome(listenFdCount, opens, wraps)
    {
      var listeners: seq<Listener> := [];
      tried, closed := [], [];
      var count := listenFdCount;
      var fd := ListenFdStart;
      while fd < ListenFdStart + count
        invariant ListenFdStart <= fd && (fd <= ListenFdStart + count || fd == ListenFdStart)
        invariant tried == FdRange(ListenFdStart, fd - ListenFdStart)
        invariant closed == Keep(tried, opens)
        invariant listeners == FileAll(Keep(tried, Usable(opens, wraps)))
        decreases ListenFdStart + count - fd
      {
        KeepSnoc(tried, fd, opens);
        KeepSnoc(tried, fd, Usable(opens, wraps));
        FileAllSnoc(Keep(tried, Usable(opens, wraps)), fd);
        assert FdRange(ListenFdStart, fd + 1 - ListenFdStart) == tried + [fd];
        tried := tried + [fd];
        if opens(fd) {
          var wrapped := wraps(fd);
          closed := closed + [fd];
          if wrapped {
            listeners := listeners + [FileListener(fd)];
          }
        }
        fd := fd + 1;
      }
      assert tried == FdRange(ListenFdStart, count);
      assert listeners == Wrapped(count, opens, wraps);
      if |listeners| == 0 {
        return Err(NoListenerCreated), tried, closed;
      }
      return Ok(listeners), tried, closed;
    }

    /** The acquisition step of `ServiceInit` (lines 276-294): by address
        when `addrs` is non-empty, from inherited descriptors otherwise; an
        error from either is passed on unchanged. The trace records the bind
        or descriptor attempts; which descriptor files were closed again is
        stated only by GetListeners' `closed` out-parameter. */
    method Acquire(addrs: string, canBind: (nat, string) -> bool, opens: int -> bool, wraps: int -> bool)
      returns (r: Result<seq<Listener>>)
      modifies this`trace
      ensures |addrs| > 0 ==> r == AddrsOutcome(addrs, canBind)
      ensures |addrs| == 0 ==> r == FdOutcome(listenFdCount, opens, wraps)
      ensures r.Ok? ==> |r.value| > 0
      ensures trace == old(trace) + (if |addrs| > 0 then BindEvents(Tokens(addrs))
                                     else FdEvents(FdRange(ListenFdStart, listenFdCount)))
    {
      if |addrs| > 0 {
        ghost var tried;
        r, tried := GetListenersByAddrs(addrs, canBind);
        trace := trace + BindEvents(tried);
      } else {
        ghost var tried, closed;
        r, tried, closed := GetListeners(opens, wraps);
        trace := trace + FdEvents(tried);
      }
    }

    /** `ServiceInit` (lines 261-308): Prepare, the pre-jail hook, chroot,
        the init hook, then acquisition — by address when `addrs` is
        non-empty, from inherited descriptors otherwise. Any acquisition
        error is returned as it is. Only the descriptor path, and only after
        it has obtained a non-empty listener set, starts the monitor. */
    method ServiceInit(addrs: string, stopHandler: Option<HandlerId>,
                       args: seq<string>, load: string -> Config,
                       canBind: (nat, string) -> bool, opens: int -> bool, wraps: int -> bool)
      returns (r: Result<seq<Listener>>)
      requires Valid()
      modifies this`prepareCalled, this`conf, this`trace
      modifies this`listenFdCount, this`confPath, this`sockType, this`services
      modifies this`privilege, this`verbose, this`chrootOn
      ensures Valid() && prepareCalled
      ensures old(prepareCalled) ==> Flags() == old(Flags()) && conf == old(conf)
      ensures !old(prepareCalled) ==> Flags() == Scan(args, 0, old(Flags())) && conf == load(confPath)
      ensures |addrs| > 0 ==> r == AddrsOutcome(addrs, canBind)
      ensures |addrs| == 0 ==> r == FdOutcome(listenFdCount, opens, wraps)
      ensures r.Ok? ==> |r.value| > 0
      ensures trace == old(trace)
                       + (if old(prepareCalled) then [] else [Prepared])
                       + HookEvents(PreJail, preJailHandler)
                       + ChrootEvents()
                       + HookEvents(Init, initHandler)
                       + (if |addrs| > 0 then BindEvents(Tokens(addrs))
                          else FdEvents(FdRange(ListenFdStart, listenFdCount)))
                       + (if |addrs| == 0 && r.Ok? then [MonitorStarted(r.value, stopHandler)] else [])
    {
      Prepare(args, load);
      ghost var started := old(trace) + (if old(prepareCalled) then [] else [Prepared]);
      assert trace == started;

      CallHook(PreJail, preJailHandler);
      Chroot();
      CallHook(Init, initHandler);
      ghost var hooked := started + HookEvents(PreJail, preJailHandler)
                          + ChrootEvents() + HookEvents(Init, initHandler);
      assert trace == hooked;

      var res := Acquire(addrs, canBind, opens, wraps);
      ghost var acquired := hooked + (if |addrs| > 0 then BindEvents(Tokens(addrs))
                                      else FdEvents(FdRange(ListenFdStart, listenFdCount)));
      assert trace == acquired;
      if res.Err? {
        assert trace == acquired + [];
        return res;
      }
      var listeners := res.value;
      var daemonMode := |addrs| == 0;

      if daemonMode {
        trace := trace + [MonitorStarted(listeners, stopHandler)];
      } else {
        assert trace == acquired + [];
      }
      return Ok(listeners);
    }

    /** `monitorMaster` (lines 313-369) from the moment the read on the
        control channel returns: `stopping` is set, the on-stop handler runs
        or else every listener is closed in order, the drain loop waits, and
        the stop handler, if any, is called once, with `true`. `countAt(k)`
        is the connection count at the check after `k` ticks; the first
        check sees the current count. */
    method MonitorMaster(listeners: seq<Listener>, onStopHandler: Option<HandlerId>,
                         stopHandler: Option<HandlerId>, countAt: nat -> int)
      returns (ghost sleeps: nat)
      requires Valid()
      requires countAt(0) == connCount
      requires Drain.Ends(countAt, conf.appWaitLimit)
      modifies this`stopping, this`trace
      ensures Valid() && stopping
      ensures Drain.DrainsAfter(countAt, conf.appWaitLimit, sleeps)
      ensures trace == old(trace)
                       + (if onStopHandler.Some? then [HookRan(OnStop, onStopHandler.value)]
                          else CloseEvents(listeners))
                       + [Waited(sleeps)]
                       + (if stopHandler.Some? then [StopHandlerCalled(stopHandler.value, true)] else [])
    {
      stopping := true;

      if onStopHandler.Some? {
        trace := trace + [HookRan(OnStop, onStopHandler.value)];
      } else {
        trace := trace + CloseEvents(listeners);
      }

      var ticks := Drain.DrainLoop(countAt, conf.appWaitLimit);
      sleeps := ticks;
      trace := trace + [Waited(ticks)];

      if stopHandler.Some? {
        trace := trace + [StopHandlerCalled(stopHandler.value, true)];
      }
    }

    /** `connCountInc` (lines 371-375). */
    method ConnCountInc()
      requires Valid()
      modifies this`connCount, this`incs
      ensures Valid()
      ensures connCount == old(connCount) + 1 && incs == old(incs) + 1
    {
      connCount := connCount + 1;
      incs := incs + 1;
    }

    /** `connCountDec` (lines 377-381): no clamping at zero. */
    method ConnCountDec()
      requires Valid()
      modifies this`connCount, this`decs
      ensures Valid()
      ensures connCount == old(connCount) - 1 && decs == old(decs) + 1
    {
      connCount := connCount - 1;
      decs := decs + 1;
    }

    /** `connCountCur` (lines 383-388): increments minus decrements so far. */
    method ConnCountCur() returns (n: int)
      requires Valid()
      ensures n == connCount && n == incs - decs
    {
      n := connCount;
    }

    /** `OnPreJail` (lines 390-392): the last registration wins. */
    method OnPreJail(handler: Option<HandlerId>)
      modifies this`preJailHandler
      ensures preJailHandler == handler
    {
      preJailHandler := handler;
    }

    /** `OnInit` (lines 394-396). */
    method OnInit(handler: Option<HandlerId>)
      modifies this`initHandler
      ensures initHandler == handler
    {
      initHandler := handler;
    }

    /** `OnExit` (lines 398-400): stored, and never called by this core. */
    method OnExit(handler: Option<HandlerId>)
      modifies this`exitHandler
      ensures exitHandler == handler
    {
      exitHandler := handler;
    }
  }
}
