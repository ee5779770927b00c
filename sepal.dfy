/**
 * The sepal security-model kernel module: the singleton state `sc` (the
 * counter mutex and the two reference counts), the handles `sepal_sm` and
 * `sepal_key`, the device attachment, and the entry points that change them.
 *
 * Each locked section is one atomic step; the mutex itself is modelled only
 * by whether it is initialised.  Host-kernel registrations are modelled by
 * their return codes, given as parameters, and by the events they add to the
 * ghost log.
 */
module Sepal {
  import opened Bits
  import opened Lifecycle

  /** The error numbers the module returns. */
  datatype Errno = ENXIO | EBUSY | ENOTTY

  /** A C status return: 0, or an error number. */
  datatype Status = Ok | Err(errno: Errno)

  /** The module commands the host's module manager sends. */
  datatype ModuleCmd = CmdInit | CmdFini | CmdStat | CmdAutounload

  class SepalModule {
    /** `sc.lock` has been initialised and not yet destroyed. */
    var lockInit: bool
    /** `sepal_sm` is registered with the security-model registry. */
    var smRegistered: bool
    /** `sepal_key` is registered with kauth. */
    var keyRegistered: bool
    /** The character device is attached. */
    var devAttached: bool
    /** `sc.devrefcnt`: open device handles. */
    var devrefcnt: int
    /** `sc.credrefcnt`: policy-monitored credentials. */
    var credrefcnt: int

    /** Every acquire and release of a resource, in order. */
    ghost var log: seq<Event>
    /** Opens and closes of the device since the last load. */
    ghost var opens: nat
    ghost var closes: nat

    /** The module is loaded: everything is held. */
    predicate Active()
      reads this
    {
      lockInit && smRegistered && keyRegistered && devAttached
    }

    /** The module is not loaded: nothing is held. */
    predicate Unloaded()
      reads this
    {
      !lockInit && !smRegistered && !keyRegistered && !devAttached
    }

    /** The object invariant between entry points: no partial state
        persists; the log replays to what is held; credrefcnt is never
        changed from zero; devrefcnt counts opens minus closes. */
    ghost predicate Valid()
      reads this
    {
      (Active() || Unloaded()) &&
      Replay({}, log) == Some(if Active() then AllResources else {}) &&
      credrefcnt == 0 &&
      devrefcnt == opens - closes
    }

    /** The module's static storage before the first load: all zero. */
    constructor ()
      ensures Valid() && Unloaded()
      ensures devrefcnt == 0 && credrefcnt == 0 && log == []
    {
      lockInit, smRegistered, keyRegistered, devAttached := false, false, false, false;
      devrefcnt, credrefcnt := 0, 0;
      log, opens, closes := [], 0, 0;
    }

    // Host-kernel calls.  Each one either acquires or releases a resource
    // and logs it; a registration also reports the host's return code.

    method MutexInit()
      requires !lockInit
      modifies this`lockInit, this`log
      ensures lockInit && log == old(log) + [Acquire(Lock)]
    {
      lockInit := true;
      log := log + [Acquire(Lock)];
    }

    method MutexDestroy()
      requires lockInit
      modifies this`lockInit, this`log
      ensures !lockInit && log == old(log) + [Release(Lock)]
    {
      lockInit := false;
      log := log + [Release(Lock)];
    }

    method SecmodelRegister(ret: int) returns (r: int)
      requires !smRegistered
      modifies this`smRegistered, this`log
      ensures r == ret && smRegistered == (ret == 0)
      ensures log == old(log) + if ret == 0 then [Acquire(SecModel)] else []
    {
      r := ret;
      if r == 0 {
        smRegistered := true;
        log := log + [Acquire(SecModel)];
      }
    }

    method SecmodelDeregister()
      requires smRegistered
      modifies this`smRegistered, this`log
      ensures !smRegistered && log == old(log) + [Release(SecModel)]
    {
      smRegistered := false;
      log := log + [Release(SecModel)];
    }

    /** The key is registered against the security model, so that must be
        held already. */
    method KauthRegisterKey(ret: int) returns (r: int)
      requires smRegistered && !keyRegistered
      modifies this`keyRegistered, this`log
      ensures r == ret && keyRegistered == (ret == 0)
      ensures log == old(log) + if ret == 0 then [Acquire(Key)] else []
    {
      r := ret;
      if r == 0 {
        keyRegistered := true;
        log := log + [Acquire(Key)];
      }
    }

    method KauthDeregisterKey()
      requires keyRegistered
      modifies this`keyRegistered, this`log
      ensures !keyRegistered && log == old(log) + [Release(Key)]
    {
      keyRegistered := false;
      log := log + [Release(Key)];
    }

    method DevswAttach(ret: int) returns (r: int)
      requires !devAttached
      modifies this`devAttached, this`log
      ensures r == ret && devAttached == (ret == 0)
      ensures log == old(log) + if ret == 0 then [Acquire(Device)] else []
    {
      r := ret;
      if r == 0 {
        devAttached := true;
        log := log + [Acquire(Device)];
      }
    }

    method DevswDetach()
      requires devAttached
      modifies this`devAttached, this`log
      ensures !devAttached && log == old(log) + [Release(Device)]
    {
      devAttached := false;
      log := log + [Release(Device)];
    }

    // Guarded counter set.

    /** The busy query: ORs the two counts into a value that is nonzero
        exactly when some count is nonzero, and changes nothing. */
    method HasRefcnts() returns (r: int)
      requires lockInit
      ensures r != 0 <==> devrefcnt != 0 || credrefcnt != 0
      ensures Valid() ==> (r != 0 <==> opens != closes)
    {
      var retval := 0;
      retval := BitOr(retval, devrefcnt);
      retval := BitOr(retval, credrefcnt);
      BitOrIdentity(devrefcnt);
      BitOrZero(devrefcnt, credrefcnt);
      r := retval;
    }

    method IncrDevrefcnt()
      requires lockInit
      modifies this`devrefcnt
      ensures devrefcnt == old(devrefcnt) + 1
    {
      devrefcnt := devrefcnt + 1;
    }

    /** There is no guard against going below zero. */
    method DecrDevrefcnt()
      requires lockInit
      modifies this`devrefcnt
      ensures devrefcnt == old(devrefcnt) - 1
    {
      devrefcnt := devrefcnt - 1;
    }

    // Control device endpoint.  These are modelled as running only while
    // the module is loaded: the counter helpers need an initialised lock,
    // and the load and unload paths are taken to be atomic with respect to
    // them, so an open that arrives during an unload is not modelled.

    method Open() returns (r: Status)
      requires Valid() && Active()
      modifies this`devrefcnt, this`opens
      ensures Valid() && Active()
      ensures r == Ok
      ensures devrefcnt == old(devrefcnt) + 1 && opens == old(opens) + 1
    {
      IncrDevrefcnt();
      opens := opens + 1;
      r := Ok;
    }

    /** The host pairs each close with an earlier open; nothing here checks
        that, so an unpaired close drives devrefcnt below zero. */
    method Close() returns (r: Status)
      requires Valid() && Active()
      modifies this`devrefcnt, this`closes
      ensures Valid() && Active()
      ensures r == Ok
      ensures devrefcnt == old(devrefcnt) - 1 && closes == old(closes) + 1
      ensures devrefcnt >= 0 <==> closes <= opens
    {
      DecrDevrefcnt();
      closes := closes + 1;
      r := Ok;
    }

    /** Every control request is rejected; nothing changes. */
    method Ioctl(cmd: nat) returns (r: Status)
      ensures r == Err(ENOTTY)
    {
      r := Err(ENOTTY);
    }

    // Module lifecycle controller.

    /** The registration steps of the load path: the security model, then
        the kauth key, then the device, stopping at the first failure.
        `registered` is how many succeeded; `retval` is the code of the last
        step tried. */
    method Register(h: HostResults) returns (retval: int, registered: nat)
      requires lockInit && !smRegistered && !keyRegistered && !devAttached
      modifies this`smRegistered, this`keyRegistered, this`devAttached, this`log
      ensures registered == Progress(h) - 1
      ensures retval == 0 <==> Succeeds(h)
      ensures smRegistered == (registered >= 1) && keyRegistered == (registered >= 2) && devAttached == (registered >= 3)
      ensures log == old(log) + Acquires(AcquireOrder[1..registered + 1])
    {
      registered := 0;
      retval := SecmodelRegister(h.secmodelRegister);
      if retval == 0 {
        registered := 1;
        retval := KauthRegisterKey(h.kauthRegisterKey);
        if retval == 0 {
          registered := 2;
          retval := DevswAttach(h.devswAttach);
          if retval == 0 {
            registered := 3;
          }
        }
      }
      ghost var acquired := AcquireOrder[1..registered + 1];
      if registered == 0 {
        assert Acquires(acquired) == [];
      } else if registered == 1 {
        assert Acquires(acquired) == [Acquire(SecModel)];
      } else if registered == 2 {
        assert Acquires(acquired) == [Acquire(SecModel), Acquire(Key)];
      } else {
        assert Acquires(acquired) == [Acquire(SecModel), Acquire(Key), Acquire(Device)];
      }
    }

    /** The cleanup labels of the load path, entered after `registered`
        registrations succeeded and the next one failed.  They fall through
        into each other, so everything acquired is released, last first. */
    method Unwind(registered: nat)
      requires registered <= 2 && lockInit && !devAttached
      requires smRegistered == (registered >= 1) && keyRegistered == (registered >= 2)
      modifies this`lockInit, this`smRegistered, this`keyRegistered, this`log
      ensures Unloaded()
      ensures log == old(log) + Releases(Reversed(AcquireOrder[..registered + 1]))
    {
      if registered >= 2 {
        KauthDeregisterKey();
      }
      if registered >= 1 {
        SecmodelDeregister();
      }
      MutexDestroy();
      ghost var acquired := AcquireOrder[..registered + 1];
      if registered == 0 {
        assert Releases(Reversed(acquired)) == [Release(Lock)];
      } else if registered == 1 {
        assert Releases(Reversed(acquired)) == [Release(SecModel), Release(Lock)];
      } else {
        assert Releases(Reversed(acquired)) == [Release(Key), Release(SecModel), Release(Lock)];
      }
    }

    /** Load: zero the counts, initialise the lock, then register the
        security model, the kauth key and the device; a failed step rolls
        back what was acquired before it and reports ENXIO. */
    method Init(h: HostResults) returns (r: Status)
      requires Valid() && Unloaded()
      modifies this
      ensures Valid()
      ensures r == (if Succeeds(h) then Ok else Err(ENXIO))
      ensures if Succeeds(h) then Active() else Unloaded()
      ensures log == old(log) + InitLog(h)
      ensures devrefcnt == 0 && credrefcnt == 0 && opens == 0 && closes == 0
    {
      devrefcnt, credrefcnt := 0, 0;
      opens, closes := 0, 0;
      MutexInit();
      ghost var locked := log;
      var retval, registered := Register(h);
      ghost var acquired := log;
      if retval == 0 {
        r := Ok;
      } else {
        Unwind(registered);
        r := Err(ENXIO);
      }
      InitLogComposed(old(log), locked, acquired, log, h);
    }

    /** Putting the phases of the load path back together: its log is the
        load path's, and it replays to everything held on success and to
        nothing on failure. */
    static lemma InitLogComposed(log0: seq<Event>, locked: seq<Event>, acquired: seq<Event>, log: seq<Event>, h: HostResults)
      requires Replay({}, log0) == Some({})
      requires locked == log0 + [Acquire(Lock)]
      requires acquired == locked + Acquires(AcquireOrder[1..Progress(h)])
      requires log == if Succeeds(h) then acquired else acquired + Releases(Reversed(AcquireOrder[..Progress(h)]))
      ensures log == log0 + InitLog(h)
      ensures Replay({}, log) == Some(if Succeeds(h) then AllResources else {})
    {
      InitLogPhases(h);
      var acquires := Acquires(AcquireOrder[1..Progress(h)]);
      if Succeeds(h) {
        assert InitLog(h) == [Acquire(Lock)] + acquires + [];
        assert [Acquire(Lock)] + acquires + [] == [Acquire(Lock)] + acquires;
        assert log == log0 + ([Acquire(Lock)] + acquires);
      } else {
        var releases := Releases(Reversed(AcquireOrder[..Progress(h)]));
        assert InitLog(h) == [Acquire(Lock)] + acquires + releases;
        assert log == log0 + ([Acquire(Lock)] + acquires + releases);
      }
      InitReplay(h);
      ReplayAppend({}, log0, InitLog(h));
    }

    /** Unload: refuse with EBUSY while any count is nonzero, releasing
        nothing; otherwise deregister the key and the security model, detach
        the device and destroy the lock. */
    method Fini() returns (r: Status)
      requires Valid() && Active()
      modifies this`lockInit, this`smRegistered, this`keyRegistered, this`devAttached, this`log
      ensures Valid()
      ensures r == (if devrefcnt != 0 || credrefcnt != 0 then Err(EBUSY) else Ok)
      ensures r == Err(EBUSY) <==> opens != closes
      ensures r == Err(EBUSY) ==> Active() && log == old(log)
      ensures r == Ok ==> Unloaded() && log == old(log) + FiniLog
    {
      var busy := HasRefcnts();
      if busy != 0 {
        r := Err(EBUSY);
        return;
      }
      KauthDeregisterKey();
      SecmodelDeregister();
      DevswDetach();
      MutexDestroy();
      r := Ok;
      FiniReplay();
      ReplayAppend({}, old(log), FiniLog);
      assert log == old(log) + FiniLog;
      assert Replay({}, old(log)) == Some(AllResources);
      assert Replay({}, log) == Replay(AllResources, FiniLog);
    }

    /** Dispatch a module command: the load or unload result for INIT and
        FINI, ENOTTY and no change for anything else. */
    method ModCmd(cmd: ModuleCmd, h: HostResults) returns (r: Status)
      requires Valid()
      requires cmd == CmdInit ==> Unloaded()
      requires cmd == CmdFini ==> Active()
      modifies this
      ensures Valid()
      ensures cmd == CmdInit ==>
        r == (if Succeeds(h) then Ok else Err(ENXIO)) &&
        (if Succeeds(h) then Active() else Unloaded()) &&
        log == old(log) + InitLog(h) &&
        devrefcnt == 0 && credrefcnt == 0
      ensures cmd == CmdFini ==>
        r == (if old(devrefcnt) != 0 || old(credrefcnt) != 0 then Err(EBUSY) else Ok) &&
        (if r == Ok then Unloaded() else Active()) &&
        log == old(log) + (if r == Ok then FiniLog else []) &&
        devrefcnt == old(devrefcnt) && credrefcnt == old(credrefcnt)
      ensures cmd != CmdInit && cmd != CmdFini ==> r == Err(ENOTTY) && unchanged(this)
    {
      match cmd
      case CmdInit =>
        var retval := Init(h);
        if retval != Ok {
          return retval;
        }
        return Ok;
      case CmdFini =>
        var retval := Fini();
        if retval != Ok {
          return retval;
        }
        return Ok;
      case _ =>
        return Err(ENOTTY);
    }
  }
}
