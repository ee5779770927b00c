/**
 * The resources the sepal security-model module holds while it is loaded,
 * and the order in which its load and unload paths acquire and release them.
 *
 * A run of the module is described by a log of acquire/release events.
 * Replay reads a log back into the set of resources held, and rejects a log
 * that acquires something already held or releases something not held.
 */
module Lifecycle {

  datatype Option<T> = None | Some(value: T)

  /** The four things the module owns: the counter mutex (`sc.lock`), the
      registered security model (`sepal_sm`), the kauth key (`sepal_key`) and
      the character-device attachment. */
  datatype Resource = Lock | SecModel | Key | Device

  datatype Event = Acquire(res: Resource) | Release(res: Resource)

  /** The return codes of the three host-kernel registrations tried by the
      load path; 0 means success, anything else is a failure code. */
  datatype HostResults = HostResults(secmodelRegister: int, kauthRegisterKey: int, devswAttach: int)

  /** The order in which the load path acquires its resources. */
  const AcquireOrder: seq<Resource> := [Lock, SecModel, Key, Device]

  const AllResources: set<Resource> := {Lock, SecModel, Key, Device}

  predicate Succeeds(h: HostResults) {
    h.secmodelRegister == 0 && h.kauthRegisterKey == 0 && h.devswAttach == 0
  }

  function Acquires(rs: seq<Resource>): (es: seq<Event>) {
    seq(|rs|, i requires 0 <= i < |rs| => Acquire(rs[i]))
  }

  function Releases(rs: seq<Resource>): (es: seq<Event>) {
    seq(|rs|, i requires 0 <= i < |rs| => Release(rs[i]))
  }

  function Reversed<T>(s: seq<T>): (r: seq<T>) {
    seq(|s|, i requires 0 <= i < |s| => s[|s| - 1 - i])
  }

  /** The set of resources held after the events of `log`, starting from
      `held`; None if the log acquires a held resource or releases one that
      is not held. */
  function Replay(held: set<Resource>, log: seq<Event>): (result: Option<set<Resource>>)
    decreases |log|
  {
    if log == [] then Some(held)
    else match log[0]
      case Acquire(r) => if r in held then None else Replay(held + {r}, log[1..])
      case Release(r) => if r !in held then None else Replay(held - {r}, log[1..])
  }

  /** Replaying a concatenation is replaying its parts one after the other. */
  lemma {:induction false} ReplayAppend(held: set<Resource>, a: seq<Event>, b: seq<Event>)
    ensures Replay(held, a).None? ==> Replay(held, a + b).None?
    ensures Replay(held, a).Some? ==> Replay(held, a + b) == Replay(Replay(held, a).value, b)
    decreases |a|
  {
    if a == [] {
      assert a + b == b;
    } else {
      assert (a + b)[0] == a[0];
      assert (a + b)[1..] == a[1..] + b;
      match a[0]
      case Acquire(r) =>
        if r !in held {
          ReplayAppend(held + {r}, a[1..], b);
        }
      case Release(r) =>
        if r in held {
          ReplayAppend(held - {r}, a[1..], b);
        }
    }
  }

  /** How many resources the load path holds when it stops acquiring: the
      lock, then one more for each registration that succeeds in turn. */
  function Progress(h: HostResults): (n: nat)
    ensures 1 <= n <= |AcquireOrder|
    ensures n == |AcquireOrder| <==> Succeeds(h)
  {
    if h.secmodelRegister != 0 then 1
    else if h.kauthRegisterKey != 0 then 2
    else if h.devswAttach != 0 then 3
    else 4
  }

  /** The events of one run of the load path, step by step as the code takes
      them: initialise the lock, then each registration; a failed step falls
      through the cleanup labels below it (deregister the key, deregister the
      security model, destroy the lock). */
  function InitLog(h: HostResults): (log: seq<Event>) {
    [Acquire(Lock)] +
    if h.secmodelRegister != 0 then
      [Release(Lock)]
    else
      [Acquire(SecModel)] +
      if h.kauthRegisterKey != 0 then
        [Release(SecModel), Release(Lock)]
      else
        [Acquire(Key)] +
        if h.devswAttach != 0 then
          [Release(Key), Release(SecModel), Release(Lock)]
        else
          [Acquire(Device)]
  }

  /** The events of the unload path once the busy check has passed, in the
      order the code releases them. */
  const FiniLog: seq<Event> := [Release(Key), Release(SecModel), Release(Device), Release(Lock)]

  /** A successful load acquires the four resources in the fixed order and
      releases nothing. */
  lemma InitSuccessLog(h: HostResults)
    requires Succeeds(h)
    ensures InitLog(h) == Acquires(AcquireOrder)
  {
  }

  /** A failed load acquires, in the fixed order, the resources up to the
      failing step and then releases exactly those, in reverse order. */
  lemma InitRollbackLog(h: HostResults)
    requires !Succeeds(h)
    ensures InitLog(h) == Acquires(AcquireOrder[..Progress(h)]) + Releases(Reversed(AcquireOrder[..Progress(h)]))
  {
  }

  /** The load path in two phases: the lock and the registrations that
      succeeded, then, on failure, the rollback of everything acquired. */
  lemma InitLogPhases(h: HostResults)
    ensures InitLog(h) == [Acquire(Lock)] + Acquires(AcquireOrder[1..Progress(h)]) +
      (if Succeeds(h) then [] else Releases(Reversed(AcquireOrder[..Progress(h)])))
  {
    if Succeeds(h) {
      InitSuccessLog(h);
    } else {
      InitRollbackLog(h);
    }
    var acquired := AcquireOrder[..Progress(h)];
    assert Acquires(acquired) == [Acquire(Lock)] + Acquires(AcquireOrder[1..Progress(h)]);
  }

  /** The load path never detaches the device: the device is its last step,
      so no rollback ever has to undo it. */
  lemma InitNeverDetaches(h: HostResults)
    ensures Release(Device) !in InitLog(h)
  {
  }

  /** Replaying an acquire of a resource not yet held. */
  lemma ReplayAcquire(held: set<Resource>, r: Resource, rest: seq<Event>)
    requires r !in held
    ensures Replay(held, [Acquire(r)] + rest) == Replay(held + {r}, rest)
  {
  }

  /** Replaying a release of a held resource. */
  lemma ReplayRelease(held: set<Resource>, r: Resource, rest: seq<Event>)
    requires r in held
    ensures Replay(held, [Release(r)] + rest) == Replay(held - {r}, rest)
  {
  }

  /** The load path is well formed and ends holding everything on success
      and nothing on failure: no resource leaks. */
  lemma InitReplay(h: HostResults)
    ensures Replay({}, InitLog(h)) == Some(if Succeeds(h) then AllResources else {})
  {
    var s0: set<Resource> := {};
    var s1 := s0 + {Lock};
    var s2 := s1 + {SecModel};
    var s3 := s2 + {Key};
    if h.secmodelRegister != 0 {
      ReplayAcquire(s0, Lock, [Release(Lock)]);
      ReplayRelease(s1, Lock, []);
      assert s1 - {Lock} == {};
    } else if h.kauthRegisterKey != 0 {
      ReplayAcquire(s0, Lock, [Acquire(SecModel)] + [Release(SecModel), Release(Lock)]);
      ReplayAcquire(s1, SecModel, [Release(SecModel)] + [Release(Lock)]);
      ReplayRelease(s2, SecModel, [Release(Lock)]);
      ReplayRelease(s2 - {SecModel}, Lock, []);
      assert s2 - {SecModel} - {Lock} == {};
    } else if h.devswAttach != 0 {
      ReplayAcquire(s0, Lock, [Acquire(SecModel)] + ([Acquire(Key)] + [Release(Key), Release(SecModel), Release(Lock)]));
      ReplayAcquire(s1, SecModel, [Acquire(Key)] + [Release(Key), Release(SecModel), Release(Lock)]);
      ReplayAcquire(s2, Key, [Release(Key)] + [Release(SecModel), Release(Lock)]);
      ReplayRelease(s3, Key, [Release(SecModel)] + [Release(Lock)]);
      ReplayRelease(s3 - {Key}, SecModel, [Release(Lock)]);
      ReplayRelease(s3 - {Key} - {SecModel}, Lock, []);
      assert s3 - {Key} - {SecModel} - {Lock} == {};
    } else {
      ReplayAcquire(s0, Lock, [Acquire(SecModel)] + ([Acquire(Key)] + [Acquire(Device)]));
      ReplayAcquire(s1, SecModel, [Acquire(Key)] + [Acquire(Device)]);
      ReplayAcquire(s2, Key, [Acquire(Device)]);
      ReplayAcquire(s3, Device, []);
      assert s3 + {Device} == AllResources;
    }
  }

  /** The unload path releases every resource exactly once and leaves
      nothing held. */
  lemma FiniReplay()
    ensures Replay(AllResources, FiniLog) == Some({})
  {
    var s0 := AllResources;
    var s1 := s0 - {Key};
    var s2 := s1 - {SecModel};
    var s3 := s2 - {Device};
    ReplayRelease(s0, Key, [Release(SecModel)] + ([Release(Device)] + [Release(Lock)]));
    ReplayRelease(s1, SecModel, [Release(Device)] + [Release(Lock)]);
    ReplayRelease(s2, Device, [Release(Lock)]);
    ReplayRelease(s3, Lock, []);
    assert s3 - {Lock} == {};
  }

  /** The unload order is not the reverse of the acquisition order: the
      device, acquired last, is detached third, after the key and the
      security model are deregistered. */
  lemma FiniOrderIsNotReverse()
    ensures FiniLog != Releases(Reversed(AcquireOrder))
    ensures Releases(Reversed(AcquireOrder)) == [Release(Device), Release(Key), Release(SecModel), Release(Lock)]
  {
  }

  /** A successful load followed by an unload leaves nothing held. */
  lemma {:induction false} LoadUnloadCycle(h: HostResults)
    requires Succeeds(h)
    ensures Replay({}, InitLog(h) + FiniLog) == Some({})
  {
    InitReplay(h);
    ReplayAppend({}, InitLog(h), FiniLog);
    FiniReplay();
  }
}
