# sepal: a model of the module lifecycle

sepal is a NetBSD security-model kernel module (`src/sys/modules/sepal/sepal.c`).
Under its host-kernel wiring sits a small sequential state machine, and this
project models that machine in Dafny and proves facts about it:

- **Guarded counter set.** The singleton `sc` holds a mutex and two counts:
  `devrefcnt` for open device handles and `credrefcnt` for policy-monitored
  credentials. `sepal_incr_devrefcnt` and `sepal_decr_devrefcnt` change the
  device count under the lock. `sepal_has_refcnts` ORs the two counts
  together into a busy value.
- **Control device endpoint.** `sepal_open` adds one handle and `sepal_close`
  removes one. `sepal_ioctl` rejects every command with `ENOTTY`.
- **Lifecycle controller.** `sepal_mod_init` zeroes `sc` and initialises the
  lock. It then registers the security model, the kauth key and the character
  device, in that order. A failed step falls through the cleanup labels, which
  undo what was acquired before it, and the call returns `ENXIO`.
  `sepal_mod_fini` refuses with `EBUSY` while the busy value is nonzero.
  Otherwise it deregisters the key, deregisters the security model, detaches
  the device and destroys the lock. `sepal_modcmd` dispatches `INIT` and
  `FINI` and answers `ENOTTY` to anything else.

Layout:

- `bits.dfy` (module `Bits`): `BitOr`, the two's-complement `|` on unbounded
  integers, and the proof that it is zero exactly when both operands are.
- `lifecycle.dfy` (module `Lifecycle`): the four resources (lock, security
  model, key, device) and acquire/release events. `Replay` reads an event log
  back into the set of resources held, and rejects a double acquire or a
  release of something not held. `InitLog` and `FiniLog` are the event
  sequences of the load and unload paths. Lemmas relate them to the
  acquisition order and state that nothing leaks.
- `sepal.dfy` (module `Sepal`): class `SepalModule`. It holds the module's
  state: `lockInit`, `smRegistered`, `keyRegistered` and `devAttached` as
  booleans, the counts `devrefcnt` and `credrefcnt` as `int`, and a ghost
  event log. Every entry point of the source is a method. The object
  invariant `Valid()` states four things:
  - the held resources are what the log replays to;
  - either everything or nothing is held;
  - `credrefcnt` is zero;
  - `devrefcnt` is opens minus closes since the last load.
- `scenarios.dfy` (module `Scenarios`): whole runs (load, opens, closes,
  unload), proved from the method contracts alone.

Host-kernel calls are modelled by their effect on the held resources and the
log. The return codes of `secmodel_register`, `kauth_register_key` and
`devsw_attach` are inputs, bundled in `HostResults`; 0 means success. The
methods' preconditions are these:

- `Init` is called only when nothing is held. The host's module manager does
  not send `INIT` to a module that is already loaded.
- `Fini` is called only while the module is loaded. The busy query it starts
  with enters the mutex, which must be initialised.
- `Open` and `Close` are modelled only while the module is loaded. They enter
  the mutex through the counter helpers, so it must be initialised. The load
  and unload paths are each treated as one atomic step with respect to them
  (see "## Left out").

Two properties of the code worth noting:

- The unload path (`sepal.c:188-191`) does not release in reverse acquisition
  order. It detaches the device third, after the key and the security model.
  `FiniOrderIsNotReverse` states this.
- `devrefcnt` has no underflow guard. It stays non-negative only while closes
  are paired with opens, which `Close` states as an if-and-only-if.

## Model

| member | source | states |
|---|---|---|
| Bits.BitOrZero | src/sys/modules/sepal/sepal.c:73-79 | the OR of two integers is zero exactly when both are zero, so ORing the counts is a correct busy test |
| Lifecycle.Progress | src/sys/modules/sepal/sepal.c:141-160 | the load path holds between 1 and 4 resources when it stops acquiring; it holds all 4 exactly when every registration returned 0 |
| Lifecycle.InitSuccessLog | src/sys/modules/sepal/sepal.c:137-164 | a successful load acquires lock, security model, key and device in that order and releases nothing |
| Lifecycle.InitRollbackLog | src/sys/modules/sepal/sepal.c:141-176 | a failed load acquires the resources before the failing step in the fixed order, then releases exactly those in reverse order |
| Lifecycle.InitLogPhases | src/sys/modules/sepal/sepal.c:137-176 | the load log is the lock, then the registrations that succeeded in the fixed order, then on failure the release of all of those in reverse order |
| Lifecycle.InitNeverDetaches | src/sys/modules/sepal/sepal.c:166-176 | no run of the load path detaches the device |
| Lifecycle.InitReplay | src/sys/modules/sepal/sepal.c:137-176 | the load path never double-acquires or releases something not held; it ends holding all four resources on success and none on failure |
| Lifecycle.FiniReplay | src/sys/modules/sepal/sepal.c:188-191 | the unload path releases each of the four resources exactly once and leaves nothing held |
| Lifecycle.FiniOrderIsNotReverse | src/sys/modules/sepal/sepal.c:188-191 | the unload order (key, security model, device, lock) differs from the reverse of acquisition (device, key, security model, lock) |
| Lifecycle.LoadUnloadCycle | src/sys/modules/sepal/sepal.c:132-199 | a successful load followed by an unload leaves nothing held |
| Sepal.SepalModule.constructor | src/sys/modules/sepal/sepal.c:57-68 | the zeroed static state holds nothing, has both counts at zero and satisfies the invariant |
| Sepal.SepalModule.MutexInit | src/sys/modules/sepal/sepal.c:139 | initialising the lock acquires it and logs that |
| Sepal.SepalModule.MutexDestroy | src/sys/modules/sepal/sepal.c:172-173 | destroying the lock releases it and logs that |
| Sepal.SepalModule.SecmodelRegister | src/sys/modules/sepal/sepal.c:142 | the security model is registered exactly when the host returns 0, and the host's code is passed back |
| Sepal.SepalModule.SecmodelDeregister | src/sys/modules/sepal/sepal.c:169-170 | deregistering releases the security model and logs that |
| Sepal.SepalModule.KauthRegisterKey | src/sys/modules/sepal/sepal.c:149 | the key, registered against a held security model, is held exactly when the host returns 0 |
| Sepal.SepalModule.KauthDeregisterKey | src/sys/modules/sepal/sepal.c:166-167 | deregistering releases the key and logs that |
| Sepal.SepalModule.DevswAttach | src/sys/modules/sepal/sepal.c:156 | the device is attached exactly when the host returns 0 |
| Sepal.SepalModule.DevswDetach | src/sys/modules/sepal/sepal.c:190 | detaching releases the device and logs that |
| Sepal.SepalModule.HasRefcnts | src/sys/modules/sepal/sepal.c:70-83 | the busy value is nonzero iff devrefcnt or credrefcnt is nonzero (under the invariant: iff opens differ from closes); nothing changes |
| Sepal.SepalModule.IncrDevrefcnt | src/sys/modules/sepal/sepal.c:85-91 | with the lock initialised, devrefcnt rises by exactly 1 and nothing else changes |
| Sepal.SepalModule.DecrDevrefcnt | src/sys/modules/sepal/sepal.c:93-99 | with the lock initialised, devrefcnt falls by exactly 1, with no floor, and nothing else changes |
| Sepal.SepalModule.Open | src/sys/modules/sepal/sepal.c:101-108 | returns 0 and raises devrefcnt by exactly 1; credrefcnt and the resources are untouched and the invariant (devrefcnt = opens − closes) is kept |
| Sepal.SepalModule.Close | src/sys/modules/sepal/sepal.c:110-117 | returns 0 and lowers devrefcnt by exactly 1; nothing else changes; devrefcnt stays non-negative iff closes do not outnumber opens |
| Sepal.SepalModule.Ioctl | src/sys/modules/sepal/sepal.c:119-127 | every command is answered with ENOTTY and no state changes |
| Sepal.SepalModule.Register | src/sys/modules/sepal/sepal.c:141-160 | the registrations stop at the first nonzero code; exactly the ones that succeeded are held and logged, in the fixed order; the result is 0 iff all three succeeded |
| Sepal.SepalModule.Unwind | src/sys/modules/sepal/sepal.c:166-173 | entered after a failed step, the fall-through cleanup releases everything acquired, in reverse acquisition order, and leaves nothing held |
| Sepal.SepalModule.InitLogComposed | src/sys/modules/sepal/sepal.c:132-177 | the lock step, the registration phase and the cleanup phase together make exactly the load path's log, which replays to all resources on success and to none on failure |
| Sepal.SepalModule.Init | src/sys/modules/sepal/sepal.c:132-177 | returns 0 iff all three registrations return 0, otherwise ENXIO whatever the host's code; its log is exactly the load path's (with rollback); it ends holding all or nothing with both counts at zero |
| Sepal.SepalModule.Fini | src/sys/modules/sepal/sepal.c:179-199 | EBUSY iff a count is nonzero, and then nothing is released and the module stays loaded; otherwise 0, with key, security model, device and lock released in that order and nothing left held |
| Sepal.SepalModule.ModCmd | src/sys/modules/sepal/sepal.c:201-224 | INIT gives exactly the load result and effects and FINI exactly the unload result and effects; any other command gives ENOTTY and changes nothing |
| Scenarios.LoadThenUnload | src/sys/modules/sepal/sepal.c:132-199 | load then unload with no opens: the unload succeeds whenever the load did, and nothing is held afterwards |
| Scenarios.PairedOpensThenUnload | src/sys/modules/sepal/sepal.c:101-117 | open, open, close, close, unload: the unload succeeds and releases everything |
| Scenarios.BusyUnloadThenRetry | src/sys/modules/sepal/sepal.c:179-199 | an unload with a handle open returns EBUSY and ioctl still answers; after the close, a retried unload succeeds and releases everything |
| Scenarios.FailedLoadThenReload | src/sys/modules/sepal/sepal.c:148-176 | a load whose key registration fails returns ENXIO and leaves nothing held, so a second load succeeds |

## Left out

- Real mutual exclusion (`kmutex_t`, `mutex_enter`/`mutex_exit`, the
  `D_MPSAFE` flag). The lock is only an "initialised" flag that the counter
  operations require, and each locked section is one atomic step.
- Interleaving of device calls with the load and unload paths. `Init`, `Fini`
  and `ModCmd` run atomically with respect to `Open` and `Close`. In the code,
  the busy query (`sepal.c:184`) drops the lock before the key and the
  security model are deregistered (188-189), and the device is detached only
  at 190. An open arriving in that window raises `devrefcnt` on a partly torn
  down module, and the mutex is then destroyed (191) with a handle open. This
  window is not modelled.
- Behaviour of the host-kernel calls (`secmodel_register`/`_deregister`,
  `kauth_register_key`/`_deregister_key`, `devsw_attach`/`_detach`,
  `mutex_init`/`_destroy`). They are foreign code. Their outcomes are inputs
  and their effects are the held-resource flags and log entries.
- The values of the handles `sepal_sm` and `sepal_key`. Only whether each is
  registered is modelled.
- The `cdevsw` table and its `noread`/`nowrite`/`nopoll`/... stubs, the
  `MODULE(...)` declaration, the major numbers `cmajor`/`bmajor`, and the
  identifier and name strings passed to `secmodel_register`. These are host
  wiring with no behaviour in this core.
- The unused parameters of the entry points (`dev`, `flag`, `mode`, `lwp`,
  ioctl `data`, modcmd `arg`). No code path reads them.
- Numeric errno values. `ENXIO`, `EBUSY` and `ENOTTY` are symbolic.
- The byte-level `memset` of `sc`. It is modelled as both counts set to 0.
- Sepal.SepalModule.HasRefcnts: the counts are unbounded integers, so the
  32-bit width of C `int` and its overflow are not modelled. `BitOr` is the
  two's-complement OR on unbounded integers, which agrees with C's `|` on
  values that fit an `int`.
- Sepal.SepalModule.Open: the count has no upper bound, so `int` overflow of
  `devrefcnt` after 2^31 − 1 opens is not modelled.
- Modules other than `sepal.c`, including the variant of the controller that
  attaches the device first and tracks processes instead of credentials. That
  variant is not part of this model.
