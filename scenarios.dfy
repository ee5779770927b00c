/**
 * Whole-lifecycle runs of the module, as the host drives it: load, device
 * opens and closes, unload.  Each is proved from the entry points'
 * contracts alone.
 */
module Scenarios {
  import opened Lifecycle
  import opened Sepal

  /** A load followed at once by an unload, when the load succeeded: the
      unload succeeds, and afterwards nothing is held.  `fini` is None when
      the load failed and no unload was sent. */
  method LoadThenUnload(h: HostResults) returns (init: Status, fini: Option<Status>, nothingHeld: bool)
    ensures init == (if Succeeds(h) then Ok else Err(ENXIO))
    ensures fini == if init == Ok then Some(Ok) else None
    ensures nothingHeld
  {
    var m := new SepalModule();
    init := m.ModCmd(CmdInit, h);
    fini := None;
    if init == Ok {
      var r := m.ModCmd(CmdFini, h);
      fini := Some(r);
    }
    nothingHeld := m.Unloaded();
  }

  /** Open, open, close, close, then unload: the counts are back at zero,
      so the unload succeeds and releases everything. */
  method PairedOpensThenUnload() returns (fini: Status, nothingHeld: bool)
    ensures fini == Ok && nothingHeld
  {
    var m := new SepalModule();
    var h := HostResults(0, 0, 0);
    var r := m.ModCmd(CmdInit, h);
    r := m.Open();
    r := m.Open();
    r := m.Close();
    r := m.Close();
    fini := m.ModCmd(CmdFini, h);
    nothingHeld := m.Unloaded();
  }

  /** An unload while a handle is open fails with EBUSY and keeps the module
      loaded; the device still works, and once the handle is closed a retry
      succeeds. */
  method BusyUnloadThenRetry() returns (first: Status, ioctl: Status, second: Status, nothingHeld: bool)
    ensures first == Err(EBUSY) && ioctl == Err(ENOTTY) && second == Ok && nothingHeld
  {
    var m := new SepalModule();
    var h := HostResults(0, 0, 0);
    var r := m.ModCmd(CmdInit, h);
    r := m.Open();
    first := m.ModCmd(CmdFini, h);
    ioctl := m.Ioctl(0);
    r := m.Close();
    second := m.ModCmd(CmdFini, h);
    nothingHeld := m.Unloaded();
  }

  /** A load that fails leaves nothing held, so the next load starts from a
      clean state and can succeed. */
  method FailedLoadThenReload(code: int) returns (first: Status, second: Status, allHeld: bool)
    requires code != 0
    ensures first == Err(ENXIO) && second == Ok && allHeld
  {
    var m := new SepalModule();
    first := m.ModCmd(CmdInit, HostResults(0, code, 0));
    second := m.ModCmd(CmdInit, HostResults(0, 0, 0));
    allHeld := m.Active();
  }
}
