/** Timers of the main loop: the inactivity stop and the periodic sweep of
    old screenshots from the screenshots directory. */
module Housekeeping {
  import opened Common

  /** 45 minutes, the observer's default. */
  const DefaultInactivityTimeout: real := 2700.0

  /** Screenshots older than this many seconds are swept. */
  const MaxScreenshotAge: real := 3600.0

  /** Seconds between two sweeps. */
  const SweepInterval: real := 300.0

  /** The loop stops once `now - lastActivity >= timeout`; before the first
      activity stamp nothing stops it. */
  predicate InactivityExpired(lastActivity: Option<real>, now: real, timeout: real) {
    lastActivity.Some? && now - lastActivity.value >= timeout
  }

  /** Once expired, waiting longer never un-expires the recorder, and any
      fresh activity stamp puts the stop a full timeout away. */
  lemma InactivityMonotone(lastActivity: Option<real>, t: real, t': real, timeout: real)
    requires t <= t'
    ensures InactivityExpired(lastActivity, t, timeout) ==> InactivityExpired(lastActivity, t', timeout)
    ensures timeout > 0.0 ==> !InactivityExpired(Some(t'), t', timeout)
  {
  }

  /** The loop's sweep fires when more than `SweepInterval` seconds passed
      since the last one. */
  predicate SweepDue(now: real, lastSweep: real) {
    now - lastSweep > SweepInterval
  }

  function EndsWith(s: string, suffix: string): bool {
    |suffix| <= |s| && s[|s| - |suffix|..] == suffix
  }

  /** One directory entry; `mtime` is `None` when the file vanished before
      its modification time could be read. */
  datatype FileEntry = FileEntry(name: string, mtime: Option<real>)

  /** Swept: a `.jpg` whose age is strictly above the retention ceiling. */
  predicate IsStale(f: FileEntry, now: real) {
    EndsWith(f.name, ".jpg") && f.mtime.Some? && now - f.mtime.value > MaxScreenshotAge
  }

  /** Reference definition of the sweep: the stale names, in listing order. */
  function StaleNames(files: seq<FileEntry>, now: real): seq<string>
    decreases |files|
  {
    if |files| == 0 then []
    else
      StaleNames(files[..|files| - 1], now) +
        (if IsStale(files[|files| - 1], now) then [files[|files| - 1].name] else [])
  }

  /** A name is swept exactly when some stale entry carries it. */
  lemma {:induction false} StaleNamesMembership(files: seq<FileEntry>, now: real, name: string)
    ensures name in StaleNames(files, now) <==>
              exists i :: 0 <= i < |files| && files[i].name == name && IsStale(files[i], now)
    decreases |files|
  {
    if |files| > 0 {
      var init := files[..|files| - 1];
      StaleNamesMembership(init, now, name);
      assert forall i :: 0 <= i < |init| ==> init[i] == files[i];
    }
  }

  /** The sweep over one directory listing, in listing order; returns the
      names it deletes. */
  method Sweep(files: seq<FileEntry>, now: real) returns (deleted: seq<string>)
    ensures deleted == StaleNames(files, now)
    ensures |deleted| <= |files|
  {
    deleted := [];
    var i := 0;
    while i < |files|
      invariant 0 <= i <= |files|
      invariant deleted == StaleNames(files[..i], now)
      invariant |deleted| <= i
    {
      assert files[..i + 1][..i] == files[..i];
      if IsStale(files[i], now) {
        deleted := deleted + [files[i].name];
      }
      i := i + 1;
    }
    assert files[..|files|] == files;
  }

  /** The retention scenario: an hour-and-a-bit old screenshot is swept, a
      fresher one and a non-image file are kept. */
  lemma SweepScenario()
    ensures StaleNames([FileEntry("1.0_click_before.jpg", Some(0.0)),
                        FileEntry("3000.0_click_after.jpg", Some(3000.0)),
                        FileEntry("notes.txt", Some(0.0))], 3700.0)
            == ["1.0_click_before.jpg"]
  {
    var fs := [FileEntry("1.0_click_before.jpg", Some(0.0)),
               FileEntry("3000.0_click_after.jpg", Some(3000.0)),
               FileEntry("notes.txt", Some(0.0))];
    assert EndsWith(fs[0].name, ".jpg");
    assert EndsWith(fs[1].name, ".jpg");
    assert !EndsWith(fs[2].name, ".jpg");
    assert fs[..1][..0] == [];
    assert StaleNames(fs[..1], 3700.0) == [fs[0].name];
    assert fs[..2][..1] == fs[..1];
    assert StaleNames(fs[..2], 3700.0) == [fs[0].name];
    assert fs[..3] == fs && fs[..3][..2] == fs[..2];
  }
}
