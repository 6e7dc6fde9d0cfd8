/** Keyboard burst batching: every keypress inside a tracked region saves a
    screenshot; a session keeps only its first and its most recent one, and
    when it expires the most recent one is renamed to mark it final.

    A screenshot path is abstracted as a stem (timestamp and action) and a
    role tag, so the rename `_intermediate` -> `_final` is a tag change. */
module KeySession {
  import opened Common

  datatype Tag = First | Intermediate | Final

  datatype Shot = Shot(stem: string, tag: Tag)

  /** `start` is the time of the session's first keypress. */
  datatype KeySession = KeySession(start: Option<real>, shots: seq<Shot>)

  const Idle := KeySession(None, [])

  /** Default seconds after the session start at which a session ends. */
  const DefaultKeyTimeout: real := 2.0

  /** A keypress opens a session when none is active or the active one
      started more than `timeout` ago (measured from its start, strictly). */
  predicate OpensKeySession(s: KeySession, now: real, timeout: real) {
    s.start.None? || now - s.start.value > timeout
  }

  /** Recording one keypress's screenshot (saved under `stem`). */
  function Record(s: KeySession, now: real, timeout: real, stem: string): (r: KeySession)
    ensures OpensKeySession(s, now, timeout) ==> r == KeySession(Some(now), [Shot(stem, First)])
    ensures !OpensKeySession(s, now, timeout) ==>
              r.start == s.start && r.shots == s.shots + [Shot(stem, Intermediate)]
  {
    if OpensKeySession(s, now, timeout) then KeySession(Some(now), [Shot(stem, First)])
    else s.(shots := s.shots + [Shot(stem, Intermediate)])
  }

  /** The outcome of pruning: the paths still tracked and the files deleted. */
  datatype Pruned = Pruned(kept: seq<Shot>, deleted: seq<Shot>)

  /** Keep the first and the last screenshot, delete everything between. */
  function Prune(shots: seq<Shot>): (p: Pruned)
    ensures |shots| <= 2 ==> p.kept == shots && p.deleted == []
    ensures |shots| > 2 ==> p.kept == [shots[0], shots[|shots| - 1]] && p.deleted == shots[1..|shots| - 1]
  {
    if |shots| <= 2 then Pruned(shots, [])
    else Pruned([shots[0], shots[|shots| - 1]], shots[1..|shots| - 1])
  }

  /** Pruning loses nothing: every screenshot is either kept or deleted,
      exactly once. */
  lemma PruneIsPartition(shots: seq<Shot>)
    ensures multiset(Prune(shots).kept) + multiset(Prune(shots).deleted) == multiset(shots)
  {
    if |shots| > 2 {
      assert shots == [shots[0]] + shots[1..|shots| - 1] + [shots[|shots| - 1]];
    }
  }

  /** Pruning is idempotent: once pruned, nothing more is deleted. */
  lemma PruneIdempotent(shots: seq<Shot>)
    ensures Prune(Prune(shots).kept) == Pruned(Prune(shots).kept, [])
  {
  }

  /** One keypress: record its screenshot, then prune when more than two
      are tracked. */
  datatype KeyStep = KeyStep(session: KeySession, saved: Shot, deleted: seq<Shot>)

  function OnKeyPress(s: KeySession, now: real, timeout: real, stem: string): (k: KeyStep)
    ensures k.saved.stem == stem
    ensures k.saved.tag == (if OpensKeySession(s, now, timeout) then First else Intermediate)
    ensures OpensKeySession(s, now, timeout) ==> k.session == KeySession(Some(now), [k.saved]) && k.deleted == []
    ensures !OpensKeySession(s, now, timeout) ==> k.session.start == s.start
    ensures |k.session.shots| <= 2 || |k.session.shots| == |s.shots| + 1
    ensures |k.session.shots| > 0 && k.session.shots[|k.session.shots| - 1] == k.saved
    // inside a session the first screenshot survives every prune
    ensures !OpensKeySession(s, now, timeout) && |s.shots| > 0 ==> k.session.shots[0] == s.shots[0]
  {
    var r := Record(s, now, timeout, stem);
    var saved := r.shots[|r.shots| - 1];
    if |r.shots| > 2 then
      var p := Prune(r.shots);
      KeyStep(r.(shots := p.kept), saved, p.deleted)
    else
      KeyStep(r, saved, [])
  }

  /** Inside a session a keypress is exactly "append, then prune". */
  lemma OnKeyPressPrunes(s: KeySession, now: real, timeout: real, stem: string)
    requires !OpensKeySession(s, now, timeout)
    ensures var k := OnKeyPress(s, now, timeout, stem);
            k.session.shots == Prune(s.shots + [k.saved]).kept &&
            k.deleted == Prune(s.shots + [k.saved]).deleted
  {
    var k := OnKeyPress(s, now, timeout, stem);
    var all := s.shots + [k.saved];
    if |all| > 2 {
      assert all[1..|all| - 1] == s.shots[1..];
    }
  }

  /** The session shape every keypress and every tick preserves: no session
      means no screenshots; an active one holds its first screenshot and at
      most one more, the most recent intermediate one. */
  predicate KeyInv(s: KeySession) {
    if s.start.None? then s.shots == []
    else
      1 <= |s.shots| <= 2 && s.shots[0].tag == First &&
      (|s.shots| == 2 ==> s.shots[1].tag == Intermediate)
  }

  lemma KeyInvOnKeyPress(s: KeySession, now: real, timeout: real, stem: string)
    requires KeyInv(s)
    ensures KeyInv(OnKeyPress(s, now, timeout, stem).session)
    ensures |OnKeyPress(s, now, timeout, stem).deleted| <= 1
  {
  }

  // ---------------------------------------------------------------- ending

  datatype Rename = Rename(from: Shot, to: Shot)

  /** `path.replace("_intermediate", "_final")`. */
  function Finalized(sh: Shot): (f: Shot)
    ensures f.stem == sh.stem
    ensures sh.tag == Intermediate ==> f.tag == Final
    ensures sh.tag != Intermediate ==> f == sh
  {
    if sh.tag == Intermediate then sh.(tag := Final) else sh
  }

  datatype Expired = Expired(session: KeySession, rename: Option<Rename>)

  /** The main loop's timeout check: a session that started more than
      `timeout` ago and holds more than one screenshot is closed, its last
      screenshot renamed final. A session with a single screenshot is left
      as it is (the next keypress replaces it). */
  function Expire(s: KeySession, now: real, timeout: real): (e: Expired)
    ensures e.rename.Some? <==> s.start.Some? && now - s.start.value > timeout && |s.shots| > 1
    ensures e.rename.Some? ==>
              (e.session == Idle &&
               e.rename.value.from == s.shots[|s.shots| - 1] &&
               e.rename.value.to == Finalized(s.shots[|s.shots| - 1]))
    ensures e.rename.None? ==> e.session == s
  {
    if s.start.Some? && now - s.start.value > timeout && |s.shots| > 1 then
      var last := s.shots[|s.shots| - 1];
      Expired(Idle, Some(Rename(last, Finalized(last))))
    else
      Expired(s, None)
  }

  lemma KeyInvExpire(s: KeySession, now: real, timeout: real)
    requires KeyInv(s)
    ensures KeyInv(Expire(s, now, timeout).session)
  {
  }

  /** Under the session invariant an expiring session renames an
      intermediate screenshot to a final one, and never its first one. */
  lemma ExpireRenamesIntermediate(s: KeySession, now: real, timeout: real)
    requires KeyInv(s)
    requires Expire(s, now, timeout).rename.Some?
    ensures Expire(s, now, timeout).rename.value.from == s.shots[1]
    ensures Expire(s, now, timeout).rename.value.from.tag == Intermediate
    ensures Expire(s, now, timeout).rename.value.to == Shot(s.shots[1].stem, Final)
  {
  }

  datatype Closing = Closing(rename: Option<Rename>, deleted: seq<Shot>)

  /** At shutdown a session with more than one screenshot gets its last one
      renamed final (timeout or not) and its list pruned. */
  function Shutdown(s: KeySession): (c: Closing)
    ensures c.rename.Some? <==> s.start.Some? && |s.shots| > 1
    ensures c.rename.Some? ==> c.rename.value == Rename(s.shots[|s.shots| - 1], Finalized(s.shots[|s.shots| - 1]))
    ensures c.rename.None? ==> c.deleted == []
    ensures c.rename.Some? ==> c.deleted == Prune(s.shots).deleted
  {
    if s.start.Some? && |s.shots| > 1 then
      var last := s.shots[|s.shots| - 1];
      Closing(Some(Rename(last, Finalized(last))), Prune(s.shots).deleted)
    else
      Closing(None, [])
  }

  /** Since every keypress prunes, the shutdown pruning has nothing left to
      delete. */
  lemma ShutdownDeletesNothing(s: KeySession)
    requires KeyInv(s)
    ensures Shutdown(s).deleted == []
  {
  }

  // ---------------------------------------------------------------- bursts

  datatype KeyRun = KeyRun(session: KeySession, deleted: seq<Shot>)

  /** A stream of `(time, stem)` keypresses, applied in order. */
  function RunKeys(s: KeySession, timeout: real, presses: seq<(real, string)>): (r: KeyRun)
    decreases |presses|
  {
    if |presses| == 0 then KeyRun(s, [])
    else
      var prev := RunKeys(s, timeout, presses[..|presses| - 1]);
      var last := presses[|presses| - 1];
      var step := OnKeyPress(prev.session, last.0, timeout, last.1);
      KeyRun(step.session, prev.deleted + step.deleted)
  }

  /** The screenshots of a burst that are neither its first nor its last. */
  function Middle(presses: seq<(real, string)>): (m: seq<Shot>)
    ensures |m| == if |presses| <= 2 then 0 else |presses| - 2
  {
    if |presses| <= 2 then []
    else seq(|presses| - 2, k requires 0 <= k < |presses| - 2 => Shot(presses[k + 1].1, Intermediate))
  }

  /** A burst of keypresses that opens a session and stays within `timeout`
      of its first press ends with exactly its first and its last
      screenshots tracked, and every screenshot in between deleted, in order. */
  lemma {:induction false} BurstKeepsFirstAndLast(s: KeySession, timeout: real, presses: seq<(real, string)>)
    requires |presses| >= 1
    requires OpensKeySession(s, presses[0].0, timeout)
    requires forall k :: 0 <= k < |presses| ==> presses[k].0 - presses[0].0 <= timeout
    ensures RunKeys(s, timeout, presses).session.start == Some(presses[0].0)
    ensures |presses| == 1 ==> RunKeys(s, timeout, presses).session.shots == [Shot(presses[0].1, First)]
    ensures |presses| >= 2 ==>
              (RunKeys(s, timeout, presses).session.shots ==
               [Shot(presses[0].1, First), Shot(presses[|presses| - 1].1, Intermediate)])
    ensures RunKeys(s, timeout, presses).deleted == Middle(presses)
    decreases |presses|
  {
    var n := |presses|;
    var init := presses[..n - 1];
    if n == 1 {
      assert init == [];
      assert RunKeys(s, timeout, init) == KeyRun(s, []);
    } else {
      assert forall k :: 0 <= k < |init| ==> init[k] == presses[k];
      BurstKeepsFirstAndLast(s, timeout, init);
      BurstExtend(s, timeout, presses);
    }
  }

  /** The inductive step of `BurstKeepsFirstAndLast`: one more keypress
      within the burst. */
  lemma {:induction false} BurstExtend(s: KeySession, timeout: real, presses: seq<(real, string)>)
    requires |presses| >= 2
    requires presses[|presses| - 1].0 - presses[0].0 <= timeout
    requires var prev := RunKeys(s, timeout, presses[..|presses| - 1]);
             prev.session.start == Some(presses[0].0) &&
             prev.deleted == Middle(presses[..|presses| - 1]) &&
             prev.session.shots == [Shot(presses[0].1, First)] +
               (if |presses| == 2 then [] else [Shot(presses[|presses| - 2].1, Intermediate)])
    ensures RunKeys(s, timeout, presses).session ==
              KeySession(Some(presses[0].0), [Shot(presses[0].1, First), Shot(presses[|presses| - 1].1, Intermediate)])
    ensures RunKeys(s, timeout, presses).deleted == Middle(presses)
  {
    var n := |presses|;
    var init := presses[..n - 1];
    var last := presses[n - 1];
    var prev := RunKeys(s, timeout, init);
    var step := OnKeyPress(prev.session, last.0, timeout, last.1);
    RunKeysUnfold(s, timeout, presses);
    if n == 2 {
      BurstStep(prev.session, presses[0].0, timeout, presses[0].1, None, last.0, last.1);
    } else {
      BurstStep(prev.session, presses[0].0, timeout, presses[0].1, Some(presses[n - 2].1), last.0, last.1);
      MiddleSnoc(presses);
    }
  }

  lemma {:induction false} RunKeysUnfold(s: KeySession, timeout: real, presses: seq<(real, string)>)
    requires |presses| >= 1
    ensures var prev := RunKeys(s, timeout, presses[..|presses| - 1]);
            var step := OnKeyPress(prev.session, presses[|presses| - 1].0, timeout, presses[|presses| - 1].1);
            RunKeys(s, timeout, presses) == KeyRun(step.session, prev.deleted + step.deleted)
  {
  }

  lemma {:induction false} MiddleSnoc(presses: seq<(real, string)>)
    requires |presses| >= 3
    ensures Middle(presses) == Middle(presses[..|presses| - 1]) + [Shot(presses[|presses| - 2].1, Intermediate)]
  {
    var init := presses[..|presses| - 1];
    var a := Middle(presses);
    var b := Middle(init) + [Shot(presses[|presses| - 2].1, Intermediate)];
    assert |a| == |b|;
    forall k | 0 <= k < |a| ensures a[k] == b[k] {
      if k < |a| - 1 {
        assert init[k + 1] == presses[k + 1];
      }
    }
  }

  /** One keypress inside a running burst: the new screenshot replaces the
      previous intermediate one, which is deleted. */
  lemma BurstStep(s: KeySession, t0: real, timeout: real, first: string, prevLast: Option<string>, now: real, stem: string)
    requires s.start == Some(t0) && now - t0 <= timeout
    requires s.shots == [Shot(first, First)] + (if prevLast.Some? then [Shot(prevLast.value, Intermediate)] else [])
    ensures OnKeyPress(s, now, timeout, stem).session == KeySession(Some(t0), [Shot(first, First), Shot(stem, Intermediate)])
    ensures OnKeyPress(s, now, timeout, stem).deleted ==
              (if prevLast.Some? then [Shot(prevLast.value, Intermediate)] else [])
  {
  }
}
