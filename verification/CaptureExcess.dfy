/**
  The setting maxSwitchesPerHour is exceeded: under every setting a run of captures and quiet
  times, without any manual choice, holds one adaptive switch more in an hour.
*/
module CaptureExcess {
  import opened Wrappers
  import opened CaptureModes
  import opened CaptureControl
  import opened CaptureBudget
  import opened CaptureRuns
  import opened CapturePaths

  /** A resolvable adaptive configuration. */
  ghost predicate Usable(cfg: Config) {
    && ValidConfig(cfg, cfg.adaptive.base) && cfg.adaptive.enabled
    && Resolve(cfg.user, cfg.origin, cfg.adaptive.escalated).Some?
  }

  /** Nothing waits between two tasks. */
  ghost predicate Rests(s: State, cfg: Config) {
    Calm(s, cfg) && s.queue == []
  }

  /** One more adaptive switch, at this time. */
  ghost predicate Switches(s: State, t: State, target: CaptureMode, at: int, limited: bool) {
    && t.now == at && t.timestamps == Recent(s.timestamps, at) + [at]
    && exists r, b :: t.log == s.log + [Switched(target, r, b, at, limited)]
  }

  lemma Escalates(s: State, cfg: Config) returns (t: State)
    requires Usable(cfg) && Rests(s, cfg) && s.phase == Base
    ensures var limited := |Recent(s.timestamps, s.now)| >= cfg.adaptive.maxSwitchesPerHour;
            && Reaches(s, t, cfg) && Rests(t, cfg) && Switches(s, t, cfg.adaptive.escalated, s.now, limited)
            && t.phase == (if limited then Pinned else Escalated)
            && t.lastCaptureAt == t.lastEscalationAt == Some(s.now)
  {
    hide Inv, Reaches, Resolve, Next, Enabled, Recent;
    var u := CaptureAsks(s, cfg);
    Begins(u, cfg);
    var v := Next(u, StartTask, cfg);
    Takes(u, StartTask, cfg);
    ReachesInv(u, v, cfg);
    Joins(s, u, v, cfg);
    t := Settle(v, cfg);
    ReachesInv(v, t, cfg);
    Joins(s, v, t, cfg);
    assert t.log == s.log + [Switched(cfg.adaptive.escalated, s.steps, u.steps, s.now, |Recent(s.timestamps, s.now)| >= cfg.adaptive.maxSwitchesPerHour)];
  }

  lemma Returns(s: State, at: int, cfg: Config) returns (t: State)
    requires Usable(cfg) && Rests(s, cfg) && s.phase == Escalated && s.lastCaptureAt == s.lastEscalationAt == Some(s.now)
    requires at >= s.now + Longer(cfg) && |Recent(s.timestamps, at)| < cfg.adaptive.maxSwitchesPerHour
    ensures Reaches(s, t, cfg) && Rests(t, cfg) && Switches(s, t, cfg.adaptive.base, at, false) && t.phase == Base
  {
    hide Inv, Reaches, Resolve, Next, Enabled, Recent;
    var w := s.(now := at, steps := s.steps + 1);
    Waits(s, at, cfg);
    AsksToReturn(w, cfg);
    var u := w.(steps := w.steps + 1, queue := w.queue + [AdaptiveTask(cfg.adaptive.base, w.generation, w.steps)]);
    Joins(s, w, u, cfg);
    ReachesInv(s, u, cfg);
    Begins(u, cfg);
    var v := Next(u, StartTask, cfg);
    Takes(u, StartTask, cfg);
    ReachesInv(u, v, cfg);
    Joins(s, u, v, cfg);
    t := Settle(v, cfg);
    ReachesInv(v, t, cfg);
    Joins(s, v, t, cfg);
    assert t.log == s.log + [Switched(cfg.adaptive.base, w.steps, u.steps, at, false)];
  }

  // ---------------------------------------------------------------- counting

  /** No manual choice was ever made. */
  predicate Unattended(log: seq<Note>) {
    forall k :: 0 <= k < |log| ==> log[k].Switched?
  }

  /** The hour from `from` on holds c switches so far, all remembered. */
  ghost predicate Counts(s: State, from: int, c: nat) {
    && from <= s.now < from + HOUR_MS && |s.timestamps| == c && SwitchesIn(s.log, from) == c && Unattended(s.log)
    && forall k :: 0 <= k < |s.timestamps| ==> from <= s.timestamps[k] <= s.now
  }

  lemma {:induction false} RecentAll(t: seq<int>, now: int)
    requires forall k :: 0 <= k < |t| ==> now - t[k] < HOUR_MS
    ensures Recent(t, now) == t
  {
    if t != [] {
      RecentAll(t[..|t| - 1], now);
    }
  }

  lemma SwitchesSnoc(log: seq<Note>, n: Note, from: int)
    ensures SwitchesIn(log + [n], from) == SwitchesIn(log, from) + if n.Switched? && from <= n.time < from + HOUR_MS then 1 else 0
  {
    assert (log + [n])[..|log|] == log;
  }

  lemma CountsOneMore(s: State, t: State, from: int, c: nat, target: CaptureMode, at: int, limited: bool)
    requires Counts(s, from, c) && Switches(s, t, target, at, limited) && s.now <= at < from + HOUR_MS
    ensures Counts(t, from, c + 1)
  {
    hide Recent, SwitchesIn;
    RecentAll(s.timestamps, at);
    var r, b :| t.log == s.log + [Switched(target, r, b, at, limited)];
    SwitchesSnoc(s.log, Switched(target, r, b, at, limited), from);
  }

  /** Up and down again, two switches. */
  lemma Cycle(s: State, from: int, c: nat, cfg: Config) returns (t: State)
    requires Usable(cfg) && Rests(s, cfg) && s.phase == Base && Counts(s, from, c)
    requires c + 2 <= cfg.adaptive.maxSwitchesPerHour && s.now + Longer(cfg) < from + HOUR_MS
    ensures Reaches(s, t, cfg) && Rests(t, cfg) && t.phase == Base && Counts(t, from, c + 2) && t.now == s.now + Longer(cfg)
  {
    hide Reaches, Rests, Recent, SwitchesIn, Resolve, ValidConfig;
    RecentAll(s.timestamps, s.now);
    var u := Escalates(s, cfg);
    CountsOneMore(s, u, from, c, cfg.adaptive.escalated, s.now, false);
    RecentAll(u.timestamps, s.now + Longer(cfg));
    t := Returns(u, s.now + Longer(cfg), cfg);
    CountsOneMore(u, t, from, c + 1, cfg.adaptive.base, s.now + Longer(cfg), false);
    Joins(s, u, t, cfg);
  }

  lemma {:induction false} Cycles(s: State, from: int, c: nat, m: nat, cfg: Config) returns (t: State)
    requires Usable(cfg) && Rests(s, cfg) && s.phase == Base && Counts(s, from, c)
    requires c + 2 * m <= cfg.adaptive.maxSwitchesPerHour && s.now + m * Longer(cfg) < from + HOUR_MS
    ensures Reaches(s, t, cfg) && Rests(t, cfg) && t.phase == Base && Counts(t, from, c + 2 * m)
    decreases m
  {
    hide Reaches, Rests, Counts, Usable, Longer;
    if m == 0 {
      Stays(s, cfg);
      t := s;
    } else {
      OneOf(m, Longer(cfg));
      var u := Cycle(s, from, c, cfg);
      t := Cycles(u, from, c + 2, m - 1, cfg);
      Joins(s, u, t, cfg);
    }
  }

  lemma OneOf(m: nat, w: nat)
    requires m > 0
    ensures m * w == w + (m - 1) * w && m * w >= w
  {
  }

  /** Where the hour begins: at once for an even setting, with a first return to base for an odd one. */
  lemma Prepares(cfg: Config, now: int) returns (s: State, from: int)
    requires Usable(cfg)
    ensures Reaches(Init(cfg, cfg.adaptive.base, now), s, cfg) && Rests(s, cfg) && s.phase == Base && s.now == from
    ensures Counts(s, from, cfg.adaptive.maxSwitchesPerHour % 2)
  {
    hide Reaches, Recent, SwitchesIn, Resolve, Init, Inv;
    var i := Init(cfg, cfg.adaptive.base, now);
    s := Opens(cfg, now);
    from := now;
    NothingYet(from);
    if cfg.adaptive.maxSwitchesPerHour % 2 == 1 {
      assert Recent([], now) == [] by { RecentAll([], now); }
      var t := Escalates(s, cfg);
      Joins(i, s, t, cfg);
      assert t.timestamps == [now];
      from := now + HOUR_MS + Longer(cfg);
      Forgets(now, from);
      var u := Returns(t, from, cfg);
      Joins(i, t, u, cfg);
      assert u.timestamps == [from];
      var r, b :| t.log == s.log + [Switched(cfg.adaptive.escalated, r, b, now, false)];
      var q, d :| u.log == t.log + [Switched(cfg.adaptive.base, q, d, from, false)];
      NothingYet(from);
      SwitchesSnoc(s.log, Switched(cfg.adaptive.escalated, r, b, now, false), from);
      SwitchesSnoc(t.log, Switched(cfg.adaptive.base, q, d, from, false), from);
      s := u;
    }
  }

  lemma NothingYet(from: int)
    ensures SwitchesIn([], from) == 0
  {
  }

  lemma Forgets(now: int, later: int)
    requires later >= now + HOUR_MS
    ensures Recent([now], later) == []
  {
    assert [now][..0] == [];
  }

  /**
    For every setting, as long as half as many quiet and dwell times fit in an hour: a run without
    manual choices in which one hour holds maxSwitchesPerHour + 1 adaptive switches.
  */
  lemma LimitIsExceeded(cfg: Config, now: int) returns (states: seq<State>, steps: seq<Step>, from: int)
    requires Usable(cfg) && (cfg.adaptive.maxSwitchesPerHour / 2) * Longer(cfg) < HOUR_MS
    ensures IsRun(states, steps, cfg, cfg.adaptive.base, now)
    ensures var log := states[|steps|].log;
            SwitchesIn(log, from) == cfg.adaptive.maxSwitchesPerHour + 1 && forall k :: 0 <= k < |log| ==> log[k].Switched?
  {
    hide Reaches, Rests, Recent, SwitchesIn, Resolve, Init, ValidConfig, Longer;
    var n := cfg.adaptive.maxSwitchesPerHour;
    Positive(cfg);
    var i := Init(cfg, cfg.adaptive.base, now);
    var s;
    s, from := Prepares(cfg, now);
    var t := Cycles(s, from, n % 2, n / 2, cfg);
    Joins(i, s, t, cfg);
    RecentAll(t.timestamps, t.now);
    var u := Escalates(t, cfg);
    Joins(i, t, u, cfg);
    CountsOneMore(t, u, from, n, cfg.adaptive.escalated, t.now, true);
    states, steps := PathIsRun(u, cfg, cfg.adaptive.base, now);
  }

  lemma Positive(cfg: Config)
    requires Usable(cfg)
    ensures cfg.adaptive.maxSwitchesPerHour > 0 && ValidConfig(cfg, cfg.adaptive.base)
  {
  }
}
