/** The skill-bar animation: the first time the skills section intersects the
    viewport, every progress bar is scheduled to start, staggered by its
    position; a module-level flag makes this happen once. */
module Skills {

  /** Milliseconds between the starts of two neighbouring bars. */
  const StaggerMs := 100

  /** A pending `setTimeout`: after `delay` milliseconds bar number `bar`
      (zero-based, document order) gets its load animation. */
  datatype Timer = Timer(delay: nat, bar: nat)

  /** The timers one trigger schedules for `n` bars. */
  function Schedule(n: nat): (r: seq<Timer>)
    ensures |r| == n
    ensures forall i :: 0 <= i < n ==> r[i].bar == i && r[i].delay == i * StaggerMs
    ensures forall i, j :: 0 <= i < j < n ==> r[i].delay < r[j].delay
  {
    if n == 0 then [] else Schedule(n - 1) + [Timer((n - 1) * StaggerMs, n - 1)]
  }

  class SkillBars {
    /** Whether the skills section exists, so that an observer was registered. */
    const observed: bool
    /** The `skillsAnimated` latch. */
    var animated: bool
    /** Every timer scheduled so far, in scheduling order. */
    var scheduled: seq<Timer>

    constructor (skillsSectionPresent: bool)
      ensures observed == skillsSectionPresent
      ensures !animated && scheduled == []
    {
      observed := skillsSectionPresent;
      animated := false;
      scheduled := [];
    }

    /** The observer callback for one batch of entries about the skills
        section; `barCount` is how many `.skill-progress` bars the page has. */
    method OnIntersect(entries: seq<bool>, barCount: nat)
      requires observed
      modifies this
      ensures animated == (old(animated) || true in entries)
      ensures scheduled == if !old(animated) && true in entries
                           then old(scheduled) + Schedule(barCount)
                           else old(scheduled)
    {
      var k := 0;
      while k < |entries|
        invariant 0 <= k <= |entries|
        invariant animated == (old(animated) || true in entries[..k])
        invariant scheduled == if !old(animated) && true in entries[..k]
                               then old(scheduled) + Schedule(barCount)
                               else old(scheduled)
      {
        if entries[k] && !animated {
          var index := 0;
          while index < barCount
            invariant 0 <= index <= barCount
            invariant scheduled == old(scheduled) + Schedule(index)
          {
            scheduled := scheduled + [Timer(index * StaggerMs, index)];
            index := index + 1;
          }
          animated := true;
        }
        assert entries[..k + 1] == entries[..k] + [entries[k]];
        k := k + 1;
      }
      assert entries[..|entries|] == entries;
    }
  }

  /** Two batches in a row schedule the bars once: the second batch is
      ignored whatever it holds. */
  method TwoBatches(first: seq<bool>, second: seq<bool>, barCount: nat) returns (timers: seq<Timer>)
    ensures timers == if true in first + second then Schedule(barCount) else []
  {
    var bars := new SkillBars(true);
    bars.OnIntersect(first, barCount);
    bars.OnIntersect(second, barCount);
    timers := bars.scheduled;
  }
}
