/** The thin countdown bar under a practice image. */
module TimerBar {
  import opened Models
  import opened Session

  /** `min(max(progress, 0), 1)`: the progress clamped to `[0, 1]`. */
  function FillFraction(progress: real): (f: real)
    ensures 0.0 <= f <= 1.0
    ensures 0.0 <= progress <= 1.0 ==> f == progress
    ensures progress <= 0.0 ==> f == 0.0
    ensures progress >= 1.0 ==> f == 1.0
  {
    var atLeastZero := if progress > 0.0 then progress else 0.0;
    if atLeastZero < 1.0 then atLeastZero else 1.0
  }

  /** The orange fill's width in a bar `width` wide. */
  function FillWidth(width: real, progress: real): real
  {
    width * FillFraction(progress)
  }

  /** The fill never leaves the bar: empty at or below 0, full at or above 1, and exactly `width * progress` between. */
  lemma FillWithinBar(width: real, progress: real)
    requires width >= 0.0
    ensures 0.0 <= FillWidth(width, progress) <= width
    ensures progress <= 0.0 ==> FillWidth(width, progress) == 0.0
    ensures progress >= 1.0 ==> FillWidth(width, progress) == width
    ensures 0.0 <= progress <= 1.0 ==> FillWidth(width, progress) == width * progress
  {
    var f := FillFraction(progress);
    assert width * f <= width * 1.0;
  }

  /** More progress never shrinks the fill. */
  lemma FillMonotone(width: real, p: real, q: real)
    requires width >= 0.0 && p <= q
    ensures FillWidth(width, p) <= FillWidth(width, q)
  {
    var fp, fq := FillFraction(p), FillFraction(q);
    assert fp <= fq;
    assert width * fp <= width * fq;
  }

  /** For any session the user can reach, the clamp never bites: the fill is exactly the progress. */
  lemma ReachableFill(config: SessionConfiguration, shuffled: seq<ImageReference>, cmds: seq<Command>, width: real)
    requires multiset(shuffled) == multiset(config.images)
    requires config.timerInterval >= 0.0 && ForwardTicks(cmds)
    ensures var progress := Progress(Run(Initial(config, shuffled), config.timerInterval, cmds), config.timerInterval);
      FillWidth(width, progress) == width * progress
  {
    ReachableProgress(config, shuffled, cmds);
  }
}
