/**
 * The one-shot sound trigger (SoundTrigger.cs).  Entering the trigger starts its sound when
 * the sound is not already playing; with `playOnce` (the default) it does so only the first
 * time.  `playOnce` is an inspector setting and stays fixed here.  The ghost counter
 * `started` counts the `Play` calls this trigger has made.
 */
module SoundTrigger {
  import Engine

  /** Whether an enter may start the sound, given the trigger's settings. */
  predicate MayPlay(playOnce: bool, hasPlayed: bool)
  {
    (playOnce && !hasPlayed) || !playOnce
  }

  /** The gate is shut exactly for a one-shot trigger that has already played. */
  lemma MayPlayUnlessSpent(playOnce: bool, hasPlayed: bool)
    ensures !MayPlay(playOnce, hasPlayed) <==> playOnce && hasPlayed
  {
  }

  class SoundTrigger {
    const soundToPlay: Engine.AudioSource
    const playOnce: bool
    var hasPlayed: bool
    ghost var started: nat

    /** The trigger's history: it has played exactly when it started the sound, at most once if one-shot. */
    ghost predicate Valid()
      reads this
    {
      (hasPlayed <==> started > 0) && (playOnce ==> started <= 1)
    }

    constructor (soundToPlay: Engine.AudioSource, playOnce: bool)
      ensures this.soundToPlay == soundToPlay && this.playOnce == playOnce
      ensures !hasPlayed && started == 0 && Valid()
    {
      this.soundToPlay, this.playOnce := soundToPlay, playOnce;
      hasPlayed, started := false, 0;
    }

    /**
     * `OnTriggerEnter`: when the gate allows and the sound is silent, it is started and the
     * trigger remembers having played; otherwise nothing changes.
     */
    method OnTriggerEnter()
      requires Valid()
      modifies this`hasPlayed, this`started, soundToPlay
      ensures Valid()
      ensures var fires := MayPlay(playOnce, old(hasPlayed)) && !old(soundToPlay.isPlaying);
        (fires ==> soundToPlay.isPlaying && soundToPlay.plays == old(soundToPlay.plays) + 1 &&
                   hasPlayed && started == old(started) + 1) &&
        (!fires ==> unchanged(soundToPlay) && hasPlayed == old(hasPlayed) && started == old(started))
      ensures old(hasPlayed) ==> hasPlayed
      ensures playOnce ==> started <= 1
    {
      if (playOnce && !hasPlayed) || !playOnce {
        if !soundToPlay.isPlaying {
          soundToPlay.Play();
          hasPlayed := true;
          started := started + 1;
        }
      }
    }
  }
}
