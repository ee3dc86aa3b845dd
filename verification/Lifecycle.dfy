/** The active / cooldown / permanent state of a pool member (a CodeBuddy key or a Grok account), and
    what is written to the store and read back. */
module Lifecycle {
  /** A Go time: the zero time, or nanoseconds since the Unix epoch. */
  datatype Stamp = Zero | At(t: int)

  datatype Flag = Flag(disabled: bool, at: Stamp)

  datatype Class = Active | Cooldown | Permanent

  const FRESH: Flag := Flag(false, Zero)
  const SECOND: int := 1_000_000_000
  const COOLDOWN: int := 600 * SECOND
  const CREDIT_LIMIT: real := 240.0

  function ClassOf(f: Flag): Class
  {
    if !f.disabled then Active else if f.at.Zero? then Permanent else Cooldown
  }

  // ----- Updates -----

  datatype Verdict = Forever | ForNow

  function Punished(v: Verdict, now: int): Flag {
    Flag(true, if v.Forever? then Zero else At(now))
  }

  function Reenabled(f: Flag, now: int): Flag
  {
    if f.disabled && f.at.At? && now - f.at.t > COOLDOWN then f.(disabled := false) else f
  }

  // ----- The store -----

  datatype SavedFlag = SavedFlag(disabled: bool, unix: int)

  /** `Time.Unix()`: whole seconds; the zero time is the year 1. */
  function Unix(s: Stamp): int
  {
    match s
    case Zero => -62135596800
    case At(t) => t / SECOND
  }

  function Save(f: Flag): SavedFlag {
    SavedFlag(f.disabled, Unix(f.at))
  }

  function Load(s: SavedFlag): Flag
  {
    if !s.disabled then FRESH
    else Flag(true, if s.unix <= 0 then Zero else At(s.unix * SECOND))
  }

  /** Saving and loading keeps the class exactly when no cooldown was stamped before second one. */
  lemma SaveLoadClass(f: Flag)
    ensures ClassOf(Load(Save(f))) == ClassOf(f) <==> !(f.disabled && f.at.At? && f.at.t < SECOND)
  {
    if f.at.At? {
      assert f.at.t >= SECOND <==> f.at.t / SECOND >= 1;
    }
  }

  /** A reloaded cooldown starts at most one second early and never late. */
  lemma SaveLoadCooldown(f: Flag)
    requires f.disabled && f.at.At? && f.at.t >= SECOND
    ensures Load(Save(f)).at.At? && f.at.t - SECOND < Load(Save(f)).at.t <= f.at.t
  {
    assert f.at.t == (f.at.t / SECOND) * SECOND + f.at.t % SECOND;
  }

  /** A cooldown ends when it lies more than ten minutes back; nothing else is re-enabled or changed. */
  lemma ReenabledMeans(f: Flag, now: int)
    ensures ClassOf(Reenabled(f, now)).Active? <==>
              ClassOf(f).Active? || (ClassOf(f).Cooldown? && now - f.at.t > 600_000_000_000)
    ensures ClassOf(Reenabled(f, now)) != ClassOf(f) ==> ClassOf(Reenabled(f, now)).Active?
    ensures Reenabled(f, now).at == f.at
  {
  }

  /** Disabled with no time is permanent, with a time a cooldown. */
  lemma PunishedMeans(v: Verdict, now: int)
    ensures v.Forever? ==> Punished(v, now) == Flag(true, Zero) && ClassOf(Punished(v, now)).Permanent?
    ensures v.ForNow? ==> Punished(v, now) == Flag(true, At(now)) && ClassOf(Punished(v, now)).Cooldown?
  {
  }
}
