/** One control command as seen from outside: what becomes of it, and what it does to the
    channel and to the map behind it. */
module Channels {
  import opened Attribution
  import opened Owner
  import opened Wire

  /** What happens to a command sent over a working channel: answered by an owner who may refuse
      even what is possible and may leave afterwards; broken off by an I/O error before or after
      the owner acted; or met by the end of the stream, again before or after. */
  datatype Fate = Answered(willing: bool, stays: bool) | IoError(acted: bool) | EndOfStream(acted: bool)

  /** The map, the next handle, and whether the client is poisoned or the owner gone. */
  datatype Channel = Channel(vms: map<nat, VmCtx>, next: nat, poisoned: bool, gone: bool)

  predicate Healthy(ch: Channel)
  {
    !ch.poisoned && !ch.gone
  }

  /** The owner gets to act, and is willing. */
  predicate Acts(fate: Fate)
  {
    match fate
    case Answered(willing, _) => willing
    case IoError(acted) => acted
    case EndOfStream(acted) => acted
  }

  /** The owner is gone afterwards. */
  predicate Leaves(fate: Fate)
  {
    fate.EndOfStream? || (fate.Answered? && !fate.stays)
  }

  /** A command meets its fate. A poisoned client sends nothing, and an owner who is gone does
      not act; only an I/O error poisons, and only an answer can be a success. */
  ghost predicate Exchange(ch: Channel, c: Command, fate: Fate, ok: bool, acted: bool, ch': Channel, maxVms: nat)
  {
    && Applies(ch.vms, maxVms, c, acted, ch'.vms)
    && (acted <==> Healthy(ch) && Acts(fate) && Possible(ch.vms, maxVms, c))
    && (ok <==> acted && fate.Answered?)
    && (ch'.poisoned <==> ch.poisoned || fate.IoError?)
    && (ch'.gone <==> ch.gone || (!ch.poisoned && Leaves(fate)))
    && (c.Add? ==> c.handle == ch.next) && ch'.next == ch.next + if c.Add? then 1 else 0
  }

  /** What cannot be seen from the client's end: the owner acted and the client was told nothing. */
  predicate Lost(ok: bool, acted: bool)
  {
    acted && !ok
  }

  /** A command carried out unnoticed leaves the channel broken, so none after it is carried out. */
  lemma LostBreaks(ch: Channel, c: Command, fate: Fate, ok: bool, acted: bool, ch': Channel, maxVms: nat)
    requires Exchange(ch, c, fate, ok, acted, ch', maxVms)
    ensures Lost(ok, acted) ==> !Healthy(ch')
    ensures Healthy(ch') ==> Healthy(ch) && ok == acted
  {
  }
}
