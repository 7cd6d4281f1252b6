/** The owner gadget: it applies control lines to the map it has pinned. */
module Owner {
  import opened Attribution
  import opened Options
  import opened Wire

  /** Whether a command can be carried out on the map as it stands. */
  predicate Possible(vms: map<nat, VmCtx>, maxVms: nat, c: Command)
  {
    match c
    case Add(ifindex, _, _) => ifindex in vms || |vms| < maxVms
    case State(handle, _) => exists k :: k in vms && vms[k].vmId == handle
    case Remove(handle) => exists k :: k in vms && vms[k].vmId == handle
  }

  class MapOwner {
    const maxVms: nat
    var vms: map<nat, VmCtx>
    var peakLive: nat
    var finalLive: nat
    var adds: nat
    var states: nat
    var removes: nat
    var errors: nat

    ghost predicate Valid()
      reads this
    {
      finalLive == |vms| <= peakLive
    }

    constructor (maxVms: nat)
      ensures this.maxVms == maxVms && Valid() && vms == map[]
      ensures adds == states == removes == errors == peakLive == 0
    {
      this.maxVms := maxVms;
      vms := map[];
      peakLive, finalLive, adds, states, removes, errors := 0, 0, 0, 0, 0, 0;
    }

    /** The reverse lookup: some key whose value carries `handle`, in whatever order the map
        lists its keys. */
    method KeyForHandle(handle: nat) returns (key: Option<nat>)
      ensures key.Some? ==> key.value in vms && vms[key.value].vmId == handle
      ensures key.None? ==> forall k :: k in vms ==> vms[k].vmId != handle
    {
      var keys := vms.Keys;
      while keys != {}
        invariant keys <= vms.Keys
        invariant forall k :: k in vms && k !in keys ==> vms[k].vmId != handle
        decreases |keys|
      {
        var k :| k in keys;
        if vms[k].vmId == handle {
          return Some(k);
        }
        keys := keys - {k};
      }
      return None;
    }

    /** Apply one command. `fault` is a failing map operation. Without one, exactly the
        possible commands succeed; a failed command changes nothing. */
    method Apply(c: Command, fault: bool) returns (ok: bool)
      requires Valid()
      modifies this`vms, this`peakLive, this`finalLive, this`adds, this`states, this`removes
      ensures Valid() && Applies(old(vms), maxVms, c, ok, vms)
      ensures ok <==> !fault && Possible(old(vms), maxVms, c)
      ensures peakLive == if ok && |vms| > old(peakLive) then |vms| else old(peakLive)
      ensures adds == old(adds) + (if ok && c.Add? then 1 else 0)
      ensures states == old(states) + (if ok && c.State? then 1 else 0)
      ensures removes == old(removes) + (if ok && c.Remove? then 1 else 0)
    {
      match c {
        case Add(ifindex, handle, netns) =>
          if fault || (ifindex !in vms && |vms| >= maxVms) {
            return false;
          }
          vms := vms[ifindex := VmCtx(handle, netns, RUNNING)];
          adds := adds + 1;
        case State(handle, state) =>
          var key := KeyForHandle(handle);
          if fault || key.None? {
            return false;
          }
          vms := vms[key.value := vms[key.value].(state := state)];
          states := states + 1;
        case Remove(handle) =>
          var key := KeyForHandle(handle);
          if fault || key.None? {
            return false;
          }
          vms := vms - {key.value};
          removes := removes + 1;
      }
      finalLive := |vms|;
      peakLive := if finalLive > peakLive then finalLive else peakLive;
      return true;
    }

    /** One turn of the serve loop: every line gets exactly one reply, and errors are counted. */
    method ServeLine(line: string, fault: bool, message: string) returns (reply: Reply)
      requires Valid()
      modifies this
      ensures Valid()
      ensures var parsed := ParseCommand(line);
              if parsed.Ok? then Applies(old(vms), maxVms, parsed.command, reply.Done?, vms)
              else reply.Refused? && vms == old(vms)
      ensures var parsed := ParseCommand(line);
              reply == if parsed.Ok? && !fault && Possible(old(vms), maxVms, parsed.command) then Done
                       else Refused(message)
      ensures errors == old(errors) + if reply.Done? then 0 else 1
      ensures adds + states + removes == old(adds + states + removes) + if reply.Done? then 1 else 0
    {
      var parsed := ParseCommand(line);
      var ok := false;
      if parsed.Ok? {
        ok := Apply(parsed.command, fault);
      }
      if ok {
        return Done;
      }
      errors := errors + 1;
      return Refused(message);
    }
  }
}
