/**
 * PinGroup: several pins sharing rising and falling edge handlers, with a debounce rule that
 * marks an edge as bounced unless more than BounceDelay milliseconds have passed since the
 * last accepted one.
 */
module PinGroups {
  import W = Wrappers

  /** An event handler, by identity. */
  type Handler = int

  datatype PinEdge = Rising | Falling

  /** The arguments handed to every handler: the pin, the edge and whether it bounced. */
  datatype EdgeArgs = EdgeArgs(pin: int, edge: PinEdge, bounced: bool)

  /** The exception of a group whose handler list for the edge is null. */
  datatype GroupError = NullHandlerList

  const DefaultBounceDelay: real := 30.0

  /** The debounce rule: the new last-accepted time and the bounced flag of one edge at time n. */
  function Debounce(now: real, delay: real, bounced: bool, n: real): (real, bool) {
    if bounced then (now, true)
    else if n - now > delay then (n, false)
    else (now, true)
  }

  /** The last-accepted times a run of edges at the given times goes through, and which it accepts. */
  function AcceptedTimes(now: real, delay: real, times: seq<real>): seq<real>
    decreases |times|
  {
    if times == [] then []
    else
      var (next, bounced) := Debounce(now, delay, false, times[0]);
      (if bounced then [] else [times[0]]) + AcceptedTimes(next, delay, times[1..])
  }

  /** Every time a run accepts lies more than delay after the one before it, and the first after now. */
  predicate Spaced(now: real, delay: real, accepted: seq<real>) {
    (|accepted| > 0 ==> accepted[0] - now > delay)
    && forall i :: 0 < i < |accepted| ==> accepted[i] - accepted[i - 1] > delay
  }

  lemma {:induction false} AcceptedTimesSpaced(now: real, delay: real, times: seq<real>)
    ensures Spaced(now, delay, AcceptedTimes(now, delay, times))
    decreases |times|
  {
    if times != [] {
      var (next, bounced) := Debounce(now, delay, false, times[0]);
      AcceptedTimesSpaced(next, delay, times[1..]);
      var rest := AcceptedTimes(next, delay, times[1..]);
      if !bounced {
        assert AcceptedTimes(now, delay, times) == [times[0]] + rest;
      } else {
        assert next == now;
        assert AcceptedTimes(now, delay, times) == rest;
      }
    }
  }

  /** A list with the first occurrence of h removed, as List.Remove does. */
  function RemoveFirst(s: seq<Handler>, h: Handler): (r: seq<Handler>)
    ensures h in s ==> |r| == |s| - 1
    ensures h !in s ==> r == s
  {
    if s == [] then []
    else if s[0] == h then s[1..]
    else [s[0]] + RemoveFirst(s[1..], h)
  }

  /** Removing a handler takes exactly one copy of it out of the list and keeps the rest. */
  lemma {:induction false} RemoveFirstMultiset(s: seq<Handler>, h: Handler)
    ensures multiset(RemoveFirst(s, h)) == multiset(s) - multiset{h}
  {
    if s != [] {
      assert s == [s[0]] + s[1..];
      if s[0] != h {
        RemoveFirstMultiset(s[1..], h);
      }
    }
  }

  /** Subscription counts after one more subscription on every pin. */
  function Incremented(s: seq<nat>): (r: seq<nat>)
    ensures |r| == |s| && forall i :: 0 <= i < |s| ==> r[i] == s[i] + 1
  {
    seq(|s|, i requires 0 <= i < |s| => s[i] + 1)
  }

  /** Subscription counts after removing one subscription from every pin, where there is one. */
  function Decremented(s: seq<nat>): (r: seq<nat>)
    ensures |r| == |s| && forall i :: 0 <= i < |s| ==> r[i] == if s[i] > 0 then s[i] - 1 else 0
  {
    seq(|s|, i requires 0 <= i < |s| => if s[i] > 0 then s[i] - 1 else 0)
  }

  predicate AllAre(s: seq<nat>, n: nat) {
    forall i :: 0 <= i < |s| ==> s[i] == n
  }

  class PinGroup {
    /** The pins of the group, by number. */
    const pins: seq<int>
    /** The last accepted edge time, in milliseconds. */
    var now: real
    var bounceDelay: real
    /** The handler lists; None is a null list. */
    var rising: W.Option<seq<Handler>>
    var falling: W.Option<seq<Handler>>
    /** How often the group's own edge handler is subscribed to each pin's event. */
    var risingSubs: seq<nat>
    var fallingSubs: seq<nat>

    function Handlers(edge: PinEdge): W.Option<seq<Handler>>
      reads this
    {
      if edge == Rising then rising else falling
    }

    function Subs(edge: PinEdge): seq<nat>
      reads this
    {
      if edge == Rising then risingSubs else fallingSubs
    }

    /**
     * A null list goes with no subscriptions; a list goes with one subscription per pin and
     * holds at least one handler.
     */
    predicate EdgeValid(edge: PinEdge)
      reads this
    {
      && |Subs(edge)| == |pins|
      && (Handlers(edge).None? ==> AllAre(Subs(edge), 0))
      && (Handlers(edge).Some? ==> AllAre(Subs(edge), 1) && |Handlers(edge).value| >= 1)
    }

    predicate Valid()
      reads this
    {
      EdgeValid(Rising) && EdgeValid(Falling)
    }

    constructor(pins: seq<int>)
      ensures Valid() && this.pins == pins && now == 0.0 && bounceDelay == DefaultBounceDelay
      ensures rising.None? && falling.None?
    {
      this.pins := pins;
      now := 0.0;
      bounceDelay := DefaultBounceDelay;
      rising := W.None;
      falling := W.None;
      risingSubs := seq(|pins|, _ => 0);
      fallingSubs := seq(|pins|, _ => 0);
    }

    /**
     * The group's edge handler: debounce an edge that is not yet bounced, then hand the
     * arguments to every handler of the edge in order.
     */
    method Fire(args: EdgeArgs, n: real) returns (r: W.Result<(EdgeArgs, seq<Handler>), GroupError>)
      modifies this
      ensures now == Debounce(old(now), bounceDelay, args.bounced, n).0
      ensures r.Ok? <==> Handlers(args.edge).Some?
      ensures r.Ok? ==> r.value == (args.(bounced := Debounce(old(now), bounceDelay, args.bounced, n).1), Handlers(args.edge).value)
      ensures bounceDelay == old(bounceDelay) && rising == old(rising) && falling == old(falling)
      ensures risingSubs == old(risingSubs) && fallingSubs == old(fallingSubs)
    {
      var a := args;
      if !a.bounced {
        var b := true;
        if n - now > bounceDelay {
          now := n;
          b := false;
        }
        a := a.(bounced := b);
      }
      var handlers := Handlers(a.edge);
      if handlers.None? {
        return W.Err(NullHandlerList);
      }
      r := W.Ok((a, handlers.value));
    }

    /** One more subscription of the group's handler on every pin, or one fewer. */
    method Resubscribe(edge: PinEdge, subscribe: bool)
      modifies this
      ensures Subs(edge) == if subscribe then Incremented(old(Subs(edge))) else Decremented(old(Subs(edge)))
      ensures Subs(Other(edge)) == old(Subs(Other(edge)))
      ensures rising == old(rising) && falling == old(falling) && now == old(now) && bounceDelay == old(bounceDelay)
    {
      var s := Subs(edge);
      var updated: seq<nat> := [];
      for i := 0 to |s|
        invariant |updated| == i
        invariant forall j :: 0 <= j < i ==> updated[j] == if subscribe then s[j] + 1 else if s[j] > 0 then s[j] - 1 else 0
      {
        updated := updated + [if subscribe then s[i] + 1 else if s[i] > 0 then s[i] - 1 else 0];
      }
      if edge == Rising {
        risingSubs := updated;
      } else {
        fallingSubs := updated;
      }
    }

    /** The first handler subscribes the group to every pin once; every add appends. */
    method AddHandler(edge: PinEdge, h: Handler)
      requires Valid()
      modifies this
      ensures Valid()
      ensures Handlers(edge) == W.Some((if old(Handlers(edge)).None? then [] else old(Handlers(edge)).value) + [h])
      ensures Subs(edge) == if old(Handlers(edge)).None? then Incremented(old(Subs(edge))) else old(Subs(edge))
      ensures Handlers(Other(edge)) == old(Handlers(Other(edge))) && Subs(Other(edge)) == old(Subs(Other(edge)))
      ensures now == old(now) && bounceDelay == old(bounceDelay)
    {
      var list := Handlers(edge);
      if list.None? {
        Resubscribe(edge, true);
        list := W.Some([]);
      }
      SetHandlers(edge, W.Some(list.value + [h]));
    }

    /**
     * Removing a handler takes its first copy out of the list; removing the last one
     * unsubscribes from every pin and nulls the list. A null list throws.
     */
    method RemoveHandler(edge: PinEdge, h: Handler) returns (r: W.Outcome<GroupError>)
      requires Valid()
      modifies this
      ensures Valid()
      ensures r.Fail? <==> old(Handlers(edge)).None?
      ensures r.Fail? ==> Handlers(edge) == old(Handlers(edge)) && Subs(edge) == old(Subs(edge))
      ensures r.Pass? && |RemoveFirst(old(Handlers(edge)).value, h)| >= 1 ==>
        Handlers(edge) == W.Some(RemoveFirst(old(Handlers(edge)).value, h)) && Subs(edge) == old(Subs(edge))
      ensures r.Pass? && |RemoveFirst(old(Handlers(edge)).value, h)| < 1 ==>
        Handlers(edge) == W.None && Subs(edge) == Decremented(old(Subs(edge)))
      ensures Handlers(Other(edge)) == old(Handlers(Other(edge))) && Subs(Other(edge)) == old(Subs(Other(edge)))
      ensures now == old(now) && bounceDelay == old(bounceDelay)
    {
      var list := Handlers(edge);
      if list.None? {
        return W.Fail(NullHandlerList);
      }
      var rest := RemoveFirst(list.value, h);
      if |rest| < 1 {
        Resubscribe(edge, false);
        SetHandlers(edge, W.None);
      } else {
        SetHandlers(edge, W.Some(rest));
      }
      r := W.Pass;
    }

    /** RemoveEvents unsubscribes and nulls every non-null list. */
    method RemoveEvents()
      requires Valid()
      modifies this
      ensures Valid() && rising.None? && falling.None?
      ensures AllAre(risingSubs, 0) && AllAre(fallingSubs, 0)
      ensures now == old(now) && bounceDelay == old(bounceDelay)
    {
      if rising.Some? {
        Resubscribe(Rising, false);
        rising := W.None;
      }
      if falling.Some? {
        Resubscribe(Falling, false);
        falling := W.None;
      }
    }

    method SetHandlers(edge: PinEdge, list: W.Option<seq<Handler>>)
      modifies this
      ensures Handlers(edge) == list && Handlers(Other(edge)) == old(Handlers(Other(edge)))
      ensures risingSubs == old(risingSubs) && fallingSubs == old(fallingSubs)
      ensures now == old(now) && bounceDelay == old(bounceDelay)
    {
      if edge == Rising {
        rising := list;
      } else {
        falling := list;
      }
    }
  }

  function Other(edge: PinEdge): (r: PinEdge)
    ensures r != edge
  {
    if edge == Rising then Falling else Rising
  }
}
