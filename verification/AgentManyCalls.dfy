/** Sessions with any number of exchanges, and what becomes of their request ids. */
module AgentManyCalls {
  import opened AgentInvariants
  import opened AgentProtocol
  import opened AgentSafety
  import opened ProcessEvents
  import opened Wrappers

  const WRAP := 0x1_0000_0000_0000_0000

  /** After `count` exchanges that were answered, one after the other. */
  ghost predicate Served(s: State, count: nat) {
    && s.slot == None && s.command && !s.closed && !s.started && s.wait == NotStarted
    && s.issued == count
    && (forall n | n in s.calls :: n < count)
    && |s.written| == count && (forall i | 0 <= i < count :: s.written[i] == i + 1)
  }

  lemma WalkTransport(s: State, k: nat, step: TransportStep) returns (s': State)
    requires Reachable(s) && TransportEnabled(s, k, step)
    ensures Reachable(s') && k in s'.transports && s'.transports[k] == Transport(s.transports[k].call, NextTransfer(s, k, step))
    ensures s'.calls == s.calls && s'.slot == s.slot && s'.issued == s.issued
    ensures s'.command == s.command && s'.started == s.started && s'.closed == s.closed && s'.wait == s.wait
    ensures s'.written == if step.Write? then s.written + [k] else s.written
  {
    Extend(s, TransportMoves(k, step));
    s' := TransportApply(s, k, step);
  }

  /** The call starts its transport with the next id. */
  lemma Started(s: State, count: nat) returns (s': State)
    requires Reachable(s) && Served(s, count)
    ensures Reachable(s') && s'.calls.Keys == s.calls.Keys + {count}
    ensures s'.calls[count] == Call(Exchange, Awaiting(count + 1)) && s'.slot == Some(count) && s'.issued == count + 1
    ensures count + 1 in s'.transports && s'.transports[count + 1] == Transport(count, Writing)
    ensures s'.command && !s'.closed && !s'.started && s'.wait == NotStarted && s'.written == s.written
  {
    hide Reachable;
    s' := Walk(s, count, Begin(Exchange));
    s' := Walk(s', count, Acquire);
    s' := Walk(s', count, Look);
    s' := Walk(s', count, Launch);
  }

  /** Its transport writes, flushes and reads the answer. */
  lemma Answered(s: State, k: nat) returns (s': State)
    requires Reachable(s) && k in s.transports && s.transports[k].transfer == Writing
    ensures Reachable(s') && k in s'.transports
    ensures s'.transports[k] == Transport(s.transports[k].call, Finished(Read(Envelope(WireID(k), true))))
    ensures s'.calls == s.calls && s'.slot == s.slot && s'.issued == s.issued
    ensures s'.command == s.command && s'.started == s.started && s'.closed == s.closed && s'.wait == s.wait
    ensures s'.written == s.written + [k]
  {
    hide Reachable;
    s' := WalkTransport(s, k, Write);
    s' := WalkTransport(s', k, Flush);
    s' := WalkTransport(s', k, ReadLine(Envelope(WireID(k), true)));
    s' := WalkTransport(s', k, FirstLine);
  }

  lemma ServedOnce(s: State, count: nat) returns (s': State)
    requires Reachable(s) && Served(s, count)
    ensures Reachable(s') && Served(s', count + 1)
  {
    hide Reachable, WireID;
    var s1 := Started(s, count);
    var s2 := Answered(s1, count + 1);
    var s3 := Walk(s2, count, Receive);
    s' := Walk(s3, count, Release);
  }

  /** Any number of exchanges can be answered. */
  lemma {:induction false} ServedAll(count: nat) returns (s: State)
    ensures Reachable(s) && Served(s, count)
  {
    hide Reachable;
    if count == 0 {
      s := OpenSession();
    } else {
      s := ServedAll(count - 1);
      s := ServedOnce(s, count - 1);
    }
  }

  /** In the order of their bytes on the wire, the ids of different requests increase. */
  ghost predicate IDsIncrease(s: State) {
    forall i, j | 0 <= i < j < |s.written| && s.written[i] != s.written[j] ::
      WireID(s.written[i]) < WireID(s.written[j])
  }

  /** The counter has 64 bits. In every reachable session whose requests all have bytes on the wire, the
      ids increase exactly while the counter has not wrapped. */
  lemma IncreaseUntilWrap(s: State)
    requires Reachable(s) && forall k: nat | 1 <= k <= s.issued :: k in s.written
    ensures IDsIncrease(s) <==> s.issued < WRAP
  {
    if s.issued < WRAP {
      forall i, j | 0 <= i < j < |s.written| && s.written[i] != s.written[j]
        ensures WireID(s.written[i]) < WireID(s.written[j])
      {
        WireIDsIncrease(s, i, j);
      }
    } else {
      ReachableInv(s);
      assert Wire(s);
      hide Inv;
      var i, j := InOrder(s.written, 1, WRAP);
      WrapAt(s.written[i], s.written[j]);
    }
  }

  /** In a list that never falls, a smaller element is before a greater one. */
  lemma InOrder(written: seq<nat>, earlier: nat, later: nat) returns (i: nat, j: nat)
    requires forall i, j | 0 <= i < j < |written| :: written[i] <= written[j]
    requires earlier < later && earlier in written && later in written
    ensures i < j < |written| && written[i] == earlier && written[j] == later
  {
    i :| 0 <= i < |written| && written[i] == earlier;
    j :| 0 <= j < |written| && written[j] == later;
  }

  lemma WrapAt(first: nat, last: nat)
    requires first == 1 && last == WRAP
    ensures WireID(first) == 1 && WireID(last) == 0
  {
  }

  /** Such a session is reachable for every number of requests. */
  lemma WrapIsReached(count: nat) returns (s: State)
    ensures Reachable(s) && s.issued == count && forall k: nat | 1 <= k <= count :: k in s.written
    ensures IDsIncrease(s) <==> count < WRAP
  {
    s := ServedAll(count);
    hide Reachable, WireID;
    forall k: nat | 1 <= k <= count ensures k in s.written {
      assert s.written[k - 1] == k;
    }
    IncreaseUntilWrap(s);
  }
}
