/** The probing half of the single-server election: ask the group, and exit if anybody answers. */
module ServerMutex {
  import opened Bytes
  import opened CText
  import opened Registry

  const REPLY_SIZE := 19

  /** The replies that make a starting server exit. */
  ghost predicate Exits(reply: Option<seq<Byte>>) {
    reply.Some? && |reply.value| >= 18 && EqualFold(reply.value[..18], MUTEX_RSP)
  }

  lemma MutexTextsHaveNoTerminator()
    ensures NoTerminator(MUTEX_RSP) && |MUTEX_RSP| == 18 && |MUTEX_TAG| == 18
    ensures forall k | 0 <= k < 18 :: MUTEX_TAG[k] == "castspeaker server"[k] as int
    ensures forall k | 0 <= k < 18 :: MUTEX_RSP[k] == "hey, kill yourself"[k] as int
  {
  }

  /**
   `reply` is what arrives before the receive timeout, if anything does; at most 19 bytes of it
   are kept. `probe` is the datagram multicast first.
   */
  method CreateMutex(reply: Option<seq<Byte>>) returns (probe: seq<Byte>, exits: bool)
    ensures probe == MUTEX_TAG
    ensures exits <==> Exits(reply)
    ensures exits <==> reply.Some? && |reply.value| >= 18 && EqualFold(reply.value[..18], MUTEX_RSP)
  {
    MutexTextsHaveNoTerminator();
    var buf := new Byte[REPLY_SIZE](_ => 0);
    probe := MUTEX_TAG;
    var len := 0;
    if reply.Some? {
      len := if |reply.value| < REPLY_SIZE then |reply.value| else REPLY_SIZE;
      forall k | 0 <= k < len {
        buf[k] := reply.value[k];
      }
    }
    SameTextExact(buf[..], MUTEX_RSP);
    if len >= 18 {
      assert buf[..18] == reply.value[..18];
    } else {
      assert Lower(buf[..18][len]) != Lower(MUTEX_RSP[len]);
    }
    exits := len > 0 && SameText(buf[..], MUTEX_RSP, 18);
  }
}
