/** The control socket: recognise a client's frame and dispatch it by command name. */
module CommandControl {
  import opened Bytes
  import opened CText

  const CONTROL_BUFFER_SIZE := 4096

  /** `cntl` */
  const CNTL: seq<Byte> := [99, 110, 116, 108]
  /** `speakers` */
  const SPEAKERS: seq<Byte> := [115, 112, 101, 97, 107, 101, 114, 115]
  /** `pushwave` */
  const PUSHWAVE: seq<Byte> := [112, 117, 115, 104, 119, 97, 118, 101]
  const COMMANDS := [SPEAKERS, PUSHWAVE]

  /**
   `Called` carries the table index of the handler and what it is handed. `Undefined` stands for
   a scan that runs past the registered entries: the next entry has no name to compare with.
   */
  datatype Dispatch =
    | Rejected
    | Called(index: nat, arg: Option<seq<Byte>>, len: nat)
    | Undefined

  function FirstMatch(names: seq<seq<Byte>>, word: seq<Byte>, i: nat): (r: nat)
    requires i <= |names|
    ensures i <= r <= |names|
    decreases |names| - i
  {
    if i == |names| || SameText(word, names[i], 8) then i else FirstMatch(names, word, i + 1)
  }

  function DispatchOf(names: seq<seq<Byte>>, frame: seq<Byte>): Dispatch {
    if |frame| < 12 || frame[..4] != CNTL then Rejected
    else
      var i := FirstMatch(names, frame[4..12], 0);
      if i == |names| then Undefined
      else Called(i, if |frame| > 12 then Some(frame[12..]) else None, |frame| - 12)
  }

  // ---------------------------------------------------------------- the server side

  lemma WordIsEightBytes(text: seq<Byte>, name: seq<Byte>, k: nat)
    requires |text| >= 8
    ensures SameTextFrom(text, name, 8, k) == SameTextFrom(text[..8], name, 8, k)
    decreases 8 - k
  {
    if k < 8 {
      WordIsEightBytes(text, name, k + 1);
    }
  }

  /** The command interpreter; `buf` is larger than the `len` bytes received. */
  method CallCommand(buf: array<Byte>, len: nat) returns (d: Dispatch)
    requires 12 <= buf.Length && len <= buf.Length
    ensures d == DispatchOf(COMMANDS, buf[..len])
  {
    if buf[..4] != CNTL {
      return Rejected;
    }
    if len < 12 {
      return Rejected;
    }
    var cmd := buf[4..];
    ghost var word := buf[..len][4..12];
    assert cmd[..8] == word && buf[..len][..4] == buf[..4];
    var i := 0;
    while i < |COMMANDS|
      invariant 0 <= i <= |COMMANDS|
      invariant FirstMatch(COMMANDS, word, 0) == FirstMatch(COMMANDS, word, i)
    {
      WordIsEightBytes(cmd, COMMANDS[i], 0);
      if SameText(cmd, COMMANDS[i], 8) {
        return Called(i, if len > 12 then Some(buf[12..len]) else None, len - 12);
      }
      i := i + 1;
    }
    return Undefined;
  }

  class CommandServer {
    /** Received into in place, never cleared: behind a short frame sits an older one. */
    const socketBuffer: array<Byte>

    constructor ()
      ensures socketBuffer.Length == CONTROL_BUFFER_SIZE && fresh(socketBuffer)
    {
      socketBuffer := new Byte[CONTROL_BUFFER_SIZE](_ => 0);
    }

    /** One connection whose first receive delivers `data`. */
    method Serve(data: seq<Byte>) returns (d: Dispatch)
      requires socketBuffer.Length == CONTROL_BUFFER_SIZE && |data| <= CONTROL_BUFFER_SIZE
      modifies socketBuffer
      ensures socketBuffer[..] == data + old(socketBuffer[|data|..])
      ensures d == DispatchOf(COMMANDS, data)
    {
      forall k | 0 <= k < |data| {
        socketBuffer[k] := data[k];
      }
      if |data| == 0 {
        return Rejected;
      }
      assert socketBuffer[..|data|] == data;
      d := CallCommand(socketBuffer, |data|);
    }
  }

  // ---------------------------------------------------------------- frames

  /** What a client sends: header, command word, payload. */
  function Frame(word: seq<Byte>, payload: seq<Byte>): seq<Byte> {
    CNTL + word + payload
  }

  function ArgOf(payload: seq<Byte>): Option<seq<Byte>> {
    if payload == [] then None else Some(payload)
  }

  /** Eight-byte names, no two equal but for case. */
  ghost predicate Registered(names: seq<seq<Byte>>) {
    && (forall i | 0 <= i < |names| :: |names[i]| == 8 && NoTerminator(names[i]))
    && (forall i, j | 0 <= i < j < |names| :: !EqualFold(names[i], names[j]))
  }

  lemma CommandsRegistered()
    ensures Registered(COMMANDS)
  {
    assert Lower(SPEAKERS[0]) != Lower(PUSHWAVE[0]);
  }

  lemma {:induction false} FirstMatchExact(names: seq<seq<Byte>>, word: seq<Byte>, i: nat, j: nat)
    requires Registered(names) && |word| == 8 && i <= j < |names|
    ensures FirstMatch(names, word, i) == j
       <==> EqualFold(word, names[j]) && forall k | i <= k < j :: !EqualFold(word, names[k])
    decreases |names| - i
  {
    SameTextExact(word, names[i]);
    assert word[..8] == word;
    if i < j {
      FirstMatchExact(names, word, i + 1, j);
    }
  }

  lemma FoldTransitive(word: seq<Byte>, a: seq<Byte>, b: seq<Byte>)
    requires EqualFold(word, a) && EqualFold(word, b)
    ensures EqualFold(a, b)
  {
  }

  /**
   Dispatch inverts framing: the handler chosen is the one whose name the frame carries, whatever
   its case, and it is handed exactly the payload.
   */
  lemma FrameRoundTrip(names: seq<seq<Byte>>, word: seq<Byte>, payload: seq<Byte>, j: nat)
    requires Registered(names) && |word| == 8 && j < |names|
    ensures DispatchOf(names, Frame(word, payload)) == Called(j, ArgOf(payload), |payload|)
       <==> EqualFold(word, names[j])
  {
    var frame := Frame(word, payload);
    assert frame[..4] == CNTL && frame[4..12] == word && frame[12..] == payload;
    FirstMatchExact(names, word, 0, j);
    if EqualFold(word, names[j]) {
      forall k | 0 <= k < j
        ensures !EqualFold(word, names[k])
      {
        if EqualFold(word, names[k]) {
          FoldTransitive(word, names[k], names[j]);
        }
      }
    }
  }

  // ---------------------------------------------------------------- what is dispatched at all

  /** The words of the protocol, character by character. */
  ghost predicate Spells(bytes: seq<Byte>, text: string) {
    |bytes| == |text| && forall k | 0 <= k < |text| :: bytes[k] == text[k] as int
  }

  lemma ConstantsSpell()
    ensures Spells(CNTL, "cntl") && Spells(SPEAKERS, "speakers") && Spells(PUSHWAVE, "pushwave")
    ensures COMMANDS == [SPEAKERS, PUSHWAVE]
  {
  }

  lemma {:induction false} FirstMatchIsFirst(names: seq<seq<Byte>>, word: seq<Byte>, i: nat)
    requires Registered(names) && |word| == 8 && i <= |names|
    ensures var j := FirstMatch(names, word, i);
            && (j < |names| ==> EqualFold(word, names[j]))
            && forall k | i <= k < j :: !EqualFold(word, names[k])
    decreases |names| - i
  {
    if i < |names| {
      SameTextExact(word, names[i]);
      assert word[..8] == word;
      FirstMatchIsFirst(names, word, i + 1);
    }
  }

  /** Nothing is called unless twelve bytes came, and the first four of them spell `cntl`. */
  lemma RejectedExactly(names: seq<seq<Byte>>, frame: seq<Byte>)
    ensures DispatchOf(names, frame) == Rejected <==> |frame| < 12 || !Spells(frame[..4], "cntl")
  {
    ConstantsSpell();
    if |frame| >= 12 && Spells(frame[..4], "cntl") {
      assert frame[..4] == CNTL;
    }
  }

  /**
   The converse of the round trip: whatever is called was framed, under the name of the handler but
   for case, the first such name, and the handler gets the payload of that frame.
   */
  lemma CalledOnlyIfFramed(names: seq<seq<Byte>>, frame: seq<Byte>)
    requires Registered(names) && DispatchOf(names, frame).Called?
    ensures var d := DispatchOf(names, frame);
            && d.index < |names| && |frame| >= 12
            && var word, payload := frame[4..12], frame[12..];
               && Spells(frame[..4], "cntl") && frame == Frame(word, payload)
               && EqualFold(word, names[d.index]) && (forall k | 0 <= k < d.index :: !EqualFold(word, names[k]))
               && d.arg == ArgOf(payload) && d.len == |payload|
  {
    ConstantsSpell();
    FirstMatchIsFirst(names, frame[4..12], 0);
    assert frame == frame[..4] + frame[4..12] + frame[12..];
  }

  /** The rest are frames with an unregistered name. */
  lemma UndefinedExactly(names: seq<seq<Byte>>, frame: seq<Byte>)
    requires Registered(names)
    ensures DispatchOf(names, frame) == Undefined
       <==> && |frame| >= 12 && Spells(frame[..4], "cntl")
            && forall k | 0 <= k < |names| :: !EqualFold(frame[4..12], names[k])
  {
    RejectedExactly(names, frame);
    if |frame| >= 12 {
      FirstMatchIsFirst(names, frame[4..12], 0);
    }
  }
}
