// The error messages collected in the global state (omxGlobal::bads): at most
// 101 are kept, and getBads renders them as one text.
module ErrorList {
  import opened Common

  /** Once this many messages are held, further ones are only logged. */
  const BADS_CAPACITY: nat := 101

  /** The rendered text stops growing once it is longer than 1 << 14 characters. */
  const RENDER_LIMIT: nat := 16384

  /** omxRaiseErrorf's effect on the list: a message is kept while fewer than 101 are held. */
  function Raise(bads: seq<string>, msg: string): seq<string>
  {
    if |bads| > 100 then bads else bads + [msg]
  }

  /** The list after raising each of msgs in turn, from an empty list. */
  function RaiseAll(msgs: seq<string>): seq<string>
  {
    if |msgs| == 0 then [] else Raise(RaiseAll(msgs[..|msgs| - 1]), msgs[|msgs| - 1])
  }

  /** Whatever is raised, the list holds exactly the first 101 messages. */
  lemma {:induction false} RaiseAllKeepsFirst(msgs: seq<string>)
    ensures |msgs| <= BADS_CAPACITY ==> RaiseAll(msgs) == msgs
    ensures |msgs| > BADS_CAPACITY ==> RaiseAll(msgs) == msgs[..BADS_CAPACITY]
  {
    if |msgs| > 0 {
      var p := msgs[..|msgs| - 1];
      RaiseAllKeepsFirst(p);
      if |p| <= BADS_CAPACITY {
        assert msgs == p + [msgs[|msgs| - 1]];
      } else {
        assert p[..BADS_CAPACITY] == msgs[..BADS_CAPACITY];
      }
    }
  }

  /** The text for message mx: "k:" (1-based) before it when there is more than one message. */
  function Piece(bads: seq<string>, mx: nat): string
    requires mx < |bads|
  {
    (if |bads| > 1 then NatToString(mx + 1) + ":" else "") + bads[mx]
  }

  /** The text of the first k messages, each followed by a newline unless it is the last message. */
  function Joined(bads: seq<string>, k: nat): string
    requires k <= |bads|
  {
    if k == 0 then "" else Joined(bads, k - 1) + Piece(bads, k - 1) + (if k - 1 < |bads| - 1 then "\n" else "")
  }

  /** The text once message k has been appended. */
  function UpTo(bads: seq<string>, k: nat): string
    requires k < |bads|
  {
    Joined(bads, k) + Piece(bads, k)
  }

  /** The first message from position k on whose appending makes the text longer than the limit, or |bads|. */
  function FirstOverflow(bads: seq<string>, k: nat): (j: nat)
    requires k <= |bads|
    ensures k <= j <= |bads|
    ensures j < |bads| ==> |UpTo(bads, j)| > RENDER_LIMIT
    ensures forall i :: k <= i < j ==> |UpTo(bads, i)| <= RENDER_LIMIT
    decreases |bads| - k
  {
    if k == |bads| then k
    else if |UpTo(bads, k)| > RENDER_LIMIT then k
    else FirstOverflow(bads, k + 1)
  }

  /** What getBads returns: null for no messages, otherwise the text up to the first overflow. */
  function Rendered(bads: seq<string>): Option<string>
  {
    if |bads| == 0 then None
    else
      var k := FirstOverflow(bads, 0);
      if k < |bads| then Some(UpTo(bads, k)) else Some(Joined(bads, |bads|))
  }

  lemma {:induction false} JoinedPrefix(bads: seq<string>, j: nat, k: nat)
    requires j <= k <= |bads|
    ensures Joined(bads, j) <= Joined(bads, k)
    decreases k
  {
    if j < k {
      JoinedPrefix(bads, j, k - 1);
    }
  }

  /** The rendered text is a prefix of the complete text, and is cut short only when it is already too long. */
  lemma RenderedIsPrefix(bads: seq<string>)
    requires |bads| > 0
    ensures Rendered(bads).Some?
    ensures Rendered(bads).value <= Joined(bads, |bads|)
    ensures Rendered(bads).value != Joined(bads, |bads|) ==> |Rendered(bads).value| > RENDER_LIMIT
  {
    var k := FirstOverflow(bads, 0);
    if k < |bads| {
      JoinedPrefix(bads, k + 1, |bads|);
      assert UpTo(bads, k) <= Joined(bads, k + 1);
    }
  }

  /** A text that fits is rendered completely. */
  lemma RenderedShortIsComplete(bads: seq<string>)
    requires |bads| > 0 && |Joined(bads, |bads|)| <= RENDER_LIMIT
    ensures Rendered(bads) == Some(Joined(bads, |bads|))
  {
    forall k | 0 <= k < |bads|
      ensures |UpTo(bads, k)| <= |Joined(bads, |bads|)|
    {
      JoinedPrefix(bads, k + 1, |bads|);
      assert UpTo(bads, k) <= Joined(bads, k + 1);
    }
  }

  /** A single message is returned as it is, without number or newline. */
  lemma RenderedSingle(bads: seq<string>)
    requires |bads| == 1
    ensures Rendered(bads) == Some(bads[0])
  {
    assert Piece(bads, 0) == bads[0];
    assert UpTo(bads, 0) == bads[0];
    assert Joined(bads, 1) == bads[0];
  }

  /** With several messages the text starts with the number of the first one. */
  lemma RenderedNumbered(bads: seq<string>)
    requires |bads| > 1
    ensures Rendered(bads).Some? && "1:" <= Rendered(bads).value
  {
    RenderedIsPrefix(bads);
    JoinedPrefix(bads, 1, |bads|);
    assert Joined(bads, 0) == "";
    assert NatToString(1) == "1";
    assert "1:" <= Joined(bads, 1);
    var k := FirstOverflow(bads, 0);
    if k < |bads| {
      JoinedPrefix(bads, 0, k);
      if k == 0 {
        assert UpTo(bads, 0) == Piece(bads, 0);
      } else {
        JoinedPrefix(bads, 1, k);
      }
    }
  }

  /** The error list of the global state. */
  class ErrorLog {
    var bads: seq<string>

    ghost predicate Valid()
      reads this
    {
      |bads| <= BADS_CAPACITY
    }

    constructor ()
      ensures bads == [] && Valid()
    {
      bads := [];
    }

    /** omxRaiseErrorf: keep the message unless more than 100 are held; report whether it overflowed. */
    method RaiseError(msg: string) returns (overflow: bool)
      requires Valid()
      modifies this
      ensures Valid()
      ensures overflow <==> |old(bads)| > 100
      ensures bads == Raise(old(bads), msg)
    {
      if |bads| > 100 {
        overflow := true;
      } else {
        overflow := false;
        bads := bads + [msg];
      }
    }

    /** getBads */
    method GetBads() returns (r: Option<string>)
      ensures r == Rendered(bads)
    {
      if |bads| == 0 {
        return None;
      }
      var str := "";
      var mx := 0;
      while mx < |bads|
        invariant 0 <= mx <= |bads|
        invariant str == Joined(bads, mx)
        invariant FirstOverflow(bads, 0) == FirstOverflow(bads, mx)
      {
        if |bads| > 1 {
          str := str + NatToString(mx + 1) + ":";
        }
        str := str + bads[mx];
        assert str == UpTo(bads, mx);
        if |str| > RENDER_LIMIT {
          return Some(str);
        }
        if mx < |bads| - 1 {
          str := str + "\n";
        }
        mx := mx + 1;
      }
      return Some(str);
    }
  }
}
