/**
 * The front end's command lists.  Each frame-data slot holds a singly linked
 * chain of command records from `cmdHead` to `cmdTail`; R_GetCommandBuffer
 * links a new record after the tail.  The chain is modelled as the sequence
 * of its records in link order, so the tail is the last element and a
 * record's `next` is the element after it.
 *
 * There are NUM_FRAME_DATA slots.  R_ToggleSmpFrame, which is not part of
 * this model's source files, is modelled by its effect on the lists: the
 * next slot becomes current and starts a fresh chain whose head is an RC_NOP
 * record.
 */
module FrameData {
  import opened Wrappers

  const NUM_FRAME_DATA: nat := 2

  datatype CommandId =
    | RC_NOP
    | RC_DRAW_VIEW_3D
    | RC_DRAW_VIEW_GUI
    | RC_SET_BUFFER
    | RC_COPY_RENDER
    | RC_POST_PROCESS
    | UnknownCommand(code: int)    // any other value in the commandId field

  /** One command record: its id and an opaque payload (view, buffer, ...). */
  datatype Command = Command(commandId: CommandId, payload: nat)

  /** The record every fresh chain starts with. */
  const HEAD_NOP: Command := Command(RC_NOP, 0)

  predicate IsDrawView(c: Command)
  {
    c.commandId == RC_DRAW_VIEW_3D || c.commandId == RC_DRAW_VIEW_GUI
  }

  /** Some record of the chain draws a view. */
  ghost predicate HasView(cmds: seq<Command>)
  {
    exists k :: 0 <= k < |cmds| && IsDrawView(cmds[k])
  }

  /**
   * RenderCommandBuffers: scans the chain for a draw-view record and, when
   * there is one and r_skipBackEnd is off, hands the whole chain to the back
   * end.  The result is the chain passed to ExecuteBackEndCommands, if any.
   */
  method RenderCommandBuffers(cmdHead: seq<Command>, skipBackEnd: bool) returns (executed: Option<seq<Command>>)
    ensures executed.Some? <==> HasView(cmdHead) && !skipBackEnd
    ensures executed.Some? ==> executed.value == cmdHead
  {
    var hasView := false;
    var i := 0;
    while i < |cmdHead|
      invariant 0 <= i <= |cmdHead|
      invariant hasView ==> HasView(cmdHead)
      invariant !hasView ==> forall k :: 0 <= k < i ==> !IsDrawView(cmdHead[k])
    {
      if IsDrawView(cmdHead[i]) {
        hasView := true;
        break;
      }
      i := i + 1;
    }
    if !hasView {
      return None;
    }
    if !skipBackEnd {
      executed := Some(cmdHead);
    } else {
      executed := None;
    }
  }

  /** Linking one record after the tail adds a view exactly when that record draws one. */
  lemma AppendHasView(cmds: seq<Command>, c: Command)
    ensures HasView(cmds + [c]) <==> HasView(cmds) || IsDrawView(c)
  {
    if HasView(cmds) {
      var k :| 0 <= k < |cmds| && IsDrawView(cmds[k]);
      assert (cmds + [c])[k] == cmds[k];
    }
    if IsDrawView(c) {
      assert (cmds + [c])[|cmds|] == c;
    }
    if HasView(cmds + [c]) && !IsDrawView(c) {
      var k :| 0 <= k < |cmds| + 1 && IsDrawView((cmds + [c])[k]);
      assert k < |cmds| && (cmds + [c])[k] == cmds[k];
    }
  }

  /** A fresh chain holds only its RC_NOP head, so rendering it does nothing. */
  lemma FreshChainHasNoView()
    ensures !HasView([HEAD_NOP])
  {
  }

  /**
   * The per-slot command chains and the index of the slot being built.
   */
  class FrameDataRing {
    var slots: seq<seq<Command>>
    var smpFrame: nat

    ghost predicate Valid()
      reads this
    {
      && |slots| == NUM_FRAME_DATA
      && forall s :: 0 <= s < |slots| ==> |slots[s]| >= 1 && slots[s][0] == HEAD_NOP
    }

    function Current(): nat
      reads this
    {
      smpFrame % NUM_FRAME_DATA
    }

    /** The chain from cmdHead of the slot being built. */
    function CmdHead(): (cmds: seq<Command>)
      reads this
      requires Valid()
      ensures |cmds| >= 1 && cmds[0] == HEAD_NOP
    {
      slots[Current()]
    }

    /** The record cmdTail points at. */
    function CmdTail(): Command
      reads this
      requires Valid()
    {
      CmdHead()[|CmdHead()| - 1]
    }

    /** R_InitFrameData: every slot starts as a fresh chain, slot 0 current. */
    constructor ()
      ensures Valid() && smpFrame == 0
      ensures forall s :: 0 <= s < NUM_FRAME_DATA ==> slots[s] == [HEAD_NOP]
    {
      slots := [[HEAD_NOP], [HEAD_NOP]];
      smpFrame := 0;
    }

    /**
     * R_InitFrameData, by its effect on the chains: every slot starts a fresh
     * chain and slot 0 is current.
     */
    method InitFrameData()
      modifies this
      ensures Valid() && smpFrame == 0 && CmdHead() == [HEAD_NOP]
      ensures forall s :: 0 <= s < NUM_FRAME_DATA ==> slots[s] == [HEAD_NOP]
    {
      slots := [[HEAD_NOP], [HEAD_NOP]];
      smpFrame := 0;
    }

    /**
     * R_GetCommandBuffer: links `c` after the current tail and makes it the
     * tail.  Earlier records and other slots are unchanged.
     */
    method GetCommandBuffer(c: Command)
      requires Valid()
      modifies this
      ensures Valid() && smpFrame == old(smpFrame)
      ensures CmdHead() == old(CmdHead()) + [c]
      ensures CmdTail() == c
      ensures forall s :: 0 <= s < NUM_FRAME_DATA && s != Current() ==> slots[s] == old(slots[s])
    {
      slots := slots[Current() := slots[Current()] + [c]];
    }

    /**
     * R_ToggleSmpFrame, by its effect on the chains: the next slot becomes
     * current and starts a fresh chain; the slot just left keeps its chain.
     */
    method ToggleSmpFrame()
      requires Valid()
      modifies this
      ensures Valid() && smpFrame == old(smpFrame) + 1
      ensures CmdHead() == [HEAD_NOP]
      ensures slots[old(Current())] == old(CmdHead())
    {
      smpFrame := smpFrame + 1;
      slots := slots[Current() := [HEAD_NOP]];
    }
  }

  /**
   * The chain closed off by a toggle is not touched by the records the next
   * frame links in: they go to the other slot.
   */
  method ClosedChainSurvivesNextFrame(ring: FrameDataRing, next: seq<Command>) returns (closed: seq<Command>)
    requires ring.Valid()
    modifies ring
    ensures ring.Valid()
    ensures closed == old(ring.CmdHead())
    ensures ring.slots[old(ring.Current())] == closed
    ensures ring.CmdHead() == [HEAD_NOP] + next
  {
    closed := ring.CmdHead();
    ring.ToggleSmpFrame();
    var i := 0;
    while i < |next|
      invariant 0 <= i <= |next|
      invariant ring.Valid() && ring.smpFrame == old(ring.smpFrame) + 1
      invariant ring.CmdHead() == [HEAD_NOP] + next[..i]
      invariant ring.slots[old(ring.Current())] == closed
    {
      ring.GetCommandBuffer(next[i]);
      assert next[..i + 1] == next[..i] + [next[i]];
      i := i + 1;
    }
    assert next[..|next|] == next;
  }
}
