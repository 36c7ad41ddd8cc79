/**
 * The throw history the main window keeps: the current and the previous
 * throw lists, divine contexts and player positions, and the lock flag; the
 * edits the user and the clipboard make to them; and what is handed to the
 * calculator after every edit.
 */
module ThrowHistory {
  import opened Wrappers
  import RealMath
  import EyeThrow
  import Observations
  import opened Stronghold

  type Observation = Observations.Observation

  /** MAX_THROWS: the most throws the list holds. */
  const MaxThrows: nat := 10

  /** The history fields: the current state and the one an undo goes back to. */
  datatype History = History(
    throws: seq<Observation>,
    throwsLast: seq<Observation>,
    divine: Option<DivineContext>,
    divineLast: Option<DivineContext>,
    playerPos: Option<Observation>,
    playerPosLast: Option<Observation>,
    locked: bool)

  /** What a history edit last handed the calculator. */
  datatype Request =
    | NoRequest
    | Divine(fossil: Fossil)
    | Triangulate(eyeThrows: seq<Observation>, divineContext: Option<DivineContext>, position: Option<Observation>)
    | Blind(t: EyeThrow.Throw, context: Option<DivineContext>)

  /**
   * The clipboard readers and the global setting the parsers use:
   * Double.parseDouble, the crosshair correction, Fossil.parseF3I and the
   * DivineContext constructor.
   */
  datatype Readers = Readers(
    parseDouble: string -> Option<real>,
    crosshair: real,
    parseF3I: string -> Option<Fossil>,
    divineContextOf: Fossil -> DivineContext)

  /** The new history after a clipboard update, and the request made, if one was. */
  datatype Step = Step(next: History, request: Option<Request>)

  /** Both lists stay within MAX_THROWS and hold only well-formed observations. */
  ghost predicate Valid(h: History) {
    && |h.throws| <= MaxThrows && |h.throwsLast| <= MaxThrows
    && AllValid(h.throws) && AllValid(h.throwsLast)
  }

  ghost predicate AllValid(s: seq<Observation>) {
    forall k :: 0 <= k < |s| ==> s[k].Valid()
  }

  /** The part of the history an undo brings back. */
  function Current(h: History): (seq<Observation>, Option<DivineContext>, Option<Observation>) {
    (h.throws, h.divine, h.playerPos)
  }

  /** The history of a freshly opened window. */
  function Initial(): History {
    History([], [], None, None, None, None, false)
  }

  // ---------------------------------------------------------------------------
  // The edits, on values

  /** saveThrowsForUndo: the previous slots become copies of the current ones. */
  function Saved(h: History): History {
    h.(throwsLast := h.throws, divineLast := h.divine, playerPosLast := h.playerPos)
  }

  /** undo: the current and the previous slots trade places, and the target is unlocked. */
  function Undone(h: History): History {
    History(h.throwsLast, h.throws, h.divineLast, h.divine, h.playerPosLast, h.playerPos, false)
  }

  /** resetThrows: with throws or a divine context, move them all into the previous slots. */
  function Reset(h: History): History {
    if |h.throws| > 0 || h.divine.Some? then
      History([], h.throws, None, h.divine, None, h.playerPos, false)
    else h
  }

  /** The list without the first occurrence of x. */
  function RemoveFirst(s: seq<Observation>, x: Observation): (r: seq<Observation>)
    ensures x in s ==> |r| == |s| - 1 && multiset(r) == multiset(s) - multiset{x}
    ensures x !in s ==> r == s
  {
    if s == [] then []
    else if s[0] == x then
      assert s == [s[0]] + s[1..];
      s[1..]
    else
      assert s == [s[0]] + s[1..];
      [s[0]] + RemoveFirst(s[1..], x)
  }

  /** removeThrow: when t is in the list, save for undo and remove it. */
  function WithoutThrow(h: History, t: Observation): History {
    if t in h.throws then Saved(h).(throws := RemoveFirst(h.throws, t)) else h
  }

  /** removeDivineContext: when there is one, save for undo and drop it. */
  function WithoutDivineContext(h: History): History {
    if h.divine.Some? then Saved(h).(divine := None) else h
  }

  /** toggleTargetLocked: unless the main text area is idle, flip the lock. */
  function WithLockToggled(h: History, idle: bool): History {
    if idle then h else h.(locked := !h.locked)
  }

  /** updateWithNewThrow: save for undo, put t at index or after the last throw, and stand at t. */
  function WithNewThrow(h: History, t: Observation, index: nat): History {
    var s := Saved(h);
    s.(throws := if index < |h.throws| then h.throws[index := t] else h.throws + [t], playerPos := Some(t))
  }

  /** updateWithNewPlayerPos: save for undo and stand at t. */
  function WithNewPlayerPos(h: History, t: Observation): History {
    Saved(h).(playerPos := Some(t))
  }

  /** The list with its last throw replaced by t. */
  function ReplaceLast(s: seq<Observation>, t: Observation): seq<Observation>
    requires s != []
  {
    s[..|s| - 1] + [t]
  }

  /** changeLastAngle: outside calibration, rebuild the last throw with the correction added. */
  function WithLastAngleChanged(e: RealMath.Elementary, h: History, delta: real, calibrating: bool): History {
    if calibrating || h.throws == [] then h
    else
      var last := h.throws[|h.throws| - 1];
      Saved(h).(throws := ReplaceLast(h.throws, last.WithAddedCorrection(e, delta)))
  }

  /** toggleLastSTD: outside calibration, rebuild the last throw with the other deviation. */
  function WithLastStdToggled(e: RealMath.Elementary, h: History, calibrating: bool): History {
    if calibrating || h.throws == [] then h
    else
      var last := h.throws[|h.throws| - 1];
      Saved(h).(throws := ReplaceLast(h.throws, last.WithToggledStd(e)))
  }

  // ---------------------------------------------------------------------------
  // Where a clipboard throw goes

  /**
   * A listed observation a new throw t can be merged into: a below-horizon
   * throw which, taken as the position t was measured from, gives a valid
   * offset throw.
   */
  predicate Replaceable(e: RealMath.Elementary, ob: Observation, t: EyeThrow.Throw) {
    match ob
    case Plain(p) => p.LookingBelowHorizon() && Observations.OffsetOf(e, p, t).o.IsValid()
    case Shifted(_) => false
  }

  /** The first index from j on whose observation t can be merged into, or |s| if none. */
  function FirstReplaceable(e: RealMath.Elementary, s: seq<Observation>, t: EyeThrow.Throw, j: nat): (k: nat)
    requires j <= |s|
    ensures j <= k <= |s|
    ensures k < |s| ==> Replaceable(e, s[k], t)
    ensures forall m :: j <= m < k ==> !Replaceable(e, s[m], t)
    decreases |s| - j
  {
    if j == |s| || Replaceable(e, s[j], t) then j else FirstReplaceable(e, s, t, j + 1)
  }

  /**
   * The slot and the observation processClipboardUpdate hands on: the first
   * below-horizon throw the new throw merges into, as an offset throw, or a
   * fresh slot after the list for the throw itself.
   */
  function OffsetSlot(e: RealMath.Elementary, s: seq<Observation>, t: EyeThrow.Throw): (r: (nat, Observation))
    ensures r.0 <= |s|
    ensures r.0 < |s| ==> s[r.0].Plain? && Replaceable(e, s[r.0], t) && r.1 == Observations.OffsetOf(e, s[r.0].t, t)
    ensures r.0 == |s| ==> r.1 == Observations.Plain(t)
    ensures r.0 < |s| ==> forall m :: 0 <= m < r.0 ==> !Replaceable(e, s[m], t)
    ensures t.LookingBelowHorizon() ==> r.0 == |s|
    ensures !t.LookingBelowHorizon() && r.0 == |s| ==> forall m :: 0 <= m < |s| ==> !Replaceable(e, s[m], t)
  {
    if t.LookingBelowHorizon() then (|s|, Observations.Plain(t))
    else
      var k := FirstReplaceable(e, s, t, 0);
      if k < |s| then (k, Observations.OffsetOf(e, s[k].t, t)) else (k, Observations.Plain(t))
  }

  /** A step that recomputes the result for its new history. */
  function Changed(h: History): Step {
    Step(h, Some(RequestFor(h)))
  }

  /**
   * processClipboardUpdate: a nether throw only moves the player (or, with no
   * throws, asks for a blind result); a locked target with throws only moves
   * the player; otherwise a throw is merged or appended while there is room.
   * A clipboard that is not a throw may carry a fossil for a new divine
   * context. During calibration the history is left alone.
   */
  function AfterClipboard(e: RealMath.Elementary, h: History, clipboard: string, calibrating: bool, rd: Readers): Step {
    var parsed := EyeThrow.ParseF3C(clipboard, rd.parseDouble, rd.crosshair);
    var i := |h.throws|;
    if calibrating then Step(h, None)
    else if parsed.Some? then
      var t := parsed.value;
      if t.nether then
        if i > 0 then Changed(WithNewPlayerPos(h, Observations.Plain(t))) else Step(h, Some(Blind(t, h.divine)))
      else if i > 0 && h.locked then Changed(WithNewPlayerPos(h, Observations.Plain(t)))
      else if i < MaxThrows then
        var slot := OffsetSlot(e, h.throws, t);
        Changed(WithNewThrow(h, slot.1, slot.0))
      else Step(h, None)
    else
      match rd.parseF3I(clipboard)
      case Some(f) => Changed(Saved(h).(divine := Some(rd.divineContextOf(f))))
      case None => Step(h, None)
  }

  // ---------------------------------------------------------------------------
  // What the calculator is given

  /** The longest prefix of the throws holding no below-horizon throw. */
  function CompleteThrows(s: seq<Observation>): (r: seq<Observation>)
    ensures r <= s
    ensures forall k :: 0 <= k < |r| ==> !r[k].LookingBelowHorizon()
    ensures |r| < |s| ==> s[|r|].LookingBelowHorizon()
  {
    if s == [] || s[0].LookingBelowHorizon() then []
    else [s[0]] + CompleteThrows(s[1..])
  }

  /**
   * onThrowsUpdated: triangulate the complete throws when there are any;
   * with none and a divine context, ask for the divine result alone.
   */
  function RequestFor(h: History): (r: Request)
    ensures r.Triangulate? <==> CompleteThrows(h.throws) != []
    ensures r.Triangulate? ==> r.eyeThrows == CompleteThrows(h.throws) && r.divineContext == h.divine && r.position == h.playerPos
    ensures r.Divine? <==> CompleteThrows(h.throws) == [] && h.divine.Some?
    ensures r.Divine? ==> r.fossil == h.divine.value.fossil
  {
    var complete := CompleteThrows(h.throws);
    if |complete| == 0 && h.divine.Some? then Divine(h.divine.value.fossil)
    else if |complete| >= 1 then Triangulate(complete, h.divine, h.playerPos)
    else NoRequest
  }

  /**
   * Any prefix free of below-horizon throws that stops at the end or at a
   * below-horizon throw is the complete prefix: the complete throws are the
   * longest such prefix.
   */
  lemma CompleteThrowsLongest(s: seq<Observation>, k: nat)
    requires k <= |s|
    requires forall m :: 0 <= m < k ==> !s[m].LookingBelowHorizon()
    requires k == |s| || s[k].LookingBelowHorizon()
    ensures CompleteThrows(s) == s[..k]
  {
  }

  // ---------------------------------------------------------------------------
  // Properties of the edits

  /** Two undos in a row give back the history, unlocked. */
  lemma UndoTwice(h: History)
    ensures Undone(Undone(h)) == h.(locked := false)
  {
  }

  /**
   * Toggling the lock touches nothing an undo brings back and keeps the
   * history valid; outside the idle screen it flips the lock, and a second
   * toggle restores the history.
   */
  lemma LockToggles(h: History, idle: bool)
    ensures var n := WithLockToggled(h, idle);
      && Current(n) == Current(h) && n.throwsLast == h.throwsLast
      && n.divineLast == h.divineLast && n.playerPosLast == h.playerPosLast
      && (Valid(n) <==> Valid(h))
      && (idle ==> n == h) && (!idle ==> n.locked == !h.locked)
      && WithLockToggled(n, idle) == h
  {
  }

  /** An undo after a reset that did something brings back the throws, the context and the position. */
  lemma ResetThenUndo(h: History)
    ensures |h.throws| > 0 || h.divine.Some? ==>
      Current(Undone(Reset(h))) == Current(h) && Undone(Reset(h)).throwsLast == []
    ensures !(|h.throws| > 0 || h.divine.Some?) ==> Reset(h) == h
  {
  }

  /** Every edit that changes the history saves first, so an undo after it brings the current state back. */
  lemma UndoRevertsEdits(e: RealMath.Elementary, h: History, t: Observation, index: nat, delta: real, calibrating: bool)
    ensures Current(Undone(WithNewThrow(h, t, index))) == Current(h)
    ensures Current(Undone(WithNewPlayerPos(h, t))) == Current(h)
    ensures WithoutThrow(h, t) == h || Current(Undone(WithoutThrow(h, t))) == Current(h)
    ensures WithoutDivineContext(h) == h || Current(Undone(WithoutDivineContext(h))) == Current(h)
    ensures WithLastAngleChanged(e, h, delta, calibrating) == h || Current(Undone(WithLastAngleChanged(e, h, delta, calibrating))) == Current(h)
    ensures WithLastStdToggled(e, h, calibrating) == h || Current(Undone(WithLastStdToggled(e, h, calibrating))) == Current(h)
  {
  }

  /** The same for a clipboard update: either nothing changes or an undo reverts it. */
  lemma UndoRevertsClipboard(e: RealMath.Elementary, h: History, clipboard: string, calibrating: bool, rd: Readers)
    ensures var n := AfterClipboard(e, h, clipboard, calibrating, rd).next;
      n == h || Current(Undone(n)) == Current(h)
  {
  }

  /** removeThrow removes the first occurrence and nothing else. */
  lemma {:induction false} RemoveFirstAt(s: seq<Observation>, x: Observation, k: nat)
    requires k < |s| && s[k] == x && x !in s[..k]
    ensures RemoveFirst(s, x) == s[..k] + s[k + 1..]
  {
    if k == 0 {
      assert s[..0] + s[1..] == s[1..];
    } else {
      AbsentFromTail(s, x, k);
      RemoveFirstAt(s[1..], x, k - 1);
      SplitPastHead(s, k);
    }
  }

  /** x is absent from a prefix exactly when it is neither its head nor in the rest of it. */
  lemma AbsentFromTail(s: seq<Observation>, x: Observation, k: nat)
    requires 0 < k <= |s| && x !in s[..k]
    ensures s[0] != x && x !in s[1..][..k - 1]
  {
    assert s[..k] == [s[0]] + s[1..][..k - 1];
  }

  /** Cutting out index k is keeping the head and cutting index k - 1 out of the tail. */
  lemma SplitPastHead(s: seq<Observation>, k: nat)
    requires 0 < k < |s|
    ensures s[..k] + s[k + 1..] == [s[0]] + (s[1..][..k - 1] + s[1..][k..])
  {
    assert s[..k] == [s[0]] + s[1..][..k - 1];
    assert s[k + 1..] == s[1..][k..];
  }

  /** updateWithNewThrow puts t at index, or after the last throw, and moves the player to it. */
  lemma NewThrowPlacement(h: History, t: Observation, index: nat)
    ensures var n := WithNewThrow(h, t, index);
      && n.playerPos == Some(t)
      && (index < |h.throws| ==>
            && |n.throws| == |h.throws| && n.throws[index] == t
            && forall m :: 0 <= m < |h.throws| && m != index ==> n.throws[m] == h.throws[m])
      && (index >= |h.throws| ==> n.throws == h.throws + [t])
      && n.divine == h.divine && n.locked == h.locked
  {
  }

  /**
   * changeLastAngle and toggleLastSTD keep the length and every throw but
   * the last, which is rebuilt from the old last one.
   */
  lemma LastThrowEdits(e: RealMath.Elementary, h: History, delta: real)
    requires h.throws != []
    ensures var n := WithLastAngleChanged(e, h, delta, false);
      var last := h.throws[|h.throws| - 1];
      && |n.throws| == |h.throws|
      && n.throws[..|h.throws| - 1] == h.throws[..|h.throws| - 1]
      && n.throws[|h.throws| - 1] == last.WithAddedCorrection(e, delta)
    ensures var n := WithLastStdToggled(e, h, false);
      var last := h.throws[|h.throws| - 1];
      && |n.throws| == |h.throws|
      && n.throws[..|h.throws| - 1] == h.throws[..|h.throws| - 1]
      && n.throws[|h.throws| - 1] == last.WithToggledStd(e)
  {
    var k := |h.throws| - 1;
    assert ReplaceLast(h.throws, h.throws[k].WithAddedCorrection(e, delta))[..k] == h.throws[..k];
    assert ReplaceLast(h.throws, h.throws[k].WithToggledStd(e))[..k] == h.throws[..k];
  }

  /** With a locked target and throws listed, a clipboard throw only moves the player. */
  lemma LockedOnlyMovesPlayer(e: RealMath.Elementary, h: History, clipboard: string, rd: Readers)
    requires h.locked && h.throws != []
    requires EyeThrow.ParseF3C(clipboard, rd.parseDouble, rd.crosshair).Some?
    ensures var n := AfterClipboard(e, h, clipboard, false, rd).next;
      var t := EyeThrow.ParseF3C(clipboard, rd.parseDouble, rd.crosshair).value;
      n.throws == h.throws && n.divine == h.divine && n.locked
      && n.playerPos == Some(Observations.Plain(t))
  {
  }

  /**
   * A clipboard update lengthens the list by at most one throw, and only when
   * it holds fewer than MAX_THROWS; otherwise the length stays.
   */
  lemma ClipboardGrowth(e: RealMath.Elementary, h: History, clipboard: string, calibrating: bool, rd: Readers)
    ensures var n := AfterClipboard(e, h, clipboard, calibrating, rd).next;
      || |n.throws| == |h.throws|
      || (|h.throws| < MaxThrows && |n.throws| == |h.throws| + 1 && n.throws[..|h.throws|] == h.throws)
  {
    var n := AfterClipboard(e, h, clipboard, calibrating, rd).next;
    if |n.throws| != |h.throws| {
      assert n.throws == h.throws + [n.throws[|h.throws|]];
    }
  }

  /** Every edit keeps both lists within MAX_THROWS and their observations well-formed. */
  lemma EditsKeepValid(e: RealMath.Elementary, h: History, t: Observation, delta: real, calibrating: bool)
    requires Valid(h) && t.Valid()
    ensures Valid(Saved(h)) && Valid(Undone(h)) && Valid(Reset(h))
    ensures Valid(WithoutThrow(h, t)) && Valid(WithoutDivineContext(h))
    ensures Valid(WithNewPlayerPos(h, t))
    ensures Valid(WithLastAngleChanged(e, h, delta, calibrating))
    ensures Valid(WithLastStdToggled(e, h, calibrating))
  {
    if t in h.throws {
      RemovedStayValid(h.throws, t);
    }
    LastEditsKeepValid(e, h, delta, calibrating);
  }

  /** Rebuilding the last throw keeps both lists within MAX_THROWS and well-formed. */
  lemma LastEditsKeepValid(e: RealMath.Elementary, h: History, delta: real, calibrating: bool)
    requires Valid(h)
    ensures Valid(WithLastAngleChanged(e, h, delta, calibrating))
    ensures Valid(WithLastStdToggled(e, h, calibrating))
  {
    if !calibrating && h.throws != [] {
      var k := |h.throws| - 1;
      ReplacedStayValid(h.throws, h.throws[k].WithAddedCorrection(e, delta));
      ReplacedStayValid(h.throws, h.throws[k].WithToggledStd(e));
    }
  }

  lemma RemovedStayValid(s: seq<Observation>, x: Observation)
    requires AllValid(s)
    ensures AllValid(RemoveFirst(s, x))
  {
    var r := RemoveFirst(s, x);
    forall k | 0 <= k < |r|
      ensures r[k].Valid()
    {
      assert r[k] in multiset(r);
      assert r[k] in multiset(s);
    }
  }

  lemma ReplacedStayValid(s: seq<Observation>, t: Observation)
    requires s != [] && AllValid(s) && t.Valid()
    ensures AllValid(ReplaceLast(s, t)) && |ReplaceLast(s, t)| == |s|
  {
    var r := ReplaceLast(s, t);
    forall k | 0 <= k < |r|
      ensures r[k].Valid()
    {
      if k < |s| - 1 {
        assert r[k] == s[k];
      }
    }
  }

  /**
   * A clipboard update keeps both lists within MAX_THROWS: a throw is appended
   * only while there is room, and otherwise merged into a listed slot.
   */
  lemma ClipboardKeepsValid(e: RealMath.Elementary, h: History, clipboard: string, calibrating: bool, rd: Readers)
    requires Valid(h)
    ensures Valid(AfterClipboard(e, h, clipboard, calibrating, rd).next)
  {
    var parsed := EyeThrow.ParseF3C(clipboard, rd.parseDouble, rd.crosshair);
    if !calibrating && parsed.Some? && !parsed.value.nether && !(|h.throws| > 0 && h.locked) && |h.throws| < MaxThrows {
      var t := parsed.value;
      var slot := OffsetSlot(e, h.throws, t);
      if slot.0 < |h.throws| {
        var ob := Observations.OffsetOf(e, h.throws[slot.0].t, t);
        assert ob.Valid();
        var n := h.throws[slot.0 := ob];
        forall k | 0 <= k < |n|
          ensures n[k].Valid()
        {
          if k != slot.0 {
            assert n[k] == h.throws[k];
          }
        }
      } else {
        var n := h.throws + [Observations.Plain(t)];
        forall k | 0 <= k < |n|
          ensures n[k].Valid()
        {
          if k < |h.throws| {
            assert n[k] == h.throws[k];
          }
        }
      }
    }
  }

  // ---------------------------------------------------------------------------
  // The window's history

  /** The history fields of the main window and the request its last update made. */
  class Gui {
    var eyeThrows: seq<Observation>
    var eyeThrowsLast: seq<Observation>
    var divineContext: Option<DivineContext>
    var divineContextLast: Option<DivineContext>
    var playerPos: Option<Observation>
    var playerPosLast: Option<Observation>
    var targetLocked: bool
    var request: Request

    function State(): History
      reads this
    {
      History(eyeThrows, eyeThrowsLast, divineContext, divineContextLast, playerPos, playerPosLast, targetLocked)
    }

    /** A new window: no throws, nothing to undo, nothing locked. */
    constructor ()
      ensures State() == Initial() && Valid(State())
      ensures request == NoRequest
    {
      eyeThrows := [];
      eyeThrowsLast := [];
      divineContext := None;
      divineContextLast := None;
      playerPos := None;
      playerPosLast := None;
      targetLocked := false;
      request := NoRequest;
    }

    /** The for/break loop of onThrowsUpdated: copy throws until the first below-horizon one. */
    method CompleteEyeThrows() returns (r: seq<Observation>)
      ensures r == CompleteThrows(eyeThrows)
    {
      r := [];
      var k := 0;
      while k < |eyeThrows|
        invariant 0 <= k <= |eyeThrows|
        invariant r == eyeThrows[..k]
        invariant forall m :: 0 <= m < k ==> !eyeThrows[m].LookingBelowHorizon()
      {
        if eyeThrows[k].LookingBelowHorizon() {
          break;
        }
        r := r + [eyeThrows[k]];
        k := k + 1;
      }
      CompleteThrowsLongest(eyeThrows, k);
    }

    /** onThrowsUpdated: hand the complete throws, or the fossil alone, to the calculator. */
    method OnThrowsUpdated()
      modifies this
      ensures State() == old(State())
      ensures request == RequestFor(State())
    {
      var complete := CompleteEyeThrows();
      if |complete| == 0 && divineContext.Some? {
        request := Divine(divineContext.value.fossil);
      } else if |complete| >= 1 {
        request := Triangulate(complete, divineContext, playerPos);
      } else {
        request := NoRequest;
      }
    }

    /** saveThrowsForUndo: copy the current slots into the previous ones. */
    method SaveThrowsForUndo()
      modifies this
      ensures State() == Saved(old(State()))
      ensures request == old(request)
    {
      eyeThrowsLast := [];
      eyeThrowsLast := eyeThrowsLast + eyeThrows;
      divineContextLast := divineContext;
      playerPosLast := playerPos;
    }

    /** resetThrows: move everything current into the previous slots, then recompute. */
    method ResetThrows()
      modifies this
      ensures State() == Reset(old(State()))
      ensures request == RequestFor(State())
    {
      if |eyeThrows| > 0 || divineContext.Some? {
        var temp := eyeThrowsLast;
        eyeThrowsLast := eyeThrows;
        eyeThrows := temp;
        eyeThrows := [];
        divineContextLast := divineContext;
        divineContext := None;
        playerPosLast := playerPos;
        playerPos := None;
        targetLocked := false;
      }
      OnThrowsUpdated();
    }

    /** undo: unlock, swap the current and the previous slots, then recompute. */
    method Undo()
      modifies this
      ensures State() == Undone(old(State()))
      ensures request == RequestFor(State())
    {
      targetLocked := false;
      eyeThrows, eyeThrowsLast := eyeThrowsLast, eyeThrows;
      divineContext, divineContextLast := divineContextLast, divineContext;
      playerPos, playerPosLast := playerPosLast, playerPos;
      OnThrowsUpdated();
    }

    /** removeThrow: when t is listed, save for undo, remove it and recompute. */
    method RemoveThrow(t: Observation)
      modifies this
      ensures State() == WithoutThrow(old(State()), t)
      ensures t in old(eyeThrows) ==> request == RequestFor(State())
      ensures t !in old(eyeThrows) ==> request == old(request)
    {
      if t in eyeThrows {
        SaveThrowsForUndo();
        eyeThrows := RemoveFirst(eyeThrows, t);
        OnThrowsUpdated();
      }
    }

    /** removeDivineContext: when there is one, save for undo, drop it and recompute. */
    method RemoveDivineContext()
      modifies this
      ensures State() == WithoutDivineContext(old(State()))
      ensures old(divineContext).Some? ==> request == RequestFor(State())
      ensures old(divineContext).None? ==> request == old(request)
    {
      if divineContext.Some? {
        SaveThrowsForUndo();
        divineContext := None;
        OnThrowsUpdated();
      }
    }

    /** toggleTargetLocked: unless the main text area is idle, flip the lock; no request is made. */
    method ToggleTargetLocked(idle: bool)
      modifies this
      ensures State() == WithLockToggled(old(State()), idle)
      ensures request == old(request)
    {
      if !idle {
        targetLocked := !targetLocked;
      }
    }

    /** updateWithNewThrow: save for undo, set or append t, stand at t and recompute. */
    method UpdateWithNewThrow(t: Observation, index: nat)
      modifies this
      ensures State() == WithNewThrow(old(State()), t, index)
      ensures request == RequestFor(State())
    {
      SaveThrowsForUndo();
      if index < |eyeThrows| {
        eyeThrows := eyeThrows[index := t];
      } else {
        eyeThrows := eyeThrows + [t];
      }
      playerPos := Some(t);
      OnThrowsUpdated();
    }

    /** updateWithNewPlayerPos: save for undo, stand at t and recompute. */
    method UpdateWithNewPlayerPos(t: Observation)
      modifies this
      ensures State() == WithNewPlayerPos(old(State()), t)
      ensures request == RequestFor(State())
    {
      SaveThrowsForUndo();
      playerPos := Some(t);
      OnThrowsUpdated();
    }

    /** changeLastAngle: outside calibration and with a throw listed, rebuild the last throw corrected. */
    method ChangeLastAngle(e: RealMath.Elementary, delta: real, calibrating: bool)
      modifies this
      ensures State() == WithLastAngleChanged(e, old(State()), delta, calibrating)
      ensures !calibrating && old(eyeThrows) != [] ==> request == RequestFor(State())
      ensures calibrating || old(eyeThrows) == [] ==> request == old(request)
    {
      if !calibrating {
        var i := |eyeThrows| - 1;
        if i == -1 {
          return;
        }
        ghost var h0 := State();
        var last := eyeThrows[i];
        var t := last.WithAddedCorrection(e, delta);
        SaveThrowsForUndo();
        assert State() == Saved(h0);
        eyeThrows := eyeThrows[..i];
        eyeThrows := eyeThrows + [t];
        assert State() == Saved(h0).(throws := ReplaceLast(h0.throws, t));
        OnThrowsUpdated();
      }
    }

    /** toggleLastSTD: outside calibration and with a throw listed, rebuild the last throw toggled. */
    method ToggleLastStd(e: RealMath.Elementary, calibrating: bool)
      modifies this
      ensures State() == WithLastStdToggled(e, old(State()), calibrating)
      ensures !calibrating && old(eyeThrows) != [] ==> request == RequestFor(State())
      ensures calibrating || old(eyeThrows) == [] ==> request == old(request)
    {
      if !calibrating {
        var i := |eyeThrows| - 1;
        if i == -1 {
          return;
        }
        ghost var h0 := State();
        var last := eyeThrows[i];
        var t := last.WithToggledStd(e);
        SaveThrowsForUndo();
        assert State() == Saved(h0);
        eyeThrows := eyeThrows[..i];
        eyeThrows := eyeThrows + [t];
        assert State() == Saved(h0).(throws := ReplaceLast(h0.throws, t));
        OnThrowsUpdated();
      }
    }

    /**
     * The merging loop of processClipboardUpdate: the first below-horizon
     * throw the new throw t merges into, or a fresh slot after the list.
     */
    method FindOffsetSlot(e: RealMath.Elementary, t: EyeThrow.Throw) returns (i: nat, t2: Observation)
      ensures (i, t2) == OffsetSlot(e, eyeThrows, t)
    {
      i := |eyeThrows|;
      t2 := Observations.Plain(t);
      if !t.LookingBelowHorizon() {
        var j := 0;
        while j < |eyeThrows|
          invariant 0 <= j <= |eyeThrows|
          invariant i == |eyeThrows| && t2 == Observations.Plain(t)
          invariant FirstReplaceable(e, eyeThrows, t, 0) == FirstReplaceable(e, eyeThrows, t, j)
        {
          if eyeThrows[j].LookingBelowHorizon() {
            var t3 := Observations.OffsetOf(e, eyeThrows[j].t, t);
            if t3.o.IsValid() {
              i := j;
              t2 := t3;
              break;
            }
          }
          j := j + 1;
        }
      }
    }

    /** processClipboardUpdate, with the calibration state and the readers as parameters. */
    method ProcessClipboardUpdate(e: RealMath.Elementary, clipboard: string, calibrating: bool, rd: Readers)
      modifies this
      ensures var s := AfterClipboard(e, old(State()), clipboard, calibrating, rd);
        State() == s.next && request == s.request.GetOr(old(request))
    {
      var parsed := EyeThrow.ParseF3C(clipboard, rd.parseDouble, rd.crosshair);
      if !calibrating {
        var i := |eyeThrows|;
        if parsed.Some? {
          var t := parsed.value;
          if t.nether {
            if i > 0 {
              UpdateWithNewPlayerPos(Observations.Plain(t));
            } else {
              request := Blind(t, divineContext);
            }
            return;
          }
          if i > 0 && targetLocked {
            UpdateWithNewPlayerPos(Observations.Plain(t));
          } else if i < MaxThrows {
            var slot, t2 := FindOffsetSlot(e, t);
            UpdateWithNewThrow(t2, slot);
          }
        } else {
          var f := rd.parseF3I(clipboard);
          if f.Some? {
            SaveThrowsForUndo();
            divineContext := Some(rd.divineContextOf(f.value));
            OnThrowsUpdated();
          }
        }
      }
    }
  }
}
