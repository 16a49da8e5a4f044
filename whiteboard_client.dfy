/** The live whiteboard client of web/src/pages/WhiteBoard.tsx (the
    `ExcalidrawBoard` component): a lock that drops inbound scene updates
    while an earlier one is being applied, the participants list, and the
    send gate of `handleChange`. Socket frames arrive already decoded; the
    `JSON.parse` of a string `elements` field is the `decode` parameter. */
module WhiteboardClient {
  import opened Wrappers
  import ElementMerge

  type Element = ElementMerge.Element

  /** The `elements` field of a `scene-update`: a JSON string to decode, an
      inline array, or absent. */
  datatype ElementsField = Encoded(text: string) | Inline(elements: seq<Element>) | Absent

  /** A decoded inbound frame, by its `type`. `Unparseable` is a frame the
      outer `JSON.parse` rejects. */
  datatype Inbound =
    | SceneUpdate(elements: ElementsField)
    | ParticipantsUpdate(participants: Option<seq<string>>)
    | OtherType(tag: string)
    | Unparseable

  /** The elements `updateScene` is handed, or `None` when the decode throws
      or the field is absent, so the scene is left as it was. */
  function SceneElements(f: ElementsField, decode: string -> Option<seq<Element>>): (r: Option<seq<Element>>)
    ensures f.Inline? ==> r == Some(f.elements)
    ensures f.Absent? ==> r == None
    ensures f.Encoded? ==> r == decode(f.text)
  {
    match f
    case Encoded(t) => decode(t)
    case Inline(es) => Some(es)
    case Absent => None
  }

  /** The part of the component's state the handlers read and write. */
  datatype Sync = Sync(
    apiReady: bool,
    locked: bool,
    releasePending: bool,
    scene: seq<Element>,
    participants: seq<string>)

  /** The `onmessage` handler: a `scene-update` is applied only when the API
      is ready and the lock is free; applying it takes the lock and arms the
      50 ms release, even when decoding the elements fails. A
      `participants-update` replaces the list (`[]` when absent). Everything
      else, including a `scene-update` that meets the lock, is dropped. */
  function Receive(s: Sync, m: Inbound, decode: string -> Option<seq<Element>>): (r: Sync)
    ensures r.apiReady == s.apiReady
    ensures (m.SceneUpdate? && s.apiReady && !s.locked) <==> (!s.locked && r.locked)
    ensures m.SceneUpdate? && s.apiReady && !s.locked ==>
      && r.locked && r.releasePending && r.participants == s.participants
      && r.scene == SceneElements(m.elements, decode).GetOr(s.scene)
    ensures m.ParticipantsUpdate? ==>
      r == s.(participants := m.participants.GetOr([]))
    ensures !(m.SceneUpdate? && s.apiReady && !s.locked) && !m.ParticipantsUpdate? ==> r == s
  {
    match m
    case SceneUpdate(f) =>
      if s.apiReady && !s.locked then
        s.(locked := true, releasePending := true, scene := SceneElements(f, decode).GetOr(s.scene))
      else s
    case ParticipantsUpdate(ps) => s.(participants := ps.GetOr([]))
    case _ => s
  }

  /** A run of frames delivered with no release in between. */
  function ReceiveAll(s: Sync, ms: seq<Inbound>, decode: string -> Option<seq<Element>>): Sync
    decreases |ms|
  {
    if ms == [] then s else ReceiveAll(Receive(s, ms[0], decode), ms[1..], decode)
  }

  /** While the lock is held, scene updates are dropped and not queued: no run
      of frames changes the scene or frees the lock. */
  lemma {:induction false} LockedDropsScenes(s: Sync, ms: seq<Inbound>, decode: string -> Option<seq<Element>>)
    requires s.locked
    ensures ReceiveAll(s, ms, decode).scene == s.scene
    ensures ReceiveAll(s, ms, decode).locked
    decreases |ms|
  {
    if ms != [] {
      LockedDropsScenes(Receive(s, ms[0], decode), ms[1..], decode);
    }
  }

  /** Of a burst of scene updates arriving before the release fires, only the
      first is applied. */
  lemma BurstAppliesFirst(s: Sync, first: ElementsField, rest: seq<Inbound>, decode: string -> Option<seq<Element>>)
    requires s.apiReady && !s.locked
    ensures ReceiveAll(s, [SceneUpdate(first)] + rest, decode).scene == SceneElements(first, decode).GetOr(s.scene)
  {
    var ms := [SceneUpdate(first)] + rest;
    assert ms[0] == SceneUpdate(first) && ms[1..] == rest;
    LockedDropsScenes(Receive(s, ms[0], decode), rest, decode);
  }

  /** The `handleChange` gate: nothing is sent while the socket is not open,
      the elements are missing, the lock is held or the user is drawing, nor
      when the elements equal the ones last sent. */
  function Outgoing(socketOpen: bool, locked: bool, drawing: bool, lastSent: seq<Element>,
                    elements: Option<seq<Element>>): (r: Option<seq<Element>>)
    ensures r.Some? <==> socketOpen && !locked && !drawing && elements.Some? && elements.value != lastSent
    ensures r.Some? ==> r.value == elements.value
  {
    if !socketOpen || elements.None? || locked || drawing then None
    else if elements.value == lastSent then None
    else Some(elements.value)
  }

  /** Whatever was sent last is never sent again straight away. */
  lemma RepeatSendsNothing(socketOpen: bool, locked: bool, drawing: bool, lastSent: seq<Element>,
                           elements: Option<seq<Element>>)
    requires Outgoing(socketOpen, locked, drawing, lastSent, elements).Some?
    ensures Outgoing(socketOpen, locked, drawing, elements.value, elements) == None
  {
  }

  /** The component's refs and state. */
  class Board {
    /** `excalidrawAPI` has been handed over. */
    var apiReady: bool
    /** `socket` exists and its `readyState` is `OPEN`. */
    var socketOpen: bool
    var isConnected: bool
    var participants: seq<string>
    var lastSentElements: seq<Element>
    var updateLock: bool
    /** The 50 ms release timer has been armed and has not fired. */
    var releasePending: bool
    var isDrawing: bool
    /** The Excalidraw scene's elements. */
    var scene: seq<Element>
    /** Every `scene-update` sent, in order. */
    var sent: seq<seq<Element>>

    function State(): Sync
      reads this
    {
      Sync(apiReady, updateLock, releasePending, scene, participants)
    }

    constructor ()
      ensures !apiReady && !socketOpen && !isConnected && participants == []
      ensures lastSentElements == [] && !updateLock && !releasePending && !isDrawing
      ensures scene == [] && sent == []
    {
      apiReady, socketOpen, isConnected := false, false, false;
      participants, lastSentElements := [], [];
      updateLock, releasePending, isDrawing := false, false, false;
      scene, sent := [], [];
    }

    /** The `excalidrawAPI` callback. The API is a dependency of the socket
        effect, so handing it over re-runs that effect: its cleanup closes
        the open socket and a new one starts out connecting, so nothing is
        sent until the next `onopen`. The old socket's `onclose` arrives
        later as its own event (`StaleClose`). */
    method ApiReady()
      modifies this`apiReady, this`socketOpen
      ensures apiReady && !socketOpen
    {
      apiReady, socketOpen := true, false;
    }

    method OnOpen()
      modifies this`socketOpen, this`isConnected
      ensures socketOpen && isConnected
    {
      socketOpen, isConnected := true, true;
    }

    method OnClose()
      modifies this`socketOpen, this`isConnected, this`participants
      ensures !socketOpen && !isConnected && participants == []
    {
      socketOpen, isConnected, participants := false, false, [];
    }

    /** The `onclose` of a socket an effect re-run has already replaced:
        its handler still clears the connection flag and the participants,
        but `handleChange` tests the state's current socket, which may be
        open by then. */
    method StaleClose()
      modifies this`isConnected, this`participants
      ensures !isConnected && participants == []
    {
      isConnected, participants := false, [];
    }

    method OnMessage(m: Inbound, decode: string -> Option<seq<Element>>)
      modifies this`updateLock, this`releasePending, this`scene, this`participants
      ensures State() == Receive(old(State()), m, decode)
    {
      match m
      case SceneUpdate(f) =>
        if apiReady && !updateLock {
          updateLock := true;
          var elements := SceneElements(f, decode);
          if elements.Some? {
            scene := elements.value;
          }
          releasePending := true;
        }
      case ParticipantsUpdate(ps) =>
        participants := if ps.Some? then ps.value else [];
      case _ =>
    }

    /** The release timer fires. */
    method LockTimerFired()
      requires releasePending
      modifies this`updateLock, this`releasePending
      ensures !updateLock && !releasePending
    {
      updateLock, releasePending := false, false;
    }

    method PointerDown()
      modifies this`isDrawing
      ensures isDrawing
    {
      isDrawing := true;
    }

    method PointerUp()
      modifies this`isDrawing
      ensures !isDrawing
    {
      isDrawing := false;
    }

    /** `handleChange` with the scene's current elements (`None` when
      missing). */
    method HandleChange(elements: Option<seq<Element>>) returns (out: Option<seq<Element>>)
      modifies this`lastSentElements, this`sent
      ensures out == Outgoing(socketOpen, updateLock, isDrawing, old(lastSentElements), elements)
      ensures out.Some? ==> lastSentElements == out.value && sent == old(sent) + [out.value]
      ensures out.None? ==> lastSentElements == old(lastSentElements) && sent == old(sent)
    {
      out := None;
      if !socketOpen || elements.None? || updateLock || isDrawing {
        return;
      }
      if elements.value != lastSentElements {
        lastSentElements := elements.value;
        sent := sent + [elements.value];
        out := Some(elements.value);
      }
    }
  }
}
