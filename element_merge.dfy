/** The element merge of the earlier whiteboard client, which survives only
    as commented-out code at the top of web/src/pages/WhiteBoard.tsx: it is
    INACTIVE source, never compiled into the running client. Elements are
    Excalidraw records reduced to the fields the merge reads. */
module ElementMerge {
  import opened Wrappers

  /** An Excalidraw element: its id, its `updated` timestamp, its deletion
      flag, its `type` and everything else as an opaque payload. */
  datatype Element = Element(id: string, updated: int, isDeleted: bool, kind: string, payload: string)

  /** The `filterElements` test: not deleted and not a selection box. */
  predicate Shown(e: Element) {
    !e.isDeleted && e.kind != "selection"
  }

  /** `filterElements`: the shown elements, in order. */
  function FilterElements(s: seq<Element>): (r: seq<Element>)
    ensures |r| <= |s|
    ensures forall e :: e in r <==> e in s && Shown(e)
    decreases |s|
  {
    if s == [] then []
    else if Shown(s[0]) then [s[0]] + FilterElements(s[1..])
    else FilterElements(s[1..])
  }

  /** Filtering a concatenation filters each part: the order of what is kept
      is the order of the input. */
  lemma {:induction false} FilterElementsAppend(a: seq<Element>, b: seq<Element>)
    ensures FilterElements(a + b) == FilterElements(a) + FilterElements(b)
    decreases |a|
  {
    if a != [] {
      assert (a + b)[0] == a[0] && (a + b)[1..] == a[1..] + b;
      FilterElementsAppend(a[1..], b);
    } else {
      assert a + b == b;
    }
  }

  /** Filtering twice keeps what filtering once keeps. */
  lemma {:induction false} FilterElementsIdempotent(s: seq<Element>)
    ensures FilterElements(FilterElements(s)) == FilterElements(s)
    decreases |s|
  {
    if s != [] {
      FilterElementsIdempotent(s[1..]);
    }
  }

  /** `new Map(local.map(el => [el.id, el]))`: each id maps to the LAST
      element of `s` carrying it. */
  function IndexById(s: seq<Element>): (m: map<string, Element>)
    ensures forall id :: id in m <==> exists i :: 0 <= i < |s| && s[i].id == id
    ensures forall id :: id in m ==> m[id] in s && m[id].id == id
    ensures forall i :: 0 <= i < |s| && LastOfId(s, i) ==> s[i].id in m && m[s[i].id] == s[i]
    decreases |s|
  {
    if s == [] then map[]
    else
      var init := s[..|s| - 1];
      var last := s[|s| - 1];
      assert forall e :: e in init ==> e in s;
      assert forall i :: 0 <= i < |init| ==> init[i] == s[i];
      LastWinsStep(s, init, IndexById(init));
      IndexById(init)[last.id := last]
  }

  /** `s[i]` is the last element of `s` with its id. */
  ghost predicate LastOfId(s: seq<Element>, i: nat)
    requires i < |s|
  {
    forall j :: i < j < |s| ==> s[j].id != s[i].id
  }

  /** If `prev` files each last-of-its-id element of `s` without its last
      element, then `prev` with that last element added files each
      last-of-its-id element of `s`. */
  lemma LastWinsStep(s: seq<Element>, init: seq<Element>, prev: map<string, Element>)
    requires s != [] && init == s[..|s| - 1]
    requires forall i :: 0 <= i < |init| && LastOfId(init, i) ==> init[i].id in prev && prev[init[i].id] == init[i]
    ensures forall i :: 0 <= i < |s| && LastOfId(s, i) ==>
      s[i].id in prev[s[|s| - 1].id := s[|s| - 1]] && prev[s[|s| - 1].id := s[|s| - 1]][s[i].id] == s[i]
  {
    var last := s[|s| - 1];
    forall i | 0 <= i < |s| && LastOfId(s, i)
      ensures s[i].id in prev[last.id := last] && prev[last.id := last][s[i].id] == s[i]
    {
      if i < |init| {
        assert s[i].id != last.id;
        forall j | i < j < |init| ensures init[j].id != init[i].id {
          assert init[j] == s[j] && init[i] == s[i];
        }
        assert LastOfId(init, i);
        assert init[i] == s[i];
      }
    }
  }

  /** The element found by `localMap.get(id)`, if any. */
  function LocalCopy(local: seq<Element>, id: string): Option<Element> {
    var m := IndexById(local);
    if id in m then Some(m[id]) else None
  }

  /** The conflict rule for one remote element: the local copy wins only
      when it was updated strictly later, so ties go to the remote copy. */
  function Pick(localEl: Option<Element>, remoteEl: Element): (w: Element)
    ensures w == remoteEl || (localEl.Some? && w == localEl.value)
    ensures localEl.Some? ==> w.updated >= localEl.value.updated && w.updated >= remoteEl.updated
    ensures localEl.Some? && localEl.value.updated == remoteEl.updated ==> w == remoteEl
    ensures localEl.None? ==> w == remoteEl
    ensures w.updated >= remoteEl.updated
  {
    if localEl.Some? && localEl.value.updated > remoteEl.updated then localEl.value else remoteEl
  }

  /** Whether some remote element carries `id` (`remoteMap.has`). */
  predicate InRemote(remote: seq<Element>, id: string) {
    exists i :: 0 <= i < |remote| && remote[i].id == id
  }

  /** The remote elements in remote order, each resolved against its local
      copy. */
  function MergedRemote(local: seq<Element>, remote: seq<Element>): (r: seq<Element>)
    ensures |r| == |remote|
    decreases |remote|
  {
    if remote == [] then []
    else
      var init := remote[..|remote| - 1];
      var last := remote[|remote| - 1];
      MergedRemote(local, init) + [Pick(LocalCopy(local, last.id), last)]
  }

  /** The local elements no remote element carries and that changed after the
      last sync, in local order. */
  function NewLocal(local: seq<Element>, remote: seq<Element>, lastSync: int): seq<Element>
    decreases |local|
  {
    if local == [] then []
    else
      var init := local[..|local| - 1];
      var last := local[|local| - 1];
      NewLocal(init, remote, lastSync) + (if !InRemote(remote, last.id) && last.updated > lastSync then [last] else [])
  }

  /** `reconcileElements(local, remote, lastSync)`. */
  function Reconcile(local: seq<Element>, remote: seq<Element>, lastSync: int): seq<Element> {
    MergedRemote(local, remote) + NewLocal(local, remote, lastSync)
  }

  /** Position `i` of the remote part is remote element `i`, resolved. */
  lemma {:induction false} MergedRemoteAt(local: seq<Element>, remote: seq<Element>, i: nat)
    requires i < |remote|
    ensures MergedRemote(local, remote)[i] == Pick(LocalCopy(local, remote[i].id), remote[i])
    decreases |remote|
  {
    var init := remote[..|remote| - 1];
    if i < |init| {
      MergedRemoteAt(local, init, i);
    }
  }

  /** What the local-only part keeps: exactly the local elements that no
      remote element carries and that changed after `lastSync`. */
  lemma {:induction false} NewLocalMembers(local: seq<Element>, remote: seq<Element>, lastSync: int)
    ensures forall e :: e in NewLocal(local, remote, lastSync) <==>
      e in local && !InRemote(remote, e.id) && e.updated > lastSync
    decreases |local|
  {
    if local != [] {
      var init := local[..|local| - 1];
      NewLocalMembers(init, remote, lastSync);
      assert local == init + [local[|local| - 1]];
    }
  }

  /** The shape of the merge: one resolved element per remote element, in
      remote order, each carrying the remote id and the later timestamp of
      the two copies; after them, the new local-only elements. A local-only
      element last changed at or before `lastSync` is dropped. */
  lemma ReconcileShape(local: seq<Element>, remote: seq<Element>, lastSync: int)
    ensures var r := Reconcile(local, remote, lastSync);
      && |r| >= |remote|
      && (forall i :: 0 <= i < |remote| ==> r[i].id == remote[i].id && r[i].updated >= remote[i].updated)
      && (forall e :: e in r[|remote|..] <==> e in local && !InRemote(remote, e.id) && e.updated > lastSync)
      && (forall e :: e in local && !InRemote(remote, e.id) && e.updated <= lastSync ==> e !in r)
  {
    var r := Reconcile(local, remote, lastSync);
    var merged := MergedRemote(local, remote);
    forall i | 0 <= i < |remote| ensures r[i].id == remote[i].id && r[i].updated >= remote[i].updated {
      MergedRemoteAt(local, remote, i);
      assert r[i] == merged[i];
    }
    NewLocalMembers(local, remote, lastSync);
    assert r[|remote|..] == NewLocal(local, remote, lastSync);
    forall e | e in merged ensures InRemote(remote, e.id) {
      var i :| 0 <= i < |merged| && merged[i] == e;
      assert r[i] == e;
    }
    assert forall e :: e in r ==> e in merged || e in r[|remote|..];
  }

  /** Last writer wins: a local copy updated at 100 beats
      a remote copy updated at 90, and loses to one updated at 150. */
  lemma LastWriterWinsExample()
    ensures var mine := Element("e", 100, false, "rectangle", "mine");
      && Reconcile([mine], [Element("e", 90, false, "rectangle", "theirs")], 0) == [mine]
      && Reconcile([mine], [Element("e", 150, false, "rectangle", "theirs")], 0)
         == [Element("e", 150, false, "rectangle", "theirs")]
  {
    var mine := Element("e", 100, false, "rectangle", "mine");
    assert [mine][..0] == [];
    var older, newer := Element("e", 90, false, "rectangle", "theirs"), Element("e", 150, false, "rectangle", "theirs");
    assert [older][0].id == "e" && [newer][0].id == "e";
  }

  /** `reconcileElements` as written: build the two id maps, push each
      resolved remote element, then push the new local-only ones. */
  method ReconcileElements(local: seq<Element>, remote: seq<Element>, lastSync: int) returns (merged: seq<Element>)
    ensures merged == Reconcile(local, remote, lastSync)
  {
    var remoteIds := RemoteIds(remote);
    var localMap := LocalIndex(local);
    merged := MergeRemote(local, localMap, remote);
    var added := NewLocalOnly(local, remoteIds, remote, lastSync);
    merged := merged + added;
  }

  /** The ids of `remoteMap`. */
  method RemoteIds(remote: seq<Element>) returns (remoteIds: set<string>)
    ensures forall id :: id in remoteIds <==> InRemote(remote, id)
  {
    remoteIds := {};
    var i := 0;
    while i < |remote|
      invariant 0 <= i <= |remote|
      invariant forall id :: id in remoteIds <==> exists j :: 0 <= j < i && remote[j].id == id
    {
      remoteIds := remoteIds + {remote[i].id};
      i := i + 1;
    }
  }

  /** `localMap`, filled element by element. */
  method LocalIndex(local: seq<Element>) returns (localMap: map<string, Element>)
    ensures localMap == IndexById(local)
  {
    localMap := map[];
    var i := 0;
    while i < |local|
      invariant 0 <= i <= |local|
      invariant localMap == IndexById(local[..i])
    {
      assert local[..i + 1][..i] == local[..i];
      localMap := localMap[local[i].id := local[i]];
      i := i + 1;
    }
    assert local[..i] == local;
  }

  /** The loop over the remote elements. */
  method MergeRemote(local: seq<Element>, localMap: map<string, Element>, remote: seq<Element>)
    returns (merged: seq<Element>)
    requires localMap == IndexById(local)
    ensures merged == MergedRemote(local, remote)
  {
    merged := [];
    var i := 0;
    while i < |remote|
      invariant 0 <= i <= |remote|
      invariant merged == MergedRemote(local, remote[..i])
    {
      assert remote[..i + 1][..i] == remote[..i];
      var remoteEl := remote[i];
      var localEl := if remoteEl.id in localMap then Some(localMap[remoteEl.id]) else None;
      merged := merged + [Pick(localEl, remoteEl)];
      i := i + 1;
    }
    assert remote[..i] == remote;
  }

  /** The loop over the local elements. */
  method NewLocalOnly(local: seq<Element>, remoteIds: set<string>, remote: seq<Element>, lastSync: int)
    returns (added: seq<Element>)
    requires forall id :: id in remoteIds <==> InRemote(remote, id)
    ensures added == NewLocal(local, remote, lastSync)
  {
    added := [];
    var i := 0;
    while i < |local|
      invariant 0 <= i <= |local|
      invariant added == NewLocal(local[..i], remote, lastSync)
    {
      assert local[..i + 1][..i] == local[..i];
      var localEl := local[i];
      if localEl.id !in remoteIds && localEl.updated > lastSync {
        added := added + [localEl];
      }
      i := i + 1;
    }
    assert local[..i] == local;
  }
}
