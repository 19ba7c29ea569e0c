/** The overlay connection registry: one table of live overlay sockets, indexed
    by socket id (one entry each) and by the composite key
    `owner.userId + "." + addonId` (an ordered list of the same entries). */
module SocketMap {
  import opened Wrappers

  datatype Owner = Owner(userId: string, displayName: string)

  datatype Socket = Socket(id: string)

  /** The self-identification an overlay sends after connecting. */
  datatype OverlayInfo = OverlayInfo(overlayId: string, addonId: string, owner: Owner)

  /** A stored entry, `{ socket, ...overlayInfo }`. */
  datatype Entry = Entry(socket: Socket, overlayId: string, addonId: string, owner: Owner)

  /** The object handed to `userAddonKey`: it may lack an `owner` property. */
  datatype KeyInfo = KeyInfo(owner: Option<Owner>, addonId: string)

  /** The reason `userAddonKey` throws: reading `userId` of an undefined `owner`. */
  datatype KeyError = OwnerUndefined

  function MakeEntry(socket: Socket, info: OverlayInfo): (e: Entry)
    ensures e.socket == socket && e.overlayId == info.overlayId
    ensures e.addonId == info.addonId && e.owner == info.owner
  {
    Entry(socket, info.overlayId, info.addonId, info.owner)
  }

  /** `${userId}.${addonId}`: the user id, one dot, then the addon id. */
  function CompositeKey(userId: string, addonId: string): (k: string)
    ensures |k| == |userId| + 1 + |addonId|
    ensures k[..|userId|] == userId && k[|userId|] == '.' && k[|userId| + 1..] == addonId
  {
    userId + "." + addonId
  }

  /** `userAddonKey(info)`: None stands for the TypeError raised when `info`
      has no `owner`. */
  function UserAddonKey(info: KeyInfo): (r: Option<string>)
    ensures r.Some? <==> info.owner.Some?
    ensures info.owner.Some? ==> r.value == CompositeKey(info.owner.value.userId, info.addonId)
  {
    match info.owner
    case None => None
    case Some(owner) => Some(CompositeKey(owner.userId, info.addonId))
  }

  function EntryKey(e: Entry): string {
    CompositeKey(e.owner.userId, e.addonId)
  }

  /** With dot-free user ids (Twitch ids are numeric) the composite key
      determines the user and the addon. */
  lemma {:induction false} CompositeKeyInjective(u1: string, a1: string, u2: string, a2: string)
    requires '.' !in u1 && '.' !in u2
    ensures CompositeKey(u1, a1) == CompositeKey(u2, a2) <==> u1 == u2 && a1 == a2
  {
    var k1, k2 := CompositeKey(u1, a1), CompositeKey(u2, a2);
    if k1 == k2 {
      if |u1| < |u2| {
        assert false;
      } else if |u2| < |u1| {
        assert false;
      }
      assert u1 == k1[..|u1|] == k2[..|u2|] == u2;
      assert a1 == k1[|u1| + 1..] == k2[|u2| + 1..] == a2;
    }
  }

  predicate NoDupIds(s: seq<Entry>) {
    forall i, j :: 0 <= i < j < |s| ==> s[i].socket.id != s[j].socket.id
  }

  /** The whole table: `bySocket` holds the socket-id keys, `byKey` the
      composite keys. */
  datatype Table = Table(bySocket: map<string, Entry>, byKey: map<string, seq<Entry>>)

  /** Every id-keyed entry carries its own socket id and is listed under its
      composite key. */
  ghost predicate IdsListed(t: Table) {
    forall id | id in t.bySocket ::
      t.bySocket[id].socket.id == id &&
      EntryKey(t.bySocket[id]) in t.byKey &&
      t.bySocket[id] in t.byKey[EntryKey(t.bySocket[id])]
  }

  /** The list under `k` is non-empty, holds each socket once, and every
      entry in it is id-keyed under its socket id and belongs under `k`. */
  ghost predicate ListIndexed(t: Table, k: string)
    requires k in t.byKey
  {
    t.byKey[k] != [] && NoDupIds(t.byKey[k]) &&
    forall e | e in t.byKey[k] ::
      e.socket.id in t.bySocket && t.bySocket[e.socket.id] == e && EntryKey(e) == k
  }

  ghost predicate ListsIndexed(t: Table) {
    forall k | k in t.byKey :: ListIndexed(t, k)
  }

  /** The two-way invariant the registry routines maintain: every id-keyed
      entry is listed under its own composite key, every listed entry is
      id-keyed under its socket id, lists hold each socket once and are never
      empty. */
  ghost predicate Consistent(t: Table) {
    IdsListed(t) && ListsIndexed(t)
  }

  /** `socketMap[key] ?? []` */
  function ListAt(t: Table, key: string): seq<Entry> {
    if key in t.byKey then t.byKey[key] else []
  }

  /** `addonList.findIndex(item => item.socket.id === id)` */
  function FirstIndexOf(list: seq<Entry>, id: string): (r: int)
    ensures -1 <= r < |list|
    ensures r == -1 <==> forall i :: 0 <= i < |list| ==> list[i].socket.id != id
    ensures r >= 0 ==> list[r].socket.id == id && forall i :: 0 <= i < r ==> list[i].socket.id != id
  {
    if list == [] then -1
    else if list[0].socket.id == id then 0
    else
      var k := FirstIndexOf(list[1..], id);
      if k == -1 then -1 else k + 1
  }

  /** The table after `addSocket(socket, info)`. */
  function Added(t: Table, socket: Socket, info: OverlayInfo): Table {
    if socket.id in t.bySocket then t
    else
      var e := MakeEntry(socket, info);
      var k := EntryKey(e);
      Table(t.bySocket[socket.id := e], t.byKey[k := ListAt(t, k) + [e]])
  }

  /** The list under a composite key once the first entry of socket `id` is
      spliced out of it. */
  function WithoutFirst(list: seq<Entry>, id: string): seq<Entry> {
    var idx := FirstIndexOf(list, id);
    if idx != -1 then list[..idx] + list[idx + 1..] else list
  }

  /** The table after `removeSocket(socket)` for a socket with this id. */
  function Removed(t: Table, id: string): Table {
    if id !in t.bySocket then t
    else
      var k := EntryKey(t.bySocket[id]);
      var list := WithoutFirst(ListAt(t, k), id);
      Table(t.bySocket - {id}, if |list| == 0 then t.byKey - {k} else t.byKey[k := list])
  }

  /** Adding keeps the two indexes consistent. */
  lemma AddedConsistent(t: Table, socket: Socket, info: OverlayInfo)
    requires Consistent(t)
    ensures Consistent(Added(t, socket, info))
  {
    if socket.id !in t.bySocket {
      AddedIdsListed(t, socket, info);
      AddedListsIndexed(t, socket, info);
    }
  }

  lemma AddedIdsListed(t: Table, socket: Socket, info: OverlayInfo)
    requires IdsListed(t) && socket.id !in t.bySocket
    ensures IdsListed(Added(t, socket, info))
  {
    var e := MakeEntry(socket, info);
    var k := EntryKey(e);
    var t' := Added(t, socket, info);
    forall id | id in t'.bySocket
      ensures t'.bySocket[id].socket.id == id && EntryKey(t'.bySocket[id]) in t'.byKey
      ensures t'.bySocket[id] in t'.byKey[EntryKey(t'.bySocket[id])]
    {
      if id == socket.id {
        assert t'.byKey[k] == ListAt(t, k) + [e];
      } else {
        var x := t.bySocket[id];
        assert t'.bySocket[id] == x;
        if EntryKey(x) == k {
          assert t'.byKey[k] == t.byKey[k] + [e];
        }
      }
    }
  }

  lemma AddedListsIndexed(t: Table, socket: Socket, info: OverlayInfo)
    requires ListsIndexed(t) && socket.id !in t.bySocket
    ensures ListsIndexed(Added(t, socket, info))
  {
    var e := MakeEntry(socket, info);
    var k := EntryKey(e);
    var t' := Added(t, socket, info);
    forall k2 | k2 in t'.byKey ensures ListIndexed(t', k2) {
      if k2 == k {
        var list := ListAt(t, k);
        assert t'.byKey[k] == list + [e];
        assert forall x | x in list :: x.socket.id in t.bySocket by {
          if k in t.byKey { assert ListIndexed(t, k); }
        }
        forall a, b | 0 <= a < b < |list + [e]|
          ensures (list + [e])[a].socket.id != (list + [e])[b].socket.id
        {
          if k in t.byKey { assert ListIndexed(t, k); }
          if b == |list| { assert (list + [e])[a] in list; }
        }
        forall x | x in list + [e]
          ensures x.socket.id in t'.bySocket && t'.bySocket[x.socket.id] == x && EntryKey(x) == k
        {
          if x != e {
            assert k in t.byKey && ListIndexed(t, k);
          }
        }
      } else {
        assert ListIndexed(t, k2);
        assert t'.byKey[k2] == t.byKey[k2];
      }
    }
  }

  /** Adding a socket id already present leaves the table as it was; adding a
      new one stores the entry under the id and appends it, last, to the list
      under its composite key, every other key keeping its value. */
  lemma AddedEffect(t: Table, socket: Socket, info: OverlayInfo)
    ensures socket.id in t.bySocket ==> Added(t, socket, info) == t
    ensures socket.id !in t.bySocket ==>
      var e := MakeEntry(socket, info);
      var t' := Added(t, socket, info);
      t'.bySocket == t.bySocket[socket.id := e] &&
      ListAt(t', EntryKey(e)) == ListAt(t, EntryKey(e)) + [e] &&
      (forall key | key != EntryKey(e) :: ListAt(t', key) == ListAt(t, key))
  {
  }

  /** When position `i` holds the first entry of socket `id`, splicing
      removes exactly that position. */
  lemma FirstAt(list: seq<Entry>, id: string, i: nat)
    requires i < |list| && list[i].socket.id == id
    requires forall j :: 0 <= j < i ==> list[j].socket.id != id
    ensures FirstIndexOf(list, id) == i
    ensures WithoutFirst(list, id) == list[..i] + list[i + 1..]
    ensures |WithoutFirst(list, id)| == |list| - 1
  {
  }

  lemma WithoutFirstShape(list: seq<Entry>, id: string, i: nat)
    requires NoDupIds(list) && i < |list| && list[i].socket.id == id
    ensures WithoutFirst(list, id) == list[..i] + list[i + 1..]
    ensures |WithoutFirst(list, id)| == |list| - 1
  {
    FirstAt(list, id, i);
  }

  /** Splicing out position `i` keeps exactly the entries of the other sockets. */
  lemma SpliceMembers(list: seq<Entry>, i: nat)
    requires NoDupIds(list) && i < |list|
    ensures forall e | e in list[..i] + list[i + 1..] :: e in list && e.socket.id != list[i].socket.id
    ensures forall e | e in list && e.socket.id != list[i].socket.id :: e in list[..i] + list[i + 1..]
  {
    var r := list[..i] + list[i + 1..];
    forall j | 0 <= j < |r|
      ensures r[j] == list[if j < i then j else j + 1]
    {
    }
    forall j | 0 <= j < |list| && j != i
      ensures list[j] in r
    {
      assert list[j] == r[if j < i then j else j - 1];
    }
  }

  lemma NoDupIdsWithout(list: seq<Entry>, i: nat)
    requires NoDupIds(list) && i < |list|
    ensures NoDupIds(list[..i] + list[i + 1..])
  {
    var r := list[..i] + list[i + 1..];
    forall a, b | 0 <= a < b < |r| ensures r[a].socket.id != r[b].socket.id {
      var a' := if a < i then a else a + 1;
      var b' := if b < i then b else b + 1;
      assert r[a] == list[a'] && r[b] == list[b'];
    }
  }

  /** Removing keeps the two indexes consistent, and drops a composite key
      whose list became empty. */
  lemma RemovedConsistent(t: Table, id: string)
    requires Consistent(t)
    ensures Consistent(Removed(t, id))
  {
    if id in t.bySocket {
      var e := t.bySocket[id];
      var k := EntryKey(e);
      var list := ListAt(t, k);
      assert ListIndexed(t, k);
      var i :| 0 <= i < |list| && list[i] == e;
      WithoutFirstShape(list, id, i);
      SpliceMembers(list, i);
      NoDupIdsWithout(list, i);
      RemovedIdsListed(t, id, i);
      RemovedListsIndexed(t, id, i);
    }
  }

  lemma RemovedIdsListed(t: Table, id: string, i: nat)
    requires IdsListed(t) && id in t.bySocket
    requires var list := ListAt(t, EntryKey(t.bySocket[id]));
      i < |list| && list[i] == t.bySocket[id] &&
      WithoutFirst(list, id) == list[..i] + list[i + 1..] &&
      forall x | x in list && x.socket.id != id :: x in list[..i] + list[i + 1..]
    ensures IdsListed(Removed(t, id))
  {
    var k := EntryKey(t.bySocket[id]);
    var t' := Removed(t, id);
    var rest := ListAt(t, k)[..i] + ListAt(t, k)[i + 1..];
    forall id2 | id2 in t'.bySocket
      ensures t'.bySocket[id2].socket.id == id2 && EntryKey(t'.bySocket[id2]) in t'.byKey
      ensures t'.bySocket[id2] in t'.byKey[EntryKey(t'.bySocket[id2])]
    {
      var x := t.bySocket[id2];
      if EntryKey(x) == k {
        assert x in rest;
        assert t'.byKey[k] == rest;
      } else {
        assert t'.byKey[EntryKey(x)] == t.byKey[EntryKey(x)];
      }
    }
  }

  lemma RemovedListsIndexed(t: Table, id: string, i: nat)
    requires ListsIndexed(t) && id in t.bySocket
    requires var list := ListAt(t, EntryKey(t.bySocket[id]));
      i < |list| && list[i] == t.bySocket[id] &&
      WithoutFirst(list, id) == list[..i] + list[i + 1..] &&
      NoDupIds(list[..i] + list[i + 1..]) &&
      forall x | x in list[..i] + list[i + 1..] :: x in list && x.socket.id != id
    ensures ListsIndexed(Removed(t, id))
  {
    var e := t.bySocket[id];
    var k := EntryKey(e);
    var t' := Removed(t, id);
    var rest := ListAt(t, k)[..i] + ListAt(t, k)[i + 1..];
    forall k2 | k2 in t'.byKey ensures ListIndexed(t', k2) {
      if k2 == k {
        assert t'.byKey[k] == rest;
        assert k in t.byKey && ListIndexed(t, k);
      } else {
        assert t'.byKey[k2] == t.byKey[k2];
        assert ListIndexed(t, k2);
        forall x | x in t.byKey[k2] ensures x.socket.id != id {
        }
      }
    }
  }

  /** Removing an unknown id changes nothing. */
  lemma RemovedUnknown(t: Table, id: string)
    requires id !in t.bySocket
    ensures Removed(t, id) == t
  {
  }

  /** Removing a known id deletes the id key and splices exactly that socket's
      entry, found at index `i`, out of the list under its composite key: the
      list is one shorter, the other entries keep their order and data, and no
      other composite key changes. */
  lemma RemovedEffect(t: Table, id: string) returns (i: nat)
    requires Consistent(t) && id in t.bySocket
    ensures
      var e := t.bySocket[id];
      var k := EntryKey(e);
      var t' := Removed(t, id);
      t'.bySocket == t.bySocket - {id} &&
      i < |ListAt(t, k)| && ListAt(t, k)[i] == e &&
      ListAt(t', k) == ListAt(t, k)[..i] + ListAt(t, k)[i + 1..] &&
      |ListAt(t', k)| == |ListAt(t, k)| - 1 &&
      (forall key | key != k :: ListAt(t', key) == ListAt(t, key))
  {
    var k := EntryKey(t.bySocket[id]);
    assert ListIndexed(t, k);
    i := RemovedSplice(t, id);
  }

  /** `RemovedEffect` for any table where the socket's entry is listed once
      under its composite key. */
  lemma RemovedSplice(t: Table, id: string) returns (i: nat)
    requires id in t.bySocket && t.bySocket[id].socket.id == id
    requires t.bySocket[id] in ListAt(t, EntryKey(t.bySocket[id]))
    requires NoDupIds(ListAt(t, EntryKey(t.bySocket[id])))
    ensures
      var e := t.bySocket[id];
      var k := EntryKey(e);
      var t' := Removed(t, id);
      t'.bySocket == t.bySocket - {id} &&
      i < |ListAt(t, k)| && ListAt(t, k)[i] == e &&
      ListAt(t', k) == ListAt(t, k)[..i] + ListAt(t, k)[i + 1..] &&
      |ListAt(t', k)| == |ListAt(t, k)| - 1 &&
      (forall key | key != k :: ListAt(t', key) == ListAt(t, key))
  {
    var list := ListAt(t, EntryKey(t.bySocket[id]));
    i :| 0 <= i < |list| && list[i] == t.bySocket[id];
    WithoutFirstShape(list, id, i);
    RemovedParts(t, id);
  }

  /** What `Removed` does to each index, read key by key. */
  lemma RemovedParts(t: Table, id: string)
    requires id in t.bySocket
    ensures
      var k := EntryKey(t.bySocket[id]);
      var t' := Removed(t, id);
      t'.bySocket == t.bySocket - {id} &&
      ListAt(t', k) == WithoutFirst(ListAt(t, k), id) &&
      (forall key | key != k :: ListAt(t', key) == ListAt(t, key))
  {
  }

  /** Two overlays of the same user and addon, on different sockets, are both
      listed, and each can be removed without disturbing the other. */
  lemma IndependentRemoval(t: Table, s1: Socket, s2: Socket, info1: OverlayInfo, info2: OverlayInfo)
    requires Consistent(t)
    requires s1.id !in t.bySocket && s2.id !in t.bySocket && s1.id != s2.id
    requires info1.owner.userId == info2.owner.userId && info1.addonId == info2.addonId
    ensures
      var k := CompositeKey(info1.owner.userId, info1.addonId);
      var t2 := Added(Added(t, s1, info1), s2, info2);
      ListAt(t2, k) == ListAt(t, k) + [MakeEntry(s1, info1), MakeEntry(s2, info2)] &&
      ListAt(Removed(t2, s1.id), k) == ListAt(t, k) + [MakeEntry(s2, info2)]
  {
    var k := CompositeKey(info1.owner.userId, info1.addonId);
    var e1, e2 := MakeEntry(s1, info1), MakeEntry(s2, info2);
    var t1 := Added(t, s1, info1);
    var t2 := Added(t1, s2, info2);
    var before := ListAt(t, k);
    var list := ListAt(t2, k);
    assert ListAt(t1, k) == before + [e1];
    assert list == before + [e1, e2];
    var i := |before|;
    forall j | 0 <= j < i ensures list[j].socket.id != s1.id {
      assert list[j] == before[j];
      assert k in t.byKey && ListIndexed(t, k);
    }
    FirstAt(list, s1.id, i);
    assert t2.bySocket[s1.id] == e1;
    assert list[..i] + list[i + 1..] == before + [e2];
  }

  /** The `findIndex` scan of a composite-key list. */
  method FindSocketIndex(list: seq<Entry>, id: string) returns (idx: int)
    ensures idx == FirstIndexOf(list, id)
  {
    idx := 0;
    while idx < |list|
      invariant 0 <= idx <= |list|
      invariant forall i :: 0 <= i < idx ==> list[i].socket.id != id
    {
      if list[idx].socket.id == id {
        return;
      }
      idx := idx + 1;
    }
    idx := -1;
  }

  /** `findIndex` followed by `splice(index, 1)` when the socket was found. */
  method SpliceOut(list: seq<Entry>, id: string) returns (r: seq<Entry>)
    ensures r == WithoutFirst(list, id)
  {
    r := list;
    var idx := FindSocketIndex(list, id);
    if idx != -1 {
      r := list[..idx] + list[idx + 1..];
    }
  }

  /** The module-level `socketMap` and the routines that maintain it. */
  class Registry {
    var bySocket: map<string, Entry>
    var byKey: map<string, seq<Entry>>

    function State(): Table
      reads this
    {
      Table(bySocket, byKey)
    }

    ghost predicate Valid()
      reads this
    {
      Consistent(State())
    }

    constructor ()
      ensures Valid() && bySocket == map[] && byKey == map[]
    {
      bySocket, byKey := map[], map[];
    }

    /** `addSocket(socket, overlayInfo)`: a socket already in the table is
        ignored (the first registration is kept); otherwise the entry is
        stored under the socket id and appended to its composite-key list. */
    method AddSocket(socket: Socket, info: OverlayInfo) returns (added: bool)
      requires Valid()
      modifies this
      ensures Valid()
      ensures added <==> socket.id !in old(bySocket)
      ensures State() == Added(old(State()), socket, info)
    {
      if socket.id in bySocket {
        return false;
      }
      var entry := MakeEntry(socket, info);
      var key := EntryKey(entry);
      var addonList := if key in byKey then byKey[key] else [];
      bySocket := bySocket[socket.id := entry];
      addonList := addonList + [entry];
      byKey := byKey[key := addonList];
      added := true;
      AddedConsistent(old(State()), socket, info);
    }

    /** `removeSocket(socket)`: an unknown socket is ignored; otherwise the
        socket's entry leaves both indexes and an emptied list's key is
        deleted. */
    method RemoveSocket(socket: Socket) returns (removed: bool)
      requires Valid()
      modifies this
      ensures Valid()
      ensures removed <==> socket.id in old(bySocket)
      ensures State() == Removed(old(State()), socket.id)
    {
      if socket.id !in bySocket {
        return false;
      }
      ghost var t := State();
      RemovedConsistent(t, socket.id);
      var entry := bySocket[socket.id];
      var key := EntryKey(entry);
      var addonList := if key in byKey then byKey[key] else [];
      addonList := SpliceOut(addonList, socket.id);
      bySocket := bySocket - {socket.id};
      if |addonList| == 0 {
        byKey := byKey - {key};
      } else {
        byKey := byKey[key := addonList];
      }
      removed := true;
      assert State() == Removed(t, socket.id);
    }

    /** `socketLookupBySocket(socket)`: the stored entry (which is listed
        under its own composite key), or None. */
    method SocketLookupBySocket(socket: Socket) returns (r: Option<Entry>)
      requires Valid()
      ensures r.Some? <==> socket.id in bySocket
      ensures r.Some? ==> r.value == bySocket[socket.id] && r.value.socket.id == socket.id
      ensures r.Some? ==> r.value in ListAt(State(), EntryKey(r.value))
    {
      r := if socket.id in bySocket then Some(bySocket[socket.id]) else None;
    }

    /** `socketLookupByUser(userId, addonId)` as written: it builds the key
        from `{ userId, addonId }`, an object without `owner`, so the key
        computation throws before any list is returned. */
    method SocketLookupByUser(userId: string, addonId: string) returns (r: Result<seq<Entry>, KeyError>)
      ensures r == Failure(OwnerUndefined)
    {
      var key := UserAddonKey(KeyInfo(None, addonId));
      r := match key
        case None => Failure(OwnerUndefined)
        case Some(k) => Success(ListAt(State(), k));
    }

    /** `socketLookupByUser` as its comment describes it: every entry listed
        for that user and addon, in registration order, possibly none. */
    method SocketLookupByUserCorrected(userId: string, addonId: string) returns (r: seq<Entry>)
      requires Valid()
      ensures r == ListAt(State(), CompositeKey(userId, addonId))
      ensures forall e | e in r ::
        EntryKey(e) == CompositeKey(userId, addonId) &&
        e.socket.id in bySocket && bySocket[e.socket.id] == e
      ensures '.' !in userId ==>
        forall e | e in r && '.' !in e.owner.userId :: e.owner.userId == userId && e.addonId == addonId
    {
      var key := UserAddonKey(KeyInfo(Some(Owner(userId, "")), addonId));
      r := ListAt(State(), key.value);
      forall e | e in r && '.' !in userId && '.' !in e.owner.userId
        ensures e.owner.userId == userId && e.addonId == addonId
      {
        CompositeKeyInjective(e.owner.userId, e.addonId, userId, addonId);
      }
    }
  }
}
