/** The local record store of lib/storage.ts: the IndexedDB database "alcance-sol-db" with its
    `messages` and `session` object stores, the lazily opened handle, and the message and
    session operations over them. */
module Storage {
  import opened Wrappers
  import opened Types
  import opened TimestampIndex

  const DB_NAME := "alcance-sol-db"
  const DB_VERSION: nat := 1
  const SESSION_KEY := "current_session"

  /** The `messages` object store: its key path, its one index, the records by key, and the
      index entries in ascending index order. */
  datatype MessageStore = MessageStore(
    keyPath: string,
    indexName: string,
    indexKeyPath: string,
    records: map<string, MessageItem>,
    byTimestamp: seq<IndexEntry>)

  /** The `session` object store. */
  datatype SessionStore = SessionStore(keyPath: string, records: map<string, UserSession>)

  /** What the browser keeps on disk for the database: its schema version and the object
      stores that exist. */
  datatype Disk = Disk(version: nat, messages: Option<MessageStore>, session: Option<SessionStore>)

  datatype StorageError = OpenFailed | RequestFailed

  /** A database that has never been opened on this device. */
  const EMPTY_DISK := Disk(0, None, None)

  /** The index holds exactly one entry per record: its timestamp and its key. */
  ghost predicate IndexMatches(idx: seq<IndexEntry>, records: map<string, MessageItem>)
  {
    forall e :: e in idx <==> e.key in records && records[e.key].timestamp == e.timestamp
  }

  ghost predicate MessageStoreOk(t: MessageStore)
  {
    && t.keyPath == "id" && t.indexName == "by-timestamp" && t.indexKeyPath == "timestamp"
    && (forall k :: k in t.records ==> t.records[k].id == k)
    && Sorted(t.byTimestamp)
    && IndexMatches(t.byTimestamp, t.records)
  }

  /** Records sit under their `email` key path; since only `setSession` writes here, and always
      under the fixed key, there is never more than one. */
  ghost predicate SessionStoreOk(t: SessionStore)
  {
    && t.keyPath == "email"
    && (forall k :: k in t.records ==> t.records[k].email == k)
    && t.records.Keys <= {SESSION_KEY}
  }

  ghost predicate WellFormed(d: Disk)
  {
    && d.version <= DB_VERSION
    && (d.version == DB_VERSION ==> d.messages.Some? && d.session.Some?)
    && (d.messages.Some? ==> MessageStoreOk(d.messages.value))
    && (d.session.Some? ==> SessionStoreOk(d.session.value))
  }

  function MessageRecords(d: Disk): (r: map<string, MessageItem>)
  {
    if d.messages.Some? then d.messages.value.records else map[]
  }

  function SessionRecords(d: Disk): (r: map<string, UserSession>)
  {
    if d.session.Some? then d.session.value.records else map[]
  }

  /** The `upgrade` callback: create each object store that is missing, with its key path
      (and, for `messages`, the `by-timestamp` index over `timestamp`). */
  function Upgrade(d: Disk): (r: Disk)
    ensures r.version == d.version
    ensures r.messages.Some? && r.session.Some?
    ensures d.messages.Some? ==> r.messages == d.messages
    ensures d.session.Some? ==> r.session == d.session
    ensures d.messages.None? ==>
      && r.messages.value.keyPath == "id" && r.messages.value.records == map[]
      && r.messages.value.indexName == "by-timestamp" && r.messages.value.indexKeyPath == "timestamp"
    ensures d.session.None? ==> r.session.value.keyPath == "email" && r.session.value.records == map[]
  {
    d.(messages := if d.messages.None? then Some(MessageStore("id", "by-timestamp", "timestamp", map[], []))
                   else d.messages,
       session := if d.session.None? then Some(SessionStore("email", map[])) else d.session)
  }

  /** `openDB(DB_NAME, DB_VERSION, …)` once the engine has granted the request: a database older
      than DB_VERSION is upgraded and stamped with the new version. */
  function Open(d: Disk): (r: Disk)
    ensures r.version == if d.version < DB_VERSION then DB_VERSION else d.version
    ensures d.version >= DB_VERSION ==> r == d
    ensures MessageRecords(r) == MessageRecords(d) && SessionRecords(r) == SessionRecords(d)
  {
    if d.version < DB_VERSION then Upgrade(d).(version := DB_VERSION) else d
  }

  /** The upgrade step leaves existing stores and their records alone, so running it again
      changes nothing. */
  lemma UpgradeIdempotent(d: Disk)
    ensures Upgrade(Upgrade(d)) == Upgrade(d)
    ensures d.messages.Some? ==> Upgrade(d).messages == d.messages
    ensures d.session.Some? ==> Upgrade(d).session == d.session
    ensures Open(Open(d)) == Open(d)
  {
  }

  /** Opening yields a database at DB_VERSION holding both stores with the declared schema,
      and every record that was there before. */
  lemma OpenEstablishesSchema(d: Disk)
    requires WellFormed(d)
    ensures var o := Open(d);
      && WellFormed(o) && o.version == DB_VERSION
      && o.messages.Some? && o.messages.value.keyPath == "id"
      && o.messages.value.indexName == "by-timestamp" && o.messages.value.indexKeyPath == "timestamp"
      && o.session.Some? && o.session.value.keyPath == "email"
      && MessageRecords(o) == MessageRecords(d) && SessionRecords(o) == SessionRecords(d)
  {
  }

  /** `put` on the messages store: an upsert under `m.id`. */
  function PutMessage(t: MessageStore, m: MessageItem): (r: MessageStore)
    ensures r.keyPath == t.keyPath && r.indexName == t.indexName && r.indexKeyPath == t.indexKeyPath
    ensures r.records == t.records[m.id := m]
    ensures forall e :: e in r.byTimestamp <==>
      (e in t.byTimestamp && e.key != m.id) || e == IndexEntry(m.timestamp, m.id)
  {
    t.(records := t.records[m.id := m],
       byTimestamp := Insert(RemoveKey(t.byTimestamp, m.id), IndexEntry(m.timestamp, m.id)))
  }

  /** `delete` on the messages store; an absent key is no error. */
  function RemoveMessage(t: MessageStore, id: string): (r: MessageStore)
    ensures r.keyPath == t.keyPath && r.indexName == t.indexName && r.indexKeyPath == t.indexKeyPath
    ensures r.records == t.records - {id}
    ensures forall e :: e in r.byTimestamp <==> e in t.byTimestamp && e.key != id
  {
    t.(records := t.records - {id}, byTimestamp := RemoveKey(t.byTimestamp, id))
  }

  lemma PutMessageOk(t: MessageStore, m: MessageItem)
    requires MessageStoreOk(t)
    ensures MessageStoreOk(PutMessage(t, m))
    ensures PutMessage(t, m).records == t.records[m.id := m]
  {
    RemoveKeySorted(t.byTimestamp, m.id);
    InsertSorted(RemoveKey(t.byTimestamp, m.id), IndexEntry(m.timestamp, m.id));
  }

  lemma RemoveMessageOk(t: MessageStore, id: string)
    requires MessageStoreOk(t)
    ensures MessageStoreOk(RemoveMessage(t, id))
    ensures RemoveMessage(t, id).records == t.records - {id}
    ensures id !in t.records ==> RemoveMessage(t, id).records == t.records
  {
    RemoveKeySorted(t.byTimestamp, id);
  }

  /** Each index entry names a stored record with that timestamp, and each record has one. */
  lemma IndexEntriesMatch(t: MessageStore)
    requires MessageStoreOk(t)
    ensures forall i :: 0 <= i < |t.byTimestamp| ==>
      && t.byTimestamp[i].key in t.records
      && IndexEntry(t.records[t.byTimestamp[i].key].timestamp, t.records[t.byTimestamp[i].key].id) == t.byTimestamp[i]
    ensures forall k :: k in t.records ==> exists i :: 0 <= i < |t.byTimestamp| && t.byTimestamp[i].key == k
  {
    forall i | 0 <= i < |t.byTimestamp|
      ensures t.byTimestamp[i].key in t.records
      ensures IndexEntry(t.records[t.byTimestamp[i].key].timestamp, t.records[t.byTimestamp[i].key].id) == t.byTimestamp[i]
    {
      assert t.byTimestamp[i] in t.byTimestamp;
    }
    forall k | k in t.records ensures exists i :: 0 <= i < |t.byTimestamp| && t.byTimestamp[i].key == k {
      assert IndexEntry(t.records[k].timestamp, k) in t.byTimestamp;
    }
  }

  /** `getAllFromIndex("messages", "by-timestamp")`: every stored record, each at the position
      of its index entry, so in strictly ascending (timestamp, id) order. */
  function Scan(t: MessageStore): (r: seq<MessageItem>)
    requires MessageStoreOk(t)
    ensures |r| == |t.byTimestamp|
    ensures forall i :: 0 <= i < |r| ==> r[i].id in t.records && t.records[r[i].id] == r[i]
    ensures forall i :: 0 <= i < |r| ==> IndexEntry(r[i].timestamp, r[i].id) == t.byTimestamp[i]
    ensures forall i, j :: 0 <= i < j < |r| ==>
      EntryLess(IndexEntry(r[i].timestamp, r[i].id), IndexEntry(r[j].timestamp, r[j].id))
    ensures forall k :: k in t.records ==> exists i :: 0 <= i < |r| && r[i] == t.records[k]
  {
    IndexEntriesMatch(t);
    seq(|t.byTimestamp|, i requires 0 <= i < |t.byTimestamp| => t.records[t.byTimestamp[i].key])
  }

  function Reversed<T>(s: seq<T>): (r: seq<T>)
  {
    if s == [] then [] else Reversed(s[1..]) + [s[0]]
  }

  lemma {:induction false} ReversedAt<T>(s: seq<T>, k: nat)
    requires k < |s|
    ensures |Reversed(s)| == |s| && Reversed(s)[k] == s[|s| - 1 - k]
  {
    if |s| > 1 {
      ReversedAt(s[1..], if k < |s| - 1 then k else 0);
    }
  }

  lemma ReversedLength<T>(s: seq<T>)
    ensures |Reversed(s)| == |s|
  {
    if s != [] { ReversedAt(s, 0); }
  }

  /** `Array.prototype.reverse`: reverses the array in place. */
  method ReverseInPlace<T>(a: array<T>)
    modifies a
    ensures a[..] == Reversed(old(a[..]))
  {
    var n, i := a.Length, 0;
    while i < n / 2
      invariant 0 <= i <= n / 2
      invariant forall k :: 0 <= k < i ==> a[k] == old(a[n - 1 - k]) && a[n - 1 - k] == old(a[k])
      invariant forall k :: i <= k < n - i ==> a[k] == old(a[k])
    {
      a[i], a[n - 1 - i] := a[n - 1 - i], a[i];
      i := i + 1;
    }
    ghost var was := old(a[..]);
    ReversedLength(was);
    forall k | 0 <= k < n ensures a[..][k] == Reversed(was)[k] {
      ReversedAt(was, k);
    }
  }

  /** What `listMessages` returns, the reversed index scan, holds every stored message exactly
      once, newest first: timestamps never increase along the list, and among equal timestamps
      the keys decrease. An empty store gives the empty list. */
  lemma NewestFirst(t: MessageStore)
    requires MessageStoreOk(t)
    ensures var r := Reversed(Scan(t));
      && |r| == |t.byTimestamp|
      && (forall i :: 0 <= i < |r| ==> r[i].id in t.records && t.records[r[i].id] == r[i])
      && (forall k :: k in t.records ==> exists i :: 0 <= i < |r| && r[i] == t.records[k])
      && (forall i, j :: 0 <= i < j < |r| ==>
            EntryLess(IndexEntry(r[j].timestamp, r[j].id), IndexEntry(r[i].timestamp, r[i].id)))
      && (t.records == map[] ==> r == [])
  {
    var s := Scan(t);
    var r := Reversed(s);
    ReversedLength(s);
    forall i | 0 <= i < |r|
      ensures r[i].id in t.records && t.records[r[i].id] == r[i]
    {
      ReversedAt(s, i);
    }
    ListingOrdered(t);
    ListingComplete(t);
  }

  lemma ListingOrdered(t: MessageStore)
    requires MessageStoreOk(t)
    ensures var r := Reversed(Scan(t));
      forall i, j :: 0 <= i < j < |r| ==>
        EntryLess(IndexEntry(r[j].timestamp, r[j].id), IndexEntry(r[i].timestamp, r[i].id))
  {
    var s := Scan(t);
    var r := Reversed(s);
    ReversedLength(s);
    forall i, j | 0 <= i < j < |r|
      ensures EntryLess(IndexEntry(r[j].timestamp, r[j].id), IndexEntry(r[i].timestamp, r[i].id))
    {
      ReversedAt(s, i);
      ReversedAt(s, j);
    }
  }

  lemma ListingComplete(t: MessageStore)
    requires MessageStoreOk(t)
    ensures var r := Reversed(Scan(t));
      forall k :: k in t.records ==> exists i :: 0 <= i < |r| && r[i] == t.records[k]
  {
    var s := Scan(t);
    var r := Reversed(s);
    ReversedLength(s);
    forall k | k in t.records ensures exists i :: 0 <= i < |r| && r[i] == t.records[k] {
      var p :| 0 <= p < |s| && s[p] == t.records[k];
      ReversedAt(s, |s| - 1 - p);
    }
  }

  /** For records with pairwise distinct timestamps the listing is strictly descending by
      timestamp; in general it never increases, and no message appears twice. */
  lemma NewestFirstTimestamps(t: MessageStore)
    requires MessageStoreOk(t)
    ensures var r := Reversed(Scan(t));
      && (forall i, j :: 0 <= i < j < |r| ==> r[i].timestamp >= r[j].timestamp && r[i].id != r[j].id)
      && ((forall a, b :: a in t.records && b in t.records && a != b ==>
             t.records[a].timestamp != t.records[b].timestamp) ==>
          forall i, j :: 0 <= i < j < |r| ==> r[i].timestamp > r[j].timestamp)
  {
    NewestFirst(t);
    var r := Reversed(Scan(t));
    forall i, j | 0 <= i < j < |r| ensures r[i].id != r[j].id {
      EntryLessIrreflexive(IndexEntry(r[j].timestamp, r[j].id));
    }
  }

  /** The store as one page sees it: the on-disk database and the module-level `dbInstance`
      handle, which is `connected` once `getDB` has opened it. */
  class LocalStore {
    var disk: Disk
    var connected: bool

    ghost predicate Valid()
      reads this
    {
      WellFormed(disk) && (connected ==> disk.version == DB_VERSION)
    }

    function Messages(): map<string, MessageItem>
      reads this
    {
      MessageRecords(disk)
    }

    function Sessions(): map<string, UserSession>
      reads this
    {
      SessionRecords(disk)
    }

    /** A page load over whatever the device already stores; the handle starts out null. */
    constructor (d: Disk)
      requires WellFormed(d)
      ensures Valid() && disk == d && !connected
    {
      disk := d;
      connected := false;
    }

    /** `getDB`: returns the existing handle without reopening; otherwise opens (and, on a new
        device, upgrades) the database. `openOk` says whether the engine grants the open. */
    method GetDB(openOk: bool) returns (r: Outcome<StorageError>)
      requires Valid()
      modifies this
      ensures Valid()
      ensures old(connected) ==> r == Pass && connected && disk == old(disk)
      ensures !old(connected) && openOk ==> r == Pass && connected && disk == Open(old(disk))
      ensures !old(connected) && !openOk ==> r == Fail(OpenFailed) && !connected && disk == old(disk)
    {
      if connected {
        return Pass;
      }
      if !openOk {
        return Fail(OpenFailed);
      }
      OpenEstablishesSchema(disk);
      disk := Open(disk);
      connected := true;
      r := Pass;
    }

    /** `addMessage`: `put` into `messages`, an upsert under `m.id`. `requestOk` says whether the
        engine completes the request; a failed request writes nothing. */
    method AddMessage(m: MessageItem, openOk: bool, requestOk: bool) returns (r: Outcome<StorageError>)
      requires Valid()
      modifies this
      ensures Valid()
      ensures connected == (old(connected) || openOk)
      ensures r.Pass? <==> connected && requestOk
      ensures Messages() == if r.Pass? then old(Messages())[m.id := m] else old(Messages())
      ensures Sessions() == old(Sessions())
      ensures !connected ==> disk == old(disk)
    {
      OpenEstablishesSchema(disk);
      r := GetDB(openOk);
      if r.Fail? {
        return;
      }
      if !requestOk {
        return Fail(RequestFailed);
      }
      PutMessageOk(disk.messages.value, m);
      disk := disk.(messages := Some(PutMessage(disk.messages.value, m)));
    }

    /** `updateMessage`: the same `put` as `addMessage`. */
    method UpdateMessage(m: MessageItem, openOk: bool, requestOk: bool) returns (r: Outcome<StorageError>)
      requires Valid()
      modifies this
      ensures Valid()
      ensures connected == (old(connected) || openOk)
      ensures r.Pass? <==> connected && requestOk
      ensures Messages() == if r.Pass? then old(Messages())[m.id := m] else old(Messages())
      ensures Sessions() == old(Sessions())
      ensures !connected ==> disk == old(disk)
    {
      r := AddMessage(m, openOk, requestOk);
    }

    /** `listMessages`: the index scan, reversed in place into newest-first order. */
    method ListMessages(openOk: bool, requestOk: bool) returns (r: Result<seq<MessageItem>, StorageError>)
      requires Valid()
      modifies this
      ensures Valid()
      ensures connected == (old(connected) || openOk)
      ensures r.Success? <==> connected && requestOk
      ensures r.Success? ==> disk.messages.Some? && r.value == Reversed(Scan(disk.messages.value))
      ensures Messages() == old(Messages()) && Sessions() == old(Sessions())
      ensures !connected ==> disk == old(disk)
    {
      OpenEstablishesSchema(disk);
      var g := GetDB(openOk);
      if g.Fail? {
        return Failure(g.error);
      }
      if !requestOk {
        return Failure(RequestFailed);
      }
      var scan := Scan(disk.messages.value);
      var a := new MessageItem[|scan|](i requires 0 <= i < |scan| => scan[i]);
      assert a[..] == scan;
      ReverseInPlace(a);
      r := Success(a[..]);
    }

    /** `getMessage`: the record under `id`, or nothing when there is none. */
    method GetMessage(id: string, openOk: bool, requestOk: bool) returns (r: Result<Option<MessageItem>, StorageError>)
      requires Valid()
      modifies this
      ensures Valid()
      ensures connected == (old(connected) || openOk)
      ensures r.Success? <==> connected && requestOk
      ensures r.Success? ==> r.value == if id in Messages() then Some(Messages()[id]) else None
      ensures Messages() == old(Messages()) && Sessions() == old(Sessions())
      ensures !connected ==> disk == old(disk)
    {
      OpenEstablishesSchema(disk);
      var g := GetDB(openOk);
      if g.Fail? {
        return Failure(g.error);
      }
      if !requestOk {
        return Failure(RequestFailed);
      }
      var records := disk.messages.value.records;
      r := Success(if id in records then Some(records[id]) else None);
    }

    /** `deleteMessage`: removes the record under `id` and nothing else; an absent `id` is no
        error and changes nothing. */
    method DeleteMessage(id: string, openOk: bool, requestOk: bool) returns (r: Outcome<StorageError>)
      requires Valid()
      modifies this
      ensures Valid()
      ensures connected == (old(connected) || openOk)
      ensures r.Pass? <==> connected && requestOk
      ensures Messages() == if r.Pass? then old(Messages()) - {id} else old(Messages())
      ensures Sessions() == old(Sessions())
      ensures !connected ==> disk == old(disk)
    {
      OpenEstablishesSchema(disk);
      r := GetDB(openOk);
      if r.Fail? {
        return;
      }
      if !requestOk {
        return Fail(RequestFailed);
      }
      RemoveMessageOk(disk.messages.value, id);
      disk := disk.(messages := Some(RemoveMessage(disk.messages.value, id)));
    }

    /** `getSession`: the record under the fixed key; no record and every error alike give
        null, since the function catches whatever the store throws. */
    method GetSession(openOk: bool, requestOk: bool) returns (r: Option<UserSession>)
      requires Valid()
      modifies this
      ensures Valid()
      ensures connected == (old(connected) || openOk)
      ensures r == if connected && requestOk && SESSION_KEY in Sessions() then Some(Sessions()[SESSION_KEY]) else None
      ensures Messages() == old(Messages()) && Sessions() == old(Sessions())
      ensures !connected ==> disk == old(disk)
    {
      OpenEstablishesSchema(disk);
      var g := GetDB(openOk);
      if g.Fail? || !requestOk {
        return None;
      }
      var records := disk.session.value.records;
      r := if SESSION_KEY in records then Some(records[SESSION_KEY]) else None;
    }

    /** `setSession`: `put` of the session with its `email` overwritten by the fixed key. */
    method SetSession(s: UserSession, openOk: bool, requestOk: bool) returns (r: Outcome<StorageError>)
      requires Valid()
      modifies this
      ensures Valid()
      ensures connected == (old(connected) || openOk)
      ensures r.Pass? <==> connected && requestOk
      ensures Sessions() == if r.Pass? then map[SESSION_KEY := s.(email := SESSION_KEY)] else old(Sessions())
      ensures Messages() == old(Messages())
      ensures !connected ==> disk == old(disk)
    {
      OpenEstablishesSchema(disk);
      r := GetDB(openOk);
      if r.Fail? {
        return;
      }
      if !requestOk {
        return Fail(RequestFailed);
      }
      var record := s.(email := SESSION_KEY);
      var store := disk.session.value;
      assert store.records.Keys <= {SESSION_KEY};
      var records := store.records[record.email := record];
      assert records == map[SESSION_KEY := record];
      disk := disk.(session := Some(store.(records := records)));
    }

    /** `clearSession`: deletes the record under the fixed key, leaving no session. */
    method ClearSession(openOk: bool, requestOk: bool) returns (r: Outcome<StorageError>)
      requires Valid()
      modifies this
      ensures Valid()
      ensures connected == (old(connected) || openOk)
      ensures r.Pass? <==> connected && requestOk
      ensures Sessions() == if r.Pass? then map[] else old(Sessions())
      ensures Messages() == old(Messages())
      ensures !connected ==> disk == old(disk)
    {
      OpenEstablishesSchema(disk);
      r := GetDB(openOk);
      if r.Fail? {
        return;
      }
      if !requestOk {
        return Fail(RequestFailed);
      }
      var store := disk.session.value;
      var records := store.records - {SESSION_KEY};
      assert records == map[];
      disk := disk.(session := Some(store.(records := records)));
    }
  }

  /** After `addMessage(m)`, `getMessage(m.id)` gives back `m`; a later put with the same id
      wins; the messages end as before with only `m.id` replaced. */
  method PutThenGet(d: Disk, m: MessageItem, m2: MessageItem)
    returns (first: Result<Option<MessageItem>, StorageError>, second: Result<Option<MessageItem>, StorageError>,
             final: map<string, MessageItem>)
    requires WellFormed(d) && m2.id == m.id
    ensures first == Success(Some(m)) && second == Success(Some(m2))
    ensures final == MessageRecords(d)[m.id := m2]
  {
    var s := new LocalStore(d);
    OpenEstablishesSchema(d);
    var r := s.AddMessage(m, true, true);
    first := s.GetMessage(m.id, true, true);
    r := s.UpdateMessage(m2, true, true);
    second := s.GetMessage(m2.id, true, true);
    final := s.Messages();
  }

  /** Deleting an id that is not stored succeeds and changes nothing. */
  method DeleteAbsent(d: Disk, id: string) returns (r: Outcome<StorageError>, final: map<string, MessageItem>)
    requires WellFormed(d) && id !in MessageRecords(d)
    ensures r == Pass && final == MessageRecords(d)
  {
    var s := new LocalStore(d);
    OpenEstablishesSchema(d);
    r := s.DeleteMessage(id, true, true);
    final := s.Messages();
  }

  /** `getSession` after `setSession(x)` gives `x` with its email replaced by the fixed key;
      after `clearSession` it gives null. */
  method SessionRoundTrip(d: Disk, x: UserSession)
    returns (afterSet: Option<UserSession>, afterClear: Option<UserSession>)
    requires WellFormed(d)
    ensures afterSet == Some(UserSession(SESSION_KEY, x.loggedIn, x.timestamp))
    ensures afterClear == None
  {
    var s := new LocalStore(d);
    var r := s.SetSession(x, true, true);
    afterSet := s.GetSession(true, true);
    r := s.ClearSession(true, true);
    afterClear := s.GetSession(true, true);
  }
}
