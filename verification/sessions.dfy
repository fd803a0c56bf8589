/**
  `SocketioUserSessionStorage`: per-connection data kept by the Socket.IO
  server, keyed by the connection's session id (sid). Each entry is a
  dictionary from string keys to values.
 */
module Sessions {

  import opened Wrappers

  type Sid = string

  /** One connection's data, a Python dict with string keys. */
  type SessionData<V> = map<string, V>

  datatype Storage<V> = Storage(entries: map<Sid, SessionData<V>>)

  /** The storage the server starts with. */
  function Empty<V>(): (st: Storage<V>)
    ensures forall sid :: Get(st, sid) == None
  {
    Storage(map[])
  }

  /**
    `d.update(e)`: every key of `e` takes its value from `e`, every other key
    of `d` keeps its value, and no other key appears.
   */
  function Update<V>(d: SessionData<V>, e: SessionData<V>): (r: SessionData<V>)
    ensures r.Keys == d.Keys + e.Keys
    ensures forall k :: k in e ==> r[k] == e[k]
    ensures forall k :: k in d && k !in e ==> r[k] == d[k]
  {
    d + e
  }

  /** `save(sid, sdata)`: store `sdata` for a new sid, merge it into an existing entry. */
  function Save<V>(st: Storage<V>, sid: Sid, sdata: SessionData<V>): (r: Storage<V>)
    ensures sid !in st.entries ==> Get(r, sid) == Some(sdata)
    ensures sid in st.entries ==> Get(r, sid) == Some(Update(st.entries[sid], sdata))
    ensures forall other :: other != sid ==> Get(r, other) == Get(st, other)
    ensures r.entries.Keys == st.entries.Keys + {sid}
  {
    if sid !in st.entries then Storage(st.entries[sid := sdata])
    else Storage(st.entries[sid := Update(st.entries[sid], sdata)])
  }

  /** `get(sid)`: the entry for `sid`, or `None` when nothing was saved for it. */
  function Get<V>(st: Storage<V>, sid: Sid): (r: Option<SessionData<V>>)
    ensures r.None? <==> sid !in st.entries
    ensures r.Some? ==> r.value == st.entries[sid]
  {
    if sid !in st.entries then None else Some(st.entries[sid])
  }

  /** Saving the same data twice for one sid is the same as saving it once. */
  lemma SaveIdempotent<V>(st: Storage<V>, sid: Sid, sdata: SessionData<V>)
    ensures Save(Save(st, sid, sdata), sid, sdata) == Save(st, sid, sdata)
  {
    var once := Save(st, sid, sdata);
    var d := once.entries[sid];
    assert Update(d, sdata) == d;
  }

  /** Saves for two different sids commute. */
  lemma SaveCommutes<V>(st: Storage<V>, a: Sid, da: SessionData<V>, b: Sid, db: SessionData<V>)
    requires a != b
    ensures Save(Save(st, a, da), b, db) == Save(Save(st, b, db), a, da)
  {
  }

  /**
    Two successive saves for one sid leave the same entry as one save of
    the second dict merged over the first.
   */
  lemma SaveTwiceMerges<V>(st: Storage<V>, sid: Sid, d1: SessionData<V>, d2: SessionData<V>)
    ensures Save(Save(st, sid, d1), sid, d2) == Save(st, sid, Update(d1, d2))
  {
    if sid in st.entries {
      var e := st.entries[sid];
      assert Update(Update(e, d1), d2) == Update(e, Update(d1, d2));
    }
  }
}
