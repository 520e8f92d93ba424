/** The remote database, reduced to the two collections the app uses:
    users/{uid} and treinos/{key}. Whether a read or a write reaches the
    backend is not decided here: each operation takes that outcome as a
    parameter, and a failed write leaves the collection as it was. */
module Store {
  import opened Wrappers
  import opened Records

  /** The outcome of a one-shot read of one node. */
  datatype ReadResult = ReadFailed | Read(node: Option<Fields>)

  /** The node a child write lands in: the stored one, or a new empty one. */
  function NodeOrEmpty(users: map<string, Fields>, uid: string): Fields {
    if uid in users then users[uid] else map[]
  }

  /** The `users` collection. */
  class UsersStore {
    var users: map<string, Fields>

    constructor (initial: map<string, Fields>)
      ensures users == initial
    {
      users := initial;
    }

    /** A one-shot read of the node stored under `uid`. */
    method Get(uid: string, ok: bool) returns (r: ReadResult)
      ensures ok ==> r == Read(if uid in users then Some(users[uid]) else None)
      ensures !ok ==> r == ReadFailed
    {
      if !ok {
        r := ReadFailed;
      } else if uid in users {
        r := Read(Some(users[uid]));
      } else {
        r := Read(None);
      }
    }

    /** Writing a whole node under `uid`: it replaces whatever was stored. */
    method SetValue(uid: string, node: Fields, ok: bool)
      modifies this
      ensures users == if ok then old(users)[uid := node] else old(users)
    {
      if ok {
        users := users[uid := node];
      }
    }

    /** Writing one child of the node under `uid`: sets that child, creating the
        node if needed, and leaves the node's other children alone. */
    method SetChild(uid: string, name: string, value: string, ok: bool)
      modifies this
      ensures users == if ok then old(users)[uid := NodeOrEmpty(old(users), uid)[name := value]]
                       else old(users)
    {
      if ok {
        users := users[uid := NodeOrEmpty(users, uid)[name := value]];
      }
    }
  }

  /** The `treinos` collection. */
  class WorkoutStore {
    var treinos: map<string, Treino>

    constructor (initial: map<string, Treino>)
      ensures treinos == initial
    {
      treinos := initial;
    }

    /** Writing a workout under its key. */
    method SetValue(key: string, t: Treino, ok: bool)
      modifies this
      ensures treinos == if ok then old(treinos)[key := t] else old(treinos)
    {
      if ok {
        treinos := treinos[key := t];
      }
    }

    /** Deleting the workout under `key`: removing a missing key succeeds and
        changes nothing. */
    method RemoveValue(key: string, ok: bool)
      modifies this
      ensures treinos == if ok then old(treinos) - {key} else old(treinos)
    {
      if ok {
        treinos := treinos - {key};
      }
    }
  }

  /** Deleting a key that is not stored leaves the collection unchanged. */
  lemma RemoveMissingIsNoOp(treinos: map<string, Treino>, key: string)
    requires key !in treinos
    ensures treinos - {key} == treinos
  {
  }
}
