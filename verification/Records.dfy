/** The records of `storage.proto`, with unset text fields empty. */
module Records {

  datatype TransState = Begin | Prepared | Committed | RolledBack

  /** A transaction on one participant; `members` are the hash ids of its participants. */
  datatype Trans = Trans(state: TransState, startTs: string, commitTs: string, selfTs: string, members: seq<nat>)
  {
    predicate Finished() {
      state.Committed? || state.RolledBack?
    }

    /** Prepared at some time: rolling back an unprepared record leaves its member list empty. */
    predicate EverPrepared() {
      !state.Begin? && !(state.RolledBack? && members == [])
    }
  }

  datatype WriteKind = Insert | Update | Delete

  datatype Data = Data(kind: WriteKind, value: string, next: string, version: string)

  datatype Record = TransRec(trans: Trans) | LockRec(owner: string) | DataRec(data: Data)

  function NewTrans(): Trans {
    Trans(Begin, "", "", "", [])
  }

  function MarkPrepared(t: Trans, startTs: string, hosts: seq<nat>): Trans {
    t.(state := Prepared, startTs := startTs, members := t.members + hosts)
  }
}
