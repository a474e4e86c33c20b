/** What belongs to one account: its rows in every table and the staged bytes of its sessions. */
module Views {
  import opened Model
  import opened Tables
  import opened Vault

  ghost predicate SameRows(db: Db, db': Db, b: Account) {
    forall k: RowKey :: k.account == b ==> (k in db.rows <==> k in db'.rows) &&
                                           (k in db.rows ==> db.rows[k] == db'.rows[k])
  }

  ghost predicate SameIntents(db: Db, db': Db, b: Account) {
    forall k: IntentKey :: k.account == b ==> (k in db.intents <==> k in db'.intents) &&
                                              (k in db.intents ==> db.intents[k] == db'.intents[k])
  }

  ghost predicate SameDevices(db: Db, db': Db, b: Account) {
    forall k: DeviceKey :: k.account == b ==> (k in db.devices <==> k in db'.devices) &&
                                              (k in db.devices ==> db.devices[k] == db'.devices[k])
  }

  ghost predicate SameBlobs(db: Db, db': Db, b: Account) {
    forall k: BlobKey :: k.account == b ==> (k in db.blobs <==> k in db'.blobs) &&
                                            (k in db.blobs ==> db.blobs[k] == db'.blobs[k])
  }

  ghost predicate SameSessions(db: Db, db': Db, b: Account) {
    forall u :: (Owns(db, b, u) <==> Owns(db', b, u)) && (Owns(db, b, u) ==> db.sessions[u] == db'.sessions[u])
  }

  ghost predicate SameParts(w: World, w': World, b: Account) {
    forall k: PartKey :: Owns(w.db, b, k.upload) ==>
      && (k in w.db.parts <==> k in w'.db.parts) && (k in w.db.parts ==> w.db.parts[k] == w'.db.parts[k])
      && (k in w.disk.staged <==> k in w'.disk.staged) && (k in w.disk.staged ==> w.disk.staged[k] == w'.disk.staged[k])
  }

  ghost predicate SameIdentity(db: Db, db': Db, b: Account) {
    && (b in db.registry <==> b in db'.registry)
    && (forall c :: (c in db.credentials && db.credentials[c].account == b) <==>
        (c in db'.credentials && db'.credentials[c].account == b))
    && (forall c :: c in db.credentials && db.credentials[c].account == b ==> db.credentials[c] == db'.credentials[c])
  }

  /** The two worlds are the same as far as account b goes. */
  ghost predicate Agree(w: World, w': World, b: Account) {
    && Counter(w.db, b) == Counter(w'.db, b)
    && SameRows(w.db, w'.db, b)
    && SameIntents(w.db, w'.db, b)
    && SameDevices(w.db, w'.db, b)
    && SameBlobs(w.db, w'.db, b)
    && SameSessions(w.db, w'.db, b)
    && SameParts(w, w', b)
    && SameIdentity(w.db, w'.db, b)
  }

  lemma AgreeTransitive(w: World, w': World, w'': World, b: Account)
    requires Agree(w, w', b) && Agree(w', w'', b)
    ensures Agree(w, w'', b)
  {
  }

  lemma AgreeSymmetric(w: World, w': World, b: Account)
    requires Agree(w, w', b)
    ensures Agree(w', w, b)
  {
  }
}
