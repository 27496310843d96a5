/**
 * DockerRegistryPrivateService: upload sessions on temporary files, and the sequences of storage
 * operations behind blobs and manifests, proved against Registry.dfy and Uploads.dfy.
 */
module RegistryService {
  import opened Digests
  import opened Layout
  import opened Ranges
  import opened Store
  import opened FileStorage
  import opened Publishing
  import opened ReferenceKeys
  import opened Registry
  import opened Uploads

  /** The fields of a session: `file` is the path of its temporary file, or none once it is discarded. */
  datatype SessionState = SessionState(uuid: string, name: string, created: int, offset: int, file: Option<string>)

  class UploadSession {
    const uuid: string
    const name: string
    const createdAt: int
    var offset: int
    var file: Option<string>

    constructor (uuid: string, name: string, createdAt: int, file: string)
      ensures State() == SessionState(uuid, name, createdAt, 0, Some(file))
    {
      this.uuid, this.name, this.createdAt := uuid, name, createdAt;
      this.offset, this.file := 0, Some(file);
    }

    ghost function State(): SessionState
      reads this
    {
      SessionState(uuid, name, createdAt, offset, file)
    }
  }

  /** The value of the sessions: the fields of each, whose each temporary file is, and what they collect. */
  datatype Book = Book(states: map<string, SessionState>, owner: map<string, string>, sessions: Sessions)

  /**
   * The sessions in the map and the live temporary files fit together: each session is filed under its
   * UUID and has a temporary file of its own, and no other temporary file is live.
   */
  ghost predicate Consistent(book: Book, tempFiles: map<string, Bytes>) {
    && book.sessions.Keys == book.states.Keys
    && tempFiles.Keys == book.owner.Keys
    && (forall u | u in book.states ::
          Fits(u, book.states[u], tempFiles, book.owner) && book.sessions[u] == ValueOf(book.states[u], tempFiles))
    && (forall f | f in book.owner ::
          book.owner[f] in book.states && book.states[book.owner[f]].file == Some(f))
  }

  predicate Fits(u: string, s: SessionState, tempFiles: map<string, Bytes>, owner: map<string, string>) {
    s.uuid == u && s.file.Some? && s.file.value in tempFiles && s.file.value in owner && owner[s.file.value] == u
  }

  function ValueOf(s: SessionState, tempFiles: map<string, Bytes>): Session
    requires s.file.Some? && s.file.value in tempFiles
  {
    Session(s.name, tempFiles[s.file.value], s.offset, s.created)
  }

  lemma StartIsConsistent(book: Book, tempFiles: map<string, Bytes>, name: string, uuid: string, file: string, now: int)
    requires Consistent(book, tempFiles) && uuid !in book.states && file !in tempFiles
    ensures Consistent(Book(book.states[uuid := SessionState(uuid, name, now, 0, Some(file))], book.owner[file := uuid],
                            StartUpload(book.sessions, name, uuid, now)),
                       tempFiles[file := []])
  {}

  lemma ChunkIsConsistent(book: Book, tempFiles: map<string, Bytes>, uuid: string, r: Reader)
    requires Consistent(book, tempFiles) && uuid in book.states && r.Reader?
    ensures book.states[uuid].file.Some? && book.states[uuid].file.value in tempFiles
    ensures uuid in book.sessions && book.sessions[uuid].name == book.states[uuid].name
    ensures var s := book.states[uuid];
            var file, offset := s.file.value, s.offset + if r.fails then 0 else |r.data|;
            var (sessions, res) := UploadChunk(book.sessions, s.name, uuid, r);
            && res == (if r.fails then Err(ReadFailed) else Ok(offset))
            && Consistent(Book(book.states[uuid := s.(offset := offset)], book.owner, sessions),
                          tempFiles[file := tempFiles[file] + r.data])
  {}

  lemma DropIsConsistent(book: Book, tempFiles: map<string, Bytes>, uuid: string)
    requires Consistent(book, tempFiles) && uuid in book.states
    ensures book.states[uuid].file.Some? && book.states[uuid].file.value in tempFiles
    ensures uuid in book.sessions && book.sessions[uuid] == ValueOf(book.states[uuid], tempFiles)
    ensures var file := book.states[uuid].file.value;
            Consistent(Book(book.states - {uuid}, book.owner - {file}, book.sessions - {uuid}), tempFiles - {file})
  {}

  lemma StatesAreFiled(book: Book, tempFiles: map<string, Bytes>)
    requires Consistent(book, tempFiles)
    ensures book.sessions.Keys == book.states.Keys && forall u | u in book.states :: book.states[u].uuid == u
  {}

  /** What the clean-up has left when the sessions in `todo` are still to be looked at. */
  function Unexpired(before: Sessions, todo: set<string>, now: int): Sessions {
    map u | u in before && (u in todo || !(now - before[u].created > HOUR)) :: before[u]
  }

  lemma UnexpiredNext(before: Sessions, todo: set<string>, u: string, now: int)
    requires u in todo && u in Unexpired(before, todo, now)
    ensures Unexpired(before, todo, now)[u] == before[u]
    ensures Unexpired(before, todo - {u}, now) ==
            if now - before[u].created > HOUR then Unexpired(before, todo, now) - {u} else Unexpired(before, todo, now)
  {}

  lemma UnexpiredEnds(before: Sessions, now: int)
    ensures Unexpired(before, before.Keys, now) == before
    ensures Unexpired(before, {}, now) == Expire(before, now)
  {}

  class DockerRegistryPrivateService {
    const storage: SimpleFileStorage
    const alias: string
    var uploadSessions: map<string, UploadSession>
    var tempFiles: map<string, Bytes>
    ghost var book: Book

    constructor (storage: SimpleFileStorage, alias: string)
      requires storage.Valid()
      ensures Valid() && this.storage == storage && this.alias == alias && book.sessions == map[] && tempFiles == map[]
    {
      this.storage, this.alias := storage, alias;
      uploadSessions, tempFiles, book := map[], map[], Book(map[], map[], map[]);
    }

    /** The session objects are as recorded, and together they fit the temporary files. */
    ghost predicate SessionsOk()
      reads this, uploadSessions.Values
    {
      && book.states.Keys == uploadSessions.Keys
      && (forall u | u in uploadSessions :: uploadSessions[u].State() == book.states[u])
      && Consistent(book, tempFiles)
    }

    ghost predicate Valid()
      reads this, uploadSessions.Values, storage
    {
      SessionsOk() && storage.Valid()
    }

    // Upload sessions

    /** Closes and removes the temporary file of a session that has left the map. */
    method Discard(session: UploadSession)
      modifies this`tempFiles, session
      ensures tempFiles == if old(session.file).Some? then old(tempFiles) - {old(session.file).value} else old(tempFiles)
      ensures session.file == None
    {
      if session.file.None? {
        return;
      }
      tempFiles := tempFiles - {session.file.value};
      session.file := None;
    }

    /** `uuid` and `file` are the names that uuid.New and os.CreateTemp come up with. */
    method StartBlobUpload(name: string, uuid: string, file: string, now: int)
      requires SessionsOk() && uuid !in uploadSessions && file !in tempFiles
      modifies this
      ensures SessionsOk()
      ensures book.sessions == StartUpload(old(book.sessions), name, uuid, now)
      ensures tempFiles == old(tempFiles)[file := []]
    {
      hide SimpleFileStorage.Valid, Consistent, StartUpload;
      StartIsConsistent(book, tempFiles, name, uuid, file, now);
      var session := new UploadSession(uuid, name, now, file);
      tempFiles := tempFiles[file := []];
      uploadSessions := uploadSessions[uuid := session];
      book := Book(book.states[uuid := session.State()], book.owner[file := uuid], StartUpload(book.sessions, name, uuid, now));
      forall u | u in uploadSessions ensures uploadSessions[u].State() == book.states[u] {
        if u != uuid {
          assert old(uploadSessions[u].State()) == old(book.states[u]);
        }
      }
    }

    /** The part of UploadBlobChunk that holds the session's lock: io.Copy, then the offset. */
    method Append(uuid: string, data: Reader) returns (res: Result<int>)
      requires SessionsOk() && uuid in uploadSessions && data.Reader?
      modifies this`tempFiles, this`book, uploadSessions[uuid]
      ensures SessionsOk()
      ensures (book.sessions, res) == UploadChunk(old(book.sessions), uploadSessions[uuid].name, uuid, data)
    {
      hide SimpleFileStorage.Valid, Consistent, UploadChunk;
      StatesAreFiled(book, tempFiles);
      ChunkIsConsistent(book, tempFiles, uuid, data);
      var session := uploadSessions[uuid];
      assert session.State() == book.states[uuid];
      var file := session.file.value;
      ghost var offset := session.offset + if data.fails then 0 else |data.data|;
      ghost var grown := tempFiles[file := tempFiles[file] + data.data];
      ghost var next := book.states[uuid := book.states[uuid].(offset := offset)];
      ghost var (collected, outcome) := UploadChunk(book.sessions, session.name, uuid, data);
      assert Consistent(Book(next, book.owner, collected), grown);
      book := book.(states := next, sessions := collected);
      tempFiles := tempFiles[file := tempFiles[file] + data.data];
      if data.fails {
        res := Err(ReadFailed);
      } else {
        session.offset := session.offset + |data.data|;
        res := Ok(session.offset);
      }
      assert tempFiles == grown;
      forall u | u in uploadSessions ensures uploadSessions[u].State() == book.states[u] {
        assert old(uploadSessions[u].State()).uuid == u;
      }
    }

    method UploadBlobChunk(name: string, uuid: string, data: Reader) returns (res: Result<int>)
      requires SessionsOk() && data.Reader?
      modifies this`tempFiles, this`book, uploadSessions.Values
      ensures SessionsOk()
      ensures (book.sessions, res) == UploadChunk(old(book.sessions), name, uuid, data)
    {
      hide SimpleFileStorage.Valid, Consistent;
      StatesAreFiled(book, tempFiles);
      if uuid !in uploadSessions {
        return Err(SessionNotFound);
      }
      ChunkIsConsistent(book, tempFiles, uuid, data);
      var session := uploadSessions[uuid];
      assert session.State() == book.states[uuid];
      if session.name != name {
        return Err(NameMismatch);
      }
      res := Append(uuid, data);
    }

    /** Takes a session out of the map and discards it. */
    method Drop(uuid: string)
      requires SessionsOk() && uuid in uploadSessions
      modifies this, uploadSessions[uuid]
      ensures SessionsOk() && book.sessions == old(book.sessions) - {uuid}
      ensures uploadSessions == old(uploadSessions) - {uuid}
      ensures tempFiles == old(tempFiles) - {old(uploadSessions[uuid].file.value)}
    {
      hide SimpleFileStorage.Valid, Consistent;
      StatesAreFiled(book, tempFiles);
      DropIsConsistent(book, tempFiles, uuid);
      var session := uploadSessions[uuid];
      assert session.State() == book.states[uuid];
      uploadSessions := uploadSessions - {uuid};
      book := Book(book.states - {uuid}, book.owner - {session.file.value}, book.sessions - {uuid});
      Discard(session);
      forall u | u in uploadSessions ensures uploadSessions[u].State() == book.states[u] {
        assert old(uploadSessions[u].State()).uuid == u;
      }
    }

    method CompleteBlobUpload(name: string, uuid: string, digest: string, final: Reader, upload: string, now: int)
      returns (res: Result<()>)
      requires Valid() && IsName(upload)
      modifies this, uploadSessions.Values, storage
      ensures Valid()
      ensures (storage.disk, book.sessions, res) ==
              Complete(storage.sha, old(storage.disk), old(book.sessions), alias, name, uuid, digest, final, UploadKey(upload), now)
    {
      hide SimpleFileStorage.Valid, Registry.PutBlob, Consistent;
      StatesAreFiled(book, tempFiles);
      if uuid !in uploadSessions {
        return Err(SessionNotFound);
      }
      DropIsConsistent(book, tempFiles, uuid);
      var session := uploadSessions[uuid];
      assert session.State() == book.states[uuid];
      var matches := session.name == name;
      var bytes := tempFiles[session.file.value];
      Drop(uuid);
      if !matches {
        return Err(NameMismatch);
      }
      res := PutBlob(name, digest, WholeStream(bytes, final), -1, upload, now);
    }

    method CleanupExpiredSessions(now: int)
      requires SessionsOk()
      modifies this, uploadSessions.Values
      ensures SessionsOk() && book.sessions == Expire(old(book.sessions), now)
    {
      hide SimpleFileStorage.Valid, Consistent, Unexpired;
      StatesAreFiled(book, tempFiles);
      UnexpiredEnds(book.sessions, now);
      var todo := uploadSessions.Keys;
      ghost var objects := uploadSessions.Values;
      while todo != {}
        invariant SessionsOk()
        invariant uploadSessions.Values <= objects
        invariant todo <= uploadSessions.Keys
        invariant book.sessions == Unexpired(old(book.sessions), todo, now)
        decreases |todo|
      {
        var u :| u in todo;
        DropIsConsistent(book, tempFiles, u);
        UnexpiredNext(old(book.sessions), todo, u, now);
        var session := uploadSessions[u];
        assert session.State() == book.states[u] && session in uploadSessions.Values;
        todo := todo - {u};
        if now - session.createdAt > HOUR {
          Drop(u);
        }
      }
    }

    // Blobs

    method PublishStagedBlob(temp: string, key: string) returns (res: Result<()>)
      requires storage.Valid() && IsSafe(temp) && IsSafe(key)
      modifies storage
      ensures storage.Valid()
      ensures (storage.disk, res) == PublishStaged(storage.sha, old(storage.disk), temp, key)
    {
      var moved := storage.Move(temp, key);
      if moved.Ok? {
        return moved;
      }
      var known := storage.GetMeta(Identifier(key, None));
      var _ := storage.DeleteArtifact(Identifier(temp, None));
      return if known.Ok? then Ok(()) else moved;
    }

    /** `upload` is the UUID of the staging key. */
    method PutBlob(name: string, digest: string, reader: Reader, size: int, upload: string, now: int)
      returns (res: Result<()>)
      requires storage.Valid() && IsName(upload)
      modifies storage
      ensures storage.Valid()
      ensures (storage.disk, res) ==
              Registry.PutBlob(storage.sha, old(storage.disk), alias, name, digest, reader, size, UploadKey(upload), now)
    {
      hide Create, CreatePlan, Delete, PublishStaged;
      if !(PREFIX <= digest) {
        return Err(UnsupportedDigest);
      }
      var key := StorageKey(digest);
      var temp := UploadKey(upload);
      var staged := storage.CreateArtifact(Identifier(temp, None), reader, size, None, now);
      if staged.Err? {
        return Err(staged.error);
      }
      var calculated := DigestOf(storage.sha, if reader.Reader? then reader.data else []);
      if calculated != digest {
        var _ := storage.DeleteArtifact(Identifier(temp, None));
        return Err(DigestMismatch);
      }
      StorageKeyOfDigest(digest);
      assert key == storage.sha.content(if reader.Reader? then reader.data else []);
      assert IsHex(key);
      var published := PublishStagedBlob(temp, key);
      if published.Err? {
        return published;
      }
      var ref := Reference(name, alias, now, "", map[]);
      var added := storage.CreateArtifact(Identifier(key, Some(ref)), Nil, -1, Some(ArtifactMeta(key, 0, now)), now);
      if added.Err? {
        return Err(added.error);
      }
      return Ok(());
    }

    method GetBlob(name: string, digest: string) returns (res: Result<(Bytes, int)>)
      requires storage.Valid() && SafeOrEmpty(StorageKey(digest))
      ensures res == Registry.GetBlob(storage.sha, storage.disk, digest)
    {
      hide Store.GetMeta, Store.ReadBlob;
      var key := StorageKey(digest);
      var meta := storage.GetMeta(Identifier(key, None));
      if meta.Err? {
        return Err(meta.error);
      }
      var blob := storage.ReadBlob(Identifier(key, None), ByteRange(0, -1));
      if blob.Err? {
        return Err(blob.error);
      }
      return Ok((blob.value.0, meta.value.length));
    }

    // Manifests

    method PutManifest(name: string, reference: string, data: Bytes, now: int) returns (res: Result<()>)
      requires storage.Valid()
      modifies storage
      ensures storage.Valid()
      ensures (storage.disk, res) ==
              Registry.PutManifest(storage.sha, old(storage.disk), alias, name, reference, data, now)
    {
      hide Create, CreatePlan;
      StorageKeyOfDigest(DigestOf(storage.sha, data));
      var key := StorageKey(DigestOf(storage.sha, data));
      assert key == storage.sha.content(data) && IsHex(key);
      var meta := ArtifactMeta(key, |data|, now);
      var stored := storage.CreateArtifact(Identifier(key, None), Reader(data, false), |data|, Some(meta), now);
      if stored.Err? && !stored.error.HashConflict? {
        return Err(stored.error);
      }
      ghost var start := storage.disk;
      var refs := [Reference(TagName(name, reference), alias, now, "", map[]), Reference(name, alias, now, "", map[])];
      for i := 0 to 2
        invariant storage.Valid()
        invariant i == 0 ==> storage.disk == start
        invariant i == 1 ==> AddReference(storage.sha, start, key, refs[0], |data|, now).1.Ok?
        invariant i >= 1 ==> AddReference(storage.sha, start, key, refs[0], |data|, now).1.Ok?
        invariant i == 1 ==> storage.disk == AddReference(storage.sha, start, key, refs[0], |data|, now).0
        invariant i == 2 ==>
                    var tagged := AddReference(storage.sha, start, key, refs[0], |data|, now).0;
                    && storage.disk == AddReference(storage.sha, tagged, key, refs[1], |data|, now).0
                    && AddReference(storage.sha, tagged, key, refs[1], |data|, now).1.Ok?
      {
        var added := storage.CreateArtifact(Identifier(key, Some(refs[i])), Nil, -1, Some(meta), now);
        if added.Err? {
          return Err(added.error);
        }
      }
      return Ok(());
    }

    method GetManifest(name: string, reference: string) returns (res: Result<Bytes>)
      requires storage.Valid()
      ensures res == Registry.GetManifest(storage.sha, storage.disk, alias, name, reference)
    {
      hide Store.ReadBlob;
      var ref := Reference(TagName(name, reference), alias, 0, "", map[]);
      var meta := storage.GetMeta(Identifier("", Some(ref)));
      if meta.Err? {
        return Err(meta.error);
      }
      var blob := storage.ReadBlob(Identifier(meta.value.hash, None), ByteRange(0, -1));
      if blob.Err? {
        return Err(blob.error);
      }
      return Ok(blob.value.0);
    }
  }
}
