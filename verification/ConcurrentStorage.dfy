/**
 * ConcurrentArtifactStorage: the storage behind per-hash reader/writer locks. Each call either fails to
 * get its lock and changes nothing, or does what the storage does; only an open stream keeps a lock.
 * What this buys several clients at once is proved in LockedRuns.dfy.
 */
module ConcurrentStorage {
  import opened Digests
  import opened Layout
  import opened Ranges
  import opened Store
  import opened StoreAnswers
  import opened FileStorage
  import opened Locks
  import LockedRuns

  /** An open lock file. */
  datatype FileLock = FileLock(path: Path, descriptor: nat)

  /** The hash that CreateArtifact locks; without one it goes to the storage unlocked. */
  function CreateLockHash(id: Identifier, meta: Option<ArtifactMeta>): Option<string> {
    if id.hash != "" then Some(id.hash)
    else if id.reference.Some? then
      if meta.Some? && meta.value.hash != "" then Some(meta.value.hash) else None
    else Some("")
  }

  /**
   * What a create locks: the hash that it is about. Without one there is nothing to lock when only the
   * metadata could have named it; every other refused create locks the hash of its identifier first.
   */
  lemma LockedHashIsTheTarget(id: Identifier, meta: Option<ArtifactMeta>)
    ensures Target(id, meta).Ok? ==> CreateLockHash(id, meta) == Some(Target(id, meta).value)
    ensures Target(id, meta).Err? ==>
              CreateLockHash(id, meta) == if Target(id, meta).error == MissingMetaHash then None else Some(id.hash)
  {
    TargetAnswers(id, meta);
  }

  /** A call as its caller sees it: a lock that cannot be had is an error of the call's own kind. */
  function Told(op: LockedRuns.Op, outcome: LockedRuns.Outcome): LockedRuns.Outcome {
    if !outcome.TimedOut? then outcome
    else match op
      case CreateOp(_, _, _, _, _) => LockedRuns.OfMeta(Err(LockTimeout))
      case MetaOp(_) => LockedRuns.OfMeta(Err(LockTimeout))
      case ReadOp(_, _) => LockedRuns.NoStream(LockTimeout)
      case _ => LockedRuns.OfUnit(Err(LockTimeout))
  }

  /**
   * One client's call as LockedRuns has it: exclusive for the writers and shared for the readers, on the
   * lock file of the call's hash, and one operation of the storage once that is granted.
   */
  function LockedCall(sha: Sha256, d: Disk, lockDir: Path, locks: LockTable<Path>, op: LockedRuns.Op, expired: bool)
    : (Disk, LockedRuns.Outcome)
    requires LockedRuns.IsCall(op)
  {
    if expired || !CanLock(locks, LockPath(lockDir, op.hash), LockedRuns.IsWriter(op)) then (d, Told(op, LockedRuns.TimedOut))
    else LockedRuns.Atomic(sha, d, op)
  }

  class ConcurrentArtifactStorage {
    const storage: SimpleFileStorage
    const lockDir: Path
    var locks: LockTable<Path>
    var descriptors: nat

    constructor (storage: SimpleFileStorage, lockDir: Path)
      requires storage.Valid()
      ensures Valid() && this.storage == storage && this.lockDir == lockDir && locks == map[]
    {
      this.storage, this.lockDir, locks, descriptors := storage, lockDir, map[], 0;
    }

    /** Descriptors are handed out once, and a shared lock has a holder. */
    ghost predicate Valid()
      reads this, storage
    {
      && storage.Valid()
      && (forall k | k in locks && locks[k].Exclusive? :: locks[k].holder < descriptors)
      && (forall k | k in locks && locks[k].Shared? :: locks[k].holders != {})
      && (forall k, p | k in locks && locks[k].Shared? && p in locks[k].holders :: p < descriptors)
    }

    predicate CanAcquire(hash: string, exclusive: bool)
      reads this`locks
    {
      CanLock(locks, LockPath(lockDir, hash), exclusive)
    }

    /** `expired`: the deadline passes first, even though the lock is free. */
    method AcquireLock(hash: string, exclusive: bool, expired: bool) returns (res: Result<FileLock>)
      requires Valid()
      modifies this`locks, this`descriptors
      ensures Valid()
      ensures res.Ok? <==> !expired && old(CanAcquire(hash, exclusive))
      ensures res.Ok? ==> var lock := res.value;
                          && lock.path == LockPath(lockDir, hash)
                          && locks == Locked(old(locks), lock.path, lock.descriptor, exclusive)
                          && Unlocked(locks, lock.path, lock.descriptor) == old(locks)
      ensures res.Err? ==> res.error == LockTimeout && locks == old(locks)
    {
      hide SimpleFileStorage.Valid, LockPath;
      var path := LockPath(lockDir, hash);
      if expired || !CanLock(locks, path, exclusive) {
        return Err(LockTimeout);
      }
      LockThenUnlock(locks, path, descriptors, exclusive);
      locks := Locked(locks, path, descriptors, exclusive);
      res := Ok(FileLock(path, descriptors));
      descriptors := descriptors + 1;
    }

    method Unlock(lock: FileLock)
      requires Valid()
      modifies this`locks
      ensures Valid() && locks == Unlocked(old(locks), lock.path, lock.descriptor)
    {
      hide SimpleFileStorage.Valid;
      locks := Unlocked(locks, lock.path, lock.descriptor);
    }

    method CreateArtifact(id: Identifier, r: Reader, size: int, meta: Option<ArtifactMeta>, now: int, expired: bool)
      returns (res: Result<ArtifactMeta>)
      requires Valid() && SafeId(id) && (meta.Some? ==> SafeOrEmpty(meta.value.hash))
      modifies this`locks, this`descriptors, storage
      ensures Valid() && locks == old(locks)
      ensures match Target(id, meta)
              case Ok(hash) =>
                if expired || !CanLock(old(locks), LockPath(lockDir, hash), true) then
                  res == Err(LockTimeout) && storage.disk == old(storage.disk)
                else
                  && res == CreatePlan(storage.sha, old(storage.disk), id, r, size, meta, now).result
                  && storage.disk == Create(storage.sha, old(storage.disk), id, r, size, meta, now)
              case Err(e) =>
                && storage.disk == old(storage.disk)
                && res == if e != MissingMetaHash && (expired || !CanLock(old(locks), LockPath(lockDir, id.hash), true))
                          then Err(LockTimeout) else Err(e)
      ensures id.reference.None? && IsSafe(id.hash) && Target(id, meta).Ok? ==>
                (storage.disk, LockedRuns.OfMeta(res)) ==
                LockedCall(storage.sha, old(storage.disk), lockDir, old(locks),
                           LockedRuns.CreateOp(id.hash, r, size, meta, now), expired)
    {
      hide SimpleFileStorage.Valid, CreatePlan, Create, Locked, Unlocked, LockPath, Target, CreateLockHash;
      LockedHashIsTheTarget(id, meta);
      TargetAnswers(id, meta);
      if Target(id, meta).Err? {
        BrokenCreateAnswers(storage.sha, storage.disk, id, r, size, meta, now);
      }
      var key := CreateLockHash(id, meta);
      if key.None? {
        res := storage.CreateArtifact(id, r, size, meta, now);
        return;
      }
      var lock := AcquireLock(key.value, true, expired);
      if lock.Err? {
        return Err(lock.error);
      }
      res := storage.CreateArtifact(id, r, size, meta, now);
      Unlock(lock.value);
    }

    /** On success the shared lock stays with the stream. */
    method ReadBlob(id: Identifier, req: ByteRange, expired: bool)
      returns (res: Result<(LockReleasingReadCloser, ByteRange)>)
      requires Valid() && SafeId(id)
      modifies this`locks, this`descriptors
      ensures Valid()
      ensures res.Err? ==> locks == old(locks)
      ensures match Resolve(storage.sha, storage.disk, id)
              case Err(e) => res == Err(e)
              case Ok(hash) =>
                if expired || !old(CanAcquire(hash, false)) then res == Err(LockTimeout)
                else match Store.ReadBlob(storage.sha, storage.disk, id, req)
                  case Err(e) => res == Err(e)
                  case Ok((bytes, actual)) =>
                    && res.Ok? && res.value.1 == actual
                    && var stream := res.value.0;
                    && fresh(stream) && stream.owner == this && stream.hash == hash && stream.actual == actual
                    && stream.got == [] && !stream.closed
                    && stream.lock.path == LockPath(lockDir, hash)
                    && locks == Locked(old(locks), stream.lock.path, stream.lock.descriptor, false)
                    && Unlocked(locks, stream.lock.path, stream.lock.descriptor) == old(locks)
      ensures id == Identifier(id.hash, None) && IsSafe(id.hash) ==>
                var seen := LockedCall(storage.sha, storage.disk, lockDir, old(locks), LockedRuns.ReadOp(id.hash, req), expired).1;
                match res
                case Ok((stream, actual)) => seen.OfStream? && seen.actual == actual
                case Err(e) => seen == LockedRuns.NoStream(e)
    {
      hide SimpleFileStorage.Valid, Locked, Unlocked, LockPath;
      var hash := storage.ResolveIdentifier(id);
      if hash.Err? {
        return Err(hash.error);
      }
      var lock := AcquireLock(hash.value, false, expired);
      if lock.Err? {
        return Err(lock.error);
      }
      var blob := storage.ReadBlob(id, req);
      if blob.Err? {
        Unlock(lock.value);
        return Err(blob.error);
      }
      var stream := new LockReleasingReadCloser(this, lock.value, hash.value, blob.value.1);
      return Ok((stream, blob.value.1));
    }

    method UpdateBlob(id: Identifier, req: ByteRange, r: Reader, expired: bool) returns (res: Result<()>)
      requires Valid() && SafeId(id) && r.Reader?
      modifies this`locks, this`descriptors, storage
      ensures Valid() && locks == old(locks)
      ensures match Resolve(storage.sha, old(storage.disk), id)
              case Err(e) => res == Err(e) && storage.disk == old(storage.disk)
              case Ok(hash) =>
                if expired || !old(CanAcquire(hash, true)) then res == Err(LockTimeout) && storage.disk == old(storage.disk)
                else (storage.disk, res) == Store.UpdateBlob(storage.sha, old(storage.disk), id, req, r)
      ensures id == Identifier(id.hash, None) && IsSafe(id.hash) ==>
                (storage.disk, LockedRuns.OfUnit(res)) ==
                LockedCall(storage.sha, old(storage.disk), lockDir, old(locks), LockedRuns.UpdateOp(id.hash, req, r, []), expired)
    {
      hide SimpleFileStorage.Valid, Locked, Unlocked, LockPath, Store.UpdateBlob;
      var hash := storage.ResolveIdentifier(id);
      if hash.Err? {
        return Err(hash.error);
      }
      var lock := AcquireLock(hash.value, true, expired);
      if lock.Err? {
        return Err(lock.error);
      }
      res := storage.UpdateBlob(id, req, r);
      Unlock(lock.value);
    }

    method DeleteArtifact(id: Identifier, expired: bool) returns (res: Result<()>)
      requires Valid() && SafeId(id)
      modifies this`locks, this`descriptors, storage
      ensures Valid() && locks == old(locks)
      ensures match Resolve(storage.sha, old(storage.disk), id)
              case Err(e) => res == Err(e) && storage.disk == old(storage.disk)
              case Ok(hash) =>
                if expired || !old(CanAcquire(hash, true)) then res == Err(LockTimeout) && storage.disk == old(storage.disk)
                else (storage.disk, res) == Delete(storage.sha, old(storage.disk), id)
      ensures id == Identifier(id.hash, None) && IsSafe(id.hash) ==>
                (storage.disk, LockedRuns.OfUnit(res)) ==
                LockedCall(storage.sha, old(storage.disk), lockDir, old(locks), LockedRuns.DeleteOp(id.hash), expired)
    {
      hide SimpleFileStorage.Valid, Locked, Unlocked, LockPath, Delete;
      var hash := storage.ResolveIdentifier(id);
      if hash.Err? {
        return Err(hash.error);
      }
      var lock := AcquireLock(hash.value, true, expired);
      if lock.Err? {
        return Err(lock.error);
      }
      res := storage.DeleteArtifact(id);
      Unlock(lock.value);
    }

    method GetMeta(id: Identifier, expired: bool) returns (res: Result<ArtifactMeta>)
      requires Valid() && SafeId(id)
      modifies this`locks, this`descriptors
      ensures Valid() && locks == old(locks)
      ensures match Resolve(storage.sha, storage.disk, id)
              case Err(e) => res == Err(e)
              case Ok(hash) =>
                res == if expired || !old(CanAcquire(hash, false)) then Err(LockTimeout)
                       else Store.GetMeta(storage.sha, storage.disk, id)
      ensures id == Identifier(id.hash, None) && IsSafe(id.hash) ==>
                LockedRuns.OfMeta(res) ==
                LockedCall(storage.sha, storage.disk, lockDir, old(locks), LockedRuns.MetaOp(id.hash), expired).1
    {
      hide SimpleFileStorage.Valid, Locked, Unlocked, LockPath, Store.GetMeta;
      var hash := storage.ResolveIdentifier(id);
      if hash.Err? {
        return Err(hash.error);
      }
      var lock := AcquireLock(hash.value, false, expired);
      if lock.Err? {
        return Err(lock.error);
      }
      res := storage.GetMeta(id);
      Unlock(lock.value);
    }

    /** Locks the destination only. */
    method Move(src: string, dst: string, expired: bool) returns (res: Result<()>)
      requires Valid() && IsSafe(src) && IsSafe(dst)
      modifies this`locks, this`descriptors, storage
      ensures Valid() && locks == old(locks)
      ensures if expired || !old(CanAcquire(dst, true)) then res == Err(LockTimeout) && storage.disk == old(storage.disk)
              else (storage.disk, res) == Store.Move(old(storage.disk), src, dst)
      ensures (storage.disk, LockedRuns.OfUnit(res)) ==
              LockedCall(storage.sha, old(storage.disk), lockDir, old(locks), LockedRuns.MoveOp(src, dst), expired)
    {
      hide SimpleFileStorage.Valid, Locked, Unlocked, LockPath, Store.Move;
      var lock := AcquireLock(dst, true, expired);
      if lock.Err? {
        return Err(lock.error);
      }
      res := storage.Move(src, dst);
      Unlock(lock.value);
    }
  }

  /** The stream of ReadBlob: a section of the file, read piece by piece, and the lock it gives back. */
  class LockReleasingReadCloser {
    const owner: ConcurrentArtifactStorage
    const lock: FileLock
    const hash: string
    const actual: ByteRange
    var got: Bytes
    var closed: bool

    constructor (owner: ConcurrentArtifactStorage, lock: FileLock, hash: string, actual: ByteRange)
      ensures this.owner == owner && this.lock == lock && this.hash == hash && this.actual == actual
      ensures got == [] && !closed
    {
      this.owner, this.lock, this.hash, this.actual, got, closed := owner, lock, hash, actual, [], false;
    }

    method Read(n: nat) returns (res: Result<Bytes>)
      requires owner.Valid() && IsSafe(hash)
      modifies this`got
      ensures closed ==> res == Err(SessionClosed) && got == old(got)
      ensures !closed ==>
                && res == Ok(LockedRuns.Piece(owner.storage.disk, hash, actual, old(got), n))
                && got == old(got) + res.value
    {
      if closed {
        return Err(SessionClosed);
      }
      var section := [];
      var path := PathOf(owner.storage.base, Blob(hash));
      FileIsThere(owner.storage.base, owner.storage.files, owner.storage.disk, Blob(hash));
      if path in owner.storage.files && actual.offset >= 0 && actual.length >= 0 {
        var file := owner.storage.files[path];
        section := Section(if file.Data? then file.bytes else [], actual.offset, actual.length);
      }
      var piece := section[Min(|got|, |section|)..Min(|got| + n, |section|)];
      got := got + piece;
      return Ok(piece);
    }

    /** The lock goes back; a second Close finds the file closed, and flock's Unlock of it then does nothing. */
    method Close() returns (res: Result<()>)
      requires owner.Valid()
      modifies this`closed, owner`locks
      ensures owner.Valid() && closed
      ensures owner.locks ==
              if old(closed) then old(owner.locks) else Unlocked(old(owner.locks), lock.path, lock.descriptor)
      ensures res == if old(closed) then Err(SessionClosed) else Ok(())
    {
      if closed {
        return Err(SessionClosed);
      }
      closed := true;
      owner.Unlock(lock);
      return Ok(());
    }
  }
}
